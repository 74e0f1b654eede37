/** The three tables the panel draws from the ledger (mt4-panel.py):
    `draw_symbols` (one row per symbol with a live position), `draw_orders`
    (one row per order) and `draw_pending` (one row per pending order). Each
    walks `sorted(symbols)` and, inside a symbol, its sorted tickets; a table
    is modelled as its sequence of rows, without the formatting. */
module Views {
  import opened Sorting
  import opened Ledger
  import opened Aggregate

  /** Every filed ticket has an order: what the views need to look orders up. */
  ghost predicate Resolved(b: Book) {
    forall n :: n in b.symbols ==> b.symbols[n].tickets <= b.orders.Keys
  }

  lemma ValidResolved(b: Book)
    requires Valid(b)
    ensures Resolved(b)
  {
    forall n | n in b.symbols ensures b.symbols[n].tickets <= b.orders.Keys {
      forall k | k in b.symbols[n].tickets ensures k in b.orders.Keys {
        assert Linked(b);
      }
    }
  }

  /** `sorted(symbols)`. */
  function Names(b: Book): (ns: seq<string>)
    ensures forall n :: n in ns <==> n in b.symbols
    ensures Ascending(ns, StrLe)
  {
    StrLeTotal();
    SortedSeq(b.symbols.Keys, StrLe)
  }

  // ---------------------------------------------------------------------------
  // draw_symbols

  /** One row of the positions table; `loss` is the red styling of the total. */
  datatype PositionRow = PositionRow(
    name: string, position: Position, profit: real, swap: real, total: real, loss: bool)

  function RowOf(b: Book, n: string): PositionRow
    requires n in b.symbols && b.symbols[n].tickets <= b.orders.Keys
  {
    var s := b.symbols[n];
    var total := Total(b.orders, s);
    PositionRow(s.name, PositionOf(b.orders, s), Profit(b.orders, s), Swap(b.orders, s), total, total < 0.0)
  }

  /** The names of `ns` whose symbol has a live position, in the order of `ns`. */
  function ShownAmong(b: Book, ns: seq<string>): (r: seq<string>)
    requires Resolved(b)
    requires forall i :: 0 <= i < |ns| ==> ns[i] in b.symbols
    ensures forall n :: n in r <==> n in ns && n in b.symbols && HasOpenOrders(b.orders, b.symbols[n])
  {
    if ns == [] then []
    else
      var init, last := ns[..|ns| - 1], ns[|ns| - 1];
      assert ns == init + [last];
      var shown := HasOpenOrders(b.orders, b.symbols[last]);
      ShownAmong(b, init) + (if shown then [last] else [])
  }

  lemma {:induction false} ShownAmongAscending(b: Book, ns: seq<string>)
    requires Resolved(b)
    requires forall i :: 0 <= i < |ns| ==> ns[i] in b.symbols
    requires Ascending(ns, StrLe)
    ensures Ascending(ShownAmong(b, ns), StrLe)
  {
    if ns != [] {
      var init, last := ns[..|ns| - 1], ns[|ns| - 1];
      assert forall i :: 0 <= i < |init| ==> init[i] == ns[i];
      ShownAmongAscending(b, init);
      var r0 := ShownAmong(b, init);
      forall i | 0 <= i < |r0| ensures StrLe(r0[i], last) && r0[i] != last {
        assert r0[i] in init;
        var j :| 0 <= j < |init| && init[j] == r0[i];
      }
    }
  }

  /** The symbols `draw_symbols` lists, in the order it lists them: exactly
      those with a BUY or SELL order, ascending by name. */
  function ShownSymbols(b: Book): (ns: seq<string>)
    requires Resolved(b)
    ensures Ascending(ns, StrLe)
    ensures forall n :: n in ns <==> n in b.symbols && HasOpenOrders(b.orders, b.symbols[n])
  {
    var ns := Names(b);
    ShownAmongAscending(b, ns);
    ShownAmong(b, ns)
  }

  function RowsOf(b: Book, ns: seq<string>): (rows: seq<PositionRow>)
    requires Resolved(b)
    requires forall i :: 0 <= i < |ns| ==> ns[i] in b.symbols
    ensures |rows| == |ns|
    ensures forall i :: 0 <= i < |ns| ==> rows[i] == RowOf(b, ns[i])
  {
    if ns == [] then []
    else RowsOf(b, ns[..|ns| - 1]) + [RowOf(b, ns[|ns| - 1])]
  }

  /** `draw_symbols()`. */
  function PositionRows(b: Book): (rows: seq<PositionRow>)
    requires Resolved(b)
  {
    RowsOf(b, ShownSymbols(b))
  }

  /** A row is named after the name its symbol is stored under. */
  lemma RowOfName(b: Book, n: string)
    requires Valid(b) && n in b.symbols
    ensures b.symbols[n].tickets <= b.orders.Keys && RowOf(b, n).name == n
  {
    ValidResolved(b);
  }

  /** On a valid ledger each row of the positions table is named after the
      symbol it was drawn for. */
  lemma PositionRowsNames(b: Book)
    requires Valid(b)
    ensures Resolved(b)
    ensures var rows, ns := PositionRows(b), ShownSymbols(b);
      |rows| == |ns| && forall i :: 0 <= i < |rows| ==> rows[i].name == ns[i]
  {
    ValidResolved(b);
    var ns, rows := ShownSymbols(b), PositionRows(b);
    forall i | 0 <= i < |rows| ensures rows[i].name == ns[i] {
      assert ns[i] in ns;
      RowOfName(b, ns[i]);
    }
  }

  /** The positions table is in name order and names no symbol twice. */
  lemma PositionRowsOrdered(b: Book)
    requires Valid(b)
    ensures Resolved(b)
    ensures var rows := PositionRows(b);
      forall i, j :: 0 <= i < j < |rows| ==> StrLe(rows[i].name, rows[j].name) && rows[i].name != rows[j].name
  {
    PositionRowsNames(b);
  }

  /** Rows named, one by one, after the names `ns` mention exactly those names. */
  lemma RowNames(rows: seq<PositionRow>, ns: seq<string>)
    requires |rows| == |ns| && forall i :: 0 <= i < |rows| ==> rows[i].name == ns[i]
    ensures forall n :: (exists i :: 0 <= i < |rows| && rows[i].name == n) <==> n in ns
  {
    forall n | n in ns ensures exists i :: 0 <= i < |rows| && rows[i].name == n {
      var i :| 0 <= i < |ns| && ns[i] == n;
      assert rows[i].name == n;
    }
  }

  /** The positions table lists exactly the symbols with a BUY or SELL order. */
  lemma PositionRowsComplete(b: Book)
    requires Valid(b)
    ensures Resolved(b)
    ensures var rows := PositionRows(b);
      forall n :: (exists i :: 0 <= i < |rows| && rows[i].name == n) <==>
        n in b.symbols && HasOpenOrders(b.orders, b.symbols[n])
  {
    PositionRowsNames(b);
    RowNames(PositionRows(b), ShownSymbols(b));
  }

  /** A positions row carries its symbol's position, and a total that is the
      profit plus the swap, i.e. the sum of the totals of the symbol's
      orders, shown as a loss exactly when it is negative. */
  lemma RowOfFigures(b: Book, n: string)
    requires n in b.symbols && b.symbols[n].tickets <= b.orders.Keys
    ensures var row := RowOf(b, n);
      && row.position == PositionOf(b.orders, b.symbols[n])
      && row.total == row.profit + row.swap
      && row.total == SumOver(b.orders, TicketSeq(b.symbols[n]), TotalOf)
      && (row.loss <==> row.total < 0.0)
  {
    TotalIsSumOfOrderTotals(b.orders, b.symbols[n]);
  }

  /** Each row of the positions table carries the figures of the symbol it
      was drawn for. */
  lemma PositionRowsFigures(b: Book)
    requires Resolved(b)
    ensures var rows, ns := PositionRows(b), ShownSymbols(b);
      forall i :: 0 <= i < |rows| ==>
        && ns[i] in b.symbols
        && rows[i].position == PositionOf(b.orders, b.symbols[ns[i]])
        && rows[i].total == rows[i].profit + rows[i].swap
        && rows[i].total == SumOver(b.orders, TicketSeq(b.symbols[ns[i]]), TotalOf)
        && (rows[i].loss <==> rows[i].total < 0.0)
  {
    var ns := ShownSymbols(b);
    var rows := PositionRows(b);
    forall i | 0 <= i < |rows|
      ensures && ns[i] in b.symbols
              && rows[i].position == PositionOf(b.orders, b.symbols[ns[i]])
              && rows[i].total == rows[i].profit + rows[i].swap
              && rows[i].total == SumOver(b.orders, TicketSeq(b.symbols[ns[i]]), TotalOf)
              && (rows[i].loss <==> rows[i].total < 0.0)
    {
      assert ns[i] in ns;
      assert rows[i] == RowOf(b, ns[i]);
      RowOfFigures(b, ns[i]);
    }
  }

  // ---------------------------------------------------------------------------
  // The (symbol, ticket) walk of draw_orders and draw_pending

  /** Ascending by symbol name, then by ticket. */
  predicate PairLe(p: (string, int), q: (string, int)) {
    (p.0 != q.0 && StrLe(p.0, q.0)) || (p.0 == q.0 && p.1 <= q.1)
  }

  /** The tickets of `ks`, under symbol `n`, whose order `keep` accepts. */
  function Pick(b: Book, n: string, ks: seq<int>, keep: Order -> bool): (r: seq<(string, int)>)
    requires forall i :: 0 <= i < |ks| ==> ks[i] in b.orders
    ensures forall p :: p in r <==> p.0 == n && p.1 in ks && p.1 in b.orders && keep(b.orders[p.1])
  {
    if ks == [] then []
    else
      var init, last := ks[..|ks| - 1], ks[|ks| - 1];
      assert ks == init + [last];
      var picked := keep(b.orders[last]);
      Pick(b, n, init, keep) + (if picked then [(n, last)] else [])
  }

  /** The pairs of the symbols `ns`, one symbol after another. */
  function Walk(b: Book, ns: seq<string>, keep: Order -> bool): (r: seq<(string, int)>)
    requires Resolved(b)
    requires forall i :: 0 <= i < |ns| ==> ns[i] in b.symbols
    ensures forall p :: p in r <==>
      p.0 in ns && p.0 in b.symbols && p.1 in b.symbols[p.0].tickets && p.1 in b.orders && keep(b.orders[p.1])
  {
    if ns == [] then []
    else
      var init, last := ns[..|ns| - 1], ns[|ns| - 1];
      assert ns == init + [last];
      var ks := TicketSeq(b.symbols[last]);
      assert forall i :: 0 <= i < |ks| ==> ks[i] in b.symbols[last].tickets;
      Walk(b, init, keep) + Pick(b, last, ks, keep)
  }

  lemma {:induction false} PickAscending(b: Book, n: string, ks: seq<int>, keep: Order -> bool)
    requires forall i :: 0 <= i < |ks| ==> ks[i] in b.orders
    requires Ascending(ks, IntLe)
    ensures Ascending(Pick(b, n, ks, keep), PairLe)
  {
    if ks != [] {
      var init, last := ks[..|ks| - 1], ks[|ks| - 1];
      assert forall i :: 0 <= i < |init| ==> init[i] == ks[i];
      PickAscending(b, n, init, keep);
      var r0 := Pick(b, n, init, keep);
      forall i | 0 <= i < |r0| ensures r0[i].0 == n && r0[i].1 < last {
        assert r0[i] in r0;
        var j :| 0 <= j < |init| && init[j] == r0[i].1;
      }
    }
  }

  /** Every pair of `Walk(b, init, keep)` comes before every pair of the
      symbol `last` that follows all of `init`. */
  lemma WalkBefore(b: Book, init: seq<string>, last: string, keep: Order -> bool)
    requires Resolved(b) && last in b.symbols
    requires forall i :: 0 <= i < |init| ==> init[i] in b.symbols
    requires forall i :: 0 <= i < |init| ==> StrLe(init[i], last) && init[i] != last
    ensures var r0, r1 := Walk(b, init, keep), Pick(b, last, TicketSeq(b.symbols[last]), keep);
      forall i, j :: 0 <= i < |r0| && 0 <= j < |r1| ==> PairLe(r0[i], r1[j]) && r0[i] != r1[j]
  {
    var ks := TicketSeq(b.symbols[last]);
    assert forall i :: 0 <= i < |ks| ==> ks[i] in b.symbols[last].tickets;
    var r0, r1 := Walk(b, init, keep), Pick(b, last, ks, keep);
    forall i, j | 0 <= i < |r0| && 0 <= j < |r1| ensures PairLe(r0[i], r1[j]) && r0[i] != r1[j] {
      assert r0[i] in r0 && r1[j] in r1;
      var m :| 0 <= m < |init| && init[m] == r0[i].0;
    }
  }

  lemma {:induction false} WalkAscending(b: Book, ns: seq<string>, keep: Order -> bool)
    requires Resolved(b)
    requires forall i :: 0 <= i < |ns| ==> ns[i] in b.symbols
    requires Ascending(ns, StrLe)
    ensures Ascending(Walk(b, ns, keep), PairLe)
  {
    if ns != [] {
      var init, last := ns[..|ns| - 1], ns[|ns| - 1];
      assert forall i :: 0 <= i < |init| ==> init[i] == ns[i];
      WalkAscending(b, init, keep);
      var ks := TicketSeq(b.symbols[last]);
      assert forall i :: 0 <= i < |ks| ==> ks[i] in b.symbols[last].tickets;
      PickAscending(b, last, ks, keep);
      WalkBefore(b, init, last, keep);
      AscendingConcat(Walk(b, init, keep), Pick(b, last, ks, keep), PairLe);
    }
  }

  /** The (symbol, ticket) pairs a table lists: every filed order `keep`
      accepts, once, ordered by symbol name and then by ticket. */
  function Listed(b: Book, keep: Order -> bool): (r: seq<(string, int)>)
    requires Resolved(b)
    ensures forall p :: p in r <==>
      p.0 in b.symbols && p.1 in b.symbols[p.0].tickets && p.1 in b.orders && keep(b.orders[p.1])
    ensures forall i :: 0 <= i < |r| ==>
      r[i].0 in b.symbols && r[i].1 in b.symbols[r[i].0].tickets && r[i].1 in b.orders && keep(b.orders[r[i].1])
  {
    var r := Walk(b, Names(b), keep);
    assert forall i :: 0 <= i < |r| ==> r[i] in r;
    r
  }

  lemma ListedAscending(b: Book, keep: Order -> bool)
    requires Resolved(b)
    ensures Ascending(Listed(b, keep), PairLe)
  {
    WalkAscending(b, Names(b), keep);
  }

  /** On a valid ledger a listed pair is an order's own symbol and ticket,
      and the symbol is stored under its own name. */
  lemma ListedKeys(b: Book, keep: Order -> bool)
    requires Valid(b)
    ensures Resolved(b)
    ensures var r := Listed(b, keep);
      forall i :: 0 <= i < |r| ==>
        && r[i].0 == b.orders[r[i].1].symbol
        && r[i].1 == b.orders[r[i].1].ticket
        && r[i].0 == b.symbols[r[i].0].name
  {
    ValidResolved(b);
    var r := Listed(b, keep);
    forall i | 0 <= i < |r|
      ensures r[i].0 == b.orders[r[i].1].symbol && r[i].1 == b.orders[r[i].1].ticket
    {
      var n, k := r[i].0, r[i].1;
      assert n in b.symbols && k in b.symbols[n].tickets;
      assert Linked(b) && Keyed(b.orders);
      assert b.orders[k].symbol == n;
    }
  }

  /** On a valid ledger a ticket is listed exactly when `keep` accepts its
      order. */
  lemma ListedExactly(b: Book, keep: Order -> bool)
    requires Valid(b)
    ensures Resolved(b)
    ensures var r := Listed(b, keep);
      forall k :: (k in b.orders && keep(b.orders[k])) <==> exists i :: 0 <= i < |r| && r[i].1 == k
  {
    ValidResolved(b);
    var r := Listed(b, keep);
    forall k | k in b.orders && keep(b.orders[k]) ensures exists i :: 0 <= i < |r| && r[i].1 == k {
      assert Filed(b);
      var p := (b.orders[k].symbol, k);
      assert p in r;
      var i :| 0 <= i < |r| && r[i] == p;
    }
  }

  /** On a valid ledger the listed pairs are ordered by symbol and then by
      ticket, and no ticket is listed twice. */
  lemma ListedOrdered(b: Book, keep: Order -> bool)
    requires Valid(b)
    ensures Resolved(b)
    ensures var r := Listed(b, keep);
      forall i, j :: 0 <= i < j < |r| ==> PairLe(r[i], r[j]) && r[i].1 != r[j].1
  {
    ValidResolved(b);
    ListedAscending(b, keep);
    ListedKeys(b, keep);
  }

  /** A ledger whose one symbol `n` files the one ticket `k` lists that
      ticket alone, if `keep` accepts its order. */
  lemma SingleListed(b: Book, n: string, k: int, keep: Order -> bool)
    requires b.symbols.Keys == {n} && b.symbols[n].tickets == {k} && k in b.orders
    ensures Resolved(b)
    ensures Listed(b, keep) == if keep(b.orders[k]) then [(n, k)] else []
  {
    StrLeTotal();
    SortedSeqUnique({n}, StrLe, [n]);
    IntLeTotal();
    SortedSeqUnique({k}, IntLe, [k]);
    assert Names(b) == [n];
    assert TicketSeq(b.symbols[n]) == [k];
    assert [n][..0] == [] && [k][..0] == [];
    assert Pick(b, n, [k], keep) == if keep(b.orders[k]) then [(n, k)] else [];
    assert Walk(b, [n], keep) == Walk(b, [], keep) + Pick(b, n, [k], keep);
  }

  // ---------------------------------------------------------------------------
  // draw_orders

  datatype OrderRow = OrderRow(symbol: string, ticket: int, op: int, size: real, swap: real, profit: real)

  function OrderRowOf(o: Order): OrderRow {
    OrderRow(o.symbol, o.ticket, o.op, o.size, o.swap, o.profit)
  }

  /** The rows for the listed pairs, one per pair. */
  function OrderRowsOf(b: Book, ps: seq<(string, int)>): (rows: seq<OrderRow>)
    requires forall i :: 0 <= i < |ps| ==> ps[i].1 in b.orders
    ensures |rows| == |ps|
    ensures forall i :: 0 <= i < |ps| ==> rows[i] == OrderRowOf(b.orders[ps[i].1])
  {
    if ps == [] then []
    else
      assert forall i :: 0 <= i < |ps| - 1 ==> ps[..|ps| - 1][i] == ps[i];
      OrderRowsOf(b, ps[..|ps| - 1]) + [OrderRowOf(b.orders[ps[|ps| - 1].1])]
  }

  /** The row condition of `draw_orders` as written: a known order type, and
      then a pending type while pending orders are not hidden. */
  predicate ShownAsWritten(o: Order, hidePending: bool) {
    0 <= o.op <= 5 && o.op > 1 && !hidePending
  }

  /** The row condition `draw_orders` evidently intends: every BUY and SELL,
      and the pending types unless they are hidden. */
  predicate Shown(o: Order, hidePending: bool) {
    0 <= o.op <= 5 && (o.op <= 1 || !hidePending)
  }

  function AsWrittenFilter(hidePending: bool): Order -> bool {
    o => ShownAsWritten(o, hidePending)
  }

  function ShownFilter(hidePending: bool): Order -> bool {
    o => Shown(o, hidePending)
  }

  /** `draw_orders()` as written. It never lists a BUY or a SELL, and lists
      nothing at all while pending orders are hidden. */
  function OrderRowsAsWritten(b: Book, hidePending: bool): (rows: seq<OrderRow>)
    requires Resolved(b)
    ensures forall i :: 0 <= i < |rows| ==> 2 <= rows[i].op <= 5
    ensures hidePending ==> rows == []
  {
    OrderRowsOf(b, Listed(b, AsWrittenFilter(hidePending)))
  }

  /** `draw_orders()` with the evidently intended row condition: a row per
      order of a known type, pending types only while they are not hidden. */
  function OrderRows(b: Book, hidePending: bool): (rows: seq<OrderRow>)
    requires Resolved(b)
    ensures forall i :: 0 <= i < |rows| ==> 0 <= rows[i].op <= 5 && (hidePending ==> rows[i].op <= 1)
  {
    OrderRowsOf(b, Listed(b, ShownFilter(hidePending)))
  }

  /** Each row of the intended orders table is the listed pair it was drawn for. */
  lemma OrderRowsKeys(b: Book, hidePending: bool)
    requires Valid(b)
    ensures Resolved(b)
    ensures var ps, rows := Listed(b, ShownFilter(hidePending)), OrderRows(b, hidePending);
      |rows| == |ps| && forall i :: 0 <= i < |rows| ==> rows[i].symbol == ps[i].0 && rows[i].ticket == ps[i].1
  {
    ListedKeys(b, ShownFilter(hidePending));
  }

  /** On a valid ledger the intended orders table lists every BUY and SELL,
      every pending order unless they are hidden, and nothing else. */
  lemma OrderRowsComplete(b: Book, hidePending: bool)
    requires Valid(b)
    ensures Resolved(b)
    ensures var rows := OrderRows(b, hidePending);
      forall k :: k in b.orders && Shown(b.orders[k], hidePending) <==>
        exists i :: 0 <= i < |rows| && rows[i].ticket == k
  {
    var keep := ShownFilter(hidePending);
    OrderRowsKeys(b, hidePending);
    ListedExactly(b, keep);
    var ps, rows := Listed(b, keep), OrderRows(b, hidePending);
    forall k | k in b.orders && Shown(b.orders[k], hidePending)
      ensures exists i :: 0 <= i < |rows| && rows[i].ticket == k
    {
      assert keep(b.orders[k]);
      var i :| 0 <= i < |ps| && ps[i].1 == k;
      assert rows[i].ticket == k;
    }
    forall k | exists i :: 0 <= i < |rows| && rows[i].ticket == k
      ensures k in b.orders && Shown(b.orders[k], hidePending)
    {
      var i :| 0 <= i < |rows| && rows[i].ticket == k;
      assert ps[i].1 == k;
    }
  }

  /** The intended orders table is ordered by symbol and then by ticket, and
      lists no order twice. */
  lemma OrderRowsOrdered(b: Book, hidePending: bool)
    requires Valid(b)
    ensures Resolved(b)
    ensures var rows := OrderRows(b, hidePending);
      forall i, j :: 0 <= i < j < |rows| ==>
        PairLe((rows[i].symbol, rows[i].ticket), (rows[j].symbol, rows[j].ticket)) &&
        rows[i].ticket != rows[j].ticket
  {
    OrderRowsKeys(b, hidePending);
    ListedOrdered(b, ShownFilter(hidePending));
    var ps, rows := Listed(b, ShownFilter(hidePending)), OrderRows(b, hidePending);
    forall i, j | 0 <= i < j < |rows|
      ensures PairLe((rows[i].symbol, rows[i].ticket), (rows[j].symbol, rows[j].ticket))
      ensures rows[i].ticket != rows[j].ticket
    {
      assert (rows[i].symbol, rows[i].ticket) == ps[i];
      assert (rows[j].symbol, rows[j].ticket) == ps[j];
    }
  }

  // ---------------------------------------------------------------------------
  // draw_pending

  /** One row of the pending table: the order and its symbol's quote. */
  datatype PendingRow = PendingRow(
    symbol: string, ticket: int, op: int, size: real, openPrice: real,
    bid: real, ask: real, digits: int)

  predicate IsPending(o: Order) {
    o.op > 1
  }

  function PendingRowOf(s: Symbol, o: Order): PendingRow {
    PendingRow(s.name, o.ticket, o.op, o.size, o.openPrice, s.bid, s.ask, s.digits)
  }

  function PendingRowsOf(b: Book, ps: seq<(string, int)>): (rows: seq<PendingRow>)
    requires forall i :: 0 <= i < |ps| ==> ps[i].0 in b.symbols && ps[i].1 in b.orders
    ensures |rows| == |ps|
    ensures forall i :: 0 <= i < |ps| ==> rows[i] == PendingRowOf(b.symbols[ps[i].0], b.orders[ps[i].1])
  {
    if ps == [] then []
    else
      assert forall i :: 0 <= i < |ps| - 1 ==> ps[..|ps| - 1][i] == ps[i];
      var last := ps[|ps| - 1];
      PendingRowsOf(b, ps[..|ps| - 1]) + [PendingRowOf(b.symbols[last.0], b.orders[last.1])]
  }

  /** `draw_pending()`: only pending orders, each with its symbol's quote. */
  function PendingRows(b: Book): (rows: seq<PendingRow>)
    requires Resolved(b)
    ensures forall i :: 0 <= i < |rows| ==> rows[i].op > 1
  {
    PendingRowsOf(b, Listed(b, IsPending))
  }

  /** Each row of the pending table is the listed pair it was drawn for. */
  lemma PendingRowsKeys(b: Book)
    requires Valid(b)
    ensures Resolved(b)
    ensures var ps, rows := Listed(b, IsPending), PendingRows(b);
      |rows| == |ps| && forall i :: 0 <= i < |rows| ==> rows[i].symbol == ps[i].0 && rows[i].ticket == ps[i].1
  {
    ListedKeys(b, IsPending);
  }

  /** On a valid ledger the pending table lists every pending order and
      nothing else. */
  lemma PendingRowsComplete(b: Book)
    requires Valid(b)
    ensures Resolved(b)
    ensures var rows := PendingRows(b);
      forall k :: k in b.orders && IsPending(b.orders[k]) <==> exists i :: 0 <= i < |rows| && rows[i].ticket == k
  {
    PendingRowsKeys(b);
    ListedExactly(b, IsPending);
    var ps, rows := Listed(b, IsPending), PendingRows(b);
    forall k | k in b.orders && IsPending(b.orders[k])
      ensures exists i :: 0 <= i < |rows| && rows[i].ticket == k
    {
      var i :| 0 <= i < |ps| && ps[i].1 == k;
      assert rows[i].ticket == k;
    }
    forall k | exists i :: 0 <= i < |rows| && rows[i].ticket == k
      ensures k in b.orders && IsPending(b.orders[k])
    {
      var i :| 0 <= i < |rows| && rows[i].ticket == k;
      assert ps[i].1 == k;
    }
  }

  /** The pending table is ordered by symbol and then by ticket and lists no
      order twice. */
  lemma PendingRowsOrdered(b: Book)
    requires Valid(b)
    ensures Resolved(b)
    ensures var rows := PendingRows(b);
      forall i, j :: 0 <= i < j < |rows| ==>
        PairLe((rows[i].symbol, rows[i].ticket), (rows[j].symbol, rows[j].ticket)) &&
        rows[i].ticket != rows[j].ticket
  {
    PendingRowsKeys(b);
    ListedOrdered(b, IsPending);
    var ps, rows := Listed(b, IsPending), PendingRows(b);
    forall i, j | 0 <= i < j < |rows|
      ensures PairLe((rows[i].symbol, rows[i].ticket), (rows[j].symbol, rows[j].ticket))
      ensures rows[i].ticket != rows[j].ticket
    {
      assert (rows[i].symbol, rows[i].ticket) == ps[i];
      assert (rows[j].symbol, rows[j].ticket) == ps[j];
    }
  }

  /** Each pending row shows the quote of the order's own symbol. */
  lemma PendingRowsQuotes(b: Book)
    requires Valid(b)
    ensures Resolved(b)
    ensures var rows := PendingRows(b);
      forall i :: 0 <= i < |rows| ==>
        && rows[i].symbol in b.symbols
        && rows[i].ticket in b.orders
        && rows[i].symbol == b.orders[rows[i].ticket].symbol
        && var s := b.symbols[rows[i].symbol];
           rows[i].bid == s.bid && rows[i].ask == s.ask && rows[i].digits == s.digits
  {
    ListedKeys(b, IsPending);
    var ps := Listed(b, IsPending);
    var rows := PendingRows(b);
    forall i | 0 <= i < |rows|
      ensures rows[i].symbol == ps[i].0 && rows[i].ticket == ps[i].1
    {
    }
  }
}
