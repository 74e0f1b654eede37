/** The ledger and the positions table after the first message of a session:
    one BUY, one pending order, the same BUY once it has expired, and a BUY
    and a SELL of the same symbol netted into one position. */
module Scenarios {
  import opened Sorting
  import opened Ledger
  import opened LedgerFacts
  import opened Aggregate
  import opened Views

  /** A first message that lists one order of its own symbol. */
  ghost predicate OneOrder(msg: Message) {
    |msg.orders| == 1 && msg.orders[0].symbol == msg.quote.name
  }

  /** After a first message with one order the ledger holds that order alone,
      filed under a new symbol that carries the message's quote. */
  lemma FirstMessage(msg: Message, t: int)
    requires OneOrder(msg)
    ensures var b, f, q := Apply(Empty, msg, t), msg.orders[0], msg.quote;
      && Valid(b)
      && b.orders == map[f.ticket := NewOrder(f, t)]
      && b.symbols == map[q.name := Symbol(q.name, q.bid, q.ask, q.digits, {f.ticket})]
  {
    var f, q := msg.orders[0], msg.quote;
    var b1 := Empty.(balance := msg.balance, profit := msg.profit, equity := msg.equity);
    assert msg.orders[..0] == [];
    assert ApplyOrders(b1, q, msg.orders[..0], t) == b1;
    var b := ApplyOrder(b1, q, f, t);
    assert Apply(Empty, msg, t) == b;
    assert b.orders == map[f.ticket := NewOrder(f, t)];
    assert Keyed(b1.orders);
    var s := b.symbols[q.name];
    assert s.tickets == {f.ticket};
    assert s == Symbol(q.name, q.bid, q.ask, q.digits, {f.ticket}) by {
      assert s.(tickets := {}) == Symbol(f.symbol, q.bid, q.ask, q.digits, {});
    }
    assert b.symbols == map[q.name := s];
    ApplyValid(Empty, msg, t);
  }

  /** A symbol with one ticket: its sums are that order's figures. */
  lemma OneTicketSums(orders: map<int, Order>, s: Symbol, k: int)
    requires s.tickets == {k} && k in orders
    ensures Profit(orders, s) == orders[k].profit
    ensures Swap(orders, s) == orders[k].swap
    ensures NetLots(orders, s) == SignedLots(orders[k])
    ensures OpenCount(orders, s) == (if IsOpen(orders[k]) then 1 else 0)
  {
    assert [k][..0] == [];
    SumOrderIndependent(orders, s, [k], ProfitOf);
    SumOrderIndependent(orders, s, [k], SwapOf);
    SumOrderIndependent(orders, s, [k], SignedLots);
    OpenCountIsCardinality(orders, s);
    if IsOpen(orders[k]) {
      assert (set j | j in s.tickets && IsOpen(orders[j])) == {k};
    } else {
      assert (set j | j in s.tickets && IsOpen(orders[j])) == {};
    }
  }

  /** The only name of a sequence that is ascending and holds exactly `n`. */
  lemma SingleName(ns: seq<string>, n: string)
    requires Ascending(ns, StrLe)
    requires forall m :: m in ns <==> m == n
    ensures ns == [n]
  {
    StrLeTotal();
    SortedSeqUnique({n}, StrLe, ns);
    SortedSeqUnique({n}, StrLe, [n]);
  }

  /** A ledger whose only symbol `n` has an open order shows one row. */
  lemma OnlyRow(b: Book, n: string)
    requires Resolved(b) && b.symbols.Keys == {n}
    requires HasOpenOrders(b.orders, b.symbols[n])
    ensures PositionRows(b) == [RowOf(b, n)]
  {
    SingleName(ShownSymbols(b), n);
  }

  /** A ledger none of whose symbols has an open order shows no rows. */
  lemma NoRows(b: Book)
    requires Resolved(b)
    requires forall n :: n in b.symbols ==> !HasOpenOrders(b.orders, b.symbols[n])
    ensures PositionRows(b) == []
  {
    var ns := ShownSymbols(b);
    StrLeTotal();
    SortedSeqUnique({}, StrLe, ns);
    SortedSeqUnique({}, StrLe, []);
  }

  /** The row of a symbol whose one ticket is a BUY. */
  lemma OneBuyRow(b: Book, n: string, k: int)
    requires n in b.symbols && b.symbols[n].name == n && b.symbols[n].tickets == {k}
    requires k in b.orders && b.orders[k].op == OP_BUY && b.orders[k].size > 0.0
    ensures var o := b.orders[k];
      RowOf(b, n) == PositionRow(n, Long(o.size, 1), o.profit, o.swap, o.profit + o.swap, o.profit + o.swap < 0.0)
  {
    OneTicketSums(b.orders, b.symbols[n], k);
  }

  /** A ledger whose one symbol files one BUY shows one positions row: LONG
      with the order's size and no count, its profit, swap and their total. */
  lemma OneBuyRows(b: Book, n: string, k: int)
    requires Resolved(b) && b.symbols.Keys == {n}
    requires b.symbols[n].name == n && b.symbols[n].tickets == {k}
    requires k in b.orders && b.orders[k].op == OP_BUY && b.orders[k].size > 0.0
    ensures var o := b.orders[k];
      PositionRows(b) == [PositionRow(n, Long(o.size, 1), o.profit, o.swap, o.profit + o.swap, o.profit + o.swap < 0.0)]
  {
    assert HasOpenOrders(b.orders, b.symbols[n]) by {
      HasOpenOrdersIff(b.orders, b.symbols[n]);
      assert IsOpen(b.orders[k]);
    }
    OnlyRow(b, n);
    OneBuyRow(b, n, k);
  }

  /** The ledger `FirstMessage` describes, for a first message whose one
      order is a BUY, shows one positions row: LONG with the order's size and
      no count, its profit, swap and their total. */
  lemma SingleBuy(b: Book, f: Fragment, q: Quote, t: int)
    requires f.op == OP_BUY && f.size > 0.0
    requires b.orders == map[f.ticket := NewOrder(f, t)]
    requires b.symbols == map[q.name := Symbol(q.name, q.bid, q.ask, q.digits, {f.ticket})]
    ensures Resolved(b)
    ensures PositionRows(b) == [PositionRow(q.name, Long(f.size, 1), f.profit, f.swap,
                                            f.profit + f.swap, f.profit + f.swap < 0.0)]
  {
    OneBuyRows(b, q.name, f.ticket);
  }

  /** A ledger holding one BUY of 1.0 lot of EURUSD. */
  function OneBuy(): (b: Book)
    ensures Valid(b)
  {
    Book(1000.0, 50.0, 1050.0,
         map[1 := Order(1, 0, OP_BUY, 1.0, "EURUSD", 1.1, 0.0, 0.0, -2.0, 50.0, 0)],
         map["EURUSD" := Symbol("EURUSD", 1.1, 1.1002, 4, {1})])
  }

  /** `draw_orders()` as written shows nothing for a ledger whose only order
      is a BUY, whether or not pending orders are hidden. */
  lemma OrderRowsAsWrittenHidesBuy(hidePending: bool)
    ensures OneBuy().orders.Keys == {1} && OneBuy().orders[1].op == OP_BUY
    ensures Resolved(OneBuy()) && OrderRowsAsWritten(OneBuy(), hidePending) == []
  {
    SingleListed(OneBuy(), "EURUSD", 1, AsWrittenFilter(hidePending));
  }

  /** The intended `draw_orders()` shows the BUY. */
  lemma OrderRowsShowsBuy(hidePending: bool)
    ensures Resolved(OneBuy())
    ensures OrderRows(OneBuy(), hidePending) == [OrderRowOf(OneBuy().orders[1])]
  {
    var b := OneBuy();
    SingleListed(b, "EURUSD", 1, ShownFilter(hidePending));
    assert ShownFilter(hidePending)(b.orders[1]);
  }

  /** One BUY of 1.0 lot of EURUSD with profit 50 and swap -2: one row,
      LONG 1.0 without a count, total 48, not a loss. */
  lemma EurusdBuy()
    ensures Resolved(OneBuy())
    ensures PositionRows(OneBuy()) == [PositionRow("EURUSD", Long(1.0, 1), 50.0, -2.0, 48.0, false)]
  {
    ValidResolved(OneBuy());
    OneBuyRows(OneBuy(), "EURUSD", 1);
  }

  /** A pending order alone does not make its symbol a row of the positions
      table, though the symbol is in the ledger. */
  lemma SinglePending(msg: Message, t: int)
    requires OneOrder(msg) && msg.orders[0].op > OP_SELL
    ensures var b := Apply(Empty, msg, t);
      && Resolved(b) && msg.quote.name in b.symbols
      && PositionRows(b) == []
  {
    var b, f, q := Apply(Empty, msg, t), msg.orders[0], msg.quote;
    FirstMessage(msg, t);
    ValidResolved(b);
    assert !HasOpenOrders(b.orders, b.symbols[q.name]) by {
      HasOpenOrdersIff(b.orders, b.symbols[q.name]);
    }
    NoRows(b);
  }

  /** Once more than TTL seconds pass without another message, eviction
      empties the ledger and the positions table. */
  lemma SingleOrderExpires(msg: Message, t: int, now: int)
    requires OneOrder(msg) && now - t > TTL
    ensures var b := Evict(Apply(Empty, msg, t), now);
      && b.orders == map[] && b.symbols == map[]
      && Resolved(b) && PositionRows(b) == []
  {
    var b0 := Apply(Empty, msg, t);
    FirstMessage(msg, t);
    EvictExpired(b0, now);
    NoRows(Evict(b0, now));
  }

  /** A first message that lists two orders of its own symbol. */
  ghost predicate TwoOrders(msg: Message) {
    && |msg.orders| == 2
    && msg.orders[0].symbol == msg.quote.name && msg.orders[1].symbol == msg.quote.name
    && msg.orders[0].ticket != msg.orders[1].ticket
  }

  /** After a first message with two orders the ledger holds both, filed under
      one new symbol. */
  lemma FirstMessageOfTwo(msg: Message, t: int)
    requires TwoOrders(msg)
    ensures var b, f, g, q := Apply(Empty, msg, t), msg.orders[0], msg.orders[1], msg.quote;
      && b.orders == map[f.ticket := NewOrder(f, t), g.ticket := NewOrder(g, t)]
      && b.symbols == map[q.name := Symbol(q.name, q.bid, q.ask, q.digits, {f.ticket, g.ticket})]
  {
    var f, g, q := msg.orders[0], msg.orders[1], msg.quote;
    var b1 := Empty.(balance := msg.balance, profit := msg.profit, equity := msg.equity);
    assert msg.orders[..1][..0] == [] && msg.orders[..1] == [f];
    assert ApplyOrders(b1, q, [f][..0], t) == b1;
    var b2 := ApplyOrder(b1, q, f, t);
    assert ApplyOrders(b1, q, msg.orders[..1], t) == b2;
    var b := ApplyOrder(b2, q, g, t);
    assert Apply(Empty, msg, t) == b;
    assert Keyed(b1.orders);
    assert b2.orders == map[f.ticket := NewOrder(f, t)];
    assert Keyed(b2.orders);
    assert b.orders == map[f.ticket := NewOrder(f, t), g.ticket := NewOrder(g, t)];
    var s := b.symbols[q.name];
    assert s.tickets == {f.ticket, g.ticket};
    assert s == Symbol(q.name, q.bid, q.ask, q.digits, {f.ticket, g.ticket}) by {
      assert b2.symbols[q.name].(tickets := {}) == Symbol(f.symbol, q.bid, q.ask, q.digits, {});
    }
    assert b.symbols == map[q.name := s];
  }

  /** A symbol with two tickets: its net lots add up the two orders. */
  lemma TwoTicketLots(orders: map<int, Order>, s: Symbol, j: int, k: int)
    requires s.tickets == {j, k} && j != k && j in orders && k in orders
    ensures NetLots(orders, s) == SignedLots(orders[j]) + SignedLots(orders[k])
  {
    var ks := [j, k];
    SumOrderIndependent(orders, s, ks, SignedLots);
    assert ks[..1] == [j] && [j][..0] == [];
    assert SumOver(orders, [j], SignedLots) == SignedLots(orders[j]);
  }

  /** A symbol with two tickets, both BUY or SELL: its open count is two. */
  lemma TwoTicketCount(orders: map<int, Order>, s: Symbol, j: int, k: int)
    requires s.tickets == {j, k} && j != k && j in orders && k in orders
    requires IsOpen(orders[j]) && IsOpen(orders[k])
    ensures OpenCount(orders, s) == 2
  {
    OpenCountIsCardinality(orders, s);
    assert (set i | i in s.tickets && IsOpen(orders[i])) == {j, k};
  }

  /** A BUY and a smaller SELL of one symbol, the ledger `FirstMessageOfTwo`
      describes for them, net to one LONG position over both orders, whose
      label carries the count. */
  lemma Netting(b: Book, f: Fragment, g: Fragment, q: Quote, t: int)
    requires f.ticket != g.ticket
    requires f.op == OP_BUY && g.op == OP_SELL && f.size > g.size
    requires b.orders == map[f.ticket := NewOrder(f, t), g.ticket := NewOrder(g, t)]
    requires b.symbols == map[q.name := Symbol(q.name, q.bid, q.ask, q.digits, {f.ticket, g.ticket})]
    ensures q.name in b.symbols && b.symbols[q.name].tickets <= b.orders.Keys
    ensures PositionOf(b.orders, b.symbols[q.name]) == Long(f.size - g.size, 2)
    ensures ShowsCount(PositionOf(b.orders, b.symbols[q.name]))
  {
    TwoTicketLots(b.orders, b.symbols[q.name], f.ticket, g.ticket);
    TwoTicketCount(b.orders, b.symbols[q.name], f.ticket, g.ticket);
  }
}
