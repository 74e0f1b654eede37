/** The per-symbol queries of `Symbol` (mt4-panel.py): `swap`, `profit`,
    `total`, `position` and `has_open_orders`. Each walks the symbol's tickets
    and reads the order from the global `orders` map; the model walks them in
    ascending ticket order, and `SumOrderIndependent` shows that the sums do
    not depend on the order the dictionary yields the tickets in. */
module Aggregate {
  import opened Sorting
  import opened Ledger

  /** A live position, as opposed to a pending order. */
  predicate IsOpen(o: Order) {
    o.op == OP_BUY || o.op == OP_SELL
  }

  /** The tickets of a symbol, ascending. */
  function TicketSeq(s: Symbol): (ks: seq<int>)
    ensures forall k :: k in ks <==> k in s.tickets
    ensures Ascending(ks, IntLe) && |ks| == |s.tickets|
  {
    IntLeTotal();
    SortedSeq(s.tickets, IntLe)
  }

  /** The sum of `f` over the orders of the tickets `ks`, accumulated in order. */
  function SumOver(orders: map<int, Order>, ks: seq<int>, f: Order -> real): real
    requires forall i :: 0 <= i < |ks| ==> ks[i] in orders
  {
    if ks == [] then 0.0 else SumOver(orders, ks[..|ks| - 1], f) + f(orders[ks[|ks| - 1]])
  }

  function SwapOf(o: Order): real { o.swap }
  function ProfitOf(o: Order): real { o.profit }
  function TotalOf(o: Order): real { o.profit + o.swap }

  /** The signed lots an order adds to its symbol's position. */
  function SignedLots(o: Order): real {
    if o.op == OP_BUY then o.size else if o.op == OP_SELL then -o.size else 0.0
  }
  function BuyLots(o: Order): real { if o.op == OP_BUY then o.size else 0.0 }
  function SellLots(o: Order): real { if o.op == OP_SELL then o.size else 0.0 }

  /** `Symbol.swap()`. */
  function Swap(orders: map<int, Order>, s: Symbol): real
    requires s.tickets <= orders.Keys
  {
    SumOver(orders, TicketSeq(s), SwapOf)
  }

  /** `Symbol.profit()`. */
  function Profit(orders: map<int, Order>, s: Symbol): real
    requires s.tickets <= orders.Keys
  {
    SumOver(orders, TicketSeq(s), ProfitOf)
  }

  /** `Symbol.total()`. */
  function Total(orders: map<int, Order>, s: Symbol): real
    requires s.tickets <= orders.Keys
  {
    Profit(orders, s) + Swap(orders, s)
  }

  /** The net lots `position()` accumulates. */
  function NetLots(orders: map<int, Order>, s: Symbol): real
    requires s.tickets <= orders.Keys
  {
    SumOver(orders, TicketSeq(s), SignedLots)
  }

  /** How many BUY and SELL orders of `ks` there are. */
  function OpenCountOver(orders: map<int, Order>, ks: seq<int>): nat
    requires forall i :: 0 <= i < |ks| ==> ks[i] in orders
  {
    if ks == [] then 0
    else OpenCountOver(orders, ks[..|ks| - 1]) + (if IsOpen(orders[ks[|ks| - 1]]) then 1 else 0)
  }

  /** The count `position()` accumulates. */
  function OpenCount(orders: map<int, Order>, s: Symbol): nat
    requires s.tickets <= orders.Keys
  {
    OpenCountOver(orders, TicketSeq(s))
  }

  /** The label `position()` prints: LONG or SHORT with the net lots (negative
      for SHORT) and the number of contributing orders, or NONE. */
  datatype Position = Long(lots: real, count: nat) | Short(lots: real, count: nat) | NoPosition

  /** Whether the label carries the " (count)" suffix. */
  predicate ShowsCount(p: Position) {
    !p.NoPosition? && p.count > 1
  }

  /** `Symbol.position()`. */
  function PositionOf(orders: map<int, Order>, s: Symbol): (p: Position)
    requires s.tickets <= orders.Keys
    ensures p.Long? <==> NetLots(orders, s) > 0.0
    ensures p.Short? <==> NetLots(orders, s) < 0.0
    ensures p.NoPosition? <==> NetLots(orders, s) == 0.0
    ensures !p.NoPosition? ==> p.lots == NetLots(orders, s) && p.count == OpenCount(orders, s)
  {
    var lots, count := NetLots(orders, s), OpenCount(orders, s);
    if lots > 0.0 then Long(lots, count)
    else if lots < 0.0 then Short(lots, count)
    else NoPosition
  }

  /** The scan of `has_open_orders`, which stops at the first BUY or SELL. */
  function HasOpenOver(orders: map<int, Order>, ks: seq<int>): bool
    requires forall i :: 0 <= i < |ks| ==> ks[i] in orders
  {
    if ks == [] then false
    else if IsOpen(orders[ks[0]]) then true
    else HasOpenOver(orders, ks[1..])
  }

  lemma {:induction false} HasOpenOverIff(orders: map<int, Order>, ks: seq<int>)
    requires forall i :: 0 <= i < |ks| ==> ks[i] in orders
    ensures HasOpenOver(orders, ks) <==> exists i :: 0 <= i < |ks| && IsOpen(orders[ks[i]])
  {
    if ks != [] && !IsOpen(orders[ks[0]]) {
      HasOpenOverIff(orders, ks[1..]);
      if HasOpenOver(orders, ks) {
        var i :| 0 <= i < |ks[1..]| && IsOpen(orders[ks[1..][i]]);
        assert ks[i + 1] == ks[1..][i];
      } else {
        assert forall i :: 0 < i < |ks| ==> ks[i] == ks[1..][i - 1];
      }
    }
  }

  /** `Symbol.has_open_orders()`. */
  function HasOpenOrders(orders: map<int, Order>, s: Symbol): bool
    requires s.tickets <= orders.Keys
  {
    var ks := TicketSeq(s);
    assert forall i :: 0 <= i < |ks| ==> ks[i] in s.tickets;
    HasOpenOver(orders, ks)
  }

  /** A symbol has open orders exactly when one of its orders is a BUY or a SELL. */
  lemma HasOpenOrdersIff(orders: map<int, Order>, s: Symbol)
    requires s.tickets <= orders.Keys
    ensures HasOpenOrders(orders, s) <==> exists k :: k in s.tickets && IsOpen(orders[k])
  {
    var ks := TicketSeq(s);
    HasOpenOverIff(orders, ks);
    if HasOpenOrders(orders, s) {
      var i :| 0 <= i < |ks| && IsOpen(orders[ks[i]]);
      assert ks[i] in s.tickets;
    } else {
      forall k | k in s.tickets ensures !IsOpen(orders[k]) {
        assert k in ks;
      }
    }
  }

  // ---------------------------------------------------------------------------
  // Sums

  lemma {:induction false} SumOverAppend(orders: map<int, Order>, a: seq<int>, b: seq<int>, f: Order -> real)
    requires forall i :: 0 <= i < |a| ==> a[i] in orders
    requires forall i :: 0 <= i < |b| ==> b[i] in orders
    ensures forall i :: 0 <= i < |a + b| ==> (a + b)[i] in orders
    ensures SumOver(orders, a + b, f) == SumOver(orders, a, f) + SumOver(orders, b, f)
    decreases |b|
  {
    var c := a + b;
    forall i | 0 <= i < |c| ensures c[i] in orders {
      if i < |a| {
        assert c[i] == a[i];
      } else {
        assert c[i] == b[i - |a|];
      }
    }
    if b == [] {
      assert c == a;
    } else {
      var init := b[..|b| - 1];
      assert forall i :: 0 <= i < |init| ==> init[i] == b[i];
      SumOverAppend(orders, a, init, f);
      assert c[..|c| - 1] == a + init;
      assert c[|c| - 1] == b[|b| - 1];
    }
  }

  /** Taking one ticket out of the middle of a sequence. */
  lemma SumOverRemove(orders: map<int, Order>, b: seq<int>, j: int, f: Order -> real)
    requires forall i :: 0 <= i < |b| ==> b[i] in orders
    requires 0 <= j < |b|
    ensures var rest := b[..j] + b[j + 1..];
      && multiset(rest) == multiset(b) - multiset{b[j]}
      && (forall i :: 0 <= i < |rest| ==> rest[i] in orders)
      && SumOver(orders, b, f) == SumOver(orders, rest, f) + f(orders[b[j]])
  {
    var x := b[j];
    assert b == b[..j] + [x] + b[j + 1..];
    SumOverAppend(orders, b[..j], b[j + 1..], f);
    SumOverAppend(orders, b[..j] + [x], b[j + 1..], f);
    SumOverAppend(orders, b[..j], [x], f);
  }

  /** The sum does not depend on the order of the tickets. */
  lemma {:induction false} SumOverPermutation(orders: map<int, Order>, a: seq<int>, b: seq<int>, f: Order -> real)
    requires forall i :: 0 <= i < |a| ==> a[i] in orders
    requires multiset(a) == multiset(b)
    ensures forall i :: 0 <= i < |b| ==> b[i] in orders
    ensures SumOver(orders, a, f) == SumOver(orders, b, f)
    decreases |a|
  {
    forall i | 0 <= i < |b| ensures b[i] in orders {
      assert b[i] in multiset(b);
    }
    if a == [] {
      assert b == [] by {
        assert |b| == |multiset(b)| == 0;
      }
    } else {
      var init, x := a[..|a| - 1], a[|a| - 1];
      assert a == init + [x];
      assert multiset(init) == multiset(a) - multiset{x};
      assert x in multiset(b);
      var j :| 0 <= j < |b| && b[j] == x;
      SumOverRemove(orders, b, j, f);
      SumOverPermutation(orders, init, b[..j] + b[j + 1..], f);
    }
  }

  lemma {:induction false} DistinctMultiset(ks: seq<int>, s: set<int>)
    requires forall i, j :: 0 <= i < j < |ks| ==> ks[i] != ks[j]
    requires forall k :: k in ks <==> k in s
    ensures multiset(ks) == multiset(s)
    decreases |ks|
  {
    if ks != [] {
      var init, x := ks[..|ks| - 1], ks[|ks| - 1];
      assert ks == init + [x];
      assert x !in init;
      DistinctMultiset(init, s - {x});
      assert multiset(s) == multiset(s - {x}) + multiset{x};
    } else {
      assert forall k :: k !in s;
    }
  }

  /** `swap()`, `profit()` and `position()` iterate the symbol's dictionary in
      insertion order; any enumeration of its tickets gives the same sum. */
  lemma SumOrderIndependent(orders: map<int, Order>, s: Symbol, ks: seq<int>, f: Order -> real)
    requires s.tickets <= orders.Keys
    requires forall i, j :: 0 <= i < j < |ks| ==> ks[i] != ks[j]
    requires forall k :: k in ks <==> k in s.tickets
    ensures forall i :: 0 <= i < |ks| ==> ks[i] in orders
    ensures SumOver(orders, ks, f) == SumOver(orders, TicketSeq(s), f)
  {
    var sorted := TicketSeq(s);
    DistinctMultiset(ks, s.tickets);
    DistinctMultiset(sorted, s.tickets);
    SumOverPermutation(orders, ks, sorted, f);
  }

  lemma {:induction false} SumOverAdd(orders: map<int, Order>, ks: seq<int>, f: Order -> real, g: Order -> real, h: Order -> real)
    requires forall i :: 0 <= i < |ks| ==> ks[i] in orders
    requires forall o :: h(o) == f(o) + g(o)
    ensures SumOver(orders, ks, h) == SumOver(orders, ks, f) + SumOver(orders, ks, g)
  {
    if ks != [] {
      SumOverAdd(orders, ks[..|ks| - 1], f, g, h);
    }
  }

  lemma {:induction false} SumOverSub(orders: map<int, Order>, ks: seq<int>, f: Order -> real, g: Order -> real, h: Order -> real)
    requires forall i :: 0 <= i < |ks| ==> ks[i] in orders
    requires forall o :: h(o) == f(o) - g(o)
    ensures SumOver(orders, ks, h) == SumOver(orders, ks, f) - SumOver(orders, ks, g)
  {
    if ks != [] {
      SumOverSub(orders, ks[..|ks| - 1], f, g, h);
    }
  }

  /** `total()` is the sum, over the symbol's orders, of profit plus swap. */
  lemma TotalIsSumOfOrderTotals(orders: map<int, Order>, s: Symbol)
    requires s.tickets <= orders.Keys
    ensures Total(orders, s) == SumOver(orders, TicketSeq(s), TotalOf)
  {
    SumOverAdd(orders, TicketSeq(s), ProfitOf, SwapOf, TotalOf);
  }

  /** The net lots are the BUY lots minus the SELL lots; other order types do
      not count. */
  lemma NetLotsIsBuyMinusSell(orders: map<int, Order>, s: Symbol)
    requires s.tickets <= orders.Keys
    ensures NetLots(orders, s) == SumOver(orders, TicketSeq(s), BuyLots) - SumOver(orders, TicketSeq(s), SellLots)
  {
    SumOverSub(orders, TicketSeq(s), BuyLots, SellLots, SignedLots);
  }

  // ---------------------------------------------------------------------------
  // Counting

  lemma {:induction false} OpenCountOverIsCardinality(orders: map<int, Order>, ks: seq<int>)
    requires forall i :: 0 <= i < |ks| ==> ks[i] in orders
    requires forall i, j :: 0 <= i < j < |ks| ==> ks[i] != ks[j]
    ensures OpenCountOver(orders, ks) == |set k | k in ks && IsOpen(orders[k])|
  {
    if ks != [] {
      var init, x := ks[..|ks| - 1], ks[|ks| - 1];
      OpenCountOverIsCardinality(orders, init);
      var before := set k | k in init && IsOpen(orders[k]);
      var after := set k | k in ks && IsOpen(orders[k]);
      assert ks == init + [x];
      assert x !in init by {
        forall i | 0 <= i < |init| ensures init[i] != x {
          assert init[i] == ks[i];
        }
      }
      assert after == before + (if IsOpen(orders[x]) then {x} else {});
    }
  }

  /** The count in the position label is the number of BUY and SELL orders
      filed under the symbol. */
  lemma OpenCountIsCardinality(orders: map<int, Order>, s: Symbol)
    requires s.tickets <= orders.Keys
    ensures OpenCount(orders, s) == |set k | k in s.tickets && IsOpen(orders[k])|
  {
    var ks := TicketSeq(s);
    OpenCountOverIsCardinality(orders, ks);
    assert (set k | k in ks && IsOpen(orders[k])) == (set k | k in s.tickets && IsOpen(orders[k]));
  }

  lemma {:induction false} NoOpenOver(orders: map<int, Order>, ks: seq<int>)
    requires forall i :: 0 <= i < |ks| ==> ks[i] in orders
    requires forall i :: 0 <= i < |ks| ==> !IsOpen(orders[ks[i]])
    ensures OpenCountOver(orders, ks) == 0 && SumOver(orders, ks, SignedLots) == 0.0
  {
    if ks != [] {
      NoOpenOver(orders, ks[..|ks| - 1]);
    }
  }

  /** A symbol holding only pending orders has no position, and one with a
      position has at least one BUY or SELL behind it. */
  lemma PositionNeedsOpenOrders(orders: map<int, Order>, s: Symbol)
    requires s.tickets <= orders.Keys
    ensures !HasOpenOrders(orders, s) ==> PositionOf(orders, s) == NoPosition && OpenCount(orders, s) == 0
    ensures HasOpenOrders(orders, s) <==> OpenCount(orders, s) > 0
  {
    var ks := TicketSeq(s);
    HasOpenOrdersIff(orders, s);
    OpenCountIsCardinality(orders, s);
    var open := set k | k in s.tickets && IsOpen(orders[k]);
    if HasOpenOrders(orders, s) {
      var k :| k in s.tickets && IsOpen(orders[k]);
      assert k in open;
    } else {
      assert open == {};
      NoOpenOver(orders, ks);
    }
  }

  /** The " (count)" suffix appears exactly when there is a net position and
      more than one BUY or SELL order is filed under the symbol; NONE never
      carries it. */
  lemma CountSuffix(orders: map<int, Order>, s: Symbol)
    requires s.tickets <= orders.Keys
    ensures ShowsCount(PositionOf(orders, s)) <==>
      NetLots(orders, s) != 0.0 && |set k | k in s.tickets && IsOpen(orders[k])| > 1
  {
    OpenCountIsCardinality(orders, s);
  }
}
