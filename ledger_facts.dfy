/** What the ledger operations promise across calls: `update_symbols` is
    safe under duplicate delivery and keeps the ledger invariant for messages
    the feed can send; `delete_old_orders` keeps the invariant, removes exactly
    the stale orders and reports its work through the size of `orders`. */
module LedgerFacts {
  import opened Ledger

  // ---------------------------------------------------------------------------
  // Which fragment decides what

  /** The last fragment of `fs` that mentions ticket `k`. */
  function LastFor(fs: seq<Fragment>, k: int): (f: Fragment)
    requires k in Tickets(fs)
    ensures f.ticket == k && f in fs
  {
    if fs[|fs| - 1].ticket == k then fs[|fs| - 1] else LastFor(fs[..|fs| - 1], k)
  }

  /** The first fragment of `fs` that mentions ticket `k`. */
  function FirstFor(fs: seq<Fragment>, k: int): (f: Fragment)
    requires k in Tickets(fs)
    ensures f.ticket == k && f in fs
  {
    if k in Tickets(fs[..|fs| - 1]) then FirstFor(fs[..|fs| - 1], k) else fs[|fs| - 1]
  }

  /** The order a message's fragments start from for ticket `k`: the known
      order, or the one the first fragment creates. */
  function Origin(b: Book, fs: seq<Fragment>, k: int, t: int): Order
    requires k in Tickets(fs)
  {
    if k in b.orders then b.orders[k] else NewOrder(FirstFor(fs, k), t)
  }

  /** After the loop, a mentioned order is its origin with profit and swap of
      the last fragment that mentions it, stamped with `t`. */
  lemma {:induction false} ApplyOrdersAt(b: Book, q: Quote, fs: seq<Fragment>, t: int, k: int)
    requires k in Tickets(fs)
    ensures k in ApplyOrders(b, q, fs, t).orders
    ensures ApplyOrders(b, q, fs, t).orders[k] == Refreshed(Origin(b, fs, k, t), LastFor(fs, k), t)
  {
    var gs := fs[..|fs| - 1];
    if k in Tickets(gs) {
      ApplyOrdersAt(b, q, gs, t, k);
    }
  }

  /** Once every mentioned ticket is filed under the message's symbol, the loop
      leaves `symbols` alone. */
  lemma {:induction false} ApplyOrdersNoRefile(b: Book, q: Quote, fs: seq<Fragment>, t: int)
    requires Keyed(b.orders)
    requires q.name in b.symbols && Tickets(fs) <= b.symbols[q.name].tickets
    ensures ApplyOrders(b, q, fs, t).symbols == b.symbols
  {
    if fs != [] {
      ApplyOrdersNoRefile(b, q, fs[..|fs| - 1], t);
    }
  }

  /** The loop run twice over the same fragments leaves the orders it left
      the first time. */
  lemma ApplyOrdersTwiceOrders(b: Book, q: Quote, fs: seq<Fragment>, t: int)
    ensures ApplyOrders(ApplyOrders(b, q, fs, t), q, fs, t).orders == ApplyOrders(b, q, fs, t).orders
  {
    var r1 := ApplyOrders(b, q, fs, t);
    var r2 := ApplyOrders(r1, q, fs, t);
    assert r2.orders.Keys == r1.orders.Keys;
    forall k | k in r1.orders
      ensures r2.orders[k] == r1.orders[k]
    {
      if k in Tickets(fs) {
        ApplyOrdersAt(b, q, fs, t, k);
        ApplyOrdersAt(r1, q, fs, t, k);
      }
    }
  }

  /** The loop run twice over the same fragments leaves the symbols it left
      the first time. */
  lemma ApplyOrdersTwiceSymbols(b: Book, q: Quote, fs: seq<Fragment>, t: int)
    requires Keyed(b.orders)
    ensures ApplyOrders(ApplyOrders(b, q, fs, t), q, fs, t).symbols == ApplyOrders(b, q, fs, t).symbols
  {
    if fs != [] {
      ApplyOrdersFilesExactly(b, q, fs, t);
      ApplyOrdersNoRefile(ApplyOrders(b, q, fs, t), q, fs, t);
    }
  }

  /** Duplicate delivery: applying the same message twice at the same time
      leaves the same ledger as applying it once. */
  lemma ApplyIdempotent(b: Book, msg: Message, t: int)
    requires Keyed(b.orders)
    ensures Apply(Apply(b, msg, t), msg, t) == Apply(b, msg, t)
  {
    var b1 := b.(balance := msg.balance, profit := msg.profit, equity := msg.equity);
    var r1 := ApplyOrders(b1, msg.quote, msg.orders, t);
    assert r1.(balance := msg.balance, profit := msg.profit, equity := msg.equity) == r1;
    ApplyOrdersTwiceOrders(b1, msg.quote, msg.orders, t);
    ApplyOrdersTwiceSymbols(b1, msg.quote, msg.orders, t);
  }

  // ---------------------------------------------------------------------------
  // The invariant under update_symbols

  lemma ApplyOrderValid(b: Book, q: Quote, f: Fragment, t: int)
    requires Valid(b)
    requires f.symbol == q.name
    requires f.ticket in b.orders ==> b.orders[f.ticket].symbol == q.name
    ensures Valid(ApplyOrder(b, q, f, t))
  {
    var r := ApplyOrder(b, q, f, t);
    assert Linked(r) by {
      forall n, k | n in r.symbols && k in r.symbols[n].tickets
        ensures k in r.orders && r.orders[k].symbol == n
      {
        if n != q.name || (n in b.symbols && k in b.symbols[n].tickets) {
          assert n in b.symbols && k in b.symbols[n].tickets;
        }
      }
    }
  }

  /** An order the loop creates carries the symbol of the fragments. */
  lemma {:induction false} ApplyOrdersCreatedSymbol(b: Book, q: Quote, fs: seq<Fragment>, t: int)
    requires forall i :: 0 <= i < |fs| ==> fs[i].symbol == q.name
    ensures var r := ApplyOrders(b, q, fs, t);
      forall k :: k in r.orders && k !in b.orders ==> r.orders[k].symbol == q.name
  {
    if fs != [] {
      var gs := fs[..|fs| - 1];
      assert forall i :: 0 <= i < |gs| ==> gs[i] == fs[i];
      ApplyOrdersCreatedSymbol(b, q, gs, t);
    }
  }

  lemma {:induction false} ApplyOrdersValid(b: Book, q: Quote, fs: seq<Fragment>, t: int)
    requires Valid(b)
    requires ConsistentOrders(b, q, fs)
    ensures Valid(ApplyOrders(b, q, fs, t))
  {
    if fs != [] {
      var gs, f := fs[..|fs| - 1], fs[|fs| - 1];
      assert ConsistentOrders(b, q, gs) by {
        forall i | 0 <= i < |gs| ensures gs[i] == fs[i] {}
      }
      ApplyOrdersValid(b, q, gs, t);
      var r0 := ApplyOrders(b, q, gs, t);
      assert f.ticket in r0.orders ==> r0.orders[f.ticket].symbol == q.name by {
        if f.ticket in r0.orders && f.ticket !in b.orders {
          ApplyOrdersCreatedSymbol(b, q, gs, t);
        }
      }
      ApplyOrderValid(r0, q, f, t);
    }
  }

  /** A message the feed can send keeps the ledger invariant. */
  lemma ApplyValid(b: Book, msg: Message, t: int)
    requires Valid(b) && Consistent(b, msg)
    ensures Valid(Apply(b, msg, t))
  {
    ApplyOrdersValid(b.(balance := msg.balance, profit := msg.profit, equity := msg.equity),
                     msg.quote, msg.orders, t);
  }

  /** The loop files exactly the mentioned tickets under the message's symbol. */
  lemma {:induction false} ApplyOrdersFilesExactly(b: Book, q: Quote, fs: seq<Fragment>, t: int)
    requires Keyed(b.orders)
    requires fs != []
    ensures q.name in ApplyOrders(b, q, fs, t).symbols
    ensures ApplyOrders(b, q, fs, t).symbols[q.name].tickets ==
      (if q.name in b.symbols then b.symbols[q.name].tickets else {}) + Tickets(fs)
  {
    var gs, f := fs[..|fs| - 1], fs[|fs| - 1];
    var u := ApplyOrders(b, q, gs, t);
    assert Tickets(fs) == Tickets(gs) + {f.ticket};
    if gs != [] {
      ApplyOrdersFilesExactly(b, q, gs, t);
    }
  }

  /** A symbol the loop creates is named after the message's symbol and
      carries the message's quote. */
  lemma {:induction false} ApplyOrdersNewSymbol(b: Book, q: Quote, fs: seq<Fragment>, t: int)
    requires ConsistentOrders(b, q, fs)
    requires fs != [] && q.name !in b.symbols
    ensures q.name in ApplyOrders(b, q, fs, t).symbols
    ensures ApplyOrders(b, q, fs, t).symbols[q.name].(tickets := {}) == Symbol(q.name, q.bid, q.ask, q.digits, {})
  {
    var gs, f := fs[..|fs| - 1], fs[|fs| - 1];
    assert f.symbol == q.name;
    if gs != [] {
      assert ConsistentOrders(b, q, gs) by {
        forall i | 0 <= i < |gs| ensures gs[i] == fs[i] {}
      }
      ApplyOrdersNewSymbol(b, q, gs, t);
    } else {
      assert f.ticket in b.orders ==> b.orders[f.ticket].symbol == q.name;
    }
  }

  /** The first message that lists orders of a symbol creates it with that
      message's quote and files exactly the message's tickets; a symbol that
      exists keeps its quote and gains the message's tickets. */
  lemma ApplySymbol(b: Book, msg: Message, t: int)
    requires Keyed(b.orders) && Consistent(b, msg)
    requires msg.orders != []
    ensures var q, r := msg.quote, Apply(b, msg, t);
      && q.name in r.symbols
      && r.symbols[q.name].tickets == (if q.name in b.symbols then b.symbols[q.name].tickets else {}) + Tickets(msg.orders)
      && (q.name !in b.symbols ==> r.symbols[q.name] == Symbol(q.name, q.bid, q.ask, q.digits, Tickets(msg.orders)))
  {
    var b1 := b.(balance := msg.balance, profit := msg.profit, equity := msg.equity);
    ApplyOrdersFilesExactly(b1, msg.quote, msg.orders, t);
    if msg.quote.name !in b.symbols {
      ApplyOrdersNewSymbol(b1, msg.quote, msg.orders, t);
    }
  }

  // ---------------------------------------------------------------------------
  // delete_old_orders

  /** Eviction keeps the ledger invariant. */
  lemma EvictValid(b: Book, now: int)
    requires Valid(b)
    ensures Valid(Evict(b, now))
  {
    var r, d := Evict(b, now), Stale(b, now);
    assert Filed(r) by {
      forall k | k in r.orders
        ensures r.orders[k].symbol in r.symbols && k in r.symbols[r.orders[k].symbol].tickets
      {
        var n := b.orders[k].symbol;
        assert k in b.symbols[n].tickets - d;
      }
    }
  }

  /** The drop in `len(orders)` that the polling loop tests is the number of
      stale orders, so it redraws exactly when something was evicted. */
  lemma EvictCount(b: Book, now: int)
    ensures |b.orders| - |Evict(b, now).orders| == |Stale(b, now)|
    ensures |Evict(b, now).orders| != |b.orders| <==> Stale(b, now) != {}
  {
    var r, d := Evict(b, now), Stale(b, now);
    assert r.orders.Keys == b.orders.Keys - d;
    assert b.orders.Keys * d == d;
  }

  /** A second sweep at the same time removes nothing. */
  lemma EvictIdempotent(b: Book, now: int)
    ensures Evict(Evict(b, now), now) == Evict(b, now)
  {
    var r := Evict(b, now);
    assert Stale(r, now) == {};
    var r2 := Evict(r, now);
    assert r2.orders == r.orders;
    assert r2.symbols == r.symbols by {
      forall n | n in r.symbols ensures n in r2.symbols && r2.symbols[n] == r.symbols[n] {
        assert r.symbols[n].tickets - {} == r.symbols[n].tickets;
      }
    }
  }

  /** When no message has mentioned any order for more than TTL seconds, a
      sweep empties both maps. */
  lemma EvictExpired(b: Book, now: int)
    requires Valid(b)
    requires forall k :: k in b.orders ==> now - b.orders[k].timestamp > TTL
    ensures Evict(b, now).orders == map[]
    ensures Evict(b, now).symbols == map[]
  {
    var r, d := Evict(b, now), Stale(b, now);
    forall k | k in b.orders ensures k in d {
      assert now - b.orders[k].timestamp > TTL;
    }
    assert r.orders.Keys == {};
    forall n | n in b.symbols ensures b.symbols[n].tickets - d == {} {
      forall k | k in b.symbols[n].tickets ensures k in d {
        assert k in b.orders;
      }
    }
    assert r.symbols.Keys == {};
  }
}
