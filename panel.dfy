/** The module-level state of mt4-panel.py that the data thread changes in
    place (`balance`, `profit`, `equity`, the `orders` and `symbols`
    dictionaries, `last_message_time` and what the data thread last put up: the
    table or the "NO DATA" panel), with `update_symbols`, `delete_old_orders` and one turn of
    the loop in `wait_for_message` as methods proved against `Ledger.Apply`
    and `Ledger.Evict`. */
module Panel {
  import opened Sorting
  import opened Ledger
  import opened LedgerFacts
  import opened Aggregate

  datatype Option<T> = None | Some(value: T)

  /** The "NO DATA" test of `wait_for_message`: no message for more than TTL
      seconds. */
  predicate NoData(lastMessageTime: int, now: int) {
    now - lastMessageTime > TTL
  }

  /** The tickets of `b` whose order names one of the symbols `ns`. */
  ghost function Under(b: Book, ns: seq<string>): set<int> {
    set k | k in b.orders && b.orders[k].symbol in ns
  }

  /** One more fragment of the message is one more `ApplyOrder`. */
  lemma ApplyOrdersStep(b: Book, q: Quote, fs: seq<Fragment>, i: int, t: int)
    requires 0 <= i < |fs|
    ensures ApplyOrders(b, q, fs[..i + 1], t) == ApplyOrder(ApplyOrders(b, q, fs[..i], t), q, fs[i], t)
  {
    assert fs[..i + 1][..i] == fs[..i];
  }

  /** A symbol none of whose tickets has been visited is still in the
      partly purged ledger, as it was. */
  lemma Untouched(b: Book, d: set<int>, n: string)
    requires Ledger.Valid(b) && n in b.symbols
    requires forall k :: k in b.orders && b.orders[k].symbol == n ==> k !in d
    ensures n in Purge(b, d).symbols && Purge(b, d).symbols[n] == b.symbols[n]
  {
    var s := b.symbols[n];
    forall k | k in s.tickets ensures k !in d {
      assert k in b.orders && b.orders[k].symbol == n;
    }
    assert s.tickets - d == s.tickets;
    assert s.(tickets := s.tickets) == s;
  }

  /** Evicting one more ticket `k` from a partly purged ledger, as
      `delete_old_orders` does it: unfile it from its symbol, drop the symbol
      if that left it empty, delete the order. */
  lemma PurgeOne(b: Book, d: set<int>, k: int)
    requires Ledger.Valid(b) && k in b.orders && k !in d
    ensures var p, n := Purge(b, d), b.orders[k].symbol;
      && k in p.orders && n in p.symbols
      && var s1 := p.symbols[n := p.symbols[n].RemoveOrder(k)];
         Purge(b, d + {k}) ==
           p.(orders := p.orders - {k}, symbols := if s1[n].tickets == {} then s1 - {n} else s1)
  {
    var p, n := Purge(b, d), b.orders[k].symbol;
    assert k in b.symbols[n].tickets - d;
    var s1 := p.symbols[n := p.symbols[n].RemoveOrder(k)];
    var r := Purge(b, d + {k});
    var symbols := if s1[n].tickets == {} then s1 - {n} else s1;
    assert r.orders == p.orders - {k};
    forall m | m in b.symbols && m != n
      ensures b.symbols[m].tickets - (d + {k}) == b.symbols[m].tickets - d
    {
      assert k !in b.symbols[m].tickets;
    }
    assert b.symbols[n].tickets - (d + {k}) == (b.symbols[n].tickets - d) - {k};
    forall m ensures (m in r.symbols <==> m in symbols) && (m in r.symbols ==> r.symbols[m] == symbols[m]) {
    }
    assert r.symbols == symbols;
  }

  /** The tickets filed under `names[i]` are the tickets whose order names it. */
  lemma UnderStep(b: Book, names: seq<string>, i: int)
    requires Ledger.Valid(b) && 0 <= i < |names| && names[i] in b.symbols
    ensures Under(b, names[..i + 1]) == Under(b, names[..i]) + b.symbols[names[i]].tickets
  {
    assert names[..i + 1] == names[..i] + [names[i]];
    forall k ensures k in Under(b, names[..i + 1]) <==> k in Under(b, names[..i]) + b.symbols[names[i]].tickets {
      if k in b.symbols[names[i]].tickets {
        assert k in b.orders && b.orders[k].symbol == names[i];
      }
      if k in b.orders && b.orders[k].symbol == names[i] {
        assert k in b.symbols[names[i]].tickets;
      }
    }
  }

  /** Purging no ticket leaves a valid ledger as it is. */
  lemma PurgeNothing(b: Book, d: set<int>)
    requires Ledger.Valid(b) && d == {}
    ensures Purge(b, d) == b
  {
    var r := Purge(b, d);
    forall n | n in b.symbols ensures n in r.symbols && r.symbols[n] == b.symbols[n] {
      assert b.symbols[n].tickets - d == b.symbols[n].tickets;
    }
    assert r.symbols == b.symbols;
  }

  /** The tickets of a sequence, as a set. */
  ghost function Elems(ks: seq<int>): set<int> {
    set x | x in ks
  }

  lemma SeqSnoc(ks: seq<int>, j: int)
    requires 0 <= j < |ks|
    ensures Elems(ks[..j + 1]) == Elems(ks[..j]) + {ks[j]}
  {
    assert ks[..j + 1] == ks[..j] + [ks[j]];
  }

  /** Visiting ticket `k` adds it to the evicted tickets exactly when it is stale. */
  lemma StaleStep(b: Book, now: int, visited: set<int>, k: int)
    requires k in b.orders
    ensures var stale := Stale(b, now);
      (if now - b.orders[k].timestamp > TTL then stale * visited + {k} else stale * visited)
        == stale * (visited + {k})
  {
  }

  /** Part way through the tickets of `key`: the first `j` of them have been
      added to `done`, giving `visited`. */
  ghost predicate InnerSweep(b: Book, done: set<int>, key: string, tickets: seq<int>, j: int, visited: set<int>) {
    && Ledger.Valid(b) && key in b.symbols && Unvisited(b, done, key)
    && tickets == TicketSeq(b.symbols[key]) && 0 <= j <= |tickets|
    && visited == done + Elems(tickets[..j])
  }

  /** The next ticket of the symbol being swept is in the ledger and has not
      been visited. */
  lemma NextTicket(b: Book, done: set<int>, key: string, tickets: seq<int>, j: int, visited: set<int>)
    requires InnerSweep(b, done, key, tickets, j, visited) && j < |tickets|
    ensures tickets[j] in b.orders && tickets[j] !in visited
    ensures InnerSweep(b, done, key, tickets, j + 1, visited + {tickets[j]})
  {
    var k := tickets[j];
    assert k in b.symbols[key].tickets;
    assert k in b.orders && b.orders[k].symbol == key;
    SeqSnoc(tickets, j);
  }

  /** The sweep of `key` starts with its tickets as they were in `b`. */
  lemma InnerStart(b: Book, now: int, done: set<int>, key: string)
    requires Ledger.Valid(b) && key in b.symbols && Unvisited(b, done, key)
    ensures var p := Purge(b, Stale(b, now) * done);
      key in p.symbols && p.symbols[key] == b.symbols[key]
    ensures InnerSweep(b, done, key, TicketSeq(b.symbols[key]), 0, done)
  {
    Untouched(b, Stale(b, now) * done, key);
    assert TicketSeq(b.symbols[key])[..0] == [];
  }

  /** The sweep of `key` ends having visited all of its tickets. */
  lemma InnerEnd(b: Book, done: set<int>, key: string, tickets: seq<int>, visited: set<int>)
    requires InnerSweep(b, done, key, tickets, |tickets|, visited)
    ensures visited == done + b.symbols[key].tickets
  {
    assert tickets[..|tickets|] == tickets;
  }

  /** None of the tickets `done` is filed under `key`. */
  ghost predicate Unvisited(b: Book, done: set<int>, key: string) {
    forall k :: k in done && k in b.orders ==> b.orders[k].symbol != key
  }

  /** Every order of a valid ledger names one of its symbols. */
  lemma UnderAll(b: Book, names: seq<string>)
    requires Ledger.Valid(b)
    requires forall n :: n in names <==> n in b.symbols
    ensures Under(b, names) == b.orders.Keys
  {
    forall k | k in b.orders ensures k in Under(b, names) {
      assert b.orders[k].symbol in b.symbols;
    }
  }

  /** Part way through the symbols of `b`, taken in ascending name order:
      `done` holds the tickets of the first `i` of them. */
  ghost predicate OuterSweep(b: Book, names: seq<string>, i: int, done: set<int>) {
    && Ledger.Valid(b) && TotalOrder(StrLe)
    && names == SortedSeq(b.symbols.Keys, StrLe) && 0 <= i <= |names|
    && done == Under(b, names[..i])
  }

  /** The next symbol of the sweep is in the ledger, and none of the tickets
      visited so far is filed under it. */
  lemma NextSymbol(b: Book, names: seq<string>, i: int, done: set<int>)
    requires OuterSweep(b, names, i, done) && i < |names|
    ensures names[i] in b.symbols && Unvisited(b, done, names[i])
    ensures OuterSweep(b, names, i + 1, done + b.symbols[names[i]].tickets)
  {
    assert names[i] !in names[..i];
    UnderStep(b, names, i);
  }

  /** Once every symbol has been swept, every stale ticket has been visited. */
  lemma SweepDone(b: Book, names: seq<string>, done: set<int>, now: int)
    requires OuterSweep(b, names, |names|, done)
    ensures Stale(b, now) * done == Stale(b, now)
  {
    assert names[..|names|] == names;
    UnderAll(b, names);
  }

  /** The ledger once the message of a polling turn, if any, has been
      recorded with the stamp `t`. */
  function Received(b: Book, msg: Option<Message>, t: int): Book {
    if msg.Some? then Apply(b, msg.value, t) else b
  }

  /** A sweep at most TTL seconds after the stamp `t` of a message evicts
      none of that message's orders. */
  lemma FreshSurvive(b: Book, msg: Message, t: int, now: int)
    requires t <= now <= t + TTL
    ensures forall i :: 0 <= i < |msg.orders| ==>
      msg.orders[i].ticket in Evict(Apply(b, msg, t), now).orders
  {
  }

  class Feed {
    var balance: real
    var profit: real
    var equity: real
    var orders: map<int, Order>
    var symbols: map<string, Symbol>
    var lastMessageTime: int
    /** What the data thread last put up: the positions/orders/pending
        table and the footer, or the "NO DATA" panel. */
    var showingData: bool

    /** The ledger the fields hold. */
    function Model(): Book
      reads this
    {
      Book(balance, profit, equity, orders, symbols)
    }

    ghost predicate Valid()
      reads this
    {
      Ledger.Valid(Model())
    }

    /** Part way through `delete_old_orders` on the ledger `b`: of the
        tickets `visited` so far, the stale ones are gone. */
    ghost predicate SweptUpTo(b: Book, now: int, visited: set<int>)
      reads this
    {
      Ledger.Valid(b) && Model() == Purge(b, Stale(b, now) * visited)
    }

    /** Start-up: empty ledger, "NO DATA" shown, the last message dated five
        seconds before `start`. */
    constructor(start: int)
      ensures Model() == Empty && Valid()
      ensures lastMessageTime == start - 5 && !showingData
    {
      balance, profit, equity := 0.0, 0.0, 0.0;
      orders, symbols := map[], map[];
      lastMessageTime := start - 5;
      showingData := false;
    }

    /** One pass of the loop of `update_symbols`: the fragment `f` of a
        message about `q` is recorded at time `t`. */
    method UpsertOrder(q: Quote, f: Fragment, t: int)
      modifies this`orders, this`symbols
      ensures Model() == ApplyOrder(old(Model()), q, f, t)
    {
      var o: Order;
      if f.ticket in orders {
        o := orders[f.ticket].(profit := f.profit, swap := f.swap, timestamp := t);
      } else {
        o := NewOrder(f, t);
      }
      orders := orders[f.ticket := o];
      if q.name in symbols {
        if o.ticket !in symbols[q.name].tickets {
          symbols := symbols[q.name := symbols[q.name].AddOrder(o.ticket)];
        }
      } else {
        symbols := symbols[q.name := Symbol(o.symbol, q.bid, q.ask, q.digits, {}).AddOrder(o.ticket)];
      }
    }

    /** `update_symbols(msg)` with the clock reading `t`. */
    method UpdateSymbols(msg: Message, t: int)
      modifies this`balance, this`profit, this`equity, this`orders, this`symbols
      ensures Model() == Apply(old(Model()), msg, t)
    {
      balance, profit, equity := msg.balance, msg.profit, msg.equity;
      ghost var b1 := Model();
      assert b1 == old(Model()).(balance := msg.balance, profit := msg.profit, equity := msg.equity);
      var i := 0;
      while i < |msg.orders|
        invariant 0 <= i <= |msg.orders|
        invariant Model() == ApplyOrders(b1, msg.quote, msg.orders[..i], t)
      {
        UpsertOrder(msg.quote, msg.orders[i], t);
        ApplyOrdersStep(b1, msg.quote, msg.orders, i, t);
        i := i + 1;
      }
      assert msg.orders[..i] == msg.orders;
      assert Model() == ApplyOrders(b1, msg.quote, msg.orders, t);
    }

    /** One pass of the inner loop of `delete_old_orders`: the order of ticket
        `k` is evicted if it was last seen more than TTL seconds before `now`.
        `b` is the ledger at the start and `visited` the tickets already
        looked at. */
    method EvictTicket(ghost b: Book, ghost visited: set<int>, k: int, now: int)
      requires SweptUpTo(b, now, visited) && k in b.orders && k !in visited
      modifies this`orders, this`symbols
      ensures SweptUpTo(b, now, visited + {k})
    {
      ghost var stale := Stale(b, now);
      PurgeOne(b, stale * visited, k);
      StaleStep(b, now, visited, k);
      var o := orders[k];
      if now - o.timestamp > TTL {
        symbols := symbols[o.symbol := symbols[o.symbol].RemoveOrder(o.ticket)];
        if symbols[o.symbol].tickets == {} {
          symbols := symbols - {o.symbol};
        }
        orders := orders - {k};
      }
    }

    /** One pass of the outer loop of `delete_old_orders`: the tickets of
        symbol `key`, in ascending order, each evicted if stale. `done` holds
        the tickets visited before, none of them filed under `key`. */
    method EvictSymbol(ghost b: Book, ghost done: set<int>, key: string, now: int)
        returns (ghost visited: set<int>)
      requires SweptUpTo(b, now, done) && key in b.symbols && Unvisited(b, done, key)
      modifies this`orders, this`symbols
      ensures SweptUpTo(b, now, visited) && visited == done + b.symbols[key].tickets
    {
      InnerStart(b, now, done, key);
      var tickets := TicketSeq(symbols[key]);
      visited := done;
      var j := 0;
      while j < |tickets|
        invariant InnerSweep(b, done, key, tickets, j, visited)
        invariant SweptUpTo(b, now, visited)
      {
        NextTicket(b, done, key, tickets, j, visited);
        EvictTicket(b, visited, tickets[j], now);
        visited := visited + {tickets[j]};
        j := j + 1;
      }
      InnerEnd(b, done, key, tickets, visited);
    }

    /** `delete_old_orders()` with the clock reading `now`: the symbols in
        ascending name order, each symbol's tickets in ascending order, every
        order last seen more than TTL seconds ago removed from both maps. */
    method DeleteOldOrders(now: int)
      requires Valid()
      modifies this`orders, this`symbols
      ensures Model() == Evict(old(Model()), now)
    {
      ghost var b0 := Model();
      ghost var done: set<int> := {};
      StrLeTotal();
      var names := SortedSeq(symbols.Keys, StrLe);
      PurgeNothing(b0, Stale(b0, now) * done);
      var i := 0;
      while i < |names|
        invariant OuterSweep(b0, names, i, done)
        invariant SweptUpTo(b0, now, done)
      {
        NextSymbol(b0, names, i, done);
        done := EvictSymbol(b0, done, names[i], now);
        i := i + 1;
      }
      SweepDone(b0, names, done, now);
    }

    /** The first half of a turn of the loop of `wait_for_message`: record
        the message if one arrived and bring the table up, otherwise put up
        "NO DATA" once more than TTL seconds have passed since the last
        message. `heard` is the clock reading that dates the message, or the
        one the staleness test compares; `t` is the one `update_symbols`
        stamps the orders with. */
    method Receive(msg: Option<Message>, heard: int, t: int)
      requires Valid()
      requires msg.Some? ==> Consistent(Model(), msg.value)
      modifies this`balance, this`profit, this`equity, this`orders, this`symbols
      modifies this`lastMessageTime, this`showingData
      ensures Valid()
      ensures Model() == Received(old(Model()), msg, t)
      ensures msg.Some? ==> lastMessageTime == heard && showingData
      ensures msg.None? ==> lastMessageTime == old(lastMessageTime)
      ensures msg.None? ==>
        showingData == (old(showingData) && !NoData(old(lastMessageTime), heard))
    {
      if msg.Some? {
        ApplyValid(Model(), msg.value, t);
        lastMessageTime := heard;
        UpdateSymbols(msg.value, t);
        showingData := true;
      } else if NoData(lastMessageTime, heard) {
        showingData := false;
      }
    }

    /** One turn of the loop of `wait_for_message`: `Receive` with the
        readings `heard` and `t`, then sweep stale orders at the later
        reading `now`, asking for a redraw exactly when the number of orders
        changed. */
    method Poll(msg: Option<Message>, heard: int, t: int, now: int) returns (redrawn: bool)
      requires Valid()
      requires msg.Some? ==> Consistent(Model(), msg.value)
      modifies this`balance, this`profit, this`equity, this`orders, this`symbols
      modifies this`lastMessageTime, this`showingData
      ensures Valid()
      ensures Model() == Evict(Received(old(Model()), msg, t), now)
      ensures redrawn <==> Stale(Received(old(Model()), msg, t), now) != {}
      ensures msg.Some? ==> lastMessageTime == heard && showingData
      ensures msg.None? ==> lastMessageTime == old(lastMessageTime)
      ensures msg.None? ==>
        showingData == (old(showingData) && !NoData(old(lastMessageTime), heard))
    {
      Receive(msg, heard, t);
      ghost var b := Model();
      var l := |orders|;
      DeleteOldOrders(now);
      EvictValid(b, now);
      EvictCount(b, now);
      redrawn := |orders| != l;
    }
  }
}
