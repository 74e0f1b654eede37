/** The panel's order ledger (mt4-panel.py): the global `orders` dictionary
    (ticket -> Order), the global `symbols` dictionary (name -> Symbol) and the
    account figures `balance`, `profit` and `equity`, together as one value,
    `Book`; the two ledger operations as functions on it: `Apply`, what
    `update_symbols` does with one decoded message at time `t`, and `Evict`,
    what `delete_old_orders` does at time `t`.

    The `Order` objects of mt4-panel.py are shared between `orders[ticket]` and
    `symbols[name].orders[ticket]`; a `Symbol` here therefore files only the
    tickets, and every read of an order goes to the global map. */
module Ledger {

  /** Seconds an order is kept after the last message that mentioned it. */
  const TTL: int := 5

  const OP_BUY: int := 0
  const OP_SELL: int := 1

  /** One broker order. `op` is the MetaTrader order type: 0 BUY, 1 SELL,
      2..5 the pending kinds. `timestamp` is when a message last mentioned it. */
  datatype Order = Order(
    ticket: int, time: int, op: int, size: real, symbol: string,
    openPrice: real, sl: real, tp: real, swap: real, profit: real,
    timestamp: int)

  /** One entry of a message's `orders` list, already decoded. */
  datatype Fragment = Fragment(
    ticket: int, time: int, op: int, size: real, symbol: string,
    openPrice: real, sl: real, tp: real, swap: real, profit: real)

  /** The message's `symbol` object. */
  datatype Quote = Quote(name: string, bid: real, ask: real, digits: int)

  /** One decoded message; a message without an `orders` key has no orders. */
  datatype Message = Message(
    balance: real, profit: real, equity: real, quote: Quote, orders: seq<Fragment>)

  /** A symbol with the quote it was created with and the tickets filed under it. */
  datatype Symbol = Symbol(name: string, bid: real, ask: real, digits: int, tickets: set<int>)
  {
    /** `Symbol.add_order`: files a ticket, nothing else changes. */
    function AddOrder(ticket: int): (s: Symbol)
      ensures s.tickets == tickets + {ticket}
      ensures s.(tickets := tickets) == this
    {
      this.(tickets := tickets + {ticket})
    }

    /** `Symbol.remove_order`: unfiles a ticket if it is filed, nothing else changes. */
    function RemoveOrder(ticket: int): (s: Symbol)
      ensures ticket !in s.tickets && s.tickets + ({ticket} * tickets) == tickets
      ensures s.(tickets := tickets) == this
    {
      this.(tickets := tickets - {ticket})
    }
  }

  /** The module-level state of the panel that the ledger operations change. */
  datatype Book = Book(
    balance: real, profit: real, equity: real,
    orders: map<int, Order>, symbols: map<string, Symbol>)

  /** The state at start-up. */
  const Empty: Book := Book(0.0, 0.0, 0.0, map[], map[])

  // ---------------------------------------------------------------------------
  // The ledger invariant

  /** Every order is stored under its own ticket. */
  ghost predicate Keyed(orders: map<int, Order>) {
    forall k :: k in orders ==> orders[k].ticket == k
  }

  /** Every order is filed under the symbol it names. */
  ghost predicate Filed(b: Book) {
    forall k :: k in b.orders ==>
      b.orders[k].symbol in b.symbols && k in b.symbols[b.orders[k].symbol].tickets
  }

  /** Every filed ticket is a key of `orders`, and the order names that symbol. */
  ghost predicate Linked(b: Book) {
    forall n, k :: n in b.symbols && k in b.symbols[n].tickets ==>
      k in b.orders && b.orders[k].symbol == n
  }

  /** Every symbol is stored under its own name and has at least one order. */
  ghost predicate NoEmptySymbols(b: Book) {
    forall n :: n in b.symbols ==> b.symbols[n].name == n && b.symbols[n].tickets != {}
  }

  ghost predicate Valid(b: Book) {
    Keyed(b.orders) && Filed(b) && Linked(b) && NoEmptySymbols(b)
  }

  /** What the feed guarantees of a message: it lists orders of its own symbol
      only, and a ticket never moves to another symbol. */
  ghost predicate Consistent(b: Book, msg: Message) {
    ConsistentOrders(b, msg.quote, msg.orders)
  }

  ghost predicate ConsistentOrders(b: Book, q: Quote, fs: seq<Fragment>) {
    forall i :: 0 <= i < |fs| ==>
      && fs[i].symbol == q.name
      && (fs[i].ticket in b.orders ==> b.orders[fs[i].ticket].symbol == q.name)
  }

  // ---------------------------------------------------------------------------
  // update_symbols

  /** The order created for an unseen ticket. */
  function NewOrder(f: Fragment, t: int): Order {
    Order(f.ticket, f.time, f.op, f.size, f.symbol, f.openPrice, f.sl, f.tp, f.swap, f.profit, t)
  }

  /** A known order as a later fragment updates it. */
  function Refreshed(o: Order, f: Fragment, t: int): Order {
    o.(profit := f.profit, swap := f.swap, timestamp := t)
  }

  /** The tickets a list of fragments mentions. */
  function Tickets(fs: seq<Fragment>): (ks: set<int>)
    ensures forall i :: 0 <= i < |fs| ==> fs[i].ticket in ks
    ensures forall k :: k in ks ==> exists i :: 0 <= i < |fs| && fs[i].ticket == k
  {
    if fs == [] then {} else Tickets(fs[..|fs| - 1]) + {fs[|fs| - 1].ticket}
  }

  /** One pass of the loop body of `update_symbols`. */
  function ApplyOrder(b: Book, q: Quote, f: Fragment, t: int): (r: Book)
    ensures r.balance == b.balance && r.profit == b.profit && r.equity == b.equity
    ensures f.ticket in r.orders && r.orders[f.ticket].timestamp == t
    ensures forall k :: k != f.ticket ==>
      (k in r.orders <==> k in b.orders) && (k in b.orders ==> r.orders[k] == b.orders[k])
    ensures f.ticket in b.orders ==>
      r.orders[f.ticket] == Refreshed(b.orders[f.ticket], f, t)
    ensures f.ticket !in b.orders ==> r.orders[f.ticket] == NewOrder(f, t)
    ensures forall n :: n in b.symbols ==>
      n in r.symbols && r.symbols[n].(tickets := {}) == b.symbols[n].(tickets := {}) &&
      b.symbols[n].tickets <= r.symbols[n].tickets
    ensures forall n :: n != q.name ==>
      (n in r.symbols <==> n in b.symbols) && (n in b.symbols ==> r.symbols[n] == b.symbols[n])
    // the ticket ends up filed under the message's symbol
    ensures q.name in r.symbols
    ensures Keyed(b.orders) ==>
      r.symbols[q.name].tickets == (if q.name in b.symbols then b.symbols[q.name].tickets else {}) + {f.ticket}
    // a symbol seen for the first time takes the message's quote
    ensures q.name !in b.symbols ==>
      r.symbols[q.name].(tickets := {}) == Symbol(r.orders[f.ticket].symbol, q.bid, q.ask, q.digits, {})
  {
    var o := if f.ticket in b.orders then Refreshed(b.orders[f.ticket], f, t) else NewOrder(f, t);
    var symbols :=
      if q.name in b.symbols then
        if o.ticket in b.symbols[q.name].tickets then b.symbols
        else b.symbols[q.name := b.symbols[q.name].AddOrder(o.ticket)]
      else
        b.symbols[q.name := Symbol(o.symbol, q.bid, q.ask, q.digits, {}).AddOrder(o.ticket)];
    b.(orders := b.orders[f.ticket := o], symbols := symbols)
  }

  /** The loop of `update_symbols` over the message's fragments, in order. */
  function ApplyOrders(b: Book, q: Quote, fs: seq<Fragment>, t: int): (r: Book)
    // the account figures are not touched by the loop
    ensures r.balance == b.balance && r.profit == b.profit && r.equity == b.equity
    // every mentioned ticket is present and stamped with t
    ensures forall k :: k in Tickets(fs) ==> k in r.orders && r.orders[k].timestamp == t
    // a ticket not mentioned is exactly as it was
    ensures forall k :: k !in Tickets(fs) ==>
      (k in r.orders <==> k in b.orders) && (k in b.orders ==> r.orders[k] == b.orders[k])
    // of a known order, only profit, swap and timestamp can change
    ensures forall k :: k in b.orders ==>
      k in r.orders &&
      r.orders[k] == b.orders[k].(profit := r.orders[k].profit, swap := r.orders[k].swap,
                                  timestamp := r.orders[k].timestamp)
    // an existing symbol stays, with the quote it was created with
    ensures forall n :: n in b.symbols ==>
      n in r.symbols && r.symbols[n].(tickets := {}) == b.symbols[n].(tickets := {}) &&
      b.symbols[n].tickets <= r.symbols[n].tickets
    // only the message's symbol can change
    ensures forall n :: n != q.name ==>
      (n in r.symbols <==> n in b.symbols) && (n in b.symbols ==> r.symbols[n] == b.symbols[n])
    ensures Keyed(b.orders) ==> Keyed(r.orders)
  {
    if fs == [] then b
    else
      var init, f := fs[..|fs| - 1], fs[|fs| - 1];
      assert Tickets(fs) == Tickets(init) + {f.ticket};
      ApplyOrder(ApplyOrders(b, q, init, t), q, f, t)
  }

  /** `update_symbols(msg)` at time `t`. */
  function Apply(b: Book, msg: Message, t: int): (r: Book)
    ensures r.balance == msg.balance && r.profit == msg.profit && r.equity == msg.equity
    ensures forall i :: 0 <= i < |msg.orders| ==>
      msg.orders[i].ticket in r.orders && r.orders[msg.orders[i].ticket].timestamp == t
    ensures forall k :: k in b.orders ==> k in r.orders
  {
    ApplyOrders(b.(balance := msg.balance, profit := msg.profit, equity := msg.equity),
                msg.quote, msg.orders, t)
  }

  // ---------------------------------------------------------------------------
  // delete_old_orders

  /** The orders whose last sighting is more than TTL seconds before `now`. */
  function Stale(b: Book, now: int): set<int> {
    set k | k in b.orders && now - b.orders[k].timestamp > TTL
  }

  /** The ledger without the tickets `d`, symbols left empty dropped. */
  function Purge(b: Book, d: set<int>): Book {
    b.(orders := b.orders - d,
       symbols := map n | n in b.symbols && b.symbols[n].tickets - d != {} ::
                    b.symbols[n].(tickets := b.symbols[n].tickets - d))
  }

  /** `delete_old_orders()` at time `now`. */
  function Evict(b: Book, now: int): (r: Book)
    // exactly the orders seen within TTL remain, unchanged
    ensures forall k :: k in r.orders <==> k in b.orders && now - b.orders[k].timestamp <= TTL
    ensures forall k :: k in r.orders ==> r.orders[k] == b.orders[k]
    // no symbol is left without orders, none is created, quotes are untouched
    ensures forall n :: n in r.symbols ==>
      n in b.symbols && r.symbols[n].tickets != {} &&
      r.symbols[n].(tickets := {}) == b.symbols[n].(tickets := {})
    ensures r.balance == b.balance && r.profit == b.profit && r.equity == b.equity
  {
    Purge(b, Stale(b, now))
  }
}
