# mt4-panel: the order ledger, its views and its key loop, in Dafny

mt4-panel is a terminal dashboard for a MetaTrader 4 account. A publisher
sends one JSON snapshot per symbol. Each snapshot holds:

- the account's balance, profit and equity;
- the symbol's quote (name, bid, ask, digits);
- the open and pending orders of that symbol.

The panel keeps two dictionaries in step:

- `orders`: ticket to order;
- `symbols`: name to symbol, each symbol holding the tickets filed under it.

It drops every order that no snapshot has mentioned for more than `TTL = 5`
seconds. It draws one of three tables:

- **positions**: one row per symbol with a BUY or SELL, with the net
  position, profit, swap and total;
- **orders**;
- **pending**: pending orders with their symbol's quote.

Keys switch between the tables and toggle what is shown.

The model has one module per part of `mt4-panel.py`:

- `Ledger` (ledger.dfy): the ledger as a value `Book`, and
  `update_symbols` and `delete_old_orders` as functions `Apply` and `Evict`
  on it, with the ledger invariant `Valid`:
  - every order is keyed by its ticket;
  - it is filed under its own symbol;
  - every filed ticket has an order naming that symbol;
  - no symbol is empty.
- `LedgerFacts` (ledger_facts.dfy): what the two operations promise across
  calls:
  - idempotence under duplicate delivery;
  - preservation of `Valid`;
  - exactly the stale orders go;
  - the drop in `len(orders)` counts them.
- `Aggregate` (aggregate.dfy): the `Symbol` queries `swap`, `profit`,
  `total`, `position` and `has_open_orders` as folds over the symbol's
  tickets, and what they mean.
- `Views` (views.dfy): the row selection of `draw_symbols`, `draw_orders`
  and `draw_pending`. The orders view is modelled twice, as written and as
  intended (see Findings).
- `Panel` (panel.dfy): class `Feed`, the module-level state of the data
  thread. `UpdateSymbols` and `DeleteOldOrders` change it in place with the
  loops of mt4-panel.py and are proved equal to `Apply` and `Evict`. `Poll` is one
  turn of `wait_for_message`: `Receive` (the message, or the "NO DATA"
  staleness test), then the sweep and the redraw decision. The redraw after
  the sweep (mt4-panel.py:435) calls `live.update` without `draw_panel`, so
  it repaints the table built before the sweep; evicted rows stay on screen
  until the next message (425) or key press. A turn reads the clock up to
  four times. The reading in `draw_symbols` or `draw_orders`
  (mt4-panel.py:227, 257) is never used. Each of the other three is its own
  parameter: `heard` dates the message (422) or feeds the staleness test
  (427), `t` stamps the orders (174), and `now` drives the sweep (368).
- `Keys` (keys.dfy): class `Controls`, the mode index, the mode name, the
  two hide switches and the quit flag, changed by `HandleKey` one key at a
  time.
- `Sorting` (sorting.dfy): `sorted()` over int and str keys, as the unique
  ascending enumeration of a set.
- `Scenarios` (scenarios.dfy): the ledger and tables after small first
  messages: one BUY, one pending order, expiry, and a BUY netted with a SELL.

Two details of `update_symbols` shape the model:

- A known ticket gets only profit, swap and the timestamp refreshed
  (mt4-panel.py:180-183); its type and open price are kept.
- A symbol takes bid, ask and digits only when it is created
  (mt4-panel.py:192-198); later snapshots leave its quote as it was.

## Model

| member | source | states |
|---|---|---|
| Sorting.SortedSeq | mt4-panel.py:372 | `sorted()` of a set of keys: every key once, nothing else, strictly ascending |
| Sorting.SortedSeqUnique | mt4-panel.py:372-373 | any strictly ascending enumeration of a key set is the sorted one, so the traversal order is determined |
| Sorting.StrLeTotal | mt4-panel.py:230 | Python's string comparison, by code points and then length, is a total order |
| Ledger.Symbol.AddOrder | mt4-panel.py:89-90 | `add_order` files the ticket and changes nothing else of the symbol |
| Ledger.Symbol.RemoveOrder | mt4-panel.py:92-94 | `remove_order` unfiles the ticket if it is filed, keeps every other ticket and the quote |
| Ledger.NewOrder | mt4-panel.py:185 | no ensures of its own: the order built for an unseen ticket, stamped `t`; `Ledger.ApplyOrder` and `LedgerFacts.ApplyOrdersAt` state where it is used |
| Ledger.Refreshed | mt4-panel.py:181-183 | no ensures of its own: a known order with profit, swap and timestamp replaced; `Ledger.ApplyOrder` and `LedgerFacts.ApplyOrdersAt` state where it is used |
| Ledger.ApplyOrder | mt4-panel.py:177-199 | one fragment: an unseen ticket gets a new order stamped `t`; a known one changes only profit, swap and timestamp; no other order changes; the ticket ends up filed under the message's symbol; a new symbol takes the message's quote and an existing one keeps its quote; account figures untouched |
| Ledger.ApplyOrders | mt4-panel.py:176-199 | every mentioned ticket is present and stamped `t`; unmentioned orders are unchanged; known orders change only profit, swap and timestamp; existing symbols keep their quote and their tickets; only the message's symbol can change |
| Ledger.Apply | mt4-panel.py:161-199 | balance, profit and equity are the message's; every ticket of the message is present with timestamp `t`; no order is lost |
| Ledger.Purge | mt4-panel.py:378-381 | no ensures of its own: the tickets removed from both maps, emptied symbols dropped; `Ledger.Evict` and `Panel.Feed.EvictTicket` state what it does |
| Ledger.Evict | mt4-panel.py:361-382 | exactly the orders seen within TTL remain, unchanged; no symbol is left empty or created; quotes and account figures untouched |
| LedgerFacts.ApplyOrdersAt | mt4-panel.py:178-186 | after the loop a mentioned order is its first version (known or created from the first fragment) with profit and swap of the last fragment mentioning it and timestamp `t` |
| LedgerFacts.ApplyOrdersNoRefile | mt4-panel.py:188-191 | tickets already filed under the symbol are not filed again: the symbols map is unchanged |
| LedgerFacts.ApplyOrdersTwiceOrders | mt4-panel.py:177-186 | running the fragment loop twice leaves the same orders as once |
| LedgerFacts.ApplyOrdersTwiceSymbols | mt4-panel.py:188-199 | running the fragment loop twice leaves the same symbols as once |
| LedgerFacts.ApplyIdempotent | mt4-panel.py:161-199 | applying the same message twice at the same time equals applying it once: nothing double-added |
| LedgerFacts.ApplyOrderValid | mt4-panel.py:177-199 | one fragment of the message's own symbol keeps the ledger invariant |
| LedgerFacts.ApplyOrdersCreatedSymbol | mt4-panel.py:185-186 | an order the loop creates names the symbol of the fragment it came from |
| LedgerFacts.ApplyOrdersValid | mt4-panel.py:176-199 | the fragment loop keeps the ledger invariant for fragments of the message's symbol |
| LedgerFacts.ApplyValid | mt4-panel.py:161-199 | a message whose orders belong to its symbol keeps the ledger invariant |
| LedgerFacts.ApplyOrdersFilesExactly | mt4-panel.py:188-199 | the message's symbol ends with its previous tickets plus exactly the mentioned ones |
| LedgerFacts.ApplyOrdersNewSymbol | mt4-panel.py:192-198 | a symbol created by the loop is named after the message's symbol and carries the message's bid, ask and digits |
| LedgerFacts.ApplySymbol | mt4-panel.py:188-199 | the first message listing orders of a symbol creates it with its quote and exactly its tickets; later ones keep the quote and add tickets |
| LedgerFacts.EvictValid | mt4-panel.py:372-382 | eviction keeps the ledger invariant: links intact, no empty symbol |
| LedgerFacts.EvictCount | mt4-panel.py:432-435 | the drop in `len(orders)` is the number of stale orders, so it is nonzero exactly when something was evicted |
| LedgerFacts.EvictIdempotent | mt4-panel.py:361-382 | a second sweep at the same time removes nothing |
| LedgerFacts.EvictExpired | mt4-panel.py:377-381 | when every order is older than TTL, eviction empties both maps |
| Aggregate.TicketSeq | mt4-panel.py:373 | a symbol's tickets, each once, ascending |
| Aggregate.Swap | mt4-panel.py:96-101 | no ensures of its own: the fold of the orders' swaps; `Aggregate.SumOrderIndependent` shows any enumeration of the tickets gives it |
| Aggregate.Profit | mt4-panel.py:103-108 | no ensures of its own: the fold of the orders' profits; `Aggregate.SumOrderIndependent` shows any enumeration of the tickets gives it |
| Aggregate.Total | mt4-panel.py:151-152 | no ensures of its own; `Aggregate.TotalIsSumOfOrderTotals` states it |
| Aggregate.NetLots | mt4-panel.py:117-128 | no ensures of its own; `Aggregate.NetLotsIsBuyMinusSell` states it |
| Aggregate.OpenCount | mt4-panel.py:118-128 | no ensures of its own; `Aggregate.OpenCountIsCardinality` states it |
| Aggregate.PositionOf | mt4-panel.py:116-142 | LONG exactly when net lots > 0, SHORT exactly when < 0 (carrying the negative value), NONE exactly when 0; LONG and SHORT carry the net lots and the BUY/SELL count |
| Aggregate.HasOpenOverIff | mt4-panel.py:145-149 | the early-exit scan returns true exactly when some scanned order is a BUY or a SELL |
| Aggregate.HasOpenOrders | mt4-panel.py:144-149 | no ensures of its own; `Aggregate.HasOpenOrdersIff` states it |
| Aggregate.HasOpenOrdersIff | mt4-panel.py:144-149 | `has_open_orders` holds exactly when some filed order is a BUY or a SELL |
| Aggregate.SumOverPermutation | mt4-panel.py:96-108 | a sum over tickets does not depend on their order |
| Aggregate.SumOrderIndependent | mt4-panel.py:96-108 | summing over any enumeration of a symbol's tickets, e.g. dict insertion order, gives the sum over the sorted tickets |
| Aggregate.TotalIsSumOfOrderTotals | mt4-panel.py:151-152 | `total()` is profit plus swap, i.e. the sum over the symbol's orders of profit plus swap |
| Aggregate.NetLotsIsBuyMinusSell | mt4-panel.py:119-128 | net lots are the BUY sizes minus the SELL sizes; pending types do not count |
| Aggregate.OpenCountIsCardinality | mt4-panel.py:119-126 | the count in the label is the number of BUY and SELL orders filed under the symbol |
| Aggregate.PositionNeedsOpenOrders | mt4-panel.py:116-149 | a symbol with only pending orders has position NONE and count 0; `has_open_orders` holds exactly when the count is positive |
| Aggregate.CountSuffix | mt4-panel.py:130-142 | the " (count)" suffix appears exactly when there is a net position and more than one BUY/SELL order; NONE never carries it |
| Views.ValidResolved | mt4-panel.py:98-100 | on a valid ledger every ticket filed under a symbol is a key of the global `orders`, which `swap`, `profit` and the views read |
| Views.Names | mt4-panel.py:230 | `sorted(symbols)`: every symbol name once, ascending |
| Views.ShownSymbols | mt4-panel.py:230-233 | the symbols `draw_symbols` lists: exactly those with a BUY or SELL order, ascending |
| Views.RowOf | mt4-panel.py:239-240 | no ensures of its own; `Views.RowOfName` and `Views.RowOfFigures` state what a row carries |
| Views.PositionRows | mt4-panel.py:230-240 | no ensures of its own; `Views.PositionRowsNames`, `Views.PositionRowsOrdered`, `Views.PositionRowsComplete` and `Views.PositionRowsFigures` state it |
| Views.RowOfName | mt4-panel.py:239 | on a valid ledger a row shows the name its symbol is stored under |
| Views.PositionRowsNames | mt4-panel.py:230-239 | each positions row is named after the symbol it was drawn for |
| Views.PositionRowsOrdered | mt4-panel.py:230 | positions rows are in ascending name order, no symbol twice |
| Views.PositionRowsComplete | mt4-panel.py:230-233 | a symbol has a positions row exactly when it has a BUY or SELL order |
| Views.RowOfFigures | mt4-panel.py:234-240 | a row carries the symbol's position; its total is profit plus swap, i.e. the sum of the orders' totals, styled as a loss exactly when negative |
| Views.PositionRowsFigures | mt4-panel.py:230-240 | every positions row carries the figures of its own symbol |
| Views.Listed | mt4-panel.py:260-262 | the (symbol, ticket) pairs a table walks: exactly the filed orders the filter accepts |
| Views.ListedAscending | mt4-panel.py:260-261 | the walk is ascending by symbol and then by ticket |
| Views.ListedKeys | mt4-panel.py:262 | on a valid ledger each walked pair is the order's own symbol and ticket |
| Views.ListedExactly | mt4-panel.py:260-262 | on a valid ledger a ticket is walked exactly when the filter accepts its order |
| Views.ListedOrdered | mt4-panel.py:260-261 | on a valid ledger the walk is ordered by symbol then ticket and visits no ticket twice |
| Views.OrderRowsAsWritten | mt4-panel.py:263-284 | `draw_orders` as written: only pending types appear, and nothing while pending orders are hidden |
| Views.OrderRows | mt4-panel.py:263-284 | the intended `draw_orders`: only known types, and only BUY/SELL while pending orders are hidden |
| Views.OrderRowsKeys | mt4-panel.py:260-279 | each row of the intended orders table shows the symbol and ticket of the pair it was drawn for |
| Views.OrderRowsComplete | mt4-panel.py:263-276 | the intended orders table lists every BUY and SELL, every pending order unless hidden, and nothing else |
| Views.OrderRowsOrdered | mt4-panel.py:260-261 | the orders table is ordered by symbol then ticket, no order twice |
| Views.PendingRows | mt4-panel.py:307-325 | `draw_pending` lists only orders with type > 1 |
| Views.PendingRowsKeys | mt4-panel.py:307-319 | each pending row shows the symbol and ticket of the pair it was drawn for |
| Views.PendingRowsComplete | mt4-panel.py:313-317 | the pending table lists exactly the orders with type > 1 |
| Views.PendingRowsOrdered | mt4-panel.py:307-313 | pending rows are ordered by symbol name then ticket, no order twice |
| Views.PendingRowsQuotes | mt4-panel.py:308-324 | each pending row shows the bid, ask and digits of the order's own symbol |
| Panel.FreshSurvive | mt4-panel.py:368-377 | a sweep at most TTL seconds after the stamp of a message (mt4-panel.py:174) evicts none of that message's orders |
| Panel.Feed.constructor | mt4-panel.py:410 | start-up: empty ledger, no data shown, last message dated five seconds back |
| Panel.Feed.UpsertOrder | mt4-panel.py:177-199 | one pass of the upsert loop changes the ledger as `ApplyOrder` does |
| Panel.Feed.UpdateSymbols | mt4-panel.py:161-199 | `update_symbols` leaves the ledger `Apply` describes |
| Panel.Feed.EvictTicket | mt4-panel.py:374-382 | one inner pass of the sweep removes the ticket from both maps exactly when it is stale, dropping an emptied symbol |
| Panel.Feed.EvictSymbol | mt4-panel.py:373-382 | one outer pass visits the symbol's tickets and keeps the sweep invariant |
| Panel.Feed.DeleteOldOrders | mt4-panel.py:361-382 | `delete_old_orders` leaves the ledger `Evict` describes |
| Panel.NoData | mt4-panel.py:427 | no ensures of its own: more than TTL seconds since the last message; `Panel.Feed.Receive` states its effect |
| Panel.Feed.Receive | mt4-panel.py:418-431 | a message is recorded as `Apply` describes with the stamp `t`, dated `heard`, and shows the data; without one, "NO DATA" comes up once more than TTL seconds have passed by the reading `heard`; the ledger stays valid |
| Panel.Feed.Poll | mt4-panel.py:416-435 | one turn leaves the ledger received at the stamp `t` swept at the later reading `now` as `Evict` describes, and still valid; a redraw is asked for exactly when the sweep evicted something |
| Keys.NextIndex | mt4-panel.py:456-490 | the mode index stays in {0,1,2}; only space, `p`, `o` and `P` move it |
| Keys.SpaceCycles | mt4-panel.py:457-460 | space moves forward, positions to orders to pending to positions; three spaces come back to the starting view, through the two others |
| Keys.SpaceMoves | mt4-panel.py:457-460 | space always changes the view |
| Keys.JumpIdempotent | mt4-panel.py:468-490 | `p`, `o`, `P` choose their view whatever was shown |
| Keys.JumpReaches | mt4-panel.py:468-490 | every view is one jump key away |
| Keys.Redraws | mt4-panel.py:456-492 | no ensures of its own: the keys whose branch redraws the panel; `Keys.Controls.HandleKey` states it |
| Keys.Controls.constructor | mt4-panel.py:42-49 | start-up: positions view, figures hidden unless the marker file exists; pending orders shown and not quitting, as `hide_pending = False` at mt4-panel.py:449 and `quit = False` at line 39 set them |
| Keys.Controls.HandleKey | mt4-panel.py:454-492 | space, `p`, `o`, `P` set the index as `NextIndex`; `h`/`H` flip only their switch; `q` sets only quit; the mode name stays `modes[mode_index]`; every handled key but `q` redraws |
| Scenarios.FirstMessage | mt4-panel.py:176-199 | a first message with one order leaves exactly that order, stamped `t`, filed under a new symbol with the message's quote |
| Scenarios.OneTicketSums | mt4-panel.py:96-128 | a one-ticket symbol's profit, swap, net lots and count are that order's |
| Scenarios.OneBuyRow | mt4-panel.py:116-142 | a symbol with one BUY: LONG with its size and count 1, total profit plus swap |
| Scenarios.OneBuyRows | mt4-panel.py:230-240 | a ledger whose one symbol files one BUY shows exactly that row |
| Scenarios.SingleBuy | mt4-panel.py:230-240 | the ledger after a first message with one BUY shows one LONG row with the order's figures |
| Scenarios.OrderRowsAsWrittenHidesBuy | mt4-panel.py:276 | as written, a ledger whose only order is a BUY shows an empty orders table, hidden or not |
| Scenarios.OrderRowsShowsBuy | mt4-panel.py:276 | the intended table shows that BUY |
| Scenarios.EurusdBuy | mt4-panel.py:230-240 | one BUY of 1.0 EURUSD with profit 50 and swap -2 shows `EURUSD, LONG 1.00, 50, -2, 48` |
| Scenarios.SinglePending | mt4-panel.py:232-233 | a pending order alone gives its symbol a ledger entry but no positions row |
| Scenarios.SingleOrderExpires | mt4-panel.py:377-381 | more than TTL seconds after the only message, eviction empties the ledger and the positions table |
| Scenarios.FirstMessageOfTwo | mt4-panel.py:176-199 | a first message with two orders files both under one new symbol |
| Scenarios.TwoTicketLots | mt4-panel.py:119-126 | a two-ticket symbol's net lots add up the two orders' signed sizes |
| Scenarios.TwoTicketCount | mt4-panel.py:119-126 | two BUY/SELL orders give count 2 |
| Scenarios.Netting | mt4-panel.py:116-142 | a BUY and a smaller SELL net to LONG of the difference, count 2, shown with the suffix |

## Left out

- Network input: the ZeroMQ context, socket, poller, topic subscription and
  `recv` (mt4-panel.py:51-61, 394, 417-421). `Poll` takes the received
  message, if any, as a parameter.
- Message decoding: `json.loads` and the positional
  `Order(*order.values(), t)`. A message is an already-decoded `Message`
  whose fragments have named fields.
- A message without an `"orders"` key: modelled as an empty order list.
- Rendering:
  - all `rich` output: tables, colours, `ctf`, `Layout`/`Live`;
  - the footer of `draw_panel`, including its `profit / balance * 100`,
    which divides by zero on a zero balance;
  - the two-decimal formatting.
- Row contents: only each row's data and the loss styling of the positions
  total are modelled.
- Time: every reading of the wall clock `time.time()` that the code uses is
  a parameter (`heard`, `t`, `now`); the unused readings at
  mt4-panel.py:227 and 257 are left out. No order between the readings is
  assumed, since the wall clock can be set back.
- Key-press redraws: every key `main` handles except `q` calls
  `draw_panel` (mt4-panel.py:461-489), which puts the table over a "NO
  DATA" panel until the next stale turn (mt4-panel.py:427-431) puts it back.
  `Feed.showingData` records only what the data thread last put up.
- Numbers: money and lots are `real`, so float rounding and accumulation
  order are not modelled. `SumOrderIndependent` shows that the order of
  summation does not matter over the reals.
- Iteration order: `swap`, `profit` and `position` iterate the symbol's
  dictionary in insertion order, while the model folds over the sorted
  tickets. Over reals the sum is the same (`SumOrderIndependent`).
- Threading: the data thread, `join` and the per-call `threading.Lock()`
  objects. Those locks are fresh locals and exclude nothing. Everything is
  modelled sequentially, and the keyboard loop and the data thread are
  separate classes.
- Process start-up: the marker file, whose path is hard-coded as
  `/home/jesse/.show-profit` (mt4-panel.py:33), so for any other user the
  figures start hidden; and the account argument. The marker's existence is
  a constructor parameter of `Keys.Controls`.
- Views.PendingRows: lists an order of any type above 1. `draw_pending`
  tests only `o.type > 1` (mt4-panel.py:316) and then indexes the six-entry
  `ORDER_TYPES` (mt4-panel.py:31, 320), so an order of type 6 or more would
  raise IndexError and the table would not be drawn. The model does not
  capture that failure. MetaTrader sends only types 0 to 5.
- Exiting: `sys.exit` on `q` is left out; only the quit flag is modelled.
- Unused and broken members, which nothing calls:
  - `Symbol.lots`, which iterates ticket numbers and reads `.size`;
  - `Symbol.get_row` and `Symbol.__str__`, which read a missing
    `self.symbol`.
- Other files: mt4-logger.py (one ZeroMQ read and print) and the getch
  wrapper (a foreign C library) are not part of this model.
- Panel.Feed.Receive, Panel.Feed.Poll: both require the message to be
  `Consistent`, i.e. its orders belong to the message's symbol and never
  move between symbols; `Valid` is preserved only for such messages. The
  code does not check this, and an inconsistent message crashes the data
  thread. For example, ticket 1 is filed under A, and then a message for B
  lists it, so B is created holding 1. Once ticket 1 is stale, the sweep
  deletes A (mt4-panel.py:380); on reaching B, `symbols[o.symbol]` at
  mt4-panel.py:378 raises KeyError. `Apply` itself has no precondition.

## Findings

| source | as written | input that shows it | evidently intended | confidence | as-written member | corrected member |
|---|---|---|---|---|---|---|
| mt4-panel.py:276 | the orders view adds a row only when `o.type > 1 and not hide_pending`, so it never shows a BUY or SELL, and `h` empties it | a ledger holding one BUY (ticket 1, EURUSD): `draw_orders` lists nothing, with `hide_pending` false or true | every BUY and SELL, plus the pending types unless `hide_pending` is set | medium, not executed | Scenarios.OrderRowsAsWrittenHidesBuy | Scenarios.OrderRowsShowsBuy |
