# Verification of the mini exchange

A Dafny model of the exchange in `internal/engine` and of the components around
it, with proofs over all orders, all runs and all interleavings.

## What is modelled

**The matcher of one stock.** `Entities`, `BookSpec`, `Matching` and `DepthSpec`
say on values what the order book and the two sweep loops compute; the save of a
trade is an oracle that may fail at any attempt. `BookInvariant` turns this into a
step system with one step per loop iteration. The theorems are in `BookInvariant`
(the book in every reachable state), `Ledger` and `Conservation` (quantities),
`Optimality` (the exchange argument), `Priority` (price-time priority, and the book
as one stable sort), `Resubmission`, `DepthSpec` and `TradeFacts`. Most are proved
for buys and carried to sells by `MirrorSymmetry`.

**The program itself.** `OrderBooks` and `Matchers` hold the same logic as classes:
order objects shared between the caller and the book entries, slices changed in
place, loops. Each method is proved to compute the function of the value level, so
the theorems hold of it. `Repositories` and `Pagination` are the in-memory stores.

**The exchange.** `Exchange` puts the matchers of all stocks on the same stores: one
trade list with one ID counter, one order store, one set of tickers and snapshots,
bounded queues, and steps that are single loop iterations of any matcher, saves and
submits of the order service, and the closing of each channel. `SharedTrades` and
`SharedOrders` say what is in the stores, `ExchangeFacts` what follows for the exchange,
and `StoreWrites` why an iteration may be one step. `Engines` holds the queues as a
class.

**Around it.** `HubSpec`, `HubEffects` and `Hubs`: the WebSocket hub. `BatchSpec` and `DbWorkers`:
the batching writer and its retries. `Partition`: ownership of stocks in a cluster and
the routing of orders.

Clocks, random IDs, JSON and logging are left out; trade IDs come from a counter.
`memory.TradeRepo.Save` fails only on a repeated ID, so over memory stores no save
fails (`SharedTrades.MemoryNeverFails`), and the no-fault theorems hold there without
an oracle (`BoughtBest`, `SoldBest` and `MemoryExact` in `ExchangeFacts`).

Some calls make the source panic. A submit for a listed stock whose channel is closed is
a send on a closed channel: in `Exchange` it crashes the process and nothing moves any
more. `CrashesExactly` says when that happens, and the claim that a stop processes
everything accepted is proved for the runs where it does not, with `LateSubmitStrands`
for the others. Such runs exist in a cluster: the server stops its engine before it
closes the NATS subscriber that submits to it (`cmd/server/main.go`, lines 385 and 402).
A negative batch size also panics and is excluded by a precondition of the worker; a
batch size of 0 flushes every operation alone, as it does in the source.

Where documentation and code disagree the code is followed: the comment on
`OrderRepo.Save` names a not-found error where the code reports a duplicate, and the
comment on `orderEntry.remaining` says it starts at the order's quantity where the
code starts it at the unfilled part.

## Model

| member | source | states |
|---|---|---|
| `Optimality.BuySweepOptimal` | internal/engine/matcher.go:108-132 | With no failed save a buy executes exactly min(its remaining, total remaining of asks within its limit), and no other split of that quantity over the resting asks costs less |
| `Optimality.SellSweepOptimal` | internal/engine/matcher.go:135-159 | The same for a sell: the exact quantity, and no other split over the resting bids pays more |
| `Matching.StepProgress` | internal/engine/matcher.go:108-159 | Every loop iteration strictly lowers the total remaining of the opposite side, even when the trade is lost, so the sweep ends |
| `Matching.StepExhausts` | internal/engine/matcher.go:118-131 | No iteration stops short: the best opposite entry goes, or as much of it as the incoming order wants, and the incoming order is filled by as much unless the trade is lost |
| `Priority.EarlierFirst` | internal/engine/matcher.go:108-159 | Over whole runs: while an order rests at a price no worse than that of one which came to rest later, the later one is not hit |
| `Priority.BetterPriceFirst` | internal/engine/matcher.go:108-159 | Over whole runs: while an order rests at a strictly better price, a worse-priced one on its side is not hit, and stays as it is |
| `Priority.OnlyTheHitChanges` | internal/engine/matcher.go:108-159 | Of all resting orders only the one that is hit is filled, reduced or dropped by an iteration |
| `MirrorSymmetry.MirrorMatchOrder` | internal/engine/matcher.go:90-159 | Swapping sides and negating prices turns processing a sell into processing a buy, sweep and resting included, for every book and order; the stored copies too unless IDs coincide |
| `MirrorSymmetry.MirrorStepSell` | internal/engine/matcher.go:135-159 | One iteration of the sell loop is one iteration of the buy loop in the mirror |
| `MirrorSymmetry.MirrorsExactly` | internal/engine/matcher.go:186-191 | Exactly when the mirror holds for one iteration, stored copies included: unless both orders share an ID that is stored, the trade was saved, and it leaves the two with different fills or statuses |
| `BookInvariant.BookInvAlways` | internal/engine/matcher.go:90-159 | In every state between two loop iterations, for any orders (repeated IDs too) and any failed saves: sides sorted, best bid below best ask, index equal to the IDs, each once, every remaining positive |
| `BookInvariant.FinishInv` | internal/engine/matcher.go:98-101 | Resting what a finished sweep left keeps the book uncrossed and well formed |
| `BookInvariant.RunTakes` | internal/engine/matcher.go:72-81 | Running whole orders one after the other is exactly what the single loop iterations add up to |
| `BookSpec.AddOrderSplits` | internal/engine/orderbook.go:48-70 | A rested order lands behind every entry whose price is not worse and before every worse one |
| `Priority.BookIsStableSortOfSurvivors` | internal/engine/orderbook.go:48-86 | After any adds and removes each side is one stable sort by price of the orders still live in arrival order, and the index is their IDs |
| `Priority.RunIsStableSortOfSurvivors` | internal/engine/orderbook.go:48-86 | In every state of every run, partial fills and failed saves included: as they arrived, the orders of each side are one stable sort by price of those rested and not removed so far |
| `StableSort.SliceStableIsStable` | internal/engine/orderbook.go:56-69 | The modelled sort keeps the original order among equal keys |
| `StableSort.StableSortUnique` | internal/engine/orderbook.go:56-69 | A sorted sequence with the same elements key by key is unique, so the modelled sort is the library one |
| `Ledger.LedgerAlways` | internal/engine/matcher.go:162-191 | At every moment, whatever saves fail: 0 <= filled <= quantity, filled = sum of saved trades naming the order, 0 < entry remaining <= order remaining with the gap exactly what unsaved trades took, stored copies up to date, and each order in exactly one place |
| `Conservation.Conserved` | internal/engine/matcher.go:90-184 | Per side, at every moment: accepted quantity = queued + in hand + resting + traded + lost to unsaved trades |
| `Conservation.NoFaultExact` | internal/engine/matcher.go:162-184 | With no failed save entries equal the unfilled part of their orders, every order done is Filled in full, and total bought = total sold |
| `Conservation.LogAlways` | internal/engine/matcher.go:162-180 | Attempts carry fresh increasing IDs, this stock and a positive quantity, and are saved exactly when the store accepts |
| `TradeFacts.TradesAlwaysFair` | internal/engine/matcher.go:117-124 | Every attempted trade is between an accepted buy and an accepted sell, names them and their users correctly, at the resting order's price and within both limits |
| `TradeFacts.TickerExact` | internal/domain/entity/ticker.go:19-33 | Over a run of validated orders an initialised ticker holds the sum, maximum, minimum and last over the saved trades |
| `TradeFacts.TickerFollows` | internal/domain/entity/ticker.go:19-33 | From any ticker and after any trades at prices from 1 up: volume adds up, the high is never below what it was nor below any price, and is one of these; the low likewise, where 0 means none yet; the change is that of the last price against a positive previous close |
| `Resubmission.ResubmitIsNoop` | internal/engine/matcher.go:90-105 | Processing an order of which one with the same ID, side and price rests makes no trade and leaves the book alone |
| `Resubmission.ResubmitAfterResting` | internal/engine/orderbook.go:48-52 | Processing a new order twice in a row, as a copy or as the same object, is processing it once if some of it rests |
| `DepthSpec.DepthRefinesSide` | internal/engine/orderbook.go:106-144 | On each side of a snapshot: uncapped depth has every price of the side once, in strict order, with its whole quantity and order count and the right total; a capped one is its first levels |
| `DepthSpec.DepthUncrossed` | internal/engine/orderbook.go:106-144 | In a published snapshot every bid level is below every ask level |
| `OrderBooks.OrderBook.AddOrder` | internal/engine/orderbook.go:48-70 | The method on shared entries computes the value-level AddOrder, keeping the entries it had |
| `OrderBooks.OrderBook.RemoveOrder` | internal/engine/orderbook.go:73-77 | The method computes the value-level removal on both sides and the index |
| `OrderBooks.OrderBook.RemoveEntry` | internal/engine/orderbook.go:79-86 | The loop drops the first entry with the ID and nothing else |
| `OrderBooks.OrderBook.AggregateLevels` | internal/engine/orderbook.go:121-144 | The loop computes the levels that DepthRefinesSide is about, cap included |
| `Matchers.Matcher.ExecuteTrade` | internal/engine/matcher.go:162-191 | An attempt is logged; only if saved are both objects filled, both stored copies overwritten and the ticker moved |
| `Matchers.Matcher.MatchBuy` | internal/engine/matcher.go:108-132 | The loop over shared order and entry objects ends in exactly the state of the value-level sweep |
| `Matchers.Matcher.MatchSell` | internal/engine/matcher.go:135-159 | The same for the sell loop |
| `Matchers.Matcher.MatchOrder` | internal/engine/matcher.go:90-105 | The object program computes the value-level MatchOrder; repositories agree with the log; the stored snapshot is the depth of the new book, ten levels a side |
| `Matchers.Matcher.RunQueue` | internal/engine/matcher.go:72-81 | The goroutine over the order objects of its channel computes the sequential Run of the values they came with |
| `Entities.Order.Fill` | internal/domain/entity/order.go:62-70 | Adds to the fill and sets Filled or Partial |
| `Entities.Ticker.UpdateFromTrade` | internal/domain/entity/ticker.go:19-33 | The method on the fields computes the step TickerFollows is about |
| `Exchange.EveryStockSequential` | internal/engine/engine.go:26-81 | For any interleaving of saves, submits, single loop iterations of all matchers and the stop, over shared stores and whatever saves fail: each matcher is in a state of the run of its accepted orders by themselves |
| `ExchangeFacts.BetweenOrders` | internal/engine/matcher.go:72-81 | At every moment a matcher has processed exactly the accepted orders it took off its queue, one after the other, the last perhaps still in hand; the queue is the rest, in order |
| `SharedTrades.StoresAlways` | internal/engine/engine.go:26-46 | In every reachable state each stock's part of the one trade list is what its matcher saved (IDs apart), its ticker sums exactly those trades up, and between orders its snapshot is the depth of its book |
| `SharedTrades.MemoryNeverFails` | internal/infra/storage/memory/trade_repo.go:34-47 | With one memory trade store for all matchers and IDs from one counter no save ever fails |
| `SharedOrders.OrdersReadBack` | internal/app/order/service.go:46-73 | When every order is new, saved under its own ID and submitted once at most after that: every order the engine has reads back from the shared order store with the engine's status and fill, and one it never accepted as it was saved |
| `SharedOrders.SavedForGood` | internal/infra/storage/memory/order_repo.go:34-47 | Whatever happens next, by the protocol of orders or not: a saved order stays in the shared store, a second save under its ID changes nothing, and only fill and status of it ever change |
| `ExchangeFacts.InterleavingDoesNotMatter` | internal/engine/engine.go:48-81 | Two runs over shared memory stores that accept the same orders of a stock and have as many queued leave, between orders, the same matcher, the same trades of the stock (IDs apart), the same ticker and the same snapshot |
| `ExchangeFacts.BoughtBest` | internal/engine/matcher.go:108-132 | On memory stores, with other stocks at work in between: a buy sweep bought exactly min(its remaining, what was within its limit), and no other split over the asks it found costs less than the shared trade list shows |
| `ExchangeFacts.SoldBest` | internal/engine/matcher.go:135-159 | The same for a sell sweep: no other split pays more |
| `ExchangeFacts.MemoryExact` | internal/engine/matcher.go:162-184 | On memory stores, for any interleaving: entries equal the unfilled part of their orders, every order done is Filled in full, and on both sides accepted = queued + in hand + resting + traded in the shared list |
| `ExchangeFacts.ExchangeConserves` | internal/engine/engine.go:48-81 | Whatever saves fail and whatever interleaves: the book is sound, and per side accepted = queued + in hand + resting + traded in the shared list + lost to unsaved trades |
| `ExchangeFacts.EveryOrderOnce` | internal/engine/engine.go:72-81 | Every accepted order is in exactly one of queue, hand, book and done |
| `ExchangeFacts.StopProcessesEverything` | internal/engine/engine.go:61-68 | In a run without a late submit: once a stock has had, after its channel was closed, the turns its orders need at most (an explicit bound), every order accepted for it has been processed exactly once, in acceptance order |
| `Exchange.CrashesExactly` | internal/engine/matcher.go:58-65 | The process panics if and only if an order for a listed stock is submitted after its channel was closed |
| `ExchangeFacts.LateSubmitStrands` | internal/engine/engine.go:61-81 | A run that does panic, by the order protocol: an accepted order stays queued for good, whatever would come after |
| `ExchangeFacts.QueuesBounded` | internal/engine/matcher.go:58-65 | A queue never exceeds its capacity; while its channel is open an order for a listed stock is turned down exactly when the queue is full; once it was closed the submit panics, full or not |
| `StoreWrites.OverlapDoesNotMatter` | internal/engine/matcher.go:162-191 | Two iterations of different stocks whose single writes to the shared stores overlap in any way leave the same orders, tickers, snapshots and per-stock trades as one after the other |
| `ExchangeFacts.ListIsFair` | internal/engine/matcher.go:117-124 | Every trade of a stock in the shared list is between an accepted buy and an accepted sell of it, at the limit of one and within that of the other |
| `ExchangeFacts.ListTicker` | internal/domain/entity/ticker.go:19-33 | The ticker of a stock, whatever it was at the start, has moved by exactly the stock's trades in the shared list: volume, high, low, last and change; from a zero ticker it holds their sum, maximum, minimum and last |
| `Engines.Engine.SubmitOrder` | internal/engine/engine.go:72-81 | At any time, the submit event of the exchange: unknown stock exactly when there is no matcher for it, full queue, queued, or a panic; once stopped, a panic exactly for listed stocks |
| `Engines.Engine.Stop` | internal/engine/engine.go:61-68 | The loop closes every channel, in any order, and a second call does nothing |
| `Repositories.TradeRepo.Save` | internal/infra/storage/memory/trade_repo.go:34-47 | Fails exactly on a repeated ID; otherwise all three views grow together and still agree with a plain scan |
| `Repositories.TradeRepo.FindByStockCode` | internal/infra/storage/memory/trade_repo.go:51-71 | The trades of the stock from the last one backwards, as many as there are or as a positive limit allows |
| `Repositories.TradeRepo.FindAll` | internal/infra/storage/memory/trade_repo.go:75-115 | The page of the filtered insertion-ordered list and the size of that list |
| `Repositories.TradesSelected` | internal/infra/storage/memory/trade_repo.go:79-87 | That list holds, and that size counts, exactly the trades of the stock asked for that the user asked for bought or sold, each asked for or not |
| `Repositories.OrderRepo.Save` | internal/infra/storage/memory/order_repo.go:34-47 | Stores a fresh copy in map and list, or fails on a known ID |
| `Repositories.OrderRepo.Update` | internal/infra/storage/memory/order_repo.go:113-127 | Overwrites status and fill of the one stored object, seen through both map and list |
| `Repositories.OrderRepo.FindAll` | internal/infra/storage/memory/order_repo.go:64-109 | The page of the filtered insertion-ordered list and the size of that list |
| `Repositories.OrdersSelected` | internal/infra/storage/memory/order_repo.go:70-81 | That list holds, and that size counts, exactly the orders with the stock, the status and the owner asked for, each asked for or not |
| `Repositories.MarketRepo.UpdateTickerFromTrade` | internal/infra/storage/memory/market_repo.go:127-145 | Replaces the ticker of an initialised stock by itself after the trade, and no other |
| `Repositories.MarketRepo.UpdateOrderBook` | internal/infra/storage/memory/market_repo.go:175-184 | Replaces the snapshot of an initialised stock only |
| `Repositories.MarketRepo.InitStock` | internal/infra/storage/memory/market_repo.go:57-80 | Creates what is missing and leaves alone what is there |
| `Pagination.PageIsStretch` | internal/infra/storage/memory/trade_repo.go:91-113 | A page is the stretch of the list from (page - 1) * size on, full or up to the end; page 1 and size 20 stand in for numbers that are not positive |
| `Pagination.PagesTile` | pkg/response/json.go:87-98 | Pages 1 to NewMeta's page count concatenate to the matched list if and only if the page size is positive or nothing matched |
| `Pagination.PagesNotEmpty` | pkg/response/json.go:87-98 | None of the announced pages is empty |
| `HubSpec.After` | internal/transport/ws/hub.go:80-170 | After any messages in any order, each client registered at most once: subscription maps inverse over the clients, exact positive address counts, the three limits, open queues exactly those of clients |
| `HubEffects.EffectInEveryRun` | internal/transport/ws/hub.go:80-170 | After any messages in any order, what one more does to each client: a register admits below 1000 connections and 10 per address or says which limit was hit and closes; a subscribe adds exactly that pair below 20 and says so; an unsubscribe takes it away and says so; a direct send reaches a client with fewer than 256 waiting; a broadcast reaches exactly the subscribers with room and removes and closes the others; an unregister removes and closes that client, a shutdown everybody; nobody else notices |
| `HubSpec.ClosedForGood` | internal/transport/ws/hub.go:80-189 | In any run a closed queue stays closed, and holds what it held then less what its reader took off the front |
| `HubSpec.ClosedInEveryRun` | internal/transport/ws/hub.go:80-189 | The same of the hub itself, after any messages in any order |
| `HubSpec.BroadcastExact` | internal/transport/ws/hub.go:148-161 | One copy for exactly the subscribers with room, removal and closing of exactly the full ones, everybody else untouched |
| `HubSpec.RemoveTogether` | internal/transport/ws/hub.go:150-161 | Removing clients in any two goes is removing them together, so the order of map iteration does not matter |
| `HubSpec.DropCounts` | internal/transport/ws/hub.go:183-186 | Decrementing an address and deleting it at zero keeps the counts exact |
| `HubSpec.AdmittedExactly` | internal/transport/ws/hub.go:83-97 | A newcomer becomes a client exactly when both limits leave room; otherwise it gets one error and a closed queue |
| `HubSpec.SubscribedExactly` | internal/transport/ws/hub.go:102-125 | A subscription is made exactly for a client with room, and nothing else changes |
| `HubSpec.UnsubscribedExactly` | internal/transport/ws/hub.go:127-139 | An unsubscribe takes away that subscription of that client and nothing else |
| `Hubs.Hub.Register` | internal/transport/ws/hub.go:83-97 | The method on the maps computes the admission step |
| `Hubs.Hub.RemoveClient` | internal/transport/ws/hub.go:174-189 | The method takes the client out of all four maps and closes its queue once |
| `Hubs.Hub.Broadcast` | internal/transport/ws/hub.go:148-161 | Walking the subscribers and kicking the slow ones in any order computes the broadcast step |
| `Hubs.Hub.Run` | internal/transport/ws/hub.go:80-170 | The loop over the hub object, message after message up to a shutdown, ends in After of the messages it handled |
| `BatchSpec.RetryIsIdempotent` | internal/worker/dbworker.go:197-257 | Applying a full batch after any number of attempts that each got some way into it gives the same tables as applying it once |
| `BatchSpec.ApplyOrder` | internal/worker/dbworker.go:204-222 | After a batch an order row has the fixed columns of its first writer and the other three of its last |
| `BatchSpec.ApplyTrade` | internal/worker/dbworker.go:224-234 | After a batch a trade row is the one that was there, or else the first one written under its ID |
| `DbWorkers.DBWorker.FlushWithRetry` | internal/worker/dbworker.go:174-194 | Retries up to the limit and stops at the first success; success leaves the tables as one application, failure leaves them where the batch can still be applied to that effect |
| `DbWorkers.DBWorker.Start` | internal/worker/dbworker.go:124-171 | For every schedule: flushed batches in order + batch + channel = accepted operations, no batch empty or over the batch size (over 1 when that is 0), after a tick everything received is handed over, the state is that of the loop on values, and after the exit everything accepted was handed over exactly once, in order; if the database never fails more often in a row than a batch is retried, the tables are then those of one batch of everything accepted |
| `DbWorkers.DBWorker.Turn` | internal/worker/dbworker.go:144-171 | A tick hands over everything received so far; a receive hands the batch over exactly when it reaches the batch size; nothing else does |
| `DbWorkers.EveryTurnHandsOver` | internal/worker/dbworker.go:144-171 | The same after any schedule of the loop on values |
| `DbWorkers.FullBatches` | internal/worker/dbworker.go:153-157 | As long as no tick comes and the loop runs, every batch handed over has exactly the batch size |
| `DbWorkers.LoopEnds` | internal/worker/dbworker.go:124-171 | The loop ends exactly when, after Stop has set its flag and closed the channel, the channel has been ready once for every operation left and once more for its close |
| `DbWorkers.DBWorker.Enqueue` | internal/worker/dbworker.go:94-115 | An operation is queued exactly if the worker was not stopped and its channel has room; full is reported exactly when it was not stopped and the channel is full |
| `DbWorkers.DBWorker.TrySend` | internal/worker/dbworker.go:103-114 | The send after the check: accepted exactly if the channel is open with room; on a channel closed meanwhile it is reported as stopped |
| `Partition.OwnerIndex` | pkg/partition/partitioner.go:48-56 | The remainder of the hash of the stock by the size of the cluster, and 0 without one |
| `Partition.OwnershipPartitions` | pkg/partition/partitioner.go:60-69 | For any hash the owned lists of instances 0 to N-1 together are a permutation of the stocks |
| `Partition.OwnedExactlyOnce` | pkg/partition/partitioner.go:43-56 | A listed stock is on the list of exactly the instance OwnerIndex names |
| `Partition.Partitioner.OwnedStocks` | pkg/partition/partitioner.go:60-69 | The loop and sort return the owned stocks in sorted order |
| `Partition.OrdersReachTheirMatcher` | internal/partition/router.go:58-67 | An order for a listed stock submitted anywhere goes to the one instance with a matcher for it, directly or over the subject of the stock, on which that instance and no other listens |

## Left out

- HTTP handlers, authentication, the WebSocket pumps, the event bus, NATS, Redis and the price simulator: plumbing around the components above; NATS delivery is assumed exactly once.
- Timestamps, `ChangePct` and other floating point, int64 overflow: integers are unbounded here.
- `UpdateTicker` by the simulator: the matcher is the ticker's only writer in this model.
- Engines.Engine.SubmitOrder: only the queues of this class are code. What a matcher does with an order it took off its queue is a step of Exchange on values, and code in Matchers.Matcher; no object of the one class holds an object of the other. That Stop waits for the goroutines is not modelled.
- Exchange.EveryStockSequential: an iteration with all it writes to the stores is one step. StoreWrites.OverlapDoesNotMatter justifies that for two iterations; runs of single writes are not a step system of their own.
- Matchers.Matcher.MatchOrder: the stores are this matcher's own for the length of the call; sharing them is modelled in Exchange. The trade store may fail at any save; Matchers.SaveInMemory shows that the memory repository does as one that never fails. The published events are left out.
- Matchers.Matcher.RunQueue: the orders of the channel are a sequence given at the start, without the nil orders the loop skips.
- Repositories.TradeRepo.FindAll: stored trades never change, so copies are values; aliasing of results is not modelled.
- Hubs.Hub.Run: the six control channels of the hub and their capacities are left out: the messages are one sequence, in any order. HubSpec.After also says what messages behind a shutdown would do, which the loop no longer reads.
- DbWorkers.DBWorker.Start: time is left out, so the back-off is not modelled; the schedule stands for the select and for the other goroutines.
- Liveness of the hub: an unregister can be handled before its register, so no claim is made that every disconnected client leaves.
- The last row of an order in PostgreSQL: a late create can overwrite an update, so only claims about batches are made.
- The FNV-1a hash: any function of the stock code.
