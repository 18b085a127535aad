# Flash-deal orders: stock ledger, order saga, cache and listing

This project models the stock and order logic of the flash-deals repository and proves what it keeps. All Dafny files
verify together with `dafny verify dfyconfig.toml`.

## What is modelled

**The order system as one state machine** (`SagaSystem`). Any number of `CreateOrder`, `AsyncCreateOrder`,
`ConfirmOrder` and `CancelOrder` calls run at once over the product table, the Redis counters of open deals, the stock
channel with its one worker, the order rows with their row locks, and the Redis order list with its one worker. Each
remote stock update passes through its stages (sent, routed by the `HasStock` test, waiting for or in the channel,
applied or not) one step at a time, and at any of them it can fail, be abandoned by its caller or lose its reply.
A caller may be told of failure after its update took effect. `HasStock` may go unanswered and answer false. Deals open
during the run on any stock their row has shown, and close with or without their write-back. On this machine:

- `SagaInvariant`, `SagaFrame`: the shape every reachable state has, and what each step leaves alone.
- `SagaLedger`: where every unit is. The exact books of any run, the four kinds of step that mint units, and no oversell
  in any run without one.
- `SagaConservation`: exact conservation if and only if every step is clean.
- `SagaRuns`: whole sales and cancels, a run that oversells for each of the four ways to mint, and a refund that is
  refused.
- `SagaCancel`: restock at most once under racing confirms and cancels.
- `SagaAnswers`: callers are told of success exactly when they succeeded; of racing confirms at most one.
- `SagaPipeline`: accepted asynchronous orders, accounted for in enqueue order.
- `SagaDrain`: once arrivals stop, the system comes to rest, and only then stops.
- `SagaSimulation`: every call of the sequential order service is a run of the machine, deals open or not, and the
  machine's stock channel is the stock queue.

**The parts by themselves.** `StockQueue` (the bounded channel, many senders, abandoned waits), `Hotdeal` (the Lua
script, the counter repository, the server's back-end choice, opening and closing a deal, every Redis command able to
fail), `ProductDb` (the locked update), `OrderService` (the Go order service as an object, every failure point a
parameter) with `OrderFlows`, `OrderWorker` and `OrderRefinement`, and `PythonOrders` (the Python service's create, over its gRPC or
HTTP product client). Methods follow the source's loops and branches and are proved equal to specification functions;
the lemmas, and the contracts of the main methods themselves, say what those functions mean without naming them.

**The cache** (`CacheKeys`, `ProductCache`, `CacheConcurrency`): the cache-aside repository against the plain one, call
by call, and with reads and writes of products and pages interleaved step by step.

**The listing** (`OrderListing`): one LEFT JOIN, cut to a page and grouped, against one query per order.

`Common`, `Sums`, `Pricing` and `Int32` hold shared types, sums over sequences, order lines with their money, and Go's
wrapping `int32`.

## Where the code does not do what is asked of it

Each of these has a lemma with the failing input or the exact condition.

- Four steps put units on sale that are not there, and nothing else does (`SagaLedger.MintIff`). Each has its exact
  condition and a run that oversells:
  - A deal that sells out leaves the database row as it was when the deal opened, because the write-back is skipped at
    zero (services/product/go/internal/handler/product.go:531; `SagaRuns.SoldOutDealOversells`).
  - A write-back that fails comes after the counter was deleted, with the same result
    (services/product/go/internal/handler/product.go:532-534; `SagaRuns.FailedWriteBackOversells`).
  - `HasStock` answers false when Redis does not answer, and sends an update of a product in a deal to the row
    (services/product/go/internal/repository/hotdeal_repository.go:159-161;
    `SagaRuns.UnansweredHasStockOversells`).
  - `StartHotdeal` reads through the product repository, which is the cached one unless caching is off
    (services/product/go/internal/handler/product.go:493, services/product/go/cmd/server/main.go:62-65), and may open a
    deal on a stock the row no longer has (`SagaRuns.OutdatedReadOversells`;
    `CacheConcurrency.OvertakenReaderLeavesOldAnswer` says how the cache comes to hold it).
- A refund can be refused. A sale inside a deal leaves the row at the whole supply; its refund, if `HasStock` goes
  unanswered, is added to that row, which refuses it beyond 2^31-1 and otherwise shows more than there was
  (`SagaRuns.RefusedRefund`). `SagaLedger.RefundsAlwaysFit` says that without minting this is the only way.
- Redis and the database differ on a delta of -2^31 and on sums above 2^31-1: the database refuses, Redis stores
  (`Hotdeal.CallFaithfulIff`).
- An asynchronous order that the tables reject is dropped with its stock already taken
  (`OrderRefinement.AsyncRefinesSyncIff`, `SagaLedger.DisposeLedger`); with a negative quantity it adds stock
  (`OrderFlows.NegativeQuantityMintsStock`).
- The Python service gives no stock back when the insert raises a database exception, or when its HTTP client loses a
  decrement in transport; and a refund lost in transport ends its compensation (`PythonOrders.FailedPyCreateIsNoOpIff`,
  `PythonOrders.TransportErrorKeepsStock`).
- `OFFSET` in the joined listing counts rows, not orders, so a page is right if and only if the orders it skips (all of
  them, past the end) take no more rows than the offset and its own orders fit ten rows an order
  (`OrderListing.JoinPageIsPlainPageIff`); among existing orders of at most ten items, if and only if every skipped one
  takes one row (`OrderListing.PagesOfSmallOrders`). The comment beside the limit (ten rows an order are
  plenty) is right about the limit and says nothing of the offset.
- A reader overtaken by a write leaves the old product or page in the cache; a stock write leaves cached pages showing
  old stock (`ProductCache.PageAfterStockWriteIff`).

## Hypotheses

- Quantities are at least 1 and prices and quantities are `int32` (`Pricing.Sane`). The Go handler does not check
  quantities; the table and the Python schema do (services/order/db/schema.sql:34,
  services/order/python/src/schemas.py:41).
- An error from `Commit` or `Enqueue` means that it did not take effect.
- A deal opens or closes only while no update of its product lies between its `HasStock` test and its effect, and opens
  only when none is open; unloading is GET then DEL (services/product/go/internal/repository/hotdeal_repository.go:77-89).
- The initial table holds non-negative `int32` stocks, and no product is added during a run of the order system.
- Rows of one listing have distinct `created_at`; items of one order come in one fixed order, since all get the time of
  their transaction and the query leaves ties open.
- In `ProductCache.CacheRefinesDb`, Redis answers during writes; during reads it may be down.
  `ProductCache.LostInvalidationIff` and `CacheConcurrency` do without.
- Over HTTP, the Python order service talks to a product service that updates one locked row in one transaction
  (services/product/python/src/service.py:204-217); deals are out of its reach there.

Every lemma carries `{:induction false}`, so that each inductive step is written in its body.

## Steps of the machine and their source

| step | source |
|---|---|
| `Arrive`, `Send`, `Return` | services/order/go/internal/service/order.go:145-158, 297-310, 541-545 |
| `Route`, `RunRedis` | services/product/go/internal/grpc/server.go:108-128, services/product/go/internal/repository/hotdeal_repository.go:152-164 |
| `Admit`, `RunWorker` | services/product/go/internal/queue/stock_queue.go:55-88 |
| `FailCall` | services/product/go/internal/queue/stock_queue.go:86-87, services/product/go/internal/grpc/server.go:113-125 |
| `CommitOrder`, `AbortOrder`, `Finish` | services/order/go/internal/service/order.go:161-227 |
| `PushOrder` | services/order/go/internal/service/order.go:332-338 |
| `OpenRow`, `Rollback`, `CommitConfirm`, `CommitCancel` | services/order/go/internal/service/order.go:449-480, 495-539 |
| `Pop`, `Persist`, `DropOrder` | services/order/go/internal/queue/worker.go:42-61, 67-129 |
| `StartHotdeal`, `EndHotdeal` | services/product/go/internal/handler/product.go:485-550 |

`DropOrder` also stands for an order lost between the list and the worker: a BRPOP whose reply is lost, or a worker that
stops.

## Model

| member | source | states |
|---|---|---|
| `SagaInvariant.StepKeepsInv` | services/order/go/internal/service/order.go:145-227 | Every step of every call, stock update, worker and deal keeps the shape of the system: who waits for which update, who holds which row lock, who cancelled which order, what the rows have shown |
| `SagaInvariant.RunKeepsInv` | services/order/go/internal/service/order.go:145-548 | The same over every run |
| `SagaInvariant.SagaEvolves` | services/order/go/internal/service/order.go:145-548 | What any one step may do to one call: finished is final, bought items never change, only a commit starts a refund, and a call succeeds by the one step of its kind and no other: its insert, its push, the commit of its confirm, the end of its cancel |
| `SagaFrame.StepFrame` | services/order/go/internal/service/order.go:145-548 | What each step leaves alone: rows, counters, updates, channel, orders, queue, other calls |
| `SagaLedger.StepLedger` | services/order/go/internal/service/order.go:145-227 | Accounting law of one step, without condition: the ledger (for sale + in flight + held + sold + queued) changes by exactly what the step loses and mints |
| `SagaLedger.MintIff` | services/product/go/internal/grpc/server.go:108-141 | A step mints in exactly four cases: a waiting caller's decrement run on the row while a deal is open, a deal opened on an older, larger stock, a deal closed at zero or without its write-back over a row that shows more |
| `SagaLedger.StepRaisesIff` | services/product/go/internal/grpc/server.go:108-141 | A step raises the ledger of a product if and only if it is one of those |
| `SagaLedger.LedgerNeverRisesIff` | services/order/go/internal/service/order.go:145-338 | The ledger never rises in a run if and only if no step of it mints |
| `SagaLedger.BooksOfAnyRun` | services/order/go/internal/service/order.go:145-338 | Over every run whatsoever the ledger is the supply, minus exactly what was lost, plus exactly what was minted |
| `SagaLedger.NoOversell` | services/order/go/internal/service/order.go:145-338 | No oversell over all interleavings of a run without a minting step, any remote update refused, lost, abandoned or ambiguously failed: stock never negative, live orders and everything promised never exceed the supply |
| `SagaLedger.RefundAppliesIff` | services/product/go/internal/repository/db_repository.go:117-120 | The worker applies a refund, the database willing, if and only if the row it is added to stays an int32 |
| `SagaLedger.RefundStaysWithin` | services/order/go/internal/service/order.go:541-545 | Over every run a pending refund and the stock on sale (counter or row) stay together within the supply plus what was minted |
| `SagaLedger.RefundsAlwaysFit` | services/product/go/internal/repository/db_repository.go:117-120 | Over every run: a refund that runs in Redis is always applied; the worker applies one if and only if its row stays an int32; without minting the stock on sale and the refund always do, so a refund bound for the row can be refused only while a deal on its product is open |
| `SagaLedger.ReturnLedger` | services/product/go/internal/grpc/server.go:143-147 | A reply, or an error in place of it after the stock changed, loses at most the reply's own decrement |
| `SagaLedger.WorkerLedger` | services/product/go/internal/queue/stock_queue.go:60-67 | The worker's step: what it loses, and what it mints where the product's deal is open |
| `SagaLedger.CancelLedger` | services/order/go/internal/service/order.go:532-545 | Committing a cancel moves the units from the row to the call that owes them back |
| `SagaLedger.StoreLedger` | services/order/go/internal/service/order.go:222-227 | Storing or queueing an order moves its units from the call to the table or the queue |
| `SagaLedger.DisposeLedger` | services/order/go/internal/queue/worker.go:56-61 | Persisting keeps the ledger; dropping loses exactly the order's units |
| `SagaLedger.DealLedger` | services/product/go/internal/handler/product.go:485-535 | Opening a deal replaces what is on sale by what was read; closing one replaces the counter by what the row then shows |
| `SagaConservation.ExactConservation` | services/order/go/internal/service/order.go:145-158 | Every unit is accounted for at every moment of a run if and only if all its steps are clean, also across opening and closing deals |
| `SagaDrain.AtRestBooks` | services/order/go/internal/service/order.go:145-227 | At rest after any run, stock plus units in live orders is the supply, minus what was lost, plus what was minted |
| `SagaConservation.StepBalancesIff` | services/product/go/internal/grpc/server.go:108-141 | A step keeps the ledger of every product if and only if it is clean: a condition on each branch that can fail |
| `SagaConservation.CleanLosesAndMintsNothing` | services/product/go/internal/grpc/server.go:108-141 | Clean steps lose and mint nothing, and every other step does either |
| `SagaConservation.OpeningADealBalancesIff` | services/product/go/internal/handler/product.go:492-503 | Opening a deal changes the ledger by what was read less what the row shows; it keeps it if and only if the read was current |
| `SagaConservation.ClosingADealBalancesIff` | services/product/go/internal/handler/product.go:523-535 | Closing a deal changes the ledger by what the row then shows less the counter; it keeps it if and only if units are left and the write-back succeeds, or the row shows what is left |
| `SagaConservation.MisroutedDecrementBalancesIff` | services/product/go/internal/repository/hotdeal_repository.go:152-164 | The worker keeps the ledger through a waiting caller's decrement if and only if the row refuses it or no deal on the product is open |
| `SagaRuns.SoldOutDealOversells` | services/product/go/internal/handler/product.go:531-535 | For every table with one unit of a product, a run with nothing failing that sells it twice, through the skipped write-back |
| `SagaRuns.UnansweredHasStockOversells` | services/product/go/internal/repository/hotdeal_repository.go:159-161 | A run that sells one unit twice because EXISTS fails once while a deal is open |
| `SagaRuns.OutdatedReadOversells` | services/product/go/internal/handler/product.go:492-503 | A run with nothing failing that sells one unit twice because a deal opens on a stock the row showed before |
| `SagaRuns.FailedWriteBackOversells` | services/product/go/internal/handler/product.go:531-535 | A run that sells three of two units because the write-back fails after the counter was deleted |
| `SagaRuns.RefusedRefund` | services/product/go/internal/repository/hotdeal_repository.go:159-161 | A run without minting in which a refund of a sale inside a deal, its HasStock unanswered, is refused by a row at 2^31-1; with a smaller supply it takes the row beyond the supply; either way its unit is lost to the stock on sale |
| `SagaRuns.SellFromRow` | services/product/go/internal/grpc/server.go:129-141 | From any state with an idle channel, a buyer's whole call is served by the row |
| `SagaRuns.SellFromCounter` | services/product/go/internal/grpc/server.go:109-121 | From any state, a buyer's whole call is served by the counter of an open deal |
| `SagaDrain.AtRestStockPlusSoldIsSupply` | services/order/go/internal/service/order.go:145-227 | At rest after a clean run, stock plus units in live orders is the supply |
| `SagaDrain.StepUsesWork` | services/order/go/internal/queue/worker.go:35-62 | Every step that is not an arrival or a deal switch decreases a lexicographic measure |
| `SagaDrain.CanMove` | services/order/go/internal/queue/worker.go:35-62 | No deadlock, row locks included: unless all is at rest some consuming step is possible |
| `SagaDrain.RunsUseWork` | services/product/go/internal/queue/stock_queue.go:55-69 | Along every run without arrivals the measure falls |
| `SagaDrain.Drains` | services/order/go/internal/queue/worker.go:35-62 | From every reachable state the system can run to rest |
| `SagaDrain.RestIsTheOnlyEnd` | services/order/go/internal/queue/worker.go:35-62 | A state is at rest if and only if no consuming step is possible |
| `SagaDrain.StoredMoneyIsExact` | services/order/go/internal/queue/worker.go:76-122 | Within the API's limits every stored total is the true sum of price times quantity |
| `SagaCancel.StatusMoves` | services/order/go/internal/service/order.go:463-545 | Confirm takes pending to confirmed, cancel takes pending or confirmed to cancelled, nothing else moves a status |
| `SagaCancel.CancelledIsAbsorbing` | services/order/go/internal/service/order.go:509-516 | Cancelled is for ever, and so is who cancelled |
| `SagaCancel.OnlyTheCancellerRestocks` | services/order/go/internal/service/order.go:541-545 | All increments made for an order come from the one call that cancelled it |
| `SagaCancel.RestockedAtMostOnce` | services/order/go/internal/service/order.go:440-548 | Under any race of confirms and cancels an order's items go back at most once, exactly once if no increment fails; cancelled_at is set exactly on cancelled orders |
| `SagaAnswers.AnswersAreTrue` | services/order/go/internal/service/order.go:229-548 | Over every run a call that is over was told of success if and only if it did what it was asked: a create if and only if its row is stored, an asynchronous one if and only if its order was queued, a cancel if and only if the row names it as canceller, a confirm if and only if it committed, and its order is then confirmed or cancelled since |
| `SagaAnswers.ConfirmedAtMostOnce` | services/order/go/internal/service/order.go:440-484 | However many calls race to confirm one order, at most one is told that it did, none for an order that the worker stored, and an order is confirmed only for one of these two reasons |
| `SagaAnswers.StepKeepsConfirms` | services/order/go/internal/service/order.go:463-480 | Every step keeps status and answers in agreement |
| `SagaPipeline.PopTakesTheOldest` | services/order/go/internal/queue/order_queue.go:53-74 | LPUSH and BRPOP make a first-in first-out queue |
| `SagaPipeline.StepKeepsPipeline` | services/order/go/internal/queue/worker.go:35-62 | Every step keeps the accounting of accepted orders |
| `SagaPipeline.PipelineAccounting` | services/order/go/internal/queue/worker.go:35-62 | Accepted orders are, in enqueue order, finished, in the worker, or queued; none twice; every row has its call's items and passes the tables' checks |
| `SagaSimulation.UpdateRuns` | services/product/go/internal/grpc/server.go:100-162 | One remote update, answered, lost or with its reply lost, by row or by counter of an open deal, is a run of the system from any state with an idle channel and int32 counters; an increment must leave its counter an int32 |
| `SagaSimulation.CreateRuns` | services/order/go/internal/service/order.go:78-230 | From any such state, deals open or not, the service's CreateOrder, whatever network and transaction do, is a run of the system that ends in the same stock on sale, rows and queue |
| `SagaSimulation.AsyncRuns` | services/order/go/internal/service/order.go:234-363 | So is AsyncCreateOrder |
| `SagaSimulation.ProcessRuns` | services/order/go/internal/queue/worker.go:67-129 | So is a turn of the order worker |
| `SagaSimulation.ConfirmRuns` | services/order/go/internal/service/order.go:440-484 | So is ConfirmOrder of an order whose row is not locked |
| `SagaSimulation.CancelRuns` | services/order/go/internal/service/order.go:486-548 | So is CancelOrder of an order whose row is not locked, restock included, if the counters it restocks stay int32: beyond, the database refuses and Redis does not |
| `SagaSimulation.RowsAreTheQueuesFold` | services/product/go/internal/queue/stock_queue.go:55-69 | While no deal is closed, the system's rows are the stock queue's fold of the requests served |
| `SagaSimulation.ServedInOrderOfAdmission` | services/product/go/internal/queue/stock_queue.go:83-88 | In every run requests are served in the order in which they entered the channel |
| `StockQueue.QueueLinearises` | services/product/go/internal/queue/stock_queue.go:51-97 | Every run of senders, abandoned waits and the worker equals the sequential fold of UpdateStockWithLock over channel order, of the very requests the callers were called with; at most one response per request |
| `StockQueue.WorkerNeverBlocks` | services/product/go/internal/queue/stock_queue.go:74-74 | A response channel of capacity one always has room, so the worker never blocks on it |
| `StockQueue.EveryWaiterCanBeAnswered` | services/product/go/internal/queue/stock_queue.go:90-96 | From every reachable state every caller still waiting can get its answer, the one of its place in the channel, by steps of the worker and its own alone |
| `StockQueue.StepForgetsNone` | services/product/go/internal/queue/stock_queue.go:66-67 | Every request served has its response, also when its caller has left |
| `StockQueue.StepKeepsInv` | services/product/go/internal/queue/stock_queue.go:55-96 | Every step keeps seats, responses and table consistent with the channel order |
| `StockQueue.FirstComeFirstServed` | services/product/go/internal/queue/stock_queue.go:60-67 | With decrements only, a request succeeds if and only if it fits what earlier accepted ones left |
| `StockQueue.FirstBuyersWin` | tests/load/scripts/fifo-order.js:46-50 | With unit quantities exactly the first `stock` requests in channel order succeed |
| `StockQueue.Channel.constructor` | services/product/go/internal/queue/stock_queue.go:37-48 | A new queue is empty |
| `StockQueue.Channel.Offer` | services/product/go/internal/queue/stock_queue.go:83-88 | A request enters the channel at its end, unless the buffer is full |
| `StockQueue.Channel.Worker` | services/product/go/internal/queue/stock_queue.go:55-69 | The worker's loop while callers offer requests, until it is shut down: the requests it finds are answered one a turn, in order, with their sequential answers; when its last turns are as many as the channel can hold the channel is empty; and while the channel cannot overflow every request offered is then answered and the table is their fold |
| `StockQueue.ServedInTurnIff` | services/product/go/internal/queue/stock_queue.go:57-63 | A request at place j of the channel is served if and only if the worker takes more than j turns from then on |
| `StockQueue.AdmittedIffRoom` | services/product/go/internal/queue/stock_queue.go:83-88 | A request offered enters at the end of the channel if and only if the channel is not full |
| `StockQueue.OneRequestARound` | services/product/go/internal/queue/stock_queue.go:57-63 | The worker serves one request a turn as long as there is one, and never more |
| `Int32.Wrap` | services/product/go/internal/repository/db_repository.go:117-117 | int32 addition: the result is in range and congruent to the exact sum |
| `Int32.SignTestIsExact` | services/product/go/internal/repository/db_repository.go:117-120 | The sign test on the wrapped sum accepts if and only if the true sum is in 0..2^31-1 |
| `ProductDb.LockedUpdateIsExact` | services/product/go/internal/repository/db_repository.go:97-137 | One locked update: refused exactly when the row would leave its range, otherwise changes its row by exactly delta; each of the other answers has its own cause |
| `ProductDb.DBRepository.constructor` | services/product/go/internal/repository/db_repository.go:18-23 | The repository over given rows |
| `ProductDb.DBRepository.UpdateStockWithLock` | services/product/go/internal/repository/db_repository.go:97-137 | The transaction, branch by branch |
| `ProductDb.DBRepository.UpdateStock` | services/product/go/internal/repository/db_repository.go:84-94 | The unconditional write: needs the row to exist, the CHECK to hold and the statement to succeed |
| `ProductDb.DBRepository.GetStock` | services/product/go/internal/repository/db_repository.go:75-82 | Reads the row's stock, or finds none |
| `Hotdeal.ScriptCodesNeverCollide` | services/product/go/internal/repository/hotdeal_repository.go:13-26 | Codes -1 and -2 mean exactly their failures and never collide with a stock; the script changes the counter only on success |
| `Hotdeal.HotdealRepository.constructor` | services/product/go/internal/repository/hotdeal_repository.go:36-42 | The repository, enabled or not |
| `Hotdeal.HotdealRepository.LoadStock` | services/product/go/internal/repository/hotdeal_repository.go:55-67 | Sets the counter; does nothing when disabled; a lost command or reply is an error |
| `Hotdeal.HotdealRepository.UnloadStock` | services/product/go/internal/repository/hotdeal_repository.go:70-93 | Returns and deletes the counter; a missing one counts as zero; GET and DEL may fail, the DEL also after it ran |
| `Hotdeal.HotdealRepository.DecrementStock` | services/product/go/internal/repository/hotdeal_repository.go:97-116 | Runs the script and reads its code, or reports an error, the script run or not |
| `Hotdeal.HotdealRepository.IncrementStock` | services/product/go/internal/repository/hotdeal_repository.go:119-131 | Adds to the counter, a missing one starting at zero, or reports an error, the command run or not |
| `Hotdeal.HotdealRepository.HasStock` | services/product/go/internal/repository/hotdeal_repository.go:152-164 | Whether the product has a counter; false when Redis does not answer |
| `Hotdeal.ProductServer.constructor` | services/product/go/internal/grpc/server.go:28-36 | The server over its two back-ends |
| `Hotdeal.ProductServer.UpdateStock` | services/product/go/internal/grpc/server.go:100-162 | Outside a deal, hot deals enabled or not and EXISTS answered or not, no counter moves and the row moves by delta exactly when the database commits and the row stays in range; in a deal no row moves and the counter moves by delta exactly when the command gets through and the counter can pay; success is answered exactly when the reply also comes and the final read succeeds, and each error has its exact cause |
| `Hotdeal.UpdateLaw` | services/product/go/internal/grpc/server.go:100-162 | The same of every update, and what a delta of -2^31 does to a counter |
| `Hotdeal.ProductServer.StartHotdeal` | services/product/go/internal/handler/product.go:485-510 | Copies the stock that the product repository answers, cached or not, into a counter |
| `Hotdeal.ProductServer.EndHotdeal` | services/product/go/internal/handler/product.go:512-550 | Deletes the counter and writes it back unless it is zero; each of the three commands may fail, and what stands in both stores and what is answered is said for each |
| `Hotdeal.CallFaithfulIff` | services/product/go/internal/repository/hotdeal_repository.go:97-131 | One update: Redis and database agree in answer and stock if and only if delta is not -2^31 and the sum does not overflow |
| `Hotdeal.CallRepliesIff` | services/product/go/internal/grpc/server.go:108-141 | One call beside the database: the same answer if and only if it is faithful or its product has no counter; then the counter or the row takes over the database's new stock |
| `Hotdeal.SessionRepliesIff` | services/product/go/internal/grpc/server.go:108-141 | A session over any products, any of them in a deal, is answered as by the database alone if and only if every call on a product in a deal is faithful; counters and rows then run along the database's rows |
| `Hotdeal.SessionEnds` | services/product/go/internal/handler/product.go:523-535 | Where a deal stands when it ends, against where the database would |
| `Hotdeal.EndLaw` | services/product/go/internal/handler/product.go:531-535 | Closing gives the row the database would have if and only if units are left and written back, or the row shows what is left |
| `Hotdeal.SessionRefinesDbIff` | services/product/go/internal/handler/product.go:485-550 | A whole deal opened on the row's stock, other products sold from their rows meanwhile, is indistinguishable from never having had Redis if and only if every call on its product is faithful and its end settles the row |
| `Hotdeal.UnsettledDealRestoresTheRow` | services/product/go/internal/handler/product.go:531-535 | Otherwise, sold out or not written back, the row is as it was before the deal |
| `Hotdeal.SoldOutExample` | services/product/go/internal/handler/product.go:531-535 | One unit, one buyer: the row still shows the unit |
| `Pricing.MoneyIsExact` | services/order/go/internal/service/order.go:125-136 | At most 10 items of at most 10 units at prices up to 21474836: no subtotal and no total wraps, and the tables accept the rows |
| `Pricing.MoneyWraps` | services/order/go/internal/service/order.go:125-136 | For any items whatever subtotals and total are the true ones up to multiples of 2^32 |
| `OrderService.FirstErrorStops` | services/order/go/internal/service/order.go:91-136 | The first item that cannot be priced decides the error |
| `OrderService.PricedAsAskedIff` | services/order/go/internal/service/order.go:91-136 | Pricing succeeds if and only if every plain item names a known product and every deal item an active deal on that product; then line k has item k's product, quantity and price, the deal's or the product's; otherwise the error is that of the first item that fails, each of the four with its exact cause |
| `OrderService.Service.constructor` | services/order/go/internal/service/order.go:22-29 | An empty service over given stock, with or without an order queue |
| `OrderService.Service.PriceItems` | services/order/go/internal/service/order.go:91-136 | Computes exactly that, with the int32 total of the lines |
| `OrderService.Service.ReserveStock` | services/order/go/internal/service/order.go:145-158 | Decrements item by item; on a failure gives back what was taken |
| `OrderService.Service.RestoreStock` | services/order/go/internal/service/order.go:149-151 | The compensation loop, whose errors are ignored |
| `OrderService.Service.InsertOrder` | services/order/go/internal/service/order.go:161-227 | The insert transaction: all rows or none; it succeeds if and only if total, quantities, prices and subtotals pass the checks and nothing fails at begin, order row, item row or commit |
| `OrderService.Service.CreateOrder` | services/order/go/internal/service/order.go:78-230 | The whole synchronous call; an accepted order adds one pending row whose lines are as asked, item by item, with their total, and is answered with that row; an item that cannot be priced changes nothing and is answered with its own error |
| `OrderService.Service.AsyncCreateOrder` | services/order/go/internal/service/order.go:234-363 | The whole asynchronous call, the missing queue included; an accepted order is the newest in the list, its lines as asked, and stores no row yet |
| `OrderService.Service.ProcessOrder` | services/order/go/internal/queue/worker.go:67-129 | One turn of the worker: recompute the total, persist confirmed, or drop |
| `OrderService.Service.Start` | services/order/go/internal/queue/worker.go:35-62 | The worker's loop for as long as it runs: orders taken or dropped, waits that end without one, orders pushed meanwhile |
| `OrderService.Service.ConfirmOrder` | services/order/go/internal/service/order.go:440-484 | Confirms a pending order of its owner; every other case, and every failure of the transaction, is its own error and changes nothing |
| `OrderService.Service.CancelOrder` | services/order/go/internal/service/order.go:486-548 | Cancels a pending or confirmed order of its owner, then restocks; every other case is its own error and changes nothing |
| `OrderService.ConfirmIff` | services/order/go/internal/service/order.go:440-484 | A confirm succeeds if and only if its owner asks for a pending order and nothing fails; one status changes; every refusal changes nothing and has its exact cause |
| `OrderService.CancelIff` | services/order/go/internal/service/order.go:486-548 | The same for a cancel, which confirmed orders also allow |
| `OrderFlows.ReserveTakesAll` | services/order/go/internal/service/order.go:145-158 | A reservation takes exactly the items before the one it stops at |
| `OrderFlows.ReserveStopsAtFirstRefusal` | services/order/go/internal/service/order.go:145-158 | A reservation goes on exactly as long as the decrement is answered and the stock left by earlier items, of the same product too, covers the next |
| `OrderFlows.ReservesAllIff` | services/order/go/internal/service/order.go:145-158 | It succeeds if and only if all decrements are answered and the stock covers the order; it then takes exactly its units |
| `OrderFlows.CreateAcceptsIff` | services/order/go/internal/service/order.go:145-229 | CreateOrder accepts if and only if moreover the tables take the rows and the transaction gets through; stock, row and answer are then said exactly |
| `OrderFlows.AsyncAcceptsIff` | services/order/go/internal/service/order.go:297-362 | AsyncCreateOrder accepts if and only if the stock covers the order, all is answered and the push succeeds |
| `OrderFlows.CreateServesTheRequest` | services/order/go/internal/service/order.go:91-229 | From request to stock: an accepted order takes from every product exactly the units asked of it, in deals or not, and stores one line an item as asked |
| `OrderFlows.RestoreGives` | services/order/go/internal/service/order.go:149-151 | The compensation loop adds back everything but what is lost on the way; nothing is refused |
| `OrderFlows.FailedReservationLaw` | services/order/go/internal/service/order.go:145-158 | The stock after a refused reservation, unit by unit |
| `OrderFlows.AbortedOrderLaw` | services/order/go/internal/service/order.go:161-227 | The stock after a failed transaction, unit by unit |
| `OrderFlows.FailedCreateIsNoOpIff` | services/order/go/internal/service/order.go:145-227 | A failing CreateOrder is a no-op, whatever the items and wherever it fails, if and only if the compensations got through |
| `OrderFlows.FailedAsyncIsNoOpIff` | services/order/go/internal/service/order.go:297-338 | The same for AsyncCreateOrder, which can also fail to push |
| `OrderFlows.NegativeQuantityMintsStock` | services/order/db/schema.sql:34-34 | Why quantities must be positive: an asynchronous order for minus one unit adds a unit and is then dropped |
| `OrderRefinement.AsyncRefinesSyncIff` | services/order/go/internal/service/order.go:332-362 | Queue and drain equals create and confirm (stock, rows, status, totals) if and only if the reservation fails, or the tables take the rows, or every compensation is lost |
| `OrderRefinement.AsyncBatchRefinesSync` | services/order/go/internal/queue/worker.go:35-62 | The same for any sequence of orders that each meet that condition in turn, and any queue before them, drained once |
| `OrderRefinement.DrainIsWork` | services/order/go/internal/queue/worker.go:35-62 | Draining is the worker's loop while nothing is pushed and nothing fails |
| `OrderWorker.WorkServesInOrder` | services/order/go/internal/queue/worker.go:35-62 | Whatever turns the worker takes, orders queued before or pushed meanwhile are taken first in, first out, one a round as long as there is one; with no fault exactly the rows the tables take are added, in that order |
| `OrderWorker.WorkerEmptiesTheList` | services/order/go/internal/queue/worker.go:35-62 | No accepted order is left behind: as many rounds at the end as there were orders empty the list and store each of them the tables take |
| `OrderWorker.RoundStoresIff` | services/order/go/internal/queue/worker.go:67-129 | One round, whatever its transaction meets: the oldest order leaves the list and is stored confirmed if and only if the tables take its rows and the transaction gets through; otherwise it is gone |
| `OrderRefinement.PushedLastStoredLast` | services/order/go/internal/queue/order_queue.go:53-74 | First in, first out through the worker |
| `OrderRefinement.PromiseIsKept` | services/order/go/internal/service/order.go:340-362 | Lines and total of the "processing" answer are those stored |
| `OrderRefinement.CancelUndoesCreateIff` | services/order/go/internal/service/order.go:541-545 | Cancelling an order, confirmed meanwhile or not, puts the stock back exactly if and only if no increment is lost |
| `OrderRefinement.CancelledStaysPut` | services/order/go/internal/service/order.go:509-516 | A second cancel, or a confirm after it, changes nothing |
| `PythonOrders.CreateOrder` | services/order/python/src/service.py:66-178 | The Python service's create: an accepted order adds one confirmed row whose lines are as asked with their exact total, and is answered with it; an item that cannot be priced ends it before any stock is touched; errors that its clauses do not catch leave at once |
| `PythonOrders.GiveBack` | services/order/python/src/service.py:172-178 | Its compensation loop, which passes over product client errors and ends at any other |
| `PythonOrders.PriceItems` | services/order/python/src/service.py:71-112 | Prices exactly the items asked for, line by line, with their exact total, or answers the first item's error |
| `PythonOrders.TakeItems` | services/order/python/src/service.py:114-127 | Decrements item by item; unless the error escapes, gives back what was taken |
| `PythonOrders.PlaceOrder` | services/order/python/src/service.py:114-178 | From the first decrement to the commit |
| `PythonOrders.PyCreateAcceptsIff` | services/order/python/src/service.py:114-169 | It accepts if and only if all decrements are answered, the stock covers the order, the tables take its exact money and the insert does not fail; stock, row and answer are then said exactly |
| `PythonOrders.FailedPyCreateIsNoOpIff` | services/order/python/src/service.py:115-178 | A failed create leaves the stock as it was if and only if the decrement it stopped at had no effect and every item taken before was given back; an error it does not catch, from the product client or the database, gives nothing back |
| `PythonOrders.TransportErrorKeepsStock` | services/order/python/src/product_client.py:94-112 | With an HTTP client, two items and the second decrement lost in transport, the first item stays taken; the Go service gives it back |
| `PythonOrders.PythonAgreesWithGoIff` | services/order/python/src/service.py:115-169 | Within the API's limits it does to stock and tables what the Go service does by create and confirm if and only if the order is stored or everything the Go service gives back is given back; with the gRPC client always |
| `PythonOrders.PythonMoneyIffGoMoneyIsExact` | services/order/python/src/service.py:100-101 | The tables take the Python service's money if and only if they take the Go service's and none of it wrapped |
| `CacheKeys.ListKeyInjective` | services/product/go/internal/repository/cached_repository.go:33-35 | The list key is injective in limit and offset |
| `CacheKeys.ProductKeyInjective` | services/product/go/internal/repository/cached_repository.go:29-31 | The product key is injective |
| `CacheKeys.KeySpacesApart` | services/product/go/internal/repository/cached_repository.go:182-189 | The list pattern matches every list key and no product key or hot-deal counter |
| `CacheKeys.SplitAtColon` | services/product/go/internal/repository/cached_repository.go:33-35 | Two texts around a colon can be read back |
| `ProductCache.PageIsTheSlice` | services/product/db/query.sql:13-17 | LIMIT and OFFSET over the ordered table |
| `ProductCache.PageIsSorted` | services/product/db/query.sql:13-17 | ORDER BY created_at DESC |
| `ProductCache.CallRefines` | services/product/go/internal/repository/cached_repository.go:39-156 | Every call answers as the plain repository (pages up to stock and time of change) and keeps the cache coherent |
| `ProductCache.CacheRefinesDb` | services/product/go/internal/repository/cached_repository.go:39-156 | So does every sequential run with expiries at any time: every cached product is its row, every cached page has the table's membership, order and details |
| `ProductCache.WriteTakenIff` | services/product/go/internal/repository/db_repository.go:25-137 | When the plain repository takes each kind of write; otherwise nothing changes |
| `ProductCache.ReadsFollowWrites` | services/product/go/internal/repository/cached_repository.go:39-156 | Callers of the cached repository read their writes: the product is what the write made of it, every other is what it was |
| `ProductCache.NewProductIsListedFirst` | services/product/go/internal/repository/cached_repository.go:39-47 | The first page read after a creation starts with the new product |
| `ProductCache.SecondReadIsCached` | services/product/go/internal/repository/cached_repository.go:51-57 | A second read is served from the cache whatever became of the table, and from the table when Redis is down |
| `ProductCache.LostInvalidationIff` | services/product/go/internal/repository/cached_repository.go:141-143 | If a write's invalidation is lost, products stay exact if and only if the product was not cached |
| `ProductCache.LostScanAfterCreateIff` | services/product/go/internal/repository/cached_repository.go:44-45 | If a creation's page scan is lost, pages stay right if and only if every cached one is empty and stays so |
| `ProductCache.LostScanAfterUpdateIff` | services/product/go/internal/repository/cached_repository.go:123-124 | If an edit's page scan is lost, pages stay right if and only if no details changed or the product is on no cached page |
| `ProductCache.PageAfterStockWriteIff` | services/product/go/internal/repository/cached_repository.go:134-144 | A page read again after a stock write is the old page; it is the table's if and only if the product is not on it |
| `ProductCache.CountersStay` | services/product/go/internal/repository/cached_repository.go:182-189 | Hot-deal counters in the same Redis are never touched |
| `ProductCache.CachedRepository.constructor` | services/product/go/internal/repository/cached_repository.go:21-27 | An empty cache in front of the table |
| `ProductCache.CachedRepository.InvalidateProduct` | services/product/go/internal/repository/cached_repository.go:178-180 | Deletes the product's key |
| `ProductCache.CachedRepository.InvalidateProductList` | services/product/go/internal/repository/cached_repository.go:182-189 | The scan loop deletes every list key and nothing else, whatever order the scan uses |
| `ProductCache.CachedRepository.GetProductByID` | services/product/go/internal/repository/cached_repository.go:49-73 | Cache hit, or read and store |
| `ProductCache.CachedRepository.ListProducts` | services/product/go/internal/repository/cached_repository.go:75-99 | Cache hit, or read and store; errors are not cached |
| `ProductCache.CachedRepository.CreateProduct` | services/product/go/internal/repository/cached_repository.go:39-47 | Write, then drop all pages |
| `ProductCache.CachedRepository.UpdateProduct` | services/product/go/internal/repository/cached_repository.go:114-127 | Write, then drop the product and all pages |
| `ProductCache.CachedRepository.UpdateStock` | services/product/go/internal/repository/cached_repository.go:134-144 | Write, then drop the product only |
| `ProductCache.CachedRepository.UpdateStockWithLock` | services/product/go/internal/repository/cached_repository.go:146-156 | Locked update, then drop the product only |
| `CacheConcurrency.ReadsAreHistorical` | services/product/go/internal/repository/cached_repository.go:49-99 | With lookups, table reads, stores, commits, deletes and scans interleaved, every product and page returned was the table's answer at some moment of the run; a read that went to the table is no older than its call |
| `CacheConcurrency.StepStaysExcusedIff` | services/product/go/internal/repository/cached_repository.go:67-70 | Exactly two kinds of step leave an outdated entry that nothing will delete: storing an overtaken read, and losing the last pending delete |
| `CacheConcurrency.CacheIsCurrentWhenWritesEnd` | services/product/go/internal/repository/cached_repository.go:134-156 | Without such steps, every cached product is its row whenever no write has its delete outstanding |
| `CacheConcurrency.StepKeepsPagesIff` | services/product/go/internal/repository/cached_repository.go:182-189 | Exactly two kinds of step leave a wrong page that no scan will reach: storing a page read before a write that has scanned since, and ending the last scan too early |
| `CacheConcurrency.PagesAreRightWhenScansEnd` | services/product/go/internal/repository/cached_repository.go:182-189 | Without such steps, every cached page has the table's membership, order and details whenever no scan is outstanding |
| `CacheConcurrency.OvertakenReaderLeavesOldAnswer` | services/product/go/internal/repository/cached_repository.go:61-70 | For every key and every write, an overtaken reader leaves the old answer cached after the write has ended |
| `CacheConcurrency.OldAnswerIsOutdated` | services/product/go/internal/repository/cached_repository.go:86-96 | That answer is outdated for the product written, and for a first page after a creation, which misses the new product |
| `OrderListing.RowsToOrders` | services/order/python/src/service.py:199-242 | The grouping loop computes one group per order in order of first appearance |
| `OrderListing.OneMoreRow` | services/order/python/src/service.py:205-240 | What one row adds: a new group at the end, or an item to its own group |
| `OrderListing.GroupingUndoesJoin` | services/order/python/src/service.py:199-242 | Grouping the LEFT JOIN of any distinct orders gives back those orders with their items |
| `OrderListing.GroupsInOrderOfAppearance` | services/order/python/src/service.py:203-242 | For rows in any order: one group per order, by first appearance, headed by its first row |
| `OrderListing.ItemsAreThoseOfTheRows` | services/order/python/src/service.py:227-240 | A group's items are a subsequence of the rows: each row of the order once, in row order |
| `OrderListing.NothingLostOrDuplicated` | services/order/python/src/service.py:227-240 | Every item is listed exactly as often as the rows carry it |
| `OrderListing.GroupsNeedNoMoreRows` | services/order/python/src/service.py:199-242 | The groups join back to no more rows than there were |
| `OrderListing.JoinLength` | services/order/db/query.sql:94-98 | The LEFT JOIN gives one row per item, and one for an order without items |
| `OrderListing.ListOrders` | services/order/python/src/service.py:245-282 | The whole listing is the orders from number (page - 1) * size on, `size` of them, if and only if the skipped orders take no more rows than there are of them and the page's own rows fit ten an order |
| `OrderListing.PlainPageShows` | services/order/python/src/service.py:251-252 | A page of orders shows the orders from number (page - 1) * size on, `size` of them or as many as there are |
| `OrderListing.PagesShowEveryOrder` | services/order/python/src/service.py:251-252 | The first n pages are the first n * size orders, each once, in order |
| `OrderListing.OffsetSkipsOrders` | services/order/db/query.sql:97-98 | When skipped orders take no more rows than the offset, the rows sent start with the page's first order |
| `OrderListing.JoinPageIsPlainPageIff` | services/order/python/src/service.py:251-282 | The joined page equals the page of orders each with its own items if and only if the skipped orders take no more rows than (page - 1) * size and the page's rows fit ten an order |
| `OrderListing.PagesOfSmallOrders` | services/order/python/src/service.py:262-282 | With at most ten items an order page 1 is always right; a later page if and only if every skipped order has at most one item |

## Left out

- SagaLedger.NoOversell: for runs without one of the four minting steps; the code fails it with each of them, and `SagaLedger.BooksOfAnyRun` says by how much over any run.
- SagaPipeline.PipelineAccounting: for the one worker that the service starts; with more, completion order is not enqueue order.
- OrderRefinement.AsyncBatchRefinesSync: the condition on each order is that of `OrderRefinement.AsyncRefinesSyncIff`, exact for one order; two paths that differ after one order may meet again after a later one.
- Hotdeal.SessionRefinesDbIff: for one deal opened on the row's own stock while no call goes to a product of another deal, with nothing failing before its end; `Hotdeal.SessionRepliesIff` has any number of deals, `Hotdeal.UpdateLaw` every failure of a call, and the order system all of it interleaved.
- OrderWorker.WorkServesInOrder: the rows added are said for turns without a database fault; with faults `OrderWorker.RoundStoresIff` says it round by round.
- CacheConcurrency.PagesAreRightWhenScansEnd: but for stock and time of change, since stock writes never delete pages (`ProductCache.PageAfterStockWriteIff`).
- HTTP stock PATCH of the Go product service: reads and writes outside one transaction and writes the row during a deal, so it does not keep the ledger.
- Partial product update: unset name and price arrive as empty values; nothing is claimed about keeping omitted fields.
- HTTP handlers, authentication, gateway, configuration, telemetry, JSON, UUID parsing, SQL and Redis drivers: atomic reads and writes of model state.
- Shipping addresses, product and deal names, response formatting: copied through.
- Deal `remaining_stock` and deal status inside the product service: no code decrements the first and the second is a constant.
- Process crash and restart of the product service, and shutdown with requests in its channel: they are then lost, which is no step of the order system.
- Wall-clock TTL: expiry is a removal at any time.
- What SCAN guarantees about keys that come and go while it runs: a page scan deletes any page keys.
- Database failures in cached reads: the reads succeed when the row exists.
- Redis integers past 64 bits and Lua doubles: counters are unbounded integers, truncated to `int32` where Go does.
- Python `cancel_order`, `get_order` and the order listing of the Go service: the steps of the Go cancel with the Python compensation loop, and the plain page of `OrderListing`.
- Python status filter in the listing: it selects the orders that both sides list.
- `CachedRepository` deal and category queries: passed through uncached.
- Counts of orders and products in listings: plain COUNT queries.
