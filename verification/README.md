# Cerious exchange, ledger, FIX path and simulator in Dafny

This project models four parts of the trading system and proves what they are
for.

- **The matching engine** (`DeterministicExchange`): price levels of FIFO queues
  per symbol, an index from order id to queue element, and one sequence counter.
  `Exchange.dfy` says what each command does, `ExchangeEngine.dfy` is the class
  with its loops, proved to do exactly that. `Outcomes`, `Withdrawals`, `MarketTicks`
  and `FeedOutcomes` tell each command in full: what it leaves on the books, every
  report and every delta. The other files prove what holds over whole runs:
  `Invariants`, `Reachable`, `BookFeed`, `WorkingSet`, `PriceTime`, `Fairness`,
  `Conservation`, `BookSnapshots`.
- **The position ledger** (`ExchangeServerState`): signed position, average
  price, realized and open profit. `Ledger.dfy` holds the identity behind it,
  `Server.dfy` the class that joins it with the engine, `MarketLabel.dfy` what
  the label of market fills is worth.
- **The FIX 4.4 path**: number and field text, builder and parser, the framer
  between them, the session on top, and two sessions joined (`FixText`,
  `FixMessage`, `FixIntegrity`, `FixBuffers`, `FixFraming`, `FixSession`,
  `FixContents`, `FixLink`). The rules for BodyLength and CheckSum are those of
  FIX 4.4, Volume 2, section "Data Integrity".
- **The numeric studies and the execution simulator**: the regression channel
  and bar aggregation of the gateway (`RegressionStudy`, `BarAggregation`), the
  depth sweep and the latency queue of Simulex (`DepthSweep`, `Simulex`,
  `SimulexRuns`, `SimulexFills`, `SimulexMarket`, `SimulexPriority`,
  `SimulexExamples`, `SimulexEngine`).

Code that updates fields or accumulates in loops is a class or a method with
loops whose contract ties it to a function; the theorems are lemmas about that
function. Every handler of the exchange server holds one mutex, so a run is a
sequence of commands.

## What the code does not keep

Some promises one might expect fail for some inputs. Each has a lemma that says
what holds instead, for every input.

- A fill labelled `MARKET_DATA` need not be against the market: nothing reserves
  the name, and an order may bear it. `MarketLabel.LabelMisleads` gives the
  input, `MarketLabel.LabelIsRightExactlyWhenUnused` the condition.
- The product description of Simulex, under "Modification priority", promises
  that a quantity reduction keeps its place and an increase or price change
  loses it. In Simulex the second half fails when the client names an old sequence
  number (`SimulexExamples.OldSequenceJumpsTheLine`, condition in
  `SimulexPriority.ReplaceGoesBehind`). The exchange itself sends every replace to
  the back, reductions too (`Fairness.QuantityReplaceGoesToTheBack`); the model
  follows the code.
- Starting a FIX session in simulated mode resets the numbers but not the
  counters, so numbering survives only at the very start
  (`FixSession.RestartKeepsNumberingOnlyAtTheStart`,
  `FixSession.RestartRepeatsNumberOne`).
- The checksum does not catch every single-byte error. The parser checks it only if
  it has read one: a byte that is no digit in a tag number, an equals sign or a
  delimiter that is lost, or a changed tag of the trailer can leave a message that
  is accepted without it; and of the checksum itself only the digits are read, so a
  leading zero may turn into a letter. `FixIntegrity.SingleByteErrorIsCaught` says
  for every byte of a message and every byte in its place whether the message is
  accepted; `FixIntegrity.TrailerTagSlips` and `FixIntegrity.SenderByteSlips` are
  two families of such errors in any built message, `FixIntegrity.SlippedHeartbeat`
  is one message.
- The answer to a test request is built in buffers of 4096 bytes that a longer id
  overruns, and nothing keeps a peer from sending one: numbering and echo hold for
  what fits (`FixSession.EchoFitsExactly`, `FixSession.OversizedTestRequest`).
- Simulex does not check that a client order id is free
  (`SimulexRuns.StepKeeps`, `SimulexExamples.TakenIdIsLost`), nor that a replaced
  quantity is positive (`SimulexFills.StepStaysPositive`,
  `SimulexExamples.ReplacedByNothing`).
- The legs of a spread fill need not make up the price that is reported: an order
  that the books set off is filled at the last trade once they have become too thin
  (`SimulexFills.LegsAddUp` has the condition for every fill,
  `SimulexFills.BookFlightsAddUp` for every run, `SimulexExamples.ThinBooksPartTheLegs`
  a run that ends so).
- A heartbeat echoes a test request id only up to its first NUL byte, because
  the builder prints values as C strings (`FixSession.TestRequestIsEchoed`,
  `FixSession.NulIsNotEchoed`).

## Model

| member | source | states |
|---|---|---|
| `Reachable.IndexAgreesWithBooks` | native/cerious-exchange-cpp/src/DeterministicExchange.hpp:172-181 | In every reachable state an id is in the index exactly when some queue holds an order of that id; the index leads to that very queue element, and no id occurs at two places |
| `Reachable.BooksAreSound` | native/cerious-exchange-cpp/src/DeterministicExchange.hpp:267-289 | In every reachable state each resting order is a live day or good-till-cancel limit order at its own symbol, side and price, older orders come first, no level is empty, and every bid is strictly below every ask |
| `BookFeed.FeedRefinesBooks` | native/cerious-exchange-cpp/src/DeterministicExchange.hpp:502-523 | Over any run a subscriber that applies the deltas in order never meets an Add for a level it has nor a Modify or Delete for one it lacks, and always holds exactly the size and order count of every level |
| `BookFeed.FeedRefinesBooksFromStart` | native/cerious-exchange-cpp/src/DeterministicExchange.hpp:502-523 | The same from a newly opened exchange and an empty picture |
| `BookFeed.StepFeeds` | native/cerious-exchange-cpp/src/DeterministicExchange.hpp:525-666 | Each command but a reset carries a right picture of the books to a right picture, through the deltas it emits |
| `BookFeed.TicksAreDistinct` | native/cerious-exchange-cpp/src/DeterministicExchange.hpp:433-435 | With a positive tick size two different tick counts are two different prices, so prices can key the feed |
| `WorkingSet.ReportsRefineWorkingOrders` | native/cerious-exchange-cpp/src/DeterministicExchange.hpp:463-485 | Over any run a reader of the reports alone holds exactly the resting ids with their remaining quantities |
| `WorkingSet.ReportsRefineWorkingOrdersFromStart` | native/cerious-exchange-cpp/src/DeterministicExchange.hpp:463-485 | The same from a newly opened exchange and an empty list |
| `WorkingSet.ReportsAscend` | native/cerious-exchange-cpp/src/DeterministicExchange.hpp:425-427 | The sequence numbers of all reports of a run strictly increase |
| `PriceTime.FlattenOrdered` | native/cerious-exchange-cpp/src/DeterministicExchange.hpp:159-170 | Reading a side level by level and queue by queue is reading it in strict price, then sequence order |
| `PriceTime.FlattenHolds` | native/cerious-exchange-cpp/src/DeterministicExchange.hpp:159-170 | That reading holds exactly the orders that rest on the side |
| `PriceTime.ConsumeLeavesSuffix` | native/cerious-exchange-cpp/src/DeterministicExchange.hpp:535-551 | Taking a quantity from the front of a list of live orders leaves a suffix, of which at most the first order is partly filled |
| `PriceTime.MatchIsGreedy` | native/cerious-exchange-cpp/src/DeterministicExchange.hpp:525-561 | Matching executes the smaller of the order quantity and all crossing quantity, and leaves the opposite side as if that much had been taken from its front in price-time order |
| `PriceTime.MatchTellsAllocation` | native/cerious-exchange-cpp/src/DeterministicExchange.hpp:536-543 | The fill reports of a matching are exactly the greedy allocation: one pair for each fill, same quantity, at the price of the resting order and within the limit |
| `PriceTime.SweepIsExact` | native/cerious-exchange-cpp/src/DeterministicExchange.hpp:630-666 | Sweeping one side removes exactly the triggered levels and fills each of their orders once, in full, at its own limit, in price-time order; stopping at the first untriggered level misses nothing |
| `PriceTime.TickIsExact` | native/cerious-exchange-cpp/src/DeterministicExchange.hpp:618-666 | A tick removes exactly the asks at or below the higher of last and best bid and the bids at or above the lower of last and best ask, in ticks, and touches no other queue |
| `PriceTime.TickFillsInOrder` | native/cerious-exchange-cpp/src/DeterministicExchange.hpp:630-666 | The reports of a tick fill exactly the orders of the removed levels, asks and then bids, each side in price-time order |
| `Fairness.RunIsFair` | native/cerious-exchange-cpp/src/DeterministicExchange.hpp:525-561 | Over any run that neither cancels nor replaces two orders of one queue nor resets, every fill of the later one comes after the report that completes the earlier one |
| `Fairness.StepIsFair` | native/cerious-exchange-cpp/src/DeterministicExchange.hpp:525-666 | The same for one command, with the order of the two kept if both still rest |
| `Fairness.SubmitRestsLast` | native/cerious-exchange-cpp/src/DeterministicExchange.hpp:563-581 | An accepted order that comes to rest is the last of its queue and younger than everything before it |
| `Fairness.ReplaceRestsLast` | native/cerious-exchange-cpp/src/DeterministicExchange.hpp:321-355 | Whatever a replace asks for, if the order rests afterwards it is the last of its queue |
| `Fairness.QuantityReplaceGoesToTheBack` | native/cerious-exchange-cpp/src/DeterministicExchange.hpp:336-351 | Changing only the quantity, even downwards, moves the order to the back of the same queue and leaves all others in place |
| `Fairness.TicksRoundTrip` | native/cerious-exchange-cpp/src/DeterministicExchange.hpp:429-435 | Ticks turned into a price and back are the same ticks, which is what keeps a quantity-only replace at its level |
| `Outcomes.NearestTick` | native/cerious-exchange-cpp/src/DeterministicExchange.hpp:429-435 | A price goes to the nearest tick, and from halfway between two away from zero |
| `Outcomes.MarketTakesAll` | native/cerious-exchange-cpp/src/DeterministicExchange.hpp:437-447 | A market order may trade with all that the other side offers at ticks that fit a machine word |
| `Outcomes.RefusedOrder` | native/cerious-exchange-cpp/src/DeterministicExchange.hpp:239-259 | An order that is not acceptable changes nothing but the counter and leaves one rejection with the first reason that applies, field by field |
| `Outcomes.MatchTold` | native/cerious-exchange-cpp/src/DeterministicExchange.hpp:525-551 | The reports of a matching, to the last field and number: for each order in price-time order one for the incoming and one for the resting order, filled or partly filled, with what remains of each |
| `Outcomes.SubmitPlaces` | native/cerious-exchange-cpp/src/DeterministicExchange.hpp:261-291 | An accepted order takes the smaller of its quantity and all crossing quantity from the front of the other side; the rest of a limit order that is not immediate-or-cancel, partly filled or not, joins the back of the queue at the ticks of its price, and only then is its id registered; no other queue changes |
| `Outcomes.SubmitTells` | native/cerious-exchange-cpp/src/DeterministicExchange.hpp:261-291 | All reports of an accepted order, to the last field and number: acknowledgement, fills, and resting or the cancelled remainder |
| `Outcomes.SubmitCounts` | native/cerious-exchange-cpp/src/DeterministicExchange.hpp:273-289 | The counter moves by one for the order and one for each report |
| `FeedOutcomes.SubmitTellsFeed` | native/cerious-exchange-cpp/src/DeterministicExchange.hpp:502-581 | All deltas of an accepted order: one for each level that it traded at, with what is left there, and one for the level where it rests, each under the number of the last report |
| `Withdrawals.CancelDoes` | native/cerious-exchange-cpp/src/DeterministicExchange.hpp:297-315 | A cancel takes the order out of its queue and the index, leaves all else, and reports it with its reason and the level with what is left |
| `Withdrawals.UnknownIsRejected` | native/cerious-exchange-cpp/src/DeterministicExchange.hpp:299-310 | A cancel or replace of an unknown id changes nothing but the counter and is rejected |
| `Withdrawals.ReplacePlaces` | native/cerious-exchange-cpp/src/DeterministicExchange.hpp:336-355 | A replace takes the old order out of its queue; the new one, at the ticks of the price and for the quantity it names, and otherwise at the old ticks and for the old remainder, trades and rests as any other, with the kind, side and time in force of the old one |
| `Withdrawals.ReplaceTells` | native/cerious-exchange-cpp/src/DeterministicExchange.hpp:336-355 | All its reports, to the last field and number |
| `Withdrawals.VainReplace` | native/cerious-exchange-cpp/src/DeterministicExchange.hpp:336-355 | A replace that asks for no quantity, or for a price that is not finite, loses the order and says so in two reports |
| `Withdrawals.ResetDoes` | native/cerious-exchange-cpp/src/DeterministicExchange.hpp:401-408 | A reset empties every queue and the index, keeps products and stored markets, raises the counter once and reports nothing |
| `MarketTicks.TickTells` | native/cerious-exchange-cpp/src/DeterministicExchange.hpp:630-666 | All reports of a tick, to the last field and number, and that the tick is stored as the market |
| `MarketTicks.TickOfUnknown` | native/cerious-exchange-cpp/src/DeterministicExchange.hpp:361-365 | A tick without a product does nothing |
| `FeedOutcomes.TickTellsFeed` | native/cerious-exchange-cpp/src/DeterministicExchange.hpp:646-666 | All deltas of a tick: a deletion for each level that it fills, asks and then bids, best first |
| `Conservation.QuantityIsConserved` | native/cerious-exchange-cpp/src/DeterministicExchange.hpp:463-485 | Over any run, on each side of each book, accepted quantity less fills less cancelled and replaced remainders is the resting quantity |
| `Conservation.QuantityIsConservedFromStart` | native/cerious-exchange-cpp/src/DeterministicExchange.hpp:463-485 | The same from a newly opened exchange |
| `Conservation.StepConserves` | native/cerious-exchange-cpp/src/DeterministicExchange.hpp:236-355 | The reports of one command account for the change of the resting quantity on every side of every book |
| `Reachable.StepKeeps` | native/cerious-exchange-cpp/src/DeterministicExchange.hpp:236-408 | Every command keeps index and books in agreement, queues in time order and books uncrossed |
| `Reachable.MatchKeeps` | native/cerious-exchange-cpp/src/DeterministicExchange.hpp:525-561 | Matching keeps the agreement, and leaves nothing on the opposite side that the order could still trade with |
| `Reachable.OpenedIsSound` | native/cerious-exchange-cpp/src/DeterministicExchange.hpp:199-209 | Registering products with positive tick sizes gives a sound exchange |
| `Reachable.FindWorks` | native/cerious-exchange-cpp/src/DeterministicExchange.hpp:300-311 | The index lookup finds exactly the registered ids and yields the order with that id |
| `Reachable.ReplaceParts` | native/cerious-exchange-cpp/src/DeterministicExchange.hpp:336-354 | A replace is a removal, its report, and a submission that goes through every check again, so a refused one still loses the old order |
| `Reachable.SubmitParts` | native/cerious-exchange-cpp/src/DeterministicExchange.hpp:236-291 | An order that is not refused (what becomes of it is stated by Outcomes.SubmitPlaces and Outcomes.SubmitTells) is acknowledged, matched against the opposite side, and then rests or has its remainder cancelled |
| `Reachable.TradeKeeps` | native/cerious-exchange-cpp/src/DeterministicExchange.hpp:535-551 | One fill keeps the books and the index in agreement and the order in hand outside both |
| `Exchange.TradeShrinks` | native/cerious-exchange-cpp/src/DeterministicExchange.hpp:528-551 | Each fill leaves less to match, so the nested loops end |
| `Exchange.SweepShrinks` | native/cerious-exchange-cpp/src/DeterministicExchange.hpp:634-648 | Each fill of a sweep leaves fewer orders, so its loops end |
| `ExchangeEngine.DeterministicExchange.constructor` | native/cerious-exchange-cpp/src/DeterministicExchange.hpp:185 | A new exchange has no products, books or orders |
| `ExchangeEngine.DeterministicExchange.NextSequence` | native/cerious-exchange-cpp/src/DeterministicExchange.hpp:425-427 | Raises the counter by one and returns it |
| `ExchangeEngine.DeterministicExchange.ReportOn` | native/cerious-exchange-cpp/src/DeterministicExchange.hpp:463-479 | Draws one sequence number and reports the order under it |
| `ExchangeEngine.DeterministicExchange.ReportFill` | native/cerious-exchange-cpp/src/DeterministicExchange.hpp:481-485 | The same with status by what remains, the contra id, the quantity and the price of the fill |
| `ExchangeEngine.DeterministicExchange.Delta` | native/cerious-exchange-cpp/src/DeterministicExchange.hpp:487-523 | The delta carries the sum and the count of the queue, or zeros for a deletion |
| `ExchangeEngine.DeterministicExchange.MatchIncoming` | native/cerious-exchange-cpp/src/DeterministicExchange.hpp:525-561 | The outer loop over levels ends in exactly the state, order and reports of matching trade by trade |
| `ExchangeEngine.DeterministicExchange.TradeWith` | native/cerious-exchange-cpp/src/DeterministicExchange.hpp:536-547 | One fill between the two orders: both quantities, both reports, and the index entry of a finished resting order |
| `ExchangeEngine.DeterministicExchange.StoreQueue` | native/cerious-exchange-cpp/src/DeterministicExchange.hpp:553-559 | Writes a queue back, or erases the level when it has run empty, with the matching delta |
| `ExchangeEngine.DeterministicExchange.WalkQueue` | native/cerious-exchange-cpp/src/DeterministicExchange.hpp:534-551 | The inner loop over a queue does one trade of the state machine in each turn |
| `ExchangeEngine.DeterministicExchange.MatchLevel` | native/cerious-exchange-cpp/src/DeterministicExchange.hpp:528-560 | One level is consumed and then reports itself, as Delete when empty and Modify otherwise |
| `ExchangeEngine.DeterministicExchange.RestOrder` | native/cerious-exchange-cpp/src/DeterministicExchange.hpp:563-581 | The order joins the back of its queue and the index, with an Add or a Modify and a report |
| `ExchangeEngine.DeterministicExchange.SubmitOrderBatch` | native/cerious-exchange-cpp/src/DeterministicExchange.hpp:236-291 | Exactly the submission step: the checks in order, acknowledgement, matching, resting or cancelling the remainder |
| `ExchangeEngine.DeterministicExchange.AcceptOrder` | native/cerious-exchange-cpp/src/DeterministicExchange.hpp:261-291 | The part of a submission after the checks |
| `ExchangeEngine.DeterministicExchange.RejectOrder` | native/cerious-exchange-cpp/src/DeterministicExchange.hpp:449-461 | One rejection with its reason and sequence number |
| `ExchangeEngine.DeterministicExchange.RejectUnknownOrder` | native/cerious-exchange-cpp/src/DeterministicExchange.hpp:301-310 | One rejection of an unknown id |
| `ExchangeEngine.DeterministicExchange.WorkingOrder` | native/cerious-exchange-cpp/src/DeterministicExchange.hpp:311 | The order that the index entry points at |
| `ExchangeEngine.DeterministicExchange.RemoveRegistered` | native/cerious-exchange-cpp/src/DeterministicExchange.hpp:583-616 | The queue element that the index points at is erased, with the level if it was the last, and the entry |
| `ExchangeEngine.DeterministicExchange.CancelOrderBatch` | native/cerious-exchange-cpp/src/DeterministicExchange.hpp:297-315 | Exactly the cancel step, or one rejection for an unknown id |
| `ExchangeEngine.DeterministicExchange.ReplaceOrderBatch` | native/cerious-exchange-cpp/src/DeterministicExchange.hpp:321-355 | Exactly the replace step, or one rejection for an unknown id |
| `ExchangeEngine.DeterministicExchange.ApplyMarketDataBatch` | native/cerious-exchange-cpp/src/DeterministicExchange.hpp:361-371 | Exactly the tick step; an unknown symbol changes nothing |
| `ExchangeEngine.DeterministicExchange.SweepMarketable` | native/cerious-exchange-cpp/src/DeterministicExchange.hpp:630-666 | The sweep loops over levels end in exactly the state and reports of sweeping order by order |
| `ExchangeEngine.DeterministicExchange.SweepLevel` | native/cerious-exchange-cpp/src/DeterministicExchange.hpp:638-647 | A triggered level is filled from its head and erased, with one Delete |
| `ExchangeEngine.DeterministicExchange.FillFromMarket` | native/cerious-exchange-cpp/src/DeterministicExchange.hpp:639-644 | One full fill at the price of the level with the market as contra |
| `ExchangeEngine.DeterministicExchange.IsTriggered` | native/cerious-exchange-cpp/src/DeterministicExchange.hpp:618-628 | Whether last or the facing quote, in ticks, reaches a price |
| `ExchangeEngine.DeterministicExchange.RegisterProduct` | native/cerious-exchange-cpp/src/DeterministicExchange.hpp:199-209 | A missing symbol or a tick size that is not positive is refused and changes nothing; otherwise the product is stored and its book opened unless there is one |
| `ExchangeEngine.DeterministicExchange.ResetBooks` | native/cerious-exchange-cpp/src/DeterministicExchange.hpp:401-408 | All levels and the whole index are cleared and the counter is raised once |
| `BookSnapshots.TicksAreTheBest` | native/cerious-exchange-cpp/src/DeterministicExchange.hpp:669-677 | The listed prices are on the book, best first, each once; one is left out only when the list is full, and is worse than all of it |
| `BookSnapshots.SnapshotIsOrderly` | native/cerious-exchange-cpp/src/DeterministicExchange.hpp:373-385 | In a sound state both sides of a snapshot get strictly worse from the top, and every bid shown is below every ask shown |
| `BookSnapshots.SnapshotAgreesWithFeed` | native/cerious-exchange-cpp/src/DeterministicExchange.hpp:373-385 | Every level shown is in a right feed with the same size and count, and a level of the feed is missing only when the snapshot is full |
| `BookSnapshots.SnapshotShows` | native/cerious-exchange-cpp/src/DeterministicExchange.hpp:373-385 | The snapshot bears the symbol and the current number, and shows for each of the best levels its price, total quantity and order count; without product or book it shows nothing |
| `BookSnapshots.AppendLevels` | native/cerious-exchange-cpp/src/DeterministicExchange.hpp:669-677 | The loops list exactly the best levels with their sums and counts |
| `BookSnapshots.Snapshot` | native/cerious-exchange-cpp/src/DeterministicExchange.hpp:373-385 | The snapshot of an exchange is that of its state; without product or book both sides are empty |
| `Ledger.ProfitIdentity` | native/cerious-exchange-cpp/src/server.cpp:353-388 | At every mark, realized profit plus the profit of closing at that mark is multiplier times (mark times net quantity less the signed sum of quantity times price) |
| `Ledger.TradeExplains` | native/cerious-exchange-cpp/src/server.cpp:359-380 | Add, reduce, close and flip each keep that identity, with the fill added to net quantity and cost |
| `Ledger.TradeCounts` | native/cerious-exchange-cpp/src/server.cpp:354-360 | The position stays bought less sold quantity |
| `Ledger.BatchExplains` | native/cerious-exchange-cpp/src/server.cpp:329-351 | Folding any reports adds exactly the quantity and cost of their fills |
| `Ledger.MarkExplains` | native/cerious-exchange-cpp/src/server.cpp:314-327 | A new mark leaves the identity alone |
| `Ledger.BatchStaysMarked` | native/cerious-exchange-cpp/src/server.cpp:381-388 | After any batch, each position shows the open profit at its own mark, and that mark is the latest of its symbol if there is one |
| `Ledger.MarkStaysMarked` | native/cerious-exchange-cpp/src/server.cpp:321-326 | The same after a new mark |
| `Ledger.BatchShowsProfit` | native/cerious-exchange-cpp/src/server.cpp:381-388 | After any batch, realized and open profit as shown add up to multiplier times (mark shown times net quantity less cost), the multiplier being that of the product or one |
| `Ledger.MarkShowsProfit` | native/cerious-exchange-cpp/src/server.cpp:321-327 | The same after a new mark |
| `Ledger.MarkFollowsQuotes` | native/cerious-exchange-cpp/src/server.cpp:314-327 | The mark is the last trade, else midway between the quotes, else the one quote there is; without any of them nothing changes, and no other symbol is touched |
| `Ledger.TradePrices` | native/cerious-exchange-cpp/src/server.cpp:359-380 | Adding averages the price over the whole position and realizes nothing, reducing keeps the average price, closing leaves none, turning round starts at the price of the fill |
| `Ledger.FillsAreKept` | native/cerious-exchange-cpp/src/server.cpp:329-351 | The fills kept are the last five thousand of all that were reported, each with number, order, symbol, side, quantity and price |
| `Ledger.TurnoverIsCounted` | native/cerious-exchange-cpp/src/server.cpp:354-357 | Bought and sold quantities grow by exactly the fills of their side |
| `Server.ExchangeServer.constructor` | native/cerious-exchange-cpp/src/server.cpp:185-190 | The server starts with the starter products and an empty ledger |
| `Server.ExchangeServer.SendOrder` | native/cerious-exchange-cpp/src/server.cpp:200-205 | One submission of the exchange, then its fills folded into the ledger |
| `Server.ExchangeServer.CancelOrder` | native/cerious-exchange-cpp/src/server.cpp:206-214 | One cancel of the exchange, then its fills folded into the ledger |
| `Server.ExchangeServer.ReplaceOrder` | native/cerious-exchange-cpp/src/server.cpp:216-225 | One replace of the exchange, then its fills folded into the ledger |
| `Server.ExchangeServer.ApplyMarket` | native/cerious-exchange-cpp/src/server.cpp:227-233 | The mark first, then the tick of the exchange, then its fills folded into the ledger |
| `Server.ExchangeServer.Reset` | native/cerious-exchange-cpp/src/server.cpp:259-267 | Clears the books, and fills and positions only when asked to |
| `Server.ExchangeServer.ApplyBatch` | native/cerious-exchange-cpp/src/server.cpp:329-334 | The loop folds exactly the fills of a batch, in order |
| `Server.ExchangeServer.RecordFill` | native/cerious-exchange-cpp/src/server.cpp:336-351 | Keeps the last five thousand fills and updates the position |
| `Server.ExchangeServer.UpdatePosition` | native/cerious-exchange-cpp/src/server.cpp:353-384 | Exactly the ledger update of one fill |
| `Server.ExchangeServer.TradePosition` | native/cerious-exchange-cpp/src/server.cpp:359-380 | The branches compute the quantity, average price and realized profit of the specification |
| `Server.ExchangeServer.UpdateMark` | native/cerious-exchange-cpp/src/server.cpp:314-327 | Last, else the middle of both quotes, else the one there is; without any of them nothing changes |
| `Server.InternalCrossesAreNeutral` | native/cerious-exchange-cpp/src/server.cpp:329-388 | From a cleared ledger, over any run, the net position is the signed sum of the fills against the market alone, and total profit at every mark is what that position is worth less what those fills cost |
| `Server.PositionsFollowTheMarket` | native/cerious-exchange-cpp/src/server.cpp:329-388 | The same for any start whose ledger is explained |
| `Server.CrossLeavesProfitAlone` | native/cerious-exchange-cpp/src/DeterministicExchange.hpp:536-543 | A submission, cancel or replace leaves net position and total profit at every mark as they were, whatever trades |
| `Server.OrdersAreNeutral` | native/cerious-exchange-cpp/src/DeterministicExchange.hpp:542-543 | The two reports of each match cancel in signed quantity and in cost |
| `Server.ProfitIsShown` | native/cerious-exchange-cpp/src/server.cpp:381-388 | From a cleared ledger, over any run, realized and open profit as shown add up to what the position traded with the market is worth at the mark shown, less what the market was paid |
| `Server.MarkIsTheLatest` | native/cerious-exchange-cpp/src/server.cpp:314-327 | Over any run, resets included, the mark of a symbol is that of the last tick that had a price for it |
| `Server.ResetServes` | native/cerious-exchange-cpp/src/server.cpp:259-267 | A reset clears the books, fills and positions only when asked to, and marks and products never |
| `PriceTime.WhoTrades` | native/cerious-exchange-cpp/src/DeterministicExchange.hpp:525-561 | An order on the far side takes part in a matching exactly when it crosses and less than the incoming quantity stands before it in price-time order |
| `MarketLabel.LabelIsRightExactlyWhenUnused` | native/cerious-exchange-cpp/src/DeterministicExchange.hpp:542-543 | For every command and symbol, the fills labelled MARKET_DATA are those against the market if and only if no order of that name is about to trade with another: going by the book, it neither rests at a crossing price with less than the incoming quantity before it, nor comes in itself while the best price crosses |
| `MarketLabel.SubmitLabels` | native/cerious-exchange-cpp/src/DeterministicExchange.hpp:642 | The same for one submission: its own symbol decides, and other symbols have no labelled fills |
| `MarketLabel.TrickyStateIsReached` | native/cerious-exchange-cpp/src/DeterministicExchange.hpp:236-291 | One submission to a newly opened exchange puts an order of that name on the book |
| `MarketLabel.LabelMisleads` | native/cerious-exchange-cpp/src/DeterministicExchange.hpp:542 | An order sent against it: the position stays flat while the label claims a purchase from the market |
| `MarketLabel.StepLabelsMarketFills` | native/cerious-exchange-cpp/src/DeterministicExchange.hpp:642 | While no order bears that name, the labelled fills are exactly the fills of market ticks |
| `MarketLabel.PositionIsSumOfLabelledFills` | native/cerious-exchange-cpp/src/server.cpp:329-384 | If no order is ever named so, the net position after any run is the signed sum of the labelled fills |
| `FixText.TagNumberOfDigits` | native/fix-engine-cpp/src/fix_message.hpp:431-436 | Reading a printed tag number gives it back |
| `FixText.AsIntOfText` | native/fix-engine-cpp/src/fix_message.hpp:323-334 | Reading a printed int, negative ones included, gives it back |
| `FixText.LooseOfThree` | native/fix-engine-cpp/src/fix_message.hpp:445-449 | Reading the three digits of a checksum gives it back |
| `FixText.TagNumberReads` | native/fix-engine-cpp/src/fix_message.hpp:430-436 | A tag number is the decimal value of digits alone, none at all counting as zero; anything else among them makes it none |
| `FixText.LooseReadsDigits` | native/fix-engine-cpp/src/fix_message.hpp:443-449 | A checksum is read as the number of its digits, whatever stands between them |
| `FixText.AsIntReads` | native/fix-engine-cpp/src/fix_message.hpp:323-338 | A number is read from the digits at the front, behind a minus sign if there is one; an empty value gives the fallback |
| `FixMessage.AcceptedExactlyWhenSound` | native/fix-engine-cpp/src/fix_message.hpp:464-488 | Well-formed fields with a trailer read back as those fields and that checksum, and are valid if and only if the checksum is the byte sum modulo 256 and the version and type tags are there |
| `FixMessage.BuildThenParse` | native/fix-engine-cpp/src/fix_message.hpp:253-297 | Any message that is built of values whose printed part, up to a NUL, holds no delimiter parses valid, with what is printed of header and caller fields in order, checksum, type and sequence number as built; of more than 56 caller fields the parser keeps the first 64 tags of the message |
| `FixMessage.FindFramed` | native/fix-engine-cpp/src/fix_message.hpp:368-398 | Version, length, type and sequence number are found where the builder put them |
| `FixMessage.LengthAndChecksumAreRight` | native/fix-engine-cpp/src/fix_message.hpp:275-293 | In any such message tag 9 is the byte count from behind its own field up to the checksum field, and tag 10, with at most 56 caller fields, the sum of all bytes before it modulo 256, as FIX 4.4 Volume 2 asks for |
| `FixMessage.DisplayReads` | native/fix-engine-cpp/src/fix_message.hpp:412-416 | Any bytes with delimiters and no pipes read back the same tags, type and number when pipes stand in the place of the delimiters |
| `FixIntegrity.SingleByteErrorIsCaught` | native/fix-engine-cpp/src/fix_message.hpp:424-488 | For a message of at most 63 well-formed fields and their checksum, any one byte at any position and any other byte in its place: accepted if and only if a condition on the fields holds, given case by case for tag digits, equals sign, value, delimiter and trailer |
| `FixIntegrity.ValueErrorIsCaught` | native/fix-engine-cpp/src/fix_message.hpp:424-475 | Of the bytes of a value only a delimiter goes unnoticed, and that exactly when what is left of the value stops the parser before the trailer, or reads as a field that agrees with the sum |
| `FixIntegrity.TrailerTagSlips` | native/fix-engine-cpp/src/fix_message.hpp:430-451 | In any built message any of the first three bytes of the trailer may be any byte: it parses valid |
| `FixIntegrity.UncheckedExactlyWithoutTrailer` | native/fix-engine-cpp/src/fix_message.hpp:443-488 | Over arbitrary bytes: if no checksum field was read, the message is valid exactly when version and type were, whatever its bytes sum to |
| `FixIntegrity.ChecksumsAreCompared` | native/fix-engine-cpp/src/fix_message.hpp:443-488 | Over arbitrary bytes: valid exactly when version and type were read and, if there were checksum fields, the sum of what was read outside them is the last of those |
| `FixIntegrity.SenderByteSlips` | native/fix-engine-cpp/src/fix_message.hpp:430-436 | In any built message with at most 56 caller fields, a delimiter in the place of a byte of the sender id with no equals sign behind it leaves a message that parses valid without target, number or checksum |
| `FixIntegrity.SlippedHeartbeat` | native/fix-engine-cpp/src/fix_message.hpp:468-488 | One such message: heartbeat 5 reads as valid with number 0 |
| `FixBuffers.FixMessageBuilder.constructor` | native/fix-engine-cpp/src/fix_message.hpp:217-222 | An empty builder |
| `FixBuffers.FixMessageBuilder.Reset` | native/fix-engine-cpp/src/fix_message.hpp:219-222 | Forgets the fields written |
| `FixBuffers.FixMessageBuilder.Add` | native/fix-engine-cpp/src/fix_message.hpp:225-232 | The length grows by tag, value up to its first NUL and delimiter; as long as it stays below the buffer size the text grows by them, otherwise it is cut off for a closing NUL while the length still counts it all |
| `FixBuffers.FixMessageBuilder.AddInt` | native/fix-engine-cpp/src/fix_message.hpp:239-243 | The same with a number printed in decimal |
| `FixBuffers.FixMessageBuilder.Finalize` | native/fix-engine-cpp/src/fix_message.hpp:253-297 | If header and fields fit the body buffer, the message buffer holds exactly the framed fields and the checksum |
| `FixBuffers.FitsIsEnough` | native/fix-engine-cpp/src/fix_message.hpp:225-282 | That every write and copy stays inside its buffer and nothing is cut off comes to one bound: header below 4096 bytes, header and fields at most 4096 |
| `FixBuffers.ParseFixMessage` | native/fix-engine-cpp/src/fix_message.hpp:403-489 | The cursor loop computes exactly the parse of the text, on any bytes |
| `FixFraming.ChunksDoNotMatter` | native/fix-engine-cpp/src/fix_tcp.hpp:171-175 | Feeding bytes in two parts delivers the same frames and keeps the same residue as feeding them at once, for any bytes |
| `FixFraming.AnyChunks` | native/fix-engine-cpp/src/fix_tcp.hpp:171-175 | The same for any number of chunks |
| `FixFraming.NothingIsLost` | native/fix-engine-cpp/src/fix_tcp.hpp:220-226 | The frames followed by the residue are the bytes received |
| `FixFraming.ResidueIsIncomplete` | native/fix-engine-cpp/src/fix_tcp.hpp:192-228 | What is kept holds no complete message |
| `FixFraming.EndIsStable` | native/fix-engine-cpp/src/fix_tcp.hpp:198-218 | More bytes behind a complete message do not move its end |
| `FixFraming.FrameEndIsFirst` | native/fix-engine-cpp/src/fix_tcp.hpp:198-218 | Over any bytes: a message ends behind the first delimiter after the first checksum tag that stands at the front or behind a delimiter, and nowhere else |
| `FixFraming.FixReceiver.ExtractMessages` | native/fix-engine-cpp/src/fix_tcp.hpp:192-228 | The loop ends, delivers exactly the frames of the buffer, and leaves the residue |
| `FixFraming.FixReceiver.FindEnd` | native/fix-engine-cpp/src/fix_tcp.hpp:198-218 | The scan finds the end of the first message, or that it is not there in full |
| `FixFraming.FixReceiver.Poll` | native/fix-engine-cpp/src/fix_tcp.hpp:171-175 | Appends what arrived and delivers every message that is now complete |
| `FixFraming.MessageEnds` | native/fix-engine-cpp/src/fix_tcp.hpp:198-218 | A message of well-formed fields and a trailer is cut off exactly at its end, whatever follows |
| `FixFraming.BuildFrameParse` | native/fix-engine-cpp/src/fix_message.hpp:253-297 | Messages built of values whose printed part holds no delimiter, sent back to back in any chunks and framed arrive as built with nothing kept back, and each parses valid with its type, number and what is printed of its fields |
| `FixSession.WireIsNumbered` | native/fix-engine-cpp/src/fix_session.hpp:261-275 | Over any receives of any bytes, and any sends of values whose printed part holds no delimiter and whose messages fit the buffers, the k-th message handed over parses valid with MsgSeqNum k, and the receive number stays one above the receive count |
| `FixSession.WireIsNumberedFromStart` | native/fix-engine-cpp/src/fix_session.hpp:43-55 | The same from construction |
| `FixSession.PerformedIsNumbered` | native/fix-engine-cpp/src/fix_session.hpp:84-224 | Each operation that fits the buffers and sends no delimiter inside a value keeps that numbering |
| `FixSession.TestRequestIsEchoed` | native/fix-engine-cpp/src/fix_session.hpp:205-209 | A received test request, valid or not, whose id fits the buffers is answered by exactly one heartbeat, valid and carrying the id up to its first NUL |
| `FixSession.EchoFitsExactly` | native/fix-engine-cpp/src/fix_session.hpp:110-118 | The id fits exactly when what is printed of it and five bytes more go behind the header into 4096 bytes |
| `FixSession.OversizedTestRequest` | native/fix-engine-cpp/src/fix_session.hpp:205-209 | A test request whose printed id is as long as the buffer parses valid, and its echo fits no session |
| `FixSession.NulIsNotEchoed` | native/fix-engine-cpp/src/fix_session.hpp:205-209 | A test request with id A, NUL, B is answered with id A |
| `FixSession.ReceivedValueHasNoSoh` | native/fix-engine-cpp/src/fix_message.hpp:438-459 | A value read from any bytes never holds the delimiter, so it can be sent on |
| `FixContents.NewOrderSays` | native/fix-engine-cpp/src/fix_session.hpp:121-142 | A new order is one message of type D that parses valid from sender to target under the next number and says id, account, handling, symbol, side, time, quantity, order type, time in force, and the price exactly when it is a limit order with a positive one |
| `FixContents.CancelSays` | native/fix-engine-cpp/src/fix_session.hpp:145-158 | A cancel is one message of type F that says its id, the original id, symbol, side and time |
| `FixContents.CancelReplaceSays` | native/fix-engine-cpp/src/fix_session.hpp:161-180 | A replace is one message of type G that says both ids, symbol, side, time, quantity, order type, and the price under the same condition |
| `FixContents.LogonSays` | native/fix-engine-cpp/src/fix_session.hpp:84-95 | A logon is one message of type A that says no encryption, the heartbeat interval, and the password if there is one, and leaves the session waiting |
| `FixContents.LogoutSays` | native/fix-engine-cpp/src/fix_session.hpp:98-107 | A logout is one message of type 5 that says its reason if there is one, and leaves the session waiting |
| `FixContents.HeartbeatSays` | native/fix-engine-cpp/src/fix_session.hpp:110-118 | A heartbeat is one message of type 0 that says the test request id if there is one |
| `FixContents.RunCounts` | native/fix-engine-cpp/src/fix_session.hpp:184-275 | Over any run the counters are the numbers of messages sent, received, invalid and refused, and the status is that of the last logon or logout either way |
| `FixSession.RestartKeepsNumberingOnlyAtTheStart` | native/fix-engine-cpp/src/fix_session.hpp:74-81 | Starting the simulation keeps the numbering if and only if nothing has been sent or received before |
| `FixSession.RestartRepeatsNumberOne` | native/fix-engine-cpp/src/fix_session.hpp:74-81 | After any first message the restarted session is about to send a second number 1 |
| `FixSession.FixSession.SendAndJournal` | native/fix-engine-cpp/src/fix_session.hpp:261-275 | Counts the message and hands it over |
| `FixSession.FixSession.constructor` | native/fix-engine-cpp/src/fix_session.hpp:43-55 | A fresh session with both numbers at one |
| `FixSession.FixSession.WriteFields` | native/fix-engine-cpp/src/fix_session.hpp:84-117 | A fresh builder holds the fields |
| `FixSession.FixSession.Send` | native/fix-engine-cpp/src/fix_session.hpp:84-117 | Builds the message under the next number and hands it over, if it fits |
| `FixSession.FixSession.SendHeartbeat` | native/fix-engine-cpp/src/fix_session.hpp:110-118 | A heartbeat that carries the id when there is one |
| `FixSession.FixSession.Perform` | native/fix-engine-cpp/src/fix_session.hpp:84-180 | Each send function does exactly its step: fields, type, number, status |
| `FixSession.FixSession.OnMessageReceived` | native/fix-engine-cpp/src/fix_session.hpp:184-224 | Counts, and acts on the type even of an invalid message |
| `FixSession.FixSession.StartSimulated` | native/fix-engine-cpp/src/fix_session.hpp:74-81 | Sets both numbers to one and leaves counters and wire |
| `FixLink.WireIsReceived` | native/fix-engine-cpp/src/fix_tcp.hpp:171-228 | From construction on, over any such run of a session, any chunks of the bytes it handed over are cut into exactly its messages, in order and with nothing left, the k-th valid and numbered k |
| `FixLink.FirstPartIsReceived` | native/fix-engine-cpp/src/fix_tcp.hpp:171-228 | While some of the bytes are still on their way, what has been cut is the first of those messages |
| `FixLink.PeersStayInStep` | native/fix-engine-cpp/src/fix_session.hpp:184-224 | A fresh session that receives those frames between sends of its own finds each of them valid and bearing the number that it expects |
| `FixLink.RunWrites` | native/fix-engine-cpp/src/fix_session.hpp:84-224 | Whatever a run sends and receives, what it hands over are built messages of sendable fields |
| `RegressionStudy.CalculateRegressionStudy` | native/gateway-cpp/src/main.cpp:1644-1721 | Reports the missing lookback, the missing bars or the non-finite close; otherwise the study describes the last closes: best line, root mean square error, value at the newest bar and a symmetric band around it |
| `RegressionStudy.ParametersAreClamped` | native/gateway-cpp/src/main.cpp:1648-1649 | The lookback is brought into 2 to 2000 and the deviations into 0 to 20, and left alone within |
| `RegressionStudy.FitIsBest` | native/gateway-cpp/src/main.cpp:1696-1706 | The fitted line has the least squared error of all lines, and is the only line that has it |
| `RegressionStudy.NormalEquations` | native/gateway-cpp/src/main.cpp:1696-1706 | The residuals sum to zero, and so do the residuals weighted by bar index |
| `RegressionStudy.DenominatorIsPositive` | native/gateway-cpp/src/main.cpp:1699-1705 | For n of at least two bars the denominator is n(n^2 - 1)/12, so the guard against zero never fires |
| `RegressionStudy.FlatBandMeansALine` | native/gateway-cpp/src/main.cpp:1708-1718 | The squared error is zero exactly when all closes lie on one line, and then the study finds that line |
| `RegressionStudy.FitLine` | native/gateway-cpp/src/main.cpp:1695-1706 | The loop yields the least-squares slope and intercept |
| `RegressionStudy.SquaredError` | native/gateway-cpp/src/main.cpp:1708-1714 | The loop yields the sum of squared residuals |
| `RegressionStudy.Band` | native/gateway-cpp/src/main.cpp:1715-1718 | Lower, mean and upper are in order and evenly spaced |
| `BarAggregation.AggregateBars` | native/gateway-cpp/src/main.cpp:1350-1378 | The method answers with an aggregation, trimmed to the newest bars |
| `BarAggregation.MergeIntoBuckets` | native/gateway-cpp/src/main.cpp:1357-1373 | The loop over its last output bar computes the buckets |
| `BarAggregation.BucketsGroup` | native/gateway-cpp/src/main.cpp:1357-1373 | Over bars in order of time, the output is the group-by on the bucket: strictly ascending bucket starts, and each bar has first open, last close, highest high, lowest low and total volume of exactly the bars of its bucket |
| `BarAggregation.AggregationGroups` | native/gateway-cpp/src/main.cpp:1350-1378 | What comes back after trimming is the newest part of that group-by |
| `BarAggregation.BucketsCompose` | native/gateway-cpp/src/main.cpp:1357-1373 | Merging into buckets and then into a multiple of them is merging once |
| `BarAggregation.BucketsAreCounted` | native/gateway-cpp/src/main.cpp:1357-1373 | As many bars come out as there are buckets that bars fall into |
| `BarAggregation.AggregationIsCounted` | native/gateway-cpp/src/main.cpp:1374-1376 | That many come back if the limit is negative or at least as large, and as many as the limit otherwise |
| `BarAggregation.AggregationComposes` | native/gateway-cpp/src/main.cpp:1350-1378 | Aggregating with any limit that drops no bucket and then to a multiple of the minutes, with any limit, answers like aggregating once |
| `BarAggregation.AggregationIsUnique` | native/gateway-cpp/src/main.cpp:1353-1355 | For bars at distinct times there is one answer, however the sort treats ties |
| `BarAggregation.AggregationKeepsVolume` | native/gateway-cpp/src/main.cpp:1372 | With any limit that drops no bucket the volume is conserved |
| `DepthSweep.SweepSide` | native/simulex-cpp/src/SimulexExchange.h:128-150 | The loop fills the smaller of what is required and all positive volume, and averages the price when it could fill all |
| `DepthSweep.GreedyIsAFill` | native/simulex-cpp/src/SimulexExchange.h:134-145 | The walk takes within each level, takes what it says, and pays what it says |
| `DepthSweep.GreedyIsCheapest` | native/simulex-cpp/src/SimulexExchange.h:134-145 | On a side of rising prices no other fill of the same size within the level volumes costs less |
| `DepthSweep.GreedyIsDearest` | native/simulex-cpp/src/SimulexExchange.h:134-145 | On a side of falling prices no other fill collects more |
| `DepthSweep.AverageRises` | native/simulex-cpp/src/SimulexExchange.h:147-149 | A larger buy never has a better average price, and if it can be filled so can a smaller one |
| `DepthSweep.AverageFalls` | native/simulex-cpp/src/SimulexExchange.h:147-149 | The same for sells |
| `SimulexPriority.LargerIsPricedNoBetter` | native/simulex-cpp/src/SimulexExchange.h:210-225 | On sorted books the executable price, outright or of a spread whose right leg does not count backwards, never improves with size |
| `SimulexPriority.SmallerIsStillTriggered` | native/simulex-cpp/src/SimulexExchange.h:227-247 | Making an order smaller never takes its trigger away |
| `SimulexPriority.ReplaceGoesBehind` | native/simulex-cpp/src/SimulexExchange.h:434-448 | Asking for no more keeps the place in line; any other replace goes behind all resting orders if and only if it names no sequence number or one above all of theirs |
| `SimulexExamples.OldSequenceJumpsTheLine` | native/simulex-cpp/src/SimulexExchange.h:68-74 | A run of two sends, and then a replace with an old sequence number that asks for more and moves ahead of an order it was behind |
| `SimulexRuns.EveryOrderIsInOnePlace` | native/simulex-cpp/src/SimulexExchange.h:249-320 | Over any run that never sends under the id of a resting order, reused ids included, each acceptance of an id is in one place: resting with one queue entry, in flight, or ended with one terminal report |
| `SimulexRuns.FreshOrdersEndOnce` | native/simulex-cpp/src/SimulexExchange.h:249-320 | If no accepted id is ever sent again, each id is accepted at most once and gets at most one terminal report |
| `SimulexRuns.RunKeeps` | native/simulex-cpp/src/SimulexExchange.h:395-411 | Over any run queues, counts and priorities agree at the end if and only if no order was sent under the id of one that rested at that moment |
| `SimulexRuns.StepLoses` | native/simulex-cpp/src/SimulexExchange.h:105-111 | An acceptance is lost exactly by sending under the id of a resting order, and no command brings it back |
| `SimulexExamples.TakenIdIsLost` | native/simulex-cpp/src/SimulexExchange.h:105-111 | The same order sent twice is accepted twice, and one of the two is nowhere |
| `SimulexRuns.OneEntryEach` | native/simulex-cpp/src/SimulexExchange.h:80-111 | A resting order has exactly one entry in all price queues, at its side and price |
| `SimulexRuns.FilingNeedsAFreeId` | native/simulex-cpp/src/SimulexExchange.h:105-111 | Resting an order keeps the queues right if and only if nothing rests under its id |
| `SimulexRuns.StepKeeps` | native/simulex-cpp/src/SimulexExchange.h:375-456 | A command keeps queues, counts of reports and priorities in agreement if and only if it does not send under the id of a resting order |
| `SimulexRuns.InFlightIsCommitted` | native/simulex-cpp/src/SimulexExchange.h:413-428 | Cancelling or replacing an order in flight changes nothing and reports nothing |
| `SimulexFills.PassIsExact` | native/simulex-cpp/src/SimulexExchange.h:272-297 | A pass sends off exactly the visited resting orders that the market would fill, in the order of the visit |
| `SimulexFills.PassGoesByPriority` | native/simulex-cpp/src/SimulexExchange.h:278-296 | The orders that one pass sends off leave by priority, and every fillable one leaves |
| `SimulexFills.NothingFillableIsLeft` | native/simulex-cpp/src/SimulexExchange.h:272-297 | Over any run, fresh ids or not, no order is left resting that the current books or the last trade would fill |
| `SimulexFills.NothingFillableFromStart` | native/simulex-cpp/src/SimulexExchange.h:272-297 | The same from a new simulator |
| `SimulexMarket.PassFillsTheFillable` | native/simulex-cpp/src/SimulexExchange.h:227-297 | A pass sends off a resting order exactly when the market gives a price that the order takes: a market order any, a limit order one no worse than its price, a sniper one no worse than its target; the books go before the last trade |
| `SimulexMarket.RestersTakeNothing` | native/simulex-cpp/src/SimulexExchange.h:227-297 | In every reachable state what rests is no market order, and every price the market gives, by its books or a finite last trade, is above what a resting buyer takes and below what a seller takes |
| `SimulexMarket.OutrightPriceIsBest` | native/simulex-cpp/src/SimulexExchange.h:128-159 | The books give an outright order a price exactly when the side that it takes from holds enough, and that price is the best average for its size |
| `SimulexMarket.SpreadPriceIsBest` | native/simulex-cpp/src/SimulexExchange.h:161-225 | The books give a spread a price exactly when both legs hold enough, and it is the best average of the left leg less the multiplier times that of the right leg, taken from opposite sides |
| `SimulexMarket.LandersAreFilled` | native/simulex-cpp/src/SimulexExchange.h:299-320 | A market update or clock step fills exactly the flights whose latency has passed and that have a price, which is that of the books for those that the books set off, and else a last trade that they take; one report each, field by field |
| `SimulexMarket.SendDoes` | native/simulex-cpp/src/SimulexExchange.h:395-411 | A valid send is accepted whole with one report, under the number it asks for or the next, and then rests or is sent off, as is every other resting order |
| `SimulexMarket.FirstReport` | native/simulex-cpp/src/SimulexExchange.h:57-66 | A new simulator numbers its first report 5000001 and its first order 1 |
| `SimulexMarket.InvalidSend` | native/simulex-cpp/src/SimulexExchange.h:396-407 | A send without id, symbol or positive quantity leaves one rejection and nothing else |
| `SimulexMarket.ReplaceDoes` | native/simulex-cpp/src/SimulexExchange.h:424-456 | A replace changes quantity and price as it asks and nothing else of the request, reports it, and then the order rests or is sent off |
| `SimulexMarket.UnknownReplace` | native/simulex-cpp/src/SimulexExchange.h:425-428 | A replace of an id that does not rest changes nothing |
| `SimulexMarket.CancelDoes` | native/simulex-cpp/src/SimulexExchange.h:413-422 | A cancel takes the order away with one report; of an id that does not rest it does nothing |
| `SimulexMarket.UpdateDoes` | native/simulex-cpp/src/SimulexExchange.h:383-388 | A market update looks at every resting order with the new book and time |
| `SimulexMarket.ClockDoes` | native/simulex-cpp/src/SimulexExchange.h:375-393 | Which book, time and latency each command leaves; the clock is turned back only by a market update |
| `SimulexFills.FillsAreExact` | native/simulex-cpp/src/SimulexExchange.h:299-320 | A market update or a clock step fills exactly the flights whose latency has passed and that have a price, each once, whole and in their order, and keeps the others in theirs |
| `SimulexFills.EveryFillIsLate` | native/simulex-cpp/src/SimulexExchange.h:302-305 | Over any run that never lowers the latency below L, every fill comes at least L after its trigger |
| `SimulexFills.StepStaysPositive` | native/simulex-cpp/src/SimulexExchange.h:434-443 | From orders that are all for something, a step leaves one that is not if and only if it replaces a resting quantity by zero or less |
| `SimulexExamples.ReplacedByNothing` | native/simulex-cpp/src/SimulexExchange.h:434-443 | A concrete replace to zero that leaves an order for nothing |
| `SimulexFills.LegsAddUp` | native/simulex-cpp/src/SimulexExchange.h:340-372 | The legs of any spread fill trade its ratios on opposite sides, and their prices make up the reported price if and only if: both books still hold enough and the fill came from them or the last trade equals what they give; or they do not, and the last trade equals the difference of the leg prices at the trigger, a zero one replaced by the best price there is |
| `SimulexFills.OutrightHasOneLeg` | native/simulex-cpp/src/SimulexExchange.h:363-370 | An outright fill has one leg: its symbol, side, price and size |
| `SimulexFills.LegsAtTheTrigger` | native/simulex-cpp/src/SimulexExchange.h:253-265 | A spread is sent off with the averages of both legs, else with the best price of each side that they take from, else with zeros |
| `SimulexFills.BookFlightsAddUp` | native/simulex-cpp/src/SimulexExchange.h:249-320 | In every run the leg prices of a flight that the books set off make up its trigger price; so, unless one is zero, its fill is at the price of its legs if and only if both books can still fill them or the last trade is at the trigger price |
| `SimulexExamples.ThinBooksPartTheLegs` | native/simulex-cpp/src/SimulexExchange.h:307-372 | A run in which a spread is set off at 4 less 3, loses its left book, and is filled at the half that it last traded at with legs of 4 and 3 |
| `SimulexEngine.SimulexExchange.constructor` | native/simulex-cpp/src/SimulexExchange.h:51-66 | A new simulator with empty maps, its first sequence numbers, time zero and the default latency |
| `SimulexEngine.SimulexExchange.TakePriority` | native/simulex-cpp/src/SimulexExchange.h:68-74 | A requested number is used and remembered, else the next one |
| `SimulexEngine.SimulexExchange.EraseFromPriceQueue` | native/simulex-cpp/src/SimulexExchange.h:86-103 | The id leaves the queue of its price, and the price if it was the last |
| `SimulexEngine.SimulexExchange.PushBack` | native/simulex-cpp/src/SimulexExchange.h:80-84 | The id joins the back of the queue at its price |
| `SimulexEngine.SimulexExchange.EmitStatus` | native/simulex-cpp/src/SimulexExchange.h:113-126 | One report with the next exchange order number |
| `SimulexEngine.SortedIds` | native/simulex-cpp/src/SimulexExchange.h:273-280 | All resting ids, each once, by priority |
| `SimulexEngine.RemoveId` | native/simulex-cpp/src/SimulexExchange.h:93 | All occurrences of an id leave a queue, the others keep their order |
| `SimulexEngine.SimulexExchange.LegsOf` | native/simulex-cpp/src/SimulexExchange.h:340-372 | The legs at the swept price, else that of the trigger, else the best one, for the ratio times the size; a single leg for an outright |
| `SimulexEngine.SimulexExchange.ReportFill` | native/simulex-cpp/src/SimulexExchange.h:322-372 | One fill report of a whole flight with its legs |
| `SimulexEngine.SimulexExchange.SetLatency` | native/simulex-cpp/src/SimulexExchange.h:375-377 | The latency from now on |
| `SimulexEngine.SimulexExchange.Rest` | native/simulex-cpp/src/SimulexExchange.h:105-111 | Exactly the resting step with its report |
| `SimulexEngine.SimulexExchange.SweepLegs` | native/simulex-cpp/src/SimulexExchange.h:161-183 | Both legs swept for ratio times size, if both books hold enough |
| `SimulexEngine.SimulexExchange.PriceNow` | native/simulex-cpp/src/SimulexExchange.h:210-225 | The price of an order from sweeping the books, leg by leg for a spread |
| `SimulexEngine.SimulexExchange.TakeOff` | native/simulex-cpp/src/SimulexExchange.h:249-265 | The flight carries trigger price and time, and for a spread the leg prices: swept, else the best ones, else zero |
| `SimulexEngine.SimulexExchange.Trigger` | native/simulex-cpp/src/SimulexExchange.h:249-270 | The order leaves the queues and is put in flight with trigger price and time and the prices of its legs |
| `SimulexEngine.SimulexExchange.ProcessRestingOrders` | native/simulex-cpp/src/SimulexExchange.h:272-297 | One pass over the resting orders by priority |
| `SimulexEngine.SimulexExchange.ProcessFlights` | native/simulex-cpp/src/SimulexExchange.h:299-320 | The erasing loop over the flights does exactly one landing pass |
| `SimulexEngine.SimulexExchange.ActualPrice` | native/simulex-cpp/src/SimulexExchange.h:307-312 | The price at which a flight is filled: the sweep, or the last trade where the source falls back to it |
| `SimulexEngine.SimulexExchange.SendOrder` | native/simulex-cpp/src/SimulexExchange.h:395-411 | Exactly the send step, or one rejection of an invalid request |
| `SimulexEngine.SimulexExchange.CancelOrder` | native/simulex-cpp/src/SimulexExchange.h:413-422 | Exactly the cancel step; an unknown id changes nothing |
| `SimulexEngine.SimulexExchange.Amend` | native/simulex-cpp/src/SimulexExchange.h:434-448 | Which quantity, price and priority a replace files |
| `SimulexEngine.SimulexExchange.Refile` | native/simulex-cpp/src/SimulexExchange.h:430-452 | Out of the queues, changed, back into them, reported |
| `SimulexEngine.SimulexExchange.ReplaceOrder` | native/simulex-cpp/src/SimulexExchange.h:424-456 | Exactly the replace step, false for an unknown id |
| `SimulexEngine.SimulexExchange.OnMarketUpdate` | native/simulex-cpp/src/SimulexExchange.h:383-388 | Stores the book and the time, then one pass over each list |
| `SimulexEngine.SimulexExchange.AdvanceTime` | native/simulex-cpp/src/SimulexExchange.h:390-393 | The clock never goes back; then one landing pass |

## Left out

- Machine numbers: prices and money are `real`, quantities, ticks and counters unbounded `int`, so rounding of doubles and overflow of 32 and 64 bit integers are not modelled; `llround` is modelled as rounding half away from zero.
- Prices that are infinite or not a number are modelled where the source checks for them: the order price, the regression closes, the last trade of the simulator; elsewhere prices are finite.
- Metadata, timestamps, the wall clock and log or journal text: they are dropped or, in FIX messages, passed in as text; so are printed prices.
- Shared order objects: orders are values. The matching loops work on a queue and write it back when they leave it, and the list iterator of the index is the sequence number stamped on the order; order objects that outlive their queue are not modelled.
- ExchangeEngine.DeterministicExchange.RemoveRegistered: the branches for an index entry without book, level or product are not there, because no reachable state has one.
- Registration while orders rest, and `register_products` with a tick size that is not positive, which the source does not refuse: tick sizes are positive and fixed during a run.
- `working_orders` sorted by timestamp, the list of the last fifty messages, and all JSON building and text search.
- Thread interleaving in the FIX engine: the session has no lock, and the model takes its calls one after another.
- FixMessage.BuildThenParse: a value that holds the delimiter is written as it is and reads back as several fields; FIX does not allow one, and what becomes of such messages is stated only for a single delimiter that got into a value (`FixIntegrity.ValueErrorIsCaught`). The same holds for `FixFraming.BuildFrameParse`, `FixSession.WireIsNumbered` and what builds on them.
- FixIntegrity.SingleByteErrorIsCaught: messages of 64 fields or more, whose trailer the parser never reads (`FixIntegrity.UncheckedExactlyWithoutTrailer`), have no checksum to be protected by.
- FixBuffers.FixMessageBuilder.Add: a call after the length has passed the end of the buffer is not modelled, because the source then computes a pointer outside it; the same holds for `FixBuffers.FixMessageBuilder.AddInt`.
- FixBuffers.FixMessageBuilder.Finalize: header and fields are required to fit the body buffer; beyond that the source copies past its end, and nothing is defined (`FixBuffers.FitsIsEnough` gives the exact bound).
- FixSession.FixSession.WriteFields: requires the fields to stay below the buffer size, for the same reason.
- FixSession.FixSession.Send: requires the same bound, and with it `FixSession.FixSession.SendHeartbeat`, `FixSession.FixSession.Perform` and `FixSession.FixSession.OnMessageReceived`; what a session does once it has run past its buffers is not modelled.
- RegressionStudy.CalculateRegressionStudy: the square root is a parameter with its defining property, because `real` has none; the cache and the fetching of bars are not there.
- BarAggregation.SortByTime: stands for the library sort by a contract that leaves ties open; its loop is not the library's.
- SimulexEngine.SimulexExchange.RegisterSpread: spreads are registered before a run; a spread registered while orders rest is looked at only by the next pass.
- A simulator without a listener, which reports nothing and draws no exchange order numbers.
- Depth sides hold as many levels as they say; a level count beyond the array is not modelled.
- The second ledger in `native/simulex-cpp/src/server.cpp`, `PriceIndexMap.h`, `Mdp3SbeParser.h`, `fix_sim.hpp` and the host supervisor: duplicates or easy next to what is here.
- HTTP routes, sockets, Aeron transport, Databento clients, alerts, services and the terminal: plumbing and user interface.
