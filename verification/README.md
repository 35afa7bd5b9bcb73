# A verified model of the CheetahExchange trading pipeline

CheetahExchange is driven by one numbered log. The matching engine turns orders into logs; a
level-2 replica, the clients it feeds and the settlement ledger rebuild everything else from those
logs. This project models the four state machines and proves that they agree.

Each component exists twice: as functions on values, about which the theorems are proved, and, where
the original updates objects in place, as a class whose methods are proved to compute exactly those
functions.

| file | component |
|---|---|
| Exchange, Sums, Tables | shared vocabulary; sums over maps and lists; queries on tables |
| Windows, Depths, OrderBook | the id window over its byte bitmap, one side of the book, the order book, as classes |
| Matcher, Snapshots | the book, its operations and its snapshots as functions |
| Invariants, Runs, Lifecycle, Trades | what every run keeps: never crossed, gap-free, each order's life, true trades |
| Outcomes, LogTruth | what one order does and what its logs say, in plain integers: queues in order, the best taken first, cancels, ids, done reasons |
| Arrivals, Strays | orders the engine passes by or is brought again; orders of no known side |
| Priority, Division, Overdrafts | price-time priority, rounded division, and how far it can overdraw a market buy |
| TimeInForce, Probes | IOC, GTX and FOK, market orders included |
| LogReader, Engine, Recovery, EngineLimits, EngineLoops | the engine's loops as one protocol, crashes and recovery, and where recovery promises less |
| Replica, Agreement, PushingBook | the level-2 book rebuilt from the log |
| ClientFeed | snapshots and deltas over a lossy feed |
| Fills, Ledger, Placement, OrderService | from logs to fills, bills and balances |
| LedgerRuns, Conservation, Holds, Completeness, Shortfall | what every interleaving of settlements keeps, and a hold that ends negative |
| Credits, Batches | who is paid what, by user and currency, and how far one call settles |
| EndToEnd | engine, store and reader together with replica and client, and with the ledger |

## Reading the model

Decimals are exact scaled integers. A size counts units of 10^-BaseScale, a price units of
10^-QuoteScale, a value units of 10^-(BaseScale + QuoteScale); money in the ledger counts units of
10^-16 of a size or of a value, so fees are exact. The one division (how much the funds of a market
buy afford) is modelled as the decimal library does it: rounded half away from zero at sixteen
places, then truncated to the product's base scale. `ExactPrice` is the exact condition on a price
under which that equals floor division for all funds; elsewhere a market buy can be overdrawn by at
most half a last place of the price. `SafePrice` is the exact condition under which an overdrawn
market buy then stops instead of selling back: it holds of every price unless the product's sizes
have all sixteen places. Theorems about whole runs ask only the second of the run's limit prices,
and the first only where they say that a market buy stays within its funds.

`DistinctNew` says that each id arrives at most once as a new order; cancel requests may repeat it.
`Redelivered`, which is all the replica's theorems ask, lets the same order arrive any number of
times. `WellFormed` is what the engine is built for: placement guarantees all of it but the side.
The maps of the original are iterated in an arbitrary order wherever the order could matter:
a snapshot may list its orders in any order.

The engine is a machine over events: any list of events is a run, and an event that is not enabled
does nothing. A restart is one of the events. The ledger is a machine over transactions in the same
way. A run of either may interleave its loops in any order.

## Where the code does less than it says

Each of these is proved, all but the last as an exact condition, most with a concrete example.

- Nothing checks the side of an order. One that is neither buy nor sell is placed with a hold of the
  base currency (`PlacedIsFitIff`), and stops the engine where it looks for a depth of that side, again
  after every restart (`StrayKillsIff`, `StrayIsPlacedAndKills`, `KillerReturns`).
- An order whose cancel came first, or whose id a later one has left behind, is passed by without a
  log, and keeps its hold for good (`NeverLoggedIff`, `SilentOrderKeepsItsHold`).
- The window of 10000 ids forgives no more than reordering within a millisecond: an order that arrives after
  one of its table made in a later millisecond is refused (`LaterMillisecondShutsOut`).
- A GTX sell is checked against the lowest bid, so it can trade (`GtxTradesIff`, `GtxSellCanTrade`).
- A GTX market buy is nullified for an ask of which its funds afford nothing
  (`NullifiedGtxWouldTradeIff`, `GtxCanNullifyInVain`).
- A market FOK order always passes its probe (`MarketFokSellIff`, `MarketFokCanTradeInPart`,
  `MarketFokBuyIff`, `MarketFokBuyCanSpendInPart`).
- At high prices a rounded quotient affords more than the funds pay for (`ExactPriceIff`,
  `TradeStaysWithinFundsIff`, `RoundingCanOverspend`, `MarketBuyCanOverdraw`); on a product of sixteen
  places an overdrawn market buy can then trade a negative size (`TradesAreTrueIffSafe`).
- A snapshot can be approved while its last logs are only buffered (`ApprovalCanOutrunTheStore`);
  a crash then loses them (`CrashVerdictIff`). Comparing with the last flushed log instead would be
  enough (`StoredApprovalsMakeCrashesHarmless`).
- The committer takes its start from the book when its goroutine first runs
  (`LateStartKeepsAllIff`).
- A snapshot shares its id windows with the running book (`LiveSnapshotReplaysIff`).
- An order delivered again is harmless (`RepeatIsHarmless`, `ReplicaAgrees`), but not one that comes
  back under a resting id with other terms: nullified, it ends that id in the replica alone
  (`NullifyAgreesIff`, `ChangedTermsPartTheReplica`).
- Changes waiting when a client's request is handled are sent after its snapshot. The client is on a
  true book at once, and again after its next changes iff each stale one is made good by a newer one
  at its price or says what the book says (`FlushIsExactIff`, `ClientShowsTrueBooksIff`,
  `RequestOverWaitingChangeMixes`).
- Both fills of a match carry the side opposite to their order's, which settlement never reads
  (`FillSidesAreSwapped`, `SideIsNotRead`).

## Model

| member | source | states |
|---|---|---|
| Windows.Window.Put | matching/window.go:104-127 | A value is accepted iff it was never accepted and no accepted value is a whole window ahead of it; slides longer than the window included; an accepted value is remembered for good |
| Windows.Window.MinIsTheBound | matching/window.go:104-107 | The test against `Min` is the test against the largest accepted value, whatever bits are set |
| Windows.Window.Slide | matching/window.go:108-120 | Moving the window past a value leaves exactly the accepted values of the new range marked |
| Windows.Window.Contains | matching/window.go:129-134 | True exactly for accepted values still in the window |
| Windows.Window.Get | matching/window.go:29-45 | Reads one bit of the byte slice |
| Windows.Window.Set | matching/window.go:33-52 | Writes one bit and leaves every other bit of the slice alone |
| Windows.Window.constructor | matching/window.go:95-102 | A new window has accepted nothing and starts at its lower bound |
| Depths.BeforeIsAStrictOrder | matching/order_book.go:408-440 | Both comparators are strict total orders on (price, id) keys |
| Depths.AddKeepsCoupling | matching/order_book.go:360-363 | Adding an order keeps one queue key per id iff its id is new or keeps its price |
| Depths.DecreaseKeepsCoupling | matching/order_book.go:365-382 | Shrinking an order, or deleting it at zero, keeps one queue key per id |
| Depths.Depth.AddNew | matching/order_book.go:360-363 | An order of a new id is inserted in queue order and nothing else moves |
| Depths.Depth.Add | matching/order_book.go:360-363 | Map and queue after an add, overwriting included |
| Depths.Depth.DecrSize | matching/order_book.go:365-382 | Fails without change for an unknown id or too large a size; otherwise shrinks that order alone and removes it when empty |
| Depths.SortedIsUnique | matching/order_book.go:351-358 | The queue is determined by the set of its orders |
| Depths.DecreaseUndoesInsert | matching/order_book.go:360-382 | Taking a newly added order out restores the queue |
| OrderBooks.OrderBook.ApplyOrder | matching/order_book.go:192-270 | The loop that mutates depths, counters and windows does what the recursive matcher says, logs included |
| OrderBooks.OrderBook.MatchTaker | matching/order_book.go:205-244 | Iterating the queue while deleting makers from it matches as on the untouched queue |
| OrderBooks.OrderBook.SettleTaker | matching/order_book.go:246-267 | An unfilled limit order rests without overwriting any order; anything else is done with the right reason and remainder |
| OrderBooks.OrderBook.CancelOrder | matching/order_book.go:272-290 | Takes the order out of its side and logs exactly what it had left; nothing for an unknown id; the id is used up either way |
| OrderBooks.OrderBook.NullifyOrder | matching/order_book.go:292-299 | Logs the order as cancelled whatever the window says, and leaves both queues alone |
| OrderBooks.OrderBook.IsOrderWillNotMatch | matching/order_book.go:133-154 | The probe looks at the first ask for a buy and at the last bid for a sell |
| OrderBooks.OrderBook.IsOrderWillFullMatch | matching/order_book.go:156-190 | The dry run changes nothing and answers what the recursive dry run answers |
| OrderBooks.OrderBook.PutId | matching/order_book.go:193-199 | The window of an id's shard decides for all ids ever accepted |
| OrderBooks.OrderBook.Snapshot | matching/order_book.go:301-320 | Lists every resting order once, the counters as they are, and the live windows |
| OrderBooks.OrderBook.Restore | matching/order_book.go:322-339 | Rebuilds both depths from the list; fresh windows only if the snapshot has not one per shard |
| OrderBooks.FreshIdsDoNotRest | matching/order_book.go:193-199 | An id the windows still accept rests on neither side, so adding its order overwrites nothing |
| Snapshots.RestoreUndoesSnapshot | matching/order_book.go:301-339 | Restoring a frozen snapshot gives back the same book, however its orders are listed |
| Invariants.MatchKeepsGood | matching/order_book.go:205-244 | Matching leaves the maker queue in order with no empty order |
| Invariants.MatchUncrosses | matching/order_book.go:205-244 | A limit taker with size left crosses no maker that is left |
| Invariants.ApplyKeepsInvariant | matching/order_book.go:192-270 | An applied order leaves the book uncrossed, sorted, alive and within the accepted ids |
| Invariants.CancelKeepsInvariant | matching/order_book.go:272-290 | So does a cancelled one |
| Invariants.StepKeepsInvariant | matching/engine.go:115-145 | So does every order in every time-in-force mode |
| Outcomes.CancelTakesOut | matching/order_book.go:272-290 | After a cancel request no order of its id rests on its side; if one did, the one log says it is cancelled with all its size; if none did there is no log; every other order stays as it is |
| Outcomes.AppliedLimitRestsOrEnds | matching/order_book.go:246-267 | An applied limit order rests with exactly what it has not traded and says open, or has traded all and says filled |
| Outcomes.NullifiedPlainly | matching/order_book.go:292-299 | A nullified order writes one log cancelling all of it and moves no resting order |
| Outcomes.AdmissiblePlainly | matching/order_book.go:193-199 | An id is taken iff it was not taken before and no id of its table is taken that is 10000 or more ahead |
| Outcomes.ShardIsTheUsersTable | models/mysql/order_store.go:11-17 | The window an id is looked up in is that of its user's table |
| Outcomes.TablesDoNotInterfere | service/order_service.go:21-32 | Ids of users of different tables never refuse one another, whatever their times and steps |
| Outcomes.LaterMillisecondShutsOut | matching/window.go:104-107 | Of the ids placement makes for one table, those made in the latest millisecond accepted so far or after it are accepted when new, and every earlier one is refused |
| Outcomes.StepTakesId | matching/order_book.go:192-299 | Every order of a known time in force and every cancel request uses up its id if it was still to be had |
| Runs.NeverCrossed | matching/engine.go:115-145 | After any run every bid is priced below every ask, sizes and prices are positive, and no resting id would be accepted again |
| Runs.RunIsGapFree | matching/order_book.go:341-349 | Over any run log and trade sequences go up by one without a gap, and the book's counters are their lengths |
| Runs.RunSplits | matching/engine.go:109-150 | Feeding orders in two pieces gives the book and the log of feeding them at once |
| Outcomes.QueuesAreInOrder | matching/order_book.go:408-440 | After any run each bid is priced above the next, or equally and with a smaller id; each ask below the next, or equally and with a smaller id |
| Priority.PriorityFillIsUnique | matching/order_book.go:205-244 | There is only one way to fill a taker by price-time priority, at any prices |
| Priority.MatchFollowsPriority | matching/order_book.go:192-270 | At any safe prices the matching loop takes it: a prefix of the queue, all but the last emptied, every trade at the maker's crossing price, no unit left that could be paid for, the rest unchanged |
| Priority.TradeSizeIsMaximal | matching/order_book.go:102-131 | At any price one trade takes as much as the maker has and the taker can pay for, the rounding of a market buy's quotient included, and no less |
| Outcomes.StepTakesBest | matching/order_book.go:205-244 | Every maker an order trades with is better priced than every order left on that side, or equally priced with no larger an id |
| Division.RoundedThenCut | matching/order_book.go:114-118 | Rounding at sixteen places then truncating is floor division, plus one exactly when the remainder is within half a last place of a unit |
| Division.ExactPriceIff | matching/order_book.go:114-118 | It is floor division for all funds iff the price is below 2*10^(16-BaseScale) |
| Division.TradeStaysWithinFundsIff | matching/order_book.go:102-131 | A market buy's trade stays within its funds iff the quotient is not rounded up a unit too far or the maker has no such unit |
| Division.RoundingCanOverspend | matching/order_book.go:114-118 | Above that it can afford a unit the funds do not pay for |
| Overdrafts.TradeOwesLittle | matching/order_book.go:102-131 | One trade of a funded market buy has no negative size and leaves it short of at most half a last place of the price |
| Overdrafts.OverdrawnBuysNothing | matching/order_book.go:114-124 | So overdrawn, it affords nothing more at a safe price |
| Overdrafts.UnsafePriceSellsBack | matching/order_book.go:114-124 | At any other price half the price buys a unit and the half it then owes buys minus one |
| Overdrafts.MatchStaysSolid | matching/order_book.go:205-244 | Over a whole match every trade has a positive size, and a market buy ends short of at most half a last place of the dearest inexact price |
| TimeInForces.DryRunIsTheRealRun | matching/order_book.go:156-190 | The dry run, which shrinks no maker, ends with the taker the real run ends with |
| TimeInForces.FokProbeIsExact | matching/order_book.go:156-190 | For a fresh limit order the probe says yes iff applying it trades its whole size, iff nothing of it rests |
| TimeInForces.FokIsAllOrNothing | matching/engine.go:132-138 | A limit FOK order trades all of its size or none |
| TimeInForces.MarketFokSellIff | matching/engine.go:132-138 | A market FOK sell trades what the bids hold of its size; all or nothing iff they are empty or hold all of it |
| TimeInForces.MarketFokCanTradeInPart | matching/engine.go:132-138 | A market FOK sell that trades half of its size |
| Probes.MarketFokBuyIff | matching/engine.go:132-138 | At safe prices a market FOK buy spends nothing iff it affords nothing of the first ask, and exactly its funds iff the price of the ask at which the running cost reaches them divides what is left; at exact prices never more |
| Probes.MarketFokBuyCanSpendInPart | matching/engine.go:132-138 | A placed market FOK buy that spends part of its funds |
| TimeInForces.LimitTradesIffBestCrosses | matching/order_book.go:205-211 | A fresh limit order trades iff the best opposite order crosses it |
| Probes.AppliedTradesIff | matching/order_book.go:192-211 | A fresh order of any type trades iff the best opposite order crosses it and, for a market buy, its funds afford some of it |
| Probes.NullifiedGtxWouldTradeIff | matching/engine.go:125-131 | A nullified GTX order of any type would have traded iff it is a limit order, a sell, or a market buy whose funds afford some of the first ask |
| Probes.GtxCanNullifyInVain | matching/order_book.go:133-154 | A placed market GTX buy that is nullified and would not have traded |
| Probes.GtxTradesIff | matching/order_book.go:133-154 | A GTX order of any type trades iff it is a sell priced above the lowest bid and not above the highest; no buy and no market order does |
| Probes.GtxSellCanTrade | matching/order_book.go:148-151 | A GTX sell that trades |
| TimeInForces.IocTakesAsGtcAndNeverRests | matching/engine.go:117-124 | An IOC order takes from the other side what GTC would, leaves its own side as it was, and logs its rest as cancelled |
| Lifecycle.MarketBuyKeepsItsBudget | matching/order_book.go:114-127 | The value of a market buy's trades and its remaining funds are its initial funds; the funds never go negative at exact prices, and by at most half a last place of the dearest elsewhere |
| Lifecycle.StepCarries | matching/engine.go:115-145 | Every order a step does not bring keeps its account, and its logs follow its place in the book |
| Lifecycle.EveryOrderLives | matching/order_book.go:192-299 | Over any run with distinct new ids an order's logs follow its place in the book, its trades stay within its size, or within its funds but for that half place, and what rests is the order itself but for its size |
| Lifecycle.LogsAreInForm | matching/order_book.go:192-299 | An id's logs are matches as taker, then done or open, then matches as maker and at most one done for exactly what is left; nothing follows done; open iff resting |
| Lifecycle.LimitSizeIsConserved | matching/order_book.go:192-299 | A limit order's size is the sum of its match sizes and of what it rests or is done with |
| LogTruth.DoneSaysFilledIff | matching/order_book.go:246-267 | Over any run a done log says filled iff its order traded all its size or, a market buy, has no funds left, and cancelled otherwise |
| LogTruth.LogsDescribeOrders | matching/log.go:14-110 | Users, times in force, sides and prices in every log are those of the orders brought; a match is on the maker's side at the maker's price |
| Arrivals.NeverLoggedIff | matching/engine.go:115-145 | Nothing is ever logged of an order iff its time in force is unknown, or its id was refused on arrival and no probe nullified it |
| Arrivals.RepeatIsHarmless | matching/order_book.go:192-199 | An order arriving again does nothing if it rests, and otherwise writes at most one more done log |
| Arrivals.EveryOrderLivesAgain | matching/order_book.go:192-299 | Over any run that brings every order any number of times its logs, those done logs apart, follow its place in the book and keep its account |
| Strays.SidedNeverKills | matching/order_book.go:102-131 | No order of a known side meets a depth that is not there or a side its type has no trade for |
| Strays.StrayKillsIff | matching/order_book.go:248-280 | An order of neither side stops the engine exactly as a cancel or an IOC, as GTC when something of it is left to rest or a market order meets a bid, as GTX the same behind its probe, as FOK for a market order over any bid |
| Strays.SurvivedStrayKeepsInvariant | matching/engine.go:115-145 | One that does not stop it leaves the book sorted, alive and uncrossed |
| Strays.StrayIsPlacedAndKills | rest/order_controller.go:67-70 | A request of no known side that is placed with a base hold and stops the engine |
| Strays.KillerReturns | matching/engine.go:71-106 | From whatever snapshot it restarts, the engine comes to the same book before the order and stops at it again |
| Trades.RunTradesAreTrue | matching/order_book.go:220-243 | Every match of a run at safe prices trades a positive size at a positive price, between a maker of the log's side and a taker of the other, both brought by the run |
| Trades.TradesAreTrueIffSafe | matching/order_book.go:102-131 | Safe prices are exactly those at which this holds of every run of placed orders |
| LogReader.ReaderDeliversOnce | matching/kafka_log_reader.go:59-67 | Reading a topic that repeats stretches of one log without skipping ahead delivers each log once, in order, with no gap |
| LogReader.ReadSplits | matching/kafka_log_reader.go:36-67 | A reader may stop and go on from the last sequence it saw |
| LogReader.KafkaLogReader.OnMessage | matching/kafka_log_reader.go:59-67 | Discards what is not newer, stops at a gap unless it has seen nothing, delivers the rest |
| Engines.RestartResumes | matching/engine.go:71-106 | Restoring a snapshot and reading on at the offset after it puts the engine at that point of the crash-free run |
| Engines.CommitKeeps | matching/engine.go:182-209 | The next log is never discarded; what is stored is the stretch flushed; a buffered log always has another coming |
| Engines.NextKeepsRunning | matching/engine.go:88-261 | Every turn of every loop, crashes at any point included, keeps book, channels, buffer and snapshots consistent with the crash-free run |
| Recoveries.PlayIsRunning | matching/engine.go:88-261 | So does every run |
| Recoveries.LifeStoresOn | matching/engine.go:182-202 | Between two crashes the store grows by the stretch of the crash-free log that is flushed |
| Engines.NextKeepsSane | matching/engine.go:88-261 | A turn also keeps the stored log free of gaps and reaching the buffer, if it is no crash that falls short of the persisted snapshot |
| Recoveries.PlayIsSane | matching/engine.go:88-261 | So does every run whose crashes leave the stored log reaching the persisted snapshot |
| Recoveries.RecoveryIsExact | matching/engine.go:71-226 | Over such a run a reader is delivered a prefix of the crash-free log, never meets a gap, misses nothing flushed, and has it all once the engine has run dry |
| Recoveries.ApprovedInOrder | matching/engine.go:204-224 | In every run approved snapshots go forward in offset and log sequence, none past the logs the committer has seen |
| Recoveries.PendingIsStored | matching/engine.go:204-208 | A pending snapshot is approved only with all its logs flushed, and a reader is then delivered all of them |
| Recoveries.PendingWaits | matching/engine.go:204-224 | In every run a snapshot is left pending only while its last log is not flushed |
| Recoveries.FlushedIsApproved | matching/engine.go:182-208 | Once its last log is flushed a pending snapshot is approved in that turn |
| Recoveries.NothingPendingWhenDry | matching/engine.go:182-208 | Once every log is received nothing is pending or buffered, and a hundred logs are never held back |
| Recoveries.RequestIsTaken | matching/engine.go:211-224 | A request for approval is granted at once if its last log has been seen, and otherwise is left pending in place of any other |
| Recoveries.CrashHarmsIff | matching/engine.go:211-216 | Reading a log that resumes at k goes on exactly iff it had reached k; it stops iff it fell short but was not empty; an empty one silently loses the start |
| Recoveries.CrashVerdictIff | matching/engine.go:71-226 | After one more crash of a run, once a log is flushed, a reader goes on exactly iff the crash came when the stored log reached the persisted snapshot, and stops iff it fell short but was not empty |
| Recoveries.StoredApprovalsMakeCrashesHarmless | matching/engine.go:211-216 | If every immediate approval were within the flushed logs, every crash would be harmless |
| Recoveries.RequestsNameThePersisted | matching/engine.go:228-253 | Over any run a snapshot request names the offset of the snapshot persisted when it is made |
| Recoveries.SnapshotIsTakenIff | matching/engine.go:155-171 | It is answered with a snapshot of the current book and offset iff more than 1000 orders have gone by since the offset it names |
| EngineLimits.ApprovalCanOutrunTheStore | matching/engine.go:211-216 | A run without a crash that persists a snapshot whose last log is not stored |
| EngineLimits.LateStartKeepsAllIff | matching/engine.go:175-187 | All logs are kept iff the committer starts before the applier has written any; the others are taken for duplicates |
| EngineLimits.LiveSnapshotReplaysIff | matching/order_book.go:301-339 | Replaying from a snapshot with live windows writes the same logs order by order iff no order in between was freshly applied |
| EngineLoops.Fetcher.constructor | matching/engine.go:88-97 | Reads from the order after the restored offset, or from the head of the topic |
| EngineLoops.Applier.OnOrder | matching/engine.go:112-153 | The dispatch on status and time in force, on the order book class, is the step function for every order that does not stop the process, and never looks for a depth that is not there |
| EngineLoops.Applier.OnSnapshotRequest | matching/engine.go:155-171 | A snapshot is taken iff more than 1000 orders have gone by |
| EngineLoops.CommitterLoop.ReceiveLog | matching/engine.go:182-209 | One log received: buffered or stored with the buffer, and the pending snapshot approved when reached |
| EngineLoops.CommitterLoop.ReceiveApproveRequest | matching/engine.go:211-224 | Approves at once or replaces the pending snapshot |
| EngineLoops.SnapshotLoop.ReceiveSnapshot | matching/engine.go:241-253 | One turn leaves the store and the next request's offset as the protocol's persist step does, whether storing succeeds or not |
| Replica.SaveKeepsAggregated | pushing/order_book.go:64-135 | Saving an order never panics under its own price and side and keeps every level the sum and number of its orders, empty levels absent |
| Agreement.ReplayMirrors | pushing/order_book_stream.go:80-105 | Reading any log in form never panics and keeps exactly the orders the log leaves open |
| Agreement.ReplicaAgrees | pushing/order_book_stream.go:71-112 | A replica of any run, orders delivered any number of times, holds exactly the engine's resting orders, aggregated by price, and has not panicked |
| Agreement.NullifyAgreesIff | matching/order_book.go:292-299 | A nullified id that rests leaves the replica in step iff its size is zero, and panics it iff its size is more than what rests |
| Agreement.ChangedTermsPartTheReplica | matching/order_book.go:292-299 | A run that brings an id as GTC and then as FOK, after which the replica misses a resting order |
| Agreement.ChangeIsTheDifference | pushing/order_book.go:127-134 | Every published change is the exact difference between two views, numbered one up |
| Agreement.DeltasRebuild | pushing/order_book.go:125-153 | The changes after a snapshot rebuild the level map at any later sequence |
| Agreement.ReplayIsHistory | pushing/order_book_stream.go:71-125 | The changes a stream publishes form such a history, ending at the book itself |
| Agreement.RestoreFullUndoesSnapshot | pushing/order_book.go:155-181 | Restoring a full snapshot gives back the book and all its levels, however its orders are listed |
| Agreement.RestartedReplicaAgrees | pushing/order_book_stream.go:37-57 | A replica restarted from a full snapshot and reading on from its position ends with the book of one that never stopped |
| PushingBook.OrderBook.SaveOrder | pushing/order_book.go:64-135 | The mutating save is the save function, its panics included |
| PushingBook.OrderBook.SnapshotFull | pushing/order_book.go:155-170 | Lists every order once with the book's position |
| PushingBook.OrderBook.Restore | pushing/order_book.go:172-181 | Saves every order, then takes the position |
| PushingBook.OrderBookStream.Interpret | pushing/order_book_stream.go:80-105 | Open sets a size, match and done subtract one, anything else is skipped |
| PushingBook.OrderBookStream.OnLog | pushing/order_book_stream.go:77-121 | Level-2 snapshots are of the book as it is and never more than ten changes old |
| ClientFeed.AdvanceIsExact | pushing/client.go:165-233 | One turn keeps what the client shows a true book and what waits the exact way to `lastSeq` |
| ClientFeed.ClientNeverShowsAMixture | pushing/client.go:165-233 | Over any losses and reorderings, requests handled only in that case, the client always shows the book at one exact sequence |
| ClientFeed.ClientNeverGoesBack | pushing/client.go:165-233 | Whatever it is sent, the sequence a client shows never decreases |
| ClientFeed.ViewSurvivesIff | pushing/client.go:172-196 | A view survives changes that led to another iff it already shows the other's sizes at every price they touch |
| ClientFeed.RequestIsExactIff | pushing/client.go:172-196 | After a request what waits still leads from what the client shows to the book at `lastSeq` iff the snapshot shows, at every price with a waiting change, what the book showed there |
| ClientFeed.FlushIsExactIff | pushing/client.go:213-232 | A true book sent stale changes and then the newer ones is the book again iff each stale change is made good by a newer one at its price or says what the book says |
| ClientFeed.ClientShowsTrueBooksIff | pushing/client.go:165-233 | Over any losses, reorderings and requests a client shows nothing but true books iff that is so every time changes are sent |
| ClientFeed.GuardedIsClean | pushing/client.go:165-233 | It is so if every request is guarded |
| ClientFeed.GuardedIfCurrent | pushing/client.go:172-187 | That is so if nothing waits or the snapshot is no newer than `lastSeq` |
| ClientFeed.LossCallsForASnapshot | pushing/client.go:205-212 | A change beyond the next number makes a snapshot due, and one is asked for at once when nothing more waits |
| ClientFeed.StaleIsDropped | pushing/client.go:172-202 | A change already seen, and a request that finds no snapshot new enough, change nothing and ask for nothing |
| ClientFeed.LossIsMadeGood | pushing/client.go:172-212 | After a loss the client shows the first snapshot found that is not older than the change that revealed it, however many turns find none |
| ClientFeed.NextIsShown | pushing/client.go:213-232 | The next change is shown with all that waits once nothing more does or ten have come, and until then it waits |
| ClientFeed.RequestOverWaitingChangeMixes | pushing/client.go:172-196 | A request over a waiting change, of a true history, after which the client shows a book that is none of it |
| ClientFeed.Level2ChangeWriter.OnChange | pushing/client.go:165-233 | One turn of the select loop on the per-product state |
| Fills.FillMaker.OnMatchLog | worker/fill_maker.go:46-71 | A match queues the taker's fill, then the maker's |
| Fills.FillMaker.OnDoneLog | worker/fill_maker.go:77-88 | A done log queues one closing fill |
| Fills.FillMaker.Flush | worker/fill_maker.go:90-111 | Written, batched and queued fills are always those of the logs seen, in order; nothing waits once the queue is empty |
| Placement.RoundedIsNearest | service/order_service.go:61-72 | A rounded amount is the one nearest to what was asked, halves away from zero |
| Placement.TermsMeetTheProduct | service/order_service.go:61-92 | What placement lets through is rounded to the nearest, meets the minimum and the increment, and is priced above zero |
| Placement.TermsFitIff | service/order_service.go:61-100 | The terms are fit for the engine iff there is something to hold |
| Placement.PlacedIsFitIff | service/order_service.go:34-144 | Whatever is placed has fit terms, funds of a market buy in whole quote units and an available hold, in the base currency unless it is a buy; it is fit for the engine iff its side is buy or sell |
| Placement.PlacedIff | service/order_service.go:34-144 | An order is placed iff both fee ratios are in [0, 1), its nearest size or funds meet the minimum, a limit price is positive and a multiple of a positive increment, the amount to hold is positive and available, and its id is new |
| Placement.RefusedIff | service/order_service.go:34-144 | Each error is returned exactly in its own case |
| Placement.PlacedPlainly | service/order_service.go:94-144 | Placing moves the amount from available to hold with a settled bill and adds the row with the rounded terms, and nothing else |
| OrderServices.Store.PlaceOrder | service/order_service.go:34-144 | Every check in turn, the hold and the row; a failure changes nothing |
| OrderServices.Store.HoldBalance | service/account_service.go:77-118 | Moves a positive amount from available to hold with a settled bill, or fails without change |
| OrderServices.Store.ExecuteBill | service/account_service.go:12-75 | Moves the first hundred pending bills of an account into it and marks exactly those |
| OrderServices.Store.SettleTrade | service/order_service.go:192-263 | The row totals and the bills of one trade, the fee bill only for a positive fee |
| OrderServices.Store.SettleDone | service/order_service.go:265-313 | The final status and the refund of what is left |
| OrderServices.Store.ExecuteFill | service/order_service.go:150-332 | Settles the pending fills in turn up to the closing one; any error leaves rows, bills and fills as they were |
| Ledgers.FillReleases | service/order_service.go:192-313 | The holds in a settlement's bills are exactly what the order stops holding |
| Ledgers.FillIsWorthItsNet | service/order_service.go:192-313 | A trade's bills are worth what it moves whatever the fee; a refund is worth nothing |
| Credits.UsersArePaid | service/order_service.go:186-317 | After any transactions what is available to a user with what is on its way is the opening balance, with the earnings of the user's own settled trades less their fees, less what the user's orders keep; the fee account has the fees of all |
| Credits.MatchPays | worker/fill_maker.go:46-71 | The two fills of a match pay the order the log names as taker at its taker ratio and the one it names as maker at its maker ratio |
| Credits.TradersArePaid | service/order_service.go:186-317 | Once every fill of a log is settled everyone has exactly what its matches owe them, fees by role included |
| Credits.FeesAddUp | service/order_service.go:196-210 | The fees of a row are those of its settled trades |
| Batches.BillsGoOn | service/account_service.go:12-75 | One call settles a hundred waiting bills or all that wait, opens a missing account, and touches nothing of any other account |
| Batches.AllIsPaidOut | service/account_service.go:12-75 | With at most a hundred bills waiting, afterwards the account is its opening balance and all its bills, opened before or not |
| Batches.FillsGoOn | service/order_service.go:150-332 | One call settles exactly the waiting fills with fewer than a hundred of their order before them, none of which ends it, and finishes the order iff its end is among them |
| LedgerRuns.SettleFillsSettles | service/order_service.go:186-317 | The same for a list of fills; every bill written credits no negative amount |
| LedgerRuns.PlayKeeps | service/order_service.go:150-332 | Every interleaving of transactions keeps the books |
| LedgerRuns.LedgerBalances | service/account_service.go:12-118 | Balance and pending bills are the opening balance and all bills; nothing available is negative; hold and pending holds are what the orders have not released |
| Conservation.MatchConserves | service/order_service.go:192-263 | Settling both sides of one match moves nothing in or out of any currency, fee account included |
| Conservation.TradesConserve | worker/fill_maker.go:46-88 | So do all settlements of any batching and interleaving once every match is settled on both sides or on neither |
| Holds.LifeTotals | worker/fill_maker.go:46-88 | The fills of an order add up to what the log says it traded |
| Holds.RowsAddUp | service/order_service.go:192-200 | A row is at all times the sum of its settled fills |
| Holds.TradesWithinOrder | matching/order_book.go:102-131 | The fills of a limit order or a market sell stay within its funds or its size, at any prices |
| Holds.MarketBuyOwesLittle | matching/order_book.go:102-131 | Those of a market buy exceed its funds by at most half a last place of the dearest inexact price |
| Holds.HoldsClose | service/order_service.go:61-317 | Over placement, matching and settlement at safe prices: for limit orders and sells, and at exact prices for market buys, the executed never exceeds the held, the hold left is never negative, and it is exactly nothing once the closing fill is settled; any other market buy exceeds its hold by at most that half place |
| Shortfalls.MarketBuyCanOverdraw | service/order_service.go:278-290 | Two placed orders, their run and their settlement, after which a market buy's hold is negative |
| Holds.AccountsHoldOpenOrders | service/account_service.go:12-118 | An account's hold with its pending holds is what its unfinished orders have left of theirs, less overdrafts, of which there are none without market buys or at exact prices |
| Holds.MoneyIsConserved | service/order_service.go:150-332 | Over any run of the engine at safe prices all bills sum to zero in every currency once matches are settled on both sides or on neither |
| Holds.FillSidesAreSwapped | worker/fill_maker.go:46-71 | A fill carries the side opposite to its order's |
| Holds.SideIsNotRead | service/order_service.go:186-317 | Settlement does not depend on the side a fill carries |
| Completeness.ClosedByEnd | worker/fill_maker.go:46-88 | An order has a closing fill iff its log has ended it, and no fill of it comes after that |
| Completeness.SettlementIsOrderly | service/order_service.go:174-184 | An order's fills are settled in order, and only its closing fill finishes it |
| Completeness.FinishedIsComplete | service/order_service.go:150-332 | At safe prices a finished row shows exactly the size and value the engine's log says were traded |
| Completeness.FinishedIff | service/order_service.go:150-332 | At safe prices, over any run and any transactions, an order is finished iff the engine's log has ended it and every fill of it is settled |
| Completeness.FinishedSaysHow | service/order_service.go:265-277 | A finished order is filled iff it traded all its size or, a market buy, spent its funds; otherwise cancelled if it traded nothing and partial if it traded something |
| Completeness.SilentOrderKeepsItsHold | service/order_service.go:150-332 | An order of which nothing is logged is never finished and nothing of its hold released |
| EndToEnd.StoredReplicaAgrees | pushing/order_book_stream.go:71-112 | After any events of the engine, crashes included, a replica reading its store has not panicked, and holds exactly the resting orders once the engine has run dry |
| EndToEnd.ClientsShowTheEnginesBook | pushing/client.go:165-233 | What a client of that replica shows, sent no stale change that is neither made good nor true, is the level view at some position of the engine's log |
| EndToEnd.StoredHoldsClose | service/order_service.go:150-332 | After any events of the engine, holds and finished rows of a ledger settling what is read of its store are as over the whole log |
| EndToEnd.StoredMoneyIsConserved | service/order_service.go:150-332 | And its bills sum to zero once every match read is settled on both sides or on neither |

## Left out

- Kafka, Redis, MySQL, JSON, WebSocket and HTTP: topics are lists, the snapshot store is the last snapshot stored, the database is tables updated in atomic transactions; errors of these services and partial writes of one batch are not modelled.
- Log timestamps, product ids on logs, log lines, timers and cadences: a timer is an event that may happen at any time.
- The tree map and the decimal library: a sorted list of keys whose iteration is undisturbed by removing the current entry, and exact scaled integers; rounding to decimal(32,16) columns is not modelled.
- Channel capacities and liveness: channels are unbounded lists, and nothing says that a loop eventually runs.
- Recoveries.RecoveryIsExact: assumes each snapshot frozen at the instant it is taken, the committer's first sequence read before the applier's first step, and crashes only where the stored log reaches the persisted snapshot; EngineLimits and CrashVerdictIff say exactly what happens otherwise.
- Windows.Window.Put: ids close enough to 2^64 for the window's upper bound to wrap around are not admitted as arguments.
- Matcher: order types other than limit and market, which placement refuses.
- Runs: the theorems about whole runs ask that every order has a known side; of the others Strays says which stop the engine and that the rest keep the book's invariant, not what their logs lead to.
- Replays of orders whose terms changed under one id, beyond the example; placement never sends them.
- The part of `calcTradeSize` whose results are discarded by its callers.
- Orders handed to the engine whose size, price and funds placement would not produce.
- Level-2 truncation at 1000 levels and the row order of its arrays: `PushingBook.OrderBook.SnapshotLevel2` returns the whole level maps.
- Losses from publishing are arbitrary drops; the deadlock between a client's two full channels is not modelled.
- ClientFeed.ClientNeverShowsAMixture: holds while requests are guarded; ClientShowsTrueBooksIff is exact whatever the requests.
- Fills.FillMaker.Flush: writing always succeeds in the end, the table's unique index is never hit, and a crash between the two fills of one match is not modelled.
- Several products sharing an account: one ledger models one product's pair of currencies.
- Users, tokens, wallets, deposits, fee-rate lookup, the fee stored on a fill, the notes and types of bills.
- Priority.MatchFollowsPriority: for market buys it asks safe prices, without which the loop can trade a negative size, as Trades.TradesAreTrueIffSafe says.
- Probes.MarketFokBuyIff: asks the same of the asks.
- Outcomes.StepTakesBest: asks it too where the order is a market buy.
- Conservation.TradesConserve: says nothing of the time while only one side of a match is settled.
- Tickers, candles, trades for display and the REST controllers.
