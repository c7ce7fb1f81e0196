# Verification of the trading stack

A Dafny model of the stateful parts of a C++ trading stack for five-minute Up/Down markets, with proofs of
what its design relies on. `dafny verify dfyconfig.toml` checks everything.

## What is modelled

**The paper trader** (`PaperTrading`, `PaperTrader`, `PaperRules`, `PaperLedger`, `PaperEdges`, `PaperExits`,
`PaperCounterexamples`). One consumer thread handles spot ticks, quotes, rollovers and the bootstrap write. `PaperTrading` gives the machine as
a transition function on values; `PaperTrader` is the object with the fields of `PaperState` and the market data,
whose methods change them in place, and every method is proved equal to the transition function. `PaperRules` says
in plain arithmetic over prices, cash and clocks when an order is scheduled and what a fill does, and proves it of that
function. The other modules prove what holds over every run: the trade log is a ledger that replays to the machine's
cash and position, cash never falls below half of the fifth decimal, every BUY goes back to an edge that persisted and
every SELL to a loss or a profit on the position sold, at the bid of its own side, and the risk stop is final. Theoretical prices and clock readings are inputs of each event; prices and cash are reals.

**The volatility window** (`SigmaWindow`, `SigmaRules`). The spot history with its trim, the full-hour gate and the two separately
written two-pointer resamplers, against the plain definition "the last observation at or before each grid time".

**The concurrent queues** (`ThreadPool`, `JsonlWriter`, with `Counting`). Both are step systems: a step is one
critical section, one atomic operation, one notification or one spurious wake-up, and the theorems are about every
interleaving. The classes `Pool` and `AsyncJsonlWriter` hold the real fields and show that each code section
performs exactly its step. Of the writer this includes what becomes of every call: before a stop no row is given up.

**Replay and strike selection** (`Timeline`, `LatencySweep`, `SweepRules`, `Alignment`, `StrikeSelection`,
`StrikeRules`). The latency sweep, what each fill of it earns and costs, and the alignment statistics over a merged
timeline whose sort leaves ties in any order, and the selection of a strike from a 900-entry tick buffer.

**Market discovery, rollover and subscription** (`BucketDiscovery`, `Rollover`, `RolloverLookUps`, `QuoteStream`,
`TokenFeed`, `TokenFeedRules`, `FeedThreads`, `FeedPieces`, `MarketFeed`, `MarketFeedRules`, `Subscription`). Slugs and
their two parsers, down to decimal digits and `std::stoll`; the wall-clock scan; the rollover loops of the three
programs with their prefetch, and from which look-up the tokens of every session come; the two quote feeds with their
de-duplication, one switched from outside, also with its threads interleaved, and one that follows announcements, with
the exact quotes each makes of its messages; and the set of tokens the server sends while switches and reconnections
interleave. HTTP answers are functions from slugs to token ids.

**Live orders** (`Broker`, `BrokerRules`). Reading a buy fill out of a response, and the stop-loss loop that sells until flat. The
broker's answers are inputs.

`Basics` and `Counting` are shared vocabulary.

## What turned out not to hold

Each of these is stated as a lemma, with a run or input that shows it and the condition under which the expected
property does hold.

- Cash can go below zero, to exactly -0.000005 (`PaperCounterexamples.CashCanReachTheBound`); which BUYs overdraw is
  decided by the fraction of the exact fee and the unspent cash (`PaperLedger.BuyOverdrawsIff`).
- A BUY scheduled in one market can be filled in the next, with any positive latency
  (`PaperCounterexamples.BuyCanCrossRollover`): an order survives a rollover exactly if it is a BUY
  (`OrderSurvivesRolloverIff`), and exactly which fills cross is `FillCrossesIff`; without latency no order outlives
  its event (`NoLatencyNoPendingOrder`).
- The full-hour gate does not ask for an hour of history: after the trim it passes exactly when an observation is
  stamped precisely at the window start and has not been trimmed (`SigmaWindow.GateMeansHeadOnStart`, `GateIff`,
  `LongFeedCanFailGate`).
- `wait_idle` can sleep forever (`ThreadPool.WaitIdleCanStrand`), exactly through a notification that falls between
  its read and its blocking (`StrandedIff`). A pool without workers loses its tasks (`NoWorkersLoseTasks`,
  `DestructorFinishesIff`).
- A second `stop_and_flush` can return before everything is written (`JsonlWriter.SecondStopCanReturnEarly`,
  `LaterStopSeesAllIff`).
- The profit of the sweep depends on the order of ties (`LatencySweep.ProfitDependsOnTies`); it is independent of it
  exactly when every trade is safe (`SignalProfitFixedIff`, `ProfitFixedIff`).
- The delay of a trade in the alignment statistics depends on it too (`Alignment.LagDependsOnTies`), unless no quote
  carries the trade's own time (`LagFixedIff`).
- Printing a parsed slug does not give it back unless it is canonical (`BucketDiscovery.SlugOfParseIff`).
- Dropping a stale prefetch does not keep a program out of a finished market (`Rollover.EntersFinishedMarketIff`,
  `EntersFinishedMarketHappens`); the trader can be left with its feeds on two markets (`RunnerHalfSwitchIff`,
  `RunnerHalfSwitchHappens`); with a clock set back the logger returns to an earlier market (`LoggerGoesBackIff`,
  `LoggerCanGoBack`).
- A relabelled feed keeps showing the old label until the price moves (`TokenFeed.LabelLags`, `LabelCurrentIff`).
- An old token can stay subscribed when a connection opens around a switch (`Subscription.OldTokenCanStay`; exactly
  which ones stay: `LeftoversAreLateSnapshots`).
- The callback can get a quote of the old token after `switch_token` has returned (`FeedThreads.StaleCallbackHappens`,
  `StaleCallbackIff`).
- The feed that follows announcements withholds price changes below the sixth decimal
  (`MarketFeed.SmallChangeWithheld`, `QuoteStream.AlwaysExactIff`); what it last delivered is within a millionth
  (`LastDeliveredPrintsAlike`).
- A sale whose second balance query fails is not credited (`Broker.UnreadSaleIsLost`); everything is credited exactly
  under the condition of `FullyCreditedIff`.

Where code and documentation differ the model follows the code: the repository's README.md (lines 59-61) sells on the
mid price and gives a default latency of 100 ms and a fee scale of 0.075, while apps/btc_poly_runner.cpp compares the
bid, and both defaults are the caller's configuration here.

## Model

| member | source | states |
|---|---|---|
| PaperTrader.PaperTrader.constructor | apps/btc_poly_runner.cpp:1387-1409 | A new trader is flat with the initial cash, nothing pending, trading off: the initial state of the machine |
| PaperTrader.PaperTrader.FlatIffEmpty | apps/btc_poly_runner.cpp:1387-1406 | Being flat, zero quantity, zero cost basis and an empty side are one and the same condition |
| PaperTrader.PaperTrader.ArmTimers | apps/btc_poly_runner.cpp:1489-1507 | A timer starts when its edge appears, keeps its start while the edge is seen and is cleared when it is not |
| PaperTrader.PaperTrader.EntryElapsedOk | apps/btc_poly_runner.cpp:1444-1455 | Entries are allowed exactly inside the configured seconds of the bucket |
| PaperTrader.PaperTrader.BuyAskOk | apps/btc_poly_runner.cpp:1479-1483 | An ask is accepted exactly inside the configured range, or from 0.02 on without one |
| PaperTrader.PaperTrader.Schedule | apps/btc_poly_runner.cpp:1457-1553 | The field-updating `schedule` is the scheduling step of the machine and keeps its shape |
| PaperTrader.PaperTrader.ScheduleEntry | apps/btc_poly_runner.cpp:1477-1527 | The entry half: timers, persistence, window, choice of the larger edge, due time |
| PaperTrader.PaperTrader.ScheduleExit | apps/btc_poly_runner.cpp:1530-1552 | The exit half: stop loss before take profit, due after the latency |
| PaperTrader.PaperTrader.ExecuteDue | apps/btc_poly_runner.cpp:1555-2160 | `execute_due` in paper mode is the execution step; its defensive clears (a due BUY while holding, a due SELL while flat) are never entered |
| PaperTrader.PaperTrader.ExecuteBuy | apps/btc_poly_runner.cpp:1603-1847 | A due BUY is re-checked, sized to what the cash affords, capped by the loss limit, filled and logged |
| PaperTrader.PaperTrader.ExecuteSell | apps/btc_poly_runner.cpp:1849-2156 | A due SELL re-checks a take profit, credits the sale, logs it, applies the risk stop and empties the position |
| PaperTrader.PaperTrader.OnHotUpdate | apps/btc_poly_runner.cpp:2162-2263 | A strategy pass schedules and then executes, and only with complete market data |
| PaperTrader.PaperTrader.ForceSell | apps/btc_poly_runner.cpp:2359-2580 | At a rollover an open position is sold at the old market's bid, or dropped when force selling is off |
| PaperTrader.PaperTrader.OnRollover | apps/btc_poly_runner.cpp:2357-2628 | The rollover branch is the rollover step: close, log, reset market data and timers, enable trading |
| PaperTrader.PaperTrader.OnQuote | apps/btc_poly_runner.cpp:2825-2845 | A quote updates its side, adopts an epoch only when there is none, and runs the strategy |
| PaperTrader.PaperTrader.Handle | apps/btc_poly_runner.cpp:2330-2845 | One event of the consumer queue is one step of the machine |
| PaperTrader.Consume | apps/btc_poly_runner.cpp:2330-2845 | The consumer loop fed any run ends in the state the machine reaches by that run |
| PaperRules.StartRule | apps/btc_poly_runner.cpp:1387-1409 | A machine starts flat, with the initial cash, no market, no order, trading off and an empty log |
| PaperRules.FeeRule | apps/btc_poly_runner.cpp:533-540 | The fee is a whole number of hundred-thousandths within half of one of notional x rate x price x (1 - price) |
| PaperRules.SpendRule | apps/btc_poly_runner.cpp:1631-1641 | An order spends the largest amount that is within its target (the fixed amount, else a fraction of the cash and at least a dollar) and, with its exact fee, within the cash |
| PaperRules.ZeroDivisorRule | apps/btc_poly_runner.cpp:1631-1641 | Where the divisor of the affordability cap is zero, it limits nothing for cash and everything for a debt |
| PaperRules.NoScheduleRule | apps/btc_poly_runner.cpp:1457-1463 | Nothing is scheduled and no timer moves while an order is pending or after a risk stop |
| PaperRules.EntryRule | apps/btc_poly_runner.cpp:1470-1527 | A BUY of a side is scheduled exactly if trading is on, the clock is in the window, the edge of the side has lasted and the other side has no larger lasting edge (a tie goes to Up); due after the latency, and nothing but timers changes |
| PaperRules.TimerRule | apps/btc_poly_runner.cpp:1470-1507 | A timer is the time its edge appeared while the edge stays, and cleared without edge or trading |
| PaperRules.ExitRule | apps/btc_poly_runner.cpp:1431-1552 | A stop loss is scheduled exactly if cost less net value reaches the configured part of the cost, a take profit exactly if not and the bid is up to the theoretical price less the allowances |
| PaperRules.DueRule | apps/btc_poly_runner.cpp:1555-1601 | An order waits until it is due and all market data is there, and is then filled or cancelled |
| PaperRules.BuyRule | apps/btc_poly_runner.cpp:1603-1847 | A due BUY is cancelled exactly if its edge or window is gone or it would spend less than a dollar, refused with a risk stop exactly if the equity at the mid would be over the loss limit, and else filled at the ask with the fee on top |
| PaperRules.SellRule | apps/btc_poly_runner.cpp:1849-2156 | A due take profit that is no longer reached is cancelled; else the whole holding is sold at the bid of its own side less the fee, with a risk stop exactly at the loss limit |
| PaperRules.PassRule | apps/btc_poly_runner.cpp:2162-2263 | A pass schedules and then executes, and does nothing while data is missing or trading is off |
| PaperRules.DataRule | apps/btc_poly_runner.cpp:2825-2845 | A quote replaces the book of its own side and no other, and sets a market only if there was none |
| PaperRules.RolloverRule | apps/btc_poly_runner.cpp:2357-2628 | A rollover sells an open position at the old bid of its own side less the fee, or drops it, keeps cash and order of a flat machine, and sets the new market with timers cleared and trading on |
| PaperRules.OtherEventsRule | apps/btc_poly_runner.cpp:2943-2955 | The bootstrap sets market and strike and can turn trading on, never off; an idle event does nothing |
| PaperLedger.StepKeepsShape | apps/btc_poly_runner.cpp:1457-2628 | Every event keeps: pending BUY only while flat, pending SELL only while holding, a held position has positive quantity and cost, a risk stop leaves nothing pending |
| PaperLedger.ReachableShape | apps/btc_poly_runner.cpp:1461-2580 | So this shape holds in every reachable state |
| PaperLedger.StepReconciles | apps/btc_poly_runner.cpp:1767-2607 | Every event appends only rows that agree with the log so far and with the trading rules, and keeps the log replaying to the state |
| PaperLedger.LogReplaysToState | apps/btc_poly_runner.cpp:1767-2607 | In every reachable state each row's cash before is the cash after of the previous trade, its fee and proceeds are those of its prices, and replaying the log gives cash, side, market and quantity |
| PaperLedger.RolloverLeavesFlat | apps/btc_poly_runner.cpp:2357-2607 | After a rollover the machine is flat, the old log is kept and its last row is the rollover with the cash |
| PaperLedger.FeeError | apps/btc_poly_runner.cpp:533-540 | The fee is within 0.000005 of the exact one, the cut-off of tiny fees included |
| PaperLedger.SaleCoversFee | apps/btc_poly_runner.cpp:533-540 | For prices in [0, 1] and rates in [0, 2] the rounded fee of a sale is between zero and its proceeds |
| PaperLedger.BuyRemainder | apps/btc_poly_runner.cpp:1631-1644 | The affordability cap leaves a slack that is never negative; the cash after a BUY is that slack less the rounding of the fee |
| PaperLedger.BuyStaysSolvent | apps/btc_poly_runner.cpp:1631-1767 | A BUY takes the cash at most 0.000005 below zero |
| PaperLedger.RoundingGainExceedsIff | apps/btc_poly_runner.cpp:533-540 | Exactly which exact fees are raised by rounding by more than a given amount |
| PaperLedger.BuyOverdrawsIff | apps/btc_poly_runner.cpp:1631-1767 | It takes the cash below zero exactly when the exact fee, in units of the fifth decimal, has a fraction of at least one half and lies further below its next whole number than the unspent cash reaches; an order of a negative amount, which the code never places, exactly when its fee multiplier is positive |
| PaperLedger.StepStaysSolvent | apps/btc_poly_runner.cpp:1631-2524 | Every event with prices in [0, 1] keeps the cash at or above -0.000005 |
| PaperLedger.NeverInsolvent | apps/btc_poly_runner.cpp:1631-2524 | So does every run from a non-negative initial cash with a fee rate in [0, 2] |
| PaperLedger.RiskStopIsFinal | apps/btc_poly_runner.cpp:1462-2580 | After a risk stop nothing is ever pending, no BUY or SELL row follows, and only the next rollover with an open position changes the cash |
| PaperLedger.WarmUpBucketNotTraded | apps/btc_poly_runner.cpp:1409-2626 | Unless the bootstrap enables trading, every log begins with a rollover row |
| PaperEdges.TimersAlwaysBacked | apps/btc_poly_runner.cpp:1464-1507 | While flat, a running timer is the time of an evaluation that saw the edge, and every evaluation since saw it, with no rollover and no position in between |
| PaperEdges.ScheduledBuyHasPersistentEdge | apps/btc_poly_runner.cpp:1470-1527 | A BUY is scheduled only on a side whose edge was seen at an evaluation at least the persistence interval earlier and at every one since |
| PaperEdges.OrdersAlwaysBacked | apps/btc_poly_runner.cpp:1461-1527 | A pending BUY was scheduled by an event of the run and has been pending ever since |
| PaperEdges.EveryBuyHasPersistentEdge | apps/btc_poly_runner.cpp:1457-1847 | Every BUY row traces back to its scheduling, at least the latency earlier, and from there to a persistent edge |
| PaperExits.SellsAlwaysBacked | apps/btc_poly_runner.cpp:1530-1552 | A pending SELL was scheduled by an event that saw its loss or profit, and order and position are unchanged since |
| PaperExits.EverySaleHasReason | apps/btc_poly_runner.cpp:1530-2156 | Every SELL row is of the whole position at the bid last quoted for its side, and goes back, at least the latency before, to an event that saw its reason on that same position; a take profit is still one at the fill |
| PaperExits.ForcedSaleAtOwnBid | apps/btc_poly_runner.cpp:2359-2580 | Only a rollover force sells, the whole position, at the bid the rollover names for its side |
| PaperCounterexamples.BuyCanCrossRollover | apps/btc_poly_runner.cpp:2357-2628 | For every positive latency there is a run of a process that discovers its markets in which a BUY scheduled in one market is filled in the next |
| PaperCounterexamples.OrderSurvivesRolloverIff | apps/btc_poly_runner.cpp:2357-2628 | An order is pending after a rollover exactly if a BUY was pending before it, and then it is that BUY |
| PaperCounterexamples.FillCrossesIff | apps/btc_poly_runner.cpp:1457-1847 | In every run a BUY is filled in the market it was scheduled in exactly if no event in between set a market, or the one set last is the same |
| PaperCounterexamples.FilledInSeenMarket | apps/btc_poly_runner.cpp:1767-1790 | A BUY row names the market that the filling pass sees |
| PaperCounterexamples.QuotesSetNoMarket | apps/btc_poly_runner.cpp:2837-2842 | While rollovers and bootstraps set epochs that are not negative, no quote sets a market once an order has been scheduled |
| PaperCounterexamples.NoLatencyNoPendingOrder | apps/btc_poly_runner.cpp:1526-1559 | With no latency no order is pending between events, so none crosses a rollover |
| PaperCounterexamples.CashCanReachTheBound | apps/btc_poly_runner.cpp:533-540 | A run of a process with a market named by hand that ends with a cash of exactly -0.000005 |
| SigmaWindow.ResampleRunner | apps/btc_poly_runner.cpp:473-491 | The two-pointer loop gives, from three points on, the price in force at every grid time, starting from the first point in the window or else the last point |
| SigmaWindow.ResamplePipeline | apps/live_pipeline.cpp:90-127 | The pipeline's loop gives the price in force at every grid time from the first point in the window, or nothing when there is none or fewer than three grid times |
| SigmaWindow.CompareResamplers | apps/btc_poly_runner.cpp:473-491 | When both resamplers deliver, they deliver the same grid; and exactly when each delivers |
| SigmaWindow.GridShape | apps/btc_poly_runner.cpp:483-489 | The grid has one entry per step, floor(length/step)+1 in all, the k-th for the k-th grid time |
| SigmaWindow.LooksAheadIff | apps/live_pipeline.cpp:116-124 | A grid price comes from after its time exactly when its time is before the first observation used |
| SigmaWindow.GateMeansHeadOnStart | apps/btc_poly_runner.cpp:2677-2704 | After the trim the gate passes exactly when the head of the history sits on the window start |
| SigmaWindow.WindowGridKnowsAll | apps/btc_poly_runner.cpp:2677-2711 | The grid of a window whose head sits on its start is the grid of the whole feed: trimming loses nothing and nothing later is used |
| SigmaWindow.History.Keep | apps/btc_poly_runner.cpp:2677-2689 | Appending and popping leaves exactly the observations from the trim floor on |
| SigmaWindow.History.PopBefore | apps/btc_poly_runner.cpp:2687-2689 | The popping loop removes exactly the entries before the floor |
| SigmaWindow.History.OnSpotTick | apps/btc_poly_runner.cpp:2677-2711 | Whenever the gate passes with at least three points, the resampled vector has one entry per grid time, each the latest observation of the whole feed at or before it; otherwise it is empty |
| SigmaWindow.History.OnRollingTick | apps/btc_poly_runner.cpp:2778-2792 | The resampling that the rolling mode repeats on every tick, sigma known or not, gives the full grid of the whole feed whenever its gate passes with at least three points |
| SigmaWindow.HistoryIsTrim | apps/btc_poly_runner.cpp:2677-2689 | In both modes, however the active bucket changes, the history is the whole feed from the highest floor any tick has trimmed to |
| SigmaWindow.GateIff | apps/btc_poly_runner.cpp:2677-2704 | In both modes the gate passes exactly when some tick is stamped precisely at the window start and no tick has trimmed beyond it |
| SigmaWindow.RollingKeepsLastHour | apps/btc_poly_runner.cpp:2677-2689 | In rolling mode the history after any feed is exactly the ticks of the hour up to the last one |
| SigmaWindow.RollingGateIff | apps/btc_poly_runner.cpp:2782-2792 | The rolling gate passes exactly when some tick is stamped precisely one hour before the last one |
| SigmaWindow.LongFeedCanFailGate | apps/btc_poly_runner.cpp:2786-2787 | A feed that spans more than an hour can fail the gate |
| SigmaRules.BucketRule | apps/btc_poly_runner.cpp:2692-2696 | A tick belongs to the bucket exactly from its first millisecond on, except that truncation lets the second before 1970 into the first bucket |
| SigmaRules.RollingGate | apps/btc_poly_runner.cpp:2677-2704 | In rolling mode the gate opens exactly if some tick came to the millisecond 3600 seconds before the last one |
| SigmaRules.SlugGate | apps/btc_poly_runner.cpp:2677-2704 | With the window fixed to the bucket, exactly if some tick came to the millisecond 3600 seconds before its start and every tick so far came by its start or was of a bucket no later |
| SigmaRules.FullGridRule | apps/btc_poly_runner.cpp:473-491 | A full grid has floor(3600000/step)+1 prices, each that of the last observation at or before its time |
| ThreadPool.StepKeepsInv | src/core/thread_pool.cpp:16-63 | Every atomic step keeps the accounting of tasks, their order, the notification balance and the waiter's bookkeeping |
| ThreadPool.EveryTaskInOnePlace | src/core/thread_pool.cpp:33-63 | Under any interleaving `inflight_` counts the dispatches that are unpushed, queued or taken, and every dispatched task is in exactly one place: none is lost, none runs twice, and they are taken in order |
| ThreadPool.WaitIdleReturnsWhenDone | src/core/thread_pool.cpp:42-45 | In whichever of any number of waiting threads, `wait_idle` returns only at a moment at which every task dispatched so far is done |
| ThreadPool.NoTaskStranded | src/core/thread_pool.cpp:33-62 | With a worker, a non-empty queue always has an awake worker or a notification to come; while one sleeps, queued tasks are at most pending notifications plus workers on their way |
| ThreadPool.CheckDecides | src/core/thread_pool.cpp:50-58 | A worker that tests takes the oldest queued task if there is one, exits exactly if there is none and the pool stops, and sleeps exactly if there is none and it does not |
| ThreadPool.WaitDecides | src/core/thread_pool.cpp:42-45 | A waiter that tests leaves exactly if nothing is in flight |
| ThreadPool.WaitReturnsIff | src/core/thread_pool.cpp:33-63 | In every run a test of `wait_idle` lets it return exactly if no dispatch is unpushed, nothing is queued and no worker is between taking a task and uncounting it |
| ThreadPool.DestructorFinishesTasks | src/core/thread_pool.cpp:16-31 | When the destructor has joined at least one worker, every dispatched task has run, also those that jobs dispatched after it had started |
| ThreadPool.DestructorFinishesIff | src/core/thread_pool.cpp:9-31 | When the destructor has joined, everything dispatched has run exactly if there was a worker or nothing was ever dispatched |
| ThreadPool.NoWorkersLoseTasks | src/core/thread_pool.cpp:9-31 | With no workers it can return with a task still queued |
| ThreadPool.ShutdownStep | src/core/thread_pool.cpp:47-63 | After the destructor's notification every step brings the pool nearer to its end, except that a dispatch by a running job adds at most six steps |
| ThreadPool.ShutdownTerminates | src/core/thread_pool.cpp:16-63 | So it takes only a bounded number of further steps, and seven for every task that jobs still dispatch, under any scheduling |
| ThreadPool.ShutdownNeverStuck | src/core/thread_pool.cpp:16-63 | And until every worker has exited some step other than a new dispatch is possible, so the join returns |
| ThreadPool.WaitIdleCanStrand | src/core/thread_pool.cpp:42-61 | The decrement and the notification are outside the waiter's mutex: a reachable state blocks the waiter on an idle pool with no notification to come |
| ThreadPool.StrandedOnlyIfMissed | src/core/thread_pool.cpp:42-61 | That happens to a waiter only if a notification fell between its own read and its blocking |
| ThreadPool.StrandedIff | src/core/thread_pool.cpp:42-61 | In every run a waiter is stranded exactly if it blocked after such a notification, the pool is idle and no worker is about to notify |
| ThreadPool.Pool.CountUp | src/core/thread_pool.cpp:34 | The counting of a dispatch, by another thread or by a job, is one step of the system |
| ThreadPool.Pool.PushTask | src/core/thread_pool.cpp:35-38 | So is the push under the lock, by another thread or by a job |
| ThreadPool.Pool.TakeTask | src/core/thread_pool.cpp:50-58 | The worker's critical section takes the oldest task, exits when stopped and empty, or sleeps |
| ThreadPool.Pool.CountDown | src/core/thread_pool.cpp:60 | The decrement after a job is one step |
| ThreadPool.Pool.PollIdle | src/core/thread_pool.cpp:44 | The wait condition is true exactly when nothing is in flight, and then all dispatched tasks are done |
| ThreadPool.Pool.RequestStop | src/core/thread_pool.cpp:17-20 | The destructor's critical section is one step |
| JsonlWriter.StepKeepsInv | apps/live_pipeline.cpp:167-209 | Every atomic step keeps the rows in order, the queue bounded and the notification balances |
| JsonlWriter.RowsStayInOrder | apps/live_pipeline.cpp:167-209 | In every reachable state written rows, the row in hand and the queue are the accepted rows in order, and the queue never exceeds its capacity |
| JsonlWriter.StopFlushesEverything | apps/live_pipeline.cpp:178-192 | When the first `stop_and_flush` has returned, everything accepted is written |
| JsonlWriter.NoProducerLost | apps/live_pipeline.cpp:167-209 | Before a stop, while a producer is blocked, the free slots are at most the woken producers plus the pending notification |
| JsonlWriter.NeverStuck | apps/live_pipeline.cpp:167-209 | With room for a row, while a producer is blocked or a row is queued some thread can carry work forward |
| JsonlWriter.ZeroCapacityAcceptsNothing | apps/live_pipeline.cpp:160-174 | With a capacity of zero no row is ever accepted |
| JsonlWriter.TestDecides | apps/live_pipeline.cpp:167-176 | A test of `enqueue` gives its row up exactly after a stop, accepts it exactly if there is room, and else waits with it |
| JsonlWriter.StepCallsAccounted | apps/live_pipeline.cpp:167-209 | Every step keeps each row as often accepted, carried by a call still going on, or given up, as `enqueue` was called with it, with nothing given up before a stop |
| JsonlWriter.EveryCallAccounted | apps/live_pipeline.cpp:167-209 | So it is in every run: a full queue makes a call wait and loses nothing |
| JsonlWriter.EveryCallWritten | apps/live_pipeline.cpp:167-209 | Without a stop, once all calls have returned and the queue is empty, exactly the rows of the calls are written, each as often as it was given |
| JsonlWriter.ShutdownStep | apps/live_pipeline.cpp:178-209 | After a stop nothing more is accepted and every step of the writer brings it nearer to its exit |
| JsonlWriter.ShutdownNeverStuck | apps/live_pipeline.cpp:178-209 | Until the join has returned, the writer or the stopping thread can step |
| JsonlWriter.SecondStopCanReturnEarly | apps/live_pipeline.cpp:178-183 | A run that ends with the return of a second `stop_and_flush` while an accepted row is still queued |
| JsonlWriter.LaterStopSeesAllIff | apps/live_pipeline.cpp:178-183 | In every run a later `stop_and_flush` returns with everything accepted written exactly if it finds the queue and the writer's hand empty |
| JsonlWriter.AllWrittenIff | apps/live_pipeline.cpp:167-209 | Everything accepted is written exactly when the queue and the writer's hand are empty |
| JsonlWriter.AsyncJsonlWriter.Enqueue | apps/live_pipeline.cpp:167-176 | The producer's critical section accepts, waits when full, or drops the row after a stop |
| JsonlWriter.AsyncJsonlWriter.TakeRow | apps/live_pipeline.cpp:199-206 | The writer's critical section takes the oldest row, exits when stopped and empty, or sleeps |
| JsonlWriter.AsyncJsonlWriter.RequestStop | apps/live_pipeline.cpp:179-185 | Only the first call sets the flag and goes on to wait; a later one returns at once |
| LatencySweep.FirstPolyAtOrAfter | src/sim/latency_backtest.cpp:21-31 | Binary search and scan find the first quote of the timeline at or after the time, or none if there is none |
| LatencySweep.RunLatencySweep | src/sim/latency_backtest.cpp:44-91 | One row per latency, with the attempts, fills and profit defined signal by signal |
| LatencySweep.SweepOne | src/sim/latency_backtest.cpp:53-88 | The loop over the signals accumulates exactly that row |
| SweepRules.FillEarns | src/sim/latency_backtest.cpp:66-82 | A signal with both quotes that is not missed is one fill and earns the exit mid less the entry mid, less twice the fee and once the slippage; the entry is the first quote from the latency after the signal, the exit the first from the horizon after the entry quote |
| SweepRules.OthersEarnNothing | src/sim/latency_backtest.cpp:57-76 | Any other signal changes neither fills nor profit |
| SweepRules.CostsPerFill | src/sim/latency_backtest.cpp:49-81 | The profit of a row is that without costs less fills times twice the fee plus the slippage; costs change nothing else |
| SweepRules.OneSignalEarns | src/sim/latency_backtest.cpp:44-88 | A single signal without costs or misses gives one attempt, one fill and the exit mid less the entry mid |
| SweepRules.MissRule | src/sim/latency_backtest.cpp:33-40 | No signal is missed at probability 0, every one from 1 on, no fewer at a higher one, and the choice repeats after 2^32 signals |
| SweepRules.FirstMisses | src/sim/latency_backtest.cpp:33-40 | The probabilities above which the first four signals are missed: 0, 0.5761, 0.4226 and 0.9987 |
| LatencySweep.LaterStartLaterQuote | src/sim/latency_backtest.cpp:21-31 | A later start finds a later quote, and only if the earlier start finds one |
| LatencySweep.MoreLatencyNeverFillsMore | src/sim/latency_backtest.cpp:53-82 | Every latency attempts every signal, and a higher latency never fills more |
| LatencySweep.QuoteKeyIgnoresTies | src/replay/timeline_merge.cpp:59-67 | The time of the first quote found is the same in every sorted order of the merged log |
| LatencySweep.TradeKeysIgnoreTies | src/sim/latency_backtest.cpp:66-76 | So are the entry and exit times of every signal |
| LatencySweep.SweepIgnoresTies | src/replay/timeline_merge.cpp:59-67 | Whatever order the unstable sort leaves ties in, every row has the same attempts and fills |
| LatencySweep.ProfitDependsOnTies | src/sim/latency_backtest.cpp:78-81 | The profit is not protected: two orders of the same events with different profits |
| LatencySweep.PriceFixedIff | src/sim/latency_backtest.cpp:78-79 | The price of a trade leg is the same in every sorted order exactly when all quotes at its time have the same mid |
| LatencySweep.SignalProfitFixedIff | src/sim/latency_backtest.cpp:66-81 | The profit of a filled signal is the same in every sorted order exactly when entry and exit are one quote, or neither has a simultaneous quote at another price |
| LatencySweep.ProfitFixedIff | src/sim/latency_backtest.cpp:53-88 | The profit of all lists of signals over a timeline is independent of the order of ties exactly when this holds of every signal time that can fill |
| LatencySweep.ProfitIgnoresAgreeingTies | src/sim/latency_backtest.cpp:78-81 | When simultaneous quotes agree on the mid, the whole profit is independent of the order of ties |
| Alignment.FindLag | src/replay/timeline_merge.cpp:79-91 | The inner loop finds the delay of one trade |
| Alignment.AlignmentStats | src/replay/timeline_merge.cpp:69-99 | The accumulated figures are the number, sum, least and greatest of the delays of all trades that have one |
| Alignment.LagIsLeastDelay | src/replay/timeline_merge.cpp:79-91 | In a sorted timeline a trade has a delay exactly when a later entry within the window is a quote, and it is the least such delay, between zero and the window |
| Alignment.LagsAreOfTrades | src/replay/timeline_merge.cpp:69-99 | The delays that enter the figures are those of exactly the trades with a quote within the window, each once and in order |
| Alignment.FiguresInOrder | src/replay/timeline_merge.cpp:69-99 | The number of pairs is that of those trades, and the sum lies between it times the least and times the greatest delay, all within the window |
| Alignment.LagDependsOnTies | src/replay/timeline_merge.cpp:59-91 | Two orders of one trade and one simultaneous quote: in one the trade has a delay of zero, in the other none |
| Alignment.LagFixedIff | src/replay/timeline_merge.cpp:59-91 | The delay is the same in every sorted order of the merged log exactly when no quote carries the trade's own time or the window is negative |
| StrikeSelection.BestAfter | src/polymarket/rtds_chainlink_feed.cpp:119-126 | The running choice is the earliest in-skew tick at or after the boundary, the first to arrive of its time, and exists exactly when there is one |
| StrikeSelection.BestBefore | src/polymarket/rtds_chainlink_feed.cpp:111-118 | The running choice is the latest in-skew tick at or before the boundary, the first to arrive of its time, and is missing only when there is none |
| StrikeSelection.StrikeFoundIff | src/polymarket/rtds_chainlink_feed.cpp:137-157 | A strike is found exactly when some tick is within the skew, and is then within the skew |
| StrikeRules.StrikeRule | src/polymarket/rtds_chainlink_feed.cpp:109-157 | The strike is the earliest tick from the boundary on within the skew, the first to arrive of its time; only without one the latest before it; only without either none, and then every tick is further off than the skew |
| StrikeRules.StrikeIsThatTick | src/polymarket/rtds_chainlink_feed.cpp:109-157 | And any tick that is so described is the strike |
| StrikeRules.BufferRule | src/polymarket/rtds_chainlink_feed.cpp:300-315 | The buffer is the last 900 ticks of the stream, and yields its strike if that is one of them |
| StrikeSelection.StrikeTimeIgnoresOrder | src/polymarket/rtds_chainlink_feed.cpp:109-157 | The kind and the time of the strike do not depend on the order of arrival |
| StrikeSelection.BufferYieldsStreamStrike | src/polymarket/rtds_chainlink_feed.cpp:300-315 | While the chosen tick is among the last 900, the buffer yields the strike of the whole stream, price included |
| StrikeSelection.BufferKeepsStrikeTimeIff | src/polymarket/rtds_chainlink_feed.cpp:300-315 | The buffer yields the stream's strike time exactly when it still holds some tick of that time |
| StrikeSelection.TickBuffer.PopOld | src/polymarket/rtds_chainlink_feed.cpp:310-312 | The popping loop keeps the last 900 |
| StrikeSelection.TickBuffer.PushTicks | src/polymarket/rtds_chainlink_feed.cpp:300-317 | The buffer always holds the last 900 ticks since the last reconnect |
| StrikeSelection.TickBuffer.Reconnect | src/polymarket/rtds_chainlink_feed.cpp:419-422 | A reconnect starts a new stream |
| StrikeSelection.TickSel.Consider | src/polymarket/rtds_chainlink_feed.cpp:109-133 | The best-so-far fields describe exactly the ticks considered, the nearest one included |
| StrikeSelection.TickSel.AssignFallback | src/polymarket/rtds_chainlink_feed.cpp:137-157 | After before nearest; the "nearest" branch is never entered |
| StrikeSelection.SelectFrom | src/polymarket/rtds_chainlink_feed.cpp:559-562 | A selector fed a snapshot tracks exactly that snapshot |
| StrikeSelection.WaitStrike | src/polymarket/rtds_chainlink_feed.cpp:547-598 | The first poll with a tick at or after the boundary decides immediately; otherwise the final snapshot does, and it fails exactly when that holds no in-skew tick; the skew is at least a second |
| StrikeSelection.BufferedWaitIsStreamWait | src/polymarket/rtds_chainlink_feed.cpp:300-317 | Waiting on buffered snapshots gives what waiting on the whole streams would, as long as no chosen tick has been dropped when it is polled |
| StrikeSelection.TickBuffer.Receive | src/polymarket/rtds_chainlink_feed.cpp:300-422 | Whatever arrives, batches and reconnects, the buffer stays the last 900 of the ticks since the last reconnect |
| StrikeSelection.WaitOnBuffer | src/polymarket/rtds_chainlink_feed.cpp:547-598 | On the shared buffer, with any arrivals and reconnects between the polls, the strike is that of the ticks since the last reconnect whenever the chosen ones are among the last 900 |
| BucketDiscovery.ValueOfDigits | src/polymarket/bucket_market_discovery.cpp:173-175 | Reading printed digits gives the number back |
| BucketDiscovery.DigitsOfValue | src/polymarket/bucket_market_discovery.cpp:173-175 | Printing read digits gives them back when there is no superfluous leading zero |
| BucketDiscovery.StollOfToString | src/polymarket/bucket_market_discovery.cpp:388-394 | `stoll` reads back every printed 64-bit number, whatever non-digit text follows |
| BucketDiscovery.StollLimits | src/polymarket/bucket_market_discovery.cpp:388-394 | A printed number is read exactly if it fits 64 bits, and white space before it makes no difference |
| BucketDiscovery.ParseOfSlug | src/polymarket/bucket_market_discovery.cpp:381-395 | Parsing the slug of a bucket gives the bucket, for every 64-bit number |
| BucketDiscovery.SlugsDiffer | src/polymarket/bucket_market_discovery.cpp:173-175 | Different buckets have different slugs |
| BucketDiscovery.SlugOfParseIff | src/polymarket/bucket_market_discovery.cpp:381-395 | Printing what was parsed gives the slug back exactly for canonical slugs |
| BucketDiscovery.NonCanonicalSlugAccepted | src/polymarket/bucket_market_discovery.cpp:381-395 | A slug with upper case, white space, plus sign, leading zero and trailing text is parsed all the same |
| BucketDiscovery.ParseEpochFromConfirmedSlug | apps/btc_poly_runner.cpp:870-887 | The character loop of the programs accepts exactly the case-insensitive prefix with a number behind it |
| BucketDiscovery.ParsersAgree | src/polymarket/bucket_market_discovery.cpp:381-395 | The discovery parser and the programs' parser agree on every string |
| BucketDiscovery.TryBucket | src/polymarket/bucket_market_discovery.cpp:517-536 | Asking for the slug of a bucket gives a market of that bucket or nothing |
| BucketDiscovery.DiscoverActive | src/polymarket/bucket_market_discovery.cpp:553-588 | Of the three buckets asked for only the one containing the clock can be accepted: the scan succeeds exactly when that one answers and then gives it |
| Rollover.StepKeepsShape | apps/btc_poly_runner.cpp:3041-3109 | One pass of any of the three loops keeps the epoch a multiple of 300, the next one 300 later, the slug that of the epoch and a ready prefetch that of the next; trader and pipeline never go back, whatever the clock does |
| Rollover.StepFollowsClock | apps/polymarket_logger.cpp:179-269 | With a clock that does not run backwards no program enters a market that has not started and none goes back |
| Rollover.LoggerMatchesPipeline | apps/polymarket_logger.cpp:214-241 | The logger's missing epoch check makes no difference to a pass whose clock does not run backwards |
| Rollover.LoggerDiffersIff | apps/polymarket_logger.cpp:229-237 | Otherwise the two differ exactly when only the scan answers, for a bucket before the next; the logger then goes there |
| Rollover.LoggerGoesBackIff | apps/polymarket_logger.cpp:229-237 | A pass takes the logger back to an earlier market exactly when only the scan answers, and for a bucket before the active one |
| Rollover.LoggerCanGoBack | apps/polymarket_logger.cpp:229-237 | A clock set back during a pass takes the logger to the previous market, and leaves the pipeline where it is |
| Rollover.ReadyPrefetchDecides | apps/live_pipeline.cpp:692-698 | A ready prefetch that is not stale decides the pass, whatever the other look-ups say |
| Rollover.PipelineMovesIff | apps/live_pipeline.cpp:675-758 | The pipeline moves on exactly when the next market has begun and the prefetch, the exact look-up, or the scan if the exact look-up is silent, gives both tokens |
| Rollover.RunnerMovesIff | apps/btc_poly_runner.cpp:3043-3087 | The trader moves on exactly when a second of the next market has passed and the exact look-up, or the scan if it is silent, gives both tokens |
| Rollover.EntersFinishedMarketIff | apps/live_pipeline.cpp:675-720 | In all three programs, whatever the clock does, a pass enters a market that is already over exactly when the exact look-up of the next market answers after its end, or only the scan answers, for a bucket that is over and, except for the logger, not before the next |
| Rollover.EntersFinishedByExactLookUp | apps/live_pipeline.cpp:675-720 | While the clock does not run backwards within the pass, exactly when the exact look-up answers after the end of the next market |
| Rollover.RunnerHalfSwitchIff | apps/btc_poly_runner.cpp:3081-3084 | The trader is left with its Up feed moved and its epoch not, exactly when a second of the next market has passed and the exact look-up, or the scan if it is silent, gives a new Up token and no Down token |
| Rollover.RunnerHalfSwitchHappens | apps/btc_poly_runner.cpp:3081-3084 | A pass that leaves the Up feed on the next market and the Down feed on the old one |
| Rollover.EntersFinishedMarketHappens | apps/live_pipeline.cpp:675-720 | A pass of any of the three programs that enters the market from 300 to 600 at time 600 |
| Rollover.ShapeAlways | apps/live_pipeline.cpp:642-806 | The shape holds after every pass of every run of the three programs |
| Rollover.MarketsInOrder | apps/live_pipeline.cpp:642-806 | In every run of the trader and the pipeline markets are visited in order, each at most once, at least 300 seconds apart, whatever the clock does |
| Rollover.MarketsFollowClock | apps/polymarket_logger.cpp:179-269 | With a clock that never runs backwards this holds of the logger too, and no program is ever ahead of the clock |
| Rollover.LoggerFollowsPipeline | apps/polymarket_logger.cpp:179-269 | With such a clock, logger and pipeline fed the same answers are in the same session after every pass |
| Rollover.Monitor.FindNext | apps/btc_poly_runner.cpp:3046-3061 | Exact look-up, else scan, never a market before the next |
| Rollover.Monitor.PrefetchNext | apps/live_pipeline.cpp:647-673 | A prefetch is kept only with both tokens, under the slug that was asked for; `RolloverLookUps` says what it leads to |
| Rollover.Monitor.Complete | apps/live_pipeline.cpp:758-804 | The session changes as a whole or not at all |
| Rollover.Monitor.PollPipeline | apps/live_pipeline.cpp:642-806 | One pass of the pipeline's loop is the pipeline step |
| Rollover.Monitor.PollLogger | apps/polymarket_logger.cpp:179-269 | One pass of the logger's loop is the logger step |
| Rollover.Monitor.PollRunner | apps/btc_poly_runner.cpp:3041-3109 | One pass of the monitor loop is the trader step |
| Rollover.DiscoverInitial | apps/btc_poly_runner.cpp:2958-2989 | At start-up the market is that of the bucket the clock is in, by exact slug or by scan (for the logger by scan alone), with both tokens, or none |
| Rollover.FirstSessionShape | apps/live_pipeline.cpp:446-456 | A session started from a discovered market is in shape and not ahead of the clock |
| Rollover.Monitor.PollOf | apps/polymarket_logger.cpp:179-269 | One pass of each program's own loop is its step |
| Rollover.RunProgram | apps/btc_poly_runner.cpp:2958-3109 | Discovery and any number of passes: the program starts exactly if there is a first market, goes through the sessions of the run, ends in shape and, with a clock that never runs backwards, not ahead of it |
| RolloverLookUps.PassByLookUps | apps/live_pipeline.cpp:642-806 | A pass of any of the three loops comes to what its look-ups say: it changes the market exactly if the next one has begun and the market offered (at hand, else by exact slug, else by the clock) has both tokens, with the Up feed on the Up token and the Down feed on the Down token |
| RolloverLookUps.PrefetchLeadsTo | apps/live_pipeline.cpp:647-698 | A complete answer of the prefetch is the market entered at the change, in that pass or a later one, its Up token on the Up feed and its Down token on the Down feed, whatever the other look-ups answer |
| RolloverLookUps.NothingReadyWithoutAnswer | apps/live_pipeline.cpp:647-673 | A pass ends with a new ready prefetch exactly if one was due before the next market and answered with both tokens |
| RolloverLookUps.TokensAlwaysKnown | apps/live_pipeline.cpp:642-806 | In every run of the three programs the tokens of the feeds, and those kept for the next market, are an answer that a look-up gave for that very bucket, Up for Up and Down for Down; only the trader's Up feed can be ahead alone, on a token answered without a Down token |
| RolloverLookUps.FirstTokens | apps/btc_poly_runner.cpp:2958-2989 | The feeds of the first session are on the tokens the look-up of its bucket gave, and which look-up that is |
| QuoteStream.LastDeliveredIsLastShown | src/polymarket/ws_fixed_token_feed.cpp:304-331 | The quote last delivered is that of the item last shown |
| QuoteStream.ShownUpToDate | src/polymarket/ws_fixed_token_feed.cpp:286-331 | Whatever equivalence counts as a repeat, since what was last shown there have been only repeats of it, without a restart |
| QuoteStream.LastDeliveredIsSame | src/polymarket/ws_fixed_token_feed.cpp:286-331 | The last delivered quote is the same, in that sense, as the latest valid one |
| QuoteStream.AlwaysExactIff | src/polymarket/poly_ws_quote_feed.cpp:501-515 | The subscriber has exactly the latest valid quote at every point of a run exactly when no quote that counts as a repeat differs from the one before it |
| TokenFeed.Highest | src/polymarket/ws_fixed_token_feed.cpp:56-73 | The best bid is the highest price among levels with positive size and a readable price, and exists exactly when there is such a level |
| TokenFeed.Lowest | src/polymarket/ws_fixed_token_feed.cpp:74-91 | The same for the lowest ask |
| TokenFeed.TopOfBook | src/polymarket/ws_fixed_token_feed.cpp:51-98 | The two loops succeed exactly when both sides have an eligible level and give the highest bid and the lowest ask |
| TokenFeed.TopIgnoresOrder | src/polymarket/poly_ws_quote_feed.cpp:354-403 | The top of the book does not depend on the order of the levels |
| TokenFeedRules.BookGivesTop | src/polymarket/ws_fixed_token_feed.cpp:240-256 | A book becomes one quote with the highest bid as bid and the lowest ask as ask exactly if it is for the token and has both, else nothing |
| TokenFeedRules.BestBidAskGivesItsPrices | src/polymarket/ws_fixed_token_feed.cpp:224-238 | A best-bid-ask message becomes one quote with its bid as bid and its ask as ask exactly if it is for the token and both are numbers |
| TokenFeedRules.PriceChangeGivesEntries | src/polymarket/ws_fixed_token_feed.cpp:258-284 | A price change becomes one quote for each entry with prices for the token, in order, with the bid and the ask of its entry |
| TokenFeedRules.MessageItems | src/polymarket/ws_fixed_token_feed.cpp:209-284 | The quotes of any message are exactly those its fields name for the current token |
| TokenFeedRules.EveryQuoteIsNamed | src/polymarket/ws_fixed_token_feed.cpp:209-312 | Every quote of a run comes from one message that names its bid and its ask, under the token and label of that moment |
| TokenFeedRules.EveryNamedIsQuoted | src/polymarket/ws_fixed_token_feed.cpp:209-312 | Everything a message names for the current token gets into the run with that message |
| TokenFeedRules.LastMessageIsCurrent | src/polymarket/ws_fixed_token_feed.cpp:209-331 | After a message with prices for the token the callback has last been given the prices the message says last |
| TokenFeedRules.FirstQuoteIsDelivered | src/polymarket/ws_fixed_token_feed.cpp:179-367 | The first quote after a connection or a switch to another token is always delivered, also with unchanged prices |
| TokenFeedRules.TokenIsLastSwitchedTo | src/polymarket/ws_fixed_token_feed.cpp:333-367 | The token is the one switched to last; only a switch to an empty token has no effect |
| TokenFeed.SubscriberIsUpToDate | src/polymarket/ws_fixed_token_feed.cpp:286-331 | For every valid quote, what the subscriber was last shown has its bid and ask, in the same connection and for the same token |
| TokenFeed.LastDeliveredIsCurrent | src/polymarket/ws_fixed_token_feed.cpp:286-331 | The last delivered quote has the prices of the latest valid one |
| TokenFeed.TokenChangesOnlyAtRestart | src/polymarket/ws_fixed_token_feed.cpp:333-379 | Between restarts all quotes are for one token, the current one |
| TokenFeed.LabelLags | src/polymarket/ws_fixed_token_feed.cpp:110-117 | A quote that arrives between the switch and the relabelling keeps its old label on display until the price moves |
| TokenFeed.LabelShownIff | src/polymarket/ws_fixed_token_feed.cpp:286-331 | The quote on display has the label of the latest valid quote exactly if the quote last shown had it |
| TokenFeed.LabelCurrentIff | src/polymarket/ws_fixed_token_feed.cpp:110-331 | In every run the quote on display carries the current label exactly if no label was set since the message it came with, or the last one set is the same |
| TokenFeed.ItemAddedBy | src/polymarket/ws_fixed_token_feed.cpp:286-312 | Every quote of a run carries the token and the label that were current at the one event that brought it |
| TokenFeed.Feed.OnOpen | src/polymarket/ws_fixed_token_feed.cpp:179-187 | A connection restarts the de-duplication |
| TokenFeed.Feed.EmitQuote | src/polymarket/ws_fixed_token_feed.cpp:286-331 | Only valid quotes of the current token that differ from the last one are delivered |
| TokenFeed.Feed.OnMessage | src/polymarket/ws_fixed_token_feed.cpp:209-284 | The three kinds of message contribute exactly their valid prices for the current token, in order |
| TokenFeed.Feed.EmitChanges | src/polymarket/ws_fixed_token_feed.cpp:258-284 | The loop over a price change message delivers its entries one by one |
| TokenFeed.Feed.SwitchToken | src/polymarket/ws_fixed_token_feed.cpp:333-379 | A switch rejects an empty token, ignores the current one, and otherwise unsubscribes the old token before subscribing the new one and restarts the de-duplication |
| TokenFeed.Feed.SetMarketContext | src/polymarket/ws_fixed_token_feed.cpp:110-117 | Slug, epoch and outcome are replaced together, and nothing else changes |
| TokenFeed.RunFeed | src/polymarket/ws_fixed_token_feed.cpp:179-379 | Over any run the callback receives exactly the valid quotes of the current token with adjacent repeats removed, afresh after every connection and switch |
| FeedThreads.RememberedPricesAreCurrent | src/polymarket/ws_fixed_token_feed.cpp:286-331 | However parse workers, switches and connections interleave, the remembered prices are never those of a token the feed has left |
| FeedThreads.ChosenByAStep | src/polymarket/ws_fixed_token_feed.cpp:286-312 | Every quote on its way to the callback was let through by one step, for the token current then |
| FeedThreads.StaleCallbackIff | src/polymarket/ws_fixed_token_feed.cpp:286-331 | In every run the callback gets a quote of a token the feed has left exactly if the last switch since the quote was let through was to another token |
| FeedThreads.StaleCallbackHappens | src/polymarket/ws_fixed_token_feed.cpp:318-320 | A run in which it does, after the switch has returned |
| FeedThreads.Feed.FirstSection | src/polymarket/ws_fixed_token_feed.cpp:290-312 | The section before the callback lets through exactly the valid quotes of the current token that differ from the remembered prices |
| FeedThreads.Feed.SecondSection | src/polymarket/ws_fixed_token_feed.cpp:322-330 | The section after it remembers the prices only if the token is still the same |
| FeedThreads.Feed.StoreToken | src/polymarket/ws_fixed_token_feed.cpp:347-367 | Storing the new token forgets the remembered prices |
| FeedPieces.EmissionInOnePiece | src/polymarket/ws_fixed_token_feed.cpp:286-331 | An emission that nothing interrupts calls the callback exactly with a quote of the current token whose prices are not the remembered ones, and then remembers them |
| FeedPieces.PiecesAgree | src/polymarket/ws_fixed_token_feed.cpp:286-367 | With any number of workers, as long as no emission is interrupted, the threaded feed delivers exactly what the undivided feed delivers |
| MarketFeed.SlugHasPrefix | src/polymarket/poly_ws_quote_feed.cpp:26-36 | The whole-string comparison accepts exactly the slugs that start with the prefix, letter case aside |
| MarketFeed.IndexUp | src/polymarket/poly_ws_quote_feed.cpp:107-114 | The loop finds the first Up outcome, or 0 when there is none |
| MarketFeed.HasUpAndDown | src/polymarket/poly_ws_quote_feed.cpp:411-423 | The loop accepts exactly the outcome lists that hold both names |
| MarketFeed.PrintedAlikeAreClose | src/polymarket/poly_ws_quote_feed.cpp:510-515 | Prices with the same printed form differ by at most a millionth |
| MarketFeed.SixDecimalsPrintExactly | src/polymarket/poly_ws_quote_feed.cpp:510-515 | Prices of at most six decimals print alike only if they are equal |
| MarketFeed.LastDeliveredPrintsAlike | src/polymarket/poly_ws_quote_feed.cpp:501-515 | What was last delivered prints like the latest valid quote and is within a millionth of it |
| MarketFeed.SmallChangeWithheld | src/polymarket/poly_ws_quote_feed.cpp:510-515 | Two quotes that differ in the seventh decimal, of which only the first is delivered |
| MarketFeed.LastDeliveredIsLatestIff | src/polymarket/poly_ws_quote_feed.cpp:501-515 | The last delivered quote is the latest valid one exactly if the quote last shown has its bid and ask |
| MarketFeed.MillionthRunsAreExact | src/polymarket/poly_ws_quote_feed.cpp:501-515 | So it does in every run whose price entries are whole numbers of millionths |
| MarketFeed.Feed.OnOpen | src/polymarket/poly_ws_quote_feed.cpp:245-252 | A connection restarts the removal of repeats |
| MarketFeed.Feed.Hydrate | src/polymarket/poly_ws_quote_feed.cpp:338-352 | An unknown condition is filled in from a message of the active token, and a known one never changes |
| MarketFeed.Feed.EmitQuote | src/polymarket/poly_ws_quote_feed.cpp:501-536 | Only valid quotes of the active token are delivered, and only if their key differs from that of the last one |
| MarketFeed.Feed.OnNewMarket | src/polymarket/poly_ws_quote_feed.cpp:444-459 | The feed switches exactly to a market of the family with both outcomes, matching tokens and an Up token, whose condition is not known to be the active one, and to the token of its first Up outcome |
| MarketFeed.Feed.SwitchTo | src/polymarket/poly_ws_quote_feed.cpp:461-499 | A switch restarts the removal of repeats and reports the old and the new market |
| MarketFeed.RunFeed | src/polymarket/poly_ws_quote_feed.cpp:245-536 | Over any run the callback receives exactly the valid quotes of the active market without printed repeats, afresh after every connection and switch, and the reported rollovers link up |
| MarketFeed.ChainedStep | src/polymarket/poly_ws_quote_feed.cpp:444-499 | Every event keeps the rollovers linked: each starts from the market the one before ended in, and none between markets known to have the same condition |
| MarketFeed.QuotesAreForActiveMarket | src/polymarket/poly_ws_quote_feed.cpp:174-176 | Every quote of a run was made from one price entry, for the market that was active at exactly that event |
| MarketFeed.AddedByOne | src/polymarket/poly_ws_quote_feed.cpp:260-336 | No other event added that quote |
| MarketFeed.TokenChangesOnlyAtRestart | src/polymarket/poly_ws_quote_feed.cpp:444-536 | Between restarts all quotes are for one token, and a latest quote is for the market active now |
| MarketFeedRules.AnnouncementRule | src/polymarket/poly_ws_quote_feed.cpp:405-499 | An announcement of the family, with both outcomes, a token for each and one for its first Up outcome, not known to be the active market, becomes the active one with that token; any other changes nothing |
| MarketFeedRules.EntryRule | src/polymarket/poly_ws_quote_feed.cpp:501-536 | A price entry becomes a quote with its bid as bid, its ask as ask and its timestamp exactly if it is for the active token and both are numbers |
| MarketFeedRules.HintRule | src/polymarket/poly_ws_quote_feed.cpp:338-352 | A condition is filled in exactly while it is unknown, by a message for the active token |
| MarketFeedRules.OpenRule | src/polymarket/poly_ws_quote_feed.cpp:245-252 | A connection starts the removal of repeats afresh and keeps the market |
| MarketFeedRules.EveryEntryIsQuoted | src/polymarket/poly_ws_quote_feed.cpp:260-336 | Every entry with prices for the market active at its event gets into the run with that event |
| MarketFeedRules.WithheldIff | src/polymarket/poly_ws_quote_feed.cpp:501-515 | A quote is withheld exactly if it follows one of the same token and timestamp, without a restart, and both prices print alike |
| MarketFeedRules.NewsIsDelivered | src/polymarket/poly_ws_quote_feed.cpp:501-515 | A new timestamp, or a move of more than a millionth, is always delivered |
| Subscription.AgreementKept | src/polymarket/ws_fixed_token_feed.cpp:346-379 | Every step of a switch, of the open callback or of the connection keeps snapshot, active token and server set in agreement |
| Subscription.ActiveTokenSubscribed | src/polymarket/ws_market_client.cpp:44-77 | However switches and reconnections interleave, with no switch in progress and the socket open the server sends the active token |
| Subscription.NeverEmpty | src/polymarket/ws_fixed_token_feed.cpp:333-346 | A feed started with a token never has or subscribes to an empty one |
| Subscription.LeftoversAreLateSnapshots | src/polymarket/ws_market_client.cpp:44-58 | Any other token is subscribed exactly if the open callback of this connection sent it after it had been unsubscribed |
| Subscription.OneSwitchLeavesAtMostTheOld | src/polymarket/ws_fixed_token_feed.cpp:333-379 | After one switch, with reconnections at any points, the server set contains the new token and at most the old one besides |
| Subscription.NothingUnknown | src/polymarket/ws_fixed_token_feed.cpp:333-379 | Nothing is ever subscribed that the feed was not started with or switched to |
| Subscription.OldTokenCanStay | src/polymarket/ws_market_client.cpp:85-97 | A run in which a completed switch leaves the old token subscribed beside the new one |
| Subscription.UninterruptedSwitchIff | src/polymarket/ws_fixed_token_feed.cpp:333-379 | A switch without a connection event leaves exactly the new token unless it falls between the reading and the sending of a snapshot |
| Subscription.ReconnectionSettles | src/polymarket/ws_market_client.cpp:44-58 | A reconnection outside a switch removes every leftover |
| Subscription.CallbackSwitchesAgree | src/polymarket/poly_ws_quote_feed.cpp:444-499 | The feed that switches inside the callback thread has, whenever the socket is open, exactly the active token subscribed |
| Broker.BuyFillFromResponse | apps/btc_poly_runner.cpp:642-667 | For any amounts the double swap accepts exactly a price between 0.001 and 0.999 and gives the smaller amount as cost and the larger as shares, whichever field held which |
| Broker.StopSellUntilFlat | apps/btc_poly_runner.cpp:787-867 | At most thirty attempts, each ordering exactly the balance just read; flat exactly when the last attempt finds nothing left; proceeds, fees and final balance are those of the attempts made |
| BrokerRules.OrdersAreBalances | apps/btc_poly_runner.cpp:787-846 | The orders are one for each attempt that reads more than a millionth of a share, in order, each for exactly that balance |
| BrokerRules.AttemptRule | apps/btc_poly_runner.cpp:787-867 | An attempt ends the loop exactly if it reads at most a millionth of a share, and is credited exactly the difference of its two readings if that is more than a millionth |
| BrokerRules.FeesNearExact | apps/btc_poly_runner.cpp:855-859 | The fees of the loop are the exact fee of all shares sold at the mark, to half a hundred-thousandth for each attempt |
| Broker.NeverOverCredited | apps/btc_poly_runner.cpp:846-859 | While read balances do not grow, the shares credited never exceed those that left the account |
| Broker.AlmostAllCredited | apps/btc_poly_runner.cpp:846-859 | When every sale is read, at most a millionth of a share per attempt goes uncredited |
| Broker.CreditedAndMissed | apps/btc_poly_runner.cpp:787-867 | For any answers at all, what left the account is what was credited, plus the drops first seen between attempts and the sales of at most a millionth |
| Broker.FullyCreditedIff | apps/btc_poly_runner.cpp:787-867 | While read balances do not grow, everything that left the account is credited exactly if no drop is first seen between attempts and no attempt sells a positive amount of at most a millionth |
| Broker.ProceedsBounds | apps/btc_poly_runner.cpp:787-867 | The reported proceeds are at most the bid times what left the account, and within thirty millionths of a share of it when every sale was read |
| Broker.FeesCovered | apps/btc_poly_runner.cpp:855-859 | For prices in [0, 1] and rates in [0, 2] the fees of the loop never exceed its proceeds |
| Broker.UnreadSaleIsLost | apps/btc_poly_runner.cpp:846-851 | A sale whose second query fails is not credited, though the loop ends flat |

## Left out

- Doubles: prices, cash and sizes are reals; only the explicit rounding of the fee to five decimals is modelled. Infinities and NaN appear only as missing values where the code tests for them.
- `exp`, `log`, the normal distribution, GARCH and the numeric value of sigma: theoretical prices are inputs, and the window model ends at the resampled vector.
- Live trading in `execute_due` and in the rollover branch: an incomplete stop sale discards partial proceeds there, so the ledger properties are those of paper mode. `Broker` models the two live helpers on their own.
- Token ids in the paper position: the model keeps market slug and side. `cooldown_until_ns` is written but never read and has no field.
- Rows of the trade log keep the figures that the properties use; telemetry, series and error rows are not modelled.
- Integer overflow, except that epochs parsed from slugs are limited to 64 bits and the sweep's miss hash to 32.
- A history out of time order and, for the runner's resampler, a step of zero or less, on which the C++ loop would not end.
- ThreadPool: a job that itself calls `wait_idle` or the destructor; dispatch by another thread after the destructor has started, which the lifetime of the object forbids; jobs that never return.
- ThreadPool.WaitIdleReturnsWhenDone: a safety property only; that `wait_idle` returns is not guaranteed by the code (`WaitIdleCanStrand`).
- StrikeSelection.WaitStrike: the number of polls before the deadline and their times are given; the 40 ms waits and the diagnostics on failure are not modelled.
- Fetching and validating a Gamma event: a look-up either gives the two token ids of the slug asked for or nothing. Strikes from metadata, web page or feed are not part of the session.
- Rollover: clock readings before 1970; the manual slug and token of the command line; the push of the rollover event into the consumer queue, which `PaperTrading` takes as its input.
- TokenFeed: quotes parsed inline, each in one piece; with a parse-worker pool messages can be reordered and repeats let through. `FeedThreads` has the interleaved sections, without the labels; the removal of repeats over a whole run is proved of it only while no emission is interrupted (`FeedPieces`).
- MarketFeed: messages arrive already split into price entries; splitting them is that of `TokenFeed`, and the active market at the start, found by another discovery, is given. The printed key is compared field by field, and the ids and announcement times of a market are not kept.
- Subscription: a frame sent while connected is processed in order; the subscribe message of the open callback adds to what the connection has already subscribed; `stop` and a second `start` are left out.
- Broker: the polling of order status inside an attempt, which changes nothing, and the decoding of scaled amounts before the fill is normalised.
- The printing of the alignment statistics, the signal engine, command line, dotenv, loggers, probes, dashboards and the Python daemon: plumbing or easy members.
