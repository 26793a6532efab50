# A verified model of the trading platform's ledgers

This project models the stateful cores of a trading platform and proves what they keep over whole runs: the
bar-by-bar backtest engine, the analytics layer that rebuilds closed trades from a fill log, the multi-symbol paper
executor, the Polymarket order executor with its risk guard, positions ledger and monitor, the dominance scan over
order books, the range-aware market-data cache, the login throttle, and the performance figures. Check it with
`dafny verify dfyconfig.toml`.

Money, prices and quantities are `real`. Everything the code learns from outside (a strategy's signals, a risk
manager's answers, a venue's replies, quotes, market resolutions, provider data, clocks, password checks) is an
arbitrary input, so each theorem holds for every risk manager, every venue and every pattern of failures.

## How the modules fit together

| file | content |
|---|---|
| `Prelude`, `Sorting`, `Dicts` | options, rounding and weighted averages; Python's stable sort; insertion-ordered dictionaries and sums over them |
| `BacktestEngine`, `BacktestProperties`, `BacktestSizing` | the simulation loop of the engine, what holds on every bar of every run, and what each bar trades |
| `PerformanceLayer`, `Outcomes`, `BacktestReplay`, `EqualTimes` | sorting and replaying a fill log, what it reports, its agreement with the engine, and what a sale and a purchase at one time do to it |
| `PaperExecutor`, `PaperAcceptance`, `PaperSessions`, `PaperReplay`, `PaperRestore`, `PaperBacktest`, `PaperExamples` | the paper ledger as a class, which orders it fills, every sequence of orders, marks and queries, the replay of its log, snapshots, its agreement with the engine, and small sessions |
| `PolyPositions`, `PolyExecutor`, `PolyMonitor`, `PolyOrders`, `PolyClosing` | the positions ledger and status machine, order placement behind the risk guard, the monitor, what a call orders, and when a position is closed |
| `PolyRuns`, `PolyPayoff`, `PolySales`, `PolyBuyLow`, `PolyLockUp`, `PolyExamples` | every interleaving of execution and monitoring, what positions pay, what sales are booked, what becomes of relative-value trades, which positions can still be ended and which desks can still trade, and small desks |
| `Opportunities`, `Dominance` | the detectors, and what checking adjacent thresholds implies for all pairs |
| `RangeCache` | normalisation, slicing, retries and the cache, against one fixed series |
| `LoginThrottle` | the counting window and block period of the login |
| `Metrics` | drawdown, returns and expectancy against their plain definitions |

Code that updates state is modelled by classes and methods with loops; each method is proved equal to a function of
its inputs or of the old state, and the theorems are about those functions over whole runs.

## What the proofs found in the code

Where a property one would expect fails, the exact condition under which it holds is proved, and a concrete input on
which it fails is given.

- Replaying a paper session reproduces the live ledger after every fill if and only if no trade ever leaves a
  quantity strictly between zero and 1e-12 (`PaperReplay.ReplayExactIffDustFree`, `PaperExamples.DustNotReplayed`);
  trading in lots is enough. Paper and backtest ledgers agree under the same condition
  (`PaperBacktest.PaperAgreesIffNoDust`, `PaperExamples.DustyLedgersDiffer`).
- A log is replayed in its own order if and only if it follows the replay's sort key. At equal times purchases are
  moved before sales, which changes the reported P&L (`PerformanceLayer.InLogOrderIff`, `SameTimeReordered`; for runs
  of the engine `BacktestReplay.LogOrderIff`, `EqualTimesMisreplayed`). With one such pair the replay still agrees if
  and only if the purchase is at the average price of what was sold or the position has been flat since
  (`EqualTimes.EngineAgreesIff`, `SessionAgreesIff`).
- Something is bought off the books if and only if the venue accepts an attempt of a call with a price that cannot be
  read (`PolyRuns.NothingOffTheBooksIff`, `PolyExamples.BoughtOffTheBooks`).
- What the monitor sells is booked unless a token gets no readable acceptance or the record cannot be closed any more,
  for example because the same step has just marked it stale (`PolySales.NothingSoldOffTheBooksIff`,
  `PolyExamples.StaleSoldOffTheBooks`).
- The monitor settles a record of a resolved market if and only if the record is open. For an unhedged one
  `check_resolution` answers True, but the record stays unhedged without a P&L and keeps its slot
  (`PolyPayoff.ResolvedIff`, `UnhedgedStaysStuck`, `PolyExamples.WinningLegStaysUnhedged`).
- A watched record is closed if and only if the step tries to sell it, the ledger lets it be closed, and the venue
  accepts every token with a readable price (`PolySales.ClosedIff`). A relative-value position (side BUY_LOW) has no
  token the monitor would sell, so it is never closed (`PolyBuyLow.BuyLowOnlyLoses`, `PolyExamples.DeskCanLockUp`).
- Resolution records what the held tokens pay, minus their cost, except for a BUY_LOW token whose outcome wins and for
  pairs without recorded contracts (`PolyPayoff.SettlementPaysTokensIff`, `PolyExamples.BuyLowMarkedAboveSettlement`).
- An active position can still be ended if and only if it is open, or trading is live and the monitor finds a token of
  it to sell; a desk can trade again if and only if trading is live and the positions beyond reach leave a slot of the
  position cap (`PolyLockUp.CanEndIff`, `DeskTradesAgainIff`, `PolyExamples.DeskCanLockUp`).
- Closing a pair sells half of the contracts it holds of each outcome and books those proceeds against the whole cost
  (`PolyPayoff.WholeHoldingSoldIff`, `PairCloseSellsHalf`, `PolyExamples.PairClosedAtHalf`).
- The mark of a position at settled bids is what resolution pays, except for BUY_LOW tokens, pairs without recorded
  contracts, and pairs in markets that name neither outcome (`PolyPayoff.MarkAgreesWithSettlementIff`,
  `PolyExamples.BuyLowMarkedAboveSettlement`).
- Checking adjacent thresholds can miss a violation among n markets if and only if n >= 3 and the minimum edge is
  positive, and then of any size below (n - 1) edges (`Dominance.AdjacentMissesIff`, `QuietBoundIsSharp`,
  `OuterPairMissed`).
- A request with an open end can be served short from a narrower cache, exactly when the series reaches past the cache
  on the open side (`RangeCache.HitExactIff`, `OpenEndServedShort`).
- A restored paper executor forgets the realised P&L of closed symbols; the accounting identity survives if and only
  if that sum is zero (`PaperRestore.RestoreKeepsAccountsIff`, `PaperExamples.RestoreForgetsGain`). It does not know
  its day either, so the first order re-anchors the daily loss cap to the equity at cost
  (`PaperRestore.RestoredAnchorKeptIff`, `PaperExamples.RestoreMovesAnchor`).
- The paper executor checks no cash: it stays non-negative if and only if each accepted purchase costs no more than the
  cash before it (`PaperSessions.CashNonNegativeIff`, `PaperExamples.CashGoesNegative`).
- A scale-in restarts the trailing peak of the backtest, so the peak is the highest price since the opening if and only
  if every earlier bar has been overtaken since the last buy (`BacktestProperties.PeakSinceOpeningIff`,
  `ScaleInLowersPeak`).
- An exit fills at its level wherever the bar lies. The level was traded on the bar if and only if a stop is not above
  the high, or a target not below the low (`BacktestProperties.ExitInsideBarIff`, `GapSoldAboveBar`).

## Model

| member | source | states |
|---|---|---|
| `BacktestEngine.CheckInput` | src/backtest/engine.py:320-358 | reports the first failing check in the order emptiness, positive prices, highs and lows, signals, and none exactly for valid data |
| `BacktestEngine.ProcessBar` | src/backtest/engine.py:136-278 | the loop body that updates cash, shares, entry, peak, trade and rejection computes the step function of one bar |
| `BacktestEngine.Run` | src/backtest/engine.py:73-318 | refuses exactly the invalid inputs; otherwise the equity curve, position series, trade log and rejection count are those of the run, bar by bar |
| `BacktestProperties.ExitKind` | src/backtest/engine.py:360-417 | an exit fires exactly when a stop, target or trailing level is reached; it sells the whole position at the slipped level of the first one in that order and names it |
| `BacktestProperties.StepKind` | src/backtest/engine.py:136-278 | every bar does nothing, buys once within the target weight, or sells once |
| `BacktestProperties.LoopInvariant` | src/backtest/engine.py:127-278 | on every bar of every run shares are non-negative, and an entry price and a trailing peak are present exactly while more than EPSILON is held |
| `BacktestProperties.CashFloor` | src/backtest/engine.py:434-498 | cash is at least minus the fee times the number of sells since the last buy |
| `BacktestProperties.BuyRespectsSizing` | src/backtest/engine.py:198-240 | each buy leaves at most position_size_pct of the pre-trade equity in the asset, cash non-negative, and fills at the slipped close |
| `BacktestSizing.BarClosesGap` | src/backtest/engine.py:178-278 | on every bar without an exit, the gap to the target weight (signal times position size, or the manager's target, cut to the position size) is left alone within EPSILON, vetoed and counted, bought in full or for all the cash, or sold in full or down to nothing, at the slipped close |
| `BacktestSizing.EndsAtTarget` | src/backtest/engine.py:178-278 | such a trade ends with the holding worth exactly its share of the equity, unless a purchase has used up the cash or a sale everything held |
| `BacktestSizing.RejectionIff` | src/backtest/engine.py:202-264 | a rejection is counted exactly on the bars without an exit where the manager vetoes a gap above EPSILON |
| `BacktestSizing.ExitedIff` | src/backtest/engine.py:136-176 | a bar of a run exits exactly when it starts with a holding and reaches one of the three levels, and names the first of them |
| `BacktestSizing.ExitFillsAt` | src/backtest/engine.py:360-417 | an exit sells everything at entry * (1 - sl), entry * (1 + tp) or peak * (1 - ts), each less slippage |
| `BacktestSizing.TradeReports` | src/backtest/engine.py:434-519 | every logged trade carries its bar's time, the fee, and the cash, shares and equity that the run has after it |
| `BacktestSizing.PositionIsShare` | src/backtest/engine.py:280-284 | the reported position times the equity is the worth of the holding, and zero without equity |
| `BacktestSizing.SignalsAreClipped` | src/backtest/engine.py:352-358 | signals within zero and one are used as they are, others as the nearer bound |
| `BacktestProperties.EntryBetweenBuys` | src/backtest/engine.py:445-450 | while something is held the entry price lies between two fill prices of buys made since the account was last flat |
| `BacktestProperties.PeakSinceLastBuy` | src/backtest/engine.py:136-143 | the trailing peak is the maximum of the last buy's fill and all highs from its bar on, so a scale-in restarts it |
| `BacktestProperties.PeakSinceOpeningIff` | src/backtest/engine.py:136-143 | the trailing peak is the highest price since the position was opened exactly when each bar before the last buy is overtaken by that buy's bar or a later one |
| `BacktestProperties.ScaleInLowersPeak` | src/backtest/engine.py:228-240 | a concrete run whose second buy lowers the trailing peak from 120 to 50 while the position stays open |
| `BacktestProperties.EquityStep` | src/backtest/engine.py:280-284 | one bar moves equity by the price move of what was held into it, minus friction and zeroed dust, and never zeroes more than EPSILON shares |
| `BacktestProperties.SelfFinancing` | src/backtest/engine.py:127-284 | final equity is the initial capital plus all holding gains minus all frictions and dust, exactly, in every run |
| `BacktestProperties.StopOutLoss` | src/backtest/engine.py:372-385 | the cash lost by a position opened from flat and stopped out with no trade between, as a closed formula of the opening bar alone |
| `BacktestProperties.EffectiveSizeIs` | src/cli/services.py:140-144 | the position size risks at most one percent over the stop distance, never passes the cap, and reaches one of the two |
| `BacktestProperties.StopOutBound` | src/cli/services.py:140-144 | with the one-percent sizing rule that loss is at most (0.01/sl)E(1+s)(sl+s-sl*s) plus two fees, and 0.01E plus two fees at zero slippage |
| `BacktestProperties.StopOutBoundAttained` | src/cli/services.py:140-144 | a concrete run without slippage and fees that is stopped out at a loss of exactly one percent, so the bound cannot be lowered |
| `BacktestProperties.ExitInsideBarIff` | src/backtest/engine.py:372-417 | on every exit of every run, the level filled at was traded on its bar exactly when a stop lies at or below the bar's high, or a target at or above its low |
| `BacktestProperties.GapSoldAboveBar` | src/backtest/engine.py:372-385 | a concrete run that is stopped out at 95 on a bar whose high is 90 |
| `BacktestProperties.DustHappens` | src/backtest/engine.py:494-496 | a concrete run in which a sell zeroes half an EPSILON |
| `PerformanceLayer.ReconstructOutcomes` | src/analytics/performance_layer.py:257-396 | the two loops and the sort compute the replay of the ordered, validated fills |
| `PerformanceLayer.FillLeqIsOrder` | src/analytics/performance_layer.py:296-303 | the sort key (time, buys first, strategy, symbol) is a total preorder |
| `PerformanceLayer.KeyComparesInOrder` | src/analytics/performance_layer.py:296-303 | a fill goes strictly before another by time, then as a purchase, then by strategy, then by symbol |
| `PerformanceLayer.NormalizePermutation` | src/analytics/performance_layer.py:266-294 | rearranging the log rearranges the validated fills and loses none |
| `PerformanceLayer.OrderIrrelevant` | src/analytics/performance_layer.py:296-303 | with distinct times every rearrangement of a log is replayed in time order |
| `PerformanceLayer.InLogOrderIff` | src/analytics/performance_layer.py:296-303 | a log is replayed in its own order exactly when it follows the sort key |
| `PerformanceLayer.SameTimeReordered` | src/analytics/performance_layer.py:296-303 | a concrete log with a sale and a later purchase at one time, whose gain of 1 is reported as a loss of 0.5 |
| `PerformanceLayer.ReplayOne` | src/analytics/performance_layer.py:308-394 | one fill changes only its own position, and the P&L of that position by its outcome |
| `PerformanceLayer.HoldsAreExact` | src/analytics/performance_layer.py:334-370 | the averaged entry time never lies after the exit, so no holding time is clamped |
| `Outcomes.PositionIsPool` | src/analytics/performance_layer.py:308-394 | after every log each position is the pool of what is left of its purchases, with their quantity, mean price and mean time |
| `Outcomes.FillReports` | src/analytics/performance_layer.py:347-383 | a fill reports one outcome when it closes some of more than EPSILON, and none otherwise |
| `Outcomes.TradesAreReported` | src/analytics/performance_layer.py:257-396 | every reported outcome is some fill's: P&L above the closed share of the cost, return as that P&L over the cost, exit at the fill, entry at the lots' mean time, tags of the fill |
| `Outcomes.ReturnHasSignOfPnl` | src/analytics/performance_layer.py:362-363 | a reported return is positive exactly when the P&L beside it is, and negative likewise |
| `Outcomes.RowIsKept` | src/analytics/performance_layer.py:266-294 | which stored rows are replayed, and that context only fills what a row leaves out |
| `BacktestReplay.BuyAgrees` | src/analytics/performance_layer.py:325-345 | the analytics buy keeps the replayed holding equal to the engine's and costs one fee of book value |
| `BacktestReplay.SellAgrees` | src/analytics/performance_layer.py:347-394 | the analytics sell keeps the holdings equal, and its P&L is the change of book value up to the fee and the basis of zeroed dust |
| `BacktestReplay.ReplayReproduces` | src/analytics/performance_layer.py:305-396 | after every bar the replayed log has the engine's quantity and average entry, and capital + P&L - fees - dust basis = cash + shares * entry |
| `BacktestReplay.AnalyticsAgreesWithEngine` | src/analytics/performance_layer.py:257-396 | the same for the log handed over in any order when bar times increase |
| `BacktestReplay.LogOrderIff` | src/analytics/performance_layer.py:296-303 | a run's log is replayed in its own order exactly when times never decrease and at one time no sale comes before a purchase |
| `BacktestReplay.AgreesInLogOrder` | src/analytics/performance_layer.py:257-396 | the replay agrees with the engine for every such run, repeated bar times included |
| `BacktestReplay.EqualTimesMisreplayed` | src/analytics/performance_layer.py:296-303 | a concrete run with a sale and a later purchase at one time, which holds 250 at 8 but is replayed as holding them at 4 |
| `EqualTimes.ExchangeIff` | src/analytics/performance_layer.py:305-396 | exchanging a covered sale with the purchase after it keeps quantity and explained cash after every later fill, and gives the same average and P&L exactly when the purchase is at the average price or the position has been flat since |
| `EqualTimes.EngineAgreesIff` | src/analytics/performance_layer.py:257-396 | for every run without dust whose log has one sale before a purchase at the same time, the replay agrees with the engine exactly when the purchase fills at the entry price before the sale or nothing is held at some later bar |
| `PaperBacktest.PaperAgreesIffNoDust` | src/execution/executor.py:66-154 | a backtest's trades submitted as paper orders give the engine's quantity, average entry and cash plus fees after every bar, exactly when the engine never zeroes dust |
| `PaperExamples.DustyLedgersDiffer` | src/execution/executor.py:288-316 | a concrete backtest whose trades, submitted as paper orders with no limit reached, leave half an EPSILON that the engine has zeroed |
| `PaperExecutor.PaperTradingExecutor.SubmitOrder` | src/execution/executor.py:66-154 | the new state and the order's status and reasons are those of the submission function; submitted = filled + rejected, and no order can still be cancelled |
| `PaperExecutor.PaperTradingExecutor.CheckOrder` | src/execution/executor.py:79-127 | the ordered checks, with the day anchor, peak and kill switch they move, refuse with the first reason that applies |
| `PaperExecutor.PaperTradingExecutor.FillOrder` | src/execution/executor.py:129-152 | books the simulated broker's fill and turns the kill switch on at the daily loss cap |
| `PaperExecutor.PaperTradingExecutor.Apply` | src/execution/executor.py:288-316 | cash, the symbol's position and its last price after a fill |
| `PaperExecutor.PaperTradingExecutor.CancelOrder` | src/execution/executor.py:156-164 | cancels the first waiting order with the id and nothing else; on a valid executor there never is one |
| `PaperExecutor.PaperTradingExecutor.CurrentEquity` | src/execution/executor.py:179-187 | returns cash plus the marked value of every position and raises the peak to it |
| `PaperExecutor.PaperTradingExecutor.MarkPositions` | src/execution/executor.py:166-177 | takes positive prices of known symbols as marks, re-marks every position, and returns the total unrealised P&L |
| `PaperExecutor.PaperTradingExecutor.RealizedPnl` | src/execution/executor.py:189-191 | returns the sum over all positions |
| `PaperExecutor.PaperTradingExecutor.UpdateDayAnchor` | src/execution/executor.py:281-286 | on a new day the day-start equity becomes the current equity, otherwise nothing changes |
| `PaperExecutor.PaperTradingExecutor.SnapshotState` | src/execution/executor.py:248-266 | returns cash, anchors and exactly the open positions |
| `PaperExecutor.PaperTradingExecutor.RestoreState` | src/execution/executor.py:219-246 | replaces cash, anchors, positions, kill switch and marks, and leaves the current day |
| `PaperExecutor.AdmitKeeps` | src/execution/executor.py:79-127 | before the broker a submission can move only the day anchor, the peak and the kill switch, and nothing at all once killed |
| `PaperAcceptance.AcceptedIff` | src/execution/executor.py:66-132 | an order is filled, at its own price, exactly when eleven spelled-out conditions hold, from trading enabled to the manager's approval |
| `PaperAcceptance.FirstReason` | src/execution/executor.py:79-127 | a refused order is given the reason of the first condition that fails |
| `PaperAcceptance.SubmissionLeaves` | src/execution/executor.py:79-152 | a refusal moves no money; the switch is turned on exactly by a killed manager, a veto that asks for it or the loss cap; the day is anchored exactly once the ticket is sound |
| `PaperSessions.FillConserves` | src/execution/executor.py:288-316 | a fill moves money between cash, cost basis and realised P&L without creating any, and is worth nothing at its own price |
| `PaperSessions.FillMovesEquityByRemark` | src/execution/executor.py:288-316 | a fill at price p changes equity by old quantity times (p - old mark) |
| `PaperSessions.AlwaysGood` | src/execution/executor.py:66-187 | the accounting identity, the position cap and peak >= day start hold after every sequence of orders, marks, queries and cancellations |
| `PaperSessions.BooksBalance` | src/execution/executor.py:179-195 | in every reachable state cash + cost basis = starting cash + realised P&L, and equity = starting cash + realised + unrealised P&L |
| `PaperSessions.OpenPositionsBounded` | src/execution/executor.py:104-109 | never more than max_open_positions symbols are held, and no quantity is negative |
| `PaperSessions.KilledIsFrozen` | src/execution/executor.py:81-83 | once killed, the switch stays on and cash, fills, quantities, averages and realised P&L never change again |
| `PaperSessions.LossCapKills` | src/execution/executor.py:143-146 | after an accepted order the switch is on exactly when equity is at or below day start minus the cap |
| `PaperSessions.CashNonNegativeIff` | src/execution/executor.py:99-132 | over every session cash stays non-negative exactly when each accepted purchase costs no more than the cash before it, which the executor does not check |
| `PaperExamples.CashGoesNegative` | src/execution/executor.py:99-132 | a concrete session that buys for 1000 with 999 in cash |
| `PaperSessions.PeakBoundsEquity` | src/execution/executor.py:179-187 | the peak never falls, only ever moves to a computed equity, and bounds every computed one: for a new day, for the risk manager whatever it answers, after fills and at queries |
| `PaperReplay.LedgerIsFoldOfLog` | src/execution/executor.py:129-132 | every quantity, average and realised P&L is the fold of the executor's own fill log |
| `PaperReplay.FillMatches` | src/analytics/performance_layer.py:387-391 | one fill keeps the replayed and the live position equal exactly when it leaves no dust |
| `PaperReplay.ReplayExactIffDustFree` | src/analytics/performance_layer.py:305-396 | the replay, pooled over any run ids or isolated to one run, equals the live ledger after each fill for every symbol if and only if no quantity is ever left between zero and EPSILON |
| `PaperReplay.ReplayReproducesSession` | src/analytics/performance_layer.py:257-396 | for every session with increasing fill times, its log in any order replays to the live quantity, average and realised P&L, pooled or isolated by run, over-sized sells and sells on flat symbols included |
| `PaperReplay.ReplayReproducesInLogOrder` | src/analytics/performance_layer.py:257-396 | the same with equal fill times when the log follows the sort key |
| `EqualTimes.SessionAgreesIff` | src/analytics/performance_layer.py:257-396 | for every session whose log has one covered sale before a purchase at the same time, the replay agrees on a symbol exactly when the two fills are not both of it, or the purchase is at its average price, or none of it is held at some later moment |
| `PaperReplay.LotsAreDustFree` | src/execution/executor.py:288-314 | trading in multiples of one lot above EPSILON never leaves dust |
| `PaperExamples.DustNotReplayed` | src/analytics/performance_layer.py:387-391 | a concrete session whose sale leaves half an EPSILON, which the replay does not hold |
| `PaperExamples.EqualTimesNotReplayed` | src/analytics/performance_layer.py:296-303 | a concrete session with a sale and a later purchase at one time, whose realised gain the replay does not report |
| `PaperExamples.RestoreForgetsGain` | src/execution/executor.py:248-260 | a concrete session with a gain on a closed symbol, whose accounts do not balance once restored |
| `PaperExamples.RestoreMovesAnchor` | src/execution/executor.py:281-286 | the same session restored: the first order of the same day moves the day-start equity from 1000 to 1001 |
| `PaperRestore.RestoreKeepsOpenBooks` | src/execution/executor.py:219-266 | snapshot and restore keep cash, anchors and every open position, lose the closed symbols and their realised P&L, and leave the current day |
| `PaperRestore.RestoredEquityIsCost` | src/execution/executor.py:241-245 | equity right after a restore is cash plus cost basis |
| `PaperRestore.RestoredAnchorKeptIff` | src/execution/executor.py:281-286 | the first order after a restore keeps the saved day-start equity exactly when the executor already stood on that day or its equity at cost equals it |
| `PaperRestore.RemarkRestoresEquity` | src/execution/executor.py:166-187 | quoting the earlier marks once brings the earlier equity back exactly |
| `PaperRestore.RestoreKeepsAccountsIff` | src/execution/executor.py:248-260 | the accounting identity survives a restore exactly when the closed symbols' realised P&L sums to zero |
| `PolyPositions.PositionsLedger.AddRecord` | src/polymarket/positions.py:133-145 | appends the record and nothing else |
| `PolyPositions.PositionsLedger.Move` | src/polymarket/positions.py:173-222 | changes the first record with the id when the table allows the status, and answers False without any change otherwise |
| `PolyPositions.PositionsLedger.UpdateUnrealized` | src/polymarket/positions.py:159-171 | writes the unrealised fields of the first record with the id, without checking its status |
| `PolyPositions.PositionsLedger.OpenCount` | src/polymarket/positions.py:253-255 | counts the open, unhedged and closing records |
| `PolyPositions.PositionsLedger.TodaysPnl` | src/polymarket/positions.py:257-272 | sums the P&L of finished records that were opened today, which is the code's rule and not its comment's |
| `PolyPositions.TransitionProgresses` | src/polymarket/positions.py:173-222 | a transition keeps identity and cost of every record and, once terminal, its status, P&L, exit price and closing time |
| `PolyPositions.TableIsLifeCycle` | src/polymarket/positions.py:27-34 | the transition table admits exactly the histories open (closing+ closed? / resolved / stale)? and unhedged (closing+ closed? / closed)? |
| `PolyPositions.FinalisedAtMostOnce` | src/polymarket/positions.py:27-40 | a history that follows the table is finalised at most once, by its last status |
| `PolyExecutor.Exchange.Place` | src/polymarket/executor.py:386-448 | retries transient errors up to the limit, stops at the first acceptance or fatal error, and never reaches the venue at price zero |
| `PolyExecutor.RiskGuard.Check` | src/polymarket/risk.py:96-225 | reports the first of the eight ordered checks that fails |
| `PolyOrders.RiskIff` | src/polymarket/risk.py:96-225 | the guard approves exactly when eight spelled-out conditions hold, and reports the first that fails |
| `PolyOrders.DailyPnlCounts` | src/polymarket/positions.py:257-272 | a record adds its P&L to today's exactly when it was opened today and is closed or resolved |
| `PolyExecutor.ExecuteTwoLegs` | src/polymarket/executor.py:455-575 | ledger, venue and result of a two-leg trade under every leg outcome |
| `PolyExecutor.ExecuteCorrelated` | src/polymarket/executor.py:582-747 | ledger, venue and result of a relative-value trade, whose sell leg is disabled |
| `PolyExecutor.ExecuteCarry` | src/polymarket/executor.py:873-939 | ledger, venue and result of a resolution-carry trade |
| `PolyExecutor.ExecuteOpportunity` | src/polymarket/executor.py:946-1025 | scope, risk, dry-run and authorisation gates in order, then the strategy's trade |
| `PolyOrders.RefusedAt` | src/polymarket/executor.py:946-1025 | a call is refused for the first of twelve spelled-out conditions that fails, and then changes nothing |
| `PolyOrders.PlacedIff` | src/polymarket/executor.py:386-448 | an order is accepted exactly when it has a price and the venue accepts it within the allowed attempts, before any fatal error |
| `PolyOrders.CallOrders` | src/polymarket/executor.py:455-939 | a call goes to the venue exactly when all twelve hold; what it records is what it ordered: n of each token at its own price for n * (yes + no) = size, or one token for the size, at the prices the venue answered |
| `PolyMonitor.SellTokens` | src/polymarket/monitor.py:320-342 | sells every token in turn, adding up what the accepted legs bring |
| `PolyMonitor.Close` | src/polymarket/monitor.py:261-365 | marks the record closing, sells its tokens, and closes it with its P&L only when every leg filled |
| `PolyMonitor.Resolve` | src/polymarket/monitor.py:200-254 | moves the record to resolved with its payout, or to stale after the end date |
| `PolyMonitor.Watch` | src/polymarket/monitor.py:372-425 | one monitor cycle of one record |
| `PolyMonitor.MonitorPositions` | src/polymarket/monitor.py:519-543 | acts on each active record of one loaded snapshot, in order (see `PolySales.PassVisitsAll`) |
| `PolyClosing.MarksAre` | src/polymarket/monitor.py:66-96 | the unrealised P&L and percentage of every record at every pair of bids, from holding, bids and cost |
| `PolyClosing.ReasonIff` | src/polymarket/monitor.py:111-157 | there is a reason to close exactly when gain or loss reaches its percentage of the cost, or the holding or the grace time is over, and it is the first of these |
| `PolySales.GoesOnToClosing` | src/polymarket/monitor.py:372-425 | a live step on an open or unhedged record not found resolved goes on to closing exactly when that holds, unless it has just gone stale |
| `PolySales.DryRunOnlyWatches` | src/polymarket/monitor.py:272-282 | in a dry run a step sells and closes nothing, and only settles or marks stale |
| `PolySales.StepRecordsMarks` | src/polymarket/monitor.py:386-395 | every step on a record that is not closing writes these marks, rounded |
| `Prelude.RoundsToNearestEven` | src/polymarket/monitor.py:391-395 | rounding goes to the nearest multiple of the last decimal, and of two to the even one |
| `PolySales.StepCloses` | src/polymarket/monitor.py:315-358 | a step that closes a record has ordered an equal part of the holding of each token, a cent below its bid and never below a cent, and records what the venue paid |
| `PolySales.SaleTriesEach` | src/polymarket/monitor.py:320-342 | a sale orders every token in turn, whatever becomes of the others |
| `PolySales.PassVisitsAll` | src/polymarket/monitor.py:519-543 | one pass settles every open record found resolved, marks every open and unhedged one at its own bids, and leaves finished ones alone |
| `PolyRuns.PlaceAccepts` | src/polymarket/executor.py:386-448 | an order that succeeds adds exactly its own leg to the venue, one that fails adds none |
| `PolyRuns.ExecuteOutcome` | src/polymarket/executor.py:946-1025 | a call adds one open record costing what it bought, or one unhedged record for its first leg, or nothing; only a reply that cannot be read buys without a record; records are added only below the cap |
| `PolyRuns.OnlyThroughTheGate` | src/polymarket/risk.py:111-217 | a call that changes the ledger or the venue passed all eight checks, live, authorised and with gas |
| `PolyRuns.MonitorOneMonitors` | src/polymarket/monitor.py:372-425 | a monitor step on any snapshot, however old, loses no record, moves each only forward and buys nothing |
| `PolyRuns.CapsHold` | src/polymarket/risk.py:177-189 | in every interleaving active positions stay within max_positions and their cost within max_positions * max_trade_usdc |
| `PolyRuns.ExecuteRaisesIff` | src/polymarket/executor.py:499-543 | a call ends by an exception exactly when the venue accepts one of its attempts with a price that cannot be read |
| `PolyRuns.NothingOffTheBooksIff` | src/polymarket/executor.py:455-575 | total USDC bought equals total cost recorded if and only if the venue never accepts an attempt of a call with an unreadable price; it is never less |
| `PolyExamples.BoughtOffTheBooks` | src/polymarket/executor.py:711-712 | a concrete desk that spends 10 USDC and records nothing |
| `PolySales.UnbookedSaleIff` | src/polymarket/monitor.py:284-358 | a monitor step sells without booking a close exactly when it tries to sell, the venue accepts an attempt, and some token gets no readable acceptance or the record cannot move on to closed |
| `PolySales.ClosedIff` | src/polymarket/monitor.py:284-425 | for every snapshot and ledger, a monitor step closes a record not yet closed exactly when it tries to sell, the ledger lets the record be closed, and every token gets a readable acceptance |
| `PolySales.NothingSoldOffTheBooksIff` | src/polymarket/monitor.py:372-425 | over every run, each leg sold belongs to a recorded close if and only if no step is such a sale |
| `PolyExamples.StaleSoldOffTheBooks` | src/polymarket/monitor.py:212-227 | a concrete step that marks a record stale and then sells both of its legs without recording anything |
| `PolyRuns.LivesFollowTheTable` | src/polymarket/positions.py:173-222 | every record's history is a life cycle of the table ending in its status, finalised at most once, with a P&L exactly when finalised |
| `PolyRuns.TerminalIsForever` | src/polymarket/monitor.py:519-543 | records are never lost and terminal ones keep status, P&L, exit and closing time under every later call and every stale snapshot |
| `PolyPayoff.PairRecord` | src/polymarket/executor.py:474-481 | a pair bought on both legs costs exactly the clamped trade size and holds size / (yes + no price) of each outcome, as many of each as the venue accepted an order for |
| `PolyPayoff.PairPays` | src/polymarket/monitor.py:180-197 | whichever outcome wins, a flagged pair realises n(1 - cost) to within half of the fourth decimal, at least n times fee plus edge |
| `PolyPayoff.LockedPayoff` | src/polymarket/opportunities.py:129-134 | the same from detection to resolution across any run in between, with both tokens ordered at their asks |
| `PolyPayoff.MonitorTouchesOne` | src/polymarket/monitor.py:372-425 | a monitor step leaves every other record exactly as it was |
| `PolyPayoff.ResolvedMarketBlocks` | src/polymarket/monitor.py:246-254 | on an unhedged record of a resolved market a monitor step changes nothing but the unrealised fields |
| `PolyPayoff.ResolvedIff` | src/polymarket/monitor.py:409-414 | a monitor step settles an active record by resolution exactly when the record is open and its market is found resolved |
| `PolyPayoff.UnhedgedStaysStuck` | src/polymarket/positions.py:30-30 | over any run that finds its market resolved an unhedged record keeps its status, its slot and no P&L |
| `PolyExamples.WinningLegStaysUnhedged` | src/polymarket/monitor.py:246-254 | a concrete desk whose winning YES leg stays unhedged, without a P&L, in the desk's only slot |
| `PolyPayoff.WholeHoldingSoldIff` | src/polymarket/monitor.py:315-318 | closing sells the whole holding of each outcome exactly when there is one token to sell, or two for a pair whose contracts are estimated from its cost, or nothing is held |
| `PolyPayoff.PairCloseSellsHalf` | src/polymarket/monitor.py:315-358 | closing a pair sells half the contracts of each outcome and records those proceeds minus the whole cost as P&L |
| `PolyExamples.PairClosedAtHalf` | src/polymarket/monitor.py:315-358 | a concrete desk whose pair, marked at a gain of 0.25, is closed with a recorded loss of 5, half of its cost |
| `PolyPayoff.MarkAgreesWithSettlementIff` | src/polymarket/monitor.py:66-96 | for every record and outcome, exactly when the unrealised P&L at settled bids is the P&L that resolution records |
| `PolyPayoff.SettlementPaysTokensIff` | src/polymarket/monitor.py:180-197 | for every record and outcome, resolution records what the held tokens pay minus their cost exactly when nothing is held, a BUY_LOW record's outcome loses, or any other record is not a pair with estimated contracts |
| `PolyExamples.BuyLowMarkedAboveSettlement` | src/polymarket/monitor.py:66-96 | a concrete BUY_LOW record whose 20 tokens pay 20, which is marked at no gain and settled at a loss of 10 |
| `PolyPayoff.MonitorPassKeeps` | src/polymarket/monitor.py:529-543 | a whole monitor pass keeps what each step keeps |
| `PolyExamples.NegativeQuotePassesCap` | src/polymarket/executor.py:478-526 | a concrete desk whose negative NO quote leaves twice the maximum exposure on its books, so the caps need non-negative quotes |
| `PolyBuyLow.BuyLowOnlyLoses` | src/polymarket/monitor.py:187-197 | a BUY_LOW record is never closed, and any P&L recorded for it is minus its whole cost |
| `PolyLockUp.EndsIff` | src/polymarket/monitor.py:200-425 | a monitor step on any snapshot takes an active record off the active ones exactly when it is open and found resolved or past its end, or it is sold and closed |
| `PolyLockUp.CanEndIff` | src/polymarket/monitor.py:284-425 | in every reachable state some venue and some continuation end an active record exactly when it is open, or trading is live and it has a token the monitor would sell |
| `PolyLockUp.StuckIsForever` | src/polymarket/monitor.py:306-313 | a closing or unhedged record without such a token stays so, in its slot, in every later state |
| `PolyLockUp.DeskTradesAgainIff` | src/polymarket/risk.py:177-189 | in every reachable state some venue and some continuation bring another trade exactly when trading is live and the stuck records leave a slot of the position cap |
| `PolyLockUp.DeskLocksUp` | src/polymarket/risk.py:177-189 | once stuck records fill the position cap, every later call of the run is refused and changes nothing |
| `PolyExamples.DeskCanLockUp` | src/polymarket/monitor.py:284-313 | a concrete desk with a cap of one position that locks up after one trade and one monitor step |
| `Opportunities.DetectSpreads` | src/polymarket/opportunities.py:117-162 | returns the flagged books in order |
| `Opportunities.FlaggedSpreads` | src/polymarket/opportunities.py:129-134 | an opportunity is reported exactly for the books whose two asks and fee leave the minimum edge, quoting both tokens at their asks |
| `Opportunities.SpreadsInOrder` | src/polymarket/opportunities.py:117-162 | books are judged one by one and reported in their order |
| `Opportunities.DetectViolations` | src/polymarket/opportunities.py:334-430 | collects, groups by topic, sorts each group and checks its adjacent pairs |
| `Dominance.GroupsAreTopics` | src/polymarket/opportunities.py:370-373 | each group holds exactly the candidates of its topic, in order |
| `Dominance.CandidatesAre` | src/polymarket/opportunities.py:356-368 | the candidates are exactly the books whose questions name a threshold |
| `Dominance.ReportedExactly` | src/polymarket/opportunities.py:377-428 | an opportunity is reported exactly for two neighbours in threshold order on one topic whose mid quotes rise by at least the minimum edge, to buy the lower market's token at its ask |
| `Dominance.QuietGroupBound` | src/polymarket/opportunities.py:382-391 | without a flagged pair, the rise from i to j is below (j - i) edges; at a minimum edge of zero or less there is no rise |
| `Dominance.BigRiseIsFlagged` | src/polymarket/opportunities.py:382-391 | a rise of (j - i) edges or more forces a report between i and j |
| `Dominance.QuietBoundIsSharp` | src/polymarket/opportunities.py:382-391 | every rise below (n - 1) edges is hidden by some sorted group of n markets without a report |
| `Dominance.AdjacentMissesIff` | src/polymarket/opportunities.py:382-391 | a sorted group of n markets can hide a violation exactly when n >= 3 and the minimum edge is positive |
| `Dominance.QuietScanByDistance` | src/polymarket/opportunities.py:357-391 | a scan that reports nothing bounds every pair on every topic by its distance in threshold order, and allows no rise at an edge of zero or less |
| `Dominance.QuietScanBoundsAllPairs` | src/polymarket/opportunities.py:357-391 | the same for two candidates of a topic, by the number of its markets |
| `Dominance.OuterPairMissed` | src/polymarket/opportunities.py:382-391 | three markets whose outer pair violates dominance by more than the minimum edge and is not reported |
| `RangeCache.HistoricalDataLoader.LoadRange` | src/data/loaders.py:63-168 | returned frame and new cache file of a load, with every other file untouched |
| `RangeCache.LoadIs` | src/data/loaders.py:63-168 | a load is served from the cache exactly when that covers it and no refresh is forced, else by the first answer with a readable row in range, which becomes the cache, and fails exactly when there is none |
| `RangeCache.SliceIs` | src/data/loaders.py:199-219 | slicing keeps exactly the rows between the bounds, in their order |
| `RangeCache.NormalizeMeans` | src/data/loaders.py:170-197 | a normalised frame strictly increases in time and holds exactly the readable rows that are the last of their timestamp |
| `RangeCache.NormalizeIdempotent` | src/data/loaders.py:170-197 | normalising a normalised frame changes nothing |
| `RangeCache.NormalizeCommutesWithSlice` | src/data/loaders.py:194-219 | normalising a range of the rows is slicing the normalised whole |
| `RangeCache.LoadKeepsCoherence` | src/data/loaders.py:119-149 | every load keeps the cache a contiguous range of the normalised series |
| `RangeCache.HitExactIff` | src/data/loaders.py:221-244 | a hit returns the series cut to the bounds exactly when the series does not reach past the cache on an open side |
| `RangeCache.BoundedLoadIsExact` | src/data/loaders.py:63-149 | a successful load, from cache or provider, returns the series cut to the bounds when a hit has both bounds |
| `RangeCache.CacheIsTransparent` | src/data/loaders.py:63-168 | the same after every history of hits, misses, failures and forced refreshes |
| `RangeCache.OpenEndServedShort` | src/data/loaders.py:240-244 | two concrete requests of which the second is served without the series' last row |
| `LoginThrottle.AuthService.AssertNotBlocked` | src/auth/service.py:136-149 | blocked exactly while the stored block lies in the future |
| `LoginThrottle.AuthService.RecordLoginFailure` | src/auth/service.py:88-122 | counts in the present window or opens a new one, and blocks at the maximum |
| `LoginThrottle.AuthService.TryLogin` | src/auth/service.py:151-192 | a blocked attempt changes nothing, a failure is recorded, a success clears the row, and no other row changes |
| `LoginThrottle.AlwaysTracked` | src/auth/service.py:88-149 | the row describes its window and every earlier window was at most full, over every interleaving of keys |
| `LoginThrottle.WindowBound` | src/auth/service.py:112-114 | one counting window holds at most M + W / B unblocked failures |
| `LoginThrottle.SpanBound` | src/auth/service.py:88-149 | a span T from the first failure holds at most (T / W + 1)(M + W / B) unblocked failures |
| `LoginThrottle.AnswerIs` | src/auth/service.py:136-192 | an attempt is rate limited exactly while the block lies ahead, granted exactly on the right password otherwise, and a granted one leaves no counters |
| `LoginThrottle.GrantStartsAfresh` | src/auth/service.py:151-192 | after a granted login the counters of a key are those of a history that starts there |
| `LoginThrottle.WindowBoundAlways` | src/auth/service.py:112-114 | the window bound over every history, granted logins included |
| `LoginThrottle.WindowBoundAttained` | src/auth/service.py:100-114 | for all settings some attack reaches the window bound, so no smaller one holds |
| `Metrics.DrawdownIsWorstFallFromPeak` | src/analytics/metrics.py:73-79 | the running-peak drawdown is the greatest fall from a highest point so far |
| `Metrics.DrawdownIsWorstFall` | src/analytics/metrics.py:73-79 | on a curve that is never negative it is the greatest relative fall over all pairs of positions, at most one, and one only if the curve reaches zero |
| `Metrics.NegativeCurveFallsFurther` | src/analytics/metrics.py:73-79 | a concrete curve below zero on which some pair falls further than the drawdown |
| `Metrics.CompoundingIsTotalReturn` | src/analytics/metrics.py:14-18 | compounding the per-bar returns gives one plus the total return |
| `Metrics.BothDrawdownsAgree` | src/analytics/performance_layer.py:802-809 | the drawdown the analytics layer rebuilds from returns equals the one computed from the equity curve |
| `Metrics.ExpectancyTimesCount` | src/analytics/performance_layer.py:780-788 | expectancy times the number of non-zero results is the total |
| `Metrics.DecidedAreNotZero` | src/analytics/performance_layer.py:780-788 | wins are the positive results and losses the negative ones, so the counted results are those not zero |

## Left out

- ExecuteTwoLegs: one method stands for both two-leg strategies; the underround variant at src/polymarket/executor.py:754-866 differs only in its requested size.
- CapsHold: assumes non-negative quotes; `PolyExamples.NegativeQuotePassesCap` shows why the caps need it.
- NothingOffTheBooksIff: assumes non-negative quotes, as the caps do.
- BuyLowOnlyLoses: assumes that each snapshot the monitor acts on was in the ledger at some earlier time, which is how the monitor obtains it.
- StuckIsForever: the same assumption.
- DeskLocksUp: the same assumption; `DeskTradesAgainIff` covers every continuation of every reachable state.
- AnalyticsAgreesWithEngine: assumes increasing bar times; with equal times it is false for some runs (`EqualTimesMisreplayed`); `AgreesInLogOrder` covers every run whose order survives and `EngineAgreesIff` those with one pair exchanged.
- AgreesInLogOrder: a sufficient condition; `EngineAgreesIff` is exact when one sale precedes one purchase of the same time, and runs with several such pairs are left open.
- EngineAgreesIff: assumes that the run zeroes no dust, which the replay would value at another average.
- ReplayReproducesInLogOrder: a sufficient condition; `SessionAgreesIff` is exact when one sale precedes one purchase of the same time, `PaperExamples.EqualTimesNotReplayed` shows a session that disagrees, and logs with several such pairs are left open.
- SessionAgreesIff: assumes that a sale of the same symbol is covered by what is held and that no fill leaves dust.
- PaperAgreesIffNoDust: assumes that the manager approves and that no limit or loss cap of the executor is reached.
- DrawdownIsWorstFall: curves that are never negative; below zero pairs and peaks differ (`NegativeCurveFallsFurther`) and `DrawdownIsWorstFallFromPeak` holds. All drawdowns start from a positive capital, which the engine demands; the source also divides by non-positive peaks.
- SpanBound: spans without a granted login; `GrantStartsAfresh` says that the count starts anew after one.
- CompoundingIsTotalReturn: curves without a zero before the last bar, where the source's returns are not finite.
- BothDrawdownsAgree: the same curves.
- Floating-point rounding: arithmetic is over `real`; the rounding that the source writes out (`round`) is modelled.
- The constructors' ValueErrors: configurations that the source refuses to construct are excluded by `Valid` predicates.
- A paper executor constructed with its kill switch on or with non-empty order lists; `RestoreState` reaches the former.
- The backtest's day-start equity, position target and peak passed to the risk manager: its answers are arbitrary, so what it is told does not matter.
- Non-numeric market data, missing columns and non-finite signals, which the engine refuses before it starts.
- Timestamps are integers: time zones, truncation to microseconds and the conversion of holding times to hours are not modelled.
- Case and white space of texts beyond blank symbols: sides, order types and winners are read as enumerations.
- Question parsing by regular expressions: a topic and a threshold are an arbitrary function of the question.
- The cross-market, underround and resolution-carry detectors, annualised edges, hours to resolution and the text of actions and notes.
- Record identifiers are counters, so fresh ones are unique; the source draws random UUIDs.
- Reading and writing the ledger file, its load and save errors, the fills file and the database copy of closed positions.
- Wallet balance, gas, free collateral, authorisation and every venue reply are inputs of a call; signing and HTTP are not part of this model.
- Several processes writing one ledger file: the source itself restricts the ledger to one process.
- Cache file names that collide, parquet errors, and delays between retries.
- Session tokens, password hashing, the switch that disables authentication and the logs of login attempts.
- Sharpe, Sortino, Calmar, volatility, annualised figures, profit factor and the win rate by strategy or regime.
- The daily summary at src/polymarket/monitor.py:456-512, whose output is a log line.
- Position objects that the paper executor changes in place are values in its dictionary; the source never shares them between symbols.
- Brokers other than the simulated one.
- Capital allocation and rebalancing, strategies, the tuner, the API and the dashboards.
