# Verified model of the funded-account, market-state and execution core

This project models, in Dafny, the parts of the trading repository that hold state or that exist in two
forms, and proves what each is for. Arithmetic is exact: money, prices and averages are `real`, counts are
integers.

* **Funded accounts.** A readable scalar simulator and a vectorised batch simulator exist for each of two games
  (the Combine and the XFA account). `FundedRules` is the specification, `FundedScalar` the two loops,
  `CombineBatch` and `XfaBatch` the matrices updated in place, `ReplayPaths` the paths both are fed, `XfaParity`
  and `ParityAudit` the agreement of the two forms, `FundedTheorems` what the games promise, `FundedWalks` what
  every trade and payout of a run does with all amounts written out, `FundedThresholds` exactly for which scenarios
  payouts are transfers.
* **Expanding volatility percentile.** `FenwickPercentile`: a Fenwick tree over compressed values against the
  definition that looks back over the series.
* **Causal HMM stream.** `CalendarMonths` (month arithmetic), `CompactHistory` (the growable, prunable store),
  `CausalRules` (one update as a value), `CausalStream` (the mutable stream and its checkpoints),
  `CausalWindows` (pruning is invisible), `CausalTheorems` (posterior, schedule and diagnostics over every run),
  `CausalOutcomes` (what every update gives back, and when and on what every model is fitted, told from the
  observations alone).
* **Orders, fills and positions.** `ExecutionTypes`, `ExecutionBook`, `ExecutionRuns`, `ExecutionRaises`,
  `ExecutionLifecycle`, `ExecutionEngine`, `ExecutionLockstep` for the engine and the paper broker; `PositionBooks` and `BooksTogether`
  for the three position books.
* **Session calendar and gaps.** `SessionCalendar`, `GapLabels` and `GapScan`.
* **Warm-up and ledger.** `BootstrapRunner` and `ObservationLedger`.

Methods and classes stand where the program updates state; each is proved against a function, and the
theorems are proved about that function. Fitting a model, filtering one observation, the fitted S2R
quantities and the digests are parameters of which only determinism is used.

## Where the code differs from what one would expect

* Adding calendar months with end-of-month clamping is not monotone: 30 January 23:00 and 31 January 01:00 change
  places when moved on by one month (`CalendarMonths.AddCanReorder`). `CalendarMonths.AddKeepsOrder` gives the exact
  condition. Pruning the store is nevertheless exact, because a refit is always at least one calendar month
  after the last (`CausalWindows.WindowMovesOn`).
* The extra `qualified_day` guard of the XFA batch is visible on some day sequences. For a scenario with positive
  risks it is invisible on every path exactly when no day is returned to
  (`XfaParity.GuardInvisibleExactlyWhen`), which every built batch satisfies.
* With positive risks, payouts are mere transfers, and an account that pays never outlasts one that does not,
  exactly for the scenarios without a threshold, with equal risks on both sides of it, or with a threshold at or
  below the loss floor (`FundedThresholds.PayoutsAreTransfersExactlyWhen`,
  `FundedThresholds.PayingNeverOutlastsExactlyWhen`). `FundedTheorems.AdaptiveRiskIsDifferent` is a literal witness.
* The execution engine writes the order before it checks the position's side. `ExecutionRuns.LateCall` is the guard
  of the calls that raise after that write; every other call that raises leaves the books unchanged
  (`ExecutionRuns.RefusalsChangeNothingExactlyWhen`). After such a call no list of fills that carry their orders'
  strategies and sides explains the books (`ExecutionRaises.LateRaiseBreaksBooks`).
  `ExecutionRaises.LateRaiseIsReachable` reaches one from empty books.
* The broker adapter likewise records a fill before it refuses it as over-closing. `PositionBooks.BrokerAdapter`
  keeps its positions equal to the recorded fills less these, and `PositionBooks.OverCloseIsRecorded` is a witness.
* The engine's and the paper broker's order books part exactly at a fill that the broker accepts and the engine
  refuses: a known fill id, an over-close, or a fill on the position's side for an order on the other
  (`ExecutionLockstep.FillKeepsLockstep`). `ExecutionLockstep.PartedBooksAreReachable` reaches one.
* The whole-gap classifier does not apply a snapshot to the weekend before a Monday it covers. Both classifiers call
  those minutes closed, except where the Monday's regular trading hours have been moved to include them
  (`GapLabels.WeekendBeforeCoveredMonday`, with the witness `GapLabels.ClassifiersCanDisagree`).
* The certificate's counts of duplicate and of backward stamps add what each chunk contains to what the pass over all
  stamps finds, so they depend on how the data are chunked (`GapScan.ChunkingShows`). They are those of the pass
  exactly when no chunk repeats a stamp, or exactly when every chunk rises
  (`GapScan.CountsIgnoreChunksExactlyWhen`); both vanish exactly when all stamps rise
  (`GapScan.CountsVanishExactlyWhen`); and while stamps never step back, their difference is the number of repeated
  stamps (`GapScan.CountsTellDistinct`).
* For special sessions the trade-date arithmetic cuts off whatever lies before 18:00 of the evening before or from
  17:00 on (`SessionCalendar.TradeDateExactly`, with the witness `SessionCalendar.SpecialSessionsAreCutOff`).
* An append to the ledger that raises has already counted. A restart forgets that number, so files with and without
  restarts are equal exactly when no record follows a restart that came directly after such a call
  (`ObservationLedger.RestartAudit`).

## Model

| member | source | states |
|---|---|---|
| FundedRules.PeakIsLargest | 10_mr_portfolio_funded_simulation.py:86-90 | the last running maximum is an upper bound of the equity curve and one of its points |
| FundedRules.MaxDrawdownIsWorstFall | 10_mr_portfolio_funded_simulation.py:86-90 | the reported drawdown is the deepest fall from an earlier to a later point, and is attained |
| FundedRules.DrawdownStep | 10_mr_portfolio_funded_simulation.py:333-334 | carrying peak and drawdown forward by one point gives those of the longer curve |
| FundedRules.CombineRunStays | 10_mr_portfolio_funded_simulation.py:208-213 | a Combine account that has ended never changes again, whatever the rest of the path |
| FundedRules.XfaRunStays | 10_mr_portfolio_funded_simulation.py:255-257 | a failed XFA account never changes again |
| FundedRules.XfaTradesCount | 10_mr_portfolio_funded_simulation.py:267-269 | a living XFA account has made one trade per step, a failed one at most that many and at least one |
| FundedScalar.SimulateCombine | 10_mr_portfolio_funded_simulation.py:179-224 | the scalar Combine loop with its early exits reports the account of the rules after min(path length, max trades) trades, and raises exactly when a day is missing before the account is over |
| FundedScalar.SimulateXfa | 10_mr_portfolio_funded_simulation.py:227-275 | the scalar XFA loop reports the account of the rules, all seven fields, and raises exactly without a trade, when path or days end before the account, or when a trade is survived at an interval of 0 |
| CombineBatch.Matrices.Fill | 10_mr_portfolio_funded_simulation.py:281-291 | every cell starts as a fresh account |
| CombineBatch.Matrices.StartDay | 10_mr_portfolio_funded_simulation.py:303-307 | rows on a new day lose their day profit and win, every cell remembers whether it was active, and nothing else changes |
| CombineBatch.Matrices.Trade | 10_mr_portfolio_funded_simulation.py:311-319 | exactly the active cells trade, at the risk of their balance |
| CombineBatch.Matrices.CountWins | 10_mr_portfolio_funded_simulation.py:321-323 | exactly the newly won days are counted, once |
| CombineBatch.Matrices.Finish | 10_mr_portfolio_funded_simulation.py:325-331 | cells at the floor fail, remaining active cells at the target pass, both become inactive |
| CombineBatch.Matrices.Drawdown | 10_mr_portfolio_funded_simulation.py:333-334 | peak and drawdown of all cells are carried forward |
| CombineBatch.CellFollowsRules | 10_mr_portfolio_funded_simulation.py:300-334 | one masked cell update carries the account one rule step on, and leaves a finished account unchanged in every reported field, drawdown included |
| CombineBatch.MaskedCell | 10_mr_portfolio_funded_simulation.py:307-309 | once a cell is masked, the early exit loses nothing of the rest of the path |
| CombineBatch.Iterate | 10_mr_portfolio_funded_simulation.py:300-334 | one loop iteration keeps every cell of every matrix equal to its account; the early exit leaves all of them at their final state |
| CombineBatch.RunCombineBatch | 10_mr_portfolio_funded_simulation.py:278-347 | for every batch, scenario list and number of trades, all seven fields of every cell are those of the scalar rules |
| XfaBatch.XMatrices.Fill | 10_mr_portfolio_funded_simulation.py:353-365 | every cell starts as a fresh account |
| XfaBatch.XMatrices.StartDay | 10_mr_portfolio_funded_simulation.py:379-383 | rows on a new day lose their day profit and win, every cell remembers whether it was active |
| XfaBatch.XMatrices.Trade | 10_mr_portfolio_funded_simulation.py:387-395 | exactly the active cells trade, at the risk of their balance |
| XfaBatch.XMatrices.CountWins | 10_mr_portfolio_funded_simulation.py:397-403 | a newly won day counts unless the cell's qualified day is today, and is marked won either way |
| XfaBatch.XMatrices.Fail | 10_mr_portfolio_funded_simulation.py:405-407 | exactly the active cells at the fixed floor fail |
| XfaBatch.XMatrices.Drawdown | 10_mr_portfolio_funded_simulation.py:411-412 | peak and drawdown are carried forward before any payout |
| XfaBatch.XMatrices.PayOut | 10_mr_portfolio_funded_simulation.py:414-423 | exactly the due and eligible cells are paid, each the smaller of its amount and its profit |
| XfaBatch.XMatrices.Cap | 10_mr_portfolio_funded_simulation.py:425 | cells that have used all their trades become inactive |
| XfaBatch.CellFollowsRules | 10_mr_portfolio_funded_simulation.py:376-425 | one masked cell update carries the guarded account one rule step on |
| XfaBatch.Iterate | 10_mr_portfolio_funded_simulation.py:376-425 | one loop iteration keeps every cell equal to its guarded account, the early exit included |
| XfaBatch.RunXfaBatch | 10_mr_portfolio_funded_simulation.py:350-438 | for every batch and any day ids at all, every cell reports the account of the scalar rules with the extra guard |
| XfaParity.GuardNeverMatters | 10_mr_portfolio_funded_simulation.py:359-403 | if no day is returned to, the guarded account is the plain one after every number of trades |
| XfaParity.GuardInvisibleExactlyWhen | 10_mr_portfolio_funded_simulation.py:397-403 | for positive risks the guard is invisible on all paths through given days if and only if no day is returned to |
| ReplayPaths.BatchWalksForward | 10_mr_portfolio_funded_simulation.py:158-176 | a built path replays consecutive events with wrap-around, its day id moves exactly where the source day changes, and day ids start at 0 and rise by at most 1 |
| ReplayPaths.DayIdsNeverReturn | 10_mr_portfolio_funded_simulation.py:169-175 | such day ids never fall, so every day is one unbroken stretch |
| ReplayPaths.DaysSoFar | 10_mr_portfolio_funded_simulation.py:169-175 | the number of separate days so far is the last day id plus one |
| ParityAudit.CombineParity | 10_mr_portfolio_funded_simulation.py:451-479 | the comparison of batch and scalar Combine succeeds on every cell, for any day ids |
| ParityAudit.XfaParityHolds | 10_mr_portfolio_funded_simulation.py:481-515 | the comparison of batch and scalar XFA succeeds on every cell whose path returns to no day |
| ParityAudit.Audit | 10_mr_portfolio_funded_simulation.py:441-520 | the whole parity audit passes on every event stream, start list and number of trades |
| ParityAudit.XfaOnReplays | 10_mr_portfolio_funded_simulation.py:563-590 | on any built batch the XFA batch equals the plain scalar rules in every cell and field |
| FundedTheorems.CombineEndsOneWay | 10_mr_portfolio_funded_simulation.py:190-213 | a run ends in exactly one of failed, passed and out of trades; every earlier balance lies strictly between floor and target |
| FundedTheorems.CombineWinningDays | 10_mr_portfolio_funded_simulation.py:193-206 | winning days never exceed the separate days traded |
| FundedTheorems.NetValueIdentity | 10_mr_portfolio_funded_simulation.py:227-275 | balance plus withdrawn is the starting balance plus the sum of trade profits, in every run |
| FundedTheorems.SteadyRiskNetValue | 10_mr_portfolio_funded_simulation.py:615-652 | where one risk governs every trade of a living account, the net value is a function of the path and the number of trades alone |
| FundedTheorems.PayoutsAreTransfers | 10_mr_portfolio_funded_simulation.py:615-652 | there two payout policies with equally many trades end with equal net value |
| FundedTheorems.PayingNeverOutlasts | 10_mr_portfolio_funded_simulation.py:615-652 | there a paying account never outlasts the one without payouts; while it lives the balances differ by what was withdrawn |
| FundedTheorems.AdaptiveRiskIsDifferent | 10_mr_portfolio_funded_simulation.py:93-97 | a literal six-trade witness that two policies with equally many trades can differ in net value |
| FundedThresholds.PayoutsAreTransfersExactlyWhen | 10_mr_portfolio_funded_simulation.py:615-652 | for positive risks, equal trade counts give equal net values on all paths and policies if and only if there is no threshold, it changes nothing, or it lies at or below the loss floor |
| FundedThresholds.PayingNeverOutlastsExactlyWhen | 10_mr_portfolio_funded_simulation.py:615-652 | for positive risks, a paying account is outlasted on all paths and policies under exactly the same condition |
| FundedThresholds.Apart | 10_mr_portfolio_funded_simulation.py:227-275 | for every other scenario a path of six trades leaves the paying account just below and the other just above the threshold |
| FundedTheorems.PayoutIsBounded | 10_mr_portfolio_funded_simulation.py:259-265 | a payout takes a positive sum of at most the amount, leaves at least the starting balance, resets the winning days, and happens only when due |
| FundedTheorems.WithdrawnIsBounded | 10_mr_portfolio_funded_simulation.py:255-265 | the total withdrawn is at most amount times payouts, and an account has failed exactly when it is at or below the floor |
| FundedTheorems.IntervalPerPayout | 10_mr_portfolio_funded_simulation.py:259-265 | interval times payouts never exceeds the trades made, for any interval |
| FundedTheorems.FiveDaysPerPayout | 10_mr_portfolio_funded_simulation.py:241-265 | five times payouts plus current winning days never exceeds the separate days traded, even when a payout falls inside a day |
| FundedWalks.TradeEarns | 10_mr_portfolio_funded_simulation.py:93-97 | a trade earns its return times 50000 times the second risk from the threshold on and the first one below it, amounts and conditions written out |
| FundedWalks.CombineWalks | 10_mr_portfolio_funded_simulation.py:179-224 | along every run the balance moves trade by trade by what the trade earns, and the winning days are exactly the trades with which a day's profit first reaches 150 |
| FundedWalks.PayoutExactly | 10_mr_portfolio_funded_simulation.py:246-265 | a payout is made exactly when due with five winning days, a positive amount and a profit, and takes the smaller of amount and profit; in every other case nothing; balance, equity, failure, counts and winning days are all told |
| FundedWalks.XfaCollects | 10_mr_portfolio_funded_simulation.py:241-265 | in every run the winning days are exactly the days won since the last payout |
| FundedWalks.XfaWalks | 10_mr_portfolio_funded_simulation.py:227-265 | over every run each trade pays out exactly when the schedule, the days won since the last payout, the amount and the profit say so, and exactly the smaller of amount and profit |
| FundedWalks.ReportsTell | 10_mr_portfolio_funded_simulation.py:215-224 | both results report the last account, and as drawdown the deepest fall of its equity curve |
| FenwickPercentile.BitTrick | run_full_autonomous_paper.py:657-681 | i AND minus i, bit by bit in two's complement, is the low bit of i |
| FenwickPercentile.LowBitDivides | run_full_autonomous_paper.py:657-681 | the low bit is the largest power of two dividing i |
| FenwickPercentile.NextCover | run_full_autonomous_paper.py:657-666 | from a tree node covering a position the next node covering it is one low bit further on |
| FenwickPercentile.Add | run_full_autonomous_paper.py:657-666 | adding an index terminates and keeps every node the sum of the frequencies it covers |
| FenwickPercentile.PrefixCount | run_full_autonomous_paper.py:668-681 | the prefix loop terminates and returns the total frequency up to the index |
| FenwickPercentile.SortedDistinct | run_full_autonomous_paper.py:649 | compression holds exactly the observed values, strictly ascending |
| FenwickPercentile.Observe | run_full_autonomous_paper.py:695-710 | one observed value gets its percentile among the earlier ones and only then enters the tree |
| FenwickPercentile.AddMrVolatilityPercentile | run_full_autonomous_paper.py:599-714 | for every series with missing values, every entry is the share of earlier observations not above it, missing exactly where there is no value or nothing earlier |
| FenwickPercentile.PercentileIsShare | run_full_autonomous_paper.py:606-628 | an entry is missing exactly where there is no value or no earlier position is observed; otherwise it times the number of earlier observed positions is the number of those whose value is at most this one |
| FenwickPercentile.CountsAreCausal | run_full_autonomous_paper.py:606-628 | the counts behind an entry depend only on earlier values |
| FenwickPercentile.PercentileIsCausal | run_full_autonomous_paper.py:606-628 | an entry is the same for any two series that agree up to it, although compression reads the whole series |
| CalendarMonths.AddKeepsOrder | src/models/causal_hmm.py:182-188 | adding months keeps the order of two times exactly unless both are clamped onto the same last day and their minutes are reversed |
| CalendarMonths.AddCanReorder | src/models/causal_hmm.py:182-188 | two real times that change places when one month is added |
| CalendarMonths.AddKeepsMonths | src/models/causal_hmm.py:182-188 | times in different months always keep their order |
| CalendarMonths.AddMoves | src/models/causal_hmm.py:182-188 | adding a positive number of months moves strictly forward, a negative one strictly back |
| CalendarMonths.AddThenBack | src/models/causal_hmm.py:182-188 | the result is a real date in exactly the intended month at the same minute, and going back returns to the start unless the day was clamped |
| CalendarMonths.AddLands | src/models/causal_hmm.py:182-188 | the result lies in the intended month at the same minute, on the same day if that month has it and on its last day if not |
| CalendarMonths.MonthsOfYear | src/models/causal_hmm.py:182-188 | the lengths of the twelve months of every year |
| CalendarMonths.LeapYearRule | src/models/causal_hmm.py:182-188 | leap years are the multiples of 400 and those of 4 but not of 100 |
| CalendarMonths.DaysOfYears | src/models/causal_hmm.py:182-188 | the days of any number of years are 365 each and one for every leap year among them |
| CalendarMonths.FourCenturies | src/models/causal_hmm.py:182-188 | any four hundred years have 146097 days |
| CompactHistory.LowerBoundSplits | src/models/causal_hmm.py:94 | the search position separates the rows before a time from those at or after it |
| CompactHistory.History.constructor | src/models/causal_hmm.py:42-47 | a new store is empty with capacity at least one |
| CompactHistory.History.Append | src/models/causal_hmm.py:49-54 | appends one row, growing when full, and changes no stored row |
| CompactHistory.History.Grow | src/models/causal_hmm.py:56-64 | enlarging the arrays keeps the contents |
| CompactHistory.History.Reserve | src/models/causal_hmm.py:66-79 | reserving never discards a stored row |
| CompactHistory.History.SearchLeft | src/models/causal_hmm.py:94 | the binary search finds the number of rows before a time |
| CompactHistory.History.RetainFrom | src/models/causal_hmm.py:93-99 | the in-place shift keeps exactly the rows at or after the time, in order |
| CompactHistory.History.ReplaceRecords | src/models/causal_hmm.py:81-91 | replacing the records gives a store with exactly these rows |
| CompactHistory.History.Payload | src/models/causal_hmm.py:111-122 | the payload is the stored rows and nothing of the spare capacity |
| CompactHistory.History.FromPayload | src/models/causal_hmm.py:124-138 | rebuilding from a payload gives a store with those rows |
| CausalRules.RunsCompose | src/models/causal_hmm.py:564-754 | a run can be cut anywhere: the second part needs only the state the first part left |
| CausalStream.Stream.TrainingBounds | src/models/causal_hmm.py:798-815 | the two searches delimit the training rows of the stored history |
| CausalStream.Stream.Refit | src/models/causal_hmm.py:643-685 | a refit writes every field of the new fit from its training rows and starts empty diagnostics |
| CausalStream.Stream.Filter | src/models/causal_hmm.py:729-741 | one filter step carries the posterior and counts the state and the step to it |
| CausalStream.Stream.Infer | src/models/causal_hmm.py:607-754 | the part of an update after storing: refit when due and trainable, filter, log the refit, prune |
| CausalStream.Stream.Update | src/models/causal_hmm.py:564-754 | the mutable stream's whole new state and outcome are those of the value-level update, whatever its capacity and growth history |
| CausalStream.Stream.StateDict | src/models/causal_hmm.py:836-869 | a checkpoint holds the observable state and the fit identity |
| CausalStream.Stream.FromStateDict | src/models/causal_hmm.py:880-926 | restoring either checkpoint format gives a stream in exactly the saved state |
| CausalStream.Restore | src/models/causal_hmm.py:880-940 | which checkpoints are refused, and why: version, schedule, columns, the model's version, columns, artifact and scaler digests, and the identity of the fit |
| CausalStream.ResumeAudit | src/models/causal_hmm.py:836-940 | stopping after any observations, saving in either format, restoring and carrying on gives the same outcomes and the same final checkpoint as never stopping |
| CausalWindows.ReferenceKeepsEverything | src/models/causal_hmm.py:571-605 | a reference stream that never forgets holds exactly the eligible, finite rows ever seen in time order |
| CausalWindows.SliceIsWindow | src/models/causal_hmm.py:798-815 | a slice between two searches is the set of rows whose times lie in the window, ending strictly before the fit |
| CausalWindows.WindowMovesOn | src/models/causal_hmm.py:666-668 | by the time a refit is due, the start of the window has moved on strictly |
| CausalWindows.StepStaysRelated | src/models/causal_hmm.py:742-762 | one update of the pruned and of the forgetless stream has the same outcome and leaves them equal but for dropped rows |
| CausalWindows.PruningIsInvisible | src/models/causal_hmm.py:742-762 | over every run pruning changes no outcome and no state but the stored rows |
| CausalWindows.EveryFitTrainsOnItsWindow | src/models/causal_hmm.py:605-660 | every fit trains on exactly the eligible, finite rows ever seen in its window |
| CausalOutcomes.AcceptedOneMore | src/models/causal_hmm.py:571-605 | the rows kept of a run are those of the observations that are in time, eligible and have all six features, in order |
| CausalOutcomes.OutcomesAreFiltered | src/models/causal_hmm.py:571-754 | over every run an observation is refused exactly when an earlier one is not earlier in time, and gives a state exactly when it is taken and a model is fitted; state and posterior are one filter step from the posterior of all rows taken since the fit, and the posterior ends the filtering of these rows and this one |
| CausalOutcomes.EmittedEndsTheChain | src/models/causal_hmm.py:350-370 | an emitted pair is the last link of the chain that the active model makes of all rows taken from its fit time on, each state and posterior from the posterior before it and the first from none |
| CausalOutcomes.ChainExists | src/models/causal_hmm.py:350-370 | every model and list of rows has such a chain |
| CausalOutcomes.WindowExactly | src/models/causal_hmm.py:798-815 | the training window holds exactly the rows before the fit and, for a rolling stream, not before the years it rolls over, in order |
| CausalOutcomes.FitsExactly | src/models/causal_hmm.py:607-741 | over every run a model is fitted exactly after a taken observation at which the schedule is due and the window has enough rows; it is fitted on their six feature columns, and times, counts, digest, S2R quantities and the logged event, previous and first state included, are told by window, time and model; otherwise model and log stay |
| CausalOutcomes.DueExactly | src/models/causal_hmm.py:607-608 | a fit is due from the refit months after the last one on, or before the first at once when expanding and the rolling years after the first eligible observation when rolling |
| CausalOutcomes.DiagnosticsAreStamped | src/models/causal_hmm.py:678-685 | every version's diagnostic carries the time of its fit |
| CausalOutcomes.StoreHoldsExactly | src/models/causal_hmm.py:742-762 | the store of a rolling stream holds exactly the rows taken since the start of the active fit's window, any other store all rows taken |
| CausalOutcomes.RestoresExactlyWhen | src/models/causal_hmm.py:880-940 | a checkpoint is restored exactly when version, schedule and columns are accepted and stamp and identity are those recomputed from the model |
| CausalTheorems.FilterSequence | src/models/causal_hmm.py:350-370 | the batch filter gives every finite row the state and posterior filtered from the rows up to it |
| CausalTheorems.PosteriorOverRuns | src/models/causal_hmm.py:726-734 | over every run the carried posterior is the batch-filtered posterior of the active model over the stored rows from its fit time on |
| CausalTheorems.ScheduleOverRuns | src/models/causal_hmm.py:607-669 | over every run fits are at least the refit months apart, not before the initial fit time, and each saw enough rows, all strictly before it and inside its window |
| CausalTheorems.DiagnosticsOverRuns | src/models/causal_hmm.py:677-741 | over every run each model's table counts exactly its emitted states and steps, and total occupancy is the number of filter updates |
| CausalTheorems.StepsAreFlows | src/models/causal_hmm.py:735-741 | in any emission sequence a state's occurrences are its inflow plus first and its outflow plus last |
| CausalTheorems.DiagnosticsAreFlows | src/models/causal_hmm.py:677-741 | every model's table is a flow: occupancy equals inflow plus first emission, outflow plus last emission, and transitions are one less than emissions |
| CausalTheorems.CountersOverRuns | src/models/causal_hmm.py:571-605 | over every run calls, rejections, unusable rows, the anchor, filter steps and prunes are those told by the inputs and outcomes |
| ExecutionTypes.TransitionsAreFinal | src/execution/orders.py:72-141 | finished orders take no transition; no transition changes the quantity or loses a fill; only the fill of all that remains completes an order |
| ExecutionTypes.BlendIsBetween | src/execution/positions.py:47-76 | an average after a fill stays within any bounds of its prices |
| ExecutionTypes.BlendKeepsValue | src/execution/positions.py:61-68 | quantity times average is the sum of the two values |
| ExecutionRuns.FillTells | src/execution/orders.py:82-115 | after a fill an order's quantity, average and status are those of its fills plus this one |
| ExecutionRuns.EntryKeepsConsistent | src/execution/engine.py:247-275 | a returning entry fill keeps orders and positions equal to the sums of the fills |
| ExecutionRuns.ExitKeepsConsistent | src/execution/engine.py:277-306 | a returning exit fill keeps orders and positions equal to the sums of the fills |
| ExecutionRuns.BrokerFillKeepsConsistent | src/execution/engine.py:223-236 | a returning broker fill executes exactly that fill and keeps the books consistent |
| ExecutionRuns.ApplyKeepsConsistent | src/execution/engine.py:105-348 | every returning call keeps the books consistent with the fills so far |
| ExecutionRuns.RunsAreConsistent | src/execution/engine.py:105-348 | after any sequence of calls that returned or raised, none of them late, each order's filled quantity, average and status, and each strategy's signed quantity, are those of the fills |
| ExecutionRuns.CheckFillExactly | src/execution/engine.py:247-256 | a fill is written to its order exactly when the order is known, open and has room for it |
| ExecutionLifecycle.TransitionsExactly | src/execution/orders.py:72-141 | exactly which statuses admit submission, fill, cancellation and rejection, and every field of the order each leaves |
| ExecutionLifecycle.CallsReturnExactlyWhen | src/execution/engine.py:105-348 | a written guard for each kind of call: the call returns if and only if it holds |
| ExecutionLifecycle.ReportedFills | src/execution/engine.py:166-306 | the fill a call executes has the order's strategy and side and the quantity given, or all that remains of the order or the position; closing reports both prices and both times |
| ExecutionLifecycle.SubmissionsFile | src/execution/engine.py:105-164 | an entry files an order on the signal's side, an exit one of the whole position on the other side |
| ExecutionLifecycle.ClosingLeaves | src/execution/engine.py:317-348 | a cancellation that returns leaves the order CANCELLED with its quantity, filled quantity and average and all else unchanged; a rejection leaves it REJECTED and releases its intent |
| ExecutionLifecycle.OverStays | src/execution/engine.py:105-348 | in every run an order once cancelled, rejected or filled is the same in every later book |
| ExecutionLifecycle.OverRefusesEverAfter | src/execution/orders.py:82-141 | and every later fill, cancellation or rejection of it raises |
| ExecutionLifecycle.BrokerFilesExactly | src/execution/paper_broker.py:22-38 | the broker files a new order as submitted and refuses all others without a change |
| ExecutionLifecycle.BrokerClosesExactly | src/execution/paper_broker.py:60-112 | exactly which orders it cancels and rejects, the status and fill this leaves, and that no other order changes |
| ExecutionLifecycle.RefusedSubmission | src/execution/engine.py:117-130 | if the broker refuses a submission, the intent is free again, the engine keeps the order and the broker's book is as before |
| ExecutionRuns.RefusalsChangeNothingExactlyWhen | src/execution/engine.py:105-348 | a call that raises changes the books exactly if it meets the guard: an entry fill its order accepts, with the strategy's position on the other side |
| ExecutionRaises.OwnFillsOverRuns | src/execution/engine.py:105-348 | over every run whose broker reports fills of its orders, every logged fill carries its order's strategy and side |
| ExecutionRaises.LateRaiseBreaksBooks | src/execution/engine.py:247-275 | after a late raise no list of fills that carry their orders' strategies and sides explains the books, if one did |
| ExecutionRaises.LateRaiseBreaksRuns | src/execution/engine.py:247-275 | after any such run a call that raises late leaves books that no such list of fills explains |
| ExecutionRaises.LateRaiseIsReachable | src/execution/engine.py:105-275 | two entries on both sides submitted while flat and both filled: the second fill raises late |
| ExecutionRuns.IntentsOverRuns | src/execution/engine.py:97-164 | over every run, refused calls included, no two orders that are not rejected come from the same intent, and the registered intents are exactly those of such orders |
| ExecutionRuns.BrokerFillsAreTakenOnce | src/execution/engine.py:223-236 | a broker fill id that a run has taken is refused as a duplicate ever after |
| ExecutionRuns.RoundTripEndsFlat | src/execution/engine.py:105-221 | from flat, an entry and an exit each filled as a whole end flat, with both orders filled and the trade recorded at its two prices |
| ExecutionEngine.PaperBroker.SubmitOrder | src/execution/paper_broker.py:22-38 | the broker takes a new order as submitted, and refuses known or otherwise advanced ones without a change |
| ExecutionEngine.PaperBroker.CancelById | src/execution/paper_broker.py:60-64 | cancelling changes that order alone, or nothing |
| ExecutionEngine.PaperBroker.RejectById | src/execution/paper_broker.py:66-70 | rejecting changes that order alone, or nothing |
| ExecutionEngine.PaperBroker.InjectFill | src/execution/paper_broker.py:72-112 | an accepted fill updates its order with the broker's own average and is recorded; a refused one changes nothing |
| ExecutionEngine.Engine.SubmitEntry | src/execution/engine.py:105-130 | the mutable engine's whole new state, the broker's orders and the outcome of an entry submission |
| ExecutionEngine.Engine.SubmitExit | src/execution/engine.py:132-164 | the same for an exit submission, for the open quantity on the other side |
| ExecutionEngine.Engine.EntryFillObject | src/execution/engine.py:247-275 | the whole new state after an entry fill, also when it raises |
| ExecutionEngine.Engine.ExitFillObject | src/execution/engine.py:277-306 | the whole new state after an exit fill, also when it raises |
| ExecutionEngine.Engine.ProcessEntryFill | src/execution/engine.py:166-190 | a reported entry fill, for the quantity given or all that remains |
| ExecutionEngine.Engine.ProcessExitFill | src/execution/engine.py:192-221 | a reported exit fill, for the quantity given or the whole position |
| ExecutionEngine.Engine.ProcessBrokerFill | src/execution/engine.py:223-236 | a broker fill is dispatched by the order's side, and counts as seen only when it returned |
| ExecutionEngine.Engine.CancelById | src/execution/engine.py:317-330 | a cancellation is made, repeated by the broker, and the broker's order kept |
| ExecutionEngine.Engine.RejectById | src/execution/engine.py:332-348 | a rejection also releases the order's intent |
| ExecutionLockstep.AveragesAgree | src/execution/paper_broker.py:88-98 | the broker's average of a fill is the engine's |
| ExecutionLockstep.FillKeepsLockstep | src/execution/paper_broker.py:72-112 | a fill keeps the two order books equal if and only if it is not one the broker accepts and the engine refuses, told by the books and the fill; and when it returns |
| ExecutionLockstep.DeskStaysInLockstep | src/execution/engine.py:105-348 | any call keeps the order books equal unless it is such a fill, and does to the engine's books what it does without a broker |
| ExecutionLockstep.DeskRunsStayInLockstep | src/execution/engine.py:105-348 | over every run, refused calls included, the order books are equal, averages included, and the engine's books are those of an engine without a broker |
| ExecutionLockstep.BooksCanPart | src/execution/engine.py:223-236 | from equal books, a fill with room for two that is reported twice makes them part |
| ExecutionLockstep.PartedBooksAreReachable | src/execution/engine.py:105-236 | it happens from empty books: an entry half filled and the fill reported again |
| PositionBooks.BrokerAdapter.constructor | src/broker/adapter.py:61-68 | a new adapter is disconnected and empty |
| PositionBooks.BrokerAdapter.SubmitOrder | src/broker/adapter.py:86-105 | a connected adapter files the request under a new number, and touches no fill or position |
| PositionBooks.BrokerAdapter.CancelOrder | src/broker/adapter.py:107-134 | cancelling a final order returns it unchanged, any other becomes cancelled, nothing else moves |
| PositionBooks.BrokerAdapter.ProcessFill | src/broker/adapter.py:147-210 | exactly when a fill is recorded, what is recorded, the order's new status and the position, exactly when it is then refused as over-closing, and that every position stays the signed sum of the recorded fills less the over-closing ones |
| PositionBooks.BookedNext | src/broker/adapter.py:193-264 | one more recorded fill moves the position as it moves the signed sum, over-closing fills left out |
| PositionBooks.OverCloseIsRecorded | src/broker/adapter.py:193-251 | a position of one and a fill of two on the other side: recorded, its order filled, the call refused, the position unmoved |
| PositionBooks.BrokerAdapter.UpdatePosition | src/broker/adapter.py:212-264 | opens, averages, reduces or removes the strategy's position, or refuses an over-close without moving it |
| PositionBooks.BacktestEngine.SetMarketPrice | src/execution/backtest.py:106-116 | only positive prices are taken |
| PositionBooks.BacktestEngine.SubmitOrder | src/execution/backtest.py:42-76 | a market order fills at once at the price moved against the trader, and moves only that symbol |
| PositionBooks.BacktestEngine.ClosePosition | src/execution/backtest.py:88-104 | closing fills the whole position on the other side and leaves the symbol flat |
| PositionBooks.BacktestEngine.ApplyFill | src/execution/backtest.py:130-197 | opens, averages, reduces or removes the symbol's position; a reversal is refused without a change |
| PositionBooks.EngineMovesPosition | src/execution/engine.py:223-306 | a broker fill of a matching order moves the engine's position like this and no other strategy's |
| PositionBooks.OneFillAgrees | src/broker/adapter.py:212-264 | on one fill the three books, equal before, accept or refuse alike and are equal after |
| PositionBooks.ThreeBooksAgree | src/execution/backtest.py:130-197 | after any fills, over-closing ones included, the three books hold the same side, quantity and average |
| PositionBooks.HoldingIsNet | src/broker/adapter.py:212-264 | the signed quantity the books hold is the sum of the signed fills they took |
| BooksTogether.FeedThree | src/execution/engine.py:223-306 | one fill through the methods of engine, adapter and backtest engine, agreeing before, is taken or refused by all and leaves them agreeing |
| BooksTogether.DriveThreeBooks | src/broker/adapter.py:147-264 | the three objects, each driven through its own orders and fills, hold the same in the end, and it is what the fills determine |
| PositionBooks.AverageIsBetweenEntries | src/execution/positions.py:47-76 | the average lies within any bounds on the entry prices since flat, and exits do not move it |
| PositionBooks.EntryIsRemembered | src/execution/positions.py:47-76 | after any fills the engine and the backtest keep the time of the fill that opened the holding, the engine also its side and strategy |
| PositionBooks.ValueIsConserved | src/execution/positions.py:47-76 | quantity times average is what all entries put in at their prices less what the exits took out at the average |
| PositionBooks.CloseReports | src/execution/positions.py:79-100 | a fill of the whole position on the other side ends it and reports both prices and both times |
| SessionCalendar.TradeDateExactly | src/paper/cme_calendar.py:187-217 | for every covered date, a minute has that trade date exactly when it lies in the session outside its closed intervals and between 18:00 the evening before and 17:00 |
| SessionCalendar.TradeDateInvertsSessions | src/paper/cme_calendar.py:125-153 | for dates on the standard template the trade-date arithmetic inverts the session intervals, which run from 18:00 the evening before to the (early) close of a weekday that is not closed |
| SessionCalendar.TradeDateOtherwise | src/paper/cme_calendar.py:187-217 | a trade date is unavailable exactly in the window of a weekday that is not covered, and a minute can have no other trade date than the one in whose window it lies |
| SessionCalendar.SessionHoursExactly | src/paper/cme_calendar.py:125-153 | weekends and closed days are shut; otherwise each boundary is the exception's or else the template's, the opening on the evening before |
| SessionCalendar.HaltedMinutes | src/paper/cme_calendar.py:212-241 | a minute inside an interval the date's exception lists never has that trade date, and is never expected |
| SessionCalendar.HaltedAfternoon | src/paper/cme_calendar.py:187-241 | a session closed from 13:00 to 17:00: the first minute is closed and none is missing until evening; closed to 16:00, that minute is open |
| SessionCalendar.SpecialSessionsAreCutOff | src/paper/cme_calendar.py:187-217 | a special session from 17:30 to 17:30 loses its first and its last half hour |
| SessionCalendar.ExpectedMissingMinutes | src/paper/cme_calendar.py:227-241 | the cursor loop returns the expected minutes strictly between two observations, and tells apart observations out of order and a minute without coverage |
| SessionCalendar.ExpectedIsExact | src/paper/cme_calendar.py:227-241 | those are exactly the minutes with a trade date, each once and in order |
| SessionCalendar.ExpectedSplits | src/paper/cme_calendar.py:227-241 | they split additively at any minute |
| GapLabels.RecurringLabels | scripts/build_mnq_calendar_coverage_certificate.py:190-199 | the masked whole-array assignments give every minute its recurring label |
| GapLabels.OverrideLabels | scripts/build_mnq_calendar_coverage_certificate.py:201-212 | exactly the minutes in some snapshot's span are relabelled by the per-minute classifier |
| GapLabels.ResolveLabels | scripts/build_mnq_calendar_coverage_certificate.py:218-233 | exactly the open labels are replaced by the condition of the source |
| GapLabels.ClassifyGap | scripts/build_mnq_calendar_coverage_certificate.py:171-248 | a gap is labelled minute by minute, with one label per missing minute; gaps out of order are refused |
| GapLabels.VectorFollowsRules | scripts/build_mnq_calendar_coverage_certificate.py:87-116 | the whole-array recurring labels are the per-minute recurring rules, at every minute |
| GapLabels.GapLabelIsMinuteLabel | scripts/build_mnq_calendar_coverage_certificate.py:55-116 | before the source is looked at, a gap label is the per-minute label wherever no snapshot covers the schedule date or a span overrides |
| GapLabels.WeekendBeforeCoveredMonday | scripts/build_mnq_calendar_coverage_certificate.py:64-85 | otherwise it is the weekend before a covered Monday, and both agree on closed exactly unless regular trading hours include the minute |
| GapLabels.ClassifiersCanDisagree | scripts/build_mnq_calendar_coverage_certificate.py:64-85 | a Saturday minute that one classifier calls closed and the other open |
| GapLabels.OpenExactlyWhenExpected | scripts/build_mnq_calendar_coverage_certificate.py:75-85 | under a snapshot a minute is labelled open exactly when the session calendar gives it the schedule date or regular trading hours include it |
| GapLabels.StatusMeaning | scripts/build_mnq_calendar_coverage_certificate.py:231-248 | all five statuses, each exactly: nothing missing, an open minute without an available source, all open, some open and some closed, all closed |
| GapLabels.GapLabelExactly | scripts/build_mnq_calendar_coverage_certificate.py:190-212 | a minute takes the per-minute label exactly within some snapshot's span, from the evening before its coverage to its last day, and the recurring one otherwise |
| GapLabels.RecurringInNewYork | scripts/build_mnq_calendar_coverage_certificate.py:190-199 | the recurring closures on the New York clock, before and after the cutover |
| GapLabels.ScheduleDateExactly | scripts/build_mnq_calendar_coverage_certificate.py:55-66 | the date whose schedule decides: the trade date in whose window the minute lies, else the calendar date, else the Monday |
| GapLabels.SnapshotForIsFirst | scripts/build_mnq_calendar_coverage_certificate.py:66-72 | the snapshot that decides is the first to cover the date, if any does |
| GapLabels.SnapshotLabelsExactly | scripts/build_mnq_calendar_coverage_certificate.py:72-86 | each of the five labels under a snapshot, exactly when |
| GapLabels.ResolvedExactly | scripts/build_mnq_calendar_coverage_certificate.py:218-230 | a closure stays; an open minute becomes sparse, degraded or unknown exactly by the condition of its source |
| GapScan.FindGaps | scripts/build_mnq_calendar_coverage_certificate.py:274-299 | first and last stamp, rows and gaps are those of one pass over all stamps, however they are chunked; each of the two counts adds what is found within the chunks |
| GapScan.PassCountsExactly | scripts/build_mnq_calendar_coverage_certificate.py:283-296 | the pass counts exactly the positions equal to and those before the one they follow, and finds one gap for each that lies more than a minute after it, between these two |
| GapScan.RepeatedExactly | scripts/build_mnq_calendar_coverage_certificate.py:278-280 | within a chunk the stamps that occur earlier in it are added to the duplicates |
| GapScan.NotRisingExactly | scripts/build_mnq_calendar_coverage_certificate.py:278-280 | and those equal to or before the one they follow to the backward stamps |
| GapScan.ChunkingShows | scripts/build_mnq_calendar_coverage_certificate.py:278-294 | the same two equal stamps count as 2 and 1 in one chunk and as 1 and 0 in two |
| GapScan.CountsIgnoreChunksExactlyWhen | scripts/build_mnq_calendar_coverage_certificate.py:278-294 | the duplicate count is that of the pass exactly when no chunk repeats a stamp, the backward count exactly when every chunk rises |
| GapScan.CountsVanishExactlyWhen | scripts/build_mnq_calendar_coverage_certificate.py:278-294 | both counts are 0 exactly when all stamps together rise |
| GapScan.CountsTellDistinct | scripts/build_mnq_calendar_coverage_certificate.py:278-294 | while stamps never step back, rows less the difference of the two counts is the number of different stamps, however they are chunked |
| GapScan.RowsAndGapsFillSpan | scripts/build_mnq_calendar_coverage_certificate.py:274-303 | rows plus missing minutes are the span exactly when the stamps rise; rows without adjacent repeats exactly when they never step back, and then different stamps plus missing minutes are the span |
| BootstrapRunner.QueuesForgetTheSame | src/paper/market_context.py:536-542 | feeding a bounded queue only the end of a batch is feeding it the batch |
| BootstrapRunner.FlagsAcrossTheBoundary | src/paper/market_context.py:436-444 | twenty-nine returns carried over a chunk boundary flag every row of the next chunk as the whole history would |
| BootstrapRunner.FoldChunk | src/paper/market_context.py:368-544 | consuming a chunk from the state after n rows gives the state after all rows up to its end, as if there were no chunks |
| BootstrapRunner.WarmHolds | src/paper/market_context.py:430-544 | the finished warm-up holds the state after every row in turn, each with the flag that the thirty rows up to it have returns, the last 62 and the last 500 rows, their number and the last time |
| BootstrapRunner.CheckpointStore.Load | src/paper/causal_bootstrap.py:226-246 | which checkpoints are refused, and why: digest, schema, identity, cursor, completeness |
| BootstrapRunner.ReadsExactlyWhen | src/paper/causal_bootstrap.py:226-246 | a file is read exactly when digest, schema, identity, cursor and time are as they must be |
| BootstrapRunner.SavedIsRead | src/paper/causal_bootstrap.py:202-246 | every checkpoint of a job that is saved is read back under its identity, and under no other |
| BootstrapRunner.Open | src/paper/causal_bootstrap.py:285-387 | which runs may start, at which row, and with which failure the others end |
| BootstrapRunner.StartsExactlyWhen | src/paper/causal_bootstrap.py:285-387 | a run may start exactly with rows in strict time order from the origin to before the activation, matching features, coverage, a fresh context, and a readable file to resume or none |
| BootstrapRunner.Run | src/paper/causal_bootstrap.py:365-435 | a run fails exactly where it may not start, leaving the file alone; killed or not, it leaves a faithful checkpoint whose cursor never goes back; it finishes only with every row folded and marked ready |
| BootstrapRunner.Drive | src/paper/causal_bootstrap.py:365-435 | any number of killed runs with any chunk sizes and a last complete one leave the checkpoint that the job alone determines |
| ObservationLedger.LatestMeans | src/paper/ibkr_observation_ledger.py:43-53 | the in-memory map holds each bar's last value and one more than its number of value changes; the highest number is the last record's |
| ObservationLedger.Ledger.constructor | src/paper/ibkr_observation_ledger.py:43-53 | opening a ledger rebuilds its memory from the file |
| ObservationLedger.Ledger.Append | src/paper/ibkr_observation_ledger.py:55-97 | the record appended has the counter's next number, the version counting the bar's value changes, and its revision mark; a call that raises has counted and written nothing |
| ObservationLedger.RecordsTell | src/paper/ibkr_observation_ledger.py:55-97 | in every file a bar is complete sixty seconds after its start; its first record has version 1; any other is a revision exactly if its hash differs from the bar's last one before it, which it names, and has the next version then and the same one otherwise |
| ObservationLedger.NumbersRise | src/paper/ibkr_observation_ledger.py:55-97 | the numbers rise along the file |
| ObservationLedger.RestartAudit | src/paper/ibkr_observation_ledger.py:43-97 | reopening before any of the calls leaves the same records but for their numbers, and the same numbers exactly when no record follows a restart directly after a call that raised |
| ObservationLedger.VisibleBarVersion | src/paper/ibkr_observation_ledger.py:100-111 | the latest complete observation of the bar known at the cutoff, if there is one |
| ObservationLedger.VisibleExactly | src/paper/ibkr_observation_ledger.py:100-111 | nothing is visible exactly if no complete record of the bar was observed by the cutoff; otherwise the last observed of them, with the highest number among ties, first in the file among further ties |
| ObservationLedger.NoLookAhead | src/paper/ibkr_observation_ledger.py:100-111 | records observed after the cutoff never change what was visible, wherever they stand |

## Left out

- Float rounding, infinities and tolerance comparisons; the parity claims are about exact arithmetic.
- Result dictionaries keyed by scenario or policy name; results are indexed by position.
- ReplayPaths.BatchWalksForward: requires a nonempty stream, at least one trade and start days in range, because the program raises otherwise.
- XfaBatch.RunXfaBatch: requires matrices at least as wide as the number of trades, as does the Combine batch; on a narrower one the program raises or stops early, depending on when the cells finish.
- ParityAudit.XfaParityHolds: requires nonzero intervals, because the scalar simulator raises at an interval of 0.
- Reading the trade file, building the replay arrays, percentiles of results and all reporting.
- FenwickPercentile.AddMrVolatilityPercentile: infinite values are missing values; copying the frame and coercing the column are not modelled.
- Numerics of fitting, scaling, emission likelihoods and posteriors; a fit or filter step that raises is not modelled.
- Daylight-saving changes and time zones; times are New York wall-clock minutes and Chicago is one hour behind.
- Wall-clock timings, model profiles and the previous model's digests inside refit events; fields written together at a fit are one record, and a fit is stored with its stamp.
- CausalStream.Restore: requires stored rows in time order, which the program does not check either.
- Deterministic order ids: a submitted order's id is taken to be new, so resubmission after a rejection under the same id is not covered.
- Creation times, order types, empty names and time-zone checks of orders and fills; the CLOSED position status; reading methods that return a field.
- Locks; each locked method is one step.
- Profit of closed positions, and the larger engine at the root of the repository.
- Stamps that are not whole minutes or are missing, the check that there are files, review records of dates and conditions, and the printed certificate.
- GapLabels.ClassifyGap: the condition of the source is a function of the minute, not looked up by UTC date.
- The HMM streams and volatility ranks inside the warm-up context are one abstract value advanced row by row; its checkpoint is taken to restore it.
- Which coverage certificates, feature schemas and feature stamps the warm-up accepts, frame hashes, thread identities and progress callbacks; saving a checkpoint is one step, and a file that can be read under the job's identity is taken to have been written by this job.
- Ledger fields that are only copied, JSON text, flushing, and two ledgers writing one file at once; value hashes are taken to be injective, and a call that raises before it counts is no call.
- Files, networks, brokers' protocols, dashboards, command lines and everything not named above.
