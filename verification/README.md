# Paper-trading scans, decision history and evidence files: a verified model

This project models, in Dafny 4.11, the parts of the trading platform that have to stay right over a
whole run:

* **The bot scan** (`BotRunner`, `PortfolioRisk`, `PositionManager`, `Ranking`, `DataSources`,
  `ScanMeaning`). A scan folds the open trades into an exposure snapshot, ranks the tradeable candidates
  by confidence, walks them through three gates (individual risk, Position Manager, portfolio risk) and
  opens at most one paper trade. `ScanMeaning` says which, of the scores and the trade list alone.
* **The book over whole runs** (`BookLimits`, `WorkerSystem`, `LadderRuns`, `CashRuns`,
  `PersistenceOrder`, `ExecutionContext`, and concrete runs in `SampleRuns`, `LockExpiry`, `LadderTie`).
  Any number of workers claim one user's schedule lock, load the trades, scan, write the trade, the
  decision and the records, and release the lock, while the user closes trades, writes fail and workers
  crash, all interleaved. The limits that a scan checks on predicted figures are shown to hold of the
  real book in every state.
* **Decision history and outcomes** (`DecisionRecords`, `RecordMeaning`, `OutcomeAnalysis`,
  `ReconcileRaces`, `DecisionStores`, `LocalRaces`, `ResilientStore`, `ResilientHistory`). Records are
  built from scans and classified once their trade has closed, by the browser and the worker at once, and
  kept in database rows, in a capped local list, or behind a store that falls back from one to the other
  while calls overlap.
* **Create-only files** (`CreateOnlyFile`, `CreateOnlyLoss`). Temporary file, write, sync, `link`,
  remove, with many writers, failing calls, crashes and power losses, over a file system of names, inodes
  and contents.
  `link` is that of POSIX.1-2017, System Interfaces: it fails with EEXIST if the new name exists.
* **Redaction** (`Redaction`). Secrets are removed from every string of a nested document.

Loops and objects that change are methods and classes, proved against functions or predicates on
values; protocols are state machines, with every theorem stated for all runs or all reachable states.
The constants of the code stay in the code: the specifications name the figures themselves.

## What came out

* The limits hold in every run in which each trade is written by a worker that still holds the lock it
  claimed, however long its scan took (`LimitsHoldInGuardedRuns`). The lock does not enforce this: a
  claim older than five minutes can be taken over, and nothing stops the first worker from writing
  after that. A delay between claim and write is safe, for every account and every run, if and only if
  it is at most those five minutes (`DelayIsSafeExactlyWithinTimeout`); a run with one write a
  millisecond later leaves an instrument held on both sides (`OneLateWriteHoldsBothSides`).
* The confidence ladder holds in all states of such a run if and only if no trade is stamped at the
  very instant of an open trade of its instrument (`LadderHoldsExactlyWithoutTies`). A trade is stamped
  when its scan starts, but the 30 minutes between adds are measured when the candidate is examined;
  so delays below 30 minutes rule ties out, and no longer delay does
  (`DelayKeepsLadderExactlyBelowInterval`, with the run of `SameInstantBreaksLadder`).
* Which trade a scan opens is a function of the scores and the trade list that can be written down without
  the code (`ScanOpensFirstThatMay`), and so is what every record of it reports (`RecordMeaning`).
* Closing a sold share that more than doubled costs money, which no limit looks at, so the 1000 of cash
  that every scan keeps back can be spent. If closes may cost up to some amount, cash stays above the
  floor in all runs of all accounts if and only if that amount is nothing
  (`CostIsSafeExactlyAtNothing`).
* The reason for a fallback is documented as set once. With overlapping calls it can be overwritten:
  over a whole session it is set once if and only if all failures of operations begun on the database
  give the same reason (`ReasonIsSetOnceExactly`).
* The local list is read and then overwritten whole. It keeps the history of the calls made or repeated
  on it if and only if no call writes between another's read and write
  (`ListKeepsHistoryExactlyUndisturbed`); two calls that fail on the database together can both resolve
  and leave the records of one in neither store (`RepeatedCallsLoseRecords`).
* A create-only writer whose cleanup fails after the link reports a failure although the file is in
  place (`SuccessExactly`). The evidence writer leaves its temporary file behind if `close` fails, as
  that call stands outside its handlers; the dataset writers do not (`TemporaryLeftExactly`).
* No writer syncs the directory. At most one of the writers to a path reports success if and only if no
  power loss may take the path's entry (`SucceedsOnceExactlyWhenKept`).
* Redaction is complete for secrets without brackets exactly if no secret is part of the word
  "REDACTED". A secret with a bracket can be put together again by the marker
  (`BracketedSecretCanSurvive`), and `SingleSecretGoneExactly` says for which secrets that can happen.

## Model

| member | source | states |
|---|---|---|
| `PortfolioRisk.BuildExposureSnapshot` | platform/web/src/lib/bot/portfolio-risk.ts:28-68 | The fold computes, for every instrument, side and sector, the capital and count of that group of open trades, has a key exactly for groups with an open trade, and the cash is starting cash less deployed plus realised |
| `PortfolioRisk.SnapshotConserves` | platform/web/src/lib/bot/portfolio-risk.ts:39-55 | For every trade list and order: capital by instrument, by sector and by side each sums to total deployed, the side and sector counts each sum to the open count, and cash plus deployed is starting cash plus realised profit |
| `PortfolioRisk.PartitionsConserve` | platform/web/src/lib/bot/portfolio-risk.ts:39-49 | Any family of groups that puts each open trade in exactly one accounts for all capital and all trades |
| `PortfolioRisk.PredictionHolds` | platform/web/src/lib/bot/portfolio-risk.ts:84-136 | The six "after" figures predicted from a snapshot are what the list with the new trade shows |
| `PortfolioRisk.EvaluatePortfolioRisk` | platform/web/src/lib/bot/portfolio-risk.ts:75-147 | Whatever list the snapshot describes, the six checks are the limits evaluated on that list with the trade added, and they pass together exactly if the list has at most 4 open trades, 2 in the sector and 3 on the side, and room for the notional within 60% and 30% of starting capital and above 1000 of cash |
| `Trades.CashIsSumOfEffects` | platform/web/src/lib/bot/portfolio-risk.ts:52-56 | The available cash is the starting cash, less the stake of every open trade, plus the profit of every closed one where it is known |
| `PositionManager.LatestBotTradeIsLatest` | platform/web/src/lib/bot/position-manager.ts:129-138 | Filtering and sorting finds a comparable open bot trade exactly if there is one: the latest, and of those with the same stamp the first in the list |
| `PositionManager.BuildPositionContext` | platform/web/src/lib/bot/position-manager.ts:46-74 | The context holds count and value of the instrument's open trades per side, and the minutes passed since the newest trade ever placed in the instrument, if there was one |
| `PositionManager.ThirtyMinutesIsRested` | platform/web/src/lib/bot/position-manager.ts:59-65 | Those minutes reach 30 exactly when every trade ever placed in the instrument is 30 minutes old |
| `PositionManager.EvaluatePosition` | platform/web/src/lib/bot/position-manager.ts:83-239 | New exactly if nothing is open in the instrument; block exactly if the other side is held or the cap would be exceeded; add exactly if confidence, agreement and age allow it; else hold; and each named check says its part of it |
| `PositionManager.HeldPositionGrowsOnImprovement` | platform/web/src/lib/bot/position-manager.ts:102-236 | A held instrument is blocked exactly if the other side is held or 750 would be exceeded, and else added to exactly if the candidate is 5 points more confident than the bot's latest trade there, its agreement no weaker in the order Strong, Moderate, Mixed, Conflict, and every trade of the instrument half an hour old |
| `Ranking.RankDescendingIsRanking` | platform/web/src/lib/bot/bot-runner.ts:281-285 | The sort is descending and stable |
| `Ranking.RankingIsUnique` | platform/web/src/lib/bot/bot-runner.ts:281-285 | Descending order and stability determine the ranking |
| `ScanMeaning.RankedIsTheWalkOrder` | platform/web/src/lib/bot/bot-runner.ts:281-285 | The candidates are the scores with a buy or sell signal and a Strong Buy, Buy or Strong Sell recommendation, by descending confidence, equals as scored, and that fixes the list |
| `BotRunner.SizeIsLargestThatFits` | platform/web/src/lib/bot/bot-runner.ts:104-119 | The sizing check passes exactly for positive prices up to 250, and the quantity is then the largest that fits 250, worth more than 125 |
| `BotRunner.EvaluateCandidateRisk` | platform/web/src/lib/bot/bot-runner.ts:64-122 | The four named checks: confidence at least 75, agreement not Conflict, price positive and at most 250, and the informational one; together they pass exactly if those hold |
| `BotRunner.ExamineCandidate` | platform/web/src/lib/bot/bot-runner.ts:330-575 | The evaluation recorded for a candidate tells exactly which gates it reached and passed on the trade list, with a tentative new or add turned to block when the portfolio gate fails |
| `BotRunner.WalkCandidates` | platform/web/src/lib/bot/bot-runner.ts:330-642 | The loop stops at the first candidate passing all three gates: the records are a prefix of the ranking, and there is no trade exactly when none passes |
| `BotRunner.RunBotScan` | platform/web/src/lib/bot/bot-runner.ts:209-642 | The decision and trade refine the scan's specification, snapshot, provenance and identifiers included |
| `ScanMeaning.ScanOpensFirstThatMay` | platform/web/src/lib/bot/bot-runner.ts:209-642 | A scan opens a trade exactly if some score may be traded, and then for the first in the walk order that may: on the side its recommendation calls for, at the price examined, with the shares 250 buys, stamped at the scan's start; the conditions are figures on the trade list, independent of the code's gates |
| `DataSources.CombineDataSourceResults` | platform/web/src/lib/bot/data-source-result.ts:26-31 | Verified exactly if there is a touchpoint and all were external; fallback exactly if one was a fallback |
| `DecisionRecords.LastAlone` | platform/web/src/lib/bot/bot-runner.ts:526-575 | Exactly the opened candidate is accepted, and it is the last one walked |
| `DecisionRecords.RecordTellsTheGates` | platform/web/src/lib/decision-intelligence/build-decision-records.ts:12-60 | The gates nest; a new or add action, a passed portfolio check and the trade's identifier appear exactly on the record of the opened candidate; a failed portfolio check is recorded as a block |
| `RecordMeaning.RecordTellsItsScore` | platform/web/src/lib/decision-intelligence/build-decision-records.ts:22-57 | Field by field, a record names its scan, its score, the side the recommendation calls for and the price examined, and no outcome yet |
| `RecordMeaning.RecordTellsTheBook` | platform/web/src/lib/decision-intelligence/build-decision-records.ts:43-46 | Deployed capital, available cash, exposure of the record's sector and number of open trades on a record are those of the trade list the scan saw |
| `RecordMeaning.RecordTellsTheVerdict` | platform/web/src/lib/bot/bot-runner.ts:330-575 | A record names the first gate its score failed, and whether the portfolio checks were reached and passed, exactly, with the gates stated as figures on the trade list |
| `DecisionRecords.IdsAreDistinct` | platform/web/src/lib/decision-intelligence/build-decision-records.ts:25 | The identifiers of one scan's records differ, whatever characters symbols contain |
| `DecisionRecords.HistoryHasDistinctIds` | platform/web/src/lib/bot/bot-runner.ts:42-44 | Scans that start in different milliseconds leave a whole history of records with distinct identifiers |
| `DecisionRecords.OneProvenance` | platform/web/src/lib/bot/data-source-result.ts:10-31 | Trade, decision and records share one provenance: verified exactly if no fetch of the scan fell back and all were external, fallback exactly if one fell back |
| `BookLimits.PositionCapLimitsCount` | platform/web/src/lib/bot/position-manager.ts:177 | The 750 cap alone allows at most five open bot trades per instrument |
| `BookLimits.AcceptedTradeKeepsLimits` | platform/web/src/lib/bot/bot-runner.ts:413-522 | A trade accepted on the list as seen may be added to whatever is still open of it without breaking a limit |
| `BookLimits.AcceptedTradeClimbs` | platform/web/src/lib/bot/position-manager.ts:129-201 | An accepted trade is a rung above an open trade of its instrument (later, 5 points more confident, no weaker in agreement) if and only if that one was stamped before the scan started |
| `BookLimits.ShortScansStampLater` | platform/web/src/lib/bot/position-manager.ts:186-187 | It was, if the candidate was examined within 30 minutes of the scan's start |
| `BookLimits.AcceptedTradeExtendsLadder` | platform/web/src/lib/bot/position-manager.ts:129-201 | The ladder, or what closes have left of it, survives an accepted trade if and only if every trade of it in the instrument was stamped before the scan started |
| `BookLimits.LadderLimitsCount` | platform/web/src/lib/bot/position-manager.ts:151-152 | With confidence between 75 and 100 a ladder has at most 6 trades |
| `LadderRuns.LadderHeightInRuns` | platform/web/src/lib/bot/position-manager.ts:151-152 | In every state of every tie-free run under the lock, an instrument with k open trades has one of confidence at least 75 and 5 more for each of the others |
| `BookLimits.LimitsSurviveCloses` | platform/web/src/lib/bot/portfolio-risk.ts:84-146 | Closing trades breaks no limit |
| `BookLimits.ScanKeepsLimits` | platform/web/src/lib/bot/bot-runner.ts:209-642 | However long a scan took, its trade keeps within the limits a book that may have lost open trades meanwhile |
| `BookLimits.ScanExtendsLadder` | platform/web/src/lib/bot/bot-runner.ts:209-642 | It keeps the ladder of such a book if and only if the scan started after every trade still open in the instrument was stamped |
| `BookLimits.ScanLeavesCash` | platform/web/src/lib/bot/portfolio-risk.ts:126-127 | Right after a scan that opened a trade on an unchanged list, cash is at least 1000 |
| `WorkerSystem.LiveScansExclude` | platform/web/src/lib/scheduler/server-schedule-store.ts:33-50 | In every run, no two workers are both scanning on a claim younger than five minutes |
| `WorkerSystem.TimelyRunsAreGuarded` | platform/web/src/worker/process-schedule.ts:31-137 | Writing within five minutes of the claim is enough to hold the lock still |
| `WorkerSystem.StepKeepsSafe` | platform/web/src/worker/process-schedule.ts:31-151 | Every step of every worker and every close keeps the limits and the lock holder's view of the book, if trades are written under the lock |
| `WorkerSystem.LimitsHoldInGuardedRuns` | platform/web/src/worker/process-schedule.ts:31-151 | In every state of every interleaved run whose trades are written by current lock holders: at most 5 open trades, 60% deployed, 30% and 3 trades per sector, 4 per side, one side and 750 per instrument |
| `LadderRuns.LadderHoldsExactlyWithoutTies` | platform/web/src/lib/bot/bot-runner.ts:221 | In every run under the lock, the ladder holds in all states if and only if no trade is stamped at the instant of an open trade of its instrument |
| `LadderRuns.LadderHoldsWithShortScans` | platform/web/src/lib/bot/position-manager.ts:129-201 | In runs under the lock with writes less than 30 minutes after their claims, any two open trades of an instrument are at least 5 confidence points apart in time order, the later no weaker in agreement |
| `LadderTie.SameInstantBreaksLadder` | platform/web/src/lib/bot/bot-runner.ts:221 | A run whose lock holder takes half an hour, stamps an add at the instant of the trade it adds to, and breaks the ladder |
| `LadderTie.DelayKeepsLadderExactlyBelowInterval` | platform/web/src/lib/bot/position-manager.ts:60-65 | Under the lock, a delay between claim and write keeps the ladder in all states of all runs if and only if it is less than 30 minutes |
| `WorkerSystem.LimitsHoldInTimelyRuns` | platform/web/src/worker/process-schedule.ts:31-151 | The limits hold in every state when each trade is written within five minutes of its claim |
| `CashRuns.ClosingPaysOut` | platform/web/src/lib/utils/paper-trade.ts:18-46 | Closing a trade changes the cash of the whole book by exactly its market value if bought, its stake less the rise in price if sold |
| `CashRuns.ClosedTradeTells` | platform/web/src/lib/utils/paper-trade.ts:18-46 | A close keeps all else about a trade; the profit is what it returns less its stake, and the percentage is that of its stake, or 0 without an entry price |
| `CashRuns.CashStaysAboveFloor` | platform/web/src/lib/bot/portfolio-risk.ts:126-127 | In every state of every run under the lock in which no close costs money, cash is at least 1000, or the starting cash if that is less |
| `CashRuns.CostlyClose` | platform/web/src/lib/utils/paper-trade.ts:18-46 | For any cash from 1200 on and any cost, a run under the lock in which one close costs that much and leaves the cash after a sale less the cost |
| `CashRuns.CostIsSafeExactlyAtNothing` | platform/web/src/lib/bot/portfolio-risk.ts:126-127 | If no close costs more than a given amount, cash stays above the floor in all states of all runs under the lock of all accounts if and only if the amount is not positive |
| `LockExpiry.OneLateWriteHoldsBothSides` | platform/web/src/lib/scheduler/server-schedule-store.ts:24-50 | A run, timely up to its last step, in which one trade written a millisecond after its lock could be taken over breaks the limits |
| `LockExpiry.DelayIsSafeExactlyWithinTimeout` | platform/web/src/lib/scheduler/server-schedule-store.ts:24-50 | A delay between claim and write keeps the limits in all states of all runs of all accounts if and only if it is at most five minutes |
| `PersistenceOrder.NothingNamesAMissingTrade` | platform/web/src/lib/bot/bot-execution-context.ts:40-46 | In every state of every run, whatever failed: a stored decision names a trade exactly when it has the row of that stored trade, and a stored record that names a trade is backed by a stored decision naming it |
| `PersistenceOrder.StepKeepsOrder` | platform/web/src/lib/bot/server-execution-context.ts:25-37 | Every step, failed or half-failed writes included, keeps that order |
| `ExecutionContext.ServerExecutionContext.PersistTrade` | platform/web/src/lib/bot/server-execution-context.ts:29-34 | The row is kept for the decision only if the store reported it, and stored trades keep their rows |
| `ExecutionContext.ServerExecutionContext.PersistDecision` | platform/web/src/lib/bot/server-execution-context.ts:35-36 | A decision is stored with the row the context holds; the stores stay consistent exactly if that row is the decision's own trade's |
| `ExecutionContext.Persist` | platform/web/src/lib/bot/bot-execution-context.ts:42-46 | The three writes leave no gap, each made only if those before it were reported done, and are the steps of a worker of the run theorems |
| `ExecutionContext.ExecuteBotScan` | platform/web/src/lib/bot/bot-execution-context.ts:32-48 | What is written is what a scan of the loaded trades decides, a result is returned only if all of it was written, and the whole call is steps of a worker that has claimed, ending where it releases |
| `OutcomeAnalysis.FindReconcilableOutcomes` | platform/web/src/lib/decision-intelligence/outcome-analysis.ts:65-87 | The updates found, in order of the records, are exactly those due: of a pending accepted record and the last trade with its link, closed with profit data; win or loss beyond 0.01, and the holding time the span rounded to whole minutes, never negative |
| `OutcomeAnalysis.FoundExactlyWhenEligible` | platform/web/src/lib/decision-intelligence/outcome-analysis.ts:35-84 | An update is found exactly for a pending accepted record whose linked trade is closed with profit data |
| `OutcomeAnalysis.ReconciliationIsIdempotent` | platform/web/src/lib/decision-intelligence/outcome-analysis.ts:59-87 | A second pass over the applied result finds nothing, for any lists |
| `OutcomeAnalysis.PassIsExact` | platform/web/src/lib/decision-intelligence/outcome-analysis.ts:21-112 | With distinct record ids, one pass leaves every accepted record whose trade is closed with data classified by that trade's figures, band and rounded holding time, and every other as created |
| `OutcomeAnalysis.OneWritePerUpdateIsOnePass` | platform/web/src/lib/decision-intelligence/outcome-analysis.ts:105-112 | Writing updates one by one is one pass over the records, for every list with repeated ids too |
| `ReconcileRaces.StaleUpdateIsDue` | platform/web/src/lib/decision-intelligence/reconcile-outcomes.ts:20-25 | An update computed from stale trade and record lists is the one its record should get |
| `ReconcileRaces.RecordsAreNeverWrong` | platform/web/src/lib/decision-intelligence/reconcile-outcomes.ts:16-30 | In every state of every race between browser and worker, each record is as created or says exactly what a stored trade did |
| `ReconcileRaces.RacesConverge` | platform/web/src/lib/decision-intelligence/reconcile-outcomes.ts:16-30 | Two races over the same trades and created records end, after a last pass each, with the same records apart from when outcomes were recorded |
| `ReconcileRaces.WriteOrderIsIrrelevant` | platform/web/src/lib/decision-intelligence/server-decision-history-store.ts:48-70 | Due updates may be written in any order, any number of times, without a guard on Pending |
| `DecisionStores.StatementReadsBack` | platform/web/src/lib/decision-intelligence/supabase-decision-history-store.ts:182-195 | One UPDATE statement, read back through the row mapping, is the update of the records |
| `DecisionStores.InsertReadsBack` | platform/web/src/lib/decision-intelligence/supabase-decision-history-store.ts:57-171 | Inserted records are read back as they were, after all that was there, through the round trip of the row mapping |
| `DecisionStores.DecisionTable.AddRecords` | platform/web/src/lib/decision-intelligence/server-decision-history-store.ts:19-29 | The insert adds the records for that user, all or none |
| `DecisionStores.DecisionTable.UpdateOutcomes` | platform/web/src/lib/decision-intelligence/server-decision-history-store.ts:48-70 | The loop of statements is one pass of the updates made before the first failing one, and touches no other user's row |
| `DecisionStores.CappedStoreRefinesHistory` | platform/web/src/lib/decision-intelligence/local-storage-decision-history-store.ts:27-39 | After any calls the capped list is the first 500 entries of the uncapped, newest-batch-first history with the same updates |
| `DecisionStores.LocalDecisionHistoryStore.Load` | platform/web/src/lib/decision-intelligence/local-storage-decision-history-store.ts:14-25 | What is read is the first 500 entries of the uncapped history |
| `DecisionStores.LocalDecisionHistoryStore.AddRecords` | platform/web/src/lib/decision-intelligence/local-storage-decision-history-store.ts:27-32 | A successful call extends the history, a failed one leaves it |
| `DecisionStores.LocalDecisionHistoryStore.UpdateOutcomes` | platform/web/src/lib/decision-intelligence/local-storage-decision-history-store.ts:34-39 | A successful call updates the history, a failed one leaves it |
| `ResilientStore.ResilientDecisionHistoryStore.BeginRun` | platform/web/src/lib/decision-intelligence/resilient-decision-history-store.ts:54-62 | The part of `run` before its await hands the operation to the active store, guarded only while a configured primary is in use |
| `ResilientStore.ResilientDecisionHistoryStore.SettleRun` | platform/web/src/lib/decision-intelligence/resilient-decision-history-store.ts:56-94 | The part after it: success connects, a failure of a guarded call other than for sign-in switches and repeats on the fallback |
| `ResilientStore.EveryStateIsCoherent` | platform/web/src/lib/decision-intelligence/resilient-decision-history-store.ts:25-94 | In every run of overlapping calls the mode reads "Supabase" exactly while a configured primary is not given up, and no call begun after the switch touches the primary |
| `ResilientStore.SwitchIsForGood` | platform/web/src/lib/decision-intelligence/resilient-decision-history-store.ts:85-91 | The switch is never taken back |
| `ResilientStore.SwitchesOnce` | platform/web/src/lib/decision-intelligence/resilient-decision-history-store.ts:54-94 | The store switches once if it has fallen back, else never |
| `ResilientStore.FallsBackExactlyOnFailure` | platform/web/src/lib/decision-intelligence/resilient-decision-history-store.ts:61-93 | A run has fallen back if and only if at some point of it an operation begun on the primary failed other than for want of a sign-in |
| `ResilientStore.ConnectedExactlyOnceAnswered` | platform/web/src/lib/decision-intelligence/resilient-decision-history-store.ts:25-91 | The status reads connected from the start without a primary, and with one exactly once an operation begun on it has succeeded or failed, sign-in errors aside |
| `ResilientStore.ReasonIsSetOnceExactly` | platform/web/src/lib/decision-intelligence/resilient-decision-history-store.ts:73-91 | Over a whole session of overlapping calls the reason, once there, stays the same if and only if all failures of operations begun on the primary give the same one |
| `ResilientStore.ReasonCanBeOverwritten` | platform/web/src/lib/decision-intelligence/decision-history-status.ts:8-10 | A run in which the reason documented as set once is overwritten |
| `ResilientHistory.StatementsMakeTheCall` | platform/web/src/lib/decision-intelligence/supabase-decision-history-store.ts:182-195 | All the statements of one call to the database come to the records once, or to one pass of the updates |
| `ResilientHistory.ViewIsReached` | platform/web/src/lib/decision-intelligence/resilient-decision-history-store.ts:54-94 | Every run of the resilient store with its two stores' contents is a run of the store alone, and keeps each call, the database and the list in order |
| `ResilientHistory.ResolvedRecordsAreHeld` | platform/web/src/lib/decision-intelligence/resilient-decision-history-store.ts:104-116 | In every run of overlapping and failing calls an `addRecords` that resolved has its records in the store it touched last: in the database, or in the history that the local list is cut from if no call wrote between another's read and write |
| `ResilientHistory.OnlyFallbackCallsWrite` | platform/web/src/lib/decision-intelligence/resilient-decision-history-store.ts:85-93 | What is written to the local list comes from calls that touched the fallback last |
| `ResilientHistory.ListKeepsHistoryExactlyUndisturbed` | platform/web/src/lib/decision-intelligence/local-storage-decision-history-store.ts:27-39 | The local list is in all runs the first 500 entries of the history of the calls made or repeated on it, if and only if no call writes between another's read and write |
| `ResilientHistory.RepeatedCallsLoseRecords` | platform/web/src/lib/decision-intelligence/resilient-decision-history-store.ts:93 | Two calls that fail on the primary and are repeated: both resolve, and the records of the one that writes first are in neither store |
| `LocalRaces.KeepsHistoryExactlyUndisturbed` | platform/web/src/lib/decision-intelligence/local-storage-decision-history-store.ts:27-39 | Of one schedule of reads and writes: the list is always the capped history of the calls that wrote, whatever they save, if and only if nothing is written between a call's read and its write |
| `CreateOnlyFile.StepKeepsSound` | platform/web/src/hermes-execution/broker-etoro-smoke.ts:136-172 | Every step of every writer, crashes and power losses included, keeps files in writing private and destinations whole |
| `CreateOnlyFile.DestinationIsAbsentOrWhole` | platform/web/src/hermes-execution/broker-etoro-smoke.ts:120-172 | In every state of every run a destination is absent or holds one complete synced document that a writer which ran was asked to write there |
| `CreateOnlyFile.DestinationNeverChanges` | platform/web/src/hermes-execution/broker-etoro-smoke.ts:120-172 | Once present a destination keeps inode and contents, unless a power loss takes its directory entry |
| `CreateOnlyFile.AtMostOneSuccess` | platform/web/src/hermes-execution/broker-etoro-smoke.ts:159-171 | Of all writers to a path at most one reports success, and the destination holds its document |
| `CreateOnlyFile.ExactlyOneWinsWithoutFaults` | platform/web/src/hermes-execution/dataset-prepare-cli.ts:169-195 | When nothing fails, exactly one writer reports success and every other that the file exists |
| `CreateOnlyFile.SuccessExactly` | platform/web/src/hermes-execution/broker-etoro-smoke.ts:159-171 | A finished writer reports success exactly if its link and its cleanup succeeded, "already exists" exactly if the link said so and the cleanup succeeded |
| `CreateOnlyFile.TemporaryLeftExactly` | platform/web/src/hermes-execution/broker-etoro-smoke.ts:149-170 | A finished writer leaves its temporary file exactly if the cleanup failed or, for the evidence writer, the close did, power losses that take or bring back the name set aside |
| `CreateOnlyFile.FileSystem.WriteStage4EvidenceFile` | platform/web/src/hermes-execution/broker-etoro-smoke.ts:136-172 | The calls in order are steps of the state machine; outcome and names are given for every combination of failing calls |
| `CreateOnlyFile.FileSystem.WriteCreateOnly` | platform/web/src/hermes-execution/dataset-prepare-cli.ts:169-195 | The same for the dataset writer, whose cleanup always runs |
| `CreateOnlyFile.FileSystem.Publish` | platform/web/src/hermes-execution/dataset-binance-download-cli.ts:160-171 | The link adds the destination exactly if it was absent, and a failing cleanup turns any outcome into a failure |
| `CreateOnlyLoss.LossAllowsTwoSuccesses` | platform/web/src/hermes-execution/broker-etoro-smoke.ts:136-172 | For any two writers to one path, of either kind, a run with a power loss between them, of that path's entry only, in which both report success |
| `CreateOnlyLoss.SucceedsOnceExactlyWhenKept` | platform/web/src/hermes-execution/broker-etoro-smoke.ts:136-172 | For a path with two writers or more and power losses that take no destinations outside a given set: at most one writer ever reports success if and only if the path is not in the set |
| `Redaction.SplitIsExact` | platform/web/src/hermes-execution/broker-etoro-smoke.ts:78 | The parts of a split are pieces of the text without the separator, which joins them to the text again |
| `Redaction.RedactSecrets` | platform/web/src/hermes-execution/broker-etoro-smoke.ts:74-81 | The loop, empty secrets skipped, computes the redaction that the lemmas below are about |
| `Redaction.SecretIsRemoved` | platform/web/src/hermes-execution/broker-etoro-smoke.ts:74-81 | A secret that does not overlap the marker is gone whatever the other secrets are, and later ones do not bring it back |
| `Redaction.CleanExactlyOutsideTheWord` | platform/web/src/hermes-execution/broker-etoro-smoke.ts:74-81 | For secrets without brackets: every text comes out free of all of them if and only if none is part of "REDACTED" |
| `Redaction.SingleSecretGoneExactly` | platform/web/src/hermes-execution/etoro-instrument-probe.ts:87-94 | For one secret of any characters: every text comes out free of it if and only if no marker completes it |
| `Redaction.UntouchedWithoutSecrets` | platform/web/src/hermes-execution/etoro-instrument-probe.ts:87-94 | A text that contains no secret is unchanged |
| `Redaction.BracketedSecretCanSurvive` | platform/web/src/hermes-execution/etoro-instrument-probe.ts:87-94 | A text and a secret with a bracket that survives its redaction |
| `Redaction.RedactDeep` | platform/web/src/hermes-execution/broker-etoro-smoke.ts:83-94 | The recursion redacts the text of every string value, at any depth |
| `Redaction.ShapeIsKept` | platform/web/src/hermes-execution/etoro-instrument-probe.ts:100-111 | Keys, other values and positions are unchanged |
| `Redaction.NoSecretSurvives` | platform/web/src/hermes-execution/broker-etoro-smoke.ts:74-94 | No string value anywhere in the redacted document contains a secret, for secrets without brackets that are not part of "REDACTED" |

## Left out

- Redaction.SecretIsRemoved: for several secrets of which some have brackets only this sufficient condition is proved; the exact one is proved for lists without brackets and for single secrets.
- ReconcileRaces.RecordsAreNeverWrong: assumes that a closed trade does not change; the close itself has no guard on the status, so closing a trade twice is not modelled.
- CreateOnlyFile.DestinationIsAbsentOrWhole: temporary names are unique (they carry a UUID) and destinations are not removed or rewritten by others; a link that is made but reported as failed is not modelled.
- Floating point: money is `real`. NaN and infinite prices do not occur, and a price of zero has no size, as the quotient is not finite.
- Trades not opened by scans: the run theorems are about books that only bot scans open trades in, with scans from the browser off, since the lock covers workers only.
- Clocks: one clock that never goes back, and worker identifiers that are unique; reconciliation assumes distinct identifiers of records and of trades, so scans of one user that start in different milliseconds, after which decisions and trades are named (bot-runner.ts:165); `Date.now()`, generated identifiers and quotes are inputs.
- The spacing of two scans of one user: the due list is read before the claim, and the polling loop that walks it adds nothing to one user's interleavings.
- The order in which the database lists rows: a listing is any rearrangement of them, which covers ties in its sort keys. Reading a stored trade back is taken to give the trade.
- The strategy engine, market data, market screening, HTTP, Supabase and browser clients: their answers are inputs.
- Texts: the `detail`, `reason` and trace strings, logs and toasts. A rejection keeps its kind.
- Database columns that come back as number or string, migrations without newer columns (except the provenance column), and row-level security.
- The local store outside a browser, and corrupt storage (read as empty).
- The resilient store's listeners, `recordsStored` and `lastRecordedAt`, which are not meant to match a capped list.
- Next scan time, last status and last error of a schedule: they do not bear on who holds the lock.
- Redaction of a key named `__proto__`, which assignment treats specially, and values that are not plain documents.
- Making the destination's directory and serialising the document: a failure there is a failure to open.
- Stage classification, broker calls, command-line arguments and the user interface: small case analyses or presentation.
