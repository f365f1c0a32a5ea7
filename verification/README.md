# Verification of AEGIS

Dafny models of the stateful and decision-making parts of AEGIS, with proofs of what they promise.
`dafny verify dfyconfig.toml` checks the whole project. Nothing of the original program is executed.

What is modelled, from the phone to the trade:

- **Offline cache** (`FileNames`, `OfflineCache`, `CacheRuns`, `CacheServices`): screenshots that could not be sent
  wait in a directory whose file names hold the capture time and the account. A ledger records where
  every captured file went.
- **Bands** (`BandClustering`): contour points become U/M/L readings of a three-line indicator.
- **History** (`IndicatorHistory`): frames are kept per account in a set sorted by capture time and
  trimmed after every insert.
- **Signals** (`SignalRules`, `SignalMeaning`, `SignalTheorems`, `MirrorTheorem`, `TrimTheorem`): the six first-match rules over
  crossings, positions and a two-half divergence test. A smaller Y is higher on the chart.
- **From phone to advice** (`Outage`, `Pipeline`): what an outage leaves behind on the server, and the
  parts above put together.
- **Jobs and workers** (`JobQueue`, `WorkerSystem`, `WorkerResults`, `WorkerPool`): one API instance
  (`docker/entrypoint.sh:8` pins it to one), any number of accounts, and every interleaving of API
  calls, worker steps, crashes, timeouts and key expiries. The pool lock is part of the state, so a
  call of `ensure_worker` or `stop_worker` can be overtaken between its awaits.
- **Subscriptions** (`Subscriptions`, `SubscriptionServices`): webhook events with deduplication, the
  grace period, demo sign-up, and the background sweep.
- **Rate limit** (`RateLimit`): the sliding window of the in-process deque, of the Redis sorted set,
  and of the full request log that both stand for.
- **One-time codes** (`Totp`, `Decimals`): RFC 6238 over an arbitrary 20-byte keyed hash.

Parts that change state in the source are classes whose methods are proved against a specification
function; the theorems are about those functions and about all runs built from them. Coordinates and
request times are `real`, other times are integers, and clocks, network answers, credentials, tokens,
hash functions and broker results are parameters.

The code differs from its own documentation, or from what one might expect, in these places. The
model follows the code, and the exact condition is proved:

- File names are said to sort chronologically (`ScreenshotCacheManager.kt:31`). They do exactly under
  the condition of `NameOrderExactly`, which all millisecond timestamps from 2001 to 2286
  meet; `ThirteenthDigitSortsFirst` is a pair that does not.
- A divergence lookback of 0 reads the whole history instead of none of it, so no trimming is safe
  with it (`TrimSafeExactly`). The shipped settings, 12 of 60 frames, are safe.
- Unless the lookback is one to three, an upside-down band 1 can make a SELL and a BUY rule fire on
  one frame (`ExclusivityExactly`); a band clustered from contour points never is upside down
  (`BandIsOrdered`).
- The mirror image of a chart does not always get the mirrored advice (`MirrorBreaksAtTie`); it does
  exactly under the condition of `MirrorDualityExactly`.
- Several contours per line are said to collapse to three values. Unless their counts balance, a line
  is then read at a height where it is not (`UnevenLinesAreMisread`, `LinesRecoveredExactly`).
- An account id with a slash is not read back from a file name (`ParseFileFor`).
- Evictions during an outage never show in the history of up to 199 frames of a phone with one account, but
  can with two accounts
  (`TraceExactly`, `OutageLeavesNoTrace`, `NeighbourLeavesATrace`).
- A STOP sent to an account whose worker is gone ends the next worker instead
  (`StaleStopEndsNextWorker`, `ServedExactly`).
- Workers that have exited still count against the pool limit (`DeadWorkersFillThePool`), and
  `is_running` still reports them (`RegistryTellsTracked`, `ExitedWorkerIsReported`).
- A failed payment is said to disconnect the worker at once (`subscription_router.py:113-115`). It does
  so only for accounts without a subscription row (`FailureStopsOnlyUnknownAccounts`).
- A paid checkout is said to move a demo to a live plan (`docs/DOWNLOAD_AND_DEMO.md:27`). No payment
  event sets the plan of an existing row (`DemoNeverTradesLive`); when a payment does allow live trading
  is `PaymentAllowsLiveExactly`.
- A sweep cannot be seen through `is_active` or `allows_live_trading`, but it can be seen through
  `get_plan` (`SweepChangesPlanExactly`).
- Rejected requests count against the limit, so a client that never slows down is not served again
  (`AcceptedExactly`).

## Model

| member | source | states |
|---|---|---|
| SignalRules.MinOf | backend/app/services/signal_rule_engine.py:112-113 | The minimum of a half window is one of its values and below all others. |
| SignalRules.MaxOf | backend/app/services/signal_rule_engine.py:118-119 | The maximum of a half window is one of its values and above all others. |
| SignalRules.FirstFiredIsFirst | backend/app/services/signal_rule_engine.py:154-165 | The engine answers with the first rule in its list that fires, in that rule's direction and with all four conditions true, and answers "no rule matched" exactly when none fires. |
| SignalRules.TryEvaluateExactly | backend/app/services/signal_rule_engine.py:154-165 | What `evaluate` does on every history, missing readings included: it raises exactly when one of the last two frames lacks a band, or when #4 or #6 is missing and some rule's crossing happened; with all readings present it is the first-match engine. |
| SignalMeaning.RulesInPlainTerms | backend/app/services/signal_rule_engine.py:181-327 | Each of the four conditions of each rule is an inequality between readings, whichever way up band 1 is: a line rose or fell through its level, #4 is not under (over) the nearer lines, #6 is beyond its level, and the divergence or the close beyond both price bands is there. |
| SignalMeaning.DivergenceInPlainTerms | backend/app/services/signal_rule_engine.py:98-127 | The divergence of two series of four or more readings, by the readings of their two halves: bearish when some later price is above all earlier ones and no later indicator reading is, else bullish the other way. |
| SignalMeaning.ReadingsAreAppended | backend/app/services/signal_rule_engine.py:199-200 | A frame adds its closing price and its #5 reading, where it has them, at the end of the series, and nothing else does. |
| SignalMeaning.WindowIs | backend/app/services/signal_rule_engine.py:199-200 | Which frames a lookback reads: the newest ones, all of them for 0, and all but the first ones for a negative lookback. |
| SignalMeaning.EvaluateInPlainTerms | backend/app/services/signal_rule_engine.py:154-327 | What the engine answers on any history of two frames or more, told by the inequalities: the first rule whose conditions hold, under its name, with SELL for the three sell rules and BUY for the three buy rules. |
| SignalMeaning.SignalInPlainTerms | backend/app/services/signal_rule_engine.py:154-327 | With U <= L in the newest band 1, SELL is answered if and only if the inequalities of a sell rule hold, and then #6 is above 1U; BUY if and only if those of a buy rule hold, and then #6 is at or below 1L. |
| SignalMeaning.NewHighMeans | backend/app/services/signal_rule_engine.py:115-116 | A half window makes a new high exactly when one of its readings is above every earlier one. |
| SignalMeaning.NewLowMeans | backend/app/services/signal_rule_engine.py:121-122 | A half window makes a new low exactly when one of its readings is below every earlier one. |
| SignalTheorems.OrderInvariance | backend/app/services/signal_rule_engine.py:67-127 | Any strictly increasing map on the indicator panel and any other one on the price panel leave the whole result of `evaluate` unchanged, through filtering, windowing, min/max and all rules. |
| SignalTheorems.WindowDivergenceRescaled | backend/app/services/signal_rule_engine.py:98-127 | The two-half divergence test on the filtered window depends only on the order of the readings. |
| MirrorTheorem.SideOfMirrored | backend/app/services/signal_rule_engine.py:67-68 | A side flips in the mirror if and only if there is no tie. |
| MirrorTheorem.CrossedMirrored | backend/app/services/signal_rule_engine.py:71-77 | A crossing flips in the mirror if and only if it ties at both ends or at neither. |
| MirrorTheorem.DivergenceMirrored | backend/app/services/signal_rule_engine.py:98-127 | A divergence flips in the mirror if and only if the window is not unconfirmed at both extremes (the bearish test comes first). |
| MirrorTheorem.ResultMirrored | backend/app/services/signal_rule_engine.py:181-327 | What a rule answers, "no result" included, is mirrored by its mirror rule if and only if it crosses neither on the chart nor in the mirror, or no tie or double divergence matters to it. |
| MirrorTheorem.FiresInMirror | backend/app/services/signal_rule_engine.py:181-327 | Which rules fire on the upside-down chart, as inequalities read on the chart itself: ties count for the other side, and a window unconfirmed at both extremes is bearish both times. |
| MirrorTheorem.MirrorPairsExclusive | backend/app/services/signal_rule_engine.py:181-327 | A rule and its mirror rule never fire together, whichever way up band 1 is. |
| MirrorTheorem.MirrorDualityExactly | backend/app/services/signal_rule_engine.py:154-327 | `evaluate` of the upside-down chart gives the opposite signal under the name of the mirror rule if and only if, pair by pair in the order of the rules, the pair fires in the mirror as on the chart, up to the first pair that fires. No assumption on the orientation of band 1 is needed. |
| MirrorTheorem.MirrorDuality | backend/app/services/signal_rule_engine.py:154-327 | In particular it does when no tie and no double divergence matters to any rule. |
| MirrorTheorem.MirrorBreaksAtTie | backend/app/services/signal_rule_engine.py:277-327 | A history that fails, for every lookback: a full price-filter SELL in which 2M ends exactly on 1M; its mirror image gets no advice. |
| SignalTheorems.DirectionExclusivity | backend/app/services/signal_rule_engine.py:181-327 | With U <= L in the newest band 1, any two rules that fire agree on the direction. |
| SignalTheorems.ShortLookbackExclusivity | backend/app/services/signal_rule_engine.py:181-327 | With a lookback of one to three frames any two rules that fire agree on the direction, whichever way up band 1 is. |
| SignalTheorems.ConflictFires | backend/app/services/signal_rule_engine.py:181-327 | For every upside-down band and every other lookback there is a history on which a SELL and a BUY rule both fire. |
| SignalTheorems.ExclusivityExactly | backend/app/services/signal_rule_engine.py:181-327 | So the rules that fire on histories with a given newest band 1 always agree if and only if U <= L or the lookback is one to three. |
| SignalTheorems.RuleOrderIrrelevant | backend/app/services/signal_rule_engine.py:171-179 | With U <= L, any list that contains every rule, in any order, gives the same signal as the engine's list. |
| SignalTheorems.RepeatedFrameIsSilent | backend/app/services/signal_rule_engine.py:181-327 | When the bands of the newest two frames are the same no rule fires, so a frame stored twice hides the signal it gave. |
| TrimTheorem.TrimSafeExactly | backend/app/services/signal_rule_engine.py:199-201 | Keeping only the newest k frames never changes the result if and only if k >= 2, the lookback is positive, and it fits in k or is at most 3 (too short for a divergence). A lookback of 0 is never safe: the slice `[-0:]` is the whole history. |
| TrimTheorem.CoveredWindowIsSafe | backend/app/services/signal_rule_engine.py:154-165 | The safe direction, for each history. |
| TrimTheorem.UncoveredWindowIsUnsafe | backend/app/services/signal_rule_engine.py:154-165 | Every other setting has a history on which trimming changes the result. |
| BandClustering.MaxX | backend/app/services/brain_cv_service.py:124 | The rightmost column is attained by a point and none lies beyond it. |
| BandClustering.CutsInOrder | backend/app/services/brain_cv_service.py:141 | The split of a list of at least three into near-equal thirds has no empty part and covers the list. |
| BandClustering.SortedSorts | backend/app/services/brain_cv_service.py:136 | Sorting gives an ordered permutation with the same sum. |
| BandClustering.ThreeMeansInOrder | backend/app/services/brain_cv_service.py:141-143 | The means of three consecutive chunks of a sorted list are in order. |
| BandClustering.BandIsOrdered | backend/app/services/brain_cv_service.py:134-143 | A band is read exactly when at least three points survive the right-edge window, and then U <= M <= L. |
| BandClustering.KeptHeights | backend/app/services/brain_cv_service.py:121-126 | A height is kept once for every point at it that is not left of the panel and has no point more than six columns to its right. |
| BandClustering.BandInPlainTerms | backend/app/services/brain_cv_service.py:134-143 | The band is read from exactly those heights, in order: nothing for fewer than three, and otherwise the means of three near-equal parts, larger ones first. |
| BandClustering.SingleLineInPlainTerms | backend/app/services/brain_cv_service.py:128-132 | A single line is read if and only if there is such a height, at their mean, which lies between the least and the greatest. |
| BandClustering.SumInPlainTerms | backend/app/services/brain_cv_service.py:132 | The sum under a mean adds one height at a time. |
| BandClustering.MeanTimes | backend/app/services/brain_cv_service.py:132 | A mean times the number of heights is their sum. |
| BandClustering.BandIgnoresContourOrder | backend/app/services/brain_cv_service.py:121-143 | The order in which contours were found changes neither a band nor a single line. |
| BandClustering.LinesAreRecovered | backend/app/services/brain_cv_service.py:141-143 | Three lines that may touch, of any spread, with contour counts equal to the near-equal thirds, come back as the three means of their own points. |
| BandClustering.LinesRecoveredExactly | backend/app/services/brain_cv_service.py:139-143 | Three separated lines of any spread and any numbers of contours come back as the means of their own points if and only if the outer thirds take no contour of another line, and part of a line only when it is level, and what spills into the middle third from above and below balances around the middle mean. |
| BandClustering.UnevenLinesAreMisread | backend/app/services/brain_cv_service.py:139-143 | Lines at 0, 10 and 20 with one, one and two contours are read as 5, 20 and 20. |
| IndicatorHistory.OrderedUnique | backend/app/services/indicator_history_service.py:78 | A sorted set is determined by its members. |
| IndicatorHistory.ZAddKeepsOrder | backend/app/services/indicator_history_service.py:78 | Adding a member keeps the order by (score, member) and adds that member only. |
| IndicatorHistory.TrimThenAdd | backend/app/services/indicator_history_service.py:78-82 | Trimming before an insert loses nothing that trimming after it would have kept. |
| IndicatorHistory.StoredIsNewest | backend/app/services/indicator_history_service.py:57-83 | For every sequence of appends, trimming after every insert stores the last `max_frames` of the full chronological history. |
| IndicatorHistory.ArrivalOrderIrrelevant | backend/app/services/indicator_history_service.py:57-93 | Any two sequences of appends with the same members give the same stored history. |
| IndicatorHistory.DroppedFramesAreOlder | backend/app/services/indicator_history_service.py:79-82 | A dropped frame is older than every kept one, and something is dropped only when `max_frames` are kept. |
| IndicatorHistory.StoredInCaptureOrder | backend/app/services/indicator_history_service.py:78-93 | What is stored is in the order of capture times, without repetition, only from what was appended, and at most `max_frames`. |
| IndicatorHistory.IndicatorHistoryService.StoredIs | backend/app/services/indicator_history_service.py:57-93 | In every reachable state of the service, what is stored for an account is the newest part of everything appended for it. |
| IndicatorHistory.IndicatorHistoryService.AppendFrame | backend/app/services/indicator_history_service.py:57-83 | Files the frame under its capture time, or the server time without one, for that account alone, and keeps the invariant above for all accounts. |
| IndicatorHistory.IndicatorHistoryService.GetHistory | backend/app/services/indicator_history_service.py:85-93 | Returns the parsed newest frames of everything appended, in capture order. |
| IndicatorHistory.IndicatorHistoryService.Clear | backend/app/services/indicator_history_service.py:95-96 | Empties one account's history. |
| Pipeline.StoredHistoryGivesFullVerdict | backend/app/api/brain_router.py:97-99 | The advice drawn from the stored, trimmed history is the advice of the full chronological history, whatever the order of arrival. |
| Pipeline.AdviceIgnoresArrivalOrder | backend/app/api/brain_router.py:97-99 | Two orders of arrival of the same members lead to the same advice. |
| Pipeline.OutageKeepsAdvice | backend/app/api/brain_router.py:97-99 | After a drained outage of any length on a phone with one account, the advice is that of the full history of everything sent live or captured. |
| CacheRuns.RunIsSound | mobile_app/app/src/main/java/com/aegis/mobile/capture/ScreenshotCacheManager.kt:35-66 | Over every run whose captures have names of their own, in whatever order they are cached: nothing is overwritten, malformed or refused, and every captured file is in one place. |
| CacheRuns.WhereaboutsOf | mobile_app/app/src/main/java/com/aegis/mobile/capture/ScreenshotCacheManager.kt:35-66 | In such a run a captured file is pending, delivered or evicted, and only one of these. |
| CacheRuns.RunKeepsOld | mobile_app/app/src/main/java/com/aegis/mobile/capture/ScreenshotCacheManager.kt:48-57 | Over every such run an evicted file has at least 199 captures that sort after it, and at least 200 when captures come in the order of their names. |
| Outage.TraceExactly | mobile_app/app/src/main/java/com/aegis/mobile/capture/ScreenCaptureService.kt:240-266 | At any moment of any such run, for each of any number of accounts: the server holds the history it would hold had every capture been sent live if and only if no capture that is still pending or was evicted belongs to the newest frames of that account. |
| Outage.DrainedOutage | mobile_app/app/src/main/java/com/aegis/mobile/capture/ScreenCaptureService.kt:240-266 | Once the backlog is drained, evictions included, nothing is missing from the history of an account that made up enough of the last 199 captures by name to fill it (200 when they came in the order of their names). |
| Outage.OutageLeavesNoTrace | mobile_app/app/src/main/java/com/aegis/mobile/capture/ScreenCaptureService.kt:240-266 | In particular on a phone with one account, for any history of at most 199 frames (200 when captures came in the order of their names). |
| Outage.OutageAndRecovery | mobile_app/app/src/main/java/com/aegis/mobile/capture/ScreenCaptureService.kt:240-266 | An outage of any length, then forty good drain cycles: the server holds the history of everything sent live or captured. |
| Outage.NeighbourLeavesATrace | mobile_app/app/src/main/java/com/aegis/mobile/capture/ScreenshotCacheManager.kt:48-57 | With two accounts it can fail: after one offline capture of an account and 200 of others, whatever drain cycles follow, the server never gets that frame. |
| Outage.OutagesExist | mobile_app/app/src/main/java/com/aegis/mobile/capture/ScreenshotCacheManager.kt:35-57 | There are outages of any length on a phone with one account to which these theorems apply. |
| Outage.TracesExist | mobile_app/app/src/main/java/com/aegis/mobile/capture/ScreenshotCacheManager.kt:48-57 | There are such a run and such a server for any two accounts at any time. |
| CacheRuns.GoodDrain | mobile_app/app/src/main/java/com/aegis/mobile/capture/ScreenCaptureService.kt:247-266 | A cycle in which every upload succeeds removes exactly the oldest five pending files. |
| CacheRuns.BacklogDrains | mobile_app/app/src/main/java/com/aegis/mobile/capture/ScreenCaptureService.kt:247-266 | Forty such cycles empty the backlog of any run whatever. |
| Pipeline.AdviceIsTheFiringDirection | backend/app/services/brain_cv_service.py:208-216 | With band 1 clustered from contour points, the advice is SELL (BUY) exactly when some SELL (BUY) rule fires, and the confidence is 0.85 exactly when it is not HOLD. |
| Pipeline.AdviceInPlainTerms | backend/app/services/brain_cv_service.py:208-216 | The answer "SELL", "BUY" or "HOLD", with its confidence, by the inequalities of the rules. |
| Pipeline.NoAdviceYet | backend/app/services/signal_rule_engine.py:155-156 | With fewer than two frames the answer is to hold, for insufficient history. |
| JobQueue.SubmitFifo | backend/app/services/job_queue_service.py:77-91 | Submitting keeps "popped, then queue from tail to head, equals submitted" for every account. |
| JobQueue.PopFifo | backend/app/services/job_queue_service.py:123-129 | Popping keeps it too. |
| JobQueue.SubmitGoesLast | backend/app/services/job_queue_service.py:77-91 | A submission waits behind all others of its account under a new id, and no other account is touched. |
| JobQueue.RepliesInPlainTerms | backend/app/services/job_queue_service.py:93-134 | A pushed reply reports success exactly for a dispatched job that returned, with its result, and otherwise the error text; taking a reply takes the first; no other job is touched. |
| JobQueue.PopTakesFirst | backend/app/services/job_queue_service.py:123-129 | A pop returns nothing exactly when no job waits, and otherwise the first waiting job, which it alone removes. |
| JobQueue.ServeAnswersInOrder | backend/app/worker/mt5_worker.py:93-110 | A ready worker handles the waiting jobs one by one in submission order, up to the first STOP, and answers each. |
| JobQueue.ServeTakesUpToStop | backend/app/worker/mt5_worker.py:93-110 | It takes exactly those jobs and the STOP out of the queue and leaves everything behind it in place. |
| JobQueue.BeforeStop | backend/app/worker/mt5_worker.py:106-108 | The index of the first STOP, if any. |
| JobQueue.ServedExactly | backend/app/worker/mt5_worker.py:93-110 | A worker answers a waiting job if and only if no STOP waits at or before its place. |
| JobQueue.LateJobsMakeNoDifference | backend/app/worker/mt5_worker.py:93-110 | However the submissions of others interleave with the loop, the worker ends as if every job that arrived before its end had been waiting from the start. |
| JobQueue.StopGoesFirst | backend/app/worker/mt5_worker.py:106-108 | A STOP alone in the queue ends the worker before a job submitted after it, which stays behind unanswered. |
| JobQueue.JobQueueService.SubmitJob | backend/app/services/job_queue_service.py:77-91 | The new queue state, with a fresh id. |
| JobQueue.JobQueueService.AwaitResult | backend/app/services/job_queue_service.py:93-107 | Returns the leftmost reply, or else the one that is pushed before the timeout, and takes it away; returns nothing exactly when there is neither. |
| JobQueue.JobQueueService.PopJob | backend/app/services/job_queue_service.py:123-129 | Returns the job at the right end and removes it, or nothing. |
| JobQueue.JobQueueService.StashWorkerCredentials | backend/app/services/job_queue_service.py:141-143 | Stores the credentials and nothing else. |
| JobQueue.JobQueueService.FetchWorkerCredentials | backend/app/services/job_queue_service.py:145-151 | Returns the credentials once; afterwards they are gone. |
| JobQueue.JobQueueService.HandleJob | backend/app/worker/mt5_worker.py:118-155 | Every exit pushes exactly one reply under the id of the job: success with the result exactly when the type is one of the ten dispatched ones and the call returned; else the error message, or the unknown type. |
| JobQueue.Mt5Worker.RunWorker | backend/app/worker/mt5_worker.py:72-115 | Consumes the credentials; then, if connected, the loop leaves the broker exactly as the specification of a worker among other submitters says, and otherwise touches no job. |
| WorkerSystem.PoolRun | backend/app/services/worker_pool_manager.py:97-163 | In every state reachable by any interleaving of API calls, worker steps, crashes and key expiries: the pool invariant (limit, registry, one accounted-for process per account). |
| WorkerSystem.PoolStep | backend/app/services/worker_pool_manager.py:97-163 | Each single step keeps it. |
| WorkerSystem.OneProcessPerAccount | backend/app/services/worker_pool_manager.py:97-132 | No account ever has two live processes. |
| WorkerSystem.PoolWithinLimit | backend/app/services/worker_pool_manager.py:114-130 | Tracked workers never exceed the limit, and the registry equals the tracked accounts whenever no call holds the lock. |
| WorkerSystem.RefusedExactly | backend/app/services/worker_pool_manager.py:103-119 | `ensure_worker` refuses exactly an account without a tracked worker, dead or alive, while the pool is full; so a dead worker is always respawned. |
| WorkerSystem.DeadWorkersFillThePool | backend/app/services/worker_pool_manager.py:109-119 | Exited workers keep their place: a pool of one whose only worker has exited refuses every other account. |
| WorkerSystem.EnsureHasEffect | backend/app/services/worker_pool_manager.py:97-132 | With room in the pool, a call of `ensure_worker` ends with a tracked and registered new process whose credentials wait for it. |
| WorkerSystem.LoginHasEffect | backend/app/worker/mt5_worker.py:72-91 | A starting process consumes its credentials and is ready under them if it connects, and exits if it does not. |
| WorkerSystem.StopHasEffect | backend/app/services/worker_pool_manager.py:134-163 | A call of `stop_worker` ends with the account untracked and unregistered, its process dead and a STOP behind the waiting jobs. |
| WorkerSystem.RegistryTellsTracked | backend/app/services/worker_pool_manager.py:169-176 | In every reachable state in which no call holds the lock, `is_running` answers whether the account is tracked; so it is right about every running worker and wrong exactly about a tracked worker that has exited. |
| WorkerSystem.ExitedWorkerIsReported | backend/app/services/worker_pool_manager.py:169-176 | A reachable state in which it is wrong: a crashed worker is still reported as running. |
| WorkerSystem.CredStep | backend/app/services/job_queue_service.py:141-151 | Each single step keeps the credential invariant, given the pool invariant. |
| WorkerSystem.WorkersUseTheirOwnCredentials | backend/app/services/job_queue_service.py:141-151 | In every reachable state, with reading, deleting and connecting as separate steps, a connected worker uses the credentials of the call that spawned it. |
| WorkerResults.JobsStep | backend/app/worker/mt5_worker.py:93-110 | Each step keeps: ids are unique, queues are first-in first-out, started jobs were popped, handled jobs were started once, and a job in hand is in one worker's hands and unanswered. |
| WorkerResults.JobsAreTakenInOrder | backend/app/services/job_queue_service.py:77-129 | In every reachable state, the jobs popped for an account followed by its queue from tail to head are its submitted jobs, in order. |
| WorkerResults.NoJobRunsTwice | backend/app/worker/mt5_worker.py:93-110 | In every reachable state no two started jobs have the same id. |
| WorkerResults.RepliesStep | backend/app/services/job_queue_service.py:93-134 | Each step keeps: at most one reply waits for an id, it answers that id's handled job, and none waits or comes again for an id already answered. |
| WorkerResults.RepliesMatchJobs | backend/app/services/job_queue_service.py:109-117 | Under every interleaving, a caller that receives a reply for an id receives the one reply made by the one handling of the job submitted under that id, which reports what happened to it, and no other caller receives it. |
| WorkerResults.TakeHasEffect | backend/app/worker/mt5_worker.py:95-110 | A ready worker that looks takes the first waiting job in hand. |
| WorkerResults.StopEndsWorker | backend/app/worker/mt5_worker.py:106-108 | A worker that takes STOP exits. |
| WorkerResults.HandleHasEffect | backend/app/worker/mt5_worker.py:118-155 | A busy worker pushes a reply that reports what happened to its job, and is ready again. |
| WorkerResults.AwaitHasEffect | backend/app/services/job_queue_service.py:93-107 | A caller that waits takes a reply that is there. |
| WorkerResults.JobIsAnswered | backend/app/services/job_queue_service.py:109-117 | With a ready worker and nothing waiting, in any reachable state, a submitted job is taken, handled and answered, and its caller gets the reply to it. |
| WorkerPool.EnsuredIsSteps | backend/app/services/worker_pool_manager.py:97-132 | A call of `ensure_worker` run through is its four steps of the interleaved system. |
| WorkerPool.EnsuredRuns | backend/app/services/worker_pool_manager.py:97-132 | Afterwards a worker runs exactly when one ran before or the other tracked workers left room. |
| WorkerPool.StoppedIsSteps | backend/app/services/worker_pool_manager.py:134-163 | A call of `stop_worker` run through is its four steps. |
| WorkerPool.CallsKeepPool | backend/app/services/worker_pool_manager.py:97-163 | So both calls keep the pool invariant. |
| WorkerPool.StaleStopEndsNextWorker | backend/app/services/worker_pool_manager.py:139-151 | Stopping an account whose worker is gone leaves a STOP behind; the next worker spawned takes it first, and a job submitted after the spawn stays unanswered. |
| WorkerPool.WorkerPoolManager.EnsureWorker | backend/app/services/worker_pool_manager.py:97-132 | The new state, and True exactly when a worker runs on return. |
| WorkerPool.WorkerPoolManager.StopWorker | backend/app/services/worker_pool_manager.py:134-163 | The new state: forgotten, unregistered, STOP queued, process dead. |
| WorkerPool.WorkerPoolManager.StopAll | backend/app/services/worker_pool_manager.py:165-167 | Afterwards nothing is tracked or registered and no process is live. |
| WorkerPool.WorkerPoolManager.IsRegistered | backend/app/services/worker_pool_manager.py:169-176 | `is_running` answers yes for every running worker, and a yes is wrong exactly for a tracked worker that has exited. |
| Subscriptions.SimulationStep | backend/app/services/subscription_service.py:133-149 | Swept and unswept tables stay related step by step: equal rows, or "past due and lapsed" against "suspended". |
| Subscriptions.SweepsAreUnobservable | backend/app/core/startup.py:56-63 | For every run with a clock that never goes back, removing all sweeps changes no later `is_active` and no later `allows_live_trading`. |
| Subscriptions.SimulatedQueries | backend/app/services/subscription_service.py:207-276 | Related tables answer both queries alike at every later time, and `get_plan` alike exactly when the row was not swept or its plan is literally "none". |
| Subscriptions.SweepChangesPlanExactly | backend/app/services/subscription_service.py:252-265 | `get_plan` is not protected: a sweep changes it for exactly the lapsed accounts (whose stored plan is not literally "none"). |
| Subscriptions.SweepDisconnectsLapsed | backend/app/core/startup.py:57-63 | After a sweep no account is lapsed, exactly the lapsed accounts lost their worker, and every other row is untouched. |
| Subscriptions.FailureStopsOnlyUnknownAccounts | backend/app/api/subscription_router.py:113-119 | A new PAYMENT_FAILED event disconnects a worker exactly when the account has no subscription row: with a row, the fresh grace period has just made it active. |
| Subscriptions.GracePeriodExactly | backend/app/services/subscription_service.py:133-139 | After a failed payment an account is active for exactly five days; at that very instant it is neither active nor lapsed; then it is lapsed. |
| Subscriptions.ActiveExactly | backend/app/services/subscription_service.py:207-222 | Who may use the platform: active accounts, and past-due ones before the end of their grace period. |
| Subscriptions.PlanExactly | backend/app/services/subscription_service.py:252-265 | Which plan is reported: none for unknown, suspended and canceled accounts, and else the stored one. |
| Subscriptions.LiveTradingExactly | backend/app/services/subscription_service.py:270-276 | Live trading is allowed if and only if the account is active and its stored plan is neither "none" nor a demo plan. |
| Subscriptions.OnlyDemoIsWithheld | backend/app/services/plan_catalog.py:51-55 | A plan withholds live trading if and only if its code is the word demo, in any case and with any white space around it. |
| Subscriptions.PaymentWrites | backend/app/services/subscription_service.py:78-131 | What a successful payment writes, column by column: a new account starts on the starter plan, an existing one keeps its plan, limits and token; credentials are issued for a new one only. |
| Subscriptions.FailureWrites | backend/app/services/subscription_service.py:133-142 | A failed payment makes a known account past due with five days of grace and changes nothing else. |
| Subscriptions.CancellationWrites | backend/app/services/subscription_service.py:144-149 | A cancellation changes the status of a known account and nothing else. |
| Subscriptions.OtherEventsWriteNothing | backend/app/services/subscription_service.py:70-72 | Events of other kinds change no row; one without an account is not even recorded. |
| Subscriptions.SignupWrites | backend/app/services/subscription_service.py:278-323 | What a demo sign-up writes; the account is active from then on, reported on the demo plan and kept from live trading. |
| Subscriptions.CancellationEnds | backend/app/api/subscription_router.py:102-119 | A new cancellation of a known account disconnects its worker and no other, and over every later run without a payment, a failed payment or a sign-up of that account it is neither active nor allowed to trade. |
| Subscriptions.AdminCancelEnds | backend/app/api/subscription_router.py:246-250 | So does a cancellation by an administrator. |
| Subscriptions.OthersKeepTheirWorkers | backend/app/api/subscription_router.py:113-119 | Payments and unknown events disconnect nobody. |
| Subscriptions.RepeatsChangeNothing | backend/app/api/subscription_router.py:98-102 | Every log of operations ends in the same state as the log without repeated deliveries and without account-less events. |
| Subscriptions.ProcessedExactly | backend/app/services/subscription_service.py:47-55 | Over every run, `already_processed` holds exactly for the keys recorded before and those of delivered events with an account; an event without one is never remembered. |
| Subscriptions.DeduplicatedKeysAreNew | backend/app/services/subscription_service.py:47-55 | In that reduced log every (provider, event id) is new and occurs once. |
| Subscriptions.CredentialsIssuedOnce | backend/app/services/subscription_service.py:112-131 | Over every run, events issue credentials at most once per account. |
| Subscriptions.EverySignupIssuesAKey | backend/app/services/subscription_service.py:312-317 | Demo sign-ups are not limited in this way: over every run each one issues another mobile key. |
| Subscriptions.TokenAndDemoAreKept | backend/app/services/subscription_service.py:79-108 | Over every run, a portal token that is set never changes, and a demo plan stays a demo plan. |
| Subscriptions.PaymentAllowsLiveExactly | backend/app/services/subscription_service.py:85-108 | A successful payment allows live trading at any later time, barring other events, if and only if the account is new or its stored plan trades live. |
| Subscriptions.DemoNeverTradesLive | backend/app/services/subscription_service.py:270-276 | After a demo sign-up, no later run of events, payments included, ever allows live trading. |
| SubscriptionServices.SubscriptionService.Apply | backend/app/services/subscription_service.py:61-158 | The new tables, and new credentials exactly when the account got its first row. |
| SubscriptionServices.SubscriptionService.Mark | backend/app/services/subscription_service.py:236-250 | `mark_suspended` and `mark_canceled`: one status, of an existing row only. |
| SubscriptionServices.SubscriptionService.SignUpForDemo | backend/app/services/subscription_service.py:278-323 | The new tables, returning the token that is now stored and the key issued for this sign-up. |
| SubscriptionServices.SubscriptionService.CheckActive | backend/app/services/subscription_service.py:207-222 | True exactly for active accounts and for past-due ones inside the grace period. |
| SubscriptionServices.SubscriptionService.GetLapsedAccounts | backend/app/services/subscription_service.py:224-234 | Exactly the accounts past due whose grace period has ended. |
| SubscriptionServices.SubscriptionControl.HandleWebhook | backend/app/api/subscription_router.py:98-121 | The new state of tables and workers, the reply, and staged credentials exactly for a first activation. |
| SubscriptionServices.SubscriptionControl.SweepOnce | backend/app/core/startup.py:56-63 | The account-by-account loop ends in the state of one whole sweep. |
| RateLimit.LimitIs | backend/app/core/account_rate_limit.py:25-27 | How many requests a setting allows: 120 for 0, any number for a negative one, and else itself. |
| RateLimit.NeverAboveLimit | backend/app/core/account_rate_limit.py:60-68 | No stretch of 60 seconds, wherever it starts, contains more accepted requests than the limit. |
| RateLimit.AcceptedExactly | backend/app/core/account_rate_limit.py:60-68 | With a clock that never goes back, a request is accepted exactly when the request `limit` places before it is more than 60 seconds old; rejected requests count. |
| RateLimit.DequeStep | backend/app/core/account_rate_limit.py:60-68 | Pruning and appending keeps the deque equal to the last 60 seconds of the full request log. |
| RateLimit.KeyStep | backend/app/core/account_rate_limit.py:40-48 | One Redis round keeps the sorted set equal to the log's distinct timestamps of less than 60 seconds ago, whether or not the key had expired. |
| RateLimit.CountsAgreeExactly | backend/app/core/account_rate_limit.py:40-68 | Redis never counts more than the deque, and as much if and only if the window holds no repeated timestamp and no request exactly 60 seconds old. |
| RateLimit.VerdictsAgreeExactly | backend/app/core/account_rate_limit.py:40-68 | The two paths give the same verdict at every limit if and only if that holds. |
| RateLimit.StoresAgreeOnRun | backend/app/core/account_rate_limit.py:40-68 | On a run with strictly increasing timestamps and no two exactly 60 seconds apart, every verdict agrees. |
| RateLimit.AccountRateLimiter.Prune | backend/app/core/account_rate_limit.py:61-62 | The pruning loop leaves exactly the timestamps of the last 60 seconds. |
| RateLimit.AccountRateLimiter.EnforceLocal | backend/app/core/account_rate_limit.py:60-68 | Accepts exactly when the full log of the last 60 seconds, this request included, is within the limit. |
| RateLimit.AccountRateLimiter.EnforceRedis | backend/app/core/account_rate_limit.py:40-54 | Accepts exactly when the distinct timestamps less than 60 seconds old are within the limit; the 65-second key expiry never matters. |
| FileNames.LongRoundTrip | mobile_app/app/src/main/java/com/aegis/mobile/capture/ScreenshotCacheManager.kt:73 | Every 64-bit number reads back from its decimal text, which contains no underscore. |
| FileNames.NumeralExactly | mobile_app/app/src/main/java/com/aegis/mobile/capture/ScreenshotCacheManager.kt:73 | A text reads as a number if and only if it is digits, or a sign and digits, for it. |
| FileNames.StemExactly | mobile_app/app/src/main/java/com/aegis/mobile/capture/ScreenshotCacheManager.kt:70 | The name without extension is what stands before the last dot, or all of it. |
| FileNames.ParseExactly | mobile_app/app/src/main/java/com/aegis/mobile/capture/ScreenshotCacheManager.kt:69-75 | A name stands for a time and an account if and only if its stem is a numeral without underscore, an underscore and the account; every other file is malformed. |
| FileNames.ParseFileFor | mobile_app/app/src/main/java/com/aegis/mobile/capture/ScreenshotCacheManager.kt:31-75 | `parse(fileFor(ts, account)) == (ts, account)` for every timestamp if and only if the account id has no slash; underscores and dots do no harm. |
| FileNames.NameOrderExactly | mobile_app/app/src/main/java/com/aegis/mobile/capture/ScreenshotCacheManager.kt:31-33 | For any two 64-bit times, negative ones included, an earlier file sorts before a later one if and only if: from zero on, its number is below the equally long leading part of the later number; below zero, the reverse; across zero, always. |
| FileNames.MillisecondNamesSortByTime | mobile_app/app/src/main/java/com/aegis/mobile/capture/ScreenshotCacheManager.kt:31-33 | Thirteen-digit millisecond timestamps sort by time, whatever the accounts. |
| FileNames.ThirteenthDigitSortsFirst | mobile_app/app/src/main/java/com/aegis/mobile/capture/ScreenshotCacheManager.kt:31-33 | A failing pair: the first thirteen-digit timestamp sorts before the last twelve-digit one. |
| OfflineCache.Conservation | mobile_app/app/src/main/java/com/aegis/mobile/capture/ScreenshotCacheManager.kt:35-66 | Over every run, with no assumption at all, each captured file is, with multiplicity, in exactly one place: pending, delivered, evicted, overwritten by its own name, dropped as malformed, or refused by the file system. |
| OfflineCache.RoomIsMadeExactly | mobile_app/app/src/main/java/com/aegis/mobile/capture/ScreenshotCacheManager.kt:48-57 | Making room removes exactly the oldest files beyond 199, and nothing below 200 pending. |
| OfflineCache.CacheWritesExactly | mobile_app/app/src/main/java/com/aegis/mobile/capture/ScreenshotCacheManager.kt:35-46 | A call of `cache` then writes the one file, unless the account id has a slash, when nothing is written. |
| OfflineCache.BatchIsOldest | mobile_app/app/src/main/java/com/aegis/mobile/capture/ScreenCaptureService.kt:251 | A cycle takes the five oldest pending files, or all. |
| OfflineCache.SendSkips | mobile_app/app/src/main/java/com/aegis/mobile/capture/ScreenCaptureService.kt:252-256 | A malformed name is dropped and the cycle goes on. |
| OfflineCache.SendFails | mobile_app/app/src/main/java/com/aegis/mobile/capture/ScreenCaptureService.kt:258-264 | A failed upload leaves the file in place and ends the cycle. |
| OfflineCache.CacheIsBounded | mobile_app/app/src/main/java/com/aegis/mobile/capture/ScreenshotCacheManager.kt:35-57 | After a call of `cache` at most 200 files are pending, whatever the directory held before. |
| OfflineCache.NeverMoreThanCap | mobile_app/app/src/main/java/com/aegis/mobile/capture/ScreenshotCacheManager.kt:35-57 | So over every run from such a state. |
| OfflineCache.SendIsPrefix | mobile_app/app/src/main/java/com/aegis/mobile/capture/ScreenCaptureService.kt:247-266 | A drain cycle delivers the longest prefix of its batch that the backend accepts and attempts at most one file more: nothing is attempted after a failure. |
| OfflineCache.DeliverAllFiles | mobile_app/app/src/main/java/com/aegis/mobile/capture/ScreenCaptureService.kt:258-260 | Exactly the delivered files leave the directory. |
| OfflineCache.DeliverAllLogs | mobile_app/app/src/main/java/com/aegis/mobile/capture/ScreenCaptureService.kt:251-260 | Attempts and deliveries happen in the order of the batch, with the stored images. |
| OfflineCache.ReplayInOrder | mobile_app/app/src/main/java/com/aegis/mobile/capture/ScreenCaptureService.kt:240-266 | With increasing names, over every run: nothing is overwritten, malformed or refused, the backend receives the backlog in capture order, and what is pending is newer than everything delivered or evicted. |
| CacheServices.ScreenshotCacheManager.ListPendingOldestFirst | mobile_app/app/src/main/java/com/aegis/mobile/capture/ScreenshotCacheManager.kt:59-60 | The .jpg names of the directory in name order. |
| CacheServices.ScreenshotCacheManager.EnforceCapBeforeInsert | mobile_app/app/src/main/java/com/aegis/mobile/capture/ScreenshotCacheManager.kt:48-57 | The deletion loop ends in the state of the cap. |
| CacheServices.ScreenshotCacheManager.Cache | mobile_app/app/src/main/java/com/aegis/mobile/capture/ScreenshotCacheManager.kt:35-46 | The new directory and ledger. |
| CacheServices.ScreenCaptureService.TrySend | mobile_app/app/src/main/java/com/aegis/mobile/capture/ScreenCaptureService.kt:378-387 | One try and at most one retry: no try follows a success, and the answer is no exactly when both fail. |
| CacheServices.ScreenCaptureService.CaptureAndSend | mobile_app/app/src/main/java/com/aegis/mobile/capture/ScreenCaptureService.kt:335-344 | A capture changes the cache exactly when both tries fail; it is then the newest capture of the ledger and the backlog is within its bound. |
| CacheServices.ScreenCaptureService.ReplayOldest | mobile_app/app/src/main/java/com/aegis/mobile/capture/ScreenCaptureService.kt:252-264 | The oldest file of a batch is dropped, left in place or removed, and an upload carries the time and account in its name and its image. |
| CacheServices.ScreenCaptureService.DrainCache | mobile_app/app/src/main/java/com/aegis/mobile/capture/ScreenCaptureService.kt:247-266 | The drain loop ends in the state of one cycle, and its uploads carry the capture time, account and image of exactly the files that were newly delivered, in order. |
| Totp.TruncateIsStandard | backend/app/services/auth_service.py:53-54 | The offset stays in bounds and the value is the 31-bit big-endian number of section 5.3 of RFC 4226 modulo a million. |
| Totp.CodeIsSixDigits | backend/app/services/auth_service.py:45-55 | For every keyed hash, a code is six digits that read back as the truncated value. |
| Totp.PackRoundTrip | backend/app/services/auth_service.py:50-51 | The eight message bytes determine the counter (section 5.2 of RFC 4226). |
| Totp.VerifyTotp | backend/app/services/auth_service.py:58-63 | Accepts if and only if the stripped code is the code of one of the time steps floor(now / 30) - window up to floor(now / 30) + window (sections 4.2 and 5.2 of RFC 6238). |
| Strings.StripSplits | backend/app/services/auth_service.py:61 | Stripping takes white space, and all of it, off both ends. |
| Strings.StripOf | backend/app/services/auth_service.py:61 | What is bare between white space is what is left. |
| Totp.ClockDrift | backend/app/services/auth_service.py:58-63 | A code issued up to `window` whole steps before or after now is one that is accepted, and the step of a code issued a further step away is not among those compared. |

## Left out

- Image decoding, cropping, colour masks and contour extraction: library calls; the model starts from contour points.
- SignalRules.FirstFiredIsFirst: like all theorems about the engine but one, it needs the readings that `Evaluable` names in the last two frames; what happens without them is `TryEvaluateExactly`. The HTTP error that the exception becomes is not modelled. `price_close`, #5 and the #7/#8 bands stay optional everywhere.
- `higher_high`, `lower_low` and `higher_high_lookback`: no rule uses them.
- The wording of reason texts: a result carries the four conditions that the text prints.
- Floating-point rounding in means, coordinates and timestamps, and NaN: coordinates are reals.
- Expiry of an idle history after ten minutes, and failures of Redis, the database or process creation.
- IndicatorHistory.IndicatorHistoryService.AppendFrame: the random nonce is part of the given member text, so a screenshot uploaded twice because a success reply was lost is two members here as in the source (what that does to signals is `RepeatedFrameIsSilent`); times are whole milliseconds.
- Several API instances: `ensure_worker` looks at local memory only, so one worker per account is not promised across instances.
- WorkerPool.WorkerPoolManager.EnsureWorker: the object runs each call without interruption; the interleavings are covered by `WorkerSystem`, to which `EnsuredIsSteps` ties it.
- WorkerPool.WorkerPoolManager.StopWorker: the worker takes no step between STOP and kill in the object; `WorkerSystem` covers those steps.
- JobQueue.Mt5Worker.RunWorker: what others submit during the run is given, and the idle timeout is an empty queue when the worker looks; crashes and early exits are steps of `WorkerSystem`.
- JobQueue.JobQueueService.AwaitResult: whether a worker pushes the reply before the timeout is given. Reply expiry is a step of `WorkerSystem`, where a reply may be taken at any moment or never.
- Validation of job payloads and the trading calls themselves: an outcome is a result text or an error text.
- Steps inside one sweep: `mark_suspended` has no status guard, so a renewal that arrives between the lookup and the update would be overwritten; a sweep is one step here.
- Two deliveries of one event checked at the same moment: a webhook is one step here.
- The admin endpoint that writes plans and statuses directly, `updated_at`, `allows_brain` (a literal test of the plan), and the one-time reveal service.
- Subscriptions.SweepsAreUnobservable: about `is_active` and `allows_live_trading`; `get_plan` differs exactly as `SweepChangesPlanExactly` says.
- RateLimit.AccountRateLimiter.EnforceRedis: a failing Redis call, after which the source falls back to the deque, is left out; timestamps are not negative.
- Concurrent changes to the cache directory while a drain cycle waits for the network, and partly written files.
- CacheServices.ScreenCaptureService.DrainCache: an answer is the result of one upload with its retry, which `TrySend` models; the pause between the two tries is left out.
- BandClustering.LinesAreRecovered: about counts equal to the near-equal thirds, where lines may touch; `LinesRecoveredExactly` is about any counts, for lines that do not touch.
- Outage.TraceExactly: no two captures have the same name (two captures of an account within a millisecond overwrite each other, which `Conservation` counts) and account ids have no slash. `DrainedOutage` also needs capture times between September 2001 and November 2286.
- Digits and white space outside ASCII in file names and codes, and the order of characters outside the Basic Multilingual Plane in names.
- Totp.VerifyTotp: base32 decoding and HMAC-SHA-1 are the given key and hash; a negative or more than 64-bit counter, on which packing fails, is excluded.
- Upload statistics, plan prices, device seats, trade counters, alerts, metrics, retention, encryption, payment-provider calls and user interfaces: they would add only easy members.
