# Verified models of the site panel's back end

Dafny models of the parts of this repository that carry state, loops or arithmetic, with
proofs of what each promises over every input, every run or every interleaving. Check the
whole project with `dafny verify dfyconfig.toml`.

| file | models |
|---|---|
| `AuditChain.dfy` | the hash-chained audit log and its checker |
| `RateLimit.dfy`, `RedisWindow.dfy` | the sliding-window and the fixed-window rate limiter |
| `AiSpend.dfy` | the AI spend guard: reservations under an advisory lock, settled by the two worker tasks or by the requests that made them |
| `SchedulerJobs.dfy`, `SchedulerDispatch.dfy`, `Scheduler.dfy`, `SchedulerHistory.dfy`, `SchedulerFairness.dfy` | the durable scheduler: one job, one dispatch, the whole protocol, what the history of a job says, fairness between projects |
| `BukvarixFetch.dfy`, `BukvarixQueue.dfy` | the keyword fetch loop and the run's state machine |
| `LogSupervisor.dfy` | the rotating log of the process supervisor |
| `SiteStructure.dfy` | the check that proposed pages form a forest |
| `SiteBackfill.dfy` | the backfill of projects for legacy sites |
| `EnvFile.dfy` | the dotenv reader, the in-place merge, and the production preparation |
| `Dedup.dfy` | SimHash, Hamming distance, MinHash |
| `Evidence.dfy` | bounded evidence texts and the two projections of them |
| `Text.dfy`, `Sets.dfy`, `Wrappers.dfy` | whitespace, hexadecimal, finite sets, `Option` |

Code that updates rows, files, queues or arrays in place is a class or a method with loops,
proved equal to a function of the old state; the results are then lemmas about that function.
Protocols with several parties are state machines over traces of atomic steps: an action that
is not possible when its turn comes changes nothing, so a lemma over all traces covers every
interleaving, duplicate delivery, crash and delay.

## What the models found

- **Spend guard.** The estimates reserved within a full day, or full thirty days, stay within the
  limit on all traces exactly when four conditions are met (`LimitsHoldIff`); without any one of
  them there is an overspending trace:
  - the advisory lock is taken, which is so on PostgreSQL only
    (`apps/api/app/services/ai_budget.py:71-75`, `WithoutLockOverspends`);
  - nothing passes between a row's stamp and its check. `created_at` is the start of the
    transaction (`apps/api/app/models/ai_provider.py:63`), but the sums are read later, possibly
    after waiting for the lock (`DelayOverspends`);
  - nobody records less than was reserved. The two worker tasks never do, but the geo endpoint
    and the three content endpoints close a run at the unfloored price, or delete the
    reservation and insert a row with that price (`apps/api/app/api/v1/geo.py:310-351`,
    `apps/api/app/api/v1/ai_content.py:447-517` and twice more there; `LoweredCostOverspends`);
  - no request takes more than a day from its reservation to its settlement, because the
    replacing row carries a new stamp (`HeldReservationOverspends`).

  Without the second and third condition these bounds remain: windows shorter by the delay stay
  within the limit as far as spend is covered by estimates (`BudgetHolds`), recorded spend
  exceeds it by no more than what was recorded beyond the estimates (`SpendBoundedByExcess`), and
  estimates by no more than what was recorded below them (`EstimatesBoundedByShortfall`).
- **Keyword runs.** The re-read before the result is written takes no row lock. A run of the
  protocol is sound exactly when no commit lands on a row gone terminal since its re-read
  (`SafeIffTimely`). What keeps this from happening is the queue's timeout of 600 seconds
  (`apps/api/app/worker.py:625`): as long as it ends every task in time, every interleaving is
  safe (`TimeoutMakesRereadSafe`). If a process stalls past it, or clocks differ, rows of two
  workers can be stored for one run (`StalledWorkerWritesTwice`), and a run failed as
  `worker_timeout` can still be completed (`StalledWorkerRevives`). A cancelled run stays as it
  is even then, since the scheduler cancels only runs it has not started (`CancelledForever`).
  With the finish in one piece every interleaving is safe (`AtomicFinishIsSafe`).
- **Dotenv merge.** The reader accepts indented assignments, the merge rewrites only those at
  column one, so an updated key need not parse back to its new value
  (`IndentedLineShadowsMerge`); `ParsesBackIff` says exactly when it does.
- **Audit log.** Row ids are not part of the digest, so renumbering goes unnoticed
  (`RenumberingIsInvisible`).
- **Fixed-window counter.** Within one closed window a key gets up to `2 * max_hits` requests
  through if a counter is gone at the instant it expires, and up to `2 * max_hits - 1` if it
  still counts at that instant. Both are proved as bounds (`AtMostPerInterval`) and reached
  (`TwiceIsReached`, `OneLessIsReached`).
- **Evidence texts.** Bounding a text once does not settle it, because cutting can leave a
  trailing space (`TextNotSettledInOne`); `ProjectionSettledIff` gives the exact condition.
- **Scheduler, outcomes.** Completion, claiming and recovery are three separate pieces of code,
  but they judge a job by one rule: a requested cancellation first, then what is known of the
  source (`OutcomeWarranted`).
- **Scheduler fairness.** Dispatch numbers its turns from the projects due at that moment only,
  so turn numbers are not unique; fairness holds nevertheless (`BoundedWaiting`).

## Model

| member | source | states |
|---|---|---|
| AuditChain.VerifyAuditChain | apps/api/app/services/audit.py:65-79 | the loop reports exactly the ids of the rows whose stored predecessor or digest does not fit, in order |
| AuditChain.ReportedIffNotSealed | apps/api/app/services/audit.py:65-79 | in a log with distinct ids, damaged as it may be, a row is reported iff it does not name its predecessor's hash or does not carry the digest of its own columns and that hash |
| AuditChain.OnlyRowsAreReported | apps/api/app/services/audit.py:65-79 | every reported id is that of a row |
| AuditChain.AuditTable.AppendAudit | apps/api/app/services/audit.py:33-62 | one row is added: the next id, the action, tenant and actor given, the payload or an empty object, the head's hash (or the zero hash) as predecessor, and the digest of exactly these; the checker's report stays the same, whatever it was |
| AuditChain.AppendedRowIsIntact | apps/api/app/services/audit.py:41-59 | an appended row is never reported, even behind damaged rows |
| AuditChain.AppendsKeepVerdict | apps/api/app/services/audit.py:33-62 | any run of appends extends the log and leaves the report as it was; from the empty log it is empty |
| AuditChain.OnlyBrokenRow | apps/api/app/services/audit.py:65-79 | if one row alone does not fit, the report is that row's id and nothing else |
| AuditChain.CleanIffIntact | apps/api/app/services/audit.py:65-79 | the report is empty if and only if every row fits its predecessor and its own content |
| AuditChain.CleanPrefix | apps/api/app/services/audit.py:65-79 | every prefix of a clean log is clean |
| AuditChain.ForgeryYieldsCollision | apps/api/app/services/audit.py:15-30 | two clean logs with the same head hash hold the same contents, length included, or they exhibit two inputs with one digest (or a digest equal to the zero hash) |
| AuditChain.ContentsDetermineHashes | apps/api/app/services/audit.py:15-30 | clean logs with the same contents agree on every stored hash |
| AuditChain.EqualHashIffEqualHistory | apps/api/app/services/audit.py:15-30 | without collisions, two rows of clean logs carry the same hash if and only if their whole histories are equal; then they stand at the same position |
| AuditChain.RecordHashesDistinct | apps/api/app/services/audit.py:15-30 | without collisions, all record hashes of a clean log are distinct and none is the zero hash |
| AuditChain.ChangeForcesNewTail | apps/api/app/services/audit.py:41-59 | clean logs that differ at row `i` share no record hash from `i` on, so a change is hidden only by resealing the whole tail |
| AuditChain.EditedContentReportsThatRow | apps/api/app/services/audit.py:65-79 | editing a row's content but not its hashes reports that row only |
| AuditChain.EditsReported | apps/api/app/services/audit.py:65-79 | after any set of edits that keep the hashes, the report is exactly the ids of the rows that say something else, in order |
| AuditChain.ResealedRowReportsSuccessor | apps/api/app/services/audit.py:65-79 | resealing an edited row reports its successor only, or nothing if it was the last |
| AuditChain.DeletedBlockReportsSurvivor | apps/api/app/services/audit.py:65-79 | deleting any block reports the first survivor after it only, or nothing if it was the tail |
| AuditChain.RenumberingIsInvisible | apps/api/app/services/audit.py:15-30 | changing ids alone keeps a log clean |
| SlidingWindow.SlidingWindowLimiter.Check | apps/api/app/core/rate_limit.py:21-28 | a request is accepted iff fewer than `max_hits` acceptances of its key lie in the closed trailing window of the full history; the key's deque becomes exactly those (plus the new one), sorted and never above `max_hits`; other keys' deques stay |
| SlidingWindow.SlidingWindowLimiter.PopExpired | apps/api/app/core/rate_limit.py:23-25 | popping expired hits off the front leaves exactly the acceptances the full history holds in the window |
| SlidingWindow.StepConsistent | apps/api/app/core/rate_limit.py:21-28 | answering one request keeps all deques in agreement with the full history |
| SlidingWindow.LimiterIsFeasible | apps/api/app/core/rate_limit.py:21-28 | every closed interval of length `window` holds at most `max_hits` acceptances of a key |
| SlidingWindow.GreedyIsAhead | apps/api/app/core/rate_limit.py:21-28 | over every history the limiter accepts at least as many requests of a key as any selection meeting the same bound |
| SlidingWindow.JthAcceptanceNotLater | apps/api/app/core/rate_limit.py:21-28 | the limiter's j-th acceptance is never later than the j-th of any such rival |
| SlidingWindow.KeysDoNotInterfere | apps/api/app/core/rate_limit.py:18-28 | two histories with the same requests for a key give that key the same answers, whatever the other keys do |
| RedisWindow.RedisWindowLimiter.Check | apps/api/app/core/rate_limit.py:36-54 | the verdict and the new counter are those the key's last request determines; an unreachable store refuses and changes nothing |
| RedisWindow.LifetimeCounts | apps/api/app/core/rate_limit.py:42-50 | on each counter lifetime exactly the first `max_hits` requests are accepted, rejected ones being counted too |
| RedisWindow.LifetimeLastsAWindow | apps/api/app/core/rate_limit.py:42-46 | a request counts on the lifetime of an earlier one of its key iff that lifetime, one window from its birth, still runs |
| RedisWindow.LifetimesDisjoint | apps/api/app/core/rate_limit.py:42-46 | two lifetimes of a key do not overlap: the later begins at least a window after the earlier |
| RedisWindow.BirthsAscend | apps/api/app/core/rate_limit.py:42-46 | a key's requests count on ever later lifetimes |
| RedisWindow.AtMostPerInterval | apps/api/app/core/rate_limit.py:36-54 | a closed interval of one window holds at most `2 * max_hits` acceptances of a key, and one less if a counter still counts at its instant of expiry |
| RedisWindow.TwiceIsReached | apps/api/app/core/rate_limit.py:36-54 | if a counter is gone at its instant of expiry, some history reaches `2 * max_hits`, for every positive limit and window |
| RedisWindow.OneLessIsReached | apps/api/app/core/rate_limit.py:36-54 | if it still counts at that instant, some history reaches `2 * max_hits - 1` |
| RedisWindow.MostIsReached | apps/api/app/core/rate_limit.py:36-54 | for every limit, positive or not, and either reading the bound is the exact maximum |
| AiSpend.Charge | apps/api/app/worker.py:407-409 | the charge is the larger of the reservation and the price of the usage, hence never below either |
| AiSpend.RefusedBecause | apps/api/app/services/ai_budget.py:17-61 | on every reachable state the check refuses because AI is off, else because the tenant's recorded costs of the last 86400 seconds leave no room, else because those of thirty days do not, and grants otherwise |
| AiSpend.ReservesIffFits | apps/api/app/services/ai_budget.py:64-80 | on every reachable state a request that comes to its check reserves exactly what it asked for iff AI is on and its estimate fits both windows; otherwise it ends and nothing is reserved |
| AiSpend.SettledWithinBounds | apps/api/app/worker.py:406-455 | a run awaits approval iff its proposal was valid and its charge is within the agreed maximum, otherwise it has failed with a code; for every outcome the cost is the larger of the estimate and the price that became known, and the estimate if none did |
| AiSpend.RunRow.ArchitectureProposalTask | apps/api/app/worker.py:356-464 | a run that is not reserved is left untouched without a provider call; a reserved one calls the provider iff scope and connection allow it, and is settled by the reply: at the larger of estimate and price, offered for approval iff valid and within the maximum, and with the code of what went wrong |
| AiSpend.RunRow.IntentPageProposalTask | apps/api/app/worker.py:467-563 | the same for the page task, whose scope violation settles as invalid output |
| AiSpend.RunRow.SettleByRequest | apps/api/app/api/v1/geo.py:310-351 | a request closes its own run as failed or replaces it, at the price of the usage whether that is above or below the estimate; status and code follow from reply, price and endpoint |
| AiSpend.StepKeepsInv | apps/api/app/services/ai_budget.py:17-80 | with the lock taken and no reservation held for over a day, every step of requests, workers, deliveries, crashes and decisions keeps: each row fitted its windows when checked, a checked request still fits, lock holders of one tenant exclude each other, claims are unique |
| AiSpend.WindowFits | apps/api/app/services/ai_budget.py:26-61 | if every row fitted when checked, every window, less the stamp delay, fits |
| AiSpend.BudgetHolds | apps/api/app/services/ai_budget.py:17-80 | in every interleaving, for every tenant and instant, what was both reserved and recorded in the day (and the thirty days) before it, less the stamp delay, stays within the limit |
| AiSpend.AtMostOneProviderCall | apps/api/app/worker.py:359-371 | in every interleaving of duplicate deliveries a run reaches the provider at most once, whatever the configuration |
| AiSpend.PendingWithinAgreedCost | apps/api/app/worker.py:406-425 | in every interleaving a run offered for approval or decided costs at most the agreed maximum, and one settled by a task at least its estimate |
| AiSpend.SettledCostStays | apps/api/app/worker.py:406-455 | in every interleaving a run settled by its task is recorded, from then on, at the larger of its estimate and the price of its reply |
| AiSpend.SpendBoundedByExcess | apps/api/app/services/ai_budget.py:26-61 | recorded spend in a window is at most the limit plus what was recorded beyond the estimates there |
| AiSpend.EstimatesBoundedByShortfall | apps/api/app/services/ai_budget.py:26-61 | reserved estimates in a window are at most the limit plus what was recorded below the estimates there |
| AiSpend.FloorAlways | apps/api/app/worker.py:407-409 | if no reply to a request is priced below its estimate, no recorded cost ever is |
| AiSpend.ReservationsKept | apps/api/app/api/v1/geo.py:331-351 | over every run tenant, owner, estimate and maximum of a reservation stay, even when its row is replaced; a task's reservation keeps its stamp too |
| AiSpend.DelayOverspends | apps/api/app/services/ai_budget.py:13-14 | with any delay between stamp and check some trace exceeds the daily limit within a full day |
| AiSpend.WithoutLockOverspends | apps/api/app/services/ai_budget.py:71-75 | without the advisory lock two requests together exceed the limit |
| AiSpend.LoweredCostOverspends | apps/api/app/api/v1/ai_content.py:447-463 | if replies may be priced below the estimate, a failed request closed at that price reopens the budget, and a full day exceeds the limit |
| AiSpend.HeldReservationOverspends | apps/api/app/api/v1/geo.py:331-351 | if a request may take over a day, its replaced row is stamped into a window that was checked without it |
| AiSpend.LimitsHoldIff | apps/api/app/services/ai_budget.py:17-80 | full-day and thirty-day estimates stay within the limits on all traces if and only if the lock is taken, stamp and check coincide, nothing is recorded below its estimate, and no request outlasts a day |
| SchedulerJobs.RequeuedIffNotStarted | apps/api/app/services/scheduler.py:270-317 | an expired job returns to the queue iff it was leased but not started and its source still waits; its attempt has no start event; it is never left active |
| SchedulerDispatch.PickIsFirst | apps/api/app/services/scheduler.py:401-420 | the job handed out comes first among the due, unlocked jobs of its project: no other has a higher aged priority, among equals none was eligible earlier, among those none has a lower id |
| SchedulerDispatch.AgedPriority | apps/api/app/services/scheduler.py:401-405 | every full hour since a job was first eligible raises its priority by one, up to 100 |
| SchedulerDispatch.AgedJobIsFirstComeFirstServed | apps/api/app/services/scheduler.py:401-404 | a job that has waited out its distance to the cap is passed over only by jobs eligible no later than it |
| SchedulerDispatch.OrderedSorted | apps/api/app/services/scheduler.py:357-400 | projects are served in order of their last turn, and they are exactly the ones with a due job |
| SchedulerDispatch.ServedOk | apps/api/app/services/scheduler.py:406-443 | a dispatch keeps jobs sound, leases distinct, one active job per project, and takes one slot per selected job |
| SchedulerDispatch.DispatchStaysWithin | apps/api/app/services/scheduler.py:323-355 | a dispatch selects at most as many jobs as asked for, and only if jobs active before, running work outside the scheduler and the selected jobs stay within the concurrency limit; each was due, unlocked and of an idle project, and leaves under a new lease for ten minutes; no other job changes |
| SchedulerDispatch.FreeSlotIsUsed | apps/api/app/services/scheduler.py:323-443 | if the concurrency limit leaves room and some unlocked job of an idle project may start, a job is handed out |
| SchedulerDispatch.WorkConserving | apps/api/app/services/scheduler.py:406-443 | a project with a free due job and none in progress gets a job, or the slots are used up |
| SchedulerDispatch.ServedFirstThenBehind | apps/api/app/services/scheduler.py:397-440 | a project served while another waits in vain was not behind it before, and is behind it afterwards |
| Scheduler.SchedulerDb.DispatchDueJobs | apps/api/app/services/scheduler.py:349-443 | the loop over the ordered projects computes the round of the model: same jobs, turns, leases and selection; with work outside the scheduler counted, the concurrency limit of one is kept |
| Scheduler.SchedulerDb.RecoverExpiredLeases | apps/api/app/services/scheduler.py:252-320 | every expired job on an unlocked row is recovered and nothing else changes; the count is their number |
| Scheduler.SchedulerDb.ClaimExecution | apps/api/app/services/scheduler.py:565-588 | the work is started iff the unexpired lease holds a leased job whose source matches and waits; it then runs under that lease for ten more minutes |
| Scheduler.SchedulerDb.CompleteExecution | apps/api/app/services/scheduler.py:591-625 | nothing changes unless the lease holds the job; then it is released: cancelled if that was asked for or reported, succeeded if the work is finished, failed otherwise with the reported code if that is a safe one |
| Scheduler.SchedulerDb.PauseJob | apps/api/app/services/scheduler.py:628-633 | accepted iff the job is queued; only its state and log change |
| Scheduler.SchedulerDb.ResumeJob | apps/api/app/services/scheduler.py:636-644 | accepted iff the job is paused; it is queued and eligible at once |
| Scheduler.SchedulerDb.RetryBuild | apps/api/app/services/scheduler.py:218-236 | accepted iff the build has failed and its job is not active; the source waits again, and a job not already queued is queued with the new priority and time, without lease or failure, its age and attempts kept |
| Scheduler.SchedulerDb.CancelJob | apps/api/app/services/scheduler.py:647-686 | accepted iff the source is open and the job has not begun or is a running crawl; the source is closed, a running crawl keeps its lease until it stops, any other job is released |
| Scheduler.StepKeepsInv | apps/api/app/services/scheduler.py:252-686 | every action, with leases delivered and completed arbitrarily and sources changing at will, keeps: jobs sound, leases distinct, at most one job active |
| Scheduler.OneActiveJob | apps/api/app/services/scheduler.py:323-355 | on every run at most one job is active, so no two of one project |
| Scheduler.StartsBounded | apps/api/app/services/scheduler.py:565-588 | on every run no attempt starts twice, a job starts at most once per queuing by submission or manual retry, and `attempt_count` counts the claims |
| Scheduler.FencedForever | apps/api/app/services/scheduler.py:595-601 | a lease that lost its job never holds it again, and delivering or completing under it changes nothing ever after |
| Scheduler.TerminalStays | apps/api/app/services/scheduler.py:218-236 | a terminal job changes only by a manual retry, a succeeded one never |
| Scheduler.CancellationWins | apps/api/app/services/scheduler.py:602-606 | once cancellation is requested no outcome or timeout makes the job anything but cancelled |
| Scheduler.RecoveryTouchesOverdue | apps/api/app/services/scheduler.py:252-320 | a recovery pass changes exactly the overdue jobs on unlocked rows; each loses its lease and, unless it waits again, leaves no open source behind (a cancelled build excepted); a failed one says `worker_timeout` |
| Scheduler.RecoveryClearsOverdue | apps/api/app/services/scheduler.py:252-320 | after a recovery pass no lease is overdue, and jobs still active are untouched |
| Scheduler.LeasesRunOut | apps/api/app/services/scheduler.py:423-428 | on every run no lease reaches further than ten minutes ahead |
| Scheduler.SlotsAreFreed | apps/api/app/services/scheduler.py:252-320 | from any reachable state, once the lease time has passed one recovery pass frees every slot |
| SchedulerHistory.LeasedByDispatch | apps/api/app/services/scheduler.py:406-443 | on every run a leased job was selected by a dispatch, under that lease, which runs out ten minutes later |
| SchedulerHistory.LaunchedWithinLease | apps/api/app/services/scheduler.py:565-588 | on every run source work is launched only under the lease of a dispatch less than ten minutes ago, its source waiting, and a claim under such a lease does launch it |
| SchedulerHistory.OutcomeWarranted | apps/api/app/services/scheduler.py:565-686 | on every run, a closed job was closed by one completion, claim, recovery or cancellation that held its lease, found it expired or found it not begun, and in the state one rule gives: cancelled if asked for or withdrawn, succeeded if the work is finished, failed otherwise; since then only its source has changed |
| SchedulerHistory.LaunchesBounded | apps/api/app/services/scheduler.py:565-588 | on every run the source work of a job is launched at most once more often than it was queued again by hand |
| SchedulerHistory.LogCounts | apps/api/app/services/scheduler.py:218-236 | on every run the log of a job holds one start per launch and one queuing per submission or manual retry, no more and no fewer |
| SchedulerHistory.CancelledForGood | apps/api/app/services/scheduler.py:647-686 | after an accepted cancellation, unless someone retries the job or reopens its source, the job stays called off, its source stays closed and its work is never launched again, whatever leases are still delivered or completed |
| SchedulerHistory.CancellationCompletes | apps/api/app/services/scheduler.py:270-317 | from any reachable state, a job asked to stop is cancelled by one recovery pass once the lease time has passed |
| SchedulerHistory.HistoryKept | apps/api/app/services/scheduler.py:252-686 | over every run the identity and age of a job stay, attempts never go down, and the event log is only appended to |
| SchedulerFairness.BypassedAtMostOnce | apps/api/app/services/scheduler.py:349-443 | while a waiting project is passed over, no other project is served at two dispatches |
| SchedulerFairness.BoundedWaiting | apps/api/app/services/scheduler.py:349-443 | a waiting project is passed over by at most as many dispatches with a slot as there are other projects |
| BukvarixFetch.FetchLoop | apps/api/app/services/bukvarix_queue.py:111-143 | the loop answers as specified: rows up to the cap, or the first failure with its code and the queries made so far |
| BukvarixFetch.KeepNew | apps/api/app/services/bukvarix_queue.py:127-143 | the inner loop keeps the first occurrence of every normalised phrase and stops at the cap |
| BukvarixFetch.AnswerUnique | apps/api/app/services/bukvarix_queue.py:111-143 | the specification leaves exactly one answer |
| BukvarixFetch.RowsAreReturned | apps/api/app/services/bukvarix_queue.py:127-143 | every row of an answer holds phrase, normalised phrase and metrics of an item some query returned and the source of its seed; its phrase is not empty and no other row has it |
| BukvarixFetch.NothingReturnedIsMissing | apps/api/app/services/bukvarix_queue.py:127-143 | an answer of less than a thousand rows misses no phrase any of its queries returned |
| BukvarixFetch.FailureIsTheFirst | apps/api/app/services/bukvarix_queue.py:111-186 | a run fails at its first bad seed or failed query, with the code and the number of queries that go with it |
| BukvarixFetch.KeptAreEarliest | apps/api/app/services/bukvarix_queue.py:127-143 | the kept rows are the earliest candidates of their phrases, in order, and no non-empty phrase is missing |
| BukvarixFetch.FetchedIsFirstThousand | apps/api/app/services/bukvarix_queue.py:111-143 | if nothing fails the rows are the first thousand of the deduplicated concatenation of all queries |
| BukvarixFetch.CapDiscardsNothing | apps/api/app/services/bukvarix_https.py:41-57 | with ten seeds and a hundred rows per query the cap discards nothing and the stored counts meet their bounds |
| BukvarixQueue.RunTable.Claim | apps/api/app/services/bukvarix_queue.py:87-110 | a queued run starts now if its snapshot is usable and fails otherwise; any other run is left alone |
| BukvarixQueue.RunTable.Finish | apps/api/app/services/bukvarix_queue.py:144-173 | a run still running gets the fetched rows and counts, which never clash with each other, or the failure and the number of queries; any other is left alone |
| BukvarixQueue.RunTable.Recover | apps/api/app/services/bukvarix_queue.py:59-84 | exactly the runs the scheduler does not own that were started more than 600 seconds ago and still run are queued again |
| BukvarixQueue.StaleRunStartsAgain | apps/api/app/services/bukvarix_queue.py:59-110 | recovery hands exactly the stale runs to the next worker; fresh and terminal runs are left alone |
| BukvarixQueue.CommitSafeIffNotLate | apps/api/app/services/bukvarix_queue.py:144-173 | a commit after an unlocked re-read keeps the run sound and settled iff the run has not gone terminal in between |
| BukvarixQueue.StepSafe | apps/api/app/services/bukvarix_queue.py:59-186 | a step keeps results only on completed runs, from one finish, counted right, and terminal states final iff it is not a late commit |
| BukvarixQueue.SafeIffTimely | apps/api/app/services/bukvarix_queue.py:59-186 | every step of a trace is sound and settled iff no commit of it is late |
| BukvarixQueue.TimeoutMakesRereadSafe | apps/api/app/worker.py:625 | if no task outlives the timeout, every interleaving of workers, duplicate deliveries, crashes, recovery, cancellation and lease expiry is safe, the re-read unlocked as it is |
| BukvarixQueue.CancelledForever | apps/api/app/services/scheduler.py:647-686 | a cancelled run never changes again, even with stalled workers |
| BukvarixQueue.ExpiredIsClosed | apps/api/app/services/scheduler.py:270-317 | once its lease has run out a run that has not ended is failed as timed out, and an ended one is left alone |
| BukvarixQueue.TerminalForever | apps/api/app/services/bukvarix_queue.py:59-186 | on a safe trace a terminal run keeps status and results |
| BukvarixQueue.AtomicFinishIsSafe | apps/api/app/services/bukvarix_queue.py:144-173 | with the finish as one transaction every interleaving is safe |
| BukvarixQueue.FinishIsRereadCommit | apps/api/app/services/bukvarix_queue.py:144-173 | that transaction is the re-read and the commit with nothing in between |
| BukvarixQueue.StalledWorkerWritesTwice | apps/api/app/services/bukvarix_queue.py:144-173 | a trace on which a worker stalled past the timeout and its successor both store their rows for one run outside the scheduler |
| BukvarixQueue.StalledWorkerRevives | apps/api/app/services/scheduler.py:270-317 | a trace on which a stalled worker completes a run that recovery has failed as timed out |
| LogSupervisor.RotatingLog.Rotate | scripts/log_supervisor.py:41-54 | for every pattern of existing generations: each moves up by one, the oldest goes, and no rename hits an existing file |
| LogSupervisor.RotatingLog.Write | scripts/log_supervisor.py:21-34 | the loop terminates with the files the piecewise specification determines, overwriting no file |
| LogSupervisor.ChunkingIrrelevant | scripts/log_supervisor.py:21-34 | from any state, writing two chunks is writing their concatenation |
| LogSupervisor.RunIsOneWrite | scripts/log_supervisor.py:21-34 | any run of writes is one write of all bytes |
| LogSupervisor.BytesConserved | scripts/log_supervisor.py:21-54 | what was there plus the chunk is what rotation dropped plus what is there now, in order |
| LogSupervisor.FilesStayBounded | scripts/log_supervisor.py:21-34 | no file ever exceeds the size limit |
| LogSupervisor.WriteKeepsCanonical | scripts/log_supervisor.py:21-54 | the files always are the last blocks of the stream |
| LogSupervisor.ClosedForm | scripts/log_supervisor.py:21-54 | after T bytes the current file holds (T−1) mod MAX + 1 bytes and min(GENERATIONS, (T−1) div MAX) full archives exist; read oldest to newest they are a suffix of the stream |
| LogSupervisor.RecentOutputIsKept | scripts/log_supervisor.py:11-54 | with the limits in use, the files are the end of the output: all of it, or more than its last 25 MiB, and never over 30 MiB |
| SiteStructure.ValidateSiteStructureTree | apps/api/app/schemas/site_structure.py:47-68 | accepts iff keys, slugs and evidence ids are duplicate-free, parents known, and a rank strictly decreasing towards parents exists; otherwise the first failing check is named |
| SiteStructure.AnyCycle | apps/api/app/schemas/site_structure.py:61-68 | the loop over all pages reports a cycle iff the pages are no forest |
| SiteStructure.WalkFindsCycle | apps/api/app/schemas/site_structure.py:61-68 | one walk terminates without a missing key; a revisit refutes the forest, otherwise the walk ends |
| SiteStructure.WalksEndInForest | apps/api/app/schemas/site_structure.py:61-68 | if every walk ends, depths are a rank |
| SiteStructure.RevisitRefutesForest | apps/api/app/schemas/site_structure.py:65-68 | a walk that meets a page twice excludes every rank |
| SiteStructure.DistinctByCount | apps/api/app/schemas/site_structure.py:52-57 | comparing a list's length with its set's size detects exactly the duplicates |
| SiteStructure.KnownIffClosed | apps/api/app/schemas/site_structure.py:58-60 | the check of the parents is what keeps every walk inside the index |
| SiteBackfill.SlugInjective | scripts/backfill_site_projects.py:42-43 | different sites get different slugs |
| SiteBackfill.Database.Backfill | scripts/backfill_site_projects.py:66-150 | the loop leaves the tables and counts of the specification; it writes one audit row per created link and leaves the audit report as it was |
| SiteBackfill.Database.ScanSite | scripts/backfill_site_projects.py:66-150 | one site yields at most one label and at most one creation |
| SiteBackfill.Database.CreateProject | scripts/backfill_site_projects.py:123-149 | a draft project with the site's tenant, domain, locale and niche and the slug of its id is inserted, the site linked to it, and a sealed audit row with the ids, slug and domain appended |
| SiteBackfill.ClassifyUnrelated | scripts/backfill_site_projects.py:68-121 | projects created for other sites never change a verdict |
| SiteBackfill.OneLabelPerSite | scripts/backfill_site_projects.py:56-150 | a run restricted to a tenant reports one label for each of its sites and no other; an unrestricted one, one per site |
| SiteBackfill.LinkedIffAllowed | scripts/backfill_site_projects.py:56-149 | after an applying run a site is linked to a draft of its own iff the run was for its tenant, its data are usable, it points nowhere, nothing points at it, and its slug is free; every other site is as before |
| SiteBackfill.AddedAreDrafts | scripts/backfill_site_projects.py:123-135 | projects stay in place, and every added one is the draft of a site of the run's tenant |
| SiteBackfill.LabelsMean | scripts/backfill_site_projects.py:66-121 | what each label says about site and projects, when project ids are distinct |
| SiteBackfill.DryRunChangesNothing | scripts/backfill_site_projects.py:118-121 | a dry run leaves the database alone and never reports `created` |
| SiteBackfill.DryRunPredictsApply | scripts/backfill_site_projects.py:66-149 | label by label the applying run reports what the dry run did with `would_create` read as `created`, and adds exactly the predicted links |
| SiteBackfill.VerdictAfter | scripts/backfill_site_projects.py:68-121 | after an applying run a created site reads as linked and every other as before |
| SiteBackfill.SecondRunCreatesNothing | scripts/backfill_site_projects.py:66-149 | a second applying run changes nothing; its labels are the first's with `created` read as `already_linked` |
| SiteBackfill.CountsAgree | scripts/backfill_site_projects.py:66-149 | the same for the printed counts of the three runs |
| SiteBackfill.ExistingRowsKept | scripts/backfill_site_projects.py:123-135 | no project row changes, and no site but for an absent link of a selected tenant |
| SiteBackfill.LinksGrowByCreated | scripts/backfill_site_projects.py:123-135 | the reciprocal links are the old ones and one new link per created site |
| SiteBackfill.ConstraintsKept | apps/api/app/models/project.py:41 | the inserted rows meet every unique constraint |
| EnvFile.File.ReadEnv | scripts/prepare_env.py:41-49 | the reader's loop, last assignment winning |
| EnvFile.File.ReadLine | scripts/prepare_env.py:43-48 | a line is an entry iff, stripped, it does not begin with `#` and holds `=`; key and value are what stands around the first `=`, stripped |
| EnvFile.File.Rewrite | scripts/prepare_env.py:82-97 | the loops over lines and unseen updates compute the merge |
| EnvFile.File.Upsert | scripts/prepare_env.py:52-97 | the file becomes the merge of its (or the example's) lines with the updates that apply |
| EnvFile.File.Prepare | scripts/prepare_env.py:100-150 | production preparation is three such merges with the kept or drawn password |
| EnvFile.PlaceholderIff | scripts/prepare_env.py:36-38 | a value is a placeholder iff `change-me` stands in it, or nothing is left of it but space and quotes |
| EnvFile.UpsertReads | scripts/prepare_env.py:52-97 | key by key, what an upserted file reads as: as before (the file, or the example if it has no lines) if the key is not updated or must be kept, otherwise as updated, where the key is assigned at column one only |
| EnvFile.PreparedReads | scripts/prepare_env.py:100-150 | key by key, what a prepared file reads as: a password of at least sixteen characters other than the default kept and otherwise drawn, the derived settings, each secret kept if real and otherwise drawn, anything else as before |
| EnvFile.SplitUnlines | scripts/prepare_env.py:78-97 | writing one-line lines and splitting them again gives the lines back |
| EnvFile.AssignmentParses | scripts/prepare_env.py:41-49 | a written assignment of a stripped value reads back as written |
| EnvFile.OtherKeysKept | scripts/prepare_env.py:52-97 | a merge leaves every other key's parsed value unchanged |
| EnvFile.ParsesBackIff | scripts/prepare_env.py:52-97 | an updated key parses back to its new value iff it is appended, or its last line starts at column one, or it already had the value |
| EnvFile.IndentedLineShadowsMerge | scripts/prepare_env.py:82-91 | an indented later assignment keeps the old value |
| EnvFile.MergeSettles | scripts/prepare_env.py:52-97 | after a merge every updated key stands at column one with its new value |
| EnvFile.MergeKeepsSettled | scripts/prepare_env.py:52-97 | a later merge that does not contradict an earlier one keeps it settled |
| EnvFile.SettledIsFixed | scripts/prepare_env.py:52-97 | merging settled updates changes no line |
| EnvFile.OverwriteIdempotent | scripts/prepare_env.py:52-97 | an overwriting upsert is idempotent on the text |
| EnvFile.RerunReproduces | scripts/prepare_env.py:100-150 | rerunning the preparation writes the same text, whatever is drawn the second time, if the reader meets the secrets and the password only at column one |
| EnvFile.RuntimeValuesOk | scripts/prepare_env.py:120-144 | the script's own settings meet what that result asks of them |
| Dedup.Count | apps/api/app/services/dedup.py:19 | counting tokens preserves every bit's vote |
| Dedup.Simhash64 | apps/api/app/services/dedup.py:14-30 | the sixteen digits of the majority fingerprint, the empty text included |
| Dedup.FingerprintIsMajority | apps/api/app/services/dedup.py:20-29 | it is the one 64-bit number whose bits are set exactly where the weighted vote is positive |
| Dedup.MostTokensDecide | apps/api/app/services/dedup.py:20-29 | a bit of the fingerprint is set iff it is set in the hashes of more than half of the tokens |
| Dedup.SameFingerprint | apps/api/app/services/dedup.py:14-30 | reordering the tokens or repeating the whole list gives the same fingerprint |
| Dedup.ClearMajorityStays | apps/api/app/services/dedup.py:20-29 | replacing tokens cannot flip a bit on which the common ones outvote the replaced |
| Dedup.NearDuplicatesStayClose | apps/api/app/services/dedup.py:14-35 | the distance of two such texts is at most the number of bits the common tokens leave open |
| Dedup.DistanceCountsBits | apps/api/app/services/dedup.py:33-35 | the distance is the number of differing bit positions |
| Dedup.DistanceZeroIffEqual | apps/api/app/services/dedup.py:33-35 | it is zero iff the values are equal |
| Dedup.DistanceSymmetric | apps/api/app/services/dedup.py:33-35 | it is symmetric |
| Dedup.DistanceTriangle | apps/api/app/services/dedup.py:33-35 | it meets the triangle inequality |
| Dedup.FingerprintReadsBack | apps/api/app/services/dedup.py:30-34 | the hexadecimal form round-trips |
| Dedup.CompareTexts | apps/api/app/services/dedup.py:42-43 | the similarity of the two fingerprints |
| Dedup.SimilarityIsShare | apps/api/app/services/dedup.py:38-43 | the similarity is the share of the 64 bit positions on which the two fingerprints agree |
| Dedup.SimilarityInRange | apps/api/app/services/dedup.py:38-43 | it lies in [0, 1] and is 1 iff the fingerprints are equal |
| Dedup.MinhashBuckets | apps/api/app/services/dedup.py:46-55 | one slot per hash function: the least token hash modulo 2147483648, or zero without tokens |
| Dedup.SlotOfSet | apps/api/app/services/dedup.py:48-55 | the signature depends on the set of tokens alone |
| Dedup.SlotOfUnion | apps/api/app/services/dedup.py:52-54 | each slot of a union is the slot of one of the two sets |
| Dedup.SlotSharedIffLeastIsCommon | apps/api/app/services/dedup.py:52-54 | two sets share a least hash iff the least hash of their union belongs to a common token |
| Text.HexRoundTrip | apps/api/app/services/dedup.py:30-34 | fixed-width hexadecimal reads back every number that fits |
| Text.StripRemovesSpaces | scripts/prepare_env.py:43-48 | stripping removes nothing but whitespace at the two ends |
| Evidence.NormalizeIffNormal | apps/api/app/services/competitor.py:105 | normalising gives single inner spaces and no outer ones, and changes no text that is so already |
| Evidence.NormalizeKeepsWords | apps/api/app/services/competitor.py:105 | normalising keeps the words of a text and their order |
| Evidence.BoundedTextIsPrefix | apps/api/app/services/competitor.py:102-108 | exactly the texts with a word are bounded, to the first characters of their words put one space apart |
| Evidence.BoundedTextShape | apps/api/app/services/competitor.py:102-108 | a bounded text is non-empty, within the limit and normal up to one trailing space, which only cutting leaves |
| Evidence.TextSettlesInTwo | apps/api/app/services/competitor.py:102-108 | two passes settle every text under every limit, one pass iff no trailing space is left |
| Evidence.TextNotSettledInOne | apps/api/app/services/competitor.py:102-108 | a text on which the second pass differs from the first |
| Evidence.BoundedItems | apps/api/app/services/competitor.py:111-121 | the loop with its early exit computes the first ten distinct bounded texts |
| Evidence.ItemsAre | apps/api/app/services/competitor.py:111-121 | they are distinct, bounded, taken from the input, and all of them if there is room |
| Evidence.ItemsSettledIff | apps/api/app/services/competitor.py:111-121 | a second pass keeps the list iff none of its texts ends in a space |
| Evidence.ItemsSettleInTwo | apps/api/app/services/competitor.py:111-121 | two passes settle every list |
| Evidence.ApprovedEvidenceContent | apps/api/app/services/competitor.py:127-149 | each column of the approved row comes from its own field of the skeleton, and the count is that of the strings among the urls |
| Evidence.ApprovedSectionsComplete | apps/api/app/services/competitor.py:128-148 | an approved row names each of the five known sections of the skeleton exactly once, and no other; the limit of eight never cuts |
| Evidence.UniqueInOrder | apps/api/app/services/competitor.py:148 | sections stand in the order of their first occurrence |
| Evidence.ShownColumns | apps/api/app/services/competitor.py:152-175 | each shown column comes from its own field of the content |
| Evidence.ProjectionSettledIff | apps/api/app/services/competitor.py:152-175 | projecting a projected row changes it iff one of its texts or its scan id ends in a space |
| Evidence.ApprovedEvidenceIsFixed | apps/api/app/services/competitor.py:127-175 | for a UUID scan id, what the provider is shown of approved evidence is a fixed point of the projection, with id, count and sections as approved |

## Left out

- Hash functions (SHA-256, MD5, SHA-1) are parameters, usage prices and normalised phrases inputs; nothing is assumed of them except where a lemma says so.
- Regular expressions, Unicode case folding and JSON encoding: tokens, normalised phrases and decoded JSON values are inputs. Whitespace is the set `str.isspace` accepts.
- Floating-point rounding: costs, times and similarities are real numbers.
- Redis, HTTP, providers, files and clocks are inputs; symlink checks, threads and signals of the log supervisor are not modelled, its lock making a write one step.
- Database transactions are single steps at the point where the code commits, except the AI reservation and the keyword finish, which are split as the code splits them.
- Scheduler wake-ups and their outbox: instead, any lease may be delivered at any time and any number of times, which covers every behaviour of the outbox; the `wake_published` event is therefore missing from the log.
- Scheduler dispatch reads two clocks (the process and the database); the model has one. Timestamps that are only displayed are left out, and so are jobs without a project, which are never dispatched.
- What happens inside the source work of a job (builds, crawls) is not modelled; the source's status may change arbitrarily at any moment.
- The checks of `validate_production_env` and the other modes of `prepare_env` (local, docker, vps).
- `int(x, 16)` accepts more than the sixteen digits `simhash64` writes; `Hamming` is modelled on those.
- The `due_bukvarix_keyword_run_ids` query, the crawl evidence builder and the HTML extraction would add only single-branch members.
- The site-build queue, webhook delivery, retention and index schedules.
- AiSpend.BudgetHolds: bounds windows shorter than a day by the delay between a row's stamp and its check, and only spend covered by estimates, because more does not hold of every trace; `LimitsHoldIff` is the exact condition for the full limits.
- Evidence.Approved: the constant fields of the row are left out, and the projections are functions of decoded JSON rather than of a mutable dictionary.
