# A verified model of the tasker job queue

tasker is a job queue with two interchangeable drivers. The Redis driver keeps every job in a hash plus several
indexes (a uuid hash, sorted sets of ids, creation times and running jobs, and one due set per queue) and changes them
all in atomic Lua scripts. The SQL driver keeps one flat table and changes it with `WHERE` / `ORDER BY` / `LIMIT`
statements. Workers claim jobs, run them and report completion, failure or a retry with backoff; operators retry,
cancel and prune; a supervisor puts stale jobs back; nodes take locks and elect a leader.

This project models that behaviour and proves what it promises. `dafny verify dfyconfig.toml` checks all of it.

| file | contents |
|---|---|
| `types.dfy`, `row_steps.dfy`, `selection.dfy` | rows, what one operation does to one row, the claiming order |
| `store.dfy`, `store_loops.dfy`, `redis_driver.dfy` | the Redis store as a value and its scripts as functions; the scripts as loops that change an object, proved to compute those functions |
| `row_invariant.dfy`, `store_invariant.dfy` | the index invariant and the row invariant, kept by every script |
| `sql_table.dfy`, `refinement.dfy` | the flat table, and that the two drivers agree step by step and over runs |
| `runs.dfy`, `state_machine.dfy`, `batches.dfy` | laws over every run: counting, bounds, histories, state discipline; batch operations |
| `columns.dfy`, `sql_runs.dfy` | what each operation accepts, picks and stores, said over the rows' own columns; the SQL driver's claim columns over its runs |
| `enqueue.dfy`, `dispatch.dfy` | building rows and chains, and EnqueueBatch on the caller's row objects |
| `worker.dfy`, `worker_loop.dfy`, `backoff.dfy` | the worker's verdict, its fit with the store, retry delays in int64 |
| `witnesses.dfy` | short runs from the empty store that reach the cases in which a promise fails |
| `locks.dfy`, `leader.dfy` | locks and leader election under every interleaving of their statements |
| `text_array.dfy`, `job_filter.dfy`, `query_builder.dfy`, `pagination.dfy` | the Postgres array codec, filters, the query compiler, listing and pages |

How to read the results. A run is a sequence of driver calls from the empty store (`Runs.Exec`); every Lua script and
every SQL transaction is one atomic step. The only assumption about calls is that enqueued rows are as a dispatch
builds them (`Types.InitialRow`, which `Dispatch.BuildJobRow` and `Dispatch.Chain` establish); any order, any ids and
any times are allowed, also decreasing ones. Times are integers in microseconds, delays in nanoseconds.

What turned out not to hold, with the exact condition under which it does and an input on which it fails:

- Batch Retry and Cancel change the same rows in both drivers exactly when the batch is not mixed: Redis refuses a
  batch with one bad id, SQL skips the bad id (`RetryAgrees`, `CancelAgrees`; `MixedBatchParts`). They answer alike
  exactly when every id is allowed: a SQL batch reports success even if it touched nothing (`BatchOutcomes`;
  `RefusedBatchOfOne`).
- Stale requeue agrees exactly when no job was claimed at the cutoff itself: Redis compares with `<=`, SQL with `<`
  (`RequeueStaleAgrees`; `CutoffParts`).
- Claimed rows come back in claiming order from Redis and MySQL (`MySqlAnswersInOrder`), from Postgres and SQLite only as
  a multiset.
- Search agrees exactly for texts without LIKE metacharacters, or when the kinds of the filter make it moot
  (`FiltersAgreeIff`); the builder does not escape the search text although the driver has `escapeLike`. The drivers
  sort alike exactly for columns that both know, and for unknown ones unless ascending order is asked for
  (`OrdersAgreeIff`).
- A job can be started by some claim exactly when it is ready (`StartableIffReady`), so a job requeued as stale on its
  last attempt is `available` and stuck (`StuckJob`, `StrandedStays`).
- A scheduled retry strands the job exactly when the stored row has used up its attempts (`PutOffStrandsIff`). A worker
  that still holds the job never does that (`HolderDoesNotStrand`); one whose claim has been superseded can, because
  reports are not fenced (`StrandingNeedsNewerClaim`; `LatePutOffStrands`).
- The default backoff is right exactly up to attempt 33 and at a few later attempts at which the wrapped value happens
  to exceed the cap (`DefaultIsRightIff`; `FirstWrappedDelays`); from attempt 55 on it is 0.
- The transition table declares cancelled final, but both drivers revive a cancelled job on Retry
  (`RunsAreDisciplined`; `CancelledIsRevived`).
- Leases of two leaders can overlap although the earlier of the two did not resign, when a third leader resigned in
  between (`ThirdPartyResignation`). They are disjoint exactly when every INSERT after a resignation captured its time
  behind the last lease that another node still held (`LeasesDisjointIff`), and at no moment do two nodes lead
  (`AtMostOneLeader`).
- A page whose `offset + limit` exceeds int64 panics if the offset lies inside the list (`Pagination.QueryJobs`).
- Nothing promotes the pending children of a chain (`PendingWaits`).

## Model

| member | source | states |
|---|---|---|
| `Selection.FirstIsFirst` | driver/redisdriver/driver.go:134-141 | the recursive selection is sorted, has the right number, and everything not selected comes after everything selected; which order that is, is stated by `Columns.ClaimTakesTheFirst` |
| `Selection.FirstIsUnique` | driver/sqldriver/driver.go:408-415 | that meaning admits only one answer, so any correct sort-and-limit selects the same jobs in the same order |
| `JobStore.ScreenPasses` | driver/redisdriver/driver.go:287-314 | the validation loop of a batch finds no objection if and only if every id exists and allows the step |
| `JobStore.ScreenStops` | driver/redisdriver/driver.go:287-314 | the refusal reported is that of the first bad id: not found if it is missing, invalid transition otherwise |
| `RedisDriver.RangeByScore` | driver/redisdriver/driver.go:117-161 | a score range lists exactly the members up to the bound, each once |
| `RedisDriver.SortCandidates` | driver/redisdriver/driver.go:134-141 | the candidates come out in claiming order, the same ones as went in |
| `RedisDriver.SortedPrefixIsFirst` | driver/redisdriver/driver.go:134-161 | the first `max` of the sorted candidates are the unique `ORDER BY ... LIMIT` selection |
| `RedisDriver.RedisStore.EnqueueScript` | driver/redisdriver/driver.go:50-74 | from any store: refused without a trace on an empty or repeated uuid, else all rows inserted under consecutive new ids |
| `RedisDriver.RedisStore.ClaimScript` | driver/redisdriver/driver.go:117-161 | from any store: starts exactly the selected jobs, drops unready due entries, answers the started rows in order |
| `RedisDriver.RedisStore.CompleteScript` | driver/redisdriver/driver.go:177-206 | completes a running job and takes it out of the running index; otherwise changes nothing and reports it |
| `RedisDriver.RedisStore.FailScript` | driver/redisdriver/driver.go:208-242 | fails a running or retryable job, appends its error, clears both indexes |
| `RedisDriver.RedisStore.ScheduleRetryScript` | driver/redisdriver/driver.go:244-285 | puts a running job off: retryable, error appended, back in the due index at the new time |
| `RedisDriver.RedisStore.RetryScript` | driver/redisdriver/driver.go:287-339 | validates all ids, then resets each; a refusal leaves the store alone |
| `RedisDriver.RedisStore.CancelScript` | driver/redisdriver/driver.go:341-381 | validates all ids, then cancels each; a refusal leaves the store alone |
| `RedisDriver.RedisStore.StaleScript` | driver/redisdriver/driver.go:661-687 | requeues every running job claimed at or before the cutoff and counts them |
| `RedisDriver.RedisStore.PruneScript` | driver/redisdriver/driver.go:689-726 | removes old jobs in the given states from every structure, and orphaned index entries, and counts the jobs |
| `Columns.ClaimTakesTheFirst` | driver/redisdriver/driver.go:117-161 | a claim answers, in order of priority descending, due time ascending, id ascending, at most `max` jobs that are available, scheduled or retryable, in the queue, due and below max_attempts, each started for the node; a job that could start and was left comes behind all of them, and there is one only if `max` was reached |
| `Columns.ClaimTidiesDue` | driver/redisdriver/driver.go:118-133 | a claim forgets the due entries of its queue whose job cannot start, and no others but those it takes |
| `Columns.WaitingJobsAreServed` | driver/redisdriver/driver.go:68-70 | in every reachable store a job that is available, scheduled or retryable with attempts left has its due entry and some claim starts it at any time from its due time on; no claim starts a pending, running, completed, failed or cancelled job |
| `Columns.EnqueueRefusedIff` | driver/redisdriver/driver.go:50-58 | an enqueue is refused, and changes nothing, exactly if a row has no uuid or one of a stored job or an earlier row |
| `Columns.EnqueueStores` | driver/redisdriver/driver.go:60-74 | each accepted row is stored under its number, with a due entry at its due time exactly if it is available, scheduled or retryable; stored rows stay |
| `Columns.AcceptedStates` | driver/redisdriver/driver.go:177-358 | state by state, which of Retry, Cancel, Complete, ScheduleRetry and Fail a job accepts and what the refusals are, in both drivers |
| `Columns.MaintenanceTidies` | driver/redisdriver/driver.go:661-713 | from any store, no timed-out running entry survives a stale requeue and no old index entry of a missing job survives a prune |
| `StoreInvariant.ApplyInv` | driver/redisdriver/driver.go:50-358 | every script keeps the index invariant: equal key sets of jobs, ids and created; uuids the exact inverse; due entries sound (claimable, own queue, score = scheduled_at) and complete for attempt < max_attempts; running exactly the running jobs at their claim time; every row well formed |
| `StoreInvariant.InsertAllInv` | driver/redisdriver/driver.go:50-74 | inserting a batch of initial rows keeps the index invariant |
| `RowInvariant.ErrorsBounded` | driver/redisdriver/driver.go:208-265 | a well-formed row has at most attempt errors, one more if it is failed |
| `RowInvariant.AttemptsClimb` | driver/redisdriver/driver.go:208-265 | the k-th recorded error belongs to attempt k + 1 or later |
| `SqlTable.ClaimersAgreeIff` | driver/sqldriver/driver.go:422-429 | the Postgres slice-then-append gives the claimers list Redis gives if and only if the list has at most 50 entries |
| `Refinement.IndexFindsEligible` | driver/sqldriver/driver.go:452-482 | under the invariant the due index yields exactly the rows of the WHERE clause, with the same sort columns |
| `Refinement.ClaimPicksAlike` | driver/redisdriver/driver.go:117-161 | indexed Claim picks exactly the first `max` rows of the filter in priority, due time, id order |
| `Refinement.ClaimAgrees` | driver/sqldriver/driver.go:400-482 | after a Claim the two drivers hold the same rows |
| `Refinement.FinishAgrees` | driver/sqldriver/driver.go:548-660 | after Complete, Fail and ScheduleRetry the two drivers hold the same rows, on every input |
| `Refinement.RetryAgrees` | driver/sqldriver/driver.go:682-711 | batch Retry agrees if and only if all ids are allowed or none is |
| `Refinement.CancelAgrees` | driver/sqldriver/driver.go:731-758 | batch Cancel agrees if and only if all ids are allowed or none is |
| `Refinement.RequeueStaleAgrees` | driver/sqldriver/driver.go:1163-1178 | stale requeue agrees if and only if no running job was claimed exactly at the cutoff |
| `Refinement.PruneAgrees` | driver/sqldriver/driver.go:1180-1201 | Prune removes the same jobs |
| `Refinement.TablesAgreeIff` | driver/sqldriver/driver.go:308-758 | from agreeing stores, one well-formed call leaves the same rows in both drivers if and only if it is comparable: no mixed batch, no row claimed exactly at the cutoff |
| `Refinement.BatchOutcomes` | driver/sqldriver/driver.go:682-758 | a batch Retry or Cancel is answered alike if and only if every id is allowed |
| `Refinement.OutcomesAgreeIff` | driver/sqldriver/driver.go:308-758 | from agreeing stores, one call gets the same answer (accepted or not, the multiset of claimed rows, counts) if and only if it is not a refused batch and no row sits on the stale cutoff |
| `Refinement.MySqlAnswersInOrder` | driver/sqldriver/driver.go:484-546 | the MySQL claim, which selects the started rows again, answers them in the order in which Redis does |
| `Refinement.DriversAgreeIff` | driver/redisdriver/driver.go:50-381 | over every run the drivers hold the same rows after every step if and only if every call is comparable, and then their answers differ at exactly the refused batches |
| `Runs.StepChange` | driver/redisdriver/driver.go:117-358 | what each step does to each single job, for all steps and jobs |
| `Runs.ReachableInv` | driver/redisdriver/driver.go:50-358 | the index invariant holds after every run |
| `Runs.ClaimsBalance` | driver/redisdriver/driver.go:117-265 | claims of a job = completions + failures from running + scheduled retries + stale requeues + prunes while running + 1 if it is running now |
| `Runs.ClaimsAreSeparated` | driver/redisdriver/driver.go:117-265 | between two claims of one job lies a step that ended the first |
| `Runs.StaysRunning` | driver/redisdriver/driver.go:117-161 | until then the job runs under that claim, with its node and claim time |
| `Runs.StaleOnlyAfterTimeout` | driver/redisdriver/driver.go:661-687 | a stale requeue ends a claim only when the timeout has passed since that claim |
| `Runs.BoundedBetweenResets` | driver/redisdriver/driver.go:117-358 | between resets attempt = number of claims <= max_attempts, and the row changes at most 2 * max_attempts + 1 times |
| `Runs.AttemptedByIsLastFifty` | driver/redisdriver/driver.go:150-153 | attempted_by is the last 50 claimers in order; a running row's node is the last of them |
| `Runs.StartedAtIsSeriesStart` | driver/redisdriver/driver.go:146-153 | started_at is the first claim since the job was added, put off or retried by hand; a stale requeue keeps it |
| `Runs.LastClaimIsKept` | driver/redisdriver/driver.go:146-149 | attempted_at and node_id tell of the last claim, also after completion or failure, until the job is put off or retried by hand; a stale requeue forgets the node only |
| `SqlRuns.SqlRowsTell` | driver/sqldriver/driver.go:405-482 | over every run of the SQL driver: attempted_by is the last fifty claimers since the job was added or retried by hand, started_at and attempted_at the first and last claim since it was put off, requeued or retried, node_id the claimer while it runs and nothing otherwise |
| `Runs.IdsAreNeverReused` | driver/redisdriver/driver.go:50-74 | an enqueue never hands out an id that was ever in the store, pruned or not, and new ids are larger |
| `Runs.NextIdGrowsOverRuns` | driver/redisdriver/driver.go:50-74 | the id counter never goes back |
| `Runs.GoneStaysGone` | driver/redisdriver/driver.go:689-713 | a pruned job never comes back under its id |
| `StateMachine.RunsAreDisciplined` | state_machine.go:13-35 | over every run rows change state along the closure of the transition table, except Retry of a cancelled row; nothing enters pending or scheduled; a pending row can only be cancelled; finalized_at is set exactly in terminal states |
| `StateMachine.CancelledIsFinal` | state_machine.go:13-35 | no path in the table leaves cancelled |
| `StateMachine.NoShortcuts` | state_machine.go:13-35 | only available jobs start, only running jobs end or are put off, only waiting jobs are cancelled, and only waiting or ended jobs become available |
| `StateMachine.ReachesIff` | state_machine.go:13-35 | the table leads in several steps from anything but cancelled to anything but pending and scheduled, and nowhere else |
| `Witnesses.CancelledIsRevived` | driver/redisdriver/driver.go:287-314 | a run in which Retry takes a cancelled job to available, which no path in the table does |
| `Witnesses.StuckJob` | driver/redisdriver/driver.go:661-680 | a run after which a job is available and no claim starts it |
| `Witnesses.LatePutOffStrands` | driver/redisdriver/driver.go:244-265 | a run in which a late report, on a retryable verdict about the row handed out, strands the job |
| `Witnesses.MixedBatchParts` | driver/sqldriver/driver.go:731-758 | a run after which a mixed batch takes the drivers apart |
| `Witnesses.CutoffParts` | driver/sqldriver/driver.go:1163-1178 | a run after which a stale requeue exactly at the cutoff takes them apart |
| `Witnesses.RefusedBatchOfOne` | driver/sqldriver/driver.go:682-711 | a refused batch of one id: the rows stay alike, Redis reports the refusal, SQL reports success |
| `StateMachine.ErrorHistory` | driver/redisdriver/driver.go:208-314 | recorded attempts lie in 1..attempt, never decrease, repeat only in a failed row, are below attempt while running, end in attempt when retryable or failed |
| `Batches.RetryAllOrNothing` | driver/redisdriver/driver.go:287-339 | one missing or disallowed id leaves the whole store as it was |
| `Batches.CancelAllOrNothing` | driver/redisdriver/driver.go:341-381 | the same for Cancel |
| `Batches.BatchIsASet` | driver/redisdriver/driver.go:287-381 | order and repetition of the ids do not matter |
| `Batches.BatchIsSingles` | driver/redisdriver/driver.go:287-381 | an accepted batch does what the single call does, applied once to each distinct id in any order |
| `EnqueueBatch.RedisEnqueueBatch` | driver/redisdriver/driver.go:80-115 | success: every caller row gets its new consecutive id; refusal or a nil row: store, counter and every caller row unchanged |
| `EnqueueBatch.InsertRows` | driver/sqldriver/driver.go:343-369 | the insert loop succeeds if and only if no uuid clashes and no statement fails, and until then has changed nothing but ids of caller rows |
| `EnqueueBatch.RestoreIds` | driver/sqldriver/driver.go:318-330 | the deferred clean-up puts back every caller row's id, also when a row is listed twice |
| `EnqueueBatch.SqlEnqueueBatch` | driver/sqldriver/driver.go:308-376 | the transaction stores and numbers all rows, or leaves the table and every caller row as before, whatever failed |
| `EnqueueBatch.InsertedUuids` | driver/sqldriver/driver.go:308-376 | inside the transaction the uuid constraint sees the old rows and the earlier rows of the batch |
| `Dispatch.LastOptionWins` | job.go:102-148 | of several dispatch options for one thing the last wins, for all six options; metadata accumulates by key |
| `Dispatch.NoOptionNoChange` | tasker.go:267-271 | without an option of a kind its value is empty, so the job or the configuration decides |
| `Dispatch.NoOtherMetadata` | job.go:141-148 | a row's options carry no metadata key that no option names |
| `Dispatch.BuildJobRow` | tasker.go:261-332 | fails only if the job cannot be marshalled; else a fresh row with option over job over default in every column, scheduled exactly if due in the future |
| `Dispatch.Chain` | tasker.go:178-203 | every job but the first is pending and names its predecessor's uuid; the rows are fresh and otherwise as if dispatched singly |
| `Dispatch.PendingWaits` | tasker.go:184-196 | over every run a pending row stays exactly as it is until it is cancelled or pruned |
| `Worker.ProcessJob` | pool.go:294-374 | the verdict: completed exactly on success, retryable exactly when attempts are left, the deadline is not reached and the hook agrees, after the job's own or the default backoff; the error reported is that of decoding, of the hook or of the run |
| `Worker.VerdictFitsClaim` | state_machine.go:37-55 | on a claimed row the verdict is retryable if and only if another claim is allowed |
| `Worker.StartableIffReady` | driver/redisdriver/driver.go:117-132 | in a consistent store some claim starts a job if and only if it is claimable with attempt < max_attempts |
| `Worker.RetriesAreNeverStranded` | pool.go:243-374 | over every run, whatever the steps, in which jobs are put off only while the stored row allows another claim, every retryable job can be claimed again |
| `Worker.PutOffStrandsIff` | driver/redisdriver/driver.go:244-285 | a put-off leaves the job startable if and only if the stored attempt has not reached max_attempts |
| `Worker.HolderDoesNotStrand` | pool.go:243-374 | a worker that puts off a job on its verdict about the row it was handed does not strand it if its claim has not ended meanwhile |
| `Worker.StrandingNeedsNewerClaim` | pool.go:243-374 | a put-off that strands reports a claim that was ended by another step and followed by a newer claim; without another report in between, that step was a stale requeue |
| `Worker.StrandedStays` | driver/redisdriver/driver.go:117-132 | a stranded job stays exactly as it is until it is retried, cancelled, failed or pruned |
| `Worker.FailingJobRunsMaxAttempts` | pool.go:243-374 | over every run in which a job always fails it is claimed attempt times, ends failed only after exactly max_attempts claims, and its errors are numbered 1 to max_attempts; until then it can go on |
| `WorkerLoop.Execute` | pool.go:243-292 | if the job still runs in the store, its row takes the verdict: completed now with its errors unchanged, or retryable and due after the chosen delay with one more error, or failed now with one more error carrying the verdict's text; no other row changes |
| `WorkerLoop.DriveToFailure` | pool.go:194-234 | the claim-execute loop on a queue of any number of failing jobs ends; every job that could be claimed was claimed exactly as often as it had attempts left and is failed with errors 1 to max_attempts in order, every other job is as it was, and the number of claims is the sum of the attempts left |
| `Backoff.Fibonacci` | state_machine.go:93-102 | the loop computes the recursive Fibonacci number modulo 2^64 in two's complement |
| `Backoff.ComputeBackoff` | state_machine.go:61-91 | the shift-multiply-clamp code computes the ideal delay wrapped to int64, then capped |
| `Backoff.ExactWhileFits` | state_machine.go:61-91 | while the ideal delay fits int64 the result is the ideal delay, capped |
| `Backoff.DelayGrowsWhileFits` | state_machine.go:61-91 | and delays are non-negative, at most the cap, and never shrink with the attempt |
| `Backoff.OtherStrategies` | state_machine.go:81-91 | a fixed delay is the smaller of base and cap, and an unknown strategy backs off exponentially |
| `Backoff.DefaultDelays` | job.go:84-90 | the default delays are 2s, doubling up to attempt 16, then 24h up to attempt 33 |
| `Backoff.FibonacciDelays` | job.go:92-98 | the Fibonacci delays are 1s, 1s, then each the sum of the two before up to attempt 25, then 24h up to attempt 49 |
| `Backoff.DefaultFits` | job.go:84-90 | the default configuration fits if and only if the attempt is at most 33 |
| `Backoff.FibonacciFits` | job.go:92-98 | the Fibonacci configuration fits if and only if the attempt is at most 49 |
| `Backoff.FirstWrappedDelays` | job.go:84-98 | the delays at attempts 34 and 50 are negative, with their values |
| `Backoff.DefaultVanishes` | state_machine.go:61-91 | from attempt 55 on the default delay is 0 |
| `Backoff.DefaultIsRightIff` | state_machine.go:61-91 | for which attempts the default delay equals the capped ideal, both directions |
| `Locks.SqlLocks.AcquireLock` | driver/sqldriver/driver.go:1124-1154 | an uninterrupted call is granted exactly if the key has no row, the caller's own or an expired one; then the row is the caller's until `now + ttl` and nothing else changes; it does what the Redis script does |
| `Locks.OthersMustWait` | driver/sqldriver/driver.go:1124-1154 | after a grant another node is refused before `now + ttl` and let in from then on |
| `Locks.UninterruptedCall` | driver/sqldriver/driver.go:1124-1154 | in the interleaved system a call left alone ends within four statements, granted exactly as above, with the same row and expiry |
| `Locks.SqlLocks.ReleaseLock` | driver/sqldriver/driver.go:1156-1161 | removes the caller's own row of that key and nothing else |
| `Locks.AtMostOneHolder` | driver/sqldriver/driver.go:1124-1161 | under every interleaving no two nodes hold one key at the same time |
| `Locks.FallbackNeverGrants` | driver/sqldriver/driver.go:1144-1150 | the closing SELECT never grants |
| `Locks.RowLeavesOnlyBy` | driver/sqldriver/driver.go:1124-1161 | a holder's row disappears only by its own release or by a caller whose captured now has reached the expiry, and changes only by the holder's own renewal |
| `Locks.GrantsLikeTheScript` | driver/redisdriver/driver.go:617-628 | a grant happens only where the atomic script would grant, when every other holder's time is up |
| `Locks.HeldUntilExpiry` | driver/sqldriver/driver.go:1124-1161 | whatever others do, the holder's row stays until the granted expiry |
| `Locks.LeasesLastTheirTtl` | driver/sqldriver/driver.go:1124-1154 | under every interleaving a lease ends exactly the ttl after the time captured when the call that got it began |
| `Leadership.SqlLeader.LeaderElection` | driver/sqldriver/driver.go:1072-1105 | an uninterrupted election is won if and only if no other node has a running lease |
| `Leadership.UninterruptedElection` | driver/sqldriver/driver.go:1072-1105 | in the interleaved system an election left alone ends within three statements, won exactly if there is no leader, the node leads or the heartbeat is a ttl old |
| `Leadership.ResignationHandsOver` | driver/sqldriver/driver.go:1117-1122 | after the leader resigns the next election is won at once, however fresh the lease was |
| `Leadership.ResignationOfOthers` | driver/sqldriver/driver.go:1117-1122 | in every reachable state a resignation by any other node changes nothing for the leader, and that node was not leading |
| `Leadership.AtMostOneLeader` | driver/sqldriver/driver.go:1072-1105 | under every interleaving, from an empty table or one with a row left by an earlier process, at most one node believes to lead at any moment |
| `Leadership.FallbackNeverWins` | driver/sqldriver/driver.go:1102-1104 | the closing SELECT never makes a leader |
| `Leadership.LeasesAreDisjoint` | driver/sqldriver/driver.go:1072-1105 | leases [now, now + ttl) of different leaders are disjoint and in order if nobody resigned in between |
| `Leadership.LeasesDisjointIff` | driver/sqldriver/driver.go:1072-1105 | leases of different nodes are disjoint unless the earlier leader resigned, if and only if every INSERT after a resignation captured its time at or after the end of the last lease that another node had not given up |
| `Leadership.ThirdPartyResignation` | driver/sqldriver/driver.go:1117-1122 | a reachable state with overlapping leases of two nodes neither of which resigned |
| `TextArray.Encode` | driver/sqldriver/driver.go:1302-1312 | prints every item quoted, backslashes and quotes escaped |
| `TextArray.Decode` | driver/sqldriver/driver.go:1314-1362 | the flag-driven loop computes the character-wise scanner |
| `TextArray.DecodeInvertsRender` | driver/sqldriver/driver.go:1314-1362 | parsing inverts every rendering in which items are quoted, or bare, with any space around, where that is safe |
| `TextArray.RoundTrip` | driver/sqldriver/driver.go:1302-1362 | decode after encode is the identity on all lists of strings |
| `TextArray.JsonIsTaken` | driver/sqldriver/driver.go:1314-1320 | a text that begins with a bracket, after space, and parses as JSON decodes to the parsed list |
| `TextArray.TrimBare` | driver/sqldriver/driver.go:1330-1337 | trimming a bare item takes the space around it and nothing of its text |
| `JobFilter.LikeIsContains` | driver/redisdriver/driver.go:771-772 | for a text without metacharacters LIKE '%text%' is case-insensitive containment |
| `JobFilter.CaseDoesNotMatter` | driver/redisdriver/driver.go:771-772 | changing the case of an ASCII letter of the search leaves the matching rows as they are |
| `JobFilter.FindsLetters` | driver/redisdriver/driver.go:771-772 | a search for one letter finds it in either case, and no other character |
| `JobFilter.NamesAreRead` | types.go:9-31 | the eight stored state names and the states correspond one to one |
| `JobFilter.SearchAgreesIff` | driver/sqldriver/driver.go:805-811 | LIKE and containment agree on all texts if and only if the search has no metacharacter |
| `QueryBuilder.AppendIn` | driver/sqldriver/driver.go:771-803 | an IN block adds one placeholder per value, bound to that value, and argIdx stays one past the arguments |
| `QueryBuilder.BuildWhere` | driver/sqldriver/driver.go:766-831 | placeholders are 1, 2, ... one per argument, and the conditions keep their meaning however arguments are appended |
| `QueryBuilder.BuildQuery` | driver/sqldriver/driver.go:765-856 | LIMIT and OFFSET bind the last two arguments, data query and count query select exactly the rows the filter describes, and only a known column name gets into the ORDER BY text |
| `QueryBuilder.FiltersAgreeIff` | driver/redisdriver/driver.go:756-773 | SQL and Redis select the same rows for a filter if and only if its search is plain or every kind listed is found either way |
| `Pagination.FilterInPlace` | driver/redisdriver/driver.go:403-408 | the loop that overwrites the list it reads leaves exactly the matching rows in front, in order |
| `Pagination.SortInPlace` | driver/redisdriver/driver.go:775-802 | the in-place stable sort computes the insertion-sorted list and leaves the rest alone |
| `Pagination.SortedRows` | driver/redisdriver/driver.go:775-802 | sorting loses nothing and repeats nothing |
| `Pagination.OrdersAgreeIff` | driver/redisdriver/driver.go:787-791 | the drivers sort by the same column and direction if and only if both know the column, or neither does and ascending order is not asked for |
| `Pagination.LessIsTotal` | driver/redisdriver/driver.go:792-801 | the comparator with its id tie-break is a strict total order for every field and direction |
| `Pagination.OrderedIsUnique` | driver/redisdriver/driver.go:775-802 | a set of rows has one ordered arrangement, so any correct sort gives it |
| `Pagination.QueryJobs` | driver/redisdriver/driver.go:394-426 | total is the number of matching rows, the page is the slice of the listing at the offset (at least 0) with the limit (50 if not positive), and when the slice expression panics |
| `Pagination.HashOrderDoesNotShow` | driver/redisdriver/driver.go:394-409 | listing and total do not depend on the order in which the hash is read |
| `Pagination.ListingIsComplete` | driver/redisdriver/driver.go:394-409 | the listing is ordered and holds every matching job exactly once and nothing else |
| `Pagination.ListingOrder` | driver/redisdriver/driver.go:775-802 | for each sort column and the default: the earlier of two rows has the smaller value for "asc" and the greater for any other order, texts in dictionary order, and equal values are ordered by id in the same direction |
| `Pagination.CompareIsDictionary` | driver/redisdriver/driver.go:778-782 | text comparison is dictionary order, stated on the first differing position |
| `Pagination.PagesTile` | driver/redisdriver/driver.go:410-425 | pages at 0, L, 2L, ..., each read in another hash order, concatenate to the whole listing |

## Left out

- web/, cmd/, middleware.go, provider.go, batch/, supervisor/, scheduler/ and the coordinator's tickers: thin layers over the operations modelled here, with easy claims only.
- Redis and SQL clients, connections, migrations: every script, statement or transaction is taken as one atomic step that either happens or does not.
- JSON: rows are stored as records. Empty-table encoding, number precision and timestamp formats are not modelled; scores are exact integers, not doubles.
- Column unique_key, which no dispatch sets, and the failed-jobs table.
- Goroutines, channels, contexts, timeouts and logging in the pool; a job's run is summarised by how it ended. The middleware chain and the handle hooks are part of that summary.
- Statistics, node registry and heartbeats: reporting, or not kept in step by the source itself.
- IsLeader over SQL uses a fixed 15 seconds instead of the ttl; it is not modelled.
- Finishing is not fenced: Complete, Fail and ScheduleRetry take only an id, so a late worker can end a newer claim. The run laws count such steps as endings of the claim then running.
- Refinement.DriversAgreeIff: compares all columns but started_at, attempted_by, and node_id and attempted_at of rows that are not running, because the drivers maintain those differently: SQL clears node_id on every ending and attempted_by on Retry, and clears attempted_at and started_at on stale requeue, and Redis does not.
- Refinement.DriversAgreeIff: lets the database hand out the ids that Redis counts; gaps in a database sequence after a failed insert are modelled in EnqueueBatch only.
- Refinement.DriversAgreeIff: a SQL batch reads the clock once per id, the model once per batch; rows with an empty uuid, which only Redis refuses, are outside its runs because a dispatch never builds one.
- Refinement.OutcomesAgreeIff: compares whether a step was accepted, not which error was reported; a single SQL Retry or Cancel reports not-found where Redis reports an invalid transition. The row that a single call reads back in a second statement is not modelled.
- Worker.ProcessJob: the text of a decode or hook error is not that of the source, and running the job is a parameter.
- WorkerLoop.DriveToFailure: one worker polls the queue, at a time when some job of it is due; runs with any number of workers are covered by Worker.FailingJobRunsMaxAttempts.
- JobFilter.LikeIsContains: case folding is that of ASCII letters. SQL IN and tag conditions are taken as exact equality, which a case-insensitive MySQL collation is not.
- QueryBuilder.BuildQuery: conditions are syntax trees, not text. SQL ordering has no id tie-break, so the page laws are proved for Redis only.
- Pagination.SortInPlace: sorts by insertion, which is how the library's stable sort handles short lists; by OrderedIsUnique any stable sort gives the same list when ids are distinct.
- Locks.AtMostOneHolder: assumes that clocks of nodes may lag but not run ahead, that a node makes one call at a time per key, and that UPDATE reports matched rows; MySQL reports changed rows only, so that a renewal to the same expiry there is answered by the closing SELECT.
- Leadership.AtMostOneLeader: assumes one common ttl, one call at a time per node and clocks that lag at most; LeasesAreDisjoint needs of the clocks only that no node's clock goes back.
- Leadership.FallbackNeverWins: assumes that UPDATE reports matched rows; MySQL reports changed rows only, so that a re-election with an equal timestamp there is answered by the closing SELECT.
