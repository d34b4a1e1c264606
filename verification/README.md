# gjobs: a verified model of the job queue

gjobs is a persistent job queue: a table of jobs behind a storage interface, a worker pool that
polls the table, and a scheduler that turns intervals into jobs. This project models those parts
and proves what holds over every run of them.

## What is modelled

The in-memory storage is a class over a map of heap cells. Its methods loop over the map in an
arbitrary order, delete while ranging, sort, truncate and write through pointers. The SQLite
storage is a class over a table of rows with NULLs; each SQL statement, and each transaction, is
one change of the table, and a statement that would break the primary key or the partial unique
index fails. Both classes are proved against one set of functions on finite maps (`StoreSpec`).

Those functions are the steps of every run considered:

- `StoreRuns` are arbitrary sequences of storage calls, as the queue can make them: jobs enter
  only as `enqueueRaw` builds them, with fresh IDs.
- `Pool` interleaves the poller (sample, claim, take a slot, count, spawn), any number of worker
  goroutines (register, run, decide from the snapshot, mark, deregister, release, leave), callers,
  `CancelAll`, stop, process death and restart. Its storage calls are steps of `StoreRuns`
  (`Pool.PoolRunIsStoreRun`), so the store theorems hold for it.
- `CronRuns` interleaves registration, scans, the advance and the later enqueue, and process death.
- `Completion` is `Pool` over SQLite with each completion split into its SELECT and its UPDATE; without
  the SELECTs its runs are runs of `Pool` (`Completion.SqlPoolRunIsPoolRun`).

`StorageCalls` makes the queue's calls on the two real classes and shows that each is the step it asks
for, with the reply of that step.

Time is an integer number of nanoseconds and the clock an input; theorems that need it say that it
does not go backwards. A handler returns success or an error; a panic is an error.

| files | content |
|---|---|
| `Types`, `StoreSpec`, `Effects` | values; what each storage operation means on a map of jobs; the same written out for callers |
| `MemoryStorage`, `SqliteStorage` | the two storages, as classes |
| `StoreRuns`, `Simulation`, `StorageCalls` | runs of a store; SQLite against memory; the classes against the runs |
| `Pool`, `PoolSafety`, `CancelRegistry` | the worker pool, its invariants, its cancel registry |
| `PoolFidelity`, `PoolProgress` | what workers run and store is what was ordered and returned; what polls claim, and that jobs can finish and pools drain |
| `Completion` | the two-statement completion under interleaving |
| `PoolHistory`, `PoolSpacing`, `PoolTermination` | attempts and JobErrors, retry spacing, bounded work |
| `Backoff` | retry arithmetic |
| `CronRuns`, `Queue` | schedules over whole runs; `enqueueRaw`, the scheduler, the start sequence |

## Where the code differs from its own text

- README.md:252 says missed runs fire once on restart. queue.go:241-245 re-registers every buffered
  schedule at start and cron.go:45-51 sets its next run to now plus the interval, so a missed run
  is dropped. `Queue.RestartResetsSchedules` and `CronRuns.FiresAfterAnchor` state what the code does,
  `Queue.MissedRunIsDropped` is such a run.
- job.go:9 says the delay stays constant once at the cap. worker.go:218 converts a float to an
  int64, and past 2^63 Go leaves the result to the implementation. `Backoff.ClosedFormExactlyInRange`
  gives the exact range, `Backoff.DefaultRangeIs29Attempts` the default one, and
  `Backoff.ThirtiethDelayMayBeNegative` a conversion, allowed by the language, that breaks the claim.
- options.go:214-222 promises a lock of the TTL rounded up to whole seconds. sqlite.go:160 adds a
  second less a nanosecond before dividing; within that distance of the largest duration the sum
  wraps and the lock is lost. `SqliteStore.TtlRoundsUp` is the exact condition, `Simulation.SqliteLockLasts`
  what it means for enqueues, `SqliteStore.LargestTtlIsLost` such a TTL.

## Model

| member | source | states |
|---|---|---|
| MemoryStore.MemoryStorage.Enqueue | memory.go:27-33 | the job is stored in a fresh cell, under its ID, with nothing else changed |
| MemoryStore.MemoryStorage.EnqueueDedup | memory.go:37-108 | expired rows of the key are purged, a row of least rank blocks; written out on the rows before and after: which rows stay, that the reported conflict is a row reserving the key with the status it has, and the action that its status and the mode call for |
| MemoryStore.MemoryStorage.Resolve | memory.go:85-107 | without a blocking row it inserts; with one it reports that job and its status, and skips, or puts the new job in its place |
| MemoryStore.MemoryStorage.DropExpired | memory.go:51-62 | deleting while ranging removes exactly the finished rows of the key whose lock is not live, whatever the order |
| MemoryStore.MemoryStorage.FindConflict | memory.go:64-83 | the row found is of the key and none of the key ranks before it; none is found only if there is none |
| MemoryStore.MemoryStorage.Claim | memory.go:111-137 | claims min(limit, due) due rows in run-time order, overtakes no earlier due row, changes nothing but their status and update time (payload and all other fields stay), no other row, and returns copies equal to the updated rows |
| MemoryStore.MemoryStorage.SelectDue | memory.go:116-127 | filter, sort and truncate give such a batch without changing a job |
| MemoryStore.MemoryStorage.CollectDue | memory.go:116-121 | ranging finds each due row once, and only due rows |
| MemoryStore.MemoryStorage.StartAll | memory.go:129-136 | exactly the batch becomes running through its pointers, every field but status and update time kept; the results are fresh copies in batch order |
| MemoryStore.SortByRunAt | memory.go:122-124 | the sort is ordered by run time and a permutation |
| MemoryStore.TruncateIsChoice | memory.go:125-127 | the first `limit` of the sorted due rows overtake none of those cut off |
| MemoryStore.MemoryStorage.MarkDone | memory.go:139-154 | the row is done with expiry now + TTL if the TTL is positive; a missing row is an error and changes nothing |
| MemoryStore.MemoryStorage.MarkFailed | memory.go:156-178 | error text stored and attempts one more; with a retry time the row is pending and due at exactly that time, without it failed with its lock expiry; all else as before; a missing row is an error |
| MemoryStore.MemoryStorage.RecoverStuck | memory.go:181-192 | exactly the running rows become pending |
| MemoryStore.MemoryStorage.RetryJob | memory.go:289-306 | a failed row becomes pending now with no attempts; missing or not failed is the respective error and changes nothing |
| MemoryStore.MemoryStorage.Stats | memory.go:245-262 | each counter is the number of rows of its status |
| MemoryStore.StatsAddUp | memory.go:245-262 | the four counters sum to the number of rows |
| MemoryStore.MemoryStorage.UpsertCron | memory.go:207-213 | the entry replaces the stored one of that name |
| MemoryStore.MemoryStorage.DueCrons | memory.go:215-227 | exactly the entries whose next run has come, each once |
| MemoryStore.MemoryStorage.UpdateCronRun | memory.go:229-239 | sets last and next run of that entry only; a missing name is an error |
| Effects.DedupHasEffect | memory.go:51-107 | the enqueue the runs are built from keeps exactly the rows of other keys and those reserving the key and not replaced, stores the job exactly on `Inserted` and `Replaced`, and reports truly |
| Effects.FailedHasEffect | memory.go:164-177 | the failure the runs are built from sets run time, status, error, attempts, update time and expiry as written out, and nothing else |
| StoreRuns.StepIsPointwise | memory.go:111-192 | a call that inserts nothing treats each row by itself |
| StoreRuns.DedupShape | memory.go:51-103 | under one row per key an enqueue either leaves the rows as they were or puts its job in place of all rows of its key |
| StoreRuns.StepKeepsStoreInv | memory.go:37-306 | every call keeps one row of any status per non-empty key; a finished row with a positive TTL has an expiry, and a row without one never has (a retried row may keep its old expiry) |
| StoreRuns.RunKeepsOneRowPerKey | job.go:40-42 | hence in every reachable state there is at most one row, and so at most one active row, per key, `RetryJob` included |
| StoreRuns.ConflictIsTheRow | memory.go:64-85 | the conflict is the one row of the key, unless that row was just purged |
| StoreRuns.ConflictPrefersActive | memory.go:64-83 | among several rows a running one blocks before a pending one, and that before a finished one |
| StoreRuns.AcceptedIffStored | storage.go:46-57 | an enqueue reports inserted or replaced exactly when its job is in the store afterwards |
| StoreRuns.LockTableRefinement | job.go:40-52 | over every run the store refines a lock table that knows only the last accepted job per key, its TTL and its completion time: same answers, matching rows |
| StoreRuns.EnqueueRule | options.go:214-222 | Ignore accepts exactly if no job was accepted for the key or the last one is finished and its TTL is not positive or has passed since completion; Replace refuses exactly while it is running |
| StoreRuns.KeyRowIsLastAccepted | memory.go:93-103 | the row of a key, if any, is the last job accepted for it |
| StoreRuns.AnswersAreTrue | storage.go:75-81 | in any run an enqueue is told `Inserted` and no conflict when nothing reserves the key, otherwise the one row of the key and its status, which is gone afterwards exactly on `Replaced` |
| StoreRuns.RowsKeepTheirOrder | memory.go:111-192 | every row of a run has the type, payload, attempts limit, creation time, key and TTL that the one call inserting it carried |
| StoreRuns.LockLasts | options.go:214-222 | in any run the key of the finished job that a given call stored is refused to Ignore exactly until its own TTL has passed since completion |
| StoreRuns.StepBalance | memory.go:51-103 | one call changes the set of rows by exactly what it purges, replaces and accepts |
| StoreRuns.NoAcceptedJobLost | memory.go:37-108 | over every run accepted jobs are the present, the purged and the replaced ones, disjoint and counted |
| StoreRuns.RowLeavesOnlyByDedup | memory.go:51-103 | a row leaves only when finished with no live lock, or for an accepted Replace of its key while not running; keyless rows never leave |
| StoreRuns.ClaimsAreDisjointUnlessRequeued | memory.go:111-137 | between two claims of one job a retry, recovery or dashboard retry of it took place |
| StoreRuns.RecoveryRequeuesRunning | memory.go:181-192 | nothing is left running, pending is old pending plus old running, in number too, and nothing but status and update time changes |
| StoreRuns.RetriedIsClaimable | memory.go:289-306 | the dashboard's retry adds exactly a failed row to the due rows at once, with no attempts used and no second row of its key |
| SqliteStore.SqliteStorage.Enqueue | sqlite.go:124-146 | stores any job as it is, its TTL in seconds; fails, changing nothing, exactly if the ID is taken or an active row of its key would make two in the index |
| SqliteStore.SqliteStorage.EnqueueDedup | sqlite.go:178-247 | for any job, on the decoded table, the same effect and report written out as in memory; fails, rolling back, exactly if it comes to insert and the ID is taken by another row |
| SqliteStore.SqliteStorage.Resolve | sqlite.go:220-246 | given the blocking row found, reports it with its status and inserts, replaces or skips as mode and status say |
| SqliteStore.SqliteStorage.SelectBlocking | sqlite.go:204-215 | the query returns a row of the key of least rank, none only if there is none |
| SqliteStore.SqliteStorage.SelectDue | sqlite.go:257-261 | the subquery returns as many earliest due rows as the limit allows |
| SqliteStore.SqliteStorage.Claim | sqlite.go:251-270 | never fails; the batch is a legal claim, only its status and update time change, and the scanned jobs are the updated rows |
| SqliteStore.SqliteStorage.MarkDone | sqlite.go:274-276 | alone, decoded, the in-memory completion; a missing row is no error |
| SqliteStore.SqliteStorage.MarkFailed | sqlite.go:281-292 | alone, decoded, the in-memory failure, written out: due at exactly the retry time, error stored, one more attempt; rescheduling fails, changing nothing, only if a rival row of its key exists |
| SqliteStore.SqliteStorage.MarkCompleted | sqlite.go:297-330 | with any other changes to the table between SELECT and UPDATE: a row missing at the SELECT is left to them; otherwise the row is completed with the expiry of the TTL read, which is one atomic completion of the table as they left it if they kept that TTL |
| SqliteStore.SameTtlSameExpiry | sqlite.go:300-314 | the expiry computed from one table is right for another in which the job reads the same TTL |
| SqliteStore.SqliteStorage.RecoverStuck | sqlite.go:333-339 | decoded, the in-memory recovery, and the index still holds |
| SqliteStore.SqliteStorage.RetryJob | sqlite.go:444-453 | decoded, the in-memory retry without its errors; the index stops it only if a rival row of its key exists |
| SqliteStore.SqliteStorage.UpsertCron | sqlite.go:351-364 | a known name keeps last run and creation time; schedule and next run are replaced |
| SqliteStore.SqliteStorage.DueCrons | sqlite.go:367-378 | exactly the entries whose next run has come, each once |
| SqliteStore.SqliteStorage.UpdateCronRun | sqlite.go:381-387 | sets last and next run of that entry only; a missing name is no error |
| SqliteStore.OneRowPerKeyFitsIndex | sqlite.go:43-47 | one row per key implies the partial unique index |
| SqliteStore.ViewPurge | sqlite.go:192-200 | the DELETE, decoded, is the in-memory purge |
| SqliteStore.ViewSelected | sqlite.go:204-215 | the SELECT may return exactly the rows the in-memory search may find |
| SqliteStore.ViewClaimed | sqlite.go:253-264 | the claiming UPDATE, decoded, changes nothing but status and update time of the batch, and keeps the index |
| SqliteStore.InsertFits | sqlite.go:134-146 | inserting under a new ID succeeds if no active row stands in the way; the row decodes to the job with its TTL rounded |
| SqliteStore.InsertBlocked | sqlite.go:43-47 | inserting an active job beside an active row of its key violates the index |
| SqliteStore.StoredKeepsJob | sqlite.go:134-146 | a stored job reads back with every field as it was, but for the TTL in whole seconds and an error text, which INSERT omits |
| SqliteStore.TtlRoundsUp | sqlite.go:155-162 | the stored TTL is at least the requested one and less than a second more if and only if the rounding sum fits an int64; past that the lock is lost; whole seconds are kept |
| SqliteStore.LargestTtlIsLost | sqlite.go:155-162 | the largest duration is stored as a non-positive number of seconds |
| Simulation.SameChoices | sqlite.go:204-261 | a conflict or batch is open to SQLite exactly when it is open to the in-memory storage |
| Simulation.BackendsStepTogether | sqlite.go:178-330 | from agreeing states the same call, TTL rounded, violates no constraint, gives the same answer and ends in agreement |
| Simulation.AgreeingRows | sqlite.go:461-491 | agreement means that each row decodes to the in-memory job, field by field, a non-positive TTL reading as none |
| Simulation.BackendsAgree | sqlite.go:127-339 | any in-memory run can be made on SQLite, TTLs rounded: agreeing rows, the same answers, and no statement trips the unique index |
| Simulation.WholeSecondRunsAgree | memory.go:35-37 | any in-memory run with whole-second TTLs can be made on SQLite with the very same calls |
| Simulation.SqliteRunIsMemoryRun | sqlite.go:127-453 | conversely, every run of SQLite, whatever its statements choose to return, is step by step an in-memory run of the calls alike in all but TTL rounding; no statement fails, rows agree, answers are the same |
| Simulation.SqliteRunIsRoundedRun | sqlite.go:155-162 | with no assumption on TTLs, that run is the one with the TTLs as stored |
| Simulation.WholeSecondSqliteRun | memory.go:35-37 | with whole-second TTLs it is the run of the very same calls |
| Simulation.SqliteLockLasts | options.go:214-222 | on every run of SQLite an Ignore enqueue is refused before completion + TTL and accepted from a second after that on, if the rounding sum fits an int64; if it does not, the key is free at completion |
| Completion.CompletionIsAtomic | sqlite.go:297-330 | in the pool over SQLite, with any number of workers between their SELECT and their UPDATE, each UPDATE has exactly the effect of one atomic completion of the table as it then is, at the clock read before the SELECT |
| Completion.SystemFollows | sqlite.go:297-330 | whatever the pool can do next the system over SQLite can, a completion by its SELECT and then its UPDATE |
| Completion.DecodedStep | sqlite.go:178-453 | on the decoded table a SQLite call succeeds and is the in-memory call with the TTL as stored |
| Completion.StepKeepsSystem | sqlite.go:297-330 | each event keeps every remembered TTL good for the job its worker holds |
| Completion.SqlPoolRunIsPoolRun | sqlite.go:297-330 | taking the SELECTs out of any run of the pool over SQLite leaves a run of the pool over the in-memory storage that ends in the decoded table, so every theorem about pool runs holds for it |
| Completion.NoStatementFails | sqlite.go:43-47 | no statement of such a run ever violates a constraint |
| Completion.SeenInOrder | worker.go:171-180 | if the clock of the run does not go backwards, neither does that of the pool run left |
| Pool.PoolRunIsStoreRun | worker.go:94-191 | every pool run, seen from storage, is a store run |
| Pool.ReachableStoresAreSound | job.go:40-42 | in every reachable state of the queue there is one row per key |
| Pool.CopiesOf | memory.go:129-136 | the batch the poller gets is, in order, the updated rows |
| PoolSafety.RunningRowStays | memory.go:93-97 | no call but recovery or a mark of that job touches a running row; in particular no enqueue deletes it |
| PoolSafety.StepKeepsHold | worker.go:94-191 | each of the twenty events keeps the exclusive-hold invariant |
| PoolSafety.ExclusiveHold | worker.go:94-191 | while the pool is up, claimed and unmarked jobs are pairwise distinct and are exactly the running rows, and each snapshot equals its row |
| PoolSafety.MarksAlwaysFindTheirRow | worker.go:129-187 | a worker's mark finds its row, running, and ends its run: the not-found branch is never taken |
| PoolSafety.StepKeepsCounts | worker.go:94-121 | each event keeps semaphore = slots in use and wait group = poll loop plus workers |
| PoolSafety.SemaphoreSafety | worker.go:94-121 | slots taken plus jobs to dispatch never exceed the concurrency, so the send in `dispatch` never blocks, and at most so many rows are running; what polls do claim is `PoolProgress.ClaimsFillTheFreeSlots` |
| PoolSafety.GracefulDrain | worker.go:70-92 | the wait group counts poll loop and workers throughout; at zero nothing is claimed or executing and no row is running |
| PoolSafety.RestartRecovers | queue.go:224-230 | after death at any step and a start, nothing is running, pending is old pending plus old running, attempts and run times are kept, and all invariants hold |
| PoolSafety.StepKeepsCancels | worker.go:133-146 | each event keeps every registry entry naming a registered, not yet deregistered worker of its type and job |
| PoolSafety.CancelAllIsSound | worker.go:195-205 | it cancels only such workers of the type, one per entry, returns at most their number, and empties the type |
| PoolSafety.CancelAllIsComplete | worker.go:133-146 | it does cancel every worker of the type that is registered, unless since then a CancelAll of the type or another worker of the same job has touched the registry |
| PoolSafety.CancelledAtMostOnce | worker.go:195-205 | no worker is cancelled by two calls in one process |
| PoolSafety.HeldRowIsStable | worker.go:123-187 | while a worker holds its job, the row stays as claimed, TTL included |
| PoolFidelity.JobsKeepTheirOrder | worker.go:110-124 | every job in a batch or with a worker, still running or already marked, has the type, payload and limits some call ordered |
| PoolFidelity.DecisionOrigin | worker.go:164-189 | what a worker decides is the outcome of its own run of the job it holds, with retry rule and retry time written out |
| PoolFidelity.MarksTellTheOutcome | worker.go:157-189 | every mark stores how that worker's run ended: done; or the handler's error, one more attempt and, with attempts left, due exactly from the failure plus the delay on; or failed |
| PoolProgress.PollClaims | worker.go:97-112 | after a poll that sees free slots, exactly the legal batches of min(free slots, due jobs) can be claimed |
| PoolProgress.ClaimsFillTheFreeSlots | worker.go:97-112 | every claim of a run takes min(slots free at its own sample, jobs due at the claim), and no other poll comes in between |
| PoolProgress.DueJobCanFinish | worker.go:94-191 | whenever the poller is idle with a slot free, any due job with a handler can be claimed, spawned, run and done by the pool's own steps |
| PoolProgress.PendingJobCanFinish | worker.go:94-191 | so it can from every reachable state whose poll loop lives, whatever the poller and the workers are at |
| PoolProgress.CrashedJobCanFinish | queue.go:224-249 | after a crash at any step any pending or running job can finish after the next start |
| PoolProgress.WorkerLeaves | worker.go:119-190 | any worker, at any point, can go on to mark, deregister, release and leave, ending its own job and touching no other |
| PoolProgress.PoolCanDrain | queue.go:264-282 | from every reachable state of a live process some continuation stops it gracefully: poll loop ended, wait group zero, no row running |
| CancelRegistry.Registry.Register | worker.go:135-140 | the entry of type and job names the worker; other types are untouched |
| CancelRegistry.Registry.Deregister | worker.go:141-146 | the entry of type and job is gone, also if the type is; other types are untouched |
| CancelRegistry.Registry.CancelAll | worker.go:195-205 | calls exactly the cancel funcs of the type, once per entry, returns their number and forgets the type |
| PoolHistory.StepKeepsAccount | worker.go:171-189 | each event keeps attempts equal to recorded failures and within what was granted |
| PoolHistory.AttemptAccounting | worker.go:238-245 | attempts equal the recorded failures since insertion or retry; an active job has attempts left; with a handler a job is dead-lettered exactly at max(1, MaxAttempts), never when unlimited |
| PoolHistory.JobErrorsCountUp | job.go:58-64 | without crashes the JobErrors of a job are numbered 1, 2, ..., k, one per failure, Final on the last only and only if dead-lettered |
| PoolHistory.JobErrorsStayConsecutive | job.go:58-64 | after crashes the numbers are still consecutive and end at the failures so far |
| PoolSpacing.StepKeepsSpacing | worker.go:171-180 | each event keeps every retry no earlier than the failure before it plus its delay |
| PoolSpacing.RetrySpacing | worker.go:171-180 | over every run, crashes included, attempt n+1 starts no earlier than failure n plus `calcBackoff(n)`, and the delays add up |
| PoolSpacing.DeadLetterTakesAllDelays | worker.go:171-189 | a job dead-lettered after M attempts took at least the first M-1 delays from its first start |
| PoolSpacing.TotalDelayInRange | worker.go:209-223 | within the exact range those delays sum to the sum of min(base * 2^(k-1), cap), base and cap being the type's own where positive |
| Pool.TypeDelay | worker.go:171-174 | the delay of a type is by the fields of its own definition where they are positive, else by the pool's |
| PoolSpacing.RecoveredIsClaimableAtOnce | queue.go:224-226 | a row caught running by a crash is due the moment it is recovered |
| PoolTermination.MovedCreditDrops | worker.go:164-189 | while the pool is up, a claim or a mark lowers the credit of its row, a measure of status and remaining attempts, and neither raises that of another |
| PoolTermination.WorkIsBounded | worker.go:238-245 | without unlimited jobs and dashboard retries, claims plus marks are at most twice the attempts granted to accepted jobs plus the concurrency for each exit that leaves a row running |
| PoolTermination.DrainedExitIsFree | queue.go:264-282 | an exit after the drain is no such exit |
| Backoff.ClosedForm | worker.go:209-223 | with a positive override the delay is min(override * 2^(attempt-1), cap), without one min(pool base * 2^(attempt-1), cap), the cap overridden likewise, for products below 2^63 |
| Backoff.ClosedFormExactlyInRange | worker.go:218-222 | that formula holds for every conversion the language allows if and only if the attempt is in that range |
| Backoff.DelaysGrowToTheCap | options.go:90-98 | in range delays never shrink, are at least min(base, cap), and stay at the cap once there |
| Backoff.DefaultRangeIs29Attempts | options.go:66-67 | with the default 30s base the range is exactly attempts 1 to 29 |
| Backoff.ThirtiethDelayMayBeNegative | job.go:8-9 | a conversion the language allows makes the thirtieth default delay negative |
| Queue.EnqueueRaw | queue.go:144-194 | on the in-memory storage: a payload that does not marshal is the error and no call; otherwise one call at this clock reading, `Enqueue` without a key and `EnqueueDedup` in the configured mode with one; a job accepted is stored with the given name, payload, run time, limit, key and TTL, and is due exactly from its run time on |
| StorageCalls.OnMemory | storage.go:10-22 | each call the queue makes on the in-memory storage is the very step it asks for, at its clock reading, and its reply, written out, is true of the rows before and after: action and conflict, claimed copies, or error |
| StorageCalls.OnSqlite | storage.go:10-22 | each call the queue makes on SQLite is the very step it asks for, no statement fails, it agrees with that step of the in-memory storage with the TTL rounded, and its reply is true likewise, missing rows being no error |
| Queue.CronScheduler.Register | cron.go:35-52 | an interval that does not parse changes nothing; otherwise the entry is set and the stored schedule is new, its next run now plus the interval |
| Queue.CronScheduler.Fire | cron.go:85-113 | exactly the due names known to this process fire, once each: stored last run is the tick and next run one interval later; each firing stores one keyless job due at its tick, three attempts unless the definition says otherwise, payload null; all else stays; the pass is a segment of a cron run |
| Queue.FireIsSegment | cron.go:85-113 | scan, then skip or advance and enqueue for each name, takes the scheduler of a cron run from one pass to the next |
| Queue.FireIsChronological | cron.go:101-102 | those events are in the order of the clock if it does not go backwards during the pass |
| Queue.KnownFacts | cron.go:93-99 | due names without an entry in this process are skipped, all others kept once |
| Queue.Boot | queue.go:224-245 | recovery comes first, then schedules in order, each at its own clock reading, up to the first that does not parse; the registrations are the first segment of the process in a cron run |
| Queue.BootIsSegment | cron.go:35-52 | registering in order is the sequence of registration events of a cron run |
| Queue.RestartResetsSchedules | queue.go:241-245 | each buffered schedule, whatever was stored, is due exactly from its registration plus its interval on, so at its registration exactly if the interval is not positive; other stored schedules are kept |
| Queue.MissedRunIsDropped | queue.go:241-245 | an hourly schedule due before a restart is not due after it |
| CronRuns.StepKeepsCron | cron.go:35-113 | each event keeps the next run at the last registration or firing plus the interval, and scanned names due |
| CronRuns.RunGoesOn | cron.go:70-83 | a cron run goes on with any segment possible where it stands, so boots and passes of the scheduler make one |
| CronRuns.CronCanFail | cron.go:104-111 | a process can die between any two steps, and an enqueue fail after its advance |
| CronRuns.FiresAfterAnchor | cron.go:85-106 | a name fires no earlier than its interval after it was last registered or fired, across restarts |
| CronRuns.FiringsAreSpaced | cron.go:85-106 | successive firings are at least the interval apart, the first at least that after the first registration |
| CronRuns.FiringsPerWindow | cron.go:85-106 | a closed window of length W holds at most W/d + 1 firings |
| CronRuns.EnqueuesNeverExceedFirings | cron.go:104-111 | jobs enqueued for a name never exceed its stored advances, whatever dies in between |
| CronRuns.CronStoragesAgree | sqlite.go:351-387 | over every cron run both storages hold the same names, schedules and next runs, and offer the same due names |

## Left out

- The HTTP dashboard, templates, authentication and listing with pages; only its retry and its counters are modelled.
- JSON, UUID generation, loggers, handler bodies, timeouts and panic stacks. A payload is given as marshalled or not.
- The SQL engine, drivers, pragmas, schema creation and migration. Statements do what they say, stored times compare as numbers, and constraints are checked at the end of a statement.
- Errors of the database itself (disk, connection) and cancelled contexts, except that a claim may fail with no effect.
- A SQLite claim that commits its update and is then cancelled while its rows are scanned.
- Parsing of duration texts: an interval is given as parsed or not.
- The value of an out-of-range float-to-integer conversion, which is a parameter, and float rounding of backoff bases of 2^53 ns (104 days) and more: floats are exact reals.
- Overflow of the attempt counter and of times.
- `MarkPending`, which nothing in the queue calls.
- In runs, plain `Enqueue` with a key or a reused ID: `enqueueRaw` makes neither call.
- A claim with a negative limit, which `poll` never makes.
- The error channel's capacity: `emit` hands over each JobError, and a full channel is not modelled.
- Workers abandoned by the shutdown timeout that still write to a reused storage; a timeout is process death.
- Configuration changes between restarts: handlers, definitions, concurrency and backoffs are fixed over a pool run.
- Fairness: from every reachable state a drain can end and a due job can finish, but no scheduler that makes it happen is modelled.
- The quoting of the job type in the error of a job without a handler.
- `Register` and `Schedule` on the queue, option building, and a registration racing with the start of the cron loop; the second clock reading of `register`, used for the creation time only.
- Cron entries as heap cells: they are map values. Last run and creation time are not related between the storages.
- The mutex of each structure: a method is one step.
