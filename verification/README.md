# Scheduler, cache and query pipeline of clean_architect

A Dafny model of the three parts of the Go repository whose correctness does not show
in any single function body: the persistent task scheduler, the cache in front of the
database, and the pipeline from a list request to a query. `dafny verify dfyconfig.toml`
checks the whole project.

## The task scheduler

`Scheduler.dfy` is a step system: any number of scheduler processes, each with the
program counter of its loop and of its workers, its permits and its two channels, share
the three task directories (or the Redis sorted set and keys), a clock that never goes
back, and nothing else. A step is one atomic piece of code, a store, a cancellation, a
crash, or the panic of a send on the closed error channel; every I/O call may fail where
the source can see it fail. `SchedulerInvariants.dfy` holds the inductive invariant, and
`SchedulerTheorems.dfy` the theorems over all runs: a stored file is in exactly one
place, moves only forward, is given to an executor at most once, and is removed only
after its executor returned nil; permits bound the running executors; nothing starts
early; with names that decode, the branch for unknown executors is reached only by a
process that lacks another's executor, so never with one process.
`SchedulerRuns.dfy` shows the other side, that tasks do run: the effect of single steps on
the storages, and for every decodable task a run that stores it, executes it once and
ends it as its executor returned. `SchedulerRedis.dfy` says when at-most-once holds on
Redis: with one live process at a time, and with two it does not; and that a task a
process had taken and not begun when it died is lost.

`FileStorage.dfy`, `RedisStorage.dfy` and `SchedulerProcess.dfy` are the imperative code
as classes, proved against the same functions that the steps use; `StepsRefineRetrieve`
says for each storage that the steps of one undisturbed `Retrieve` add up to the whole
call. `Timestamps.dfy` prints and reads RFC3339Nano times with real calendar arithmetic,
and `TaskNames.dfy` has the exact conditions under which the two name codecs, which trim
sets of characters where they mean prefixes and suffixes, give a name back.

Two results differ from what one would expect of the comments in the code. A name with
`_` is not always deleted: the task `a_` survives and runs as task `a`
(`UnderscoreRunsAnotherTask`); `FileDiscardExact` says exactly which files are deleted.
And a task whose process dies while it executes stays in the executing directory for
ever (`OrphansStay`): it is never started again, which is the price of at-most-once.

## The cache

`InMemoryCache.dfy` is the driver as a class, and its lock sections as a step system.
`SyncCache.dfy` proves that the blocking operations cannot be told from a database
without a cache exactly as long as no hit hides a read callback that would have failed,
and says which replies of a run differ otherwise. `AsyncCache.dfy` is the asynchronous
form with calls and jobs in flight, in any order; it converges to the database, and keys
that are only read through never show a value that the database did not hold.
`AsyncQueue.dfy` is the same form with serialised calls: with jobs in order it agrees with
the database as soon as none waits, unless a failing job leaves an older entry, and with
jobs in any order exactly as long as every waiting fill brings what the database holds.
`UserService.dfy` is the user service on top of it. The database change of a callback
and the write of the cache are what the source makes them: `Update` caches the caller's
record though the row keeps its own status, role and creation time, and `Create` caches
a creation time that the row keeps only in whole seconds. `ServiceConverges` says that
these records are gone from the answers an hour after the last write and its job.

## The query pipeline

`Pagination.dfy` parses a request; Go visits the query map in an unspecified order, so
the order of the keys is a parameter, and `OrderIsIrrelevantExactly` says for which
requests it does not matter. `Requests.dfy` says what a request means: which numbers,
fields and filters its texts denote, and that a request written from its parts parses
back to them. `SqlList.dfy` builds the query text with its arguments and has an
independent reader and evaluator for the emitted WHERE and ORDER BY text; `SqlQuery.dfy`
reads the whole query back; `MongoList.dfy` builds the documents of the second back end
and compares the two.

`Strings.dfy` holds Go's trims, splits and the byte order of strings.

## Model

| member | source | states |
|---|---|---|
| SchedulerTheorems.ExactlyOnePlace | pkg/scheduler/file.go:39-113 | In every state of every run, with any number of processes, crashes and failing moves, a stored file is in exactly one of pending, executing, failed, removed by `Done`, or discarded for its name; a file never stored is in none. |
| SchedulerTheorems.OnlyForward | pkg/scheduler/file.go:52-113 | Between any two states of a run a file moves only from pending to executing to failed or removed, or from pending to discarded. |
| SchedulerTheorems.StartedAtMostOnce | pkg/scheduler/scheduler.go:68-98 | No file is given to an executor twice, by whichever process; the executor gets the stored payload after the file left the pending directory; a removed file's executor ran and returned nil, a failed file's executor ran and returned an error. |
| SchedulerTheorems.DiscardedExactly | pkg/scheduler/file.go:67-77 | For a stored task of any name: once its file has left the pending directory it was discarded if and only if its name loses the time in the trim; a file that was started never has such a name. |
| SchedulerTheorems.DecodableNeverDiscarded | pkg/scheduler/file.go:67-77 | A task whose name decodes is never deleted for its name, in any run. |
| SchedulerTheorems.OrphansStay | pkg/scheduler/scheduler.go:84-98 | A file in the executing directory whose claiming process is gone stays there in every later state, and nobody starts it from then on. |
| SchedulerTheorems.PermitsCountWorkers | pkg/scheduler/scheduler.go:83-87 | In every state, also after cancellation, the permits taken are the unreleased workers plus the one the loop may hold before its `go` statement; running executors never exceed the capacity of `sem`. |
| SchedulerTheorems.OnlyInFlightCanPanic | pkg/scheduler/scheduler.go:57-97 | Only a worker that was in flight when the loop saw the cancellation can send on the closed error channel. |
| SchedulerTheorems.ExecutingIsBounded | pkg/scheduler/scheduler.go:68-98 | With one process on file storage, executors found and no failing read or final move, the executing directory holds at most `concurrency + 1` files, also after a crash. |
| SchedulerTheorems.NoFileStartsEarly | pkg/scheduler/file.go:78-81 | No executor of a file task starts before the nanosecond it was scheduled for, over whole runs and for every task name, decodable or not. |
| SchedulerTheorems.NoRedisStartsASecondEarly | pkg/scheduler/redis.go:24-39 | No executor of a Redis task starts a full second or more before the nanosecond it was scheduled for. |
| SchedulerTheorems.ExecutorIsFoundSomewhere | pkg/scheduler/scheduler.go:77-81 | With any number of processes and decodable names, every name that a loop looks up is registered at some process on the same storage: only a process that lacks the executor of another reaches the branch for unknown ones. |
| SchedulerTheorems.ExecutorIsFound | pkg/scheduler/scheduler.go:77-81 | Starting from empty storage, with one process and decodable names, the loop finds an executor for every task it retrieves. |
| SchedulerRedis.RedisStartedAtMostOnce | pkg/scheduler/redis.go:34-55 | With at most one live process on Redis at a time and ids queued once, no two starts share an id and a started id is out of the sorted set, over all runs with crashes, restarts and failing commands. |
| SchedulerRedis.TwoProcessesStartOneTask | pkg/scheduler/redis.go:34-55 | Two live processes break that: for every decodable name, time and payload there is a run with one store in all in which two processes both begin the task; ids are queued once in it, so only the condition on live processes fails. |
| SchedulerRedis.StrandedStays | pkg/scheduler/redis.go:34-66 | An id that is neither in the sorted set nor held nor started stays so, with its payload kept, through any number of processes, as long as it is not queued again. |
| SchedulerRedis.TakenIdsAreLost | pkg/scheduler/redis.go:48-54 | With one live process at a time: an id that a process took off the sorted set and had not begun when it crashed or panicked is never started afterwards, and its payload stays under its key for ever. |
| SchedulerTheorems.StepsRefineRetrieve | pkg/scheduler/file.go:52-99 | The loop's file steps, undisturbed, do to the directories and report exactly what `Retrieve` does as one call, whichever file operation fails. |
| SchedulerRuns.EveryFileTaskCanRun | pkg/scheduler/scheduler.go:46-98 | For every name that leaves the time, every time, payload and capacity above zero there is a run with one store in which the executor of the decoded name begins exactly once, with the payload, at the scheduled time, and at the end the file is gone if the executor returned nil and failed with its payload if not. |
| SchedulerRuns.EveryRedisTaskCanRun | pkg/scheduler/scheduler.go:46-98 | The same on Redis for every decodable name: the id leaves the sorted set, and at the end its payload is gone, or the id is in the failed set. |
| SchedulerRuns.ScheduleStores | pkg/scheduler/scheduler.go:46-51 | A store of a registered task on files adds its file with the payload to the pending directory and to the history, and changes nothing else. |
| SchedulerRuns.ScheduleQueues | pkg/scheduler/redis.go:22-32 | A store on Redis adds the id with its second to the sorted set and the payload under it, and changes nothing else. |
| SchedulerRuns.ScheduleRefused | pkg/scheduler/scheduler.go:46-51 | A store of an unknown task changes nothing. |
| SchedulerRuns.AcquiresExactly | pkg/scheduler/scheduler.go:83-87 | In every run the loop waiting at the semaphore can go on exactly while fewer workers than the capacity are unreleased. |
| SchedulerRuns.SettlesItsFile | pkg/scheduler/scheduler.go:88-97 | In every run, when a worker calls `Done` or `Failure` its file is still executing, and if the operation succeeds the file is removed when the executor returned nil and failed with its stored payload when not. |
| SchedulerRuns.FailedSettlesRelease | pkg/scheduler/scheduler.go:85-97 | A worker whose final move fails changes no storage, reports the error and gives its permit back. |
| SchedulerRuns.UnknownIsReported | pkg/scheduler/scheduler.go:77-81 | A retrieved name without an executor is reported and its task stays where it is. |
| SchedulerRuns.LoopGoesOn | pkg/scheduler/scheduler.go:70-81 | After reporting an error the loop waits for the next tick. |
| SchedulerRuns.CancellationCanPanic | pkg/scheduler/scheduler.go:57-66 | From every state in which the loop waits and a worker has an executor error to send, cancellation leads to one in which that worker can only panic, and the process is then gone. |
| SchedulerInvariants.StepKeeps | pkg/scheduler/scheduler.go:53-100 | Every enabled step of every process keeps the invariant that ties directories, owners of claimed files, program counters, permits and history together. |
| SchedulerInvariants.RunInv | pkg/scheduler/scheduler.go:53-100 | The invariant holds in every state of every run from empty storage. |
| SchedulerProcess.Process.RegisterExecutor | pkg/scheduler/scheduler.go:42-44 | Adds the task to the executors and changes nothing else. |
| SchedulerProcess.Process.ScheduleTask | pkg/scheduler/scheduler.go:46-51 | Refuses a task without executor and stores nothing; otherwise the task's file is pending with what could be written of its payload, and it reports success exactly when that is all. |
| SchedulerProcess.Process.OnTick | pkg/scheduler/scheduler.go:68-84 | One tick, with any failing file operation: the directories after a whole `Retrieve`, and idle, error, unknown executor, blocked or spawned with one more permit, each exactly when the source does that. |
| SchedulerProcess.Process.Finish | pkg/scheduler/scheduler.go:84-98 | A worker whose executor returned moves its file on, fails and moves nothing exactly when the file is gone from the executing directory or the move fails, and gives one permit back in either case. |
| FileStorage.Storage.Store | pkg/scheduler/file.go:39-50 | Creates the file of the printed name and time in the pending directory and writes the payload; a creation that fails leaves nothing, a write that fails leaves what was written; success exactly when both succeed. |
| FileStorage.Storage.First | pkg/scheduler/file.go:64-65 | The file name that string order puts first. |
| FileStorage.Storage.Retrieve | pkg/scheduler/file.go:52-99 | Nothing when none is pending or the first is not due; deletes the first file when its time does not parse; otherwise claims it by a move and returns name, task and payload. Each operation may fail: a failed removal or move changes nothing, a claimed file that cannot be read stays claimed. |
| FileStorage.Storage.Failure | pkg/scheduler/file.go:101-108 | Moves a file from executing to failed; fails and changes nothing exactly when it is not there or the operation fails. |
| FileStorage.Storage.Done | pkg/scheduler/file.go:110-113 | Removes a file from executing; fails and changes nothing exactly when it is not there or the operation fails. |
| FileStorage.DueExactly | pkg/scheduler/file.go:78-81 | A file is due exactly from its instant on, if its name leaves the time. |
| FileStorage.RetrievedExactly | pkg/scheduler/file.go:52-99 | The three directories and the reply after a `Retrieve`, by the file that is first in string order: a name that loses its time is deleted, an early file stays, a due one moves with its payload; and each failing operation. |
| FileStorage.RetrievesEarliest | pkg/scheduler/file.go:55-81 | For tasks of one decodable name and zone whose times no two printed fractions confuse (whole seconds, or any zone but UTC, for instance), `Retrieve` yields nothing if and only if none is due, and otherwise the earliest of all pending tasks. |
| FileStorage.DueTasksLeaveInOrder | pkg/scheduler/file.go:55-81 | For such tasks, n due ones are all retrieved, once each and earliest first, by n calls of `Retrieve`, and no other task leaves the pending directory. |
| FileStorage.ConfusedTasksSwap | pkg/scheduler/file.go:64-65 | For any two confused times the claim fails: of those two tasks, both due, `Retrieve` takes the later first. |
| TaskNames.FileCodecExact | pkg/scheduler/file.go:67-73 | A file name decodes to its task name and printed time if and only if the name has no `_` and does not contain the first character of the time. |
| TaskNames.FileDiscardExact | pkg/scheduler/file.go:70-77 | For every name: the decoded task is the part before the first `_`, and the file is deleted if and only if the name has a character outside that part and `_`, or that part has the first character of the time; all other files keep their time. |
| TaskNames.UnderscoreRunsAnotherTask | pkg/scheduler/file.go:70-77 | The task `a_` is not deleted but runs, at its time, as task `a`. |
| TaskNames.KnownFiles | pkg/scheduler/file.go:66-76 | The source's example at a whole second in zone +03:30, and the same instant in UTC: both decode to their task and are due at that instant. |
| TaskNames.FileNameInjective | pkg/scheduler/file.go:40 | Different tasks or times never share a file name, whatever the task name contains. |
| TaskNames.FileOrderExact | pkg/scheduler/file.go:64-65 | File names of one task and zone are in string order as their times are in time if and only if the times are not two UTC times within one second with the fraction of one a beginning of the other. |
| TaskNames.FileOrderIsTimeOrder | pkg/scheduler/file.go:64-65 | So it is for whole seconds, and for any fractions in a zone other than UTC. |
| Timestamps.ParseFormat | pkg/scheduler/file.go:73 | Every valid time, with any fraction and whole-minute zone, reads back from its RFC3339Nano text. |
| Timestamps.ZoneShiftsInstant | pkg/scheduler/file.go:73-79 | A time in a zone is its digits read as UTC less the zone's offset. |
| Timestamps.NextDayIsADayLater | pkg/scheduler/file.go:73-79 | The same time of the next civil day is exactly 24 hours later, over the ends of months, leap Februaries and years. |
| Timestamps.ClockAddsToMidnight | pkg/scheduler/file.go:73-79 | Within a day an instant is midnight plus the clock's hours, minutes, seconds and nanoseconds. |
| Timestamps.KnownInstants | pkg/scheduler/redis.go:24-28 | Known Unix times around leap days, before 1970 and in a zone. |
| Timestamps.PrintedExample | pkg/scheduler/file.go:66 | The printed form of the source's example, with its fraction and zone. |
| Timestamps.StringOrderExact | pkg/scheduler/file.go:64-65 | Section 5.1 of RFC 3339 exactly, for printed times of one zone with any text behind them: string order is time order if and only if they are not two UTC times within one second with the printed fraction of one a proper prefix of the other. |
| Timestamps.StringOrderIsTimeOrder | pkg/scheduler/file.go:64-65 | So it is for whole seconds, and for any fractions in a zone other than UTC. |
| Timestamps.FractionsBreakTheOrder | pkg/scheduler/file.go:19 | Two concrete UTC times, a full second and half a second later, sort the wrong way round. |
| TaskNames.RedisCodecExact | pkg/scheduler/redis.go:48 | A Redis id decodes to its task name if and only if the name is non-empty, has no `_` and does not start with t, a, s or k. |
| TaskNames.RedisIdInjective | pkg/scheduler/redis.go:24 | Different task, second or random number means a different id, whatever the name contains and for seconds before 1970 too. |
| TaskNames.KnownId | pkg/scheduler/redis.go:24 | The form of an id, also for a second before 1970. |
| RedisStorage.Storage.Store | pkg/scheduler/redis.go:22-32 | Adds the id with its second to the sorted set and the payload under the id; either command of the pipeline may fail alone, and success is reported exactly when neither does. |
| RedisStorage.Storage.First | pkg/scheduler/redis.go:35-39 | An id that is due, with no lower second in the sorted set and first in string order among equals; none if and only if every second is later than now. |
| RedisStorage.Storage.Retrieve | pkg/scheduler/redis.go:34-55 | Takes the first due id off the sorted set and returns it with decoded name and payload; an id without a payload is an error and stays; any failing command is an error and changes nothing. |
| RedisStorage.Storage.Failure | pkg/scheduler/redis.go:57-62 | Adds the id to the failed set with the current second, or fails and changes nothing. |
| RedisStorage.Storage.Done | pkg/scheduler/redis.go:64-66 | Deletes the payload of the id, or fails and changes nothing. |
| RedisStorage.TakesTheEarliest | pkg/scheduler/redis.go:34-55 | The id that `Retrieve` takes has the lowest second of the whole sorted set, ties in string order, and only it leaves the set. |
| RedisStorage.DueIdsLeaveInOrder | pkg/scheduler/redis.go:34-55 | If the payloads of n due ids are kept, n retrievals at any later times yield exactly those ids, once each, by non-decreasing second with ties in string order, with their names and payloads; every later id stays. |
| RedisStorage.BothTasksKept | pkg/scheduler/redis.go:24-30 | Of two tasks stored one after the other both are kept under their own ids if and only if name, second or random number differ; otherwise they share an id and the later payload replaces the earlier. |
| RedisStorage.StepsRefineRetrieve | pkg/scheduler/redis.go:34-55 | The Redis steps of the loop, undisturbed, do what `Retrieve` does as one call, whichever command fails. |
| RedisStorage.LostIdBlocks | pkg/scheduler/redis.go:34-55 | An id whose payload was never kept blocks the queue: while it is the first due one, every `Retrieve` is an error and changes nothing. |
| InMemoryCache.Cache.Set | pkg/cache/in-memory.go:23-32 | Overwrites the entry of this key only, expiring ttl from now, or never when the ttl is not positive. |
| InMemoryCache.Cache.Get | pkg/cache/in-memory.go:34-48 | A hit exactly on an unexpired entry; an expired one is deleted and missed. |
| InMemoryCache.Cache.Delete | pkg/cache/in-memory.go:50-55 | Removes the entry of this key only. |
| InMemoryCache.LivesForItsTtl | pkg/cache/in-memory.go:23-48 | An entry set with a positive ttl is live up to and including now + ttl and not after; one without is live for ever. |
| InMemoryCache.HitsAreLatest | pkg/cache/in-memory.go:23-48 | With readers and writers interleaved at every lock section, a hit returns the value of the latest `Set` not followed by a `Delete` as of its read section, unexpired at its check. |
| InMemoryCache.GetsExactly | pkg/cache/in-memory.go:34-48 | In every run: the second section of a `Get` hits with the data of its read section if that entry had not expired by then, misses otherwise, and after an expired entry goes on to delete it. |
| InMemoryCache.WritesExactly | pkg/cache/in-memory.go:23-55 | The three sections that change the store, each with its effect. |
| InMemoryCache.StoreIsLatestOrLost | pkg/cache/in-memory.go:34-55 | A key is stored if and only if its latest `Set` was neither deleted nor evicted, and then it holds that `Set`; every eviction comes from a reader that saw the entry then latest, and that entry had expired when the eviction took place. |
| InMemoryCache.LateDeletionLosesAFreshEntry | pkg/cache/in-memory.go:45-48 | Any reader about to delete an expired entry deletes an entry set in between. |
| SyncCache.CacheSync.Get | pkg/synq/sync.go:20-30 | Cache first; on a miss the callback's value is stored and returned, its error passed on. |
| SyncCache.CacheSync.Set | pkg/synq/sync.go:43-48 | Runs the callback; only if it succeeds, writes the cache and reports whether the value encodes. |
| SyncCache.CacheSync.Delete | pkg/synq/sync.go:59-64 | Runs the callback; only if it succeeds, deletes the entry. |
| SyncCache.CacheSync.Store | pkg/cache/cache.go:31-37 | Writes the driver if the value encodes; otherwise an error and no change. |
| SyncCache.FillsExactly | pkg/synq/sync.go:20-64 | What one call leaves in the cache: a miss that finds a row fills it for its ttl, one that does not leaves no entry, a hit leaves all; a successful write fills or clears, a failed one leaves the entry. |
| SyncCache.PlainIsATable | pkg/synq/sync.go:20-64 | The system without a cache that the others are compared with is a table: what was set is found until it is deleted, other keys are untouched, failing callbacks change nothing. |
| SyncCache.CallAgrees | pkg/synq/sync.go:20-64 | One call keeps all entries equal to the database and changes the database as without a cache; its reply is that of no cache if and only if it is not a hit that hides a failing read callback, and then it is what the database holds. |
| SyncCache.MaskedRepliesDiffer | pkg/synq/sync.go:20-64 | Over any sequence of calls with encodable values and callbacks that may fail, the i-th reply equals that with no cache if and only if the i-th call is not a hit that hides a failing read callback. |
| SyncCache.CacheIsInvisible | pkg/synq/sync.go:20-64 | All replies of such a sequence equal those of the same calls with no cache if and only if no hit in it hides a failing read callback. |
| SyncCache.UnencodableWriteGoesStale | pkg/synq/sync.go:43-48 | A `Set` of a value that does not encode changes the database and fails; the cache stays in agreement if and only if it had no entry for the key. |
| AsyncCache.AsyncConverges | pkg/synq/async.go:20-77 | With positive ttls of at most `bound`: once the database's value for a key no longer changes, no job or call in flight carries another, and later writes write what they cache, every answer given more than `bound` later is the database's, whatever order earlier and later jobs ran in; the only exception is an error of a callback that failed for that very answer. |
| AsyncCache.OnlyFailuresFault | pkg/synq/async.go:24-28 | In every run an error is answered only by a step in which the callback failed. |
| AsyncCache.MissAnswersTheRow | pkg/synq/async.go:24-34 | In every run, after a callback that did not fail on a key the database holds, the next step of the call answers the value the database held and starts exactly one job, the fill of that key, value and ttl. |
| AsyncCache.ReadAnswersTheEntry | pkg/synq/async.go:20-24 | In every run, the second step of a `GetAsync` answers the entry it read if that is unexpired by then, and otherwise goes on to delete it or to the callback. |
| AsyncCache.WritesStartJobs | pkg/synq/async.go:47-77 | In every run, a write changes the database at once, and its next step starts exactly the fill or removal of its key. |
| AsyncCache.JobsFillAndClear | pkg/synq/async.go:29-73 | A job that succeeds leaves its value live for its ttl, or no entry, under its key, and touches no other. |
| AsyncCache.ConvergingHolds | pkg/synq/async.go:20-77 | From that moment on every entry of the key holds the database's value or expires by the deadline, and no job or call in flight carries another value. |
| AsyncCache.ValuesComeFromTheDatabase | pkg/synq/async.go:20-35 | For a key filled by `GetAsync` only, every value returned is one that the database held under that key at that or an earlier step, with jobs in any order. |
| AsyncQueue.CacheAsync.GetAsync | pkg/synq/async.go:20-35 | A live entry is the answer; otherwise an expired one is deleted, the callback answers, and its value is queued as a fill. |
| AsyncQueue.CacheAsync.SetAsync | pkg/synq/async.go:47-57 | A fill is queued exactly when the callback succeeded; the cache itself is unchanged at return. |
| AsyncQueue.CacheAsync.DeleteAsync | pkg/synq/async.go:67-77 | A removal is queued exactly when the callback succeeded; the cache itself is unchanged at return. |
| AsyncQueue.CacheAsync.RunNext | pkg/synq/async.go:29-33 | Runs the oldest job and leaves the others in order; a job that fails changes no entry. |
| AsyncQueue.GotExactly | pkg/synq/async.go:20-35 | The answer of a `GetAsync` and the job it queues, by its entry and its callback. |
| AsyncQueue.RanExactly | pkg/synq/async.go:29-73 | What a job leaves in the cache, and for how long. |
| AsyncQueue.InOrderJobsAgree | pkg/synq/async.go:20-77 | Serialised calls and jobs in order, any of which may fail: the last waiting job of a key brings what the database holds, or with none waiting the entry is absent or the database's, at every point of the run if and only if no last job of the key fails over an entry that is not the database's; jobs that succeed never do. Then every `GetAsync` with no job waiting answers as the database. |
| AsyncQueue.AnyOrderAgreesExactly | pkg/synq/async.go:29-75 | Jobs in any order: after serialised calls every order of the waiting jobs leaves the entry absent or the database's if and only if every waiting fill of the key brings what the database holds; otherwise some order leaves an unexpired entry that is not the database's. |
| AsyncQueue.AnyOutcomeAgreesExactly | pkg/synq/async.go:29-75 | The same when jobs may also fail: every order and outcome agrees if and only if every waiting fill and the entry already there do. |
| AsyncQueue.SwappedJobsDisagree | pkg/synq/async.go:51-55 | Two `SetAsync` of different values whose jobs run in the other order leave a live entry that is not the database's. |
| UserService.Service.Create | internal/service/user.go:47-63 | Makes the record with id, status and time, inserts it, and queues it under its id for an hour, both only if the database accepts it; a duplicate and any other error get the two replies of the source. |
| UserService.Service.Update | internal/service/user.go:102-114 | Changes name, phone, email and password of the row and queues the caller's record under the id; nothing when there is no such row. |
| UserService.Service.Delete | internal/service/user.go:88-100 | Marks the row as deleted and queues the removal of the id key only. |
| UserService.Service.GetByID | internal/service/user.go:116-128 | Answers from the id key, reading the row by id on a miss. |
| UserService.Service.GetByEmail | internal/service/user.go:65-77 | Answers from the email key, reading a row with that email on a miss. |
| UserService.GetByIDAnswers | internal/service/user.go:116-128 | An unexpired entry, or else the row, or else not found or internal as the source has it; and the fill for a minute of a row that was read. |
| UserService.GetByEmailAnswers | internal/service/user.go:65-77 | The same for a read by email. |
| UserService.WrittenRows | internal/repository/user/sql.go:25-101 | The records and rows of insert and update, field by field; the inserted row keeps whole seconds. |
| UserService.UpdateCachesTheCallersRecord | internal/service/user.go:102-106 | After an update and its job, `GetByID` returns the caller's record, which is the row if and only if status, role and creation time were already the row's. |
| UserService.ServiceIsAsync | internal/service/user.go:47-128 | Any interleaving of the operations and their jobs is an asynchronous run in which only id keys are written, with ttls of a minute or an hour, and the database is always the view of the rows under ids and emails. |
| UserService.StepsExactly | internal/service/user.go:47-128 | Which key each operation asks for, with which record and ttl. |
| UserService.EmailAnswersWereRows | internal/service/user.go:65-77 | In every run of the service, whatever order jobs run in, a record returned by `GetByEmail` was, then or earlier, a row with that email, if the email is not the text of a uuid. |
| UserService.ServiceConverges | internal/service/user.go:102-128 | Once a user is no longer written and no call or job in flight carries another record than the row, every `GetByID` more than an hour later answers the row, or the error of a read that failed for that answer, although `Create` and `Update` cache other records than the rows. |
| UserService.AddressesAreNotIds | internal/service/user.go:65-77 | An email with an `@` is never the text of a uuid. |
| Pagination.ParseFromRequest | pkg/paginate/paginate.go:59-144 | Page number, page size, fields, sort and filters of a request, for the given key order, including what a malformed number or an unusable key becomes. |
| Pagination.ParseKeys | pkg/paginate/paginate.go:88-135 | The loop over the map: sorts from the sort key alone, filters from every other usable key in turn. |
| Pagination.ParseSort | pkg/paginate/paginate.go:103-118 | A word asc or desc changes the last sort so far, anything else starts one with desc. |
| Pagination.ParseFilters | pkg/paginate/paginate.go:120-134 | A condition word changes the last filter so far, of whichever key; anything else starts one with eq. |
| Requests.NumbersExactly | pkg/paginate/paginate.go:62-76 | Page and page size are each the number from 1 to the largest 64-bit one that the first value of its own key denotes in decimal, also behind zeros or a `+`; when it denotes none, is missing, malformed, zero, negative or too large, 1 and 10. |
| Requests.FieldsExactly | pkg/paginate/paginate.go:78-82 | The fields have no commas and joined by commas are the first value of `fields`; none when that is empty or missing. |
| Requests.FiltersComeFromTheQuery | pkg/paginate/paginate.go:88-135 | A request has a filter of a key and value if and only if the key has no blank or semicolon and is not reserved, and the value is one of its values and not one of the nine condition words. |
| Requests.FiltersReadBack | pkg/paginate/paginate.go:120-134 | Filters written as values, each followed by its condition, parse back to them behind whatever was found before. |
| Requests.SortsReadBack | pkg/paginate/paginate.go:103-118 | Sorts written as values, each followed by its direction, parse back to them. |
| Requests.RequestReadsBack | pkg/paginate/paginate.go:59-144 | A whole request written from page, size, fields, sorts and the filters of each key parses back to exactly those, in every order of the map. |
| Pagination.EveryRequestIsBounded | pkg/paginate/paginate.go:62-76 | Every request gives a page and a page size of at least 1 that fit in 64 bits, and only asc or desc sorts. |
| Pagination.OrderIsIrrelevantExactly | pkg/paginate/paginate.go:88-135 | All map orders give filter lists that are permutations with the same list for each key, if and only if no leading condition word of a key would change the last filter of another key. |
| Pagination.PlainFirstValuesAreHarmless | pkg/paginate/paginate.go:120-134 | That is so when no filter key's first value is a condition word. |
| Pagination.WordsCanReachOtherKeys | pkg/paginate/paginate.go:121-126 | `a=1&b=gt` parses to `a > 1` in one order and `a = 1` in the other. |
| SqlList.WhereQuery | pkg/sqlutil/list.go:65-125 | The WHERE text and arguments are those of the clause list of the filters, empty when no filter is kept. |
| SqlList.ClauseParts | pkg/sqlutil/list.go:79-116 | One round of the loop: the filter is skipped or gives the text and arguments of its clause. |
| SqlList.ClausesExactly | pkg/sqlutil/list.go:85-111 | The clause of each condition word for a value without commas; `like` has no operator, in and between are skipped. |
| SqlList.ListsExactly | pkg/sqlutil/list.go:85-111 | For a value with commas: the membership of its parts, the range of the first two, and no comparison. |
| SqlList.TrimTakesOneSeparator | pkg/sqlutil/list.go:122-124 | Trimming the characters of " AND " off the end removes exactly the last separator, for every clause list. |
| SqlList.WhereMeansFilters | pkg/sqlutil/list.go:65-125 | For identifier columns: reading the emitted text back and binding the i-th mark to the i-th argument evaluates, on every row and under every collation, to the conjunction of the kept filters; it cannot be read if and only if a kept filter has no operator, as `like`. |
| SqlList.BindBack | pkg/sqlutil/list.go:85-111 | The argument list, taken mark by mark along the clause shapes, gives every clause back with its own values. |
| SqlList.WhereMarks | pkg/sqlutil/list.go:65-125 | For identifier columns, the WHERE text has as many `?` as arguments, also where an operator is missing. |
| SqlList.OrderByQuery | pkg/sqlutil/list.go:127-143 | The ORDER BY text is the items joined by single commas, less any commas at its end; for arranged sorts there are none. |
| SqlList.TrimTakesOneComma | pkg/sqlutil/list.go:140-142 | So for asc and desc it removes exactly one. |
| SqlList.TrimTakesOneCommaExactly | pkg/sqlutil/list.go:140-142 | For any sorts, trimming commas off the end removes just the loop's last one if and only if the last arrangement does not end with a comma. |
| SqlList.OrderReadsBackExactly | pkg/sqlutil/list.go:127-143 | The ORDER BY text reads back to the sort list if and only if every field is non-empty and free of blanks and commas. |
| SqlList.ParsedSortsAreOrdered | pkg/paginate/paginate.go:103-118 | The same for the sorts of every request: the parser only produces asc and desc. |
| SqlList.BuildPaginationQuery | pkg/sqlutil/list.go:33-55 | The whole query text, line by line, for any sorts, and its arguments: those of WHERE, then page size and offset. |
| SqlList.QueryMarks | pkg/sqlutil/list.go:33-55 | For identifier columns, the whole query has as many `?` as arguments if and only if the select and order texts contain none. |
| SqlQuery.QueryReadsBack | pkg/sqlutil/list.go:33-55 | The whole query, split into its four lines and bound to its arguments, reads back as the page: fields, table, clauses with their values, sorts, the size as limit and the rows before the page as offset. |
| SqlList.OrderOfKeysKeepsTheRows | pkg/sqlutil/list.go:65-125 | When no condition word reaches another key, any two map orders of a request give WHERE texts that accept exactly the same rows. |
| SqlList.OrderOfKeysCanChangeTheRows | pkg/paginate/paginate.go:121-126 | Under any collation with 1 below 2, the WHERE text of `a=1&b=gt` accepts a row with a = 2 in one map order and rejects it in the other. |
| SqlList.OffsetFits | pkg/sqlutil/list.go:145-147 | The 64-bit offset is (page - 1) * perPage if and only if that product fits. |
| SqlList.PagesCoverTheList | pkg/sqlutil/list.go:145-147 | When the offset of the last page fits, pages 1 to ceil(n / perPage) of any row list, one after another, are exactly the list, and no page less is enough. |
| MongoList.FilterAggregate | pkg/mongoutil/list.go:66-110 | The document has the terms of the kept filters, in order; a skipped filter repeats none. |
| MongoList.TermsExactly | pkg/mongoutil/list.go:74-131 | The document of each condition word, with `like` as a pattern and `neq` as the source spells it; comparisons keep commas, in and between need them. |
| MongoList.MembersExactly | pkg/mongoutil/list.go:84-101 | The values of in and the bounds of between are the sanitized parts of the text between its commas. |
| MongoList.FilterAgrees | pkg/mongoutil/list.go:74-107 | For one filter: MongoDB keeps whatever SQL keeps, and both give the same field, operator and values if and only if the filter is in, between, or a comma-free eq, gt, gte, lt or lte (or its key is unknown to both). |
| MongoList.BackEndsAgreeExactly | pkg/mongoutil/list.go:66-110 | The two builders' lists correspond clause by clause, with values passed through any `sanitize`, if and only if every filter is of that kind. |
| MongoList.SortAggregate | pkg/mongoutil/list.go:46-56 | The sort document: each field in order with 1 or -1. |
| MongoList.SortTermsExactly | pkg/mongoutil/list.go:46-56 | asc is 1 and desc is -1. |
| MongoList.BackEndsOrderAlike | pkg/mongoutil/list.go:46-56 | The MongoDB sort document and, exactly for plain fields, the ORDER BY text denote the same sort list. |

## Left out

- SchedulerTheorems.StartedAtMostOnce: in the step system a store is one step; the source creates and then writes the file outside the mutex, so a task already due could be claimed with part of its payload. It is about file tasks; module SchedulerRedis is about the others.
- SchedulerTheorems.ExactlyOnePlace: a file name is stored only once; storing the same task for the same nanosecond again, which overwrites the file, is not modelled.
- SchedulerTheorems.ExecutingIsBounded: needs that reads of claimed files and final moves succeed and that executors are found; without that a file stays in the executing directory with no worker.
- SchedulerRedis.RedisStartedAtMostOnce: a command that reports an error is taken to have changed nothing; ids carry a random number below 100, so two tasks of one name and second may share an id, which the condition on ids excludes; `RedisStorage.BothTasksKept` says when they do.
- Timestamps.ParseFormat: the model's reader accepts exactly the layout that formatting prints, with years 0 to 9999 and whole-minute zones; Go's parser accepts a few more texts, which no stored file name contains.
- SyncCache.CacheIsInvisible: a value is its encoded bytes, and decoding is lossless; decoding an entry as another type is not modelled.
- AsyncCache.AsyncConverges: callbacks that write while the answers converge are taken to write what they cache; `UserService.UpdateCachesTheCallersRecord` says when the service's update does not.
- AsyncQueue.InOrderJobsAgree: jobs run in the order they were started, which goroutines do not promise; `AsyncQueue.AnyOrderAgreesExactly` is about any order.
- UserService.EmailAnswersWereRows: requests by an email that is the text of a uuid are not part of the runs; which of several rows with one email a query yields is fixed between two writes.
- SqlList.WhereMeansFilters: three-valued logic is reduced to "no condition on an absent column holds"; how the database compares is a parameter.
- MongoList.BackEndsAgreeExactly: `sanitize` is any function, since number and date parsing are library calls; the matching of documents by the server is not modelled.
- SqlList.PagesCoverTheList: the filtered and ordered row list is given; the count query reuses the same WHERE text and so its total is the length of that list.
- Task names with path separators, and a failing operation that took effect all the same.
- Earliest-first dispatch across different task names or zones: string order does not give it.
- The ticker's period, the executor's own effects, and the data race of registering an executor while the loop reads the map.
- The overflow of `time.Now().Add(ttl)`, the precision of Redis scores as floats, and an empty Redis payload, which the source reads as no task.
- `pkg/scheduler/sqldb.go`: its `Retrieve` does not claim the row, so there is no at-most-once protocol.
- The other cache drivers, `pkg/bus`, `pkg/queue` and `pkg/scheduler/discard.go`: thin wrappers over libraries, or easy beside the scheduler.
- `internal/repository/user/memory.go`, and `List` of the service, which passes on to the repository.
- HTTP and gRPC handlers, middleware, tokens, configuration, logging and the command line.
- URL decoding: a query is a map from keys to lists of values. The projection of MongoDB is one entry per field.
- The comment of `SetAsync` promises an error when the cache update fails; the code only logs it, and the model follows the code.
