# A verified model of the lesson-analysis backend

This project models the parts of the backend whose correctness rests on an argument that no single
function shows: the durable task queue, the lock registry, the key-value layer, the derivation of a
lesson's status, organisation membership, and a handful of algorithms. It proves their properties for
all inputs, all interleavings and all runs. `dafny verify dfyconfig.toml` checks everything.

## How the code is modelled

- **Task queue** (`TaskRows`, `TaskRuns`, `TaskRecords`, `TaskTable`, `WorkerRuns`, `Worker`). The `tasks` table is a map of rows and
  every SQL statement is one atomic step; `TaskRows.Step` follows the statements in
  `sql/queries/tasks.sql`, with their WHERE clauses. A run is any sequence of steps by any workers,
  scanners and users, with time passing in between. `PostgresDB` has one method per statement and each is
  proved to be the step it stands for, including which row is picked and where a row lands in the queue.
  `TaskRecords` says what every column of a row tells about the run so far.
  A worker process is a transition system of its own (`WorkerRuns`): claim, store, visit, heartbeat, cancel,
  delete, terminal write and deferred delete are separate moves, interleaved with each other and with every
  queue step of others. The class `Worker` has one method per move, and three that run several in a row
  undisturbed.
- **Producing tasks** (`LessonTasks`, `TaskCap`). `StartLessonTask` is a transaction of several steps: lock the lesson
  row, look for an active task, insert, commit. Any number of them interleave with each other and with
  every queue step; the method of the same name is one call without interference, with the cap and the
  preflight checks. `TaskCap` adds the count of the user's tasks to the interleaved transactions.
- **Lock registry** (`LockRegistry`). Each critical section is one step of a transition system: the look-up
  with its reference count, the try-lock, the unlock, the drop of the reference. Class methods carry out
  the same steps.
- **Key-value layer** (`ChunkedStore`, `Bits`, `WatchCoverage`). Keys are tuples, values byte sequences, the
  watched-seconds bitmap a sequence of `bv8`. The transactions work on the stored data and are proved
  against functions on plain maps and sets.
- **Lesson status** (`LessonAnalysis`). The specification looks at the latest tasks as a set of rows; the
  loops are proved to compute it, so the order of the list cannot matter.
- **Organisations** (`OrgMembers`). Each commit transaction is one step with its permission checks and error
  order. The check of a removal is separate from its transaction, as in the code.
- **Algorithms** (`UploadRateLimiter`, `AtRisk`, `SeedSegments`, `ChunkAttribution`, `SeedLayout`, `Stitching`,
  `SpeechText`, `RecentAccess`; `Text` and `Sorting` stand for the library functions they call).

Reals stand for floating-point numbers, unbounded integers for counters and timestamps, a Dafny `char` for a
code point in Go and for a code unit in TypeScript. Clocks, generated ids, which rows other transactions have
locked, and the answers of foreign services are parameters.

## Where the code and its comments differ

- Ownership of a task is per worker, not per claim (`worker.go` 186-253, `doc.go` 14-19). A worker that is reaped
  and claims the same task again runs two goroutines for it, and the write of the first one counts: exactly
  when the claim made since still stands (`TaskRuns.LateWriteTakesIffReclaimed`).
- The registry is keyed by task, so what is left of the first goroutine, or a heartbeat that found the task lost,
  deletes the entry of the second: the task stays owned and gets no heartbeats. `WorkerRuns.UnwatchedIff` says
  exactly when an owned task is without an entry, `WorkerRuns.DeletionIsLate` that every such deletion is left
  over from before the claim, `WorkerRuns.CanLoseIff` that in any reachable state an entry can still be lost
  exactly when there is such a leftover, and `WorkerRuns.LateDeletionsHappen` gives two runs.
- `MarkSucceeded` is documented to return an error when the row is not in the expected state (`db.go` 109-112);
  the code swallows that outcome. `TaskTable.PostgresDB.MarkSucceeded` says when the two agree: exactly when the
  worker owns the row.
- `applyArtifactFloor` "never lowers" the status (`analysis_read.go` 356-357): it does, exactly as
  `LessonAnalysis.FloorLowersIff` says (`FloorLowersDone` is one case). A dead task "must not pin the UI" (lines
  366-372): with nothing queued or alive a dead pipeline run does, exactly as
  `LessonAnalysis.DeadRunShowsProcessingIff` says, and `LessonAnalysis.ShowsProcessingIff` for every list. It does
  so without interactions (`DeadRunWithChunksShowsProcessing`) and, when any row has failed, even with them
  (`DeadRunAfterFailureShowsProcessing`). The reported error message is not always the driving task's
  (`LessonAnalysis.ReportsDriverIff`).
- An older failed chunk task still blocks DONE after a newer successful pipeline run
  (`LessonAnalysis.RecoveredIsDoneIff`); only the transcript stage is judged by its newest run.
- The check of `RemoveOrganizationMember` happens before its transaction: an organisation admin can remove an
  owner who was promoted in between (`OrgMembers.AdminCanRemoveFreshOwner`), exactly as
  `OrgMembers.DelayedRemovalIff` says. Deleting a user is not guarded and can leave an organisation without an
  owner (`OrgMembers.DeletingUserCanOrphan`).
- The upload limiter is called a rolling window (`rate_limiter.go` 27-28 and 53) and is a fixed one: 2 max - 1 uploads
  can fall into one window's length (`UploadRateLimiter.BoundIsMet`), and never more. It rolls exactly when
  max is 1 (`UploadRateLimiter.RollingIffOne`).
- `sort.Slice` promises no order among equals, and `chunkForSeconds` sorts the stored list again with it. As far as
  that promise goes, it agrees with the seeder exactly when all chunks that compete for the moment are one
  (`ChunkAttribution.SeederAgreesWithServiceIff`); `ChunkAttribution.TiesCanDisagree` gives a stored list and a
  permitted result where it does not. A sort that leaves a sorted slice alone agrees on every stored list
  (`ChunkAttribution.SortedSliceAgrees`); whether the library's does is not part of this model.
- A requeue sweep puts its tasks at the head "so the worker picks them up next" (`tasks.sql` 106-109), and numbers
  them downwards: among themselves they are handed out shortest waiting first
  (`TaskTable.SweepKeepsOrderIff`, `TaskTable.LastRequeuedIsNext`).
- The cap on a user's active tasks (`cfg/lesson_task.go` 16-18) is counted before the insert, and only the lesson is
  locked: calls on different lessons that count at the same time all find room. k of them in flight leave up to
  k - 1 tasks above the cap and no more, so it holds exactly when a user's calls never overlap
  (`TaskCap.CapHoldsIffAlone`, `TaskCap.CapIsMissedByLess`, `TaskCap.CapIsMissed`).
- An empty value reads back as absent, and a value of 2^32 chunks or more does not read back
  (`ChunkedStore.RoundTripIffFits`).
- Low-engagement lessons are said to be consecutive "in course order" (`analytics_queries.go` 115-116); the loop
  sees attempts only. In any order of the lessons that the student's rows follow, a streak is consecutive exactly
  when the student attempted every lesson between its first and its last (`AtRisk.StreakIsConsecutiveIff`); `AtRisk.StreakCanSkip` lists a student who
  did not.
- `normalizeEntry` trims before it cuts, so normalising twice changes an entry again exactly when one of its texts
  was cut behind white space (`RecentAccess.NormalizedIsFixedIff`, `RecentAccess.LongTitleIsCutTwice`).
- `upsertRecentAccess` compares the keys given and then reads everything again, so one page can be listed twice:
  exactly when two items, the visit among them, are read under one key and both are among the 20 kept
  (`RecentAccess.UpsertIsDistinctIff`). Over a list that reading leaves alone it takes a visit that reads as
  another item's key (`RecentAccess.UpsertOfFixedIsDistinctIff`, `RecentAccess.PaddedVisitDoubles`); over a list
  from the cookie with an id cut behind white space, any visit does it (`RecentAccess.AnyVisitDoublesCutId`).

## Model

| member | source | states |
|---|---|---|
| TaskRuns.RunKeepsOwnership | golang/richter/internal/taskqueue/db.go:72-126 | in every run waiting rows have no owner and no heartbeat, running rows have both |
| TaskRuns.TerminalIsFrozen | golang/richter/internal/taskqueue/doc.go:14-19 | after a terminal transition no step of any run, late writes included, changes a row but its progress fields |
| TaskRuns.AtMostOneTerminalMove | golang/richter/internal/taskqueue/db.go:109-121 | over a whole run a task makes at most one terminal transition, and a surviving row tells whether it did |
| TaskRuns.ClaimsMinusReaps | sql/queries/tasks.sql:78-152 | claims minus reaps is 0 or 1, and 1 exactly while the task runs or after it left running for a terminal status |
| TaskRuns.LostWorkerIsPowerless | golang/richter/internal/taskqueue/worker.go:225-253 | a worker that does not own a task changes nothing on it until it claims it again |
| TaskRuns.ReclaimRevivesStaleGoroutine | golang/richter/internal/taskqueue/worker.go:182-196 | after being reaped and claiming again, the same worker's earlier goroutine can finish the task |
| TaskRuns.LateWriteTakesIffReclaimed | golang/richter/internal/taskqueue/worker.go:225-253 | a guarded write after ownership was lost takes effect exactly when the worker claimed the task again and neither a sweep, an end nor a deletion took it since |
| TaskRuns.HeartbeatIsLastSign | sql/queries/tasks.sql:133-159 | the heartbeat column holds the time of the last effective claim or heartbeat |
| TaskRuns.ReapTakesIffSilent | sql/queries/tasks.sql:78-104 | a sweep takes a task back exactly when it runs and its owner was silent longer than the limit |
| TaskRuns.BeatingOwnerIsNeverReaped | golang/richter/internal/taskqueue/doc.go:28-33 | an owner that beats often enough keeps its task whatever other workers and scanners do |
| TaskRecords.WorkerEndsTask | sql/queries/tasks.sql:169-192 | under ownership a success leaves the task succeeded with its output, a failure failed with its message; without it nothing changes |
| TaskRecords.WorkerKeepsTask | sql/queries/tasks.sql:154-245 | heartbeats and partial outputs change just their columns and only under ownership, progress reports under none |
| TaskRecords.CancelEndsTask | sql/queries/tasks.sql:194-206 | a cancel leaves a waiting or running task cancelled and touches no other |
| TaskRecords.ClaimStartsTask | sql/queries/tasks.sql:133-152 | a claim turns a waiting task into a running one of the worker, with its first start kept |
| TaskRecords.VanishesIff | sql/queries/tasks.sql:65-76 | a row vanishes exactly with its lesson, spared ids aside, or with the user who asked for it |
| TaskRecords.StatusTellsHowItEnded | sql/queries/tasks.sql:169-206 | over every run a row is succeeded, failed or cancelled exactly when the last statement that ended its task was of that kind, and holds the output or message and the time of that statement |
| TaskRecords.RowIsAsRequested | sql/queries/tasks.sql:1-12 | over every run lesson, chunk, type, user and input of a row are those it was created with |
| TaskRecords.RowTellsItsHistory | sql/queries/tasks.sql:1-245 | over every run queue number, start and last change of a row are those of the last renumbering, the first claim and the last statement that took effect |
| TaskRecords.RowTellsWhatWasSaid | sql/queries/tasks.sql:169-245 | over every run output and progress of a row are the last ones written by whoever was entitled to |
| TaskRecords.RequeueTakesIffLeftWaiting | sql/queries/tasks.sql:106-131 | a sweep requeues a task exactly when it waits and no statement touched it for longer than the limit |
| TaskTable.SweepOrder | sql/queries/tasks.sql:78-131 | a sweep puts every one of its rows behind, or in front of, all other waiting rows |
| TaskTable.SweptAmongThemselves | sql/queries/tasks.sql:78-131 | among themselves reaped tasks keep the order of the sweep, requeued ones get the reverse, both without gaps from the tail or the head on |
| TaskTable.SweepKeepsOrderIff | sql/queries/tasks.sql:106-131 | a sweep hands its tasks out longest waiting first exactly if it reaps, or requeues at most one |
| TaskTable.LastRequeuedIsNext | sql/queries/tasks.sql:106-131 | after a requeue sweep the task of the batch that waited shortest is first in the queue |
| TaskTable.SweepEffect | sql/queries/tasks.sql:78-131 | a sweep renumbers exactly the listed rows and leaves all others alone |
| TaskTable.SweepIsRun | golang/richter/internal/taskqueue/scanner.go:92-124 | one sweep is a sequence of queue steps, so everything proved of runs holds of it |
| TaskTable.OldestFirst | sql/queries/tasks.sql:78-131 | picks the oldest rows, in order, up to the batch size |
| TaskTable.PostgresDB.InsertTask | sql/queries/tasks.sql:1-12 | a new task is the create step and joins the queue behind every waiting task, whose rows stay as they are |
| TaskTable.PostgresDB.ClaimNextInqueuedTask | sql/queries/tasks.sql:133-152 | claims the first claimable unlocked row of the queue, or none exactly when every claimable row is locked |
| TaskTable.PostgresDB.HeartbeatTask | golang/richter/internal/taskqueue/postgres.go:223-233 | affects one row exactly when the task still runs under this worker |
| TaskTable.PostgresDB.MarkSucceeded | golang/richter/internal/taskqueue/postgres.go:235-248 | leaves an owned running task succeeded with its output and any other table alone; never an error, which is what the interface promises exactly when the worker owns the row |
| TaskTable.PostgresDB.MarkFailed | golang/richter/internal/taskqueue/postgres.go:250-261 | leaves an owned running task failed with its message and any other table alone, with the same answer |
| TaskTable.PostgresDB.MarkCancelled | golang/richter/internal/taskqueue/postgres.go:263-267 | cancels a waiting or running task, whoever owns it |
| TaskTable.PostgresDB.SetTaskCheckpoint | golang/richter/internal/taskqueue/postgres.go:312-320 | writes a partial output exactly under ownership |
| TaskTable.PostgresDB.UpdateTaskProgress | golang/richter/internal/taskqueue/postgres.go:300-310 | the progress write, which has no ownership guard |
| TaskTable.PostgresDB.ReapStaleProcessingBatch | golang/richter/internal/taskqueue/postgres.go:176-191 | reaps the longest silent stale tasks, up to the batch size, behind every waiting task |
| TaskTable.PostgresDB.RequeueOrphanedInqueuedBatch | golang/richter/internal/taskqueue/postgres.go:193-208 | moves the longest waiting tasks in front of the whole queue |
| TaskTable.PostgresDB.ScannerTick | golang/richter/internal/taskqueue/scanner.go:92-124 | one recovery cycle: a reap sweep of the longest silent tasks behind the queue, then a requeue sweep of the longest waiting ones in front of what that left |
| WorkerRuns.NextKeepsInv | golang/richter/internal/taskqueue/worker.go:144-297 | every move of the process keeps the rows valid, every handle older than the counters, and whatever is stopped, done or found lost older than the current claim of an owned task |
| WorkerRuns.DeletionIsLate | golang/richter/internal/taskqueue/worker.go:186-297 | over every run, what deletes the entry of an owned task was left over from before its claim: an earlier goroutine, or a heartbeat that found the task lost |
| WorkerRuns.UnwatchedIff | golang/richter/internal/taskqueue/worker.go:186-297 | over every run a claimed, still owned task has no entry exactly while none is stored yet, or after its last entry was deleted |
| WorkerRuns.NoLeftoverStaysWatched | golang/richter/internal/taskqueue/worker.go:186-297 | a task claimed without leftovers keeps its entry from its store on while it is owned |
| WorkerRuns.HazardComesTrue | golang/richter/internal/taskqueue/worker.go:193-297 | every leftover, undisturbed, deletes the entry and leaves the queue alone |
| WorkerRuns.EntryGoneHadHazard | golang/richter/internal/taskqueue/worker.go:193-297 | and an owned task loses its entry only to a leftover that was there before |
| WorkerRuns.CanLoseIff | golang/richter/internal/taskqueue/worker.go:186-297 | in every reachable state without shutdown, some continuation takes the entry of an owned, registered task exactly when something is left over from before its claim |
| WorkerRuns.LateDeletionsHappen | golang/richter/internal/taskqueue/worker.go:186-297 | two runs in which a reaped task, claimed again by the same worker, ends owned, running and without an entry |
| WorkerRuns.WatchedOwnerIsNeverReaped | golang/richter/internal/taskqueue/worker.go:255-297 | claimed without leftovers and beaten while registered, a task stays owned and registered, with the heartbeat of its last beat, whatever others do |
| Worker.Worker.ClaimNext | golang/richter/internal/taskqueue/worker.go:152-181 | the claim move: the least number among unlocked tasks of the allowed types, or none |
| Worker.Worker.SpawnTask | golang/richter/internal/taskqueue/worker.go:186-196 | the store move: a new goroutine under a new handle, registered by task |
| Worker.Worker.BeatEntry | golang/richter/internal/taskqueue/worker.go:276-283 | the heartbeat move: the task is found owned or lost |
| Worker.Worker.DropEntry | golang/richter/internal/taskqueue/worker.go:290-290 | the delete move, by task and not by handle |
| Worker.Worker.RunTask | golang/richter/internal/taskqueue/worker.go:198-253 | the return of an executor with its guarded terminal write |
| Worker.Worker.LeaveTask | golang/richter/internal/taskqueue/worker.go:193-193 | the deferred delete, by task and not by handle |
| Worker.Worker.ClaimAndSpawn | golang/richter/internal/taskqueue/worker.go:144-196 | claim and store without interference: the goroutine is registered for heartbeats, and nothing is claimed without allowed types |
| Worker.Worker.HeartbeatTick | golang/richter/internal/taskqueue/worker.go:255-297 | one round without interference beats exactly the registered tasks still owned and stops and drops exactly the others |
| Worker.TickedIs | golang/richter/internal/taskqueue/worker.go:265-295 | what a round does to one entry: kept with a heartbeat now, or stopped and dropped |
| Worker.Worker.Finish | golang/richter/internal/taskqueue/worker.go:193-253 | return and deferred delete without interference: the terminal write by outcome, and exactly when this takes the entry of an owned task |
| LessonTasks.NextKeepsInv | golang/richter/internal/svc/ai/lesson_tasks.go:170-238 | every step keeps lock discipline, what a transaction saw, and at most one active task |
| LessonTasks.AtMostOneActiveTask | golang/richter/internal/svc/ai/lesson_tasks.go:170-238 | in every interleaving at most one task per lesson, chunk and type is waiting or running |
| LessonTasks.AnswerIsTheActiveTask | golang/richter/internal/svc/ai/lesson_tasks.go:170-238 | a caller gets the one task active when it looked, or a new one when there was none |
| LessonTasks.CreatingAddsOne | sql/queries/tasks.sql:1-27 | a new task adds exactly itself to the waiting and running tasks of the user it was requested by, and nothing to anyone else's |
| LessonTasks.CapIsKept | golang/richter/internal/svc/ai/lesson_tasks.go:187-196 | calls one at a time, whatever else happens to the queue, never take a user above the cap |
| TaskCap.CapIsMissedByLess | golang/richter/internal/svc/ai/lesson_tasks.go:170-238 | over every interleaving with at most k calls of a user between count and commit, the user has at most cap - 1 + k active tasks |
| TaskCap.CapIsMissed | golang/richter/internal/svc/ai/lesson_tasks.go:170-238 | and for every cap and k some run reaches that |
| TaskCap.CapHoldsIffAlone | golang/richter/internal/svc/ai/lesson_tasks.go:170-238 | so the cap holds in all such runs exactly when k is at most 1 |
| LessonTasks.GetActiveTask | sql/queries/tasks.sql:217-226 | returns a waiting or running row of the lesson, chunk and type exactly when there is one |
| LessonTasks.StartLessonTask | golang/richter/internal/svc/ai/lesson_tasks.go:109-238 | answers, errors, cap and the new row of one call without interference; a new task is the one task its user has more than before |
| LockRegistry.MutualExclusion | golang/richter/internal/svc/ai/locks.go:27-81 | in every interleaving a key has at most one holder |
| LockRegistry.RefsCountUsers | golang/richter/internal/svc/ai/locks.go:27-75 | refs is the number of threads referring to the entry, and exactly the entries in use are mapped |
| LockRegistry.MapHoldsBusyKeysOnly | golang/richter/internal/svc/ai/locks.go:68-81 | the map holds exactly the keys some thread is busy with, so it is empty when all are idle |
| LockRegistry.RefinesOneLockPerKey | golang/richter/internal/svc/ai/locks.go:27-81 | an attempt succeeds exactly when nobody holds the key; a release frees exactly its key; the rest is invisible |
| LockRegistry.RefusedAttemptIsUndone | golang/richter/internal/svc/ai/locks.go:27-45 | a refused attempt leaves the registry as it was |
| LockRegistry.AnalysisLockRegistry.TryAcquire | golang/richter/internal/svc/ai/locks.go:27-53 | one attempt without interference is refused exactly because of another holder |
| LockRegistry.AnalysisLockRegistry.Release | golang/richter/internal/svc/ai/locks.go:55-75 | a release frees its key and forgets the entry with its last user |
| Bits.SetBitMarks | golang/richter/internal/kv/watch_coverage.go:86-92 | setting a bit marks exactly that second |
| Bits.CountOnes | golang/richter/internal/kv/watch_coverage.go:121-124 | the byte-wise population count is the size of the marked set |
| WatchCoverage.CreditAddsFirst | golang/richter/internal/kv/watch_coverage.go:94-132 | the limited marking adds exactly the first missing seconds the budget allows, and nothing else |
| WatchCoverage.AddsFirstIsUnique | golang/richter/internal/kv/watch_coverage.go:94-132 | that description leaves one possible result |
| WatchCoverage.RejectedIff | golang/richter/internal/kv/watch_coverage.go:54-62 | a report is refused exactly when it is not plausible, and for the reason given |
| WatchCoverage.MarksOnlyReported | golang/richter/internal/kv/watch_coverage.go:64-131 | a second is newly marked only if it meets the reported interval and lies below a known duration |
| WatchCoverage.LeavesOutOnlyAtLimit | golang/richter/internal/kv/watch_coverage.go:94-131 | a second the report meets stays unmarked only if the limit is on and one more second would exceed grace plus rate times elapsed time |
| WatchCoverage.MarksAllReported | golang/richter/internal/kv/watch_coverage.go:94-131 | with the limit off, or room for all of them, every second the report meets is marked |
| WatchCoverage.FirstMsIs | golang/richter/internal/kv/watch_coverage.go:108-115 | the first-seen time is written once, by the first report that reaches the bitmap under a limit |
| WatchCoverage.MarkedWasReported | golang/richter/internal/kv/watch_coverage.go:50-136 | over every history a marked second was in some plausible report |
| WatchCoverage.UnlimitedMarksReported | golang/richter/internal/kv/watch_coverage.go:94-98 | with the limit off, over every history exactly the seconds of plausible reports are marked |
| WatchCoverage.CoverageGrowsWithTime | golang/richter/internal/kv/watch_coverage.go:100-131 | in terms of the reports alone: marked seconds are at most grace plus rate times the time since the first report that counted |
| WatchCoverage.CoverageIsBounded | golang/richter/internal/kv/watch_coverage.go:94-132 | marked seconds never exceed grace plus rate times the time seen, even with a clock going backwards |
| WatchCoverage.CoverageOnlyGrows | golang/richter/internal/kv/watch_coverage.go:50-135 | no report ever unmarks a second |
| WatchCoverage.CoverageStore.AddWatchCoverage | golang/richter/internal/kv/watch_coverage.go:50-140 | a report is refused exactly when it is not plausible, or changes this viewer's bitmap as the set specification says, and no other viewer's |
| WatchCoverage.CoverageStore.WatchCoverageFraction | golang/richter/internal/kv/watch_coverage.go:144-187 | the share of marked seconds within the duration, between 0 and 1 without the clamps |
| WatchCoverage.ShareNeverFalls | golang/richter/internal/kv/watch_coverage.go:144-187 | for a fixed duration the share never decreases |
| ChunkedStore.KeysAreApart | golang/richter/internal/kv/kv.go:147-166 | no two logical keys share a record, and none shares one with a raw key |
| ChunkedStore.JoinSplit | golang/richter/internal/kv/kv.go:174-182 | the chunks put together are the value, in as few chunks as possible |
| ChunkedStore.Split | golang/richter/internal/kv/kv.go:174-182 | every chunk holds between 1 and 90000 bytes |
| ChunkedStore.SplitBytes | golang/richter/internal/kv/kv.go:174-182 | the loop cuts exactly these chunks, front to back |
| ChunkedStore.PutUint32 | golang/richter/internal/kv/kv.go:168-172 | four bytes that read back as the number modulo 2^32 |
| ChunkedStore.PutStores | golang/richter/internal/kv/kv.go:50-70 | after a set the key has exactly the chunks of the new value, whatever it had before |
| ChunkedStore.ClearedStoresNothingIffFits | golang/richter/internal/kv/kv.go:123-137 | a delete leaves nothing of the key exactly when its chunk count fits 32 bits |
| ChunkedStore.RoundTripIffFits | golang/richter/internal/kv/kv.go:74-101 | a stored value reads back, empty as absent, exactly when its chunk count fits 32 bits |
| ChunkedStore.FitsIff | golang/richter/internal/kv/kv.go:168-172 | which values that are, by their length |
| ChunkedStore.OthersUntouched | golang/richter/internal/kv/kv.go:50-137 | set and delete change no record of another key |
| ChunkedStore.StoreRefinesMap | golang/richter/internal/kv/kv.go:50-137 | after any run every key holds exactly its last value, in chunks without gaps or leftovers |
| ChunkedStore.RawRecordsUntouched | golang/richter/internal/kv/kv.go:141-150 | raw records hold what was last written to them, whatever the chunked keys do |
| ChunkedStore.GetReturnsLastSet | golang/richter/internal/kv/kv.go:74-101 | a get returns the last value set and not deleted, empty as absent |
| ChunkedStore.KVSvc.Set | golang/richter/internal/kv/kv.go:50-70 | the loops leave the key with the metadata and chunks of the new value and nothing of the old one |
| ChunkedStore.KVSvc.Get | golang/richter/internal/kv/kv.go:74-101 | the loop returns the chunks put together, and nothing for an absent or empty value |
| ChunkedStore.KVSvc.Delete | golang/richter/internal/kv/kv.go:123-137 | the loop removes the metadata and as many chunks as it counts |
| LessonAnalysis.InvalidatedForcesError | golang/richter/internal/svc/ai/analysis_read.go:205-250 | a lost transcript makes the composed status ERROR whatever else succeeded |
| LessonAnalysis.RecoveredIsDoneIff | golang/richter/internal/svc/ai/analysis_read.go:262-281 | with a newest succeeded pipeline run the status is DONE exactly without a failed chunk task |
| LessonAnalysis.DerivesDoneIff | golang/richter/internal/svc/ai/analysis_read.go:200-299 | for every list, exactly when the rows alone make DONE |
| LessonAnalysis.DerivesArtifactsIff | golang/richter/internal/svc/ai/analysis_read.go:200-299 | exactly when they make CHUNKS_READY, and when TRANSCRIPT_EXTRACTED |
| LessonAnalysis.DerivesErrorIff | golang/richter/internal/svc/ai/analysis_read.go:200-299 | exactly when they make ERROR |
| LessonAnalysis.DerivesPendingIff | golang/richter/internal/svc/ai/analysis_read.go:200-299 | exactly when they make PENDING |
| LessonAnalysis.ShownIs | golang/richter/internal/svc/ai/analysis_read.go:353-402 | what is shown of that: the same while a row failed, waits or lives within 90 seconds, else what the artifacts say |
| LessonAnalysis.StatusIsBacked | golang/richter/internal/svc/ai/analysis_read.go:200-402 | CHUNKS_READY is shown only with chunks or a succeeded chunk row, and likewise for every other status with a claim |
| LessonAnalysis.QuietFollowsArtifacts | golang/richter/internal/svc/ai/analysis_read.go:359-402 | with nothing failed, queued or alive, DONE means interactions, CHUNKS_READY means chunks, and ERROR does not occur |
| LessonAnalysis.ShowsProcessingIff | golang/richter/internal/svc/ai/analysis_read.go:200-402 | for every list, exactly when a lesson shows PROCESSING |
| LessonAnalysis.DeadRunShowsProcessingIff | golang/richter/internal/svc/ai/analysis_read.go:366-402 | with nothing queued or alive, exactly when a dead pipeline run keeps the lesson at PROCESSING; without a failed row that is without interactions and without a stage that ever succeeded on its own |
| LessonAnalysis.DeadRunWithChunksShowsProcessing | golang/richter/internal/svc/ai/analysis_read.go:367-402 | and that does happen, with chunks stored |
| LessonAnalysis.DeadRunAfterFailureShowsProcessing | golang/richter/internal/svc/ai/analysis_read.go:359-402 | and with chunks and interactions, when some older stage failed |
| LessonAnalysis.FloorIsIdempotent | golang/richter/internal/svc/ai/analysis_read.go:359-402 | applying the artifact floor twice changes nothing |
| LessonAnalysis.FloorLowersIff | golang/richter/internal/svc/ai/analysis_read.go:353-402 | exactly when the floor lowers a status |
| LessonAnalysis.FloorLowersDone | golang/richter/internal/svc/ai/analysis_read.go:386-402 | and that does happen, after a succeeded run whose artifacts are gone |
| LessonAnalysis.OrderDoesNotMatter | golang/richter/internal/svc/ai/analysis_read.go:200-299 | permuting the task list changes neither status nor reported row |
| LessonAnalysis.LatestRowsSuffice | sql/queries/tasks.sql:52-63 | whether the newest transcript-producing run lost the transcript is the same judged by the latest row per type or by all rows the lesson ever had |
| LessonAnalysis.ReportsDriverIff | golang/richter/internal/svc/ai/analysis_read.go:283-297 | exactly when the message shown is the driving task's |
| LessonAnalysis.OlderFailureCanSpeak | golang/richter/internal/svc/ai/analysis_read.go:283-297 | a lesson whose error shows an older stage's message |
| LessonAnalysis.TranscriptInvalidated | golang/richter/internal/svc/ai/analysis_read.go:325-345 | finds whether the newest transcript-producing run lost the transcript |
| LessonAnalysis.DeriveAnalysisFromTasks | golang/richter/internal/svc/ai/analysis_read.go:200-299 | derives the specified status, and a message exactly when an eligible row has one |
| LessonAnalysis.ApplyArtifactFloor | golang/richter/internal/svc/ai/analysis_read.go:359-402 | the loop stops at a failed, queued or living task, and otherwise fits the status to the artifacts |
| LessonAnalysis.GetLessonAnalysis | golang/richter/internal/svc/ai/analysis_read.go:55-191 | status, message, artifacts and transcript of the answer, the older table's row included; it never shows artifacts that contradict its status |
| OrgMembers.EveryOrgKeepsAnOwner | golang/richter/internal/svc/organizations/organizations.go:77-93 | over every run of every operation but user deletion each organisation keeps an active owner |
| OrgMembers.GuardIsExact | golang/richter/internal/svc/orgmembers/orgmembers.go:252-260 | the last-owner guard refuses a change exactly when it would leave no active owner |
| OrgMembers.OwnersMakeOwners | golang/richter/internal/svc/orgmembers/orgmembers.go:84-89 | only owners and system administrators make or unmake owners, besides an invited owner accepting and removals |
| OrgMembers.ChangesAreAskedFor | golang/richter/internal/svc/orgmembers/orgmembers.go:64-522 | over every step a new, changed or vanished membership was asked for by a system administrator, by an active admin or, where owners are concerned, an active owner of that organisation; or is the invited user's own answer, which keeps the role, a checked removal, a creation or a deletion |
| OrgMembers.PermittedChangesTakeEffect | golang/richter/internal/svc/orgmembers/orgmembers.go:64-341 | and exactly those who may ask get it, the last active owner aside |
| OrgMembers.PermittedOthersTakeEffect | golang/richter/internal/svc/orgmembers/orgmembers.go:461-522 | exactly when creating, deleting and answering an invitation succeed |
| OrgMembers.RemovalCheckIff | golang/richter/internal/svc/orgmembers/orgmembers.go:356-406 | exactly for whom the check of a removal passes |
| OrgMembers.RefusalsAreTrue | golang/richter/internal/svc/orgmembers/orgmembers.go:64-522 | every error says what is the case |
| OrgMembers.PromptRemovalIsByOwner | golang/richter/internal/svc/orgmembers/orgmembers.go:356-406 | checked and committed at once, an owner is removed only at an owner's or system administrator's request |
| OrgMembers.OwnerRoleIsGranted | golang/richter/internal/svc/orgmembers/orgmembers.go:230-251 | a role gained in a run comes from a grant that still stands, made with the organisation, by an owner or by a system administrator |
| OrgMembers.OwnerRoleIff | golang/richter/internal/svc/orgmembers/orgmembers.go:230-276 | over every run a user has the owner role exactly by an effective grant, or from before, that no effective step revoked since |
| OrgMembers.DelayedRemovalIff | golang/richter/internal/svc/orgmembers/orgmembers.go:356-442 | after a check that passed for an admin, a commit any steps later takes an owner away exactly when a grant since still stands and the target is not the only active owner |
| OrgMembers.AdminCanRemoveFreshOwner | golang/richter/internal/svc/orgmembers/orgmembers.go:356-442 | and that does happen |
| OrgMembers.DeletingUserKeepsOwnedIff | golang/richter/internal/svc/users/users.go:409-436 | deleting a user orphans exactly the organisations the user owned alone |
| OrgMembers.DeletingUserCanOrphan | golang/richter/internal/svc/users/users.go:409-436 | and that does happen, to an owner who created nothing |
| OrgMembers.RemovalEndsCourses | golang/richter/internal/svc/orgmembers/orgmembers.go:429-441 | a removal ends exactly that user's courses in that organisation |
| OrgMembers.CourseIsLostIff | sql/queries/course_members.sql:21-34 | over every step nobody gains a course, and one is lost exactly by the removal of its member, its organisation or its user |
| OrgMembers.OrganisationIsLostIff | golang/richter/internal/svc/organizations/organizations.go:297-320 | organisations and their courses vanish exactly by deletion of the organisation |
| OrgMembers.OneRowIffAlone | sql/queries/organization_members.sql:56-61 | the count is at most one exactly when the owner is alone |
| OrgMembers.OrgMembersSvc.CreateOrganization | golang/richter/internal/svc/organizations/organizations.go:64-100 | errors in order, and the creator becomes active owner |
| OrgMembers.OrgMembersSvc.AddOrganizationMember | golang/richter/internal/svc/orgmembers/orgmembers.go:64-108 | errors in order and the new row |
| OrgMembers.OrgMembersSvc.UpdateOrganizationMemberRole | golang/richter/internal/svc/orgmembers/orgmembers.go:213-276 | errors in order and the new role |
| OrgMembers.OrgMembersSvc.UpdateOrganizationMemberStatus | golang/richter/internal/svc/orgmembers/orgmembers.go:278-341 | errors in order and the new status |
| OrgMembers.OrgMembersSvc.CommitRemovalTx | golang/richter/internal/svc/orgmembers/orgmembers.go:408-442 | the guarded removal with its cascade |
| OrgMembers.OrgMembersSvc.RemoveOrganizationMember | golang/richter/internal/svc/orgmembers/orgmembers.go:343-455 | check and removal without interference |
| OrgMembers.OrgMembersSvc.RespondToOrganizationInvitation | golang/richter/internal/svc/orgmembers/orgmembers.go:461-522 | only a pending invitation is accepted or declined |
| UploadRateLimiter.Configured | golang/richter/internal/svc/storage/rate_limiter.go:31-44 | a limit that is not positive means none; otherwise it is the configured one, with the configured window or a minute |
| UploadRateLimiter.AtMostTwoWindowsShort | golang/richter/internal/svc/storage/rate_limiter.go:70-89 | no closed interval of one window's length sees more than 2 max - 1 grants |
| UploadRateLimiter.BoundIsMet | golang/richter/internal/svc/storage/rate_limiter.go:70-89 | for every limit and window some trace reaches that bound |
| UploadRateLimiter.RollingIffOne | golang/richter/internal/svc/storage/rate_limiter.go:25-55 | at most max grants in every closed interval of one window's length, on all ordered traces, exactly when max is 1 |
| UploadRateLimiter.CounterCountsWindow | golang/richter/internal/svc/storage/rate_limiter.go:79-88 | the counter is the number of grants since its window opened, at most max |
| UploadRateLimiter.RefusedIffWindowIsFull | golang/richter/internal/svc/storage/rate_limiter.go:79-88 | a request is refused exactly when its window is open and has given max grants |
| UploadRateLimiter.BucketsAreApart | golang/richter/internal/svc/storage/rate_limiter.go:91-101 | two requests share a bucket exactly when user and lesson agree |
| UploadRateLimiter.LessonIsSecondSegment | golang/richter/internal/svc/storage/rate_limiter.go:91-101 | the lesson of a key is what stands between its first slash and the next one, or its end |
| UploadRateLimiter.BucketIsByLesson | golang/richter/internal/svc/storage/rate_limiter.go:91-101 | so uploads below one lesson share a bucket whatever else the key says, and keys without a lesson share another |
| UploadRateLimiter.AnonymousIsUnlimited | golang/richter/internal/svc/storage/rate_limiter.go:71-74 | a request without a user is let through and counted nowhere |
| UploadRateLimiter.BucketsAreIndependent | golang/richter/internal/svc/storage/rate_limiter.go:75-88 | a bucket is what its own requests alone would have made it |
| UploadRateLimiter.DecisionsAreLocal | golang/richter/internal/svc/storage/rate_limiter.go:70-89 | requests on other buckets never change a decision |
| UploadRateLimiter.EveryBucketIsLimited | golang/richter/internal/svc/storage/rate_limiter.go:70-89 | the bound holds for every bucket of every trace |
| UploadRateLimiter.InMemoryUploadRateLimiter.Allow | golang/richter/internal/svc/storage/rate_limiter.go:70-89 | one request: its answer and the new counters |
| AtRisk.LowIff | golang/richter/internal/svc/interactions/attempt_queries.go:317-329 | an attempt counts as low exactly when the mean of both clamped fractions is below 39.5 per cent |
| AtRisk.EngagementIsNearest | golang/richter/internal/svc/interactions/attempt_queries.go:317-329 | engagement is the mean of both clamped fractions as the nearest whole per cent, half counting up |
| AtRisk.LongestLowRun | golang/richter/internal/svc/interactions/analytics_queries.go:190-213 | the earliest longest run of low lessons in one student's rows |
| AtRisk.BuildAtRiskStudents | golang/richter/internal/svc/interactions/analytics_queries.go:177-226 | one entry for exactly the students with two low lessons in a row, in order, with the earliest longest run |
| AtRisk.StreakIsConsecutiveIff | golang/richter/internal/svc/interactions/analytics_queries.go:115-226 | in any order of the course that the student's rows follow, a low streak is consecutive exactly when it passes over no lesson the student never attempted |
| AtRisk.StreakCanSkip | golang/richter/internal/svc/interactions/analytics_queries.go:171-226 | a listed student whose streak passes over a lesson |
| SeedSegments.NoEndWithin | golang/richter/internal/seed/dev_courses.go:484-502 | text is cut behind every sentence end and nowhere else |
| SeedSegments.SentencesEndLate | golang/richter/internal/seed/dev_courses.go:484-502 | no sentence goes on behind a full stop, exclamation mark, question mark or line break |
| SeedSegments.SentencesKeepText | golang/richter/internal/seed/dev_courses.go:484-502 | sentences are trimmed, not blank, and hold every visible character in order |
| SeedSegments.SplitSentences | golang/richter/internal/seed/dev_courses.go:484-502 | the loop collects exactly these sentences |
| SeedSegments.DeriveSeedSegments | golang/richter/internal/seed/dev_courses.go:452-480 | segments tile the duration without gap or overlap, each as long as its share of the text |
| ChunkAttribution.AttributeQuestion | golang/richter/internal/seed/dev_courses.go:770-788 | the first chunk around a moment, else the last one begun, else the first |
| ChunkAttribution.ChunkForSeconds | golang/richter/internal/svc/interactions/interactions.go:347-362 | the same rule on the list sorted in place; the seeder's chunk whenever the sort leaves the list alone |
| ChunkAttribution.AttributionIsUnique | golang/richter/internal/svc/interactions/interactions.go:338-346 | the rule names one chunk |
| ChunkAttribution.LastBegunIsLatest | golang/richter/internal/svc/interactions/interactions.go:338-346 | on a sorted list the last chunk begun is the latest one begun |
| ChunkAttribution.TiledAttribution | golang/richter/internal/seed/dev_courses.go:775-788 | on chunks without gap or overlap a moment belongs to the chunk around it, or else to the first or the last |
| ChunkAttribution.SeederAgreesWithServiceIff | golang/richter/internal/svc/interactions/interactions.go:330-362 | for every stored list and moment, every result of the service's sort gives the seeder's chunk exactly when all candidates are that chunk |
| ChunkAttribution.CandidatesTie | golang/richter/internal/svc/interactions/interactions.go:338-362 | on a sorted list the candidates are the chunks that start with the attributed one and cover what it covers |
| ChunkAttribution.SeederAgreesWithService | golang/richter/internal/svc/interactions/interactions.go:347-362 | with distinct starts there is one candidate and one sorted order, so both choose the same chunk |
| ChunkAttribution.SortedSliceAgrees | golang/richter/internal/svc/interactions/interactions.go:347-362 | the modelled sort leaves a sorted slice alone, and then the service answers with the seeder's chunk on every stored list, ties included |
| ChunkAttribution.TiesCanDisagree | golang/richter/internal/svc/interactions/interactions.go:351-361 | a stored list, and a result the documentation of the service's sort permits on it, with another answer than the seeder's |
| SeedLayout.FitKeepsOrder | golang/richter/internal/seed/dev_courses.go:790-803 | fitting keeps the order of all chunk bounds |
| SeedLayout.FitOnlyShrinks | golang/richter/internal/seed/dev_courses.go:790-803 | fitting never moves a bound away from 0 or makes a chunk longer |
| SeedLayout.AllFit | golang/richter/internal/seed/dev_courses.go:790-803 | every chunk ends at most half a second behind the video |
| SeedLayout.SpanFillsVideo | golang/richter/internal/seed/dev_courses.go:790-803 | when the lesson is fitted at all, what reached furthest ends exactly with the video |
| SeedLayout.LayOut | golang/richter/internal/seed/dev_courses.go:726-803 | the whole layout: stable order, attribution by the original times, one factor, everything within the video; without chunks one over all questions |
| Sorting.StableSortIsUnique | golang/richter/internal/seed/dev_courses.go:764-768 | sorted lists with the same ties in the same order are equal |
| Sorting.SortIsTheStableSort | golang/richter/internal/seed/dev_courses.go:764-768 | whatever sorts and keeps ties in order, as the library promises, returns what the modelled sort returns |
| Sorting.SortPlaces | typescript/heino/src/lib/recent-access.ts:169-173 | sorting puts every element at its rank: the number of elements less, or tied and before it |
| Stitching.StitchedRecovers | golang/richter/internal/svc/ai/media_transcription.go:522-526 | segment j of chunk i is in its place, counted over the chunks before, and taking off its chunk's offset gives it back |
| Stitching.EveryPlaceIsTaken | golang/richter/internal/svc/ai/media_transcription.go:522-526 | and there is no other segment |
| Stitching.SegmentsStayInTheirChunk | golang/richter/internal/svc/ai/media_transcription.go:522-533 | a segment of chunk i lies between the offsets of chunk i and chunk i + 1 |
| Stitching.StitchedIsOrdered | golang/richter/internal/svc/ai/media_transcription.go:522-533 | ordered, or non-overlapping, chunks stitch to such a list within the total length |
| Stitching.WavDurationSeconds | golang/richter/internal/svc/ai/media_transcription.go:220-230 | 0 exactly for a missing file or no data behind the header; else seconds times the byte rate is the size without the header |
| Stitching.JoinedIsSpaced | golang/richter/internal/svc/ai/media_transcription.go:527-532 | the text is the space-join of the non-blank trimmed pieces |
| Stitching.JoinedKeepsText | golang/richter/internal/svc/ai/media_transcription.go:527-532 | white space aside, it is what was heard, chunk after chunk |
| Stitching.Stitch | golang/richter/internal/svc/ai/media_transcription.go:485-543 | first error, empty transcript, or the joined text with all shifted segments |
| SpeechText.PassesFuse | golang/richter/internal/svc/ai/tts_normalize.go:50-60 | the three replacement passes equal one, because no replacement is rewritten again |
| SpeechText.MatchIsCall | golang/richter/internal/svc/ai/tts_normalize.go:69-73 | however the expression divides the inside, it matches the same text and reads the same words |
| SpeechText.CallMatches | golang/richter/internal/svc/ai/tts_normalize.go:22-27 | and it matches wherever the scan finds notation |
| SpeechText.OutputIsClean | golang/richter/internal/svc/ai/tts_normalize.go:50-64 | the output has nothing left to rewrite, no two blanks in a row and no outer white space |
| SpeechText.FixedIffClean | golang/richter/internal/svc/ai/tts_normalize.go:20-65 | normalising changes a text exactly when it is not clean |
| SpeechText.NormalizingIsIdempotent | golang/richter/internal/svc/ai/tts_normalize.go:20-65 | normalising twice is normalising once, even across languages |
| SpeechText.NothingVisibleIsLost | golang/richter/internal/svc/ai/tts_normalize.go:20-65 | white space aside, the output is the notation read out and the rewritten text, in order |
| SpeechText.PlainTextIsKept | golang/richter/internal/svc/ai/tts_normalize.go:20-65 | every character that is neither white space nor replaced by words, inside a notation or outside, is in the output in order; only the letter that begins a notation may go |
| SpeechText.NotationIsSpoken | golang/richter/internal/svc/ai/tts_normalize.go:22-48 | a notation by itself is read as its name and its inside, for all insides and both languages |
| SpeechText.SuperscriptWords | golang/richter/internal/svc/ai/tts_normalize.go:85-118 | the loop replaces each superscript of a run by its words |
| SpeechText.NormalizeForTTS | golang/richter/internal/svc/ai/tts_normalize.go:20-65 | the passes compute the specified text, and it is clean |
| RecentAccess.NormalizedIsSafe | typescript/heino/src/lib/recent-access.ts:82-120 | what is read is complete, bounded and links only into its own area and organisation |
| RecentAccess.PlainIsReadIff | typescript/heino/src/lib/recent-access.ts:82-120 | an entry of short, trimmed texts is read, as it is, exactly when it is complete and links into its own area and organisation |
| RecentAccess.AreaIs | typescript/heino/src/lib/recent-access.ts:60-71 | an entry without a known area is listed under that of its kind |
| RecentAccess.LongNamesCount | typescript/heino/src/lib/recent-access.ts:85-95 | where a field has both names the long one counts |
| RecentAccess.CleaningIsDoneIff | typescript/heino/src/lib/recent-access.ts:77-80 | exactly when cleaning a string again changes it |
| RecentAccess.NormalizedIsFixedIff | typescript/heino/src/lib/recent-access.ts:77-120 | reading an entry again changes it exactly when one of its texts was cut behind white space |
| RecentAccess.LongTitleIsCutTwice | typescript/heino/src/lib/recent-access.ts:77-120 | a long title whose 160th character is white space makes such an entry |
| RecentAccess.CompactReadsAsLong | typescript/heino/src/lib/recent-access.ts:87-95 | the short form in the cookie reads as the entry itself |
| RecentAccess.Serialize | typescript/heino/src/lib/recent-access.ts:137-157 | writes the largest prefix of at most 20 entries that fits |
| RecentAccess.ParseSerialized | typescript/heino/src/lib/recent-access.ts:122-157 | parsing it gives exactly that prefix back |
| RecentAccess.ParseReadsAgain | typescript/heino/src/lib/recent-access.ts:122-157 | for every list, parsing what was serialised gives the entries written as they are read, newest first |
| RecentAccess.ParsedIsSafe | typescript/heino/src/lib/recent-access.ts:122-135 | whatever the cookie holds, the list is newest first, at most 20 long and safe to link to |
| RecentAccess.UpsertIsDistinctIff | typescript/heino/src/lib/recent-access.ts:159-174 | for every list a visit leaves at most 20 items, newest first; two of them share a key exactly when two items, the visit among them, are read under one key and rank among the 20 of what is read |
| RecentAccess.UpsertOfFixedIsDistinctIff | typescript/heino/src/lib/recent-access.ts:159-174 | over distinct entries that reading leaves alone, exactly when the visit reads as another item's key and both rank among the 20 |
| RecentAccess.AnyVisitDoublesCutId | typescript/heino/src/lib/recent-access.ts:122-174 | a list under distinct keys, read from a cookie with an id cut behind white space, on which any visit to another page lists an item twice |
| RecentAccess.LongIdIsFixed | typescript/heino/src/lib/recent-access.ts:82-120 | and there is such a list on every platform |
| RecentAccess.TopIsDistinctIff | typescript/heino/src/lib/recent-access.ts:169-173 | what is kept of any list has distinct keys exactly when no two items of a key rank among the 20 |
| RecentAccess.PaddedVisitDoubles | typescript/heino/src/lib/recent-access.ts:159-174 | a listed entry visited under its id with white space in front is listed twice, for every entry that reading leaves alone |
| RecentAccess.PlainIsFixed | typescript/heino/src/lib/recent-access.ts:82-120 | reading leaves every complete entry of short, trimmed texts alone |
| RecentAccess.SampleIsFixed | typescript/heino/src/lib/recent-access.ts:82-120 | and there is such an entry on every platform |
| RecentAccess.VisitComesFirst | typescript/heino/src/lib/recent-access.ts:159-174 | a readable visit comes first when nothing is later than now |
| RecentAccess.KeyTextsAgreeIff | typescript/heino/src/lib/recent-access.ts:36-38 | two entries have one key, as the program writes it, exactly when area, kind and id agree |

## Left out

- SQL connection pools, LISTEN/NOTIFY, object storage, ffmpeg, speech recognition and text generation: foreign systems, kept only as the steps or answers the code relies on.
- The worker's `reconnect` on start: its id is new in every process, so it finds nothing.
- Isolation anomalies of concurrent membership transactions below serialisable isolation: every transaction is one step.
- One clock is shared by all queue steps; clock differences between machines are not modelled.
- Floating-point rounding, the ends of 32-bit and 64-bit counters outside the chunk count, and packing of tuples to bytes.
- Failing queries, timeouts and retries: a step happens or does not. In `WorkerRuns` a heartbeat query that fails is a visit that was not made, and a terminal write that fails under a cancelled context is an interruption.
- `WorkerRuns.DeletionIsLate`, like what follows from it, takes for granted what the comment at `worker.go` 227-229 does: an executor reports an interruption only when its context was cancelled. After shutdown (`stopping`) every goroutine may stop and leave its task to the scanner, on purpose, so nothing is claimed of entries then.
- `LockRegistry.AnalysisLockRegistry.TryAcquire`: entries are values under ids instead of heap objects, so aliasing of an entry after it left the map is by id.
- `UploadRateLimiter.InMemoryUploadRateLimiter.Allow`: counters are values in the map; times come in the order in which requests take the mutex.
- `ChunkedStore.SplitBytes`: chunks are copies, not slices of the caller's buffer.
- `RecentAccess.ParseSerialized`: relies on decoding to undo encoding; lone surrogates left by cutting a string, on which the platform's encoder fails, and times that are not integers are not modelled.
- `SpeechText.NormalizeForTTS`: text is a sequence of code points; invalid UTF-8 is not modelled.
- `StageStatus` and the other status functions take the task list as the query returns it, one row per type; a list with two rows of a type does not occur.
- Names and slugs of organisations, the listing and reading operations of all services, token validation, and pagination.
- Normalisation of interaction start times, answer visibility and protocol conversion in `GetLessonAnalysis`; `optionStatsByInteraction`, grading and engagement averages: each is one formula or one query.
- `runGeminiChunk` clean-up, prompts, and all user-interface code.
