# minimodal: a verified model of the orchestrator's core

minimodal runs submitted functions on a pool of workers. The orchestrator
(`orchestrator/`, Go) keeps every job in a store, either one BoltDB file or a
Raft-replicated set of them, hands jobs to workers, takes them back from
workers that die, streams their logs to clients, and scales the worker pool.
The worker (`worker/`, Python) runs tasks in warm child processes and ships
their output.

This project models that core in Dafny and proves what it is built to
guarantee. Where the code mutates objects the model has a class with the same
fields and loops, each method proved against a function of the old state; the
guarantees about runs are lemmas about those functions or about step systems
whose steps use them.

| file | models |
|---|---|
| `Jobs.dfy` | the job record, statuses, the result event |
| `JobStore.dfy` | `BoltStore`: two buckets, one atomic method per transaction |
| `RaftFsm.dfy` | the command log, `jobFSM`, snapshots, idempotent submits |
| `RaftLog.dfy` | logs as `RaftStore` builds them: versions, linearizability, the idempotency index |
| `Restart.dfy` | the nodes over all their lifetimes: replay over a populated `fsm.db`, snapshots at any moment on any node |
| `RaftStore.dfy` | `RaftStore` on one such node against an arbitrary cluster: `apply`, the compare-and-swap loop, `PutJob` |
| `Mutators.dfy` | every closure passed to `Transition`, and what follows for whole replicated histories |
| `WorkerPool.dfy`, `Scheduler.dfy`, `Server.dfy` | the pool, `Dispatch`, recovery, the reaper's follow-up |
| `Lifecycle.dfy`, `LifecycleRuns.dfy` | invokers, drainer, reaper, reporters, shutdown, crash and recovery interleaved: what every run keeps, and what it achieves |
| `LogHub.dfy`, `Watch.dfy`, `WatchRuns.dfy` | the log fan-out with its ledger, and `WatchJob` streams over it: their shape, their content, their end |
| `Autoscaler.dfy`, `AutoscalerRuns.dfy` | the policy loop, and exactly when it launches, stops and cleans up |
| `Lru.dfy`, `WarmPool.dfy`, `LogStream.dfy`, `Framing.dfy` | result cache, warm pool bookkeeping, line assembly and batching, message framing |
| `Sets.dfy`, `Decimal.dfy` | finite sets and their listings; numbers as text |

## Main results

- **Replication.** A log is built of fresh-id submits, of swaps whose mutator
  ran on a record some node had read, and of puts numbered after a local read.
  Unless a put of the job in between was overtaken, a swap wins exactly when
  nothing wrote the job since its read, and the table equals running the
  winning mutators one at a time (`RaftLog.LoserWasOvertaken`,
  `RaftLog.WinnerIsAtomicExactly`, `RaftLog.Linearizable`).
- **Restart.** However often nodes crash, snapshot mid-replay, install each
  other's snapshots and replay over what `fsm.db` then holds, once a node has
  applied as far as its store had ever been it is on the clean run
  (`Restart.RestartConverges`), and whatever it serves meanwhile was the job's
  record at some point of the log (`Restart.RestartStaysHonest`).
- **One write per call.** Against any cluster behaviour,
  `RaftStore.Transition` writes at most once: exactly one of its entries when
  it reports success, none otherwise, except that a proposal whose fate Raft
  did not report may still land (`RaftStore.RaftStore.Transition`).
- **No orphans.** Under every interleaving, while serving, each PENDING job is
  queued, in the drainer's hands, or about to be enqueued
  (`Lifecycle.NoPendingJobOrphaned`); the queue is first in, first out
  (`LifecycleRuns.FirstInFirstOut`), a sweep comes to every job it found
  (`LifecycleRuns.SweepsVisitAll`), and a job nobody takes fails after exactly
  the configured attempts (`LifecycleRuns.AttemptsAreUsed`,
  `LifecycleRuns.GivesUpAfterAll`).
- **The interleaved drainer is Dispatch.** Left alone, its steps leave the very
  record `Scheduler.Dispatch` promises (`LifecycleRuns.DrainerDispatches`).
- **Terminal states absorb; the retry count is a ledger.** Over all runs and
  lifetimes, on both stores (`Mutators.TerminalAbsorbs`, `Mutators.FinishedBy`,
  `Lifecycle.TerminalAbsorbs`, `Mutators.RetryLedger`, `Lifecycle.RetryLedger`).
- **Watch streams.** Status first, one result and it comes last, log lines in
  order, nothing lost that need not be (`Watch.StreamIsWellFormed`). The
  statuses are the job's own (`WatchRuns.FirstStatusIsTheJobs`,
  `WatchRuns.StatusesAlternate`), the lines are what workers sent
  (`WatchRuns.StreamHasAllLines`), and once the job has ended every stream can
  end by its own steps (`WatchRuns.StreamCanEnd`).
- **The autoscaler's acts, from the outside.** A tick launches, stops or cleans
  up exactly when what the ticks saw and did calls for it
  (`AutoscalerRuns.LaunchesExactly`, `AutoscalerRuns.StopsExactly`,
  `AutoscalerRuns.CleansUpExactly`).
- **Idempotent submits.** A submit creates its job exactly when it has no key
  or no earlier submit had it (`RaftLog.CreatesExactly`).

## Where the code does not meet a plausible claim

- Versions do not always order a job's history in Raft mode: `PutJob` can
  reuse one (`RaftLog.PutReusesVersion`). They do exactly when no put of the
  job was overtaken by a write between its read and its commit
  (`RaftLog.VersionsOrderExactly`). Such a put can be lost to a swap that had
  not seen it (`RaftLog.OvertakenPutIsLost`); a winning swap is atomic exactly
  when there was none since its read (`RaftLog.WinnerIsAtomicExactly`).
  Nothing but tests calls `PutJob`.
- An indexed job can lose its key (`RaftLog.KeyCanBeLost`). It keeps it exactly
  when nothing stores the job with another (`RaftLog.KeyCarriedExactly`); the
  orchestrator's own closures never do (`Mutators.IndexPointsToItsJob`).
- The managed count can exceed `Max`: `Autoscaler.MaxCanBeExceeded` is a run,
  `Autoscaler.ExceedsMaxExactly` says when a tick does it, and
  `Autoscaler.ManagedNeverExceedsMax` is what holds.
- Under Raft the reaper can requeue a job it has just marked FAILED instead of
  announcing it: `Server.FollowUpCanMiss`, with the exact condition in
  `Server.FollowUpFitsExactly` and, for whole logs, `Server.FollowUpFitsInLog`.
  On BoltStore it cannot (`Server.FollowUpFitsWithoutConflict`).
- In BoltStore mode startup recovery blocks for good when more than 10000 jobs
  are unfinished, because the drainer starts after it
  (`Server.Server.RecoverUnfinishedJobs`). In Raft mode it runs at each
  leadership gain, behind whatever is queued and with the drainer at work, so
  a full queue only delays it.
- A task strands its warm child exactly when pickling its request fails
  (`WarmPool.StrandsExactly`, `WarmPool.StrandedForGood`): that happens between
  taking the child and the guarded block. The request is a dict of two byte
  strings, so only running out of memory can do it.
- `RecordHeartbeat` answers true for a worker that had been declared dead and
  revives it; its comment says "known and still alive". The model follows the
  code (`WorkerPool.WorkerPool.RecordHeartbeat`).

## Model

The first rows are the main results; the rest follow the files.

| member | source | states |
|---|---|---|
| `RaftLog.Linearizable` | orchestrator/raft_store.go:182-218 | unless an overtaken put of its job fell between a winning swap's read and commit, the replicated table equals running the winning mutators serially in log order |
| `RaftLog.WinnerIsAtomicExactly` | orchestrator/raft_store.go:154-218 | a swap that wins is atomic, nothing having written the job since its read, exactly when no put of the job in between was overtaken |
| `RaftLog.VersionsOrderExactly` | orchestrator/raft_store.go:154-166 | versions order a job's whole history exactly when no put of it was overtaken by a write between its read and its commit (or such a put changed nothing) |
| `Restart.RestartConverges` | orchestrator/raft_store.go:74-105 | after any series of applied commands, snapshots, crashes and installed snapshots on any nodes, a node that has applied as far as its store had ever been is on the clean run |
| `Restart.CatchesUp` | orchestrator/raft_store.go:74-105 | from wherever the cluster has come to, any node, new or replaying, gets onto the full clean run by applying alone |
| `Restart.RestartStaysHonest` | orchestrator/raft_store.go:220-228 | at every moment of such a series, mid-replay too, every record a node serves is the job's record at some prefix |
| `Restart.SnapshotFromAnyNode` | orchestrator/raft_fsm.go:80-105 | two real FSM objects: a snapshot taken at any moment of such a series, also mid-replay, restored over anything and followed by the rest of the log, ends on the clean run |
| `RaftStore.RaftStore.Transition` | orchestrator/raft_store.go:186-218 | true: one of its entries wrote the job, with the mutator run atomically at that point if no put of the job since its read was overtaken, and all its others conflicted; otherwise all conflicted, and it gives up exactly after 16; a skip or abort answers a record the job really had; refused only when this node is not the leader, left open only when Raft failed, and then at most one proposal |
| `RaftFsm.SubmitOnce` | orchestrator/job_store.go:323-351 | of any two submits with one key anywhere in any log, the later creates nothing and returns the earlier id |
| `RaftLog.CreatesExactly` | orchestrator/job_store.go:323-351 | a submit creates exactly when it has no key or no earlier submit had it; then it answers its own id and its record is the row; otherwise nothing changes and it answers the first one's id |
| `RaftLog.KeyCarriedExactly` | orchestrator/job_store.go:323-351 | an indexed job carries its key at every index exactly when no put or winning swap ever stores it with another |
| `Mutators.TerminalAbsorbs` | orchestrator/scheduler.go:89-152 | once DONE or FAILED nothing but bookkeeping times and version changes, and the result event is one and the same, at every later index |
| `Mutators.FinishedBy` | orchestrator/server.go:203-388 | a finished job was finished by one entry, and its result event is at every later index, field by field, what that report said, or the reap's or give-up's error and nothing else; a report also freed the payload |
| `Mutators.RetryLedger` | orchestrator/scheduler.go:144-152 | the retry count equals committed reverts plus committed reaper writes, over all leaders and lifetimes |
| `Lifecycle.NoPendingJobOrphaned` | orchestrator/server.go:122-244 | while serving, each PENDING job is queued, held by the drainer, or held by an actor about to enqueue it |
| `Lifecycle.RecoveryQueuesEachOnce` | orchestrator/server.go:122-145 | when recovery is through, the queue is exactly the unfinished jobs, each once, all PENDING |
| `Lifecycle.TerminalAbsorbs` | orchestrator/server.go:131-224 | no continuation of any run changes a finished record, crashes included |
| `Lifecycle.RetryLedger` | orchestrator/scheduler.go:144-152 | retry count equals reverts plus requeues plus retirements, requeues at most MaxRetries, PENDING implies no worker |
| `LifecycleRuns.AttemptsAreUsed` | orchestrator/server.go:161-227 | after every run: dispatch attempt n is made after exactly n-1 passes in which no worker took the job, and it is given up as exhausted after exactly maxAttempts of them |
| `LifecycleRuns.FirstInFirstOut` | orchestrator/server.go:229-244 | in every lifetime the jobs enqueued, in order, are the jobs taken followed by the queue |
| `LifecycleRuns.DrainerDispatches` | orchestrator/scheduler.go:81-154 | left alone, the drainer's steps over any worker order Dispatch could take leave the record, the retries and the answer Dispatch promises, then it rests, sleeps or gives up as attemptDispatch does |
| `LifecycleRuns.SweepsVisitAll` | orchestrator/server.go:265-316 | after every run: the jobs sweeps found RUNNING on dead workers are those visited followed by those to visit, and a sweep finds exactly them |
| `LifecycleRuns.InvokesExactly` | orchestrator/server.go:413-453 | over all lifetimes an invocation makes its job exactly when it has no key or no earlier one had it, and else changes nothing |
| `Watch.StreamIsWellFormed` | orchestrator/watch.go:20-100 | a stream that ended by itself: a status first (which one: `WatchRuns.FirstStatusIsTheJobs`), exactly one result and last, lines in append order without repetition, and complete up to the terminal transition for an early watcher without overflow, whether or not the terminal event reached its mailbox |
| `Watch.ResultNeverChanges` | orchestrator/watch.go:146-159 | all streams that ever end carry the same result |
| `WatchRuns.FirstStatusIsTheJobs` | orchestrator/watch.go:24-42 | after every run: the first thing a stream sent is the status the record had when that watcher asked |
| `WatchRuns.StatusesAlternate` | orchestrator/watch.go:39-84 | after every run: no stream tells one status twice in a row, and it remembers the last it told |
| `WatchRuns.StreamHasAllLines` | orchestrator/watch.go:20-100 | a closed stream of an early watcher without overflow begins with every line workers sent for the job before it ended, clipped, in order |
| `WatchRuns.StreamCanEnd` | orchestrator/watch.go:58-100 | once the job has ended, every open stream can end by its own steps alone, whatever the hub dropped |
| `LogHub.LedgerBalances` | orchestrator/loghub.go:65-158 | after any calls: the buffer is the first maxLines accepted lines and `dropped` the rest; each mailbox holds an in-order selection of what was offered; nothing follows the result; a terminal entry has a subscriber |
| `LogHub.MailboxLedger` | orchestrator/loghub.go:65-158 | taken plus waiting plus dropped equals lines accepted while subscribed plus one if finished |
| `Scheduler.WorkersDecide` | orchestrator/scheduler.go:103-154 | accepted exactly when some alive worker accepts, and then by a lightest such; no-workers exactly when none is alive; exhausted exactly when some are and all refuse |
| `Autoscaler.StopsOnlyIdleWorkers` | orchestrator/autoscaler.go:158-170 | a stop hits a self-launched worker idle at every tick over at least IdleTimeout, with an empty queue, and never goes below Min |
| `AutoscalerRuns.LaunchesExactly` | orchestrator/autoscaler.go:135-153 | in every run with a clock that does not go back: a tick tries a launch exactly when the alive and awaited workers are below Min, or the queue or the load asks for one, they are below Max and every launch is Cooldown ago; it succeeds exactly when the launcher does |
| `AutoscalerRuns.StopsExactly` | orchestrator/autoscaler.go:155-171 | a tick tries a stop exactly when no launch is due, nothing is queued, the pool is above Min and not saturated, and some worker launched here and neither lost nor stopped since was idle at every tick over IdleTimeout |
| `AutoscalerRuns.CleansUpExactly` | orchestrator/autoscaler.go:176-205 | a tick gives up exactly the workers launched here that are lost at it: seen in the pool before and now gone or dead, or never seen within RegisterTimeout |
| `Autoscaler.ExceedsMaxExactly` | orchestrator/autoscaler.go:108-171 | a tick goes past Max exactly when it launches with Max managed, of which more arrived dead than foreign workers are alive |
| `Server.FollowUpFitsExactly` | orchestrator/server.go:275-314 | the reaper's follow-up fits the written record except exactly when it is FAILED and an earlier conflicted run had a retry left |
| `Server.FollowUpFitsInLog` | orchestrator/server.go:275-314 | in the orchestrator's own logs the follow-up fits except exactly when all retries were charged by the reap's last read and not yet by an earlier one |
| `Lru.CachedIffRecent` | orchestrator/lru.go:25-64 | a key is cached exactly when fewer than capacity distinct keys were touched since, at exactly that rank, with its last put value |
| `WarmPool.RunConserves` | worker/warm_pool.py:337-433 | over every interleaving: idle or held by one task, never both; live plus being-replaced equals size minus failed respawns |
| `WarmPool.StrandsExactly` | worker/warm_pool.py:379-433 | in any interleaving, a task that has come to its end still holds a child exactly when pickling its request failed |
| `LogStream.LineBuffer.WriteAll` | worker/logstream.py:99-121 | for any chunking, the lines are the newline split of the whole text, without an empty last piece |
| `Framing.RequestRoundTrip` | worker/executor.py:192-195 | a (function, args) request round-trips |
| `Jobs.ToInt32` | orchestrator/watch.go:155 | Go's int32 conversion: the value in range congruent modulo 2^32, so identity in range |
| `JobStore.BoltStore.PutJob` | orchestrator/job_store.go:132-144 | the stamped record replaces its row and no other |
| `JobStore.BoltStore.GetJob` | orchestrator/job_store.go:146-157 | the row, or nothing exactly when there is none |
| `JobStore.BoltStore.Transition` | orchestrator/job_store.go:168-201 | commits exactly the mutator's stamped record under the job's key; not found, skipped and aborted calls leave the bucket as it was and say why |
| `JobStore.BoltStore.Select` | orchestrator/job_store.go:207-222 | the filtered scan behind both listings returns each matching row exactly once |
| `JobStore.BoltStore.ListUnfinished` | orchestrator/job_store.go:207-222 | exactly the jobs that are neither DONE nor FAILED, each once |
| `JobStore.BoltStore.ListRunningOnWorker` | orchestrator/job_store.go:410-425 | exactly the RUNNING jobs of that worker, each once |
| `JobStore.BoltStore.SubmitWithIdempotency` | orchestrator/job_store.go:237-270 | a used key returns the first job and writes nothing; otherwise job and key are inserted together |
| `JobStore.BoltStore.PutJobRaw` | orchestrator/job_store.go:284-292 | writes the record verbatim |
| `JobStore.BoltStore.CasPut` | orchestrator/job_store.go:297-319 | conflict exactly on a version mismatch, error exactly on a missing job, and only a swap writes |
| `JobStore.BoltStore.SubmitRaw` | orchestrator/job_store.go:323-351 | the same insert rule on a record stamped by the proposer |
| `JobStore.BoltStore.ExportState` | orchestrator/job_store.go:355-374 | every job once in some order, and the whole index |
| `JobStore.BoltStore.ImportState` | orchestrator/job_store.go:378-406 | whatever was there is gone; the buckets are the snapshot's |
| `JobStore.ImportUndoesExport` | orchestrator/job_store.go:355-406 | importing any export order restores the same jobs bucket when every job sits under its own id |
| `RaftFsm.JobFSM.Apply` | orchestrator/raft_fsm.go:54-71 | the in-place apply is the pure step function, reply included; `RaftLog.CreatesExactly` and `RaftLog.RefusesExactly` say what that does and answers |
| `RaftFsm.JobFSM.ApplyAll` | orchestrator/raft_fsm.go:54-71 | applying a log in order folds the step function |
| `RaftFsm.JobFSM.Snapshot` | orchestrator/raft_fsm.go:80-86 | what the snapshot would restore is what the store holds |
| `RaftFsm.JobFSM.Restore` | orchestrator/raft_fsm.go:98-105 | the store becomes the snapshot's, whatever it held |
| `RaftFsm.AfterSplit` | orchestrator/raft_fsm.go:54-71 | applying a log in two parts equals applying it in one |
| `RaftFsm.AfterKeyedById` | orchestrator/raft_fsm.go:54-71 | in every reachable state each job sits under its own id, for arbitrary logs |
| `RaftFsm.SnapshotCatchUp` | orchestrator/raft_fsm.go:80-105 | two real FSM objects: snapshot on one, restore over anything on the other, apply the rest, and it equals a full run from empty |
| `RaftFsm.SnapshotEquivalence` | orchestrator/job_store.go:355-406 | snapshot at any index in any export order plus the suffix equals the whole log |
| `RaftFsm.IndexStable` | orchestrator/job_store.go:323-351 | an idempotency entry is never changed or removed |
| `RaftFsm.SubmitBindsKey` | orchestrator/job_store.go:323-351 | a submit leaves its key bound to the id it answered |
| `RaftFsm.AnswerAfterRestore` | orchestrator/raft_fsm.go:80-105 | a node restored from any snapshot answers every later command as a node that never failed |
| `RaftLog.VersionGrows` | orchestrator/raft_store.go:154-218 | between two moments with no overtaken put of the job, it is unchanged or its version is strictly higher |
| `RaftLog.SameVersionSameRecord` | orchestrator/raft_store.go:186-218 | no ABA: equal versions at two moments mean equal records |
| `RaftLog.VersionCountsRewrites` | orchestrator/raft_store.go:154-218 | no lost update: the version is one plus the number of rewrites |
| `RaftLog.PutReusesVersion` | orchestrator/raft_store.go:154-166 | a log of one submit and two PutJobs that both read version 1: one version, two different records |
| `RaftLog.WinnerReadCurrent` | orchestrator/job_store.go:297-319 | a winning swap, no overtaken put in between, is its mutator applied to the record it replaces |
| `RaftLog.LoserWasOvertaken` | orchestrator/job_store.go:297-319 | a swap, no overtaken put in between, conflicts exactly when the job was written between its read and its commit |
| `RaftLog.RefusesExactly` | orchestrator/job_store.go:297-319 | a command fails exactly when it is garbled or a swap of a job not there, conflicts exactly on a version mismatch, and either changes nothing |
| `RaftLog.OnlyItsOwnRow` | orchestrator/raft_fsm.go:54-71 | a command changes no row but the one its record names |
| `RaftLog.OvertakenPutIsLost` | orchestrator/raft_store.go:154-218 | a log in which a swap built on one version 2 wins over a put's other version 2, and the put is lost |
| `RaftLog.IndexPointsToAJob` | orchestrator/job_store.go:323-351 | every index entry points at a stored job, in any log at any index |
| `RaftLog.KeyCanBeLost` | orchestrator/raft_store.go:154-166 | a submit with a key and a PutJob without one, in good order: the index entry ends on a record without its key |
| `Restart.ReplayStep` | orchestrator/raft_fsm.go:54-71 | a replayed command keeps the store between the clean run and where it had been: records the jobs really had, on the clean run once a put or keyless submit reset them, never behind it before |
| `Restart.ClusterIsSound` | orchestrator/raft_store.go:74-105 | any series of applied commands, snapshots, crashes and installed snapshots keeps every node's store and every snapshot so |
| `Restart.PositionWithinReach` | orchestrator/raft_store.go:74-105 | how far a node has applied and how far its store had been, told from the events alone, and the first never exceeds the second |
| `RaftStore.StillNext` | orchestrator/raft_store.go:132-149 | a proposal well built when it was read is still well built after whatever committed since |
| `RaftStore.StoreExtends` | orchestrator/raft_store.go:220-228 | a local store stays sound when the log grows |
| `RaftStore.ReplyIsTheTruth` | orchestrator/raft_store.go:132-149 | the reply to a Transition's entry says exactly whether it wrote, and never reports the job missing |
| `RaftStore.LocalRead` | orchestrator/raft_store.go:220-228 | a local read returns the job's row at some prefix, wherever the node's replay stands |
| `RaftStore.Proposable` | orchestrator/raft_store.go:186-218 | what Transition proposes after a local read is a well-built entry |
| `RaftStore.Puttable` | orchestrator/raft_store.go:154-166 | so is what PutJob proposes |
| `RaftStore.RaftStore.LocalMove` | orchestrator/raft_fsm.go:54-105 | applying, snapshotting, restarting and installing any node's snapshot keep the node sound, and each does just that |
| `RaftStore.RaftStore.Elsewhere` | orchestrator/raft_store.go:27-40 | the rest of the cluster: any well-built entries commit and this node makes any moves |
| `RaftStore.RaftStore.CatchUp` | orchestrator/raft_fsm.go:54-71 | applying what is committed brings any sound node onto the clean run |
| `RaftStore.RaftStore.Commit` | orchestrator/raft_fsm.go:54-71 | the caught-up FSM's reply is the cluster's answer at that log position |
| `RaftStore.RaftStore.Apply` | orchestrator/raft_store.go:132-149 | refused exactly when this node was not the leader, and then nothing was proposed; replied: the entry is in the log and the reply is its answer; lost only when Raft failed, one proposal open |
| `RaftStore.RaftStore.Attempt` | orchestrator/raft_store.go:187-216 | one round: a conflict wrote nothing, a success wrote the job, a skip or abort is the mutator's answer to a record the job really had, a refusal means not the leader, an open end that Raft failed |
| `RaftStore.RaftStore.Propose` | orchestrator/raft_store.go:204-216 | the swap and the meaning of its reply |
| `RaftStore.RaftStore.SubmitWithIdempotency` | orchestrator/raft_store.go:168-180 | the entry is the stamped record at version 1 under its key, and the answer is the cluster's (`RaftLog.CreatesExactly` says which); refused only when not the leader |
| `RaftStore.RaftStore.PutJob` | orchestrator/raft_store.go:154-166 | the stamped record, numbered after what the local store showed, is the job's row once the reply is in |
| `Mutators.KeepsIdentity` | orchestrator/server.go:279-295 | no closure renames a job or touches its key, name, creation time or version |
| `Mutators.AcceptedByRaftStore` | orchestrator/raft_store.go:186-218 | every closure meets what the version argument needs of a mutator |
| `Mutators.TerminalIsFinal` | orchestrator/scheduler.go:117-151 | guarded closures skip a finished job or write it back unchanged |
| `Mutators.KeepsSound` | orchestrator/server.go:279-295 | every guarded write keeps payload, worker, error and result fields consistent with the status and charges exactly the retries it should; the reaper requeues exactly while retries are left |
| `Mutators.Edges` | orchestrator/server.go:131-224 | a guarded closure changes the status only along the edges PENDING, RUNNING, DONE, FAILED and the ways back |
| `Mutators.ReportIsTheResult` | orchestrator/server.go:367-388 | the first report of a live job becomes its result event, field by field |
| `Mutators.EndingIsTheResult` | orchestrator/server.go:203-388 | what each closure that ends a live job makes of its result event |
| `Mutators.Transact` | orchestrator/job_store.go:168-201 | the store class running a closure is the commit function used by the step systems |
| `Mutators.TransactReplicated` | orchestrator/raft_store.go:186-218 | the replicated store running a closure: a commit is one entry that wrote the closure's record of that moment, if no put in between was overtaken |
| `Mutators.AlwaysSound` | orchestrator/server.go:413-440 | every record of every log of invoked jobs is sound, so live jobs have payloads and PENDING ones no worker |
| `Mutators.NoMissingPayload` | orchestrator/scheduler.go:92-101 | the unguarded missing-payload write never runs |
| `Mutators.StatusTakesAnEdge` | orchestrator/server.go:131-388 | so does every entry of every log, and only the closure that owns the edge |
| `Mutators.RequeuesBounded` | orchestrator/server.go:279-295 | the reaper requeues a job at most MaxRetries times in all |
| `Mutators.IndexPointsToItsJob` | orchestrator/job_store.go:323-351 | in the orchestrator's own logs every index entry points at a stored job carrying that key, at every index |
| `WorkerPool.WorkerPool.Register` | orchestrator/worker_pool.go:47-58 | a registration replaces whatever was known of the id, alive and idle |
| `WorkerPool.WorkerPool.RecordHeartbeat` | orchestrator/worker_pool.go:62-76 | known workers are updated and revived, unknown ones are refused and nothing changes |
| `WorkerPool.WorkerPool.LeastLoadedAliveExcluding` | orchestrator/worker_pool.go:82-101 | an alive worker outside the set with minimal load, and none exactly when there is none |
| `WorkerPool.WorkerPool.Sweep` | orchestrator/worker_pool.go:126-141 | exactly the overdue workers die, each reported once, nothing else changes |
| `Scheduler.InLoadOrder` | orchestrator/scheduler.go:103-153 | workers tried are alive, none twice, in non-decreasing load |
| `Scheduler.Scheduler.TryWorker` | orchestrator/scheduler.go:112-152 | accepted: RUNNING on that worker; refused: PENDING, no worker, one more retry; no other job moves |
| `Scheduler.Scheduler.TryWorkers` | orchestrator/scheduler.go:103-153 | terminates, tries each alive worker at most once in load order, and leaves the job as its answers say |
| `Scheduler.Scheduler.Dispatch` | orchestrator/scheduler.go:81-154 | every way to end, when it happens, and the record it leaves, with one retry per refusal |
| `Server.Server.Enqueue` | orchestrator/server.go:229-244 | dropped exactly during shutdown, blocked exactly when 10000 wait, else queued at the end |
| `Server.Server.RecoverUnfinishedJobs` | orchestrator/server.go:122-145 | undrained, it gets through exactly when the unfinished jobs fit behind what is queued; then each is queued once, PENDING without worker, and finished jobs are untouched |
| `Server.FollowUpFitsWithoutConflict` | orchestrator/server.go:275-314 | on the single-node store it always fits |
| `Server.FollowUpCanMiss` | orchestrator/server.go:275-314 | a six-entry log of the orchestrator's own closures in which a reap loses to the revert that takes the last retry, writes FAILED, and the job is requeued instead of announced |
| `Lifecycle.StepKeepsInv` | orchestrator/server.go:122-316 | every step of every actor keeps the whole invariant; `LifecycleRuns` says what the steps achieve |
| `Lifecycle.RunKeepsInv` | orchestrator/server.go:122-316 | it holds after every run, across crashes |
| `Lifecycle.PayloadAlwaysThere` | orchestrator/scheduler.go:92-101 | a live job always has its payload |
| `Lifecycle.StepKeepsTerminal` | orchestrator/server.go:367-388 | no step changes a finished job, not even its timestamps |
| `LifecycleRuns.VisitsEndRunning` | orchestrator/server.go:275-316 | a visited job is no longer RUNNING: it waits again exactly while it had a retry left, and else has FAILED |
| `LifecycleRuns.ReportsFinish` | orchestrator/server.go:350-388 | a report ends the job, and a live one's result is the report's |
| `LifecycleRuns.StopsWhenTold` | orchestrator/server.go:229-263 | after every run: enqueues may be dropped exactly from BeginShutdown to the process's end |
| `LifecycleRuns.DrainerIsNeverStuck` | orchestrator/server.go:150-227 | wherever the drainer stands it can go on, both ways where the world decides |
| `LifecycleRuns.OthersAreNeverStuck` | orchestrator/server.go:229-316 | so can the reaper, invokers, reporters and shutdown; an enqueue waits exactly for room |
| `LifecycleRuns.RecoveryGoesThrough` | orchestrator/server.go:122-145 | from any crash whose unfinished jobs fit, recovery gets to serving with all of them queued in the order found |
| `LifecycleRuns.DrainerDeclines` | orchestrator/scheduler.go:81-101 | a finished job is let go, an unknown or payload-less one is given up for that reason |
| `LifecycleRuns.GivesUpAfterAll` | orchestrator/server.go:161-227 | without workers the job fails after exactly the attempts left, and its error says how many there were |
| `LogHub.Clip` | orchestrator/loghub.go:76-78 | short lines pass, long ones keep exactly their first 8192 bytes and the marker |
| `LogHub.LogHub.Append` | orchestrator/loghub.go:65-96 | the job's entry follows the entry function; other jobs are untouched |
| `LogHub.LogHub.Subscribe` | orchestrator/loghub.go:101-112 | a new empty mailbox, the buffer as replay, the terminal event if there is one |
| `LogHub.LogHub.TryReceive` | orchestrator/watch.go:65-76 | takes the oldest waiting event, or nothing exactly when none waits |
| `LogHub.LogHub.Unsubscribe` | orchestrator/loghub.go:114-129 | the mailbox goes, and the entry with the last one after the result |
| `LogHub.LogHub.Finish` | orchestrator/loghub.go:134-158 | first result wins, offered to all; an unwatched entry is dropped |
| `LogHub.BooksStayBalanced` | orchestrator/loghub.go:65-158 | every call keeps every account in balance |
| `LogHub.OfferedWhileSubscribed` | orchestrator/loghub.go:65-158 | a subscriber is offered exactly the lines accepted since it subscribed, and the result if that came later |
| `Watch.StepKeepsInv` | orchestrator/watch.go:24-137 | every step keeps all streams sound |
| `Watch.RunKeepsInv` | orchestrator/watch.go:24-137 | so does every run |
| `WatchRuns.PollTellsWhatItSees` | orchestrator/watch.go:58-86 | looking at the store, a stream goes to drain a finished job, and otherwise has told its status, once |
| `WatchRuns.RecordFollowsTransitions` | orchestrator/watch.go:20-137 | after every run the record is what the committed transitions make of it; no watcher or log line touches it |
| `WatchRuns.LogIsWhatArrived` | orchestrator/server.go:350-366 | after every run: while the job is live the accepted log is every line sent, clipped; after its end it begins with those sent before |
| `WatchRuns.NotifyTellsTheHub` | orchestrator/watch.go:128-159 | announcing a finished job leaves the hub with its result for as long as anyone watches |
| `WatchRuns.WaitingStreamHears` | orchestrator/watch.go:87-98 | a waiting stream passes on the oldest event of its mailbox, and ends exactly on a result |
| `Autoscaler.NameInjective` | orchestrator/autoscaler.go:226-238 | two sequence numbers never give one worker id |
| `Autoscaler.Autoscaler.ReconcileManaged` | orchestrator/autoscaler.go:176-205 | each managed worker is registered, expired, forgotten or marked, independent of map order, and exactly the given-up ones are stopped |
| `Autoscaler.Autoscaler.PickIdle` | orchestrator/autoscaler.go:208-224 | a longest-idle reclaimable worker, and none exactly when there is none |
| `Autoscaler.Autoscaler.Launch` | orchestrator/autoscaler.go:226-238 | a fresh id per call; only a successful launch is managed and restarts the cooldown |
| `Autoscaler.Autoscaler.Count` | orchestrator/autoscaler.go:118-127 | number, capacity and load of the alive workers |
| `Autoscaler.Autoscaler.CountPending` | orchestrator/autoscaler.go:128-133 | number of launches that have not registered |
| `Autoscaler.Autoscaler.Tick` | orchestrator/autoscaler.go:108-171 | one evaluation meets the tick relation for every map order, and its clean-up stops exactly the given-up workers; `AutoscalerRuns` says from the outside what such runs do |
| `Autoscaler.Autoscaler.Run` | orchestrator/autoscaler.go:80-91 | the loop produces exactly such runs |
| `Autoscaler.IdleSince` | orchestrator/autoscaler.go:176-205 | an idle mark means seen alive and idle at every tick since it was set |
| `Autoscaler.ManagedWasLaunched` | orchestrator/autoscaler.go:226-238 | only self-launched workers are managed |
| `Autoscaler.CleansUpOnlyLostWorkers` | orchestrator/autoscaler.go:176-198 | a clean-up stop hits a self-launched worker that never registered in time, or is gone or dead |
| `Autoscaler.DemandRespectsCooldown` | orchestrator/autoscaler.go:143-153 | a demand launch comes at least Cooldown after every earlier launch |
| `Autoscaler.IdsNeverRepeat` | orchestrator/autoscaler.go:226-238 | ids never repeat, failed launches included |
| `Autoscaler.EffectiveCounts` | orchestrator/autoscaler.go:108-134 | what tick holds against Max is the managed count less those that arrived dead plus the alive workers launched by others |
| `Autoscaler.ManagedNeverExceedsMax` | orchestrator/autoscaler.go:108-171 | then the managed count never exceeds Max |
| `Autoscaler.MaxCanBeExceeded` | orchestrator/autoscaler.go:176-190 | a two-tick run that ends above Max |
| `AutoscalerRuns.ManagedWasKept` | orchestrator/autoscaler.go:176-238 | whatever is managed was launched at some tick and neither lost nor stopped since, and what is remembered of it is what the ticks saw |
| `AutoscalerRuns.KeptIsManaged` | orchestrator/autoscaler.go:176-238 | and conversely |
| `AutoscalerRuns.EffectiveIsSize` | orchestrator/autoscaler.go:118-134 | what a tick counts is the alive workers plus the launches kept, in time and never seen |
| `AutoscalerRuns.StopsTheLongestIdle` | orchestrator/autoscaler.go:208-224 | the worker a tick stops has been idle at least as long as every other |
| `Lru.LruResults.Put` | orchestrator/lru.go:36-53 | the key moves to the front with the new value, the oldest leaves when over capacity |
| `Lru.LruResults.Get` | orchestrator/lru.go:55-64 | returns the cached value and makes it the most recent; a miss changes nothing |
| `Lru.LruResults.Len` | orchestrator/lru.go:66-70 | list length, map size and contents agree and stay within capacity |
| `Lru.Replay` | orchestrator/lru.go:25-64 | any sequence of calls on a new cache object ends on the fold the history theorems are about |
| `Lru.CacheIsRanked` | orchestrator/lru.go:25-64 | position in the cache is recency of touch, and every missing key has at least capacity many newer ones |
| `Lru.CacheHoldsLastPut` | orchestrator/lru.go:36-53 | each cached value is the last one put |
| `WarmPool.StepConserves` | worker/warm_pool.py:379-433 | each atomic section of execute and _replace keeps every slot in one place and the total right |
| `WarmPool.WhereATaskStands` | worker/warm_pool.py:379-433 | a task holds a child exactly from a take or a respawn to its own next act, whatever the others do |
| `WarmPool.HeldUntilItsTaskActs` | worker/warm_pool.py:379-433 | and it is one and the same child: only the task that took it gives it back |
| `WarmPool.StrandedForGood` | worker/warm_pool.py:379-391 | the child of such a task stays listed, neither idle nor anyone else's, however long the run goes on |
| `WarmPool.WarmPool.Acquire` | worker/warm_pool.py:379-390 | takes the longest-idle child, or nothing exactly when none is idle |
| `WarmPool.WarmPool.Release` | worker/warm_pool.py:429-431 | the held child goes to the end of the idle queue |
| `WarmPool.WarmPool.Forget` | worker/warm_pool.py:494-496 | the broken child leaves the slot list |
| `WarmPool.WarmPool.Refill` | worker/warm_pool.py:498-505 | a fresh child joins, or the pool is one smaller |
| `WarmPool.WarmPool.Replace` | worker/warm_pool.py:483-505 | a broken child is removed and, if the respawn worked, a fresh one queued; else the pool is one smaller |
| `WarmPool.PathLeaves` | worker/warm_pool.py:369-433 | what a task of each outcome leaves of the slots, the idle queue and the count of failed respawns |
| `WarmPool.WarmPool.Execute` | worker/warm_pool.py:369-433 | each outcome goes through exactly its sections: an answered or raising task leaves the slots and moves the head of the idle queue to its end, a broken child is swapped for the fresh one at both ends or lost, a failure before the guarded block keeps it out |
| `LogStream.SplitRoundTrip` | worker/logstream.py:111-115 | splitting loses nothing and leaves no newline in a line |
| `LogStream.SplitUnique` | worker/logstream.py:111-115 | there is only one such split |
| `LogStream.SplitContinues` | worker/logstream.py:111-115 | splitting more text continues from the rest |
| `LogStream.LineBuffer.Write` | worker/logstream.py:111-115 | emits the complete lines of buffer plus text, keeps what follows the last newline |
| `LogStream.LineBuffer.FlushPartial` | worker/logstream.py:117-121 | emits the rest if there is one |
| `LogStream.FillBatch` | worker/logstream.py:163-176 | a batch takes the next lines in order, at most 256, and sees Close exactly where it is |
| `LogStream.Chunks` | worker/logstream.py:161-181 | batches are non-empty, at most 256 long, and concatenate to the lines queued before Close |
| `Framing.DecodeEncode` | worker/warm_pool.py:101-108 | a message round-trips and leaves the following bytes |
| `Framing.EncodeDecode` | worker/warm_pool.py:101-108 | whatever decodes was encoded so |
| `Framing.PrefixFails` | worker/warm_pool.py:91-98 | every strict prefix of a message fails |
| `Framing.RequestPrefixFails` | worker/subprocess_runner.py:22-37 | every strict prefix of a request fails |
| `Framing.Stream.ReadExact` | worker/warm_pool.py:91-98 | exactly n bytes for any pattern of short reads, or end of file exactly when fewer remain |
| `Framing.Stream.RecvMessage` | worker/warm_pool.py:106-108 | reads what Decode says, and leaves what follows |
| `Framing.Stream.ReadRequest` | worker/subprocess_runner.py:32-37 | reads what DecodeRequest says |
| `Framing.SendMessage` | worker/warm_pool.py:101-103 | writes header and payload, or nothing when the length does not fit 32 bits |

## Left out

- Raft election, replication, transports and membership: an agreed log is assumed (State Machine Safety, section 5.4 of "In Search of an Understandable Consensus Algorithm" by Ongaro and Ousterhout).
- BoltDB, JSON and protobuf encoding: a bucket is a map, a transaction one step, encoding the identity; store errors, and Bolt's refusal of an empty key, do not occur.
- RaftLog.Linearizable: leaves out a swap that wins after an overtaken put of its job; a put is last-writer-wins by design (orchestrator/raft_store.go:151-153), and `RaftLog.WinnerIsAtomicExactly` says which swaps those are.
- RaftStore.RaftStore.Transition: asks for mutators that do not rename the job, because the swap goes to the row named by the record it carries; every closure in the code qualifies (`Mutators.AcceptedByRaftStore`).
- RaftStore.RaftStore.SubmitWithIdempotency: asks for an id never submitted or put before; the only caller draws a fresh uuid.
- Machine integers: versions, retry counters and millisecond sums are unbounded, except the int32 conversion in the result event.
- Wall-clock time: stamps are opaque integers and the clock is a parameter; Go's duration saturation for a zero `lastLaunch` is the case "never launched".
- Custody of RUNNING jobs: a RUNNING job may sit on a worker already swept dead or registered again, so `Lifecycle.NoPendingJobOrphaned` is about PENDING jobs, in BoltStore mode, while serving.
- Recovery at a leadership gain with the drainer running at the same time: `Server.Server.RecoverUnfinishedJobs` is the pass on its own, on any queue.
- The counters behind `QueueDepth` and the metrics, and agreement of the result cache with the store: the code updates them on losing reports too.
- `ReassignJobsOf` and `attemptDispatch` as sequential methods: their loops are steps of `Lifecycle`, where anything may happen between two of them.
- gRPC dialling, the channel cache, keepalive and the RPC itself: a worker accepts or refuses.
- Errors WatchJob answers before a stream exists, and partial streams after a failed send: only streams that end by themselves are claimed.
- Subscriptions are numbers and mailboxes values inside the hub's map, so sharing of a channel between hub and watcher is not modelled.
- A hub entry that a late watcher leaves behind after the job ended: allowed by the model, and nothing is claimed about its cleanup.
- Thread-local output routing and the interleaving of stdout and stderr in `worker/logstream.py`.
- Child processes, signals and sockets of the warm pool.
- HTTP, dashboard, configuration, launcher, metrics ring, SDK, CRIU stubs: plumbing that would only add easy members.
