/**
 Two passes of orchestrator/server.go on their own: startup recovery, which
 runs before anything else, and what the reaper does after its transition
 committed. Lifecycle has the interleavings.
 */
module Server {
  import opened Jobs
  import opened JobStore
  import opened Mutators
  import opened RaftFsm
  import opened RaftLog
  import opened Sets

  const PENDING_QUEUE_SIZE: nat := 10000

  /** What recovery leaves of a job: a live one waits without a worker, a finished one is as it was. */
  ghost predicate RecoveredFrom(before: JobRecord, after: JobRecord) {
    if Terminal(before.status) then after == before
    else SameJob(after, if before.status.Running? then before.(status := Pending, workerId := "") else before)
  }

  /** Recovery has handled the first `i` of `keys`. */
  ghost predicate RecoveredUpTo(before: map<string, JobRecord>, after: map<string, JobRecord>, keys: seq<string>, i: nat)
    requires i <= |keys|
  {
    && after.Keys == before.Keys
    && forall id :: id in before ==>
         if id in keys[..i] then RecoveredFrom(before[id], after[id]) else after[id] == before[id]
  }

  lemma RecoverNext(before: map<string, JobRecord>, jobs: map<string, JobRecord>, keys: seq<string>, i: nat, now: int)
    requires i < |keys| && keys[i] in before
    requires forall j :: 0 <= j < i ==> keys[j] != keys[i]
    requires !Terminal(before[keys[i]].status)
    requires RecoveredUpTo(before, jobs, keys, i)
    ensures Run(Recover, jobs[keys[i]]).Write?
    ensures RecoveredUpTo(before, jobs[keys[i] := Stamp(Run(Recover, jobs[keys[i]]).rec, now)], keys, i + 1)
  {
    assert keys[..i + 1] == keys[..i] + [keys[i]];
  }

  /** The listing names each unfinished job once, under its own id. */
  lemma UnfinishedListed(before: map<string, JobRecord>, list: seq<JobRecord>) returns (keys: seq<string>)
    requires forall id :: id in before ==> before[id].id == id
    requires ListsAll(list, before, UnfinishedIds(before))
    ensures Enumerates(keys, UnfinishedIds(before))
    ensures |keys| == |list| == |UnfinishedIds(before)|
    ensures forall i :: 0 <= i < |keys| ==> keys[i] in before && list[i].id == keys[i] && !Terminal(before[keys[i]].status)
  {
    keys :| Enumerates(keys, UnfinishedIds(before)) && Lists(list, before, keys);
    EnumerationSize(keys, UnfinishedIds(before));
    assert forall i :: 0 <= i < |keys| ==> keys[i] in keys;
  }

  lemma RecoveredAll(before: map<string, JobRecord>, after: map<string, JobRecord>, keys: seq<string>)
    requires Enumerates(keys, UnfinishedIds(before))
    requires RecoveredUpTo(before, after, keys, |keys|)
    ensures forall id :: id in before ==> RecoveredFrom(before[id], after[id])
  {
    assert keys[..|keys|] == keys;
    forall id | id in before
      ensures RecoveredFrom(before[id], after[id])
    {
      assert id in keys <==> id in UnfinishedIds(before);
    }
  }

  lemma QueueGrows(queue: seq<string>, keys: seq<string>, i: nat)
    requires i < |keys|
    ensures (queue + keys[..i]) + [keys[i]] == queue + keys[..i + 1]
  {
  }

  datatype Sending = Sent | Blocked | Dropped

  class Server {
    const store: BoltStore
    var queue: seq<string>
    var shuttingDown: bool

    ghost predicate Valid()
      reads this
    {
      |queue| <= PENDING_QUEUE_SIZE
    }

    constructor (store: BoltStore)
      ensures Valid() && this.store == store && queue == [] && !shuttingDown
    {
      this.store := store;
      queue, shuttingDown := [], false;
    }

    /** During shutdown the job is left to the next recovery; a full channel blocks the sender. */
    method Enqueue(jobId: string) returns (r: Sending)
      requires Valid()
      modifies this`queue
      ensures Valid()
      ensures r.Dropped? <==> shuttingDown
      ensures r.Blocked? <==> !shuttingDown && |old(queue)| == PENDING_QUEUE_SIZE
      ensures queue == if r.Sent? then old(queue) + [jobId] else old(queue)
    {
      if shuttingDown {
        return Dropped;
      }
      if |queue| == PENDING_QUEUE_SIZE {
        return Blocked;
      }
      queue := queue + [jobId];
      r := Sent;
    }

    /** The loop body of recovery: demote, then enqueue. */
    method RecoverOne(jobId: string, ghost before: map<string, JobRecord>, ghost keys: seq<string>, ghost i: nat) returns (r: Sending)
      requires Valid()
      requires i < |keys| && keys[i] == jobId && jobId in before && !Terminal(before[jobId].status)
      requires forall j :: 0 <= j < i ==> keys[j] != jobId
      requires RecoveredUpTo(before, store.jobs, keys, i)
      modifies this`queue, store`jobs
      ensures Valid()
      ensures RecoveredUpTo(before, store.jobs, keys, i + 1)
      ensures r.Dropped? <==> shuttingDown
      ensures r.Blocked? <==> !shuttingDown && |old(queue)| == PENDING_QUEUE_SIZE
      ensures queue == if r.Sent? then old(queue) + [jobId] else old(queue)
    {
      var now: int := *;
      RecoverNext(before, store.jobs, keys, i, now);
      var _ := store.Transition(jobId, r => Run(Recover, r), now);
      r := Enqueue(jobId);
    }

    /**
     WAL replay on the queue as it is. Nobody drains the queue meanwhile, so
     it gets through exactly when the unfinished jobs fit (or are dropped by a
     shutdown), and then each of them is PENDING and queued once, in some
     order, behind what was there.
     */
    method RecoverUnfinishedJobs() returns (finished: bool, ghost keys: seq<string>)
      requires Valid() && KeyedById(store.View())
      modifies this`queue, store`jobs
      ensures Valid()
      ensures Enumerates(keys, UnfinishedIds(old(store.jobs)))
      ensures finished <==> shuttingDown || |old(queue)| + |UnfinishedIds(old(store.jobs))| <= PENDING_QUEUE_SIZE
      ensures store.jobs.Keys == old(store.jobs).Keys
      ensures finished ==>
                && queue == (if shuttingDown then old(queue) else old(queue) + keys)
                && forall id :: id in old(store.jobs) ==> RecoveredFrom(old(store.jobs)[id], store.jobs[id])
    {
      ghost var before := store.jobs;
      var jobs := store.ListUnfinished();
      keys := UnfinishedListed(before, jobs);
      for i := 0 to |jobs|
        invariant Valid() && queue == if shuttingDown then old(queue) else old(queue) + keys[..i]
        invariant RecoveredUpTo(before, store.jobs, keys, i)
      {
        QueueGrows(old(queue), keys, i);
        var sent := RecoverOne(jobs[i].id, before, keys, i);
        if sent.Blocked? {
          return false, keys;
        }
      }
      RecoveredAll(before, store.jobs, keys);
      assert keys[..|keys|] == keys;
      finished := true;
    }
  }

  // ---- the reaper's captured flags -------------------------------------------

  datatype FollowUp = Requeue | NotifyTerminal | Nothing

  /** markedPending and markedFailed after the closure ran on each record of `seen` in turn: it only ever sets them. */
  function Flags(maxRetries: int, seen: seq<JobRecord>): (bool, bool) {
    if seen == [] then (false, false) else
    var (pending, failed) := Flags(maxRetries, seen[..|seen| - 1]);
    match Run(Reap(maxRetries), seen[|seen| - 1])
    case Write(rec) => (pending || rec.status.Pending?, failed || rec.status.Failed?)
    case _ => (pending, failed)
  }

  /** server.go:304-314, after a commit. */
  function FollowUpOf(flags: (bool, bool)): FollowUp {
    if flags.0 then Requeue else if flags.1 then NotifyTerminal else Nothing
  }

  /** What the record that was written calls for. */
  function CalledFor(written: JobRecord): FollowUp {
    if written.status.Pending? then Requeue else NotifyTerminal
  }

  lemma {:induction false} PendingFlag(maxRetries: int, seen: seq<JobRecord>)
    requires forall i :: 0 <= i < |seen| ==> seen[i].status.Running?
    ensures Flags(maxRetries, seen).0 <==> exists i :: 0 <= i < |seen| && seen[i].retryCount < maxRetries
  {
    if seen != [] {
      var n := |seen| - 1;
      PendingFlag(maxRetries, seen[..n]);
      assert forall i :: 0 <= i < n ==> seen[..n][i] == seen[i];
    }
  }

  /**
   A committed call whose closure ran on `seen`, the last of them being the
   one that was written (all RUNNING, or the closure would have skipped): the
   follow-up fits the written record, except exactly when that record is
   FAILED and some earlier, conflicted run still had a retry left.
   */
  lemma FollowUpFitsExactly(maxRetries: int, seen: seq<JobRecord>)
    requires seen != [] && forall i :: 0 <= i < |seen| ==> seen[i].status.Running?
    ensures var last := seen[|seen| - 1];
            && Run(Reap(maxRetries), last).Write?
            && (FollowUpOf(Flags(maxRetries, seen)) == CalledFor(Run(Reap(maxRetries), last).rec) <==>
                !(last.retryCount >= maxRetries && exists i :: 0 <= i < |seen| - 1 && seen[i].retryCount < maxRetries))
  {
    PendingFlag(maxRetries, seen);
    PendingFlag(maxRetries, seen[..|seen| - 1]);
    assert forall i :: 0 <= i < |seen| - 1 ==> seen[..|seen| - 1][i] == seen[i];
  }

  /** Without conflicts, as always on the single-node store, it fits. */
  lemma FollowUpFitsWithoutConflict(maxRetries: int, rec: JobRecord)
    requires rec.status.Running?
    ensures FollowUpOf(Flags(maxRetries, [rec])) == CalledFor(Run(Reap(maxRetries), rec).rec)
  {
    FollowUpFitsExactly(maxRetries, [rec]);
  }

  /** What the closure saw in the attempts whose entries are at `ps`. */
  function ReadsOf(from: seq<Origin>, ps: seq<nat>): (seen: seq<JobRecord>)
    requires forall i :: 0 <= i < |ps| ==> ps[i] < |from| && from[ps[i]].Transition?
    ensures |seen| == |ps| && forall i :: 0 <= i < |seen| ==> seen[i] == from[ps[i]].read
  {
    seq(|ps|, i requires 0 <= i < |ps| => from[ps[i]].read)
  }

  /** The entries at `ps` are reaps of this job. */
  ghost predicate Reaps(log: seq<Command>, from: seq<Origin>, ms: seq<Mutator>, ps: seq<nat>, id: string, maxRetries: int) {
    && |log| == |from| == |ms|
    && forall i :: 0 <= i < |ps| ==>
         && ps[i] < |log| && log[ps[i]].Cas? && log[ps[i]].rec.id == id
         && from[ps[i]].Transition? && from[ps[i]].readAt <= |log| && ms[ps[i]] == Reap(maxRetries)
  }

  lemma ReapRead(log: seq<Command>, from: seq<Origin>, ms: seq<Mutator>, p: nat, id: string, maxRetries: int)
    requires Orchestrated(log, from, ms) && Reaps(log, from, ms, [p], id, maxRetries)
    ensures p < |log| && log[p].Cas? && from[p].Transition? && from[p].readAt <= |log|
    ensures from[p].read.status.Running?
    ensures from[p].read.retryCount == Charged(log, ms, from[p].readAt, id)
    ensures log[p].rec.status == Run(Reap(maxRetries), from[p].read).rec.status
  {
    assert [p][0] == p;
    assert BuiltAt(log, from, p) && OrchestratedAt(log, from, ms, p);
    RetryLedger(log, from, ms, from[p].readAt, id);
  }

  /**
   The same in the orchestrator's own logs. One reap whose attempts are the
   entries at `ps`: the follow-up it would take fits what its last entry
   writes, except exactly when all retries were charged by its last read and
   not yet by an earlier one.
   */
  lemma FollowUpFitsInLog(log: seq<Command>, from: seq<Origin>, ms: seq<Mutator>, ps: seq<nat>, id: string, maxRetries: int)
    requires Orchestrated(log, from, ms) && ps != [] && Reaps(log, from, ms, ps, id, maxRetries)
    ensures var last := ps[|ps| - 1];
            FollowUpOf(Flags(maxRetries, ReadsOf(from, ps))) == CalledFor(log[last].rec) <==>
            !(Charged(log, ms, from[last].readAt, id) >= maxRetries
              && exists i :: 0 <= i < |ps| - 1 && Charged(log, ms, from[ps[i]].readAt, id) < maxRetries)
  {
    var seen := ReadsOf(from, ps);
    forall i | 0 <= i < |ps|
      ensures seen[i].status.Running?
      ensures seen[i].retryCount == Charged(log, ms, from[ps[i]].readAt, id)
    {
      ReapRead(log, from, ms, ps[i], id, maxRetries);
    }
    ReapRead(log, from, ms, ps[|ps| - 1], id, maxRetries);
    FollowUpFitsExactly(maxRetries, seen);
  }

  // ---- and a log in which they miss ------------------------------------------

  /** The entry Transition proposes when it reads `read` and runs `m`. */
  function Swap(read: JobRecord, m: Mutator): Command
    requires Run(m, read).Write?
  {
    Cas(Proposed(read, Run(m, read).rec, 0), read.version)
  }

  function By(readAt: nat, read: JobRecord, m: Mutator): Origin {
    Origin.Transition(readAt, read, r => Run(m, r), 0)
  }

  /** What a reap with one retry finds the first time, and what it finds after a revert and another dispatch. */
  function FirstRead(rec: JobRecord): JobRecord {
    Proposed(rec, rec.(status := Running, workerId := "w"), 0)
  }

  function Reverted(rec: JobRecord): JobRecord {
    Proposed(FirstRead(rec), FirstRead(rec).(status := Pending, workerId := "", retryCount := 1), 0)
  }

  function SecondRead(rec: JobRecord): JobRecord {
    Proposed(Reverted(rec), Reverted(rec).(status := Running, workerId := "v"), 0)
  }

  function MissingLog(rec: JobRecord): seq<Command>
    requires Invoked(rec)
  {
    [Submit(rec, rec.idempotencyKey), Swap(rec, MarkRunning("w")), Swap(FirstRead(rec), RevertToPending),
     Swap(FirstRead(rec), Reap(1)), Swap(Reverted(rec), MarkRunning("v")), Swap(SecondRead(rec), Reap(1))]
  }

  function MissingFrom(rec: JobRecord): seq<Origin> {
    [Client, By(1, rec, MarkRunning("w")), By(2, FirstRead(rec), RevertToPending),
     By(2, FirstRead(rec), Reap(1)), By(4, Reverted(rec), MarkRunning("v")), By(5, SecondRead(rec), Reap(1))]
  }

  const MISSING_BY: seq<Mutator> :=
    [Recover, MarkRunning("w"), RevertToPending, Reap(1), MarkRunning("v"), Reap(1)]

  lemma MissingRows(rec: JobRecord)
    requires Invoked(rec) && rec.version == 1
    ensures var log := MissingLog(rec);
            && RowAt(log, 1, rec.id) == Some(rec)
            && RowAt(log, 2, rec.id) == Some(FirstRead(rec))
            && RowAt(log, 3, rec.id) == Some(Reverted(rec))
            && RowAt(log, 4, rec.id) == Some(Reverted(rec))
            && RowAt(log, 5, rec.id) == Some(SecondRead(rec))
            && RowAt(log, 6, rec.id) == Some(log[5].rec)
  {
    var log := MissingLog(rec);
    assert Clean(log, 1) == Next(Clean(log, 0), log[0]);
    assert Clean(log, 2) == Next(Clean(log, 1), log[1]);
    assert Clean(log, 3) == Next(Clean(log, 2), log[2]);
    assert Clean(log, 4) == Next(Clean(log, 3), log[3]);
    assert Clean(log, 5) == Next(Clean(log, 4), log[4]);
    assert Clean(log, 6) == Next(Clean(log, 5), log[5]);
  }

  lemma SwapIsBuilt(log: seq<Command>, from: seq<Origin>, n: nat, readAt: nat, read: JobRecord, m: Mutator)
    requires readAt <= n < |log| == |from| && Run(m, read).Write?
    requires log[n] == Swap(read, m) && from[n] == By(readAt, read, m)
    requires RowAt(log, readAt, read.id) == Some(read)
    ensures BuiltAt(log, from, n)
  {
    KeepsIdentity(m, read);
  }

  lemma MissingIsBuilt(rec: JobRecord)
    requires Invoked(rec) && rec.version == 1
    ensures Built(MissingLog(rec), MissingFrom(rec))
  {
    var log, from := MissingLog(rec), MissingFrom(rec);
    MissingRows(rec);
    assert BuiltAt(log, from, 0);
    SwapIsBuilt(log, from, 1, 1, rec, MarkRunning("w"));
    SwapIsBuilt(log, from, 2, 2, FirstRead(rec), RevertToPending);
    SwapIsBuilt(log, from, 3, 2, FirstRead(rec), Reap(1));
    SwapIsBuilt(log, from, 4, 4, Reverted(rec), MarkRunning("v"));
    SwapIsBuilt(log, from, 5, 5, SecondRead(rec), Reap(1));
  }

  lemma MissingIsOrchestrated(rec: JobRecord)
    requires Invoked(rec) && rec.version == 1
    ensures Orchestrated(MissingLog(rec), MissingFrom(rec), MISSING_BY)
  {
    MissingIsBuilt(rec);
    forall n | 0 <= n < 6
      ensures OrchestratedAt(MissingLog(rec), MissingFrom(rec), MISSING_BY, n)
    {
    }
  }

  /**
   Under Raft it can miss: a reap reads the job with its one retry left, loses
   to a revert that takes it, reads it again after the next dispatch and
   writes FAILED; the job is requeued instead of announced.
   */
  lemma FollowUpCanMiss(rec: JobRecord)
    requires Invoked(rec) && rec.version == 1
    ensures var log, from := MissingLog(rec), MissingFrom(rec);
            && Orchestrated(log, from, MISSING_BY)
            && MISSING_BY[3] == MISSING_BY[5] == Reap(1)
            && Answer(log, 3).conflict && Wins(Clean(log, 5), log[5])
            && Clean(log, 6).jobs[rec.id].status.Failed?
            && FollowUpOf(Flags(1, [from[3].read, from[5].read])) == Requeue
  {
    MissingRows(rec);
    MissingIsOrchestrated(rec);
    var seen := [MissingFrom(rec)[3].read, MissingFrom(rec)[5].read];
    assert seen[0].retryCount < 1;
    PendingFlag(1, seen);
  }
}
