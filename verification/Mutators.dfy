/**
 Every closure the orchestrator passes to Store.Transition
 (orchestrator/server.go, orchestrator/scheduler.go), as data, and the laws
 the job state machine rests on. They hold for both stores.
 */
module Mutators {
  import opened Jobs
  import opened JobStore
  import opened RaftFsm
  import opened RaftLog
  import Replicated = RaftStore

  datatype Mutator =
    | MarkRunning(worker: string)                   // scheduler.go:117
    | RevertToPending                               // scheduler.go:144
    | MissingPayload                                // scheduler.go:95
    | GiveUp(reason: string)                        // server.go:203, server.go:217
    | Reap(maxRetries: int)                         // server.go:279
    | Recover                                       // server.go:131
    | Report(success: bool, resultBytes: Bytes, error: string, coldStartMs: int, executionMs: int) // server.go:367

  function Run(m: Mutator, r: JobRecord): Mutation {
    match m
    case MarkRunning(worker) =>
      if Terminal(r.status) then Skip
      else Write(r.(status := Running, workerId := worker))
    case RevertToPending =>
      if Terminal(r.status) then Skip
      else Write(r.(status := Pending, workerId := "", retryCount := r.retryCount + 1))
    case MissingPayload =>
      Write(r.(status := Failed, error := "missing payload (pre-Phase-4 WAL entry)"))
    case GiveUp(reason) =>
      if Terminal(r.status) then Skip
      else Write(r.(status := Failed, error := "dispatch failed: " + reason))
    case Reap(maxRetries) =>
      if !r.status.Running? then Skip
      else if r.retryCount + 1 > maxRetries then
        Write(r.(status := Failed, retryCount := r.retryCount + 1,
                 error := "exceeded max retries after worker death(s)"))
      else
        Write(r.(status := Pending, workerId := "", retryCount := r.retryCount + 1))
    case Recover =>
      if r.status.Running? then Write(r.(status := Pending, workerId := "")) else Write(r)
    case Report(success, resultBytes, error, coldStartMs, executionMs) =>
      if Terminal(r.status) then Skip
      else Write(r.(status := if success then Done else Failed,
                    error := if success then "" else error,
                    functionBytes := [], argsBytes := [],
                    resultBytes := resultBytes, coldStartMs := coldStartMs, executionMs := executionMs))
  }

  /** What holds of every record of a job that came in through InvokeFunction. */
  ghost predicate Sound(r: JobRecord) {
    && (!Terminal(r.status) ==> r.functionBytes != [])
    && (r.status.Pending? ==> r.workerId == "")
    && (r.status.Done? ==> r.error == "" && r.functionBytes == [] && r.argsBytes == [])
    && (!Terminal(r.status) ==> r.error == "" && r.resultBytes == [] && r.coldStartMs == 0 && r.executionMs == 0)
    && 0 <= r.retryCount
  }

  /** The record InvokeFunction builds (server.go:425). */
  ghost predicate Invoked(r: JobRecord) {
    && r.status.Pending?
    && r.functionBytes != []
    && r.workerId == "" && r.error == "" && r.resultBytes == []
    && r.coldStartMs == 0 && r.executionMs == 0 && r.retryCount == 0
  }

  /** Everything except the bookkeeping a rewrite may touch. */
  ghost predicate SameJob(a: JobRecord, b: JobRecord) {
    a == b.(updatedAt := a.updatedAt, createdAt := a.createdAt, version := a.version)
  }

  /** How much a write of this mutator adds to the retry count. */
  function RetryDelta(m: Mutator): nat {
    if m.RevertToPending? || m.Reap? then 1 else 0
  }

  /** No mutator renames a job or touches its key, name or creation time, and none writes the version. */
  lemma KeepsIdentity(m: Mutator, r: JobRecord)
    requires Run(m, r).Write?
    ensures Run(m, r).rec.id == r.id && Run(m, r).rec.idempotencyKey == r.idempotencyKey
    ensures Run(m, r).rec.functionName == r.functionName
    ensures Run(m, r).rec.createdAt == r.createdAt
    ensures Run(m, r).rec.version == r.version
  {
  }

  /** So RaftStore.Transition takes every one of them. */
  lemma AcceptedByRaftStore(m: Mutator)
    ensures PreservesId(r => Run(m, r))
  {
    var mutate := r => Run(m, r);
    forall r | mutate(r).Write?
      ensures mutate(r).rec.id == r.id
    {
      KeepsIdentity(m, r);
    }
  }

  /** A terminal job is left alone: skipped, or (by recovery) written back as it was. */
  lemma TerminalIsFinal(m: Mutator, r: JobRecord)
    requires Terminal(r.status) && !m.MissingPayload?
    ensures !Run(m, r).Abort?
    ensures Run(m, r).Write? ==> Run(m, r).rec == r
  {
  }

  /** Guarded writes keep a sound record sound and charge exactly the retries they should. */
  lemma KeepsSound(m: Mutator, r: JobRecord)
    requires Sound(r) && Run(m, r).Write? && !m.MissingPayload?
    ensures Sound(Run(m, r).rec)
    ensures Run(m, r).rec.retryCount == r.retryCount + RetryDelta(m)
    ensures m.Reap? && Run(m, r).rec.status.Pending? <==> m.Reap? && r.retryCount < m.maxRetries
    ensures !m.Report? ==> Run(m, r).rec.argsBytes == r.argsBytes && Run(m, r).rec.functionBytes == r.functionBytes
  {
  }

  /** PENDING -> RUNNING -> DONE/FAILED and the ways back, and which closure may take each. */
  predicate Edge(s: JobStatus, m: Mutator, t: JobStatus) {
    match t
    case Pending => s.Running? && (m.RevertToPending? || m.Reap? || m.Recover?)
    case Running => s.Pending? && m.MarkRunning?
    case Done => !Terminal(s) && m.Report? && m.success
    case Failed => !Terminal(s) && (m.GiveUp? || (m.Reap? && s.Running?) || (m.Report? && !m.success))
  }

  lemma Edges(m: Mutator, r: JobRecord)
    requires Sound(r) && Run(m, r).Write? && !m.MissingPayload?
    ensures Run(m, r).rec.status != r.status ==> Edge(r.status, m, Run(m, r).rec.status)
  {
  }

  /** The result event a report calls for. */
  function Reported(m: Mutator, r: JobRecord): JobResult
    requires m.Report?
  {
    JobResult(r.id, if m.success then Done else Failed, m.resultBytes, if m.success then "" else m.error,
              m.coldStartMs, m.coldStartMs + m.executionMs, ToInt32(r.retryCount), r.workerId)
  }

  /** The result event a closure that ends the job calls for. */
  function Ending(m: Mutator, r: JobRecord): JobResult
    requires m.Report? || m.Reap? || m.GiveUp?
  {
    match m
    case Reap(_) =>
      JobResult(r.id, Failed, [], "exceeded max retries after worker death(s)", 0, 0, ToInt32(r.retryCount + 1), r.workerId)
    case GiveUp(reason) => JobResult(r.id, Failed, [], "dispatch failed: " + reason, 0, 0, ToInt32(r.retryCount), r.workerId)
    case _ => Reported(m, r)
  }

  lemma EndingIsTheResult(m: Mutator, r: JobRecord)
    requires Sound(r) && !Terminal(r.status) && (m.Report? || m.Reap? || m.GiveUp?)
    requires Run(m, r).Write? && Terminal(Run(m, r).rec.status)
    ensures ResultOf(Run(m, r).rec) == Ending(m, r)
    ensures m.Report? ==> Run(m, r).rec.functionBytes == [] && Run(m, r).rec.argsBytes == []
  {
  }

  lemma ReportIsTheResult(m: Mutator, r: JobRecord)
    requires m.Report? && !Terminal(r.status)
    ensures Run(m, r).Write? && ResultOf(Run(m, r).rec) == Reported(m, r)
  {
  }

  // ---- a transaction on the single-node store --------------------------------

  predicate Commits(s: State, id: string, m: Mutator) {
    id in s.jobs && Run(m, s.jobs[id]).Write?
  }

  /** The store after BoltStore.Transition with one of the closures. */
  function Commit(s: State, id: string, m: Mutator, now: int): State {
    if Commits(s, id, m) then s.(jobs := s.jobs[id := Stamp(Run(m, s.jobs[id]).rec, now)]) else s
  }

  /** The class does what the function says. */
  method Transact(store: BoltStore, id: string, m: Mutator, now: int) returns (committed: bool)
    modifies store`jobs
    ensures store.View() == Commit(old(store.View()), id, m, now)
    ensures committed <==> Commits(old(store.View()), id, m)
  {
    var r := store.Transition(id, rec => Run(m, rec), now);
    committed := r.Committed?;
  }

  /** The entry at `p` gives the job the record the closure writes on the job as it is, one version up. */
  ghost predicate RewritesTo(log: seq<Command>, p: nat, id: string, m: Mutator, now: int)
    requires p < |log|
  {
    && id in Clean(log, p).jobs && id in Clean(log, p + 1).jobs && Run(m, Clean(log, p).jobs[id]).Write?
    && Clean(log, p + 1).jobs[id] == Proposed(Clean(log, p).jobs[id], Run(m, Clean(log, p).jobs[id]).rec, now)
  }

  /**
   The same on the replicated store: a commit is one entry of this call that
   wrote the job, and if no put of the job was overtaken between its read and
   its commit it wrote what the closure makes of the job as it stood then.
   */
  method TransactReplicated(store: Replicated.RaftStore, id: string, m: Mutator) returns (r: Replicated.Outcome, ghost p: nat)
    requires store.Valid()
    modifies store, store.inner
    ensures store.Valid() && Extends(old(store.log), store.log)
    ensures r.Committed? ==> |old(store.log)| <= p < |store.log| && Replicated.SwappedAt(store.log, p, id)
    ensures r.Committed? ==> store.from[p].Transition?
    ensures r.Committed? && Orderly(store.log, store.from, store.from[p].readAt, p, id) ==>
              && Commits(Clean(store.log, p), id, m)
              && exists now :: RewritesTo(store.log, p, id, m, now)
  {
    var mutate := rec => Run(m, rec);
    AcceptedByRaftStore(m);
    r, p := store.Transition(id, mutate);
    if r.Committed? {
      p := store.own.at;
      assert Orderly(store.log, store.from, store.from[p].readAt, p, id) ==> RewritesTo(store.log, p, id, m, store.from[p].now);
    }
  }

  // ---- whole histories under Raft --------------------------------------------

  /**
   A log all of whose swaps ran one of the closures above and all of whose
   submits came from InvokeFunction; nothing in the orchestrator calls PutJob.
   `ms[n]` is the closure behind entry `n`. The missing-payload closure runs
   only after Dispatch has read a live job without payload.
   */
  ghost predicate Orchestrated(log: seq<Command>, from: seq<Origin>, ms: seq<Mutator>) {
    && Built(log, from)
    && |ms| == |log|
    && forall n :: 0 <= n < |log| ==> OrchestratedAt(log, from, ms, n)
  }

  ghost predicate OrchestratedAt(log: seq<Command>, from: seq<Origin>, ms: seq<Mutator>, n: nat)
    requires n < |log| == |from| == |ms|
  {
    && !log[n].Put?
    && (log[n].Submit? ==> Invoked(log[n].rec))
    && (log[n].Cas? ==>
          && from[n].Transition?
          && (forall r :: from[n].mutate(r) == Run(ms[n], r))
          && (ms[n].MissingPayload? ==> exists g :: 0 <= g <= n && LiveWithoutPayload(log, g, log[n].rec.id)))
  }

  ghost predicate LiveWithoutPayload(log: seq<Command>, g: nat, id: string)
    requires g <= |log|
  {
    && id in Clean(log, g).jobs
    && !Terminal(Clean(log, g).jobs[id].status)
    && Clean(log, g).jobs[id].functionBytes == []
  }

  /** The entry at `n` wrote this job with a closure that charges a retry. */
  predicate Charges(log: seq<Command>, ms: seq<Mutator>, n: nat, id: string)
    requires n < |log| == |ms|
  {
    Wins(Clean(log, n), log[n]) && log[n].rec.id == id && RetryDelta(ms[n]) == 1
  }

  function Charged(log: seq<Command>, ms: seq<Mutator>, n: nat, id: string): nat
    requires n <= |log| == |ms|
  {
    if n == 0 then 0
    else Charged(log, ms, n - 1, id) + if Charges(log, ms, n - 1, id) then 1 else 0
  }

  /** Committed dead-worker sweeps that put this job back in the queue. */
  function Requeued(log: seq<Command>, ms: seq<Mutator>, n: nat, id: string): nat
    requires n <= |log| == |ms|
  {
    if n == 0 then 0
    else Requeued(log, ms, n - 1, id) +
         if Charges(log, ms, n - 1, id) && ms[n - 1].Reap? && log[n - 1].rec.status.Pending? then 1 else 0
  }

  lemma NothingIsPut(log: seq<Command>, from: seq<Origin>, ms: seq<Mutator>, n: nat)
    requires Orchestrated(log, from, ms) && n <= |log|
    ensures forall i, id :: 0 <= i ==> Orderly(log, from, i, n, id)
  {
    forall m | 0 <= m < n
      ensures !log[m].Put?
    {
      assert OrchestratedAt(log, from, ms, m);
    }
  }

  /** What a written entry did: its closure ran on the job as it stood. */
  lemma WinnerRan(log: seq<Command>, from: seq<Origin>, ms: seq<Mutator>, n: nat)
    requires Orchestrated(log, from, ms) && n < |log| && Wins(Clean(log, n), log[n])
    ensures from[n].Transition? && RewritesTo(log, n, log[n].rec.id, ms[n], from[n].now)
  {
    assert OrchestratedAt(log, from, ms, n);
    NothingIsPut(log, from, ms, n);
    WinnerReadCurrent(log, from, n, log[n].rec.id);
  }

  /** An entry that is not a written swap of the job leaves a job that is there alone. */
  lemma OnlyWinnersWrite(log: seq<Command>, from: seq<Origin>, ms: seq<Mutator>, n: nat, id: string)
    requires Orchestrated(log, from, ms) && n < |log| && id in Clean(log, n).jobs
    ensures id in Clean(log, n + 1).jobs
    ensures Written(log, n, id) ==> Wins(Clean(log, n), log[n]) && log[n].rec.id == id
  {
    assert OrchestratedAt(log, from, ms, n);
    if log[n].Submit? {
      SubmitIsNew(log, from, n);
    }
  }

  /** A job that was not there begins as InvokeFunction made it. */
  lemma BeginsInvoked(log: seq<Command>, from: seq<Origin>, ms: seq<Mutator>, n: nat, id: string)
    requires Orchestrated(log, from, ms) && n < |log|
    requires id !in Clean(log, n).jobs && id in Clean(log, n + 1).jobs
    ensures Invoked(Clean(log, n + 1).jobs[id]) && !Wins(Clean(log, n), log[n])
  {
    assert OrchestratedAt(log, from, ms, n);
  }

  /** Every record in the table is sound, at every point of every log; so the unguarded write never happens. */
  lemma {:induction false} AlwaysSound(log: seq<Command>, from: seq<Origin>, ms: seq<Mutator>, n: nat, id: string)
    requires Orchestrated(log, from, ms) && n <= |log|
    requires id in Clean(log, n).jobs
    ensures Sound(Clean(log, n).jobs[id])
    decreases n, 0
  {
    if id in Clean(log, n - 1).jobs {
      AlwaysSound(log, from, ms, n - 1, id);
      OnlyWinnersWrite(log, from, ms, n - 1, id);
      if Written(log, n - 1, id) {
        WinnerRan(log, from, ms, n - 1);
        NoMissingPayload(log, from, ms, n - 1);
        KeepsSound(ms[n - 1], Clean(log, n - 1).jobs[id]);
      }
    } else {
      BeginsInvoked(log, from, ms, n - 1, id);
    }
  }

  lemma {:induction false} NoMissingPayload(log: seq<Command>, from: seq<Origin>, ms: seq<Mutator>, n: nat)
    requires Orchestrated(log, from, ms) && n < |log| && log[n].Cas?
    ensures !ms[n].MissingPayload?
    decreases n, 1
  {
    assert OrchestratedAt(log, from, ms, n);
    if ms[n].MissingPayload? {
      var g :| 0 <= g <= n && LiveWithoutPayload(log, g, log[n].rec.id);
      AlwaysSound(log, from, ms, g, log[n].rec.id);
      assert false;
    }
  }

  /** One written entry, on a record known to be sound. */
  lemma WinnerRuns(log: seq<Command>, from: seq<Origin>, ms: seq<Mutator>, n: nat)
    requires Orchestrated(log, from, ms) && n < |log| && Wins(Clean(log, n), log[n])
    ensures from[n].Transition? && RewritesTo(log, n, log[n].rec.id, ms[n], from[n].now)
    ensures !ms[n].MissingPayload? && Sound(Clean(log, n).jobs[log[n].rec.id])
  {
    WinnerRan(log, from, ms, n);
    NoMissingPayload(log, from, ms, n);
    AlwaysSound(log, from, ms, n, log[n].rec.id);
  }

  /** Every status change of every job in every log is one of the edges. */
  lemma StatusTakesAnEdge(log: seq<Command>, from: seq<Origin>, ms: seq<Mutator>, n: nat, id: string)
    requires Orchestrated(log, from, ms) && n < |log| && id in Clean(log, n).jobs
    ensures id in Clean(log, n + 1).jobs
    ensures var s, t := Clean(log, n).jobs[id].status, Clean(log, n + 1).jobs[id].status;
            t != s ==> log[n].Cas? && log[n].rec.id == id && Edge(s, ms[n], t)
  {
    OnlyWinnersWrite(log, from, ms, n, id);
    if Written(log, n, id) {
      WinnerRuns(log, from, ms, n);
      Edges(ms[n], Clean(log, n).jobs[id]);
    }
  }

  lemma TerminalStays(log: seq<Command>, from: seq<Origin>, ms: seq<Mutator>, n: nat, id: string)
    requires Orchestrated(log, from, ms) && n < |log|
    requires id in Clean(log, n).jobs && Terminal(Clean(log, n).jobs[id].status)
    ensures id in Clean(log, n + 1).jobs && SameJob(Clean(log, n + 1).jobs[id], Clean(log, n).jobs[id])
  {
    OnlyWinnersWrite(log, from, ms, n, id);
    if Written(log, n, id) {
      WinnerRuns(log, from, ms, n);
      TerminalIsFinal(ms[n], Clean(log, n).jobs[id]);
    }
  }

  /** Once DONE or FAILED a job never changes again, so every watcher ever served gets one and the same result. */
  lemma {:induction false} TerminalAbsorbs(log: seq<Command>, from: seq<Origin>, ms: seq<Mutator>, i: nat, j: nat, id: string)
    requires Orchestrated(log, from, ms) && i <= j <= |log|
    requires id in Clean(log, i).jobs && Terminal(Clean(log, i).jobs[id].status)
    ensures id in Clean(log, j).jobs
    ensures SameJob(Clean(log, j).jobs[id], Clean(log, i).jobs[id])
    ensures ResultOf(Clean(log, j).jobs[id]) == ResultOf(Clean(log, i).jobs[id])
  {
    if i < j {
      TerminalAbsorbs(log, from, ms, i, j - 1, id);
      TerminalStays(log, from, ms, j - 1, id);
    }
  }

  lemma WinnerFinishes(log: seq<Command>, from: seq<Origin>, ms: seq<Mutator>, n: nat, id: string)
    requires Orchestrated(log, from, ms) && n < |log| && id in Clean(log, n).jobs && !Terminal(Clean(log, n).jobs[id].status)
    requires id in Clean(log, n + 1).jobs && Terminal(Clean(log, n + 1).jobs[id].status)
    ensures ms[n].Report? || ms[n].Reap? || ms[n].GiveUp?
    ensures ResultOf(Clean(log, n + 1).jobs[id]) == Ending(ms[n], Clean(log, n).jobs[id])
    ensures ms[n].Report? ==> Clean(log, n + 1).jobs[id].functionBytes == [] && Clean(log, n + 1).jobs[id].argsBytes == []
  {
    OnlyWinnersWrite(log, from, ms, n, id);
    assert Written(log, n, id);
    WinnerRuns(log, from, ms, n);
    Edges(ms[n], Clean(log, n).jobs[id]);
    EndingIsTheResult(ms[n], Clean(log, n).jobs[id]);
  }

  /**
   A finished job was finished by one entry, and its result has been that
   entry's since: a DONE job's result is, field by field, what one worker
   reported; a FAILED one's is a failure report's, or names the reap or the
   give-up that ended it, with nothing else in it.
   */
  lemma {:induction false} FinishedBy(log: seq<Command>, from: seq<Origin>, ms: seq<Mutator>, n: nat, id: string) returns (m: nat)
    requires Orchestrated(log, from, ms) && n <= |log|
    requires id in Clean(log, n).jobs && Terminal(Clean(log, n).jobs[id].status)
    ensures m < n && log[m].Cas? && log[m].rec.id == id
    ensures id in Clean(log, m).jobs && !Terminal(Clean(log, m).jobs[id].status)
    ensures ms[m].Report? || ms[m].Reap? || ms[m].GiveUp?
    ensures Clean(log, n).jobs[id].status.Done? ==> ms[m].Report? && ms[m].success
    ensures ResultOf(Clean(log, n).jobs[id]) == Ending(ms[m], Clean(log, m).jobs[id])
    ensures ms[m].Report? ==> Clean(log, n).jobs[id].functionBytes == [] && Clean(log, n).jobs[id].argsBytes == []
  {
    if id !in Clean(log, n - 1).jobs {
      BeginsInvoked(log, from, ms, n - 1, id);
      assert false;
    } else if Terminal(Clean(log, n - 1).jobs[id].status) {
      m := FinishedBy(log, from, ms, n - 1, id);
      TerminalAbsorbs(log, from, ms, n - 1, n, id);
    } else {
      m := n - 1;
      StatusTakesAnEdge(log, from, ms, m, id);
      WinnerFinishes(log, from, ms, m, id);
    }
  }

  /** The retry count is exactly the committed reverts plus the committed dead-worker sweeps. */
  lemma {:induction false} RetryLedger(log: seq<Command>, from: seq<Origin>, ms: seq<Mutator>, n: nat, id: string)
    requires Orchestrated(log, from, ms) && n <= |log|
    ensures id in Clean(log, n).jobs ==> Clean(log, n).jobs[id].retryCount == Charged(log, ms, n, id)
    ensures id !in Clean(log, n).jobs ==> Charged(log, ms, n, id) == 0
  {
    if n > 0 {
      RetryLedger(log, from, ms, n - 1, id);
      if id in Clean(log, n - 1).jobs {
        OnlyWinnersWrite(log, from, ms, n - 1, id);
        if Wins(Clean(log, n - 1), log[n - 1]) && log[n - 1].rec.id == id {
          WinnerRuns(log, from, ms, n - 1);
          KeepsSound(ms[n - 1], Clean(log, n - 1).jobs[id]);
        }
      } else if id in Clean(log, n).jobs {
        BeginsInvoked(log, from, ms, n - 1, id);
      }
    }
  }

  /** The reaper requeues a job at most `maxRetries` times over all leaders and lifetimes, if none is configured above that. */
  lemma {:induction false} RequeuesBounded(log: seq<Command>, from: seq<Origin>, ms: seq<Mutator>, n: nat, id: string, maxRetries: nat)
    requires Orchestrated(log, from, ms) && n <= |log|
    requires forall i :: 0 <= i < |ms| && ms[i].Reap? ==> ms[i].maxRetries <= maxRetries
    ensures Requeued(log, ms, n, id) <= maxRetries
    ensures Requeued(log, ms, n, id) <= Charged(log, ms, n, id)
  {
    if n > 0 {
      RequeuesBounded(log, from, ms, n - 1, id, maxRetries);
      if Charges(log, ms, n - 1, id) && ms[n - 1].Reap? && log[n - 1].rec.status.Pending? {
        RetryLedger(log, from, ms, n - 1, id);
        WinnerRuns(log, from, ms, n - 1);
      }
    }
  }

  /** Every index entry points at a stored job carrying the key, at every index of every such log. */
  lemma IndexPointsToItsJob(log: seq<Command>, from: seq<Origin>, ms: seq<Mutator>, n: nat, key: string)
    requires Orchestrated(log, from, ms) && n <= |log| && key in Clean(log, n).index
    ensures key != "" && Clean(log, n).index[key] in Clean(log, n).jobs
    ensures Clean(log, n).jobs[Clean(log, n).index[key]].idempotencyKey == key
  {
    var b := BoundBy(log, n, key);
    assert BuiltAt(log, from, b);
    KeyStays(log, from, ms, b + 1, n, log[b].rec.id);
  }

  lemma {:induction false} KeyStays(log: seq<Command>, from: seq<Origin>, ms: seq<Mutator>, i: nat, j: nat, id: string)
    requires Orchestrated(log, from, ms) && i <= j <= |log| && id in Clean(log, i).jobs
    ensures id in Clean(log, j).jobs && Clean(log, j).jobs[id].idempotencyKey == Clean(log, i).jobs[id].idempotencyKey
  {
    if i < j {
      KeyStays(log, from, ms, i, j - 1, id);
      OnlyWinnersWrite(log, from, ms, j - 1, id);
      if Written(log, j - 1, id) {
        WinnerRan(log, from, ms, j - 1);
        KeepsIdentity(ms[j - 1], Clean(log, j - 1).jobs[id]);
      }
    }
  }
}
