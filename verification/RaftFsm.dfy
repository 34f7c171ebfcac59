/**
 The replicated state machine (orchestrator/raft_fsm.go): one function from
 (state, command) to (state, reply), the class that runs it in place on its
 BoltStore, and what every log, replica and snapshot has in common.
 */
module RaftFsm {
  import opened Jobs
  import opened JobStore

  /** A log entry after decoding; Garbled covers undecodable bytes and unknown ops. */
  datatype Command =
    | Put(rec: JobRecord)
    | Cas(rec: JobRecord, expected: int)
    | Submit(rec: JobRecord, key: string)
    | Garbled

  datatype Response = Response(conflict: bool, jobId: string, created: bool, failed: bool)

  /** The version check passes and the job exists: the swap is written. */
  predicate Wins(s: State, c: Command) {
    c.Cas? && c.rec.id in s.jobs && s.jobs[c.rec.id].version == c.expected
  }

  function Next(s: State, c: Command): State {
    match c
    case Put(rec) => s.(jobs := s.jobs[rec.id := rec])
    case Cas(rec, _) => if Wins(s, c) then s.(jobs := s.jobs[rec.id := rec]) else s
    case Submit(rec, key) => Submitted(s, rec, key).0
    case Garbled => s
  }

  function Reply(s: State, c: Command): Response {
    match c
    case Put(_) => Response(false, "", false, false)
    case Cas(rec, _) =>
      if rec.id !in s.jobs then Response(false, "", false, true)
      else Response(!Wins(s, c), "", false, false)
    case Submit(rec, key) =>
      var r := Submitted(s, rec, key).1;
      Response(false, r.jobId, r.created, false)
    case Garbled => Response(false, "", false, true)
  }

  /** A replica that started as `s` and has applied the first `n` commands. */
  function After(s: State, log: seq<Command>, n: nat): State
    requires n <= |log|
  {
    if n == 0 then s else Next(After(s, log, n - 1), log[n - 1])
  }

  class JobFSM {
    const store: BoltStore

    constructor (store: BoltStore)
      ensures this.store == store
    {
      this.store := store;
    }

    method Apply(c: Command) returns (r: Response)
      modifies store
      ensures store.View() == Next(old(store.View()), c)
      ensures r == Reply(old(store.View()), c)
    {
      match c
      case Put(rec) =>
        store.PutJobRaw(rec);
        r := Response(false, "", false, false);
      case Cas(rec, expected) =>
        var swap := store.CasPut(rec.id, expected, rec);
        r := Response(swap.Conflict?, "", false, swap.Missing?);
      case Submit(rec, key) =>
        var sub := store.SubmitRaw(rec, key);
        assert store.View() == Submitted(old(store.View()), rec, key).0;
        r := Response(false, sub.jobId, sub.created, false);
      case Garbled =>
        r := Response(false, "", false, true);
    }

    /** The FSM goroutine: committed entries in order. */
    method ApplyAll(log: seq<Command>)
      modifies store
      ensures store.View() == After(old(store.View()), log, |log|)
    {
      for i := 0 to |log|
        invariant store.View() == After(old(store.View()), log, i)
      {
        var _ := Apply(log[i]);
      }
    }

    method Snapshot() returns (list: seq<JobRecord>, idem: map<string, string>)
      requires KeyedById(store.View())
      ensures State(JobsOf(list), idem) == store.View()
    {
      list, idem := store.ExportState();
      ImportUndoesExport(store.View(), list);
    }

    method Restore(list: seq<JobRecord>, idem: map<string, string>)
      modifies store
      ensures store.View() == State(JobsOf(list), idem)
    {
      store.ImportState(list, idem);
    }
  }

  // ---- replay ----------------------------------------------------------------

  /** The state at `n` looks at the first `n` commands only. */
  lemma {:induction false} AfterPrefix(s: State, log: seq<Command>, more: seq<Command>, n: nat)
    requires n <= |log|
    ensures After(s, log + more, n) == After(s, log, n)
  {
    if n > 0 {
      AfterPrefix(s, log, more, n - 1);
    }
  }

  /** Running a log in two parts is running it in one. */
  lemma {:induction false} AfterSplit(s: State, log: seq<Command>, m: nat, n: nat)
    requires m <= n <= |log|
    ensures After(After(s, log, m), log[m..], n - m) == After(s, log, n)
  {
    if m < n {
      AfterSplit(s, log, m, n - 1);
    }
  }

  lemma {:induction false} AfterKeyedById(s: State, log: seq<Command>, n: nat)
    requires n <= |log| && KeyedById(s)
    ensures KeyedById(After(s, log, n))
  {
    if n > 0 {
      AfterKeyedById(s, log, n - 1);
    }
  }

  // ---- snapshots -------------------------------------------------------------

  /**
   A leader that has applied `m` commands snapshots; a node holding anything
   at all restores it and applies the rest. It ends where a node that ran the
   whole log from empty ends. Both nodes are the real objects.
   */
  method SnapshotCatchUp(leader: JobFSM, follower: JobFSM, log: seq<Command>, m: nat)
    requires leader.store != follower.store
    requires m <= |log|
    requires leader.store.View() == After(EMPTY, log, m)
    modifies follower.store
    ensures follower.store.View() == After(EMPTY, log, |log|)
    ensures leader.store.View() == old(leader.store.View())
  {
    AfterKeyedById(EMPTY, log, m);
    var list, idem := leader.Snapshot();
    follower.Restore(list, idem);
    follower.ApplyAll(log[m..]);
    AfterSplit(EMPTY, log, m, |log|);
  }

  /** The same equivalence for every exported list and every index. */
  lemma SnapshotEquivalence(log: seq<Command>, m: nat, list: seq<JobRecord>)
    requires m <= |log|
    requires ListsAll(list, After(EMPTY, log, m).jobs, After(EMPTY, log, m).jobs.Keys)
    ensures After(State(JobsOf(list), After(EMPTY, log, m).index), log[m..], |log| - m) == After(EMPTY, log, |log|)
  {
    AfterKeyedById(EMPTY, log, m);
    ImportUndoesExport(After(EMPTY, log, m), list);
    AfterSplit(EMPTY, log, m, |log|);
  }

  // ---- idempotency -----------------------------------------------------------

  /** The answer the cluster gives to the command at position `n`. */
  function Answer(log: seq<Command>, n: nat): Response
    requires n < |log|
  {
    Reply(After(EMPTY, log, n), log[n])
  }

  /** An index entry, once made, is never changed or removed. */
  lemma {:induction false} IndexStable(s: State, log: seq<Command>, m: nat, n: nat, key: string)
    requires m <= n <= |log|
    requires key in After(s, log, m).index
    ensures key in After(s, log, n).index
    ensures After(s, log, n).index[key] == After(s, log, m).index[key]
  {
    if m < n {
      IndexStable(s, log, m, n - 1, key);
    }
  }

  /** A submit leaves its key bound to the id it answered with. */
  lemma SubmitBindsKey(log: seq<Command>, n: nat)
    requires n < |log| && log[n].Submit? && log[n].key != ""
    ensures log[n].key in After(EMPTY, log, n + 1).index
    ensures After(EMPTY, log, n + 1).index[log[n].key] == Answer(log, n).jobId
  {
  }

  /**
   Any two submits with one non-empty key, anywhere in any log: the later one
   creates nothing and gets the earlier one's id.
   */
  lemma SubmitOnce(log: seq<Command>, m: nat, n: nat)
    requires m < n < |log|
    requires log[m].Submit? && log[n].Submit? && log[m].key == log[n].key != ""
    ensures !Answer(log, n).created
    ensures Answer(log, n).jobId == Answer(log, m).jobId
  {
    SubmitBindsKey(log, m);
    IndexStable(EMPTY, log, m + 1, n, log[m].key);
  }

  /**
   The same across a snapshot: a node restored at `m` from any export answers
   the command at `n` exactly as a node that never failed.
   */
  lemma AnswerAfterRestore(log: seq<Command>, m: nat, n: nat, list: seq<JobRecord>)
    requires m <= n < |log|
    requires ListsAll(list, After(EMPTY, log, m).jobs, After(EMPTY, log, m).jobs.Keys)
    ensures Reply(After(State(JobsOf(list), After(EMPTY, log, m).index), log[m..], n - m), log[n]) == Answer(log, n)
  {
    AfterKeyedById(EMPTY, log, m);
    ImportUndoesExport(After(EMPTY, log, m), list);
    AfterSplit(EMPTY, log, m, n);
  }
}
