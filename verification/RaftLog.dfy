/**
 Logs as RaftStore builds them (orchestrator/raft_store.go): submits with
 fresh ids, compare-and-swaps whose record came out of a mutator run on a
 record some leader had read, and puts numbered after a local read. What
 agreement on such a log buys, and what an overtaken put costs.
 */
module RaftLog {
  import opened Jobs
  import opened JobStore
  import opened RaftFsm

  /** Where an entry came from. `readAt` says as of which prefix the proposer saw the job. */
  datatype Origin =
    | Client
    | Transition(readAt: nat, read: JobRecord, mutate: JobRecord -> Mutation, now: int)
    | PutCall(readAt: nat, found: Option<JobRecord>)

  /** The record RaftStore.Transition proposes after its mutator answered `written`. */
  function Proposed(read: JobRecord, written: JobRecord, now: int): JobRecord {
    Stamp(written, now).(version := read.version + 1)
  }

  /** The version RaftStore.PutJob puts on its record. */
  function PutVersion(found: Option<JobRecord>): int {
    if found.Some? then found.value.version + 1 else 1
  }

  /** The mutators the store accepts: they may not rename a job. */
  ghost predicate PreservesId(mutate: JobRecord -> Mutation) {
    forall r :: mutate(r).Write? ==> mutate(r).rec.id == r.id
  }

  /** The clean run: the state every replica agrees on after `n` commands. */
  function Clean(log: seq<Command>, n: nat): State
    requires n <= |log|
  {
    After(EMPTY, log, n)
  }

  /** The job's row after `n` commands. */
  function RowAt(log: seq<Command>, n: nat, id: string): Option<JobRecord>
    requires n <= |log|
  {
    if id in Clean(log, n).jobs then Some(Clean(log, n).jobs[id]) else None
  }

  predicate FreshIn(log: seq<Command>, n: nat, id: string)
    requires n <= |log|
  {
    forall m :: 0 <= m < n && (log[m].Submit? || log[m].Put?) ==> log[m].rec.id != id
  }

  /** The command at `n` changed the job's row. */
  predicate Written(log: seq<Command>, n: nat, id: string)
    requires n < |log|
  {
    RowAt(log, n + 1, id) != RowAt(log, n, id)
  }

  /** Something wrote the job after the first `i` commands and within the first `j`. */
  predicate Overtaken(log: seq<Command>, i: nat, j: nat, id: string)
    requires j <= |log|
  {
    exists m :: i <= m < j && Written(log, m, id)
  }

  predicate PutOf(c: Command, id: string) {
    c.Put? && c.rec.id == id
  }

  /** A put that nothing overtook between its read and its commit, or that changes nothing. */
  predicate OrderlyAt(log: seq<Command>, from: seq<Origin>, n: nat)
    requires n < |log| == |from| && log[n].Put?
  {
    from[n].PutCall? && (!Overtaken(log, from[n].readAt, n, log[n].rec.id) || !Written(log, n, log[n].rec.id))
  }

  /** No put of the job among commands `i` to `j` was overtaken; in particular where nobody puts it. */
  predicate Orderly(log: seq<Command>, from: seq<Origin>, i: nat, j: nat, id: string)
    requires j <= |log| == |from|
  {
    forall m {:trigger OrderlyAt(log, from, m)} :: i <= m < j && PutOf(log[m], id) ==> OrderlyAt(log, from, m)
  }

  /** One entry as the code makes it, from a local read that is the job's row at some earlier point of the log. */
  predicate BuiltAt(log: seq<Command>, from: seq<Origin>, n: nat)
    requires n < |log| == |from|
  {
    match log[n]
    case Garbled => true
    case Submit(rec, key) =>
      && rec.version == 1
      && rec.idempotencyKey == key
      && FreshIn(log, n, rec.id)
    case Put(rec) =>
      && from[n].PutCall?
      && from[n].readAt <= n
      && rec.version == PutVersion(from[n].found)
      && RowAt(log, from[n].readAt, rec.id) == from[n].found
    case Cas(rec, expected) =>
      && from[n].Transition?
      && from[n].readAt <= n
      && RowAt(log, from[n].readAt, rec.id) == Some(from[n].read)
      && from[n].mutate(from[n].read).Write?
      && rec == Proposed(from[n].read, from[n].mutate(from[n].read).rec, from[n].now)
      && expected == from[n].read.version
  }

  predicate Built(log: seq<Command>, from: seq<Origin>) {
    |log| == |from| && forall n :: 0 <= n < |log| ==> BuiltAt(log, from, n)
  }

  // ---- longer logs -----------------------------------------------------------

  /** `b` continues `a`. */
  predicate Extends<T(==)>(a: seq<T>, b: seq<T>) {
    |a| <= |b| && forall n :: 0 <= n < |a| ==> b[n] == a[n]
  }

  lemma {:induction false} CleanExtends(a: seq<Command>, b: seq<Command>, n: nat)
    requires Extends(a, b) && n <= |a|
    ensures Clean(b, n) == Clean(a, n)
  {
    if n > 0 {
      CleanExtends(a, b, n - 1);
    }
  }

  lemma BuiltAtExtends(a: seq<Command>, f: seq<Origin>, b: seq<Command>, g: seq<Origin>, n: nat)
    requires |a| == |f| && |b| == |g| && Extends(a, b) && Extends(f, g) && n < |a|
    requires BuiltAt(a, f, n)
    ensures BuiltAt(b, g, n)
  {
    if a[n].Put? || a[n].Cas? {
      CleanExtends(a, b, f[n].readAt);
    }
  }

  // ---- rows ------------------------------------------------------------------

  /** No command removes a job. */
  lemma {:induction false} JobsStay(log: seq<Command>, i: nat, j: nat, id: string)
    requires i <= j <= |log| && id in Clean(log, i).jobs
    ensures id in Clean(log, j).jobs
  {
    if i < j {
      JobsStay(log, i, j - 1, id);
    }
  }

  lemma {:induction false} UnwrittenStays(log: seq<Command>, i: nat, j: nat, id: string)
    requires i <= j <= |log| && !Overtaken(log, i, j, id)
    ensures RowAt(log, j, id) == RowAt(log, i, id)
  {
    if i < j {
      assert !Written(log, j - 1, id);
      assert forall m :: i <= m < j - 1 ==> !Written(log, m, id);
      UnwrittenStays(log, i, j - 1, id);
    }
  }

  /** A stored job was submitted or put earlier. */
  lemma {:induction false} StoredWasWritten(log: seq<Command>, n: nat, id: string)
    requires n <= |log| && id in Clean(log, n).jobs
    ensures !FreshIn(log, n, id)
  {
    if id in Clean(log, n - 1).jobs {
      StoredWasWritten(log, n - 1, id);
    }
  }

  /** A submit finds no job under its id. */
  lemma SubmitIsNew(log: seq<Command>, from: seq<Origin>, n: nat)
    requires Built(log, from) && n < |log| && log[n].Submit?
    ensures log[n].rec.id !in Clean(log, n).jobs
  {
    assert BuiltAt(log, from, n);
    if log[n].rec.id in Clean(log, n).jobs {
      StoredWasWritten(log, n, log[n].rec.id);
    }
  }

  // ---- versions --------------------------------------------------------------

  /** What a command other than an overtaken put does to a job that is there: nothing, or one version up. */
  lemma VersionStep(log: seq<Command>, from: seq<Origin>, n: nat, id: string)
    requires Built(log, from) && n < |log| && Orderly(log, from, n, n + 1, id)
    requires id in Clean(log, n).jobs
    ensures id in Clean(log, n + 1).jobs
    ensures Written(log, n, id) ==> Clean(log, n + 1).jobs[id].version == Clean(log, n).jobs[id].version + 1
  {
    assert BuiltAt(log, from, n);
    if log[n].Submit? {
      SubmitIsNew(log, from, n);
    } else if PutOf(log[n], id) && Written(log, n, id) {
      assert OrderlyAt(log, from, n);
      UnwrittenStays(log, from[n].readAt, n, id);
    }
  }

  /** Between two moments a job either stayed exactly as it was or moved to a higher version. */
  lemma {:induction false} VersionGrows(log: seq<Command>, from: seq<Origin>, i: nat, j: nat, id: string)
    requires Built(log, from) && i <= j <= |log| && Orderly(log, from, i, j, id)
    requires id in Clean(log, i).jobs
    ensures id in Clean(log, j).jobs
    ensures Clean(log, i).jobs[id] == Clean(log, j).jobs[id]
            || Clean(log, i).jobs[id].version < Clean(log, j).jobs[id].version
  {
    if i < j {
      VersionGrows(log, from, i, j - 1, id);
      VersionStep(log, from, j - 1, id);
    }
  }

  /** No ABA: at two moments with the same version, the same record. */
  lemma SameVersionSameRecord(log: seq<Command>, from: seq<Origin>, i: nat, j: nat, id: string)
    requires Built(log, from) && i <= j <= |log| && Orderly(log, from, i, j, id)
    requires id in Clean(log, i).jobs && id in Clean(log, j).jobs
    requires Clean(log, i).jobs[id].version == Clean(log, j).jobs[id].version
    ensures Clean(log, i).jobs[id] == Clean(log, j).jobs[id]
  {
    VersionGrows(log, from, i, j, id);
  }

  /** How often the job's row was rewritten by the first `n` commands. */
  function Rewrites(log: seq<Command>, n: nat, id: string): nat
    requires n <= |log|
  {
    if n == 0 then 0
    else Rewrites(log, n - 1, id) + if id in Clean(log, n - 1).jobs && Written(log, n - 1, id) then 1 else 0
  }

  /** No lost update: every rewrite shows up in the version, and nothing else does. */
  lemma {:induction false} VersionCountsRewrites(log: seq<Command>, from: seq<Origin>, n: nat, id: string)
    requires Built(log, from) && n <= |log| && Orderly(log, from, 0, n, id)
    ensures id in Clean(log, n).jobs ==> Clean(log, n).jobs[id].version == 1 + Rewrites(log, n, id)
    ensures id !in Clean(log, n).jobs ==> Rewrites(log, n, id) == 0
  {
    if n > 0 {
      VersionCountsRewrites(log, from, n - 1, id);
      if id in Clean(log, n - 1).jobs {
        VersionStep(log, from, n - 1, id);
      } else if id in Clean(log, n).jobs {
        FirstVersion(log, from, n - 1, id);
      }
    }
  }

  /** A job begins at version 1. */
  lemma FirstVersion(log: seq<Command>, from: seq<Origin>, n: nat, id: string)
    requires Built(log, from) && n < |log| && Orderly(log, from, n, n + 1, id)
    requires id !in Clean(log, n).jobs && id in Clean(log, n + 1).jobs
    ensures Clean(log, n + 1).jobs[id].version == 1
  {
    assert BuiltAt(log, from, n);
    if log[n].Put? {
      assert OrderlyAt(log, from, n);
      UnwrittenStays(log, from[n].readAt, n, id);
    }
  }

  /** Every version is at least 1, overtaken puts or not. */
  lemma {:induction false} VersionsArePositive(log: seq<Command>, from: seq<Origin>, n: nat, id: string)
    requires Built(log, from) && n <= |log| && id in Clean(log, n).jobs
    ensures 1 <= Clean(log, n).jobs[id].version
  {
    assert BuiltAt(log, from, n - 1);
    if Written(log, n - 1, id) {
      if log[n - 1].Put? {
        if from[n - 1].found.Some? {
          VersionsArePositive(log, from, from[n - 1].readAt, id);
        }
      } else if log[n - 1].Cas? {
        VersionsArePositive(log, from, from[n - 1].readAt, id);
      }
    } else {
      VersionsArePositive(log, from, n - 1, id);
    }
  }

  // ---- exactly when versions order a job -------------------------------------

  /** Between any two moments of the first `n` commands the job is unchanged or its version is higher. */
  ghost predicate VersionsOrder(log: seq<Command>, n: nat, id: string)
    requires n <= |log|
  {
    forall i, j :: 0 <= i <= j <= n && id in Clean(log, i).jobs ==> OrderedBetween(log, i, j, id)
  }

  ghost predicate OrderedBetween(log: seq<Command>, i: nat, j: nat, id: string)
    requires i <= j <= |log|
  {
    && id in Clean(log, i).jobs && id in Clean(log, j).jobs
    && (Clean(log, i).jobs[id] == Clean(log, j).jobs[id] || Clean(log, i).jobs[id].version < Clean(log, j).jobs[id].version)
  }

  /** A put that comes after a write it had not seen finds a version at least its own. */
  lemma OvertakenFindsHigher(log: seq<Command>, from: seq<Origin>, n: nat)
    requires Built(log, from) && n < |log| && log[n].Put? && from[n].PutCall?
    requires Orderly(log, from, from[n].readAt, n, log[n].rec.id) && Overtaken(log, from[n].readAt, n, log[n].rec.id)
    ensures log[n].rec.id in Clean(log, n).jobs
    ensures log[n].rec.version <= Clean(log, n).jobs[log[n].rec.id].version
  {
    assert BuiltAt(log, from, n);
    var id, r := log[n].rec.id, from[n].readAt;
    var m :| r <= m < n && Written(log, m, id);
    if id in Clean(log, r).jobs {
      VersionGrows(log, from, r, m, id);
      VersionStep(log, from, m, id);
    }
    VersionGrows(log, from, m + 1, n, id);
    VersionsArePositive(log, from, n, id);
  }

  lemma {:induction false} OrderNeedsOrderlyPuts(log: seq<Command>, from: seq<Origin>, n: nat, id: string)
    requires Built(log, from) && n <= |log| && VersionsOrder(log, n, id)
    ensures Orderly(log, from, 0, n, id)
  {
    if n > 0 {
      OrderNeedsOrderlyPuts(log, from, n - 1, id);
      if PutOf(log[n - 1], id) {
        assert BuiltAt(log, from, n - 1);
        if Overtaken(log, from[n - 1].readAt, n - 1, id) {
          OvertakenFindsHigher(log, from, n - 1);
          assert OrderedBetween(log, n - 1, n, id);
        }
      }
    }
  }

  /** Versions order a job's history exactly when no put of it was overtaken by a write between its read and its commit. */
  lemma VersionsOrderExactly(log: seq<Command>, from: seq<Origin>, n: nat, id: string)
    requires Built(log, from) && n <= |log|
    ensures VersionsOrder(log, n, id) <==> Orderly(log, from, 0, n, id)
  {
    if VersionsOrder(log, n, id) {
      OrderNeedsOrderlyPuts(log, from, n, id);
    }
    if Orderly(log, from, 0, n, id) {
      forall i, j | 0 <= i <= j <= n && id in Clean(log, i).jobs
        ensures OrderedBetween(log, i, j, id)
      {
        VersionGrows(log, from, i, j, id);
      }
    }
  }

  /** And it happens: two PutJobs read the job at version 1, both write version 2. */
  lemma PutReusesVersion(rec: JobRecord) returns (log: seq<Command>, from: seq<Origin>)
    ensures Built(log, from) && |log| == 3
    ensures rec.id in Clean(log, 2).jobs && rec.id in Clean(log, 3).jobs
    ensures Clean(log, 2).jobs[rec.id].version == Clean(log, 3).jobs[rec.id].version
    ensures Clean(log, 2).jobs[rec.id] != Clean(log, 3).jobs[rec.id]
    ensures !Orderly(log, from, 0, 3, rec.id) && !VersionsOrder(log, 3, rec.id)
  {
    var first := rec.(version := 1, idempotencyKey := "");
    log := [Submit(first, ""), Put(rec.(version := 2, error := "a")), Put(rec.(version := 2, error := "b"))];
    from := [Client, PutCall(1, Some(first)), PutCall(1, Some(first))];
    assert Clean(log, 1) == Next(Clean(log, 0), log[0]);
    assert Clean(log, 2) == Next(Clean(log, 1), log[1]);
    assert Clean(log, 3) == Next(Clean(log, 2), log[2]);
    assert "a"[0] != "b"[0];
    assert BuiltAt(log, from, 0) && BuiltAt(log, from, 1) && BuiltAt(log, from, 2);
    assert Written(log, 1, rec.id) && Written(log, 2, rec.id);
    assert !OrderlyAt(log, from, 2);
    VersionsOrderExactly(log, from, 3, rec.id);
  }

  // ---- linearizability -------------------------------------------------------

  /** The entry at `n` is a Transition's swap of the job. */
  predicate SwapAt(log: seq<Command>, from: seq<Origin>, n: nat, id: string) {
    n < |log| == |from| && log[n].Cas? && log[n].rec.id == id && from[n].Transition?
  }

  /** If no put of the job in between was overtaken, a winning swap replaces exactly the record its mutator was run on. */
  lemma WinnerReadCurrent(log: seq<Command>, from: seq<Origin>, n: nat, id: string)
    requires Built(log, from) && SwapAt(log, from, n, id) && Wins(Clean(log, n), log[n])
    requires Orderly(log, from, from[n].readAt, n, id)
    ensures from[n].read == Clean(log, n).jobs[id] && from[n].mutate(from[n].read).Write?
    ensures log[n].rec == Proposed(from[n].read, from[n].mutate(from[n].read).rec, from[n].now)
  {
    assert BuiltAt(log, from, n);
    SameVersionSameRecord(log, from, from[n].readAt, n, id);
  }

  /** And a swap conflicts exactly when something wrote the job between its read and its commit. */
  lemma LoserWasOvertaken(log: seq<Command>, from: seq<Origin>, n: nat, id: string)
    requires Built(log, from) && SwapAt(log, from, n, id) && Orderly(log, from, from[n].readAt, n, id)
    ensures Reply(Clean(log, n), log[n]).conflict <==> Overtaken(log, from[n].readAt, n, id)
    ensures Reply(Clean(log, n), log[n]).conflict <==> !Wins(Clean(log, n), log[n])
  {
    assert BuiltAt(log, from, n);
    var r := from[n].readAt;
    if Overtaken(log, r, n, id) {
      var m :| r <= m < n && Written(log, m, id);
      VersionGrows(log, from, r, m, id);
      VersionStep(log, from, m, id);
      VersionGrows(log, from, m + 1, n, id);
    } else {
      UnwrittenStays(log, r, n, id);
    }
  }

  /** A swap that wins is atomic, nothing having written the job since its read, exactly when no put of it in between was overtaken. */
  lemma WinnerIsAtomicExactly(log: seq<Command>, from: seq<Origin>, n: nat, id: string)
    requires Built(log, from) && SwapAt(log, from, n, id) && Wins(Clean(log, n), log[n])
    ensures !Overtaken(log, from[n].readAt, n, id) <==> Orderly(log, from, from[n].readAt, n, id)
  {
    if Orderly(log, from, from[n].readAt, n, id) {
      LoserWasOvertaken(log, from, n, id);
    }
    if !Overtaken(log, from[n].readAt, n, id) {
      forall m | from[n].readAt <= m < n && PutOf(log[m], id)
        ensures OrderlyAt(log, from, m)
      {
        assert BuiltAt(log, from, m) && !Written(log, m, id);
      }
    }
  }

  /** The reference: mutators run one at a time, each on the record as it then is. */
  ghost function Serial(log: seq<Command>, from: seq<Origin>, n: nat): State
    requires n <= |log| == |from|
  {
    if n == 0 then EMPTY else
    var s, c, o := Serial(log, from, n - 1), log[n - 1], from[n - 1];
    if Wins(s, c) && o.Transition? then
      var cur := s.jobs[c.rec.id];
      match o.mutate(cur)
      case Write(rec) => s.(jobs := s.jobs[c.rec.id := Proposed(cur, rec, o.now)])
      case Skip => s
      case Abort(_) => s
    else Next(s, c)
  }

  /** No winning swap had an overtaken put of its job between its read and its commit. */
  predicate Undisturbed(log: seq<Command>, from: seq<Origin>, n: nat)
    requires n <= |log| == |from|
  {
    forall m :: 0 <= m < n && log[m].Cas? && from[m].Transition? && Wins(Clean(log, m), log[m]) ==>
      Orderly(log, from, from[m].readAt, m, log[m].rec.id)
  }

  /** Then the replicated table is the one the winning mutators produce serially in log order. */
  lemma {:induction false} Linearizable(log: seq<Command>, from: seq<Origin>, n: nat)
    requires Built(log, from) && n <= |log| && Undisturbed(log, from, n)
    ensures Serial(log, from, n) == Clean(log, n)
  {
    if n > 0 {
      Linearizable(log, from, n - 1);
      if Wins(Clean(log, n - 1), log[n - 1]) {
        assert BuiltAt(log, from, n - 1);
        WinnerReadCurrent(log, from, n - 1, log[n - 1].rec.id);
      }
    }
  }

  /** Puts that nobody overtakes do not disturb. */
  lemma OrderlyIsUndisturbed(log: seq<Command>, from: seq<Origin>, n: nat)
    requires n <= |log| == |from|
    requires forall m {:trigger OrderlyAt(log, from, m)} :: 0 <= m < n && log[m].Put? ==> OrderlyAt(log, from, m)
    ensures Undisturbed(log, from, n)
  {
  }

  function Marked(r: JobRecord): Mutation {
    Write(r.(error := r.error + "!"))
  }

  /** One does: a PutJob that read version 1 and lands on version 2 lets a swap built on the other version 2 win, and is lost. */
  lemma OvertakenPutIsLost(rec: JobRecord) returns (log: seq<Command>, from: seq<Origin>)
    ensures Built(log, from) && |log| == 4 && Wins(Clean(log, 3), log[3])
    ensures rec.id in Clean(log, 4).jobs && Clean(log, 4).jobs[rec.id].error == "a!"
    ensures rec.id in Serial(log, from, 4).jobs && Serial(log, from, 4).jobs[rec.id].error == "b!"
  {
    var first := rec.(version := 1, idempotencyKey := "");
    var a, b := rec.(version := 2, error := "a"), rec.(version := 2, error := "b");
    var swap := Cas(Proposed(a, a.(error := "a!"), 0), 2);
    log := [Submit(first, ""), Put(a), Put(b), swap];
    from := [Client, PutCall(1, Some(first)), PutCall(1, Some(first)), Transition(2, a, Marked, 0)];
    assert Marked(a) == Write(a.(error := "a!")) && Marked(b) == Write(b.(error := "b!"));
    assert Clean(log, 1) == Next(Clean(log, 0), log[0]);
    assert Clean(log, 2) == Next(Clean(log, 1), log[1]);
    assert Clean(log, 3) == Next(Clean(log, 2), log[2]);
    assert Clean(log, 4) == Next(Clean(log, 3), log[3]);
    assert BuiltAt(log, from, 0) && BuiltAt(log, from, 1) && BuiltAt(log, from, 2) && BuiltAt(log, from, 3);
    assert Serial(log, from, 1) == Clean(log, 1);
    assert Serial(log, from, 2) == Clean(log, 2);
    assert Serial(log, from, 3) == Clean(log, 3);
  }

  // ---- idempotency index -----------------------------------------------------

  /** The submit that made an index entry. */
  lemma {:induction false} BoundBy(log: seq<Command>, n: nat, key: string) returns (b: nat)
    requires n <= |log| && key in Clean(log, n).index
    ensures b < n && log[b].Submit? && log[b].key == key != ""
    ensures log[b].rec.id == Clean(log, n).index[key]
    ensures key !in Clean(log, b).index && Clean(log, b + 1).jobs == Clean(log, b).jobs[log[b].rec.id := log[b].rec]
  {
    if key in Clean(log, n - 1).index {
      b := BoundBy(log, n - 1, key);
      IndexStable(EMPTY, log, n - 1, n, key);
    } else {
      b := n - 1;
    }
  }

  /**
   A submit creates its job exactly when it has no key or is the first with
   its key, in any log; then it answers its own id and its record is the row.
   */
  lemma CreatesExactly(log: seq<Command>, n: nat)
    requires n < |log| && log[n].Submit?
    ensures Answer(log, n).created <==>
            log[n].key == "" || forall m :: 0 <= m < n && log[m].Submit? ==> log[m].key != log[n].key
    ensures Answer(log, n).created ==>
              Answer(log, n).jobId == log[n].rec.id && RowAt(log, n + 1, log[n].rec.id) == Some(log[n].rec)
    ensures !Answer(log, n).created ==> Clean(log, n + 1) == Clean(log, n)
  {
    var key := log[n].key;
    if key != "" {
      if key in Clean(log, n).index {
        var b := BoundBy(log, n, key);
      } else if m :| 0 <= m < n && log[m].Submit? && log[m].key == key {
        SubmitBindsKey(log, m);
        IndexStable(EMPTY, log, m + 1, n, key);
      }
    }
  }

  /** An error is answered exactly to what cannot be decoded and to a swap of a job that is not there, a conflict exactly to a swap of another version; both change nothing. */
  lemma RefusesExactly(log: seq<Command>, n: nat)
    requires n < |log|
    ensures Answer(log, n).failed <==> log[n].Garbled? || (log[n].Cas? && RowAt(log, n, log[n].rec.id) == None)
    ensures Answer(log, n).conflict <==>
            log[n].Cas? && RowAt(log, n, log[n].rec.id).Some? && RowAt(log, n, log[n].rec.id).value.version != log[n].expected
    ensures Answer(log, n).failed || Answer(log, n).conflict ==> Clean(log, n + 1) == Clean(log, n)
    ensures !log[n].Submit? && !Answer(log, n).failed && !Answer(log, n).conflict ==>
              RowAt(log, n + 1, log[n].rec.id) == Some(log[n].rec) && Clean(log, n + 1).index == Clean(log, n).index
  {
  }

  /** No command touches the row of another job. */
  lemma OnlyItsOwnRow(log: seq<Command>, n: nat, id: string)
    requires n < |log| && (log[n].Garbled? || log[n].rec.id != id)
    ensures !Written(log, n, id)
  {
  }

  /** Every index entry points at a stored job. */
  lemma IndexPointsToAJob(log: seq<Command>, n: nat, key: string)
    requires n <= |log| && key in Clean(log, n).index
    ensures key != "" && Clean(log, n).index[key] in Clean(log, n).jobs
  {
    var b := BoundBy(log, n, key);
    JobsStay(log, b + 1, n, log[b].rec.id);
  }

  /** The command at `p` stores this record under the job's id. */
  predicate Stores(log: seq<Command>, p: nat, id: string)
    requires p < |log|
  {
    (log[p].Put? || Wins(Clean(log, p), log[p])) && log[p].rec.id == id
  }

  ghost predicate CarriesKey(log: seq<Command>, n: nat, id: string, key: string)
    requires n <= |log|
  {
    id in Clean(log, n).jobs && Clean(log, n).jobs[id].idempotencyKey == key
  }

  lemma {:induction false} KeyIsKept(log: seq<Command>, from: seq<Origin>, b: nat, n: nat)
    requires Built(log, from) && b < n <= |log| && log[b].Submit?
    requires Clean(log, b + 1).jobs == Clean(log, b).jobs[log[b].rec.id := log[b].rec]
    requires forall p :: b < p < n && Stores(log, p, log[b].rec.id) ==> log[p].rec.idempotencyKey == log[b].key
    ensures CarriesKey(log, n, log[b].rec.id, log[b].key)
  {
    if b + 1 == n {
      assert BuiltAt(log, from, b);
    } else {
      KeyIsKept(log, from, b, n - 1);
      if log[n - 1].Submit? {
        SubmitIsNew(log, from, n - 1);
      }
    }
  }

  /** Nothing stores a job before its submit. */
  lemma StoresComeAfter(log: seq<Command>, from: seq<Origin>, b: nat, p: nat)
    requires Built(log, from) && b < |log| && p < |log| && log[b].Submit? && Stores(log, p, log[b].rec.id)
    ensures b < p
  {
    assert BuiltAt(log, from, b);
    if p < b && Wins(Clean(log, p), log[p]) {
      StoredWasWritten(log, p, log[b].rec.id);
    }
  }

  /** From its submit on a keyed job carries its key at every index, exactly when nothing ever stores it with another. */
  lemma KeyCarriedExactly(log: seq<Command>, from: seq<Origin>, n: nat, key: string)
    requires Built(log, from) && n <= |log| && key in Clean(log, n).index
    ensures var id := Clean(log, n).index[key];
            (forall i :: 0 <= i <= n && key in Clean(log, i).index ==> CarriesKey(log, i, id, key)) <==>
            (forall p :: 0 <= p < n && Stores(log, p, id) ==> log[p].rec.idempotencyKey == key)
  {
    var b := BoundBy(log, n, key);
    var id := log[b].rec.id;
    if forall p :: 0 <= p < n && Stores(log, p, id) ==> log[p].rec.idempotencyKey == key {
      forall i | 0 <= i <= n && key in Clean(log, i).index
        ensures CarriesKey(log, i, id, key)
      {
        if i <= b {
          IndexStable(EMPTY, log, i, b, key);
        }
        KeyIsKept(log, from, b, i);
      }
    }
    if forall i :: 0 <= i <= n && key in Clean(log, i).index ==> CarriesKey(log, i, id, key) {
      forall p | 0 <= p < n && Stores(log, p, id)
        ensures log[p].rec.idempotencyKey == key
      {
        StoresComeAfter(log, from, b, p);
        SubmitBindsKey(log, b);
        IndexStable(EMPTY, log, b + 1, p + 1, key);
        assert CarriesKey(log, p + 1, id, key);
      }
    }
  }

  /** And it can lose it: PutJob on a keyed job with a record that has no key, read and written in good order. */
  lemma KeyCanBeLost(rec: JobRecord) returns (log: seq<Command>, from: seq<Origin>)
    ensures Built(log, from) && |log| == 2 && Orderly(log, from, 0, 2, rec.id)
    ensures "k" in Clean(log, 2).index && Clean(log, 2).index["k"] == rec.id
    ensures rec.id in Clean(log, 2).jobs && Clean(log, 2).jobs[rec.id].idempotencyKey != "k"
  {
    var first := rec.(version := 1, idempotencyKey := "k");
    log := [Submit(first, "k"), Put(rec.(version := 2, idempotencyKey := ""))];
    from := [Client, PutCall(1, Some(first))];
    assert |"k"| == 1;
    assert Clean(log, 1) == Next(Clean(log, 0), log[0]);
    assert Clean(log, 2) == Next(Clean(log, 1), log[1]);
    assert BuiltAt(log, from, 0) && BuiltAt(log, from, 1);
    assert OrderlyAt(log, from, 1);
  }
}
