/**
 RaftStore (orchestrator/raft_store.go): one node's view of the replicated
 store. The rest of the cluster is nondeterministic: other commands commit
 between any two steps, this node may trail, replay, snapshot or restore, and
 any proposal may be refused or lose track of its fate.
 */
module RaftStore {
  import opened Jobs
  import opened JobStore
  import opened RaftFsm
  import opened RaftLog
  import opened Restart

  const MAX_CAS_RETRIES := 16

  datatype ApplyResult =
    | Replied(resp: Response)
    | NotLeader                    // refused before anything was proposed
    | Lost                         // raft error: the entry may or may not commit later

  datatype Outcome =
    | Committed
    | Skipped
    | NotFound
    | Aborted(error: string)
    | GaveUp
    | Refused                      // not the leader, nothing was proposed
    | Open                         // apply lost the entry (leadership lost, timeout): that one write may still land

  /** Log positions, in the order they were heard of. */
  datatype Entries = NoneYet | Then(earlier: Entries, at: nat)

  // ---- growing logs ----------------------------------------------------------

  /** An entry that could go next can still go after others. */
  lemma StillNext(log: seq<Command>, from: seq<Origin>, log': seq<Command>, from': seq<Origin>, c: Command, o: Origin)
    requires |log| == |from| && |log'| == |from'| && Extends(log, log')
    requires BuiltAt(log + [c], from + [o], |log|)
    requires c.Submit? ==> FreshIn(log', |log'|, c.rec.id)
    ensures BuiltAt(log' + [c], from' + [o], |log'|)
  {
    if c.Put? || c.Cas? {
      CleanExtends(log, log + [c], o.readAt);
      CleanExtends(log, log' + [c], o.readAt);
    }
  }

  lemma FreshBefore(log: seq<Command>, from: seq<Origin>, c: Command, o: Origin)
    requires |log| == |from| && BuiltAt(log + [c], from + [o], |log|) && c.Submit?
    ensures FreshIn(log, |log|, c.rec.id)
  {
    assert forall m :: 0 <= m < |log| ==> (log + [c])[m] == log[m];
  }

  /** Appending a well-built entry leaves a well-built log. */
  lemma BuiltGrows(log: seq<Command>, from: seq<Origin>, c: Command, o: Origin)
    requires Built(log, from)
    requires BuiltAt(log + [c], from + [o], |log|)
    ensures Built(log + [c], from + [o])
  {
    forall n | 0 <= n < |log + [c]|
      ensures BuiltAt(log + [c], from + [o], n)
    {
      if n < |log| {
        assert BuiltAt(log, from, n);
        BuiltAtExtends(log, from, log + [c], from + [o], n);
      }
    }
  }

  lemma ResetExtends(a: seq<Command>, b: seq<Command>, n: nat, id: string)
    requires Extends(a, b) && n <= |a|
    ensures Reset(b, n, id) == Reset(a, n, id)
  {
    assert forall m :: 0 <= m < n ==> Resets(b[m], id) == Resets(a[m], id);
  }

  lemma PlacedExtends(a: seq<Command>, b: seq<Command>, n: nat, k: nat, id: string, rec: JobRecord)
    requires Extends(a, b) && n <= k <= |a| && Placed(a, n, k, id, rec)
    ensures Placed(b, n, k, id, rec)
  {
    CleanExtends(a, b, n);
    CleanExtends(a, b, k);
    ResetExtends(a, b, n, id);
    ResetExtends(a, b, k, id);
    var j :| 0 <= j <= k && StoredAt(a, j, id, rec);
    CleanExtends(a, b, j);
    assert StoredAt(b, j, id, rec);
  }

  /** A store stays sound when the log grows. */
  lemma StoreExtends(a: seq<Command>, b: seq<Command>, n: nat, k: nat, t: State)
    requires Extends(a, b) && StoreSound(a, n, k, t)
    ensures StoreSound(b, n, k, t)
  {
    CleanExtends(a, b, k);
    forall id | id in t.jobs
      ensures Placed(b, n, k, id, t.jobs[id])
    {
      assert Placed(a, n, k, id, t.jobs[id]);
      PlacedExtends(a, b, n, k, id, t.jobs[id]);
    }
  }

  // ---- what a call did -------------------------------------------------------

  /** The entry at `p` wrote the job's row with a swap, and changed nothing else. */
  ghost predicate SwappedAt(log: seq<Command>, p: nat, jobId: string)
    requires p < |log|
  {
    && log[p].Cas? && log[p].rec.id == jobId && jobId in Clean(log, p).jobs
    && Clean(log, p + 1) == Clean(log, p).(jobs := Clean(log, p).jobs[jobId := log[p].rec])
  }

  /** And what it wrote is `mutate` run on the job as it stood right then. */
  ghost predicate WroteAt(log: seq<Command>, from: seq<Origin>, p: nat, jobId: string, mutate: JobRecord -> Mutation)
    requires p < |log| == |from|
  {
    && SwappedAt(log, p, jobId) && from[p].Transition?
    && var cur := Clean(log, p).jobs[jobId];
    && mutate(cur).Write?
    && log[p].rec == Proposed(cur, mutate(cur).rec, from[p].now)
  }

  /** The entry at `p` conflicted and wrote nothing. */
  ghost predicate ConflictedAt(log: seq<Command>, p: nat)
    requires p < |log|
  {
    Answer(log, p).conflict && Clean(log, p + 1) == Clean(log, p)
  }

  /** `e` is `base` and then `n` more entries, all of them past `start` and all conflicted. */
  ghost predicate AddsConflicts(log: seq<Command>, start: nat, base: Entries, e: Entries, n: nat) {
    if n == 0 then e == base
    else
      && e.Then? && start <= e.at < |log| && ConflictedAt(log, e.at)
      && AddsConflicts(log, start, base, e.earlier, n - 1)
  }

  /** At some point of the log the job was such that the mutator answered `answer`. */
  ghost predicate OnceAnswered(log: seq<Command>, jobId: string, mutate: JobRecord -> Mutation, answer: Mutation) {
    exists j :: 0 <= j <= |log| && AnsweredAt(log, j, jobId, mutate, answer)
  }

  ghost predicate AnsweredAt(log: seq<Command>, j: nat, jobId: string, mutate: JobRecord -> Mutation, answer: Mutation)
    requires j <= |log|
  {
    jobId in Clean(log, j).jobs && mutate(Clean(log, j).jobs[jobId]) == answer
  }

  lemma {:induction false} ConflictsStay(log: seq<Command>, log': seq<Command>, start: nat, base: Entries, e: Entries, n: nat)
    requires Extends(log, log') && AddsConflicts(log, start, base, e, n)
    ensures AddsConflicts(log', start, base, e, n)
  {
    if n > 0 {
      ConflictsStay(log, log', start, base, e.earlier, n - 1);
      CleanExtends(log, log', e.at);
      CleanExtends(log, log', e.at + 1);
    }
  }

  /** The reply to a Transition's entry tells exactly what the entry did; the store never reports it missing. */
  lemma ReplyIsTheTruth(log: seq<Command>, from: seq<Origin>, n: nat, jobId: string, mutate: JobRecord -> Mutation)
    requires Built(log, from) && SwapAt(log, from, n, jobId) && from[n].mutate == mutate
    ensures !Answer(log, n).failed
    ensures Answer(log, n).conflict ==> ConflictedAt(log, n)
    ensures !Answer(log, n).conflict ==> SwappedAt(log, n, jobId)
    ensures !Answer(log, n).conflict && Orderly(log, from, from[n].readAt, n, jobId) ==> WroteAt(log, from, n, jobId, mutate)
  {
    assert BuiltAt(log, from, n);
    JobsStay(log, from[n].readAt, n, jobId);
    if Wins(Clean(log, n), log[n]) && Orderly(log, from, from[n].readAt, n, jobId) {
      WinnerReadCurrent(log, from, n, jobId);
    }
  }

  // ---- local reads -----------------------------------------------------------

  /** A local read: the job's row as of `at`. */
  predicate ReadFrom(log: seq<Command>, at: nat, id: string, found: Option<JobRecord>) {
    at <= |log| && RowAt(log, at, id) == found && (found.Some? ==> found.value.id == id)
  }

  /** Every read of a sound store is one, wherever its replay stands. */
  lemma LocalRead(log: seq<Command>, n: nat, k: nat, t: State, id: string) returns (at: nat)
    requires StoreSound(log, n, k, t)
    ensures at <= |log| && ReadFrom(log, at, id, if id in t.jobs then Some(t.jobs[id]) else None)
  {
    if id in t.jobs {
      at := HonestRead(log, n, k, t, id);
    } else {
      at := k;
    }
  }

  /** What Transition proposes after a local read may go next. */
  lemma Proposable(log: seq<Command>, from: seq<Origin>, at: nat, rec: JobRecord, mutate: JobRecord -> Mutation, now: int)
    requires |log| == |from| && PreservesId(mutate)
    requires ReadFrom(log, at, rec.id, Some(rec)) && mutate(rec).Write?
    ensures BuiltAt(log + [Cas(Proposed(rec, mutate(rec).rec, now), rec.version)],
                    from + [Origin.Transition(at, rec, mutate, now)], |log|)
  {
    CleanExtends(log, log + [Cas(Proposed(rec, mutate(rec).rec, now), rec.version)], at);
  }

  /** So may what PutJob proposes. */
  lemma Puttable(log: seq<Command>, from: seq<Origin>, at: nat, rec: JobRecord, found: Option<JobRecord>)
    requires |log| == |from| && ReadFrom(log, at, rec.id, found)
    requires rec.version == PutVersion(found)
    ensures BuiltAt(log + [Put(rec)], from + [PutCall(at, found)], |log|)
  {
    CleanExtends(log, log + [Put(rec)], at);
  }

  lemma ReadAnswers(log: seq<Command>, at: nat, jobId: string, rec: JobRecord, mutate: JobRecord -> Mutation)
    requires ReadFrom(log, at, jobId, Some(rec))
    ensures OnceAnswered(log, jobId, mutate, mutate(rec))
  {
    assert AnsweredAt(log, at, jobId, mutate, mutate(rec));
  }

  /** What one round of Transition's loop, begun when the log had `start` entries, did if it ended in `r`. */
  ghost predicate RoundDid(log: seq<Command>, from: seq<Origin>, start: nat, jobId: string, mutate: JobRecord -> Mutation, r: Option<Outcome>)
    requires |log| == |from|
  {
    match r
    case None => start < |log| && ConflictedAt(log, |log| - 1)
    case Some(Committed) =>
      && start < |log| && SwappedAt(log, |log| - 1, jobId) && from[|log| - 1].Transition?
      && (Orderly(log, from, from[|log| - 1].readAt, |log| - 1, jobId) ==> WroteAt(log, from, |log| - 1, jobId, mutate))
    case Some(Skipped) => OnceAnswered(log, jobId, mutate, Skip)
    case Some(Aborted(e)) => OnceAnswered(log, jobId, mutate, Abort(e))
    case Some(GaveUp) => false
    case _ => true
  }

  lemma RoundBeganEarlier(log: seq<Command>, from: seq<Origin>, start: nat, later: nat, jobId: string,
                          mutate: JobRecord -> Mutation, r: Option<Outcome>)
    requires |log| == |from| && start <= later && RoundDid(log, from, later, jobId, mutate, r)
    ensures RoundDid(log, from, start, jobId, mutate, r)
  {
  }

  /**
   What a call of Transition, begun when the log had `start` entries and this
   node had heard of `base`, did if it ended in `r`. Committed: the last entry
   it heard of wrote the job and the `n` before it conflicted. Otherwise all
   `n` did; a lost proposal is not among them and stays open. A skip or abort
   is the mutator's answer to a record the job really had. If no put of the
   job between that entry's read and its commit was overtaken, the write is
   the mutator run atomically at that point.
   */
  ghost predicate CallDid(log: seq<Command>, from: seq<Origin>, start: nat, base: Entries, own: Entries, n: nat,
                          jobId: string, mutate: JobRecord -> Mutation, r: Outcome)
    requires |log| == |from|
  {
    && (!r.Committed? ==> AddsConflicts(log, start, base, own, n))
    && (r.Committed? ==>
          && own.Then? && AddsConflicts(log, start, base, own.earlier, n)
          && start <= own.at < |log| && SwappedAt(log, own.at, jobId) && from[own.at].Transition?
          && (Orderly(log, from, from[own.at].readAt, own.at, jobId) ==> WroteAt(log, from, own.at, jobId, mutate)))
    && (r.Skipped? ==> OnceAnswered(log, jobId, mutate, Skip))
    && (r.Aborted? ==> OnceAnswered(log, jobId, mutate, Abort(r.error)))
  }

  /** A round on top of `n` conflicts ends the call or is one more. */
  lemma RoundEnds(before: seq<Command>, log: seq<Command>, from: seq<Origin>, start: nat, base: Entries, heard: Entries, own: Entries,
                  n: nat, jobId: string, mutate: JobRecord -> Mutation, done: Option<Outcome>)
    requires |log| == |from| && Extends(before, log) && AddsConflicts(before, start, base, heard, n)
    requires RoundDid(log, from, start, jobId, mutate, done)
    requires done.None? || done.value.Committed? ==> |log| > 0 && own == Then(heard, |log| - 1)
    requires done.Some? && !done.value.Committed? ==> own == heard
    ensures done.Some? ==> CallDid(log, from, start, base, own, n, jobId, mutate, done.value)
    ensures done.None? ==> AddsConflicts(log, start, base, own, n + 1)
  {
    ConflictsStay(before, log, start, base, heard, n);
  }

  lemma RepliedRound(log: seq<Command>, from: seq<Origin>, start: nat, jobId: string, mutate: JobRecord -> Mutation)
    requires Built(log, from) && start < |log|
    requires var n := |log| - 1;
             SwapAt(log, from, n, jobId) && from[n].mutate == mutate
    ensures RoundDid(log, from, start, jobId, mutate, if Answer(log, |log| - 1).conflict then None else Some(Outcome.Committed))
  {
    ReplyIsTheTruth(log, from, |log| - 1, jobId, mutate);
  }

  /** The next entry committed and applied by a node that had caught up. */
  lemma CommitKeepsNode(log: seq<Command>, from: seq<Origin>, c: Command, o: Origin, t: State, t': State, resp: Response)
    requires Built(log, from) && BuiltAt(log + [c], from + [o], |log|)
    requires t == Clean(log, |log|) && t' == Next(t, c) && resp == Reply(t, c)
    ensures Built(log + [c], from + [o])
    ensures resp == Answer(log + [c], |log|)
    ensures StoreSound(log + [c], |log| + 1, |log| + 1, t')
  {
    BuiltGrows(log, from, c, o);
    CleanExtends(log, log + [c], |log|);
    AfterKeyedById(EMPTY, log + [c], |log| + 1);
    CleanIsBetween(log + [c], |log| + 1);
  }

  class RaftStore {
    var log: seq<Command>          // what the cluster has committed
    var from: seq<Origin>
    const inner: BoltStore         // this node's FSM store
    const fsm: JobFSM
    var at: nat                    // applied in this lifetime
    var reach: nat                 // and at the furthest, in any
    var leader: bool               // raft.State() == Leader
    var failing: bool              // the future of a proposal made now would report an error
    ghost var own: Entries         // the entries this node proposed and got a reply for
    ghost var lost: nat            // how many of its proposals it lost track of

    ghost predicate Valid()
      reads this, inner
    {
      fsm.store == inner && Built(log, from) && StoreSound(log, at, reach, inner.View())
    }

    /** Opens fsm.db as an earlier lifetime left it, over the log as the cluster has it by now. */
    constructor (inner: BoltStore, log: seq<Command>, from: seq<Origin>, reach: nat)
      requires Built(log, from) && StoreSound(log, 0, reach, inner.View())
      ensures Valid() && this.inner == inner && this.log == log && this.from == from && at == 0
      ensures own == NoneYet && lost == 0 && !leader
    {
      this.inner := inner;
      leader, failing := false, false;
      this.log, this.from, this.at, this.reach := log, from, 0, reach;
      own, lost := NoneYet, 0;
      fsm := new JobFSM(inner);
    }

    /** One move of this node; a snapshot may be its own or any other node's. */
    method LocalMove(mv: Move) returns (taken: Option<Snap>)
      requires Valid() && (mv.InstallSnapshot? ==> SnapSound(log, mv.snap))
      modifies `at, `reach, inner
      ensures Valid()
      ensures mv.Apply? && old(at) < |log| ==> at == old(at) + 1 && inner.View() == Next(old(inner.View()), log[old(at)])
      ensures mv.Restart? ==> at == 0 && inner.View() == old(inner.View())
      ensures mv.InstallSnapshot? ==> at == mv.snap.at && inner.View() == Held(mv.snap)
      ensures taken.Some? <==> mv.TakeSnapshot?
      ensures taken.Some? ==> SnapSound(log, taken.value) && Held(taken.value) == inner.View() == old(inner.View())
    {
      taken := None;
      match mv
      case Apply =>
        if at < |log| {
          ApplyKeepsStore(log, from, at, reach, inner.View());
          var _ := fsm.Apply(log[at]);
          at, reach := at + 1, Max(reach, at + 1);
        }
      case TakeSnapshot(_) =>
        var list, idem := fsm.Snapshot();
        taken := Some(Snap(at, reach, list, idem));
      case Restart =>
        RestartPlaced(log, at, reach, inner.View());
        at := 0;
      case InstallSnapshot(snap) =>
        fsm.Restore(snap.list, snap.idem);
        at, reach := snap.at, snap.reach;
    }

    /** The cluster commits more entries, none of them submitting or putting `reserved`, a uuid drawn here. */
    method MoreCommits(reserved: string)
      requires Valid()
      modifies `log, `from
      ensures Valid() && Extends(old(log), log) && Extends(old(from), from)
      ensures FreshIn(old(log), |old(log)|, reserved) ==> FreshIn(log, |log|, reserved)
    {
      var more: seq<Command> := *;
      var why: seq<Origin> := *;
      if |more| == |why| && Built(log + more, from + why) && FreshIn(more, |more|, reserved) {
        StoreExtends(log, log + more, at, reach, inner.View());
        log, from := log + more, from + why;
      }
    }

    /** Everything that can happen while this call is not looking, elections included. */
    method Elsewhere(reserved: string)
      requires Valid()
      modifies `log, `from, `at, `reach, `leader, `failing, inner
      ensures Valid() && Extends(old(log), log) && Extends(old(from), from)
      ensures FreshIn(old(log), |old(log)|, reserved) ==> FreshIn(log, |log|, reserved)
    {
      leader, failing := *, *;
      MoreCommits(reserved);
      var moves: seq<Move> := *;
      for i := 0 to |moves|
        invariant Valid() && Extends(old(log), log) && Extends(old(from), from)
        invariant FreshIn(old(log), |old(log)|, reserved) ==> FreshIn(log, |log|, reserved)
      {
        if !moves[i].InstallSnapshot? || SnapSound(log, moves[i].snap) {
          var _ := LocalMove(moves[i]);
        }
      }
    }

    /** The FSM applies everything committed so far. */
    method CatchUp()
      requires Valid()
      modifies `at, `reach, inner
      ensures Valid() && at == |log| && inner.View() == Clean(log, |log|)
    {
      while at < |log|
        invariant Valid() && at <= |log|
        decreases |log| - at
      {
        var _ := LocalMove(Move.Apply);
      }
      CaughtUp(log, |log|, inner.View());
    }

    /** The entry commits, and this node's FSM, having caught up, applies it. */
    method Commit(c: Command, o: Origin) returns (resp: Response)
      requires Valid() && at == |log| && inner.View() == Clean(log, |log|)
      requires BuiltAt(log + [c], from + [o], |log|)
      modifies `log, `from, `at, `reach, inner
      ensures Valid()
      ensures log == old(log) + [c] && from == old(from) + [o]
      ensures resp == Answer(log, |log| - 1)
    {
      ghost var t, l, f := inner.View(), log, from;
      resp := fsm.Apply(c);
      log, from, at, reach := log + [c], from + [o], |log| + 1, |log| + 1;
      CommitKeepsNode(l, f, c, o, t, inner.View(), resp);
    }

    /** The entry commits; its reply comes from this node once it gets there. */
    method Land(c: Command, o: Origin) returns (resp: Response)
      requires Valid()
      requires BuiltAt(log + [c], from + [o], |log|)
      modifies `log, `from, `at, `reach, inner
      ensures Valid()
      ensures log == old(log) + [c] && from == old(from) + [o]
      ensures resp == Answer(log, |log| - 1)
    {
      CatchUp();
      resp := Commit(c, o);
    }

    /** raft.Apply and its future. */
    method Apply(c: Command, o: Origin) returns (r: ApplyResult)
      requires Valid()
      requires BuiltAt(log + [c], from + [o], |log|)
      modifies this, inner
      ensures Valid() && Extends(old(log), log) && Extends(old(from), from)
      ensures r.Replied? ==>
                && |old(log)| < |log|
                && log[|log| - 1] == c && from[|log| - 1] == o
                && r.resp == Answer(log, |log| - 1)
      ensures r.Replied? ==> |log| > 0 && own == Then(old(own), |log| - 1)
      ensures !r.Replied? ==> own == old(own)
      ensures lost == old(lost) + if r.Lost? then 1 else 0
      ensures r.NotLeader? <==> !old(leader)
      ensures r.NotLeader? ==> !leader && log == old(log)
      ensures r.Lost? ==> failing
      ensures r.Replied? ==> !failing
    {
      if !leader {
        return NotLeader;
      }
      if c.Submit? {
        FreshBefore(log, from, c, o);
      }
      Elsewhere(if c.Submit? then c.rec.id else "");
      StillNext(old(log), old(from), log, from, c, o);
      if failing {
        lost := lost + 1;
        return Lost;
      }
      own := Then(own, |log|);
      var resp := Land(c, o);
      r := Replied(resp);
    }

    /** GetJob on the local store, some time into the call. */
    method Read(jobId: string) returns (found: Option<JobRecord>, readAt: nat)
      requires Valid()
      modifies `log, `from, `at, `reach, `leader, `failing, inner
      ensures Valid() && Extends(old(log), log) && Extends(old(from), from)
      ensures found == if jobId in inner.jobs then Some(inner.jobs[jobId]) else None
      ensures ReadFrom(log, readAt, jobId, found)
      ensures own == old(own) && lost == old(lost)
    {
      Elsewhere("");
      found := inner.GetJob(jobId);
      ghost var some := LocalRead(log, at, reach, inner.View(), jobId);
      readAt :| readAt <= |log| && ReadFrom(log, readAt, jobId, found);
    }

    /** One round of the loop. None means the swap conflicted. */
    method Attempt(jobId: string, mutate: JobRecord -> Mutation) returns (r: Option<Outcome>)
      requires Valid() && PreservesId(mutate)
      modifies this, inner
      ensures Valid() && Extends(old(log), log)
      ensures RoundDid(log, from, |old(log)|, jobId, mutate, r)
      ensures r == Some(Outcome.NotFound) ==> jobId !in inner.jobs
      ensures r.None? || r.value.Committed? ==> |log| > 0 && own == Then(old(own), |log| - 1)
      ensures r.Some? && !r.value.Committed? ==> own == old(own)
      ensures lost == old(lost) + if r == Some(Outcome.Open) then 1 else 0
      ensures r == Some(Outcome.Refused) ==> !leader
      ensures r == Some(Outcome.Open) ==> failing
      ensures r.None? || r.value.Committed? ==> !failing
    {
      var found, readAt := Read(jobId);
      if found.None? {
        r := Some(Outcome.NotFound);
      } else {
        ghost var later := |log|;
        r := Answered(jobId, mutate, found.value, readAt);
        RoundBeganEarlier(log, from, |old(log)|, later, jobId, mutate, r);
      }
    }

    /** The rest of the round, once the job has been read. */
    method Answered(jobId: string, mutate: JobRecord -> Mutation, rec: JobRecord, readAt: nat) returns (r: Option<Outcome>)
      requires Valid() && PreservesId(mutate) && ReadFrom(log, readAt, jobId, Some(rec))
      modifies this, inner
      ensures Valid() && Extends(old(log), log)
      ensures r != Some(Outcome.NotFound)
      ensures RoundDid(log, from, |old(log)|, jobId, mutate, r)
      ensures r.None? || r.value.Committed? ==> |log| > 0 && own == Then(old(own), |log| - 1)
      ensures r.Some? && !r.value.Committed? ==> own == old(own)
      ensures lost == old(lost) + if r == Some(Outcome.Open) then 1 else 0
      ensures r == Some(Outcome.Refused) ==> !leader
      ensures r == Some(Outcome.Open) ==> failing
      ensures r.None? || r.value.Committed? ==> !failing
    {
      ReadAnswers(log, readAt, jobId, rec, mutate);
      match mutate(rec)
      case Skip => r := Some(Outcome.Skipped);
      case Abort(e) => r := Some(Outcome.Aborted(e));
      case Write(cur) => r := Propose(jobId, mutate, rec, cur, readAt);
    }

    /** The swap and what its reply means. */
    method Propose(jobId: string, mutate: JobRecord -> Mutation, rec: JobRecord, cur: JobRecord, readAt: nat) returns (r: Option<Outcome>)
      requires Valid() && PreservesId(mutate)
      requires ReadFrom(log, readAt, jobId, Some(rec)) && mutate(rec) == Write(cur)
      modifies this, inner
      ensures Valid() && Extends(old(log), log)
      ensures r.Some? ==> r.value.Committed? || r.value.Refused? || r.value.Open?
      ensures RoundDid(log, from, |old(log)|, jobId, mutate, r)
      ensures r.None? || r.value.Committed? ==> |log| > 0 && own == Then(old(own), |log| - 1)
      ensures r.Some? && !r.value.Committed? ==> own == old(own)
      ensures lost == old(lost) + if r == Some(Outcome.Open) then 1 else 0
      ensures r == Some(Outcome.Refused) ==> !leader
      ensures r == Some(Outcome.Open) ==> failing
      ensures r.None? || r.value.Committed? ==> !failing
    {
      var now: int := *;
      Proposable(log, from, readAt, rec, mutate, now);
      var reply := Apply(Cas(Proposed(rec, cur, now), rec.version), Origin.Transition(readAt, rec, mutate, now));
      match reply
      case NotLeader => r := Some(Refused);
      case Lost => r := Some(Open);
      case Replied(resp) =>
        RepliedRound(log, from, |old(log)|, jobId, mutate);
        r := if resp.conflict then None else Some(Outcome.Committed);
    }

    /** A round of a call that has seen `n` conflicts: it ends the call or is one more. */
    method Round(jobId: string, mutate: JobRecord -> Mutation, ghost start: nat, ghost base: Entries, ghost n: nat) returns (r: Option<Outcome>)
      requires Valid() && PreservesId(mutate) && start <= |log| && AddsConflicts(log, start, base, own, n)
      modifies this, inner
      ensures Valid() && Extends(old(log), log)
      ensures r.None? ==> AddsConflicts(log, start, base, own, n + 1)
      ensures r.Some? ==> CallDid(log, from, start, base, own, n, jobId, mutate, r.value) && !r.value.GaveUp?
      ensures r == Some(Outcome.NotFound) ==> jobId !in inner.jobs
      ensures lost == old(lost) + if r == Some(Outcome.Open) then 1 else 0
      ensures r == Some(Outcome.Refused) ==> !leader
      ensures r == Some(Outcome.Open) ==> failing
    {
      r := Attempt(jobId, mutate);
      RoundBeganEarlier(log, from, start, |old(log)|, jobId, mutate, r);
      RoundEnds(old(log), log, from, start, base, old(own), own, n, jobId, mutate, r);
    }

    /**
     The read-mutate-CAS loop, whatever the cluster does meanwhile; CallDid
     says what each result means.
     */
    method Transition(jobId: string, mutate: JobRecord -> Mutation) returns (r: Outcome, ghost n: nat)
      requires Valid() && PreservesId(mutate)
      modifies this, inner
      ensures Valid() && Extends(old(log), log)
      ensures CallDid(log, from, |old(log)|, old(own), own, n, jobId, mutate, r)
      ensures n <= MAX_CAS_RETRIES && (r.GaveUp? <==> n == MAX_CAS_RETRIES)
      ensures lost == old(lost) + if r.Open? then 1 else 0
      ensures r.NotFound? ==> jobId !in inner.jobs
      ensures r.Refused? ==> !leader
      ensures r.Open? ==> failing
    {
      n := 0;
      for attempt := 0 to MAX_CAS_RETRIES
        invariant Valid() && Extends(old(log), log) && lost == old(lost)
        invariant n == attempt && AddsConflicts(log, |old(log)|, old(own), own, n)
      {
        var done := Round(jobId, mutate, |old(log)|, old(own), n);
        if done.Some? {
          return done.value, n;
        }
        n := n + 1;
      }
      r := GaveUp;
    }

    /** An idempotency-checked insert under a freshly drawn id. */
    method SubmitWithIdempotency(rec: JobRecord, key: string, now: int) returns (r: ApplyResult)
      requires Valid() && FreshIn(log, |log|, rec.id)
      modifies this, inner
      ensures Valid() && Extends(old(log), log)
      ensures r.Replied? ==>
                && |old(log)| < |log|
                && log[|log| - 1] == Submit(Stamp(rec.(idempotencyKey := key), now).(version := 1), key)
                && r.resp == Answer(log, |log| - 1)
      ensures r.Replied? ==> |log| > 0 && own == Then(old(own), |log| - 1)
      ensures !r.Replied? ==> own == old(own)
      ensures lost == old(lost) + if r.Lost? then 1 else 0
      ensures r.NotLeader? <==> !old(leader)
      ensures r.NotLeader? ==> !leader && log == old(log)
      ensures r.Lost? ==> failing
    {
      r := Apply(Submit(Stamp(rec.(idempotencyKey := key), now).(version := 1), key), Client);
    }

    /** Last writer wins: the stamped record, numbered after whatever the local store showed, replaces the row. */
    method PutJob(rec: JobRecord, now: int) returns (r: ApplyResult)
      requires Valid()
      modifies this, inner
      ensures Valid() && Extends(old(log), log)
      ensures r.Replied? ==>
                && |old(log)| < |log|
                && from[|log| - 1].PutCall?
                && log[|log| - 1] == Put(Stamp(rec, now).(version := PutVersion(from[|log| - 1].found)))
                && RowAt(log, |log|, rec.id) == Some(log[|log| - 1].rec)
      ensures r.Replied? ==> |log| > 0 && own == Then(old(own), |log| - 1)
      ensures !r.Replied? ==> own == old(own)
      ensures lost == old(lost) + if r.Lost? then 1 else 0
      ensures r.NotLeader? ==> !leader
      ensures r.Lost? ==> failing
    {
      var found, readAt := Read(rec.id);
      var put := Stamp(rec, now).(version := PutVersion(found));
      Puttable(log, from, readAt, put, found);
      r := Apply(Put(put), PutCall(readAt, found));
    }
  }
}
