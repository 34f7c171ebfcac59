/**
 The nodes of a cluster over all their lifetimes (orchestrator/raft_store.go,
 raft_fsm.go). A node's fsm.db survives a crash while Raft's memory of what
 was applied does not: a restart applies the log again, from its start or from
 a snapshot, over whatever fsm.db holds. Snapshots may be taken at any moment,
 also mid-replay, and installed on any node.
 */
module Restart {
  import opened Jobs
  import opened JobStore
  import opened RaftFsm
  import opened RaftLog

  /** An exported state, the index it stands for and how far its store had ever been. */
  datatype Snap = Snap(at: nat, reach: nat, list: seq<JobRecord>, idem: map<string, string>)

  /**
   `at` commands applied in this lifetime; `reach` is the furthest index whose
   effects are in `db`. Before `reach` the node is replaying.
   */
  datatype Node = Node(db: State, at: nat, reach: nat, snaps: seq<Snap>)

  const NEW_NODE := Node(EMPTY, 0, 0, [])

  datatype Move =
    | Apply
    | TakeSnapshot(list: seq<JobRecord>)
    | Restart
    | InstallSnapshot(snap: Snap)      // its own at startup, or one a leader sent

  function Max(a: nat, b: nat): nat {
    if a < b then b else a
  }

  function Held(snap: Snap): State {
    State(JobsOf(snap.list), snap.idem)
  }

  ghost function Moved(log: seq<Command>, node: Node, mv: Move): Option<Node> {
    match mv
    case Apply =>
      if node.at < |log|
      then Some(node.(db := Next(node.db, log[node.at]), at := node.at + 1, reach := Max(node.reach, node.at + 1)))
      else None
    case TakeSnapshot(list) =>
      if ListsAll(list, node.db.jobs, node.db.jobs.Keys)
      then Some(node.(snaps := node.snaps + [Snap(node.at, node.reach, list, node.db.index)]))
      else None
    case Restart => Some(node.(at := 0))
    case InstallSnapshot(snap) => Some(node.(db := Held(snap), at := snap.at, reach := snap.reach))
  }

  type Nodes = map<string, Node>

  datatype Event = Event(who: string, mv: Move)

  ghost function NodeOf(nodes: Nodes, who: string): Node {
    if who in nodes then nodes[who] else NEW_NODE
  }

  /** Some node has taken this snapshot. */
  ghost predicate TakenIn(nodes: Nodes, snap: Snap) {
    exists who :: who in nodes && snap in nodes[who].snaps
  }

  ghost function Happens(log: seq<Command>, nodes: Nodes, e: Event): Option<Nodes> {
    if e.mv.InstallSnapshot? && !TakenIn(nodes, e.mv.snap) then None else
    match Moved(log, NodeOf(nodes, e.who), e.mv)
    case Some(node) => Some(nodes[e.who := node])
    case None => None
  }

  /** All nodes after a series of events, or None when some event was not possible where it stands. */
  ghost function Cluster(log: seq<Command>, events: seq<Event>): Option<Nodes> {
    if events == [] then Some(map[]) else
    match Cluster(log, events[..|events| - 1])
    case Some(nodes) => Happens(log, nodes, events[|events| - 1])
    case None => None
  }

  // ---- what a store can hold -------------------------------------------------

  /** Commands that write the job's row whatever is there: puts, and submits without a key. */
  predicate Resets(c: Command, id: string) {
    PutOf(c, id) || (c.Submit? && c.key == "" && c.rec.id == id)
  }

  predicate Reset(log: seq<Command>, n: nat, id: string)
    requires n <= |log|
  {
    exists m :: 0 <= m < n && Resets(log[m], id)
  }

  predicate StoredAt(log: seq<Command>, j: nat, id: string, rec: JobRecord)
    requires j <= |log|
  {
    RowAt(log, j, id) == Some(rec)
  }

  /** The record is the job's at some point of the first `k` commands. */
  predicate OnceStored(log: seq<Command>, k: nat, id: string, rec: JobRecord)
    requires k <= |log|
  {
    exists j :: 0 <= j <= k && StoredAt(log, j, id, rec)
  }

  /**
   A job in the store of a node that reached `k` and now replays at `n`: a
   record it really had; once reset it runs along the clean run; until then it
   is no older than there, and if no reset is to come it is where `k` left it.
   */
  predicate Placed(log: seq<Command>, n: nat, k: nat, id: string, rec: JobRecord)
    requires n <= k <= |log|
  {
    && OnceStored(log, k, id, rec)
    && (Reset(log, n, id) ==> StoredAt(log, n, id, rec))
    && (!Reset(log, k, id) ==> StoredAt(log, k, id, rec))
    && (!Reset(log, n, id) ==> NotAhead(log, n, id, rec))
  }

  /** The clean run's version of the job, if it has one, is not above this record's. */
  predicate NotAhead(log: seq<Command>, n: nat, id: string, rec: JobRecord)
    requires n <= |log|
  {
    id in Clean(log, n).jobs ==> Clean(log, n).jobs[id].version <= rec.version
  }

  predicate Between(log: seq<Command>, n: nat, k: nat, t: State) {
    && n <= k <= |log|
    && t.index == Clean(log, k).index
    && t.jobs.Keys == Clean(log, k).jobs.Keys
    && forall id {:trigger Placed(log, n, k, id, t.jobs[id])} :: id in t.jobs ==> Placed(log, n, k, id, t.jobs[id])
  }

  predicate StoreSound(log: seq<Command>, n: nat, k: nat, t: State) {
    KeyedById(t) && Between(log, n, k, t)
  }

  predicate SnapSound(log: seq<Command>, snap: Snap) {
    StoreSound(log, snap.at, snap.reach, Held(snap))
  }

  ghost predicate SnapsSound(log: seq<Command>, snaps: seq<Snap>) {
    forall i {:trigger SnapSound(log, snaps[i])} :: 0 <= i < |snaps| ==> SnapSound(log, snaps[i])
  }

  ghost predicate NodeSound(log: seq<Command>, node: Node) {
    StoreSound(log, node.at, node.reach, node.db) && SnapsSound(log, node.snaps)
  }

  ghost predicate ClusterSound(log: seq<Command>, nodes: Nodes) {
    forall who {:trigger NodeSound(log, nodes[who])} :: who in nodes ==> NodeSound(log, nodes[who])
  }

  // ---- one replayed command --------------------------------------------------

  lemma ResetGrows(log: seq<Command>, i: nat, j: nat, id: string)
    requires i <= j <= |log| && Reset(log, i, id)
    ensures Reset(log, j, id)
  {
  }

  lemma ResetStep(log: seq<Command>, n: nat, id: string)
    requires n < |log|
    ensures Reset(log, n + 1, id) <==> Reset(log, n, id) || Resets(log[n], id)
  {
    if Resets(log[n], id) {
      assert Reset(log, n + 1, id);
    }
  }

  /** A reset job is stored. */
  lemma ResetIsStored(log: seq<Command>, n: nat, id: string)
    requires n <= |log| && Reset(log, n, id)
    ensures id in Clean(log, n).jobs
  {
    var m :| 0 <= m < n && Resets(log[m], id);
    JobsStay(log, m + 1, n, id);
  }

  /** A job not yet reset has not been put, so its puts so far are orderly. */
  lemma OrderlyUntilReset(log: seq<Command>, from: seq<Origin>, n: nat, id: string)
    requires n <= |log| == |from| && !Reset(log, n, id)
    ensures Orderly(log, from, 0, n, id)
  {
    assert forall m :: 0 <= m < n ==> !Resets(log[m], id);
    assert forall m :: 0 <= m < n ==> !PutOf(log[m], id);
  }

  /** A swap replayed on a job that will not be reset conflicts: its version is past it. */
  lemma ReplayedSwapConflicts(log: seq<Command>, from: seq<Origin>, n: nat, k: nat)
    requires Built(log, from) && n < k <= |log| && log[n].Cas? && !Reset(log, k, log[n].rec.id)
    ensures log[n].rec.id in Clean(log, k).jobs
    ensures Clean(log, k).jobs[log[n].rec.id].version != log[n].expected
  {
    assert BuiltAt(log, from, n);
    var id := log[n].rec.id;
    OrderlyUntilReset(log, from, k, id);
    VersionGrows(log, from, from[n].readAt, n, id);
    VersionStep(log, from, n, id);
    VersionGrows(log, from, n + 1, k, id);
  }

  /** A replayed swap that a store not behind the clean run takes also won on the clean run. */
  lemma TakenSwapHadWon(log: seq<Command>, from: seq<Origin>, n: nat, rec: JobRecord)
    requires Built(log, from) && n < |log| && log[n].Cas? && !Reset(log, n, log[n].rec.id)
    requires NotAhead(log, n, log[n].rec.id, rec) && rec.version == log[n].expected
    ensures Wins(Clean(log, n), log[n])
  {
    assert BuiltAt(log, from, n);
    var id := log[n].rec.id;
    OrderlyUntilReset(log, from, n, id);
    VersionGrows(log, from, from[n].readAt, n, id);
  }

  /** A job the command leaves alone, in the store and on the clean run. */
  lemma PlacedUntouched(log: seq<Command>, n: nat, k: nat, id: string, rec: JobRecord)
    requires n < k <= |log| && Placed(log, n, k, id, rec)
    requires !Resets(log[n], id) && !Written(log, n, id)
    ensures Placed(log, n + 1, k, id, rec)
  {
    ResetStep(log, n, id);
  }

  /** A job that a reset has put on the clean run. */
  lemma PlacedOnCleanRun(log: seq<Command>, n: nat, k: nat, id: string, rec: JobRecord)
    requires n <= k <= |log| && Reset(log, n, id) && StoredAt(log, n, id, rec)
    ensures Placed(log, n, k, id, rec)
  {
    ResetGrows(log, n, k, id);
  }

  lemma PlacedSwap(log: seq<Command>, from: seq<Origin>, n: nat, k: nat, t: State)
    requires Built(log, from) && n < k <= |log| && log[n].Cas?
    requires log[n].rec.id in t.jobs && Placed(log, n, k, log[n].rec.id, t.jobs[log[n].rec.id])
    ensures log[n].rec.id in Next(t, log[n]).jobs
    ensures Placed(log, n + 1, k, log[n].rec.id, Next(t, log[n]).jobs[log[n].rec.id])
  {
    var id := log[n].rec.id;
    ResetStep(log, n, id);
    if Reset(log, n, id) {
      PlacedOnCleanRun(log, n + 1, k, id, Next(t, log[n]).jobs[id]);
    } else if Wins(t, log[n]) {
      TakenSwapHadWon(log, from, n, t.jobs[id]);
      assert StoredAt(log, n + 1, id, log[n].rec);
      if !Reset(log, k, id) {
        ReplayedSwapConflicts(log, from, n, k);
      }
    } else {
      assert BuiltAt(log, from, n);
    }
  }

  /** The index never moves during replay: every key it could add is there. */
  lemma ReplayKeepsIndex(log: seq<Command>, n: nat, k: nat, t: State)
    requires n < k <= |log| && t.index == Clean(log, k).index
    ensures Next(t, log[n]).index == t.index
    ensures log[n].Submit? && log[n].key != "" ==> Next(t, log[n]) == t
  {
    if log[n].Submit? && log[n].key != "" {
      SubmitBindsKey(log, n);
      IndexStable(EMPTY, log, n + 1, k, log[n].key);
    }
  }

  lemma ReplayKeepsKeys(log: seq<Command>, n: nat, k: nat, t: State)
    requires n < k <= |log| && t.index == Clean(log, k).index && t.jobs.Keys == Clean(log, k).jobs.Keys
    ensures Next(t, log[n]).jobs.Keys == t.jobs.Keys
  {
    ReplayKeepsIndex(log, n, k, t);
    if log[n].Put? || (log[n].Submit? && log[n].key == "") {
      assert Resets(log[n], log[n].rec.id);
      ResetIsStored(log, n + 1, log[n].rec.id);
      JobsStay(log, n + 1, k, log[n].rec.id);
    }
  }

  /** A keyed submit is ignored by the replaying store; on the clean run it may begin the job, at version 1. */
  lemma PlacedSubmit(log: seq<Command>, from: seq<Origin>, n: nat, k: nat, rec: JobRecord)
    requires Built(log, from) && n < k <= |log| && log[n].Submit? && log[n].key != ""
    requires Placed(log, n, k, log[n].rec.id, rec)
    ensures Placed(log, n + 1, k, log[n].rec.id, rec)
  {
    var id := log[n].rec.id;
    SubmitIsNew(log, from, n);
    if Reset(log, n, id) {
      ResetIsStored(log, n, id);
    }
    ResetStep(log, n, id);
    assert BuiltAt(log, from, n);
    var j :| 0 <= j <= k && StoredAt(log, j, id, rec);
    VersionsArePositive(log, from, j, id);
  }

  lemma PlacedReset(log: seq<Command>, n: nat, k: nat, t: State)
    requires n < k <= |log| && (log[n].Put? || (log[n].Submit? && log[n].key == ""))
    ensures log[n].rec.id in Next(t, log[n]).jobs
    ensures Placed(log, n + 1, k, log[n].rec.id, Next(t, log[n]).jobs[log[n].rec.id])
  {
    assert Resets(log[n], log[n].rec.id);
    ResetStep(log, n, log[n].rec.id);
    PlacedOnCleanRun(log, n + 1, k, log[n].rec.id, log[n].rec);
  }

  lemma PlacedNext(log: seq<Command>, from: seq<Origin>, n: nat, k: nat, t: State, id: string)
    requires Built(log, from) && n < k <= |log| && t.index == Clean(log, k).index
    requires id in t.jobs && Placed(log, n, k, id, t.jobs[id])
    ensures id in Next(t, log[n]).jobs && Placed(log, n + 1, k, id, Next(t, log[n]).jobs[id])
  {
    var c := log[n];
    if c.Garbled? || c.rec.id != id {
      ReplayKeepsIndex(log, n, k, t);
      PlacedUntouched(log, n, k, id, t.jobs[id]);
    } else if c.Cas? {
      PlacedSwap(log, from, n, k, t);
    } else if c.Submit? && c.key != "" {
      ReplayKeepsIndex(log, n, k, t);
      PlacedSubmit(log, from, n, k, t.jobs[id]);
    } else {
      PlacedReset(log, n, k, t);
    }
  }

  /** One replayed command keeps the store between the clean run and where it had been. */
  lemma ReplayStep(log: seq<Command>, from: seq<Origin>, n: nat, k: nat, t: State)
    requires Built(log, from) && n < k && Between(log, n, k, t)
    ensures Between(log, n + 1, k, Next(t, log[n]))
  {
    ReplayKeepsIndex(log, n, k, t);
    ReplayKeepsKeys(log, n, k, t);
    forall id | id in Next(t, log[n]).jobs
      ensures Placed(log, n + 1, k, id, Next(t, log[n]).jobs[id])
    {
      assert Placed(log, n, k, id, t.jobs[id]);
      PlacedNext(log, from, n, k, t, id);
    }
  }

  /** Once replay has caught up, the node is on the clean run. */
  lemma CaughtUp(log: seq<Command>, k: nat, t: State)
    requires Between(log, k, k, t)
    ensures t == Clean(log, k)
  {
    forall id | id in t.jobs
      ensures t.jobs[id] == Clean(log, k).jobs[id]
    {
      assert Placed(log, k, k, id, t.jobs[id]);
    }
  }

  lemma CleanIsBetween(log: seq<Command>, k: nat)
    requires k <= |log|
    ensures Between(log, k, k, Clean(log, k))
  {
    forall id | id in Clean(log, k).jobs
      ensures Placed(log, k, k, id, Clean(log, k).jobs[id])
    {
      assert StoredAt(log, k, id, Clean(log, k).jobs[id]);
    }
  }

  /** What a crash leaves is a store for a replay from the start. */
  lemma RestartPlaced(log: seq<Command>, n: nat, k: nat, t: State)
    requires Between(log, n, k, t)
    ensures Between(log, 0, k, t)
  {
    forall id | id in t.jobs
      ensures Placed(log, 0, k, id, t.jobs[id])
    {
      assert Placed(log, n, k, id, t.jobs[id]);
    }
  }

  // ---- lifetimes -------------------------------------------------------------

  lemma NextKeyedById(s: State, c: Command)
    requires KeyedById(s)
    ensures KeyedById(Next(s, c))
  {
  }

  lemma ApplyKeepsStore(log: seq<Command>, from: seq<Origin>, n: nat, k: nat, t: State)
    requires Built(log, from) && n < |log| && StoreSound(log, n, k, t)
    ensures StoreSound(log, n + 1, Max(k, n + 1), Next(t, log[n]))
  {
    NextKeyedById(t, log[n]);
    if n < k {
      ReplayStep(log, from, n, k, t);
    } else {
      CaughtUp(log, n, t);
      CleanIsBetween(log, n + 1);
    }
  }

  lemma SnapshotIsSound(log: seq<Command>, n: nat, k: nat, t: State, list: seq<JobRecord>)
    requires StoreSound(log, n, k, t) && ListsAll(list, t.jobs, t.jobs.Keys)
    ensures SnapSound(log, Snap(n, k, list, t.index))
  {
    ImportUndoesExport(t, list);
    assert State(JobsOf(list), t.index) == t;
  }

  lemma MoveKeepsNode(log: seq<Command>, from: seq<Origin>, node: Node, mv: Move)
    requires Built(log, from) && NodeSound(log, node) && Moved(log, node, mv).Some?
    requires mv.InstallSnapshot? ==> SnapSound(log, mv.snap)
    ensures NodeSound(log, Moved(log, node, mv).value)
  {
    match mv
    case Apply => ApplyKeepsStore(log, from, node.at, node.reach, node.db);
    case TakeSnapshot(list) => SnapshotIsSound(log, node.at, node.reach, node.db, list);
    case Restart => RestartPlaced(log, node.at, node.reach, node.db);
    case InstallSnapshot(_) =>
  }

  lemma NewNodeIsSound(log: seq<Command>)
    ensures NodeSound(log, NEW_NODE)
  {
    CleanIsBetween(log, 0);
  }

  lemma TakenIsSound(log: seq<Command>, nodes: Nodes, snap: Snap)
    requires ClusterSound(log, nodes) && TakenIn(nodes, snap)
    ensures SnapSound(log, snap)
  {
    var who :| who in nodes && snap in nodes[who].snaps;
    assert NodeSound(log, nodes[who]);
    var i :| 0 <= i < |nodes[who].snaps| && nodes[who].snaps[i] == snap;
    assert SnapSound(log, nodes[who].snaps[i]);
  }

  lemma EventKeepsCluster(log: seq<Command>, from: seq<Origin>, nodes: Nodes, e: Event)
    requires Built(log, from) && ClusterSound(log, nodes) && Happens(log, nodes, e).Some?
    ensures ClusterSound(log, Happens(log, nodes, e).value)
  {
    var node := NodeOf(nodes, e.who);
    NewNodeIsSound(log);
    if e.mv.InstallSnapshot? {
      TakenIsSound(log, nodes, e.mv.snap);
    }
    assert e.who in nodes ==> NodeSound(log, nodes[e.who]);
    MoveKeepsNode(log, from, node, e.mv);
    var nodes' := Happens(log, nodes, e).value;
    forall who | who in nodes'
      ensures NodeSound(log, nodes'[who])
    {
      assert who != e.who ==> NodeSound(log, nodes[who]);
    }
  }

  /** Whatever the nodes went through, every store and every snapshot is sound. */
  lemma {:induction false} ClusterIsSound(log: seq<Command>, from: seq<Origin>, events: seq<Event>)
    requires Built(log, from) && Cluster(log, events).Some?
    ensures ClusterSound(log, Cluster(log, events).value)
  {
    if events != [] {
      ClusterIsSound(log, from, events[..|events| - 1]);
      EventKeepsCluster(log, from, Cluster(log, events[..|events| - 1]).value, events[|events| - 1]);
    }
  }

  lemma MemberIsSound(log: seq<Command>, from: seq<Origin>, events: seq<Event>, who: string)
    requires Built(log, from) && Cluster(log, events).Some? && who in Cluster(log, events).value
    ensures NodeSound(log, Cluster(log, events).value[who])
  {
    ClusterIsSound(log, from, events);
    assert NodeSound(log, Cluster(log, events).value[who]);
  }

  /** How many commands of the log a node has applied in its present lifetime, snapshots included, told from the events. */
  function Position(events: seq<Event>, who: string): nat {
    if events == [] then 0 else
    var n, e := Position(events[..|events| - 1], who), events[|events| - 1];
    if e.who != who then n else
    match e.mv
    case Apply => n + 1
    case Restart => 0
    case InstallSnapshot(snap) => snap.at
    case TakeSnapshot(_) => n
  }

  /** The furthest its store has ever been, since the last snapshot it installed. */
  function Furthest(events: seq<Event>, who: string): nat {
    if events == [] then 0 else
    var k, e := Furthest(events[..|events| - 1], who), events[|events| - 1];
    if e.who == who && e.mv.InstallSnapshot? then e.mv.snap.reach else Max(k, Position(events, who))
  }

  lemma {:induction false} PositionWithinReach(log: seq<Command>, from: seq<Origin>, events: seq<Event>, who: string)
    requires Built(log, from) && Cluster(log, events).Some?
    ensures NodeOf(Cluster(log, events).value, who).at == Position(events, who)
    ensures NodeOf(Cluster(log, events).value, who).reach == Furthest(events, who)
    ensures Position(events, who) <= Furthest(events, who) <= |log|
  {
    if events != [] {
      PositionWithinReach(log, from, events[..|events| - 1], who);
    }
    if who in Cluster(log, events).value {
      MemberIsSound(log, from, events, who);
    }
  }

  /**
   However often the nodes crashed, snapshotted and installed each other's
   snapshots, and wherever: once a node has applied as far as its store had
   ever been, it is on the clean run, and so it is at the end of the log.
   */
  lemma RestartConverges(log: seq<Command>, from: seq<Origin>, events: seq<Event>, who: string)
    requires Built(log, from) && Cluster(log, events).Some? && who in Cluster(log, events).value
    ensures var node := Cluster(log, events).value[who];
            && node.at <= node.reach <= |log|
            && (node.at == node.reach ==> node.db == Clean(log, node.at))
            && (node.at == |log| ==> node.db == Clean(log, |log|))
  {
    MemberIsSound(log, from, events, who);
    var node := Cluster(log, events).value[who];
    if node.at == node.reach {
      CaughtUp(log, node.at, node.db);
    }
  }

  /** From wherever the cluster has come to, any node, new ones too, gets to the end of the log by applying alone. */
  lemma {:induction false} CatchesUp(log: seq<Command>, from: seq<Origin>, events: seq<Event>, who: string)
    returns (more: seq<Event>)
    requires Built(log, from) && Cluster(log, events).Some?
    ensures Cluster(log, events + more).Some? && forall i :: 0 <= i < |more| ==> more[i] == Event(who, Apply)
    ensures NodeOf(Cluster(log, events + more).value, who).db == Clean(log, |log|)
    decreases |log| - NodeOf(Cluster(log, events).value, who).at
  {
    var nodes := Cluster(log, events).value;
    if who in nodes {
      RestartConverges(log, from, events, who);
    }
    if NodeOf(nodes, who).at == |log| {
      more := [];
      assert events + [] == events;
    } else {
      var e := Event(who, Apply);
      assert (events + [e])[..|events|] == events;
      assert Cluster(log, events + [e]) == Happens(log, nodes, e);
      var rest := CatchesUp(log, from, events + [e], who);
      more := [e] + rest;
      assert events + more == events + [e] + rest;
    }
  }

  /** At every moment, mid-replay too, the record a node serves was the job's at some point of the log. */
  lemma RestartStaysHonest(log: seq<Command>, from: seq<Origin>, events: seq<Event>, who: string, id: string) returns (j: nat)
    requires Built(log, from) && Cluster(log, events).Some? && who in Cluster(log, events).value
    requires id in Cluster(log, events).value[who].db.jobs
    ensures j <= |log| && StoredAt(log, j, id, Cluster(log, events).value[who].db.jobs[id])
  {
    MemberIsSound(log, from, events, who);
    var node := Cluster(log, events).value[who];
    j := HonestRead(log, node.at, node.reach, node.db, id);
  }

  lemma HonestRead(log: seq<Command>, n: nat, k: nat, t: State, id: string) returns (j: nat)
    requires StoreSound(log, n, k, t) && id in t.jobs
    ensures j <= |log| && StoredAt(log, j, id, t.jobs[id])
  {
    assert Placed(log, n, k, id, t.jobs[id]);
    j :| 0 <= j <= k && StoredAt(log, j, id, t.jobs[id]);
  }

  /** The store after applying the log from `n` on. */
  ghost function Onward(t: State, log: seq<Command>, n: nat): State
    requires n <= |log|
    decreases |log| - n
  {
    if n == |log| then t else Onward(Next(t, log[n]), log, n + 1)
  }

  lemma {:induction false} OnwardIsAfter(t: State, log: seq<Command>, n: nat)
    requires n <= |log|
    ensures Onward(t, log, n) == After(t, log[n..], |log| - n)
    decreases |log| - n
  {
    if n < |log| {
      OnwardIsAfter(Next(t, log[n]), log, n + 1);
      AfterFirst(t, log[n..], |log| - n);
      assert log[n..][1..] == log[n + 1..];
    }
  }

  lemma {:induction false} AfterFirst(s: State, log: seq<Command>, n: nat)
    requires 0 < n <= |log|
    ensures After(s, log, n) == After(Next(s, log[0]), log[1..], n - 1)
  {
    if n > 1 {
      AfterFirst(s, log, n - 1);
    }
  }

  lemma StepOnward(log: seq<Command>, from: seq<Origin>, n: nat, k: nat, t: State) returns (k': nat, t': State)
    requires Built(log, from) && n < |log| && StoreSound(log, n, k, t)
    ensures StoreSound(log, n + 1, k', t') && Onward(t', log, n + 1) == Onward(t, log, n)
  {
    k', t' := Max(k, n + 1), Next(t, log[n]);
    ApplyKeepsStore(log, from, n, k, t);
  }

  lemma {:induction false} OnwardIsSound(log: seq<Command>, from: seq<Origin>, n: nat, k: nat, t: State)
    requires Built(log, from) && StoreSound(log, n, k, t)
    ensures StoreSound(log, |log|, |log|, Onward(t, log, n))
    decreases |log| - n
  {
    if n < |log| {
      var k', t' := StepOnward(log, from, n, k, t);
      OnwardIsSound(log, from, n + 1, k', t');
    }
  }

  /** Applying the rest of the log to a sound store ends on the clean run. */
  lemma OnwardConverges(log: seq<Command>, from: seq<Origin>, n: nat, k: nat, t: State)
    requires Built(log, from) && StoreSound(log, n, k, t)
    ensures Onward(t, log, n) == Clean(log, |log|)
  {
    OnwardIsSound(log, from, n, k, t);
    CaughtUp(log, |log|, Onward(t, log, n));
  }

  /**
   A snapshot taken by any node at any moment of its life, restored on another
   holding anything at all, which then applies the rest: both are the real
   objects, and the other ends on the clean run.
   */
  method SnapshotFromAnyNode(leader: JobFSM, follower: JobFSM, log: seq<Command>, ghost from: seq<Origin>,
                             ghost events: seq<Event>, ghost who: string, at: nat)
    requires leader.store != follower.store
    requires Built(log, from) && Cluster(log, events).Some? && who in Cluster(log, events).value
    requires leader.store.View() == Cluster(log, events).value[who].db && at == Cluster(log, events).value[who].at
    modifies follower.store
    ensures follower.store.View() == Clean(log, |log|)
    ensures leader.store.View() == old(leader.store.View())
  {
    MemberIsSound(log, from, events, who);
    OnwardConverges(log, from, at, Cluster(log, events).value[who].reach, leader.store.View());
    OnwardIsAfter(leader.store.View(), log, at);
    var list, idem := leader.Snapshot();
    follower.Restore(list, idem);
    follower.ApplyAll(log[at..]);
  }
}
