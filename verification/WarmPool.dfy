/**
 ForkWarmPoolExecutor's bookkeeping (worker/warm_pool.py): the idle queue and
 the slot list. Each method is one atomic section of a worker thread; calls of
 different tasks may come in any order. `held` and `replacing` are where the
 tasks stand: between Queue.get and Queue.put, and between removing a broken
 child and having a fresh one.
 */
module WarmPool {
  import opened Jobs

  datatype Slot = Slot(pid: nat, sockPath: string)

  ghost predicate Distinct(s: seq<Slot>) {
    forall i, j :: 0 <= i < j < |s| ==> s[i] != s[j]
  }

  /** Every live slot is idle or in exactly one task's hands, never both; nothing else is. */
  ghost predicate InOnePlace(slots: seq<Slot>, idle: seq<Slot>, held: map<nat, Slot>) {
    && Distinct(slots) && Distinct(idle)
    && (forall s :: s in idle ==> s in slots)
    && (forall t :: t in held ==> held[t] in slots && held[t] !in idle)
    && (forall t, u :: t in held && u in held && t != u ==> held[t] != held[u])
    && (forall s :: s in slots ==> s in idle || s in held.Values)
  }

  function Remove(s: seq<Slot>, x: Slot): seq<Slot> {
    if s == [] then [] else if s[0] == x then s[1..] else [s[0]] + Remove(s[1..], x)
  }

  lemma {:induction false} RemoveDistinct(s: seq<Slot>, x: Slot)
    requires Distinct(s) && x in s
    ensures Distinct(Remove(s, x)) && |Remove(s, x)| == |s| - 1
    ensures forall y :: y in Remove(s, x) <==> y in s && y != x
  {
    assert s == [s[0]] + s[1..];
    if s[0] != x {
      RemoveDistinct(s[1..], x);
      assert s[0] !in s[1..] && s[0] !in Remove(s[1..], x);
    }
  }

  lemma AcquireKeeps(slots: seq<Slot>, idle: seq<Slot>, held: map<nat, Slot>, t: nat)
    requires InOnePlace(slots, idle, held) && idle != [] && t !in held
    ensures InOnePlace(slots, idle[1..], held[t := idle[0]])
  {
    assert idle == [idle[0]] + idle[1..];
    var held' := held[t := idle[0]];
    forall s | s in slots
      ensures s in idle[1..] || s in held'.Values
    {
      if s in held.Values {
        var u :| u in held && held[u] == s;
        assert u in held' && held'[u] == s;
      } else if s == idle[0] {
        assert t in held' && held'[t] == s;
      }
    }
  }

  lemma ReleaseKeeps(slots: seq<Slot>, idle: seq<Slot>, held: map<nat, Slot>, t: nat)
    requires InOnePlace(slots, idle, held) && t in held
    ensures InOnePlace(slots, idle + [held[t]], held - {t})
  {
    var held' := held - {t};
    forall s | s in slots
      ensures s in idle + [held[t]] || s in held'.Values
    {
      if s !in idle && s != held[t] {
        var u :| u in held && held[u] == s;
        assert u in held' && held'[u] == s;
      }
    }
  }

  lemma DropKeeps(slots: seq<Slot>, idle: seq<Slot>, held: map<nat, Slot>, t: nat)
    requires InOnePlace(slots, idle, held) && t in held
    ensures InOnePlace(Remove(slots, held[t]), idle, held - {t})
  {
    RemoveDistinct(slots, held[t]);
    var held' := held - {t};
    forall s | s in slots && s != held[t]
      ensures s in idle || s in held'.Values
    {
      if s !in idle {
        var u :| u in held && held[u] == s;
        assert u in held' && held'[u] == s;
      }
    }
  }

  lemma InstallKeeps(slots: seq<Slot>, idle: seq<Slot>, held: map<nat, Slot>, t: nat, fresh': Slot)
    requires InOnePlace(slots, idle, held) && t !in held && fresh' !in slots
    ensures InOnePlace(slots + [fresh'], idle, held[t := fresh'])
  {
    var held' := held[t := fresh'];
    forall s | s in slots + [fresh']
      ensures s in idle || s in held'.Values
    {
      if s == fresh' {
        assert t in held' && held'[t] == s;
      } else if s !in idle {
        var u :| u in held && held[u] == s;
        assert u in held' && held'[u] == s;
      }
    }
  }

  // ---- the pool over any interleaving ----------------------------------------

  datatype Pool = Pool(slots: seq<Slot>, idle: seq<Slot>, held: map<nat, Slot>, replacing: set<nat>, failedRespawns: nat)

  /** The atomic sections of execute and _replace, by task `t`. */
  datatype Act =
    | Get(t: nat)                        // Queue.get
    | PutBack(t: nat)                    // Queue.put, of a healthy or a fresh child
    | Discard(t: nat)                    // _slots.remove
    | Adopt(t: nat, child: Slot)         // spawned: _slots.append
    | Lose(t: nat)                       // spawn failed

  ghost function Next(p: Pool, a: Act): Option<Pool> {
    match a
    case Get(t) =>
      if t in p.held || t in p.replacing || p.idle == [] then None
      else Some(p.(idle := p.idle[1..], held := p.held[t := p.idle[0]]))
    case PutBack(t) =>
      if t !in p.held then None else Some(p.(idle := p.idle + [p.held[t]], held := p.held - {t}))
    case Discard(t) =>
      if t !in p.held then None
      else Some(p.(slots := Remove(p.slots, p.held[t]), held := p.held - {t}, replacing := p.replacing + {t}))
    case Adopt(t, child) =>
      if t !in p.replacing || child in p.slots then None
      else Some(p.(slots := p.slots + [child], held := p.held[t := child], replacing := p.replacing - {t}))
    case Lose(t) =>
      if t !in p.replacing then None
      else Some(p.(replacing := p.replacing - {t}, failedRespawns := p.failedRespawns + 1))
  }

  /** Live slots are each in one place, and live plus being-replaced slots are the configured size minus failed respawns. */
  ghost predicate Conserved(size: nat, p: Pool) {
    && InOnePlace(p.slots, p.idle, p.held)
    && p.held.Keys !! p.replacing
    && |p.slots| + |p.replacing| == size - p.failedRespawns
  }

  lemma StepConserves(size: nat, p: Pool, a: Act)
    requires Conserved(size, p) && Next(p, a).Some?
    ensures Conserved(size, Next(p, a).value)
  {
    match a
    case Get(t) => AcquireKeeps(p.slots, p.idle, p.held, t);
    case PutBack(t) => ReleaseKeeps(p.slots, p.idle, p.held, t);
    case Discard(t) =>
      DropKeeps(p.slots, p.idle, p.held, t);
      RemoveDistinct(p.slots, p.held[t]);
    case Adopt(t, child) => InstallKeeps(p.slots, p.idle, p.held, t, child);
    case Lose(t) =>
  }

  ghost function Started(children: seq<Slot>): Pool {
    Pool(children, children, map[], {}, 0)
  }

  ghost function After(children: seq<Slot>, run: seq<Act>): Option<Pool> {
    if run == [] then Some(Started(children)) else
    match After(children, run[..|run| - 1])
    case Some(p) => Next(p, run[|run| - 1])
    case None => None
  }

  /** Whatever order the sections of concurrent executes come in. */
  lemma {:induction false} RunConserves(children: seq<Slot>, run: seq<Act>)
    requires Distinct(children) && After(children, run).Some?
    ensures Conserved(|children|, After(children, run).value)
  {
    if run != [] {
      RunConserves(children, run[..|run| - 1]);
      StepConserves(|children|, After(children, run[..|run| - 1]).value, run[|run| - 1]);
    }
  }

  // ---- one task in any interleaving ------------------------------------------

  /** How a task ends; NoMemory is pickling the request failing between taking a child and the guarded block. */
  datatype Outcome = Answered | Raised | ConnectionFailed(respawned: Option<Slot>) | NoMemory

  /** The sections a task of that outcome goes through. */
  function Path(t: nat, outcome: Outcome): seq<Act> {
    match outcome
    case ConnectionFailed(Some(child)) => [Get(t), Discard(t), Adopt(t, child), PutBack(t)]
    case ConnectionFailed(None) => [Get(t), Discard(t), Lose(t)]
    case NoMemory => [Get(t)]
    case _ => [Get(t), PutBack(t)]
  }

  /** What one task did in a run. */
  function ActsOf(run: seq<Act>, t: nat): seq<Act> {
    if run == [] then []
    else ActsOf(run[..|run| - 1], t) + if run[|run| - 1].t == t then [run[|run| - 1]] else []
  }

  /** A task holds a child exactly from a Get or Adopt to its next act, whatever the others do. */
  lemma {:induction false} WhereATaskStands(children: seq<Slot>, run: seq<Act>, t: nat)
    requires After(children, run).Some?
    ensures var p, acts := After(children, run).value, ActsOf(run, t);
            && (t in p.held <==> acts != [] && (acts[|acts| - 1].Get? || acts[|acts| - 1].Adopt?))
            && (t in p.replacing <==> acts != [] && acts[|acts| - 1].Discard?)
  {
    if run != [] {
      WhereATaskStands(children, run[..|run| - 1], t);
    }
  }

  /** After any run in which a task has come to its end, it still holds a child exactly when pickling its request failed. */
  lemma StrandsExactly(children: seq<Slot>, run: seq<Act>, t: nat, outcome: Outcome)
    requires After(children, run).Some? && ActsOf(run, t) == Path(t, outcome)
    ensures t in After(children, run).value.held <==> outcome.NoMemory?
  {
    WhereATaskStands(children, run, t);
  }

  /** And such a child is listed but neither idle nor anyone else's, however long the run goes on. */
  lemma StrandedForGood(children: seq<Slot>, run: seq<Act>, t: nat)
    requires Distinct(children) && After(children, run).Some? && ActsOf(run, t) == Path(t, NoMemory)
    ensures var p := After(children, run).value;
            && t in p.held && p.held[t] in p.slots && p.held[t] !in p.idle
            && forall u :: u in p.held && u != t ==> p.held[u] != p.held[t]
  {
    StrandsExactly(children, run, t, NoMemory);
    RunConserves(children, run);
  }

  /** It is one and the same child all along. */
  lemma {:induction false} HeldUntilItsTaskActs(children: seq<Slot>, run: seq<Act>, more: seq<Act>, t: nat)
    requires After(children, run).Some? && After(children, run + more).Some?
    requires t in After(children, run).value.held
    requires forall i :: 0 <= i < |more| ==> more[i].t != t
    ensures t in After(children, run + more).value.held
    ensures After(children, run + more).value.held[t] == After(children, run).value.held[t]
  {
    if more == [] {
      assert run + more == run;
    } else {
      var init := more[..|more| - 1];
      assert (run + more)[..|run + more| - 1] == run + init;
      HeldUntilItsTaskActs(children, run, init, t);
    }
  }

  // ---- the class -------------------------------------------------------------

  ghost function Follow(p: Pool, acts: seq<Act>): Option<Pool>
    decreases |acts|
  {
    if acts == [] then Some(p) else
    match Next(p, acts[0])
    case Some(p') => Follow(p', acts[1..])
    case None => None
  }

  lemma FollowFirst(p: Pool, a: Act, p1: Pool, rest: seq<Act>)
    requires Next(p, a) == Some(p1)
    ensures Follow(p, [a] + rest) == Follow(p1, rest)
  {
    assert ([a] + rest)[1..] == rest;
  }

  /** The sections of _replace, one after another. */
  lemma ReplacePath(t: nat, respawned: Option<Slot>, p: Pool, p1: Pool, p2: Pool, p3: Pool)
    requires Next(p, Discard(t)) == Some(p1)
    requires Next(p1, if respawned.Some? then Adopt(t, respawned.value) else Lose(t)) == Some(p2)
    requires if respawned.Some? then Next(p2, PutBack(t)) == Some(p3) else p3 == p2
    ensures Follow(p, Path(t, ConnectionFailed(respawned))[1..]) == Some(p3)
  {
    if respawned.Some? {
      var acts := [Discard(t), Adopt(t, respawned.value), PutBack(t)];
      assert Path(t, ConnectionFailed(respawned))[1..] == acts;
      FollowFirst(p, acts[0], p1, acts[1..]);
      FollowFirst(p1, acts[1], p2, acts[2..]);
      assert acts == [acts[0]] + acts[1..] && acts[1..] == [acts[1]] + acts[2..];
      assert Follow(p2, [PutBack(t)]) == Some(p3);
    } else {
      var acts := [Discard(t), Lose(t)];
      assert Path(t, ConnectionFailed(respawned))[1..] == acts;
      FollowFirst(p, acts[0], p1, acts[1..]);
      assert acts == [acts[0]] + acts[1..];
    }
  }

  /** What a task of each outcome leaves behind, given the child at the head of the idle queue. */
  ghost predicate Leaves(p: Pool, outcome: Outcome, p': Pool)
    requires p.idle != []
  {
    match outcome
    case ConnectionFailed(Some(child)) =>
      p'.slots == Remove(p.slots, p.idle[0]) + [child] && p'.idle == p.idle[1..] + [child] && p'.failedRespawns == p.failedRespawns
    case ConnectionFailed(None) =>
      p'.slots == Remove(p.slots, p.idle[0]) && p'.idle == p.idle[1..] && p'.failedRespawns == p.failedRespawns + 1
    case NoMemory =>
      p'.slots == p.slots && p'.idle == p.idle[1..] && p'.failedRespawns == p.failedRespawns
    case _ =>
      p'.slots == p.slots && p'.idle == p.idle[1..] + [p.idle[0]] && p'.failedRespawns == p.failedRespawns
  }

  lemma FollowOn(p: Pool, acts: seq<Act>)
    requires acts != []
    ensures Follow(p, acts) == match Next(p, acts[0]) case Some(p1) => Follow(p1, acts[1..]) case None => None
  {
  }

  /** The sections of an outcome, run one after another, leave just that. */
  lemma PathLeaves(p: Pool, t: nat, outcome: Outcome, p': Pool)
    requires Follow(p, Path(t, outcome)) == Some(p')
    ensures p.idle != [] && Leaves(p, outcome, p')
  {
    var acts := Path(t, outcome);
    FollowOn(p, acts);
    var p1 := Next(p, acts[0]).value;
    if !outcome.NoMemory? {
      FollowOn(p1, acts[1..]);
      var p2 := Next(p1, acts[1]).value;
      if outcome.ConnectionFailed? {
        FollowOn(p2, acts[1..][1..]);
        var p3 := Next(p2, acts[2]).value;
        if outcome.respawned.Some? {
          FollowOn(p3, acts[1..][1..][1..]);
        }
      }
    }
  }

  class WarmPool {
    const size: nat
    var idle: seq<Slot>
    var slots: seq<Slot>
    ghost var held: map<nat, Slot>
    ghost var replacing: set<nat>
    ghost var failedRespawns: nat

    ghost function View(): Pool
      reads this
    {
      Pool(slots, idle, held, replacing, failedRespawns)
    }

    ghost predicate Valid()
      reads this
    {
      Conserved(size, View())
    }

    /** start(): `spawned` are the children the spawner handed out, one after another. */
    constructor (spawned: seq<Slot>)
      requires Distinct(spawned)
      ensures Valid() && size == |spawned| && View() == Started(spawned)
    {
      size := |spawned|;
      idle, slots := [], [];
      held, replacing, failedRespawns := map[], {}, 0;
      new;
      for i := 0 to |spawned|
        invariant View() == Started(spawned[..i])
      {
        slots := slots + [spawned[i]];
        idle := idle + [spawned[i]];
      }
      assert spawned[..|spawned|] == spawned;
    }

    /** Queue.get with a timeout: None when no child came free. */
    method Acquire(ghost t: nat) returns (slot: Option<Slot>)
      requires Valid() && t !in held && t !in replacing
      modifies this
      ensures Valid()
      ensures slot.None? <==> old(idle) == []
      ensures slot.None? ==> View() == old(View())
      ensures slot.Some? ==> Next(old(View()), Get(t)) == Some(View()) && slot.value == held[t]
    {
      if idle == [] {
        return None;
      }
      StepConserves(size, View(), Get(t));
      slot := Some(idle[0]);
      idle, held := idle[1..], held[t := idle[0]];
    }

    method Release(ghost t: nat, slot: Slot)
      requires Valid() && t in held && held[t] == slot
      modifies this
      ensures Valid() && Next(old(View()), PutBack(t)) == Some(View())
    {
      StepConserves(size, View(), PutBack(t));
      idle, held := idle + [slot], held - {t};
    }

    /** _replace, under the lock: the broken child leaves the slot list. */
    method Forget(ghost t: nat, slot: Slot)
      requires Valid() && t in held && held[t] == slot
      modifies this
      ensures Valid() && Next(old(View()), Discard(t)) == Some(View())
    {
      StepConserves(size, View(), Discard(t));
      RemoveDistinct(slots, slot);
      if slot in slots {
        slots := Remove(slots, slot);
      }
      held, replacing := held - {t}, replacing + {t};
    }

    /** _replace after the spawn: the fresh child joins the list, or the pool stays one smaller. */
    method Refill(ghost t: nat, respawned: Option<Slot>)
      requires Valid() && t in replacing
      requires respawned.Some? ==> respawned.value !in slots
      modifies this
      ensures Valid() && Next(old(View()), if respawned.Some? then Adopt(t, respawned.value) else Lose(t)) == Some(View())
    {
      if respawned.None? {
        StepConserves(size, View(), Lose(t));
        replacing, failedRespawns := replacing - {t}, failedRespawns + 1;
      } else {
        StepConserves(size, View(), Adopt(t, respawned.value));
        slots := slots + [respawned.value];
        held, replacing := held[t := respawned.value], replacing - {t};
      }
    }

    /** _replace: the broken child goes, and a fresh one, if there is one, is put in the idle queue. */
    method Replace(ghost t: nat, slot: Slot, respawned: Option<Slot>)
      requires Valid() && t in held && held[t] == slot && t !in replacing
      requires respawned.Some? ==> respawned.value !in slots
      modifies this
      ensures Valid()
      ensures Follow(old(View()), Path(t, ConnectionFailed(respawned))[1..]) == Some(View())
    {
      ghost var p0 := View();
      Forget(t, slot);
      ghost var p1 := View();
      Refill(t, respawned);
      ghost var p2 := View();
      if respawned.Some? {
        Release(t, respawned.value);
      }
      ReplacePath(t, respawned, p0, p1, p2, View());
    }

    /** execute() run on its own goes through exactly the sections of its outcome. */
    method Execute(ghost t: nat, outcome: Outcome) returns (ran: bool)
      requires Valid() && t !in held && t !in replacing
      requires outcome.ConnectionFailed? && outcome.respawned.Some? ==> outcome.respawned.value !in slots
      modifies this
      ensures Valid()
      ensures ran <==> old(idle) != []
      ensures Follow(old(View()), if ran then Path(t, outcome) else []) == Some(View())
      ensures ran ==> Leaves(old(View()), outcome, View())
    {
      ghost var p0 := View();
      var slot := Acquire(t);
      if slot.None? {
        return false;
      }
      ran := true;
      ghost var p1 := View();
      FollowFirst(p0, Get(t), p1, Path(t, outcome)[1..]);
      if outcome.NoMemory? {
        assert Follow(p1, []) == Some(View());
      } else if !outcome.ConnectionFailed? {
        Release(t, slot.value);                   // also on any other exception: healthy stays true
        assert Follow(p1, [PutBack(t)]) == Some(View());
      } else {
        Replace(t, slot.value, outcome.respawned);
      }
      assert Path(t, outcome) == [Get(t)] + Path(t, outcome)[1..];
      PathLeaves(p0, t, outcome, View());
    }
  }
}
