/**
 Exactly when the autoscaler launches, stops and cleans up, told from what its
 ticks saw and did: no claim here looks into the autoscaler's own memory
 (orchestrator/autoscaler.go).
 */
module AutoscalerRuns {
  import opened Autoscaler
  import opened Jobs
  import opened WorkerPool

  // ---- what the ticks saw ----------------------------------------------------

  /** A worker launched at tick `i` was in the pool at some tick before `n`. */
  ghost predicate Registered(xs: seq<Input>, i: nat, n: nat, id: string)
    requires n <= |xs|
  {
    exists k :: i < k < n && id in xs[k].pool
  }

  /** A worker launched at tick `i` is lost at tick `n`: it registered and is gone or dead, or it has had its time to register. */
  ghost predicate Lost(cfg: Config, xs: seq<Input>, i: nat, n: nat, id: string)
    requires i < n < |xs|
  {
    if Registered(xs, i, n, id) then id !in xs[n].pool || !xs[n].pool[id].alive
    else id !in xs[n].pool && xs[n].now - xs[i].now > cfg.registerTimeout
  }

  /** Launched at tick `i`, and neither lost nor stopped before tick `n`. */
  ghost predicate Kept(cfg: Config, xs: seq<Input>, acts: seq<Act>, i: nat, n: nat, id: string)
    requires n <= |xs| == |acts|
  {
    && i < n && acts[i].Launched? && acts[i].id == id
    && forall k {:trigger Lost(cfg, xs, i, k, id)} :: i < k < n ==> !Lost(cfg, xs, i, k, id) && acts[k] != Stopped(id)
  }

  /** Seen idle at every tick from `j` to `n`, having registered before `j`. */
  ghost predicate Streak(xs: seq<Input>, i: nat, j: nat, n: nat, id: string)
    requires n < |xs|
  {
    i < j <= n && Registered(xs, i, j, id) && forall k :: j <= k <= n ==> IdleSeen(xs[k], id)
  }

  // ---- the memory agrees with it ---------------------------------------------

  /** The idle mark is the time of the earliest tick of the streak that ends at `n`. */
  ghost predicate Marked(mark: Option<int>, xs: seq<Input>, i: nat, n: nat, id: string)
    requires n < |xs|
  {
    match mark
    case None => forall j: nat :: !Streak(xs, i, j, n, id)
    case Some(t) =>
      && (exists j: nat :: Streak(xs, i, j, n, id) && xs[j].now == t)
      && forall j: nat :: Streak(xs, i, j, n, id) ==> t <= xs[j].now
  }

  ghost predicate Remembered(m: Managed, xs: seq<Input>, i: nat, n: nat, id: string)
    requires i < n <= |xs|
  {
    && m.launchedAt == xs[i].now
    && (m.registered <==> Registered(xs, i, n, id))
    && Marked(m.idleSince, xs, i, n - 1, id)
  }

  lemma StreakGrows(xs: seq<Input>, i: nat, j: nat, n: nat, id: string)
    requires i < n < |xs|
    ensures Streak(xs, i, j, n, id) <==>
              IdleSeen(xs[n], id) && (if j == n then Registered(xs, i, n, id) else Streak(xs, i, j, n - 1, id))
  {
  }

  lemma RegisteredGrows(xs: seq<Input>, i: nat, n: nat, id: string)
    requires i < n < |xs|
    ensures Registered(xs, i, n + 1, id) <==> Registered(xs, i, n, id) || id in xs[n].pool
  {
  }

  lemma MarkGrows(mark: Option<int>, xs: seq<Input>, i: nat, n: nat, id: string)
    requires i < n < |xs| && Monotone(xs) && Marked(mark, xs, i, n - 1, id)
    requires Registered(xs, i, n, id)
    ensures Marked(if !IdleSeen(xs[n], id) then None else if mark.None? then Some(xs[n].now) else mark, xs, i, n, id)
  {
    forall j: nat
      ensures Streak(xs, i, j, n, id) <==>
                IdleSeen(xs[n], id) && (j == n || Streak(xs, i, j, n - 1, id))
    {
      StreakGrows(xs, i, j, n, id);
    }
    if IdleSeen(xs[n], id) {
      if mark.None? {
        assert Streak(xs, i, n, n, id);
      } else {
        var j: nat :| Streak(xs, i, j, n - 1, id) && xs[j].now == mark.value;
        assert Streak(xs, i, j, n, id);
      }
    }
  }

  lemma UnregisteredHasNoStreak(xs: seq<Input>, i: nat, n: nat, id: string)
    requires i < n < |xs| && !Registered(xs, i, n, id)
    ensures forall j: nat :: !Streak(xs, i, j, n, id)
  {
  }

  lemma UnregisteredIsUnmarked(mark: Option<int>, xs: seq<Input>, i: nat, n: nat, id: string)
    requires i < n < |xs| && Marked(mark, xs, i, n - 1, id) && !Registered(xs, i, n, id)
    ensures mark.None?
  {
    UnregisteredHasNoStreak(xs, i, n, id);
  }

  lemma ReconcileRemembers(cfg: Config, xs: seq<Input>, i: nat, n: nat, id: string, m: Managed)
    requires i < n < |xs| && Monotone(xs) && Remembered(m, xs, i, n, id)
    ensures Reconcile(cfg, xs[n].now, xs[n].pool, id, m).None? <==> Lost(cfg, xs, i, n, id)
    ensures Reconcile(cfg, xs[n].now, xs[n].pool, id, m).Some? ==>
              Remembered(Reconcile(cfg, xs[n].now, xs[n].pool, id, m).value, xs, i, n + 1, id)
  {
    RegisteredGrows(xs, i, n, id);
    if m.registered {
      MarkGrows(m.idleSince, xs, i, n, id);
    } else {
      UnregisteredIsUnmarked(m.idleSince, xs, i, n, id);
      UnregisteredHasNoStreak(xs, i, n, id);
    }
  }

  // ---- over a run ------------------------------------------------------------

  lemma NewIsRemembered(xs: seq<Input>, n: nat, id: string)
    requires n < |xs|
    ensures Remembered(Managed(xs[n].now, false, None), xs, n, n + 1, id)
  {
  }

  lemma ManagedAfterTick(cfg: Config, pid: nat, s: State, x: Input, s': State, act: Act, id: string)
    requires Ticked(cfg, pid, s, x, s', act)
    ensures act.Launched? && act.id == id ==> id in s'.managed && s'.managed[id] == Managed(x.now, false, None)
    ensures !(act.Launched? && act.id == id) ==>
              (id in s'.managed <==> id in s.managed && Reconcile(cfg, x.now, x.pool, id, s.managed[id]).Some? && act != Stopped(id))
    ensures !(act.Launched? && act.id == id) && id in s'.managed ==>
              s'.managed[id] == Reconcile(cfg, x.now, x.pool, id, s.managed[id]).value
  {
  }

  lemma KeptLonger(cfg: Config, xs: seq<Input>, acts: seq<Act>, i: nat, n: nat, id: string)
    requires i < n < |xs| == |acts|
    ensures Kept(cfg, xs, acts, i, n + 1, id) <==>
              Kept(cfg, xs, acts, i, n, id) && !Lost(cfg, xs, i, n, id) && acts[n] != Stopped(id)
  {
  }

  /** Whatever is managed was launched at some tick, and kept since. */
  lemma {:induction false} ManagedWasKept(
    cfg: Config, pid: nat, xs: seq<Input>, states: seq<State>, acts: seq<Act>, n: nat, id: string)
    returns (i: nat)
    requires Runs(cfg, pid, xs, states, acts) && Monotone(xs) && n < |states| && id in states[n].managed
    ensures i < n && Kept(cfg, xs, acts, i, n, id) && Remembered(states[n].managed[id], xs, i, n, id)
  {
    var k := n - 1;
    assert Ticked(cfg, pid, states[k], xs[k], states[n], acts[k]);
    ManagedAfterTick(cfg, pid, states[k], xs[k], states[n], acts[k], id);
    if acts[k].Launched? && acts[k].id == id {
      i := k;
      NewIsRemembered(xs, k, id);
    } else {
      i := ManagedWasKept(cfg, pid, xs, states, acts, k, id);
      ReconcileRemembers(cfg, xs, i, k, id, states[k].managed[id]);
      KeptLonger(cfg, xs, acts, i, k, id);
    }
  }

  /** And whatever was launched and kept is managed. */
  lemma {:induction false} KeptIsManaged(
    cfg: Config, pid: nat, xs: seq<Input>, states: seq<State>, acts: seq<Act>, i: nat, n: nat, id: string)
    requires Runs(cfg, pid, xs, states, acts) && Monotone(xs) && n < |states| && Kept(cfg, xs, acts, i, n, id)
    ensures id in states[n].managed && Remembered(states[n].managed[id], xs, i, n, id)
    decreases n
  {
    var k := n - 1;
    assert Ticked(cfg, pid, states[k], xs[k], states[n], acts[k]);
    ManagedAfterTick(cfg, pid, states[k], xs[k], states[n], acts[k], id);
    if i == k {
      NewIsRemembered(xs, k, id);
    } else {
      KeptLonger(cfg, xs, acts, i, k, id);
      KeptIsManaged(cfg, pid, xs, states, acts, i, k, id);
      ReconcileRemembers(cfg, xs, i, k, id, states[k].managed[id]);
      if acts[k].Launched? && acts[k].id == id {
        IdsNeverRepeat(cfg, pid, xs, states, acts, i, k);
      }
    }
  }

  // ---- clean-up --------------------------------------------------------------

  /** A tick gives up exactly the workers that were kept until then and are lost now. */
  lemma CleansUpExactly(cfg: Config, pid: nat, xs: seq<Input>, states: seq<State>, acts: seq<Act>, n: nat, id: string)
    requires Runs(cfg, pid, xs, states, acts) && Monotone(xs) && n < |xs|
    ensures id in GivenUp(cfg, xs[n].now, xs[n].pool, states[n].managed) <==>
              exists i :: 0 <= i < n && Kept(cfg, xs, acts, i, n, id) && Lost(cfg, xs, i, n, id)
  {
    if id in states[n].managed {
      var i := ManagedWasKept(cfg, pid, xs, states, acts, n, id);
      ReconcileRemembers(cfg, xs, i, n, id, states[n].managed[id]);
    }
    if i :| 0 <= i < n && Kept(cfg, xs, acts, i, n, id) && Lost(cfg, xs, i, n, id) {
      KeptIsManaged(cfg, pid, xs, states, acts, i, n, id);
      ReconcileRemembers(cfg, xs, i, n, id, states[n].managed[id]);
    }
  }

  // ---- the count -------------------------------------------------------------

  /** A launch still counted at tick `n`: kept, in time, and never seen in the pool. */
  ghost predicate Awaited(cfg: Config, xs: seq<Input>, acts: seq<Act>, n: nat, id: string)
    requires n < |xs| == |acts|
  {
    exists i :: 0 <= i < n && Kept(cfg, xs, acts, i, n, id) && !Registered(xs, i, n + 1, id)
                && xs[n].now - xs[i].now <= cfg.registerTimeout
  }

  ghost function AwaitedAt(cfg: Config, xs: seq<Input>, acts: seq<Act>, n: nat): set<string>
    requires n < |xs| == |acts|
  {
    set i | 0 <= i < n && acts[i].Launched? && Awaited(cfg, xs, acts, n, acts[i].id) :: acts[i].id
  }

  /** The pool as tick `n` counts it: alive workers plus awaited launches. */
  ghost function Size(cfg: Config, xs: seq<Input>, acts: seq<Act>, n: nat): nat
    requires n < |xs| == |acts|
  {
    |AliveIn(xs[n].pool)| + |AwaitedAt(cfg, xs, acts, n)|
  }

  lemma PendingIsAwaited(cfg: Config, pid: nat, xs: seq<Input>, states: seq<State>, acts: seq<Act>, n: nat, id: string)
    requires Runs(cfg, pid, xs, states, acts) && Monotone(xs) && n < |xs|
    ensures id in PendingIn(ReconcileAll(cfg, xs[n].now, xs[n].pool, states[n].managed)) <==> id in AwaitedAt(cfg, xs, acts, n)
  {
    if id in PendingIn(ReconcileAll(cfg, xs[n].now, xs[n].pool, states[n].managed)) {
      var i := ManagedWasKept(cfg, pid, xs, states, acts, n, id);
      ReconcileRemembers(cfg, xs, i, n, id, states[n].managed[id]);
      RegisteredGrows(xs, i, n, id);
      assert Awaited(cfg, xs, acts, n, acts[i].id);
    }
    if id in AwaitedAt(cfg, xs, acts, n) {
      var i :| 0 <= i < n && Kept(cfg, xs, acts, i, n, id) && !Registered(xs, i, n + 1, id)
               && xs[n].now - xs[i].now <= cfg.registerTimeout;
      KeptIsManaged(cfg, pid, xs, states, acts, i, n, id);
      ReconcileRemembers(cfg, xs, i, n, id, states[n].managed[id]);
      RegisteredGrows(xs, i, n, id);
    }
  }

  lemma EffectiveIsSize(cfg: Config, pid: nat, xs: seq<Input>, states: seq<State>, acts: seq<Act>, n: nat)
    requires Runs(cfg, pid, xs, states, acts) && Monotone(xs) && n < |xs|
    ensures Effective(ReconcileAll(cfg, xs[n].now, xs[n].pool, states[n].managed), xs[n].pool) == Size(cfg, xs, acts, n)
  {
    var pending := PendingIn(ReconcileAll(cfg, xs[n].now, xs[n].pool, states[n].managed));
    forall id
      ensures id in pending <==> id in AwaitedAt(cfg, xs, acts, n)
    {
      PendingIsAwaited(cfg, pid, xs, states, acts, n, id);
    }
    assert pending == AwaitedAt(cfg, xs, acts, n);
  }

  // ---- launches --------------------------------------------------------------

  ghost predicate CooledDown(cfg: Config, xs: seq<Input>, acts: seq<Act>, n: nat)
    requires n < |xs| == |acts|
  {
    forall i :: 0 <= i < n && acts[i].Launched? ==> xs[n].now - xs[i].now >= cfg.cooldown
  }

  /** A launch is due at tick `n`: below the floor, or on demand, below the ceiling, and long enough after every launch. */
  ghost predicate Due(cfg: Config, xs: seq<Input>, acts: seq<Act>, n: nat)
    requires n < |xs| == |acts|
  {
    || Size(cfg, xs, acts, n) < cfg.min
    || ((xs[n].queue >= cfg.queueThreshold || (Capacity(xs[n].pool) > 0 && ActiveTasks(xs[n].pool) >= Capacity(xs[n].pool)))
        && Size(cfg, xs, acts, n) < cfg.max && CooledDown(cfg, xs, acts, n))
  }

  lemma {:induction false} LastLaunchWasALaunch(
    cfg: Config, pid: nat, xs: seq<Input>, states: seq<State>, acts: seq<Act>, n: nat)
    returns (i: nat)
    requires Runs(cfg, pid, xs, states, acts) && n < |states| && states[n].lastLaunch.Some?
    ensures i < n && acts[i].Launched? && states[n].lastLaunch.value == xs[i].now
  {
    assert Ticked(cfg, pid, states[n - 1], xs[n - 1], states[n], acts[n - 1]);
    if acts[n - 1].Launched? {
      i := n - 1;
    } else {
      i := LastLaunchWasALaunch(cfg, pid, xs, states, acts, n - 1);
    }
  }

  lemma CooledDownExactly(cfg: Config, pid: nat, xs: seq<Input>, states: seq<State>, acts: seq<Act>, n: nat)
    requires Runs(cfg, pid, xs, states, acts) && Monotone(xs) && n < |xs|
    ensures CooledDown(cfg, xs, acts, n) <==>
              states[n].lastLaunch.None? || xs[n].now - states[n].lastLaunch.value >= cfg.cooldown
  {
    forall i | 0 <= i < n && acts[i].Launched?
      ensures states[n].lastLaunch.Some? && xs[i].now <= states[n].lastLaunch.value
    {
      LastLaunchIsLatest(cfg, pid, xs, states, acts, i, n);
    }
    if states[n].lastLaunch.Some? {
      var i := LastLaunchWasALaunch(cfg, pid, xs, states, acts, n);
    }
  }

  /** A tick tries a launch exactly when one is due, succeeds exactly when the launcher does, and is marked as demand exactly from the floor up. */
  lemma LaunchesExactly(cfg: Config, pid: nat, xs: seq<Input>, states: seq<State>, acts: seq<Act>, n: nat)
    requires Runs(cfg, pid, xs, states, acts) && Monotone(xs) && n < |xs|
    ensures acts[n].Launched? || acts[n].LaunchFailed? <==> Due(cfg, xs, acts, n)
    ensures acts[n].Launched? ==> xs[n].launchOk && (acts[n].demand <==> Size(cfg, xs, acts, n) >= cfg.min)
    ensures acts[n].LaunchFailed? ==> !xs[n].launchOk
  {
    assert Ticked(cfg, pid, states[n], xs[n], states[n + 1], acts[n]);
    EffectiveIsSize(cfg, pid, xs, states, acts, n);
    CooledDownExactly(cfg, pid, xs, states, acts, n);
  }

  // ---- scale-down ------------------------------------------------------------

  /** A kept worker whose idle streak began at tick `j`, at least IdleTimeout ago. */
  ghost predicate Idle(cfg: Config, xs: seq<Input>, acts: seq<Act>, n: nat, id: string, j: nat)
    requires n < |xs| == |acts|
  {
    exists i :: 0 <= i < n && Kept(cfg, xs, acts, i, n, id) && Streak(xs, i, j, n, id)
                && xs[n].now - xs[j].now >= cfg.idleTimeout
  }

  lemma ReclaimableIsIdle(cfg: Config, pid: nat, xs: seq<Input>, states: seq<State>, acts: seq<Act>, n: nat, id: string)
    returns (j: nat)
    requires Runs(cfg, pid, xs, states, acts) && Monotone(xs) && n < |xs|
    requires var managed := ReconcileAll(cfg, xs[n].now, xs[n].pool, states[n].managed);
             id in managed && Reclaimable(cfg, xs[n].now, managed[id])
    ensures j <= n && Idle(cfg, xs, acts, n, id, j)
    ensures xs[j].now == ReconcileAll(cfg, xs[n].now, xs[n].pool, states[n].managed)[id].idleSince.value
  {
    var i := ManagedWasKept(cfg, pid, xs, states, acts, n, id);
    ReconcileRemembers(cfg, xs, i, n, id, states[n].managed[id]);
    var m := ReconcileAll(cfg, xs[n].now, xs[n].pool, states[n].managed)[id];
    j :| Streak(xs, i, j, n, id) && xs[j].now == m.idleSince.value;
  }

  lemma IdleIsReclaimable(cfg: Config, pid: nat, xs: seq<Input>, states: seq<State>, acts: seq<Act>, n: nat, id: string, j: nat)
    requires Runs(cfg, pid, xs, states, acts) && Monotone(xs) && n < |xs| && j <= n && Idle(cfg, xs, acts, n, id, j)
    ensures var managed := ReconcileAll(cfg, xs[n].now, xs[n].pool, states[n].managed);
            id in managed && Reclaimable(cfg, xs[n].now, managed[id]) && managed[id].idleSince.value <= xs[j].now
  {
    var i :| 0 <= i < n && Kept(cfg, xs, acts, i, n, id) && Streak(xs, i, j, n, id) && xs[n].now - xs[j].now >= cfg.idleTimeout;
    KeptIsManaged(cfg, pid, xs, states, acts, i, n, id);
    ReconcileRemembers(cfg, xs, i, n, id, states[n].managed[id]);
    assert IdleSeen(xs[n], id);
    RegisteredGrows(xs, i, n, id);
    assert !Lost(cfg, xs, i, n, id);
  }

  /** A worker is to be stopped at tick `n`: no launch is due, nothing is queued, the pool is above the floor and not saturated, and some worker is idle. */
  ghost predicate Excess(cfg: Config, xs: seq<Input>, acts: seq<Act>, n: nat)
    requires n < |xs| == |acts|
  {
    && !Due(cfg, xs, acts, n) && xs[n].queue == 0 && Size(cfg, xs, acts, n) > cfg.min
    && !(Capacity(xs[n].pool) > 0 && ActiveTasks(xs[n].pool) >= Capacity(xs[n].pool))
    && exists id, j: nat :: j <= n && Idle(cfg, xs, acts, n, id, j)
  }

  lemma ExcessExactly(cfg: Config, pid: nat, xs: seq<Input>, states: seq<State>, acts: seq<Act>, n: nat)
    requires Runs(cfg, pid, xs, states, acts) && Monotone(xs) && n < |xs|
    ensures var managed := ReconcileAll(cfg, xs[n].now, xs[n].pool, states[n].managed);
            (exists w :: w in managed && Reclaimable(cfg, xs[n].now, managed[w])) <==>
            exists id, j: nat :: j <= n && Idle(cfg, xs, acts, n, id, j)
  {
    var managed := ReconcileAll(cfg, xs[n].now, xs[n].pool, states[n].managed);
    if w :| w in managed && Reclaimable(cfg, xs[n].now, managed[w]) {
      var j := ReclaimableIsIdle(cfg, pid, xs, states, acts, n, w);
    }
    if id, j: nat :| j <= n && Idle(cfg, xs, acts, n, id, j) {
      IdleIsReclaimable(cfg, pid, xs, states, acts, n, id, j);
    }
  }

  /** A tick tries to stop a worker exactly when there is one too many, and succeeds exactly when the launcher does. */
  lemma StopsExactly(cfg: Config, pid: nat, xs: seq<Input>, states: seq<State>, acts: seq<Act>, n: nat)
    requires Runs(cfg, pid, xs, states, acts) && Monotone(xs) && n < |xs|
    ensures acts[n].Stopped? || acts[n].StopFailed? <==> Excess(cfg, xs, acts, n)
    ensures acts[n].Stopped? ==> xs[n].stopOk
    ensures acts[n].StopFailed? ==> !xs[n].stopOk
  {
    assert Ticked(cfg, pid, states[n], xs[n], states[n + 1], acts[n]);
    EffectiveIsSize(cfg, pid, xs, states, acts, n);
    LaunchesExactly(cfg, pid, xs, states, acts, n);
    ExcessExactly(cfg, pid, xs, states, acts, n);
  }

  /** The worker it picks has been idle at least as long as every other. */
  lemma StopsTheLongestIdle(cfg: Config, pid: nat, xs: seq<Input>, states: seq<State>, acts: seq<Act>, n: nat)
    returns (j: nat)
    requires Runs(cfg, pid, xs, states, acts) && Monotone(xs) && n < |xs|
    requires acts[n].Stopped? || acts[n].StopFailed?
    ensures j <= n && Idle(cfg, xs, acts, n, acts[n].id, j)
    ensures forall id, k: nat :: k <= n && Idle(cfg, xs, acts, n, id, k) ==> xs[j].now <= xs[k].now
  {
    assert Ticked(cfg, pid, states[n], xs[n], states[n + 1], acts[n]);
    j := ReclaimableIsIdle(cfg, pid, xs, states, acts, n, acts[n].id);
    forall id, k: nat | k <= n && Idle(cfg, xs, acts, n, id, k)
      ensures xs[j].now <= xs[k].now
    {
      IdleIsReclaimable(cfg, pid, xs, states, acts, n, id, k);
    }
  }
}
