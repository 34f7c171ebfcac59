/**
 Autoscaler (orchestrator/autoscaler.go): the policy loop with an explicit
 clock, a pool snapshot per tick and a launcher that may fail. Map iteration
 order is free, so a tick is a relation; the class is one way to meet it.
 */
module Autoscaler {
  import opened Decimal
  import opened Jobs
  import opened Sets
  import opened WorkerPool

  datatype Config = Config(
    min: int, max: int, queueThreshold: int, idleTimeout: int, cooldown: int, registerTimeout: int)

  datatype Managed = Managed(launchedAt: int, registered: bool, idleSince: Option<int>)

  /** One evaluation: the clock, the pool snapshot, the queue depth, and what the launcher would answer. */
  datatype Input = Input(now: int, pool: map<string, Worker>, queue: int, launchOk: bool, stopOk: bool)

  datatype Act =
    | Launched(id: string, demand: bool)
    | LaunchFailed(id: string)
    | Stopped(id: string)
    | StopFailed(id: string)
    | Rest

  datatype State = State(managed: map<string, Managed>, lastLaunch: Option<int>, issued: nat)

  const INIT := State(map[], None, 0)

  // ---- worker names ----------------------------------------------------------

  function Name(pid: nat, k: nat): string {
    "autoscale-" + Itoa(pid) + "-" + Itoa(k)
  }

  lemma NameInjective(pid: nat, a: nat, b: nat)
    requires Name(pid, a) == Name(pid, b)
    ensures a == b
  {
    var head := "autoscale-" + Itoa(pid) + "-";
    assert Name(pid, a)[|head|..] == Itoa(a) && Name(pid, b)[|head|..] == Itoa(b);
    ItoaInjective(a, b);
  }

  // ---- counting --------------------------------------------------------------

  ghost function Sum(keys: set<string>, f: string -> int): int {
    if keys == {} then 0 else
    var k :| k in keys;
    f(k) + Sum(keys - {k}, f)
  }

  lemma {:induction false} SumTakes(keys: set<string>, f: string -> int, k: string)
    requires k in keys
    ensures Sum(keys, f) == f(k) + Sum(keys - {k}, f)
  {
    var m :| m in keys && Sum(keys, f) == f(m) + Sum(keys - {m}, f);
    if m != k {
      SumTakes(keys - {m}, f, k);
      SumTakes(keys - {k}, f, m);
      assert keys - {m} - {k} == keys - {k} - {m};
    }
  }

  ghost function Capacity(pool: map<string, Worker>): int {
    Sum(AliveIn(pool), id => if id in pool then pool[id].capacity else 0)
  }

  ghost function ActiveTasks(pool: map<string, Worker>): int {
    Sum(AliveIn(pool), id => if id in pool then pool[id].activeTasks else 0)
  }

  ghost predicate Saturated(pool: map<string, Worker>) {
    Capacity(pool) > 0 && ActiveTasks(pool) >= Capacity(pool)
  }

  ghost function PendingIn(managed: map<string, Managed>): set<string> {
    set id | id in managed && !managed[id].registered
  }

  /** Alive workers plus launches that have not registered. */
  ghost function Effective(managed: map<string, Managed>, pool: map<string, Worker>): nat {
    |AliveIn(pool)| + |PendingIn(managed)|
  }

  // ---- one tick --------------------------------------------------------------

  /** reconcile on one managed worker; None when it is given up. */
  function Reconcile(cfg: Config, now: int, pool: map<string, Worker>, id: string, m: Managed): Option<Managed> {
    if !m.registered then
      if id in pool then Some(m.(registered := true))
      else if now - m.launchedAt > cfg.registerTimeout then None
      else Some(m)
    else if id !in pool || !pool[id].alive then None
    else if pool[id].activeTasks > 0 then Some(m.(idleSince := None))
    else if m.idleSince.None? then Some(m.(idleSince := Some(now)))
    else Some(m)
  }

  function ReconcileAll(cfg: Config, now: int, pool: map<string, Worker>, managed: map<string, Managed>): map<string, Managed> {
    map id | id in managed && Reconcile(cfg, now, pool, id, managed[id]).Some? :: Reconcile(cfg, now, pool, id, managed[id]).value
  }

  /** The workers reconcile stops and forgets. */
  ghost function GivenUp(cfg: Config, now: int, pool: map<string, Worker>, managed: map<string, Managed>): set<string> {
    set id | id in managed && Reconcile(cfg, now, pool, id, managed[id]).None?
  }

  predicate Reclaimable(cfg: Config, now: int, m: Managed) {
    m.registered && m.idleSince.Some? && now - m.idleSince.value >= cfg.idleTimeout
  }

  ghost predicate LongestIdle(cfg: Config, now: int, managed: map<string, Managed>, id: string) {
    && id in managed && Reclaimable(cfg, now, managed[id])
    && forall x :: x in managed && Reclaimable(cfg, now, managed[x]) ==> managed[id].idleSince.value <= managed[x].idleSince.value
  }

  /** Why a launch happens, if one does: Some(false) below the floor, Some(true) on demand. */
  ghost function Wanted(cfg: Config, s: State, managed: map<string, Managed>, x: Input): Option<bool> {
    if Effective(managed, x.pool) < cfg.min then Some(false)
    else if (x.queue >= cfg.queueThreshold || Saturated(x.pool)) && Effective(managed, x.pool) < cfg.max
            && (s.lastLaunch.None? || x.now - s.lastLaunch.value >= cfg.cooldown) then Some(true)
    else None
  }

  ghost predicate Shrinks(cfg: Config, managed: map<string, Managed>, x: Input) {
    x.queue == 0 && !Saturated(x.pool) && Effective(managed, x.pool) > cfg.min
  }

  /** The tick as a relation: next state and what the launcher was told. */
  ghost predicate Ticked(cfg: Config, pid: nat, s: State, x: Input, s': State, act: Act) {
    var managed := ReconcileAll(cfg, x.now, x.pool, s.managed);
    var id := Name(pid, s.issued + 1);
    match Wanted(cfg, s, managed, x)
    case Some(demand) =>
      if x.launchOk
      then act == Launched(id, demand) && s' == State(managed[id := Managed(x.now, false, None)], Some(x.now), s.issued + 1)
      else act == LaunchFailed(id) && s' == State(managed, s.lastLaunch, s.issued + 1)
    case None =>
      || (act.Rest? && s' == s.(managed := managed)
          && !(Shrinks(cfg, managed, x) && exists w :: w in managed && Reclaimable(cfg, x.now, managed[w])))
      || (act.Stopped? && x.stopOk && Shrinks(cfg, managed, x) && LongestIdle(cfg, x.now, managed, act.id)
          && s' == s.(managed := managed - {act.id}))
      || (act.StopFailed? && !x.stopOk && Shrinks(cfg, managed, x) && LongestIdle(cfg, x.now, managed, act.id)
          && s' == s.(managed := managed))
  }

  /** A run of ticks from the start: inputs, the states between them, and the acts. */
  ghost predicate Runs(cfg: Config, pid: nat, xs: seq<Input>, states: seq<State>, acts: seq<Act>) {
    && cfg.min <= cfg.max
    && |states| == |xs| + 1 == |acts| + 1
    && states[0] == INIT
    && forall i :: 0 <= i < |xs| ==> Ticked(cfg, pid, states[i], xs[i], states[i + 1], acts[i])
  }

  class Autoscaler {
    const cfg: Config
    const pid: nat
    var managed: map<string, Managed>
    var lastLaunch: Option<int>
    var issued: nat

    ghost predicate Valid()
      reads this
    {
      && cfg.min <= cfg.max && 1 <= cfg.queueThreshold
      && forall id :: id in managed ==> id != ""
    }

    function View(): State
      reads this
    {
      State(managed, lastLaunch, issued)
    }

    constructor (cfg: Config, pid: nat)
      ensures Valid() && View() == INIT && this.pid == pid
      ensures this.cfg == cfg.(queueThreshold := if cfg.queueThreshold < 1 then 1 else cfg.queueThreshold,
                               max := if cfg.max < cfg.min then cfg.min else cfg.max)
    {
      var c := cfg;
      if c.queueThreshold < 1 {
        c := c.(queueThreshold := 1);
      }
      if c.max < c.min {
        c := c.(max := c.min);
      }
      this.cfg, this.pid := c, pid;
      managed, lastLaunch, issued := map[], None, 0;
    }

    /** `stopped` are the workers the launcher was told to clean up: exactly those given up. */
    method ReconcileManaged(now: int, pool: map<string, Worker>) returns (stopped: set<string>)
      requires Valid()
      modifies this`managed
      ensures Valid()
      ensures managed == ReconcileAll(cfg, now, pool, old(managed))
      ensures stopped == GivenUp(cfg, now, pool, old(managed))
    {
      stopped := {};
      var rest := managed.Keys;
      while rest != {}
        invariant rest <= old(managed).Keys && managed.Keys <= old(managed).Keys
        invariant forall id :: id in rest ==> id in managed && managed[id] == old(managed)[id]
        invariant forall id :: id in old(managed) && id !in rest ==>
                    var r := Reconcile(cfg, now, pool, id, old(managed)[id]);
                    if r.Some? then id in managed && managed[id] == r.value else id !in managed
        invariant forall id :: id in stopped <==> id in old(managed) && id !in rest && Reconcile(cfg, now, pool, id, old(managed)[id]).None?
        decreases rest
      {
        var id :| id in rest;
        rest := rest - {id};
        var m := managed[id];
        if !m.registered {
          if id in pool {
            managed := managed[id := m.(registered := true)];
          } else if now - m.launchedAt > cfg.registerTimeout {
            stopped, managed := stopped + {id}, managed - {id};
          }
        } else if id !in pool || !pool[id].alive {
          stopped, managed := stopped + {id}, managed - {id};
        } else if pool[id].activeTasks > 0 {
          managed := managed[id := m.(idleSince := None)];
        } else if m.idleSince.None? {
          managed := managed[id := m.(idleSince := Some(now))];
        }
      }
    }

    method PickIdle(now: int) returns (best: string)
      requires Valid()
      ensures best == "" <==> forall id :: id in managed ==> !Reclaimable(cfg, now, managed[id])
      ensures best != "" ==> LongestIdle(cfg, now, managed, best)
    {
      best := "";
      var rest := managed.Keys;
      while rest != {}
        invariant rest <= managed.Keys
        invariant best == "" <==> forall id :: id in managed && id !in rest ==> !Reclaimable(cfg, now, managed[id])
        invariant best != "" ==>
                    && best in managed && Reclaimable(cfg, now, managed[best])
                    && forall x :: x in managed && x !in rest && Reclaimable(cfg, now, managed[x]) ==>
                         managed[best].idleSince.value <= managed[x].idleSince.value
        decreases rest
      {
        var id :| id in rest;
        rest := rest - {id};
        var m := managed[id];
        if m.registered && m.idleSince.Some? && now - m.idleSince.value >= cfg.idleTimeout {
          if best == "" || m.idleSince.value < managed[best].idleSince.value {
            best := id;
          }
        }
      }
    }

    method Launch(now: int, demand: bool, ok: bool) returns (act: Act)
      requires Valid()
      modifies this
      ensures Valid() && issued == old(issued) + 1
      ensures ok ==> act == Launched(Name(pid, issued), demand) && lastLaunch == Some(now)
                     && managed == old(managed)[Name(pid, issued) := Managed(now, false, None)]
      ensures !ok ==> act == LaunchFailed(Name(pid, issued)) && managed == old(managed) && lastLaunch == old(lastLaunch)
    {
      issued := issued + 1;
      var id := Name(pid, issued);
      if !ok {
        return LaunchFailed(id);
      }
      managed := managed[id := Managed(now, false, None)];
      lastLaunch := Some(now);
      act := Launched(id, demand);
    }

    /** The three counters of tick, over one snapshot. */
    static method Count(pool: map<string, Worker>) returns (alive: nat, capacity: int, active: int)
      ensures alive == |AliveIn(pool)| && capacity == Capacity(pool) && active == ActiveTasks(pool)
    {
      alive, capacity, active := 0, 0, 0;
      var rest := pool.Keys;
      ghost var left := AliveIn(pool);
      ghost var cap := id => if id in pool then pool[id].capacity else 0;
      ghost var act := id => if id in pool then pool[id].activeTasks else 0;
      while rest != {}
        invariant rest <= pool.Keys
        invariant left == set id | id in rest && pool[id].alive
        invariant alive + |left| == |AliveIn(pool)|
        invariant capacity + Sum(left, cap) == Capacity(pool)
        invariant active + Sum(left, act) == ActiveTasks(pool)
        decreases rest
      {
        var id :| id in rest;
        rest := rest - {id};
        if pool[id].alive {
          SumTakes(left, cap, id);
          SumTakes(left, act, id);
          left := left - {id};
          alive, capacity, active := alive + 1, capacity + pool[id].capacity, active + pool[id].activeTasks;
        }
      }
      assert left == {};
    }

    static method CountPending(managed: map<string, Managed>) returns (pending: nat)
      ensures pending == |PendingIn(managed)|
    {
      pending := 0;
      var rest := managed.Keys;
      ghost var left := PendingIn(managed);
      while rest != {}
        invariant rest <= managed.Keys
        invariant left == set id | id in rest && !managed[id].registered
        invariant pending + |left| == |PendingIn(managed)|
        decreases rest
      {
        var id :| id in rest;
        rest := rest - {id};
        if !managed[id].registered {
          left := left - {id};
          pending := pending + 1;
        }
      }
      assert left == {};
    }

    method Tick(x: Input) returns (act: Act, stopped: set<string>)
      requires Valid()
      modifies this
      ensures Valid()
      ensures Ticked(cfg, pid, old(View()), x, View(), act)
      ensures stopped == GivenUp(cfg, x.now, x.pool, old(managed))
    {
      stopped := ReconcileManaged(x.now, x.pool);
      var alive, capacity, active := Count(x.pool);
      var pending := CountPending(managed);
      var effective := alive + pending;
      if effective < cfg.min {
        act := Launch(x.now, false, x.launchOk);
        return;
      }
      var saturated := capacity > 0 && active >= capacity;
      if (x.queue >= cfg.queueThreshold || saturated) && effective < cfg.max
         && (lastLaunch.None? || x.now - lastLaunch.value >= cfg.cooldown) {
        act := Launch(x.now, true, x.launchOk);
        return;
      }
      act := Rest;
      if x.queue == 0 && !saturated && effective > cfg.min {
        var id := PickIdle(x.now);
        if id != "" {
          if !x.stopOk {
            return StopFailed(id), stopped;
          }
          managed := managed - {id};
          act := Stopped(id);
        }
      }
    }

    /** Run: one tick after another, on whatever each of them finds. */
    method Run(xs: seq<Input>) returns (acts: seq<Act>, ghost states: seq<State>)
      requires Valid() && View() == INIT
      modifies this
      ensures Valid() && Runs(cfg, pid, xs, states, acts) && View() == states[|xs|]
    {
      acts, states := [], [View()];
      for n := 0 to |xs|
        invariant Valid() && |acts| == n && |states| == n + 1
        invariant states[0] == INIT && states[n] == View()
        invariant forall i :: 0 <= i < n ==> Ticked(cfg, pid, states[i], xs[i], states[i + 1], acts[i])
      {
        var act, _ := Tick(xs[n]);
        acts, states := acts + [act], states + [View()];
      }
    }
  }

  // ---- runs ------------------------------------------------------------------

  ghost predicate Monotone(xs: seq<Input>) {
    forall i, j :: 0 <= i < j < |xs| ==> xs[i].now <= xs[j].now
  }

  ghost predicate IdleSeen(x: Input, id: string) {
    id in x.pool && x.pool[id].alive && x.pool[id].activeTasks <= 0
  }

  lemma {:induction false} UnregisteredNotIdle(cfg: Config, pid: nat, xs: seq<Input>, states: seq<State>, acts: seq<Act>, n: nat, id: string)
    requires Runs(cfg, pid, xs, states, acts) && n < |states| && id in states[n].managed
    ensures !states[n].managed[id].registered ==> states[n].managed[id].idleSince.None?
  {
    if n > 0 {
      assert Ticked(cfg, pid, states[n - 1], xs[n - 1], states[n], acts[n - 1]);
      if id in states[n - 1].managed {
        UnregisteredNotIdle(cfg, pid, xs, states, acts, n - 1, id);
      }
    }
  }

  /** An idle mark was set at some tick, and the worker was seen alive and idle at every tick since. */
  lemma {:induction false} IdleSince(cfg: Config, pid: nat, xs: seq<Input>, states: seq<State>, acts: seq<Act>, n: nat, id: string)
    returns (j: nat)
    requires Runs(cfg, pid, xs, states, acts) && n < |xs|
    requires var managed := ReconcileAll(cfg, xs[n].now, xs[n].pool, states[n].managed);
             id in managed && managed[id].idleSince.Some?
    ensures j <= n
    ensures xs[j].now == ReconcileAll(cfg, xs[n].now, xs[n].pool, states[n].managed)[id].idleSince.value
    ensures forall i :: j <= i <= n ==> IdleSeen(xs[i], id)
  {
    UnregisteredNotIdle(cfg, pid, xs, states, acts, n, id);
    if states[n].managed[id].idleSince.None? {
      j := n;
    } else {
      assert Ticked(cfg, pid, states[n - 1], xs[n - 1], states[n], acts[n - 1]);
      j := IdleSince(cfg, pid, xs, states, acts, n - 1, id);
    }
  }

  /** Whatever is managed was launched here, at an earlier tick. */
  lemma {:induction false} ManagedWasLaunched(cfg: Config, pid: nat, xs: seq<Input>, states: seq<State>, acts: seq<Act>, n: nat, id: string)
    returns (i: nat)
    requires Runs(cfg, pid, xs, states, acts) && n < |states| && id in states[n].managed
    ensures i < n && acts[i].Launched? && acts[i].id == id
  {
    assert Ticked(cfg, pid, states[n - 1], xs[n - 1], states[n], acts[n - 1]);
    if acts[n - 1].Launched? && acts[n - 1].id == id {
      i := n - 1;
    } else {
      i := ManagedWasLaunched(cfg, pid, xs, states, acts, n - 1, id);
    }
  }

  /**
   Scale-down stops only a worker launched here that every tick over at least
   IdleTimeout saw alive with nothing to do, with nothing queued, and never
   takes the pool below Min.
   */
  lemma StopsOnlyIdleWorkers(cfg: Config, pid: nat, xs: seq<Input>, states: seq<State>, acts: seq<Act>, n: nat)
    returns (j: nat, launch: nat)
    requires Runs(cfg, pid, xs, states, acts) && n < |xs|
    requires acts[n].Stopped? || acts[n].StopFailed?
    ensures j <= n && xs[n].now - xs[j].now >= cfg.idleTimeout
    ensures forall i :: j <= i <= n ==> IdleSeen(xs[i], acts[n].id)
    ensures launch < n && acts[launch].Launched? && acts[launch].id == acts[n].id
    ensures xs[n].queue == 0
    ensures Effective(ReconcileAll(cfg, xs[n].now, xs[n].pool, states[n].managed), xs[n].pool) - 1 >= cfg.min
  {
    assert Ticked(cfg, pid, states[n], xs[n], states[n + 1], acts[n]);
    j := IdleSince(cfg, pid, xs, states, acts, n, acts[n].id);
    launch := ManagedWasLaunched(cfg, pid, xs, states, acts, n, acts[n].id);
  }

  /** And the clean-up hits only a self-launched worker that never registered in time, or was registered and is gone or dead. */
  lemma CleansUpOnlyLostWorkers(cfg: Config, pid: nat, xs: seq<Input>, states: seq<State>, acts: seq<Act>, n: nat, id: string)
    returns (launch: nat)
    requires Runs(cfg, pid, xs, states, acts) && n < |xs|
    requires id in GivenUp(cfg, xs[n].now, xs[n].pool, states[n].managed)
    ensures launch < n && acts[launch].Launched? && acts[launch].id == id
    ensures id !in xs[n].pool || !xs[n].pool[id].alive
    ensures !states[n].managed[id].registered ==>
              id !in xs[n].pool && xs[n].now - states[n].managed[id].launchedAt > cfg.registerTimeout
  {
    launch := ManagedWasLaunched(cfg, pid, xs, states, acts, n, id);
  }

  lemma {:induction false} LastLaunchIsLatest(cfg: Config, pid: nat, xs: seq<Input>, states: seq<State>, acts: seq<Act>, i: nat, n: nat)
    requires Runs(cfg, pid, xs, states, acts) && Monotone(xs)
    requires i < n < |states| && acts[i].Launched?
    ensures states[n].lastLaunch.Some? && xs[i].now <= states[n].lastLaunch.value
  {
    assert Ticked(cfg, pid, states[n - 1], xs[n - 1], states[n], acts[n - 1]);
    if i < n - 1 {
      LastLaunchIsLatest(cfg, pid, xs, states, acts, i, n - 1);
    }
  }

  /** A demand launch comes at least Cooldown after every launch before it. */
  lemma DemandRespectsCooldown(cfg: Config, pid: nat, xs: seq<Input>, states: seq<State>, acts: seq<Act>, i: nat, n: nat)
    requires Runs(cfg, pid, xs, states, acts) && Monotone(xs)
    requires i < n < |xs| && acts[i].Launched? && acts[n].Launched? && acts[n].demand
    ensures xs[n].now - xs[i].now >= cfg.cooldown
  {
    LastLaunchIsLatest(cfg, pid, xs, states, acts, i, n);
    assert Ticked(cfg, pid, states[n], xs[n], states[n + 1], acts[n]);
  }

  lemma {:induction false} IssuedGrows(cfg: Config, pid: nat, xs: seq<Input>, states: seq<State>, acts: seq<Act>, i: nat, n: nat)
    requires Runs(cfg, pid, xs, states, acts) && i <= n < |states|
    ensures states[i].issued <= states[n].issued
  {
    if i < n {
      IssuedGrows(cfg, pid, xs, states, acts, i, n - 1);
      assert Ticked(cfg, pid, states[n - 1], xs[n - 1], states[n], acts[n - 1]);
    }
  }

  /** No worker id is used twice, failed launches included. */
  lemma IdsNeverRepeat(cfg: Config, pid: nat, xs: seq<Input>, states: seq<State>, acts: seq<Act>, i: nat, n: nat)
    requires Runs(cfg, pid, xs, states, acts) && i < n < |xs|
    requires (acts[i].Launched? || acts[i].LaunchFailed?) && (acts[n].Launched? || acts[n].LaunchFailed?)
    ensures acts[i].id != acts[n].id
  {
    assert Ticked(cfg, pid, states[i], xs[i], states[i + 1], acts[i]);
    assert Ticked(cfg, pid, states[n], xs[n], states[n + 1], acts[n]);
    IssuedGrows(cfg, pid, xs, states, acts, i + 1, n);
    if acts[i].id == acts[n].id {
      NameInjective(pid, states[i].issued + 1, states[n].issued + 1);
    }
  }

  // ---- the ceiling -----------------------------------------------------------

  /** Every launched worker that shows up in the pool for the first time is alive then. */
  ghost predicate NoneDeadOnArrival(s: State, x: Input) {
    forall id :: id in s.managed && !s.managed[id].registered && id in x.pool ==> x.pool[id].alive
  }

  /** Launched workers that show up for the first time and are dead. */
  ghost function ArrivedDead(s: State, x: Input): set<string> {
    set id | id in s.managed && !s.managed[id].registered && id in x.pool && !x.pool[id].alive
  }

  /** Alive workers launched by someone else. */
  ghost function Foreign(s: State, x: Input): set<string> {
    AliveIn(x.pool) - s.managed.Keys
  }

  /** A managed worker is alive, pending, or dead on arrival. */
  ghost predicate Parts(managed: set<string>, before: set<string>, alive: set<string>, pending: set<string>, dead: set<string>) {
    && managed == alive * managed + pending + dead
    && pending !! dead && alive !! pending && alive !! dead
    && alive * managed == alive * before
  }

  lemma PartsOfManaged(cfg: Config, s: State, x: Input)
    ensures var managed := ReconcileAll(cfg, x.now, x.pool, s.managed);
            Parts(managed.Keys, s.managed.Keys, AliveIn(x.pool), PendingIn(managed), ArrivedDead(s, x))
  {
  }

  lemma CountParts(managed: set<string>, before: set<string>, alive: set<string>, pending: set<string>, dead: set<string>)
    requires Parts(managed, before, alive, pending, dead)
    ensures |alive| + |pending| == |managed| - |dead| + |alive - before|
  {
    var ours := alive * managed;
    assert alive == ours + (alive - before);
    assert ours !! (alive - before);
    assert |managed| == |ours + pending| + |dead|;
  }

  /** What tick counts against Max: the managed workers, less those that arrived dead, plus the foreign ones. */
  lemma EffectiveCounts(cfg: Config, s: State, x: Input)
    ensures var managed := ReconcileAll(cfg, x.now, x.pool, s.managed);
            Effective(managed, x.pool) == |managed| - |ArrivedDead(s, x)| + |Foreign(s, x)|
  {
    var managed := ReconcileAll(cfg, x.now, x.pool, s.managed);
    PartsOfManaged(cfg, s, x);
    CountParts(managed.Keys, s.managed.Keys, AliveIn(x.pool), PendingIn(managed), ArrivedDead(s, x));
    assert |managed| == |managed.Keys|;
  }

  lemma ManagedWithinEffective(cfg: Config, s: State, x: Input)
    requires NoneDeadOnArrival(s, x)
    ensures var managed := ReconcileAll(cfg, x.now, x.pool, s.managed);
            |managed| <= Effective(managed, x.pool)
  {
    EffectiveCounts(cfg, s, x);
    assert ArrivedDead(s, x) == {};
  }

  lemma ReconcileShrinks(cfg: Config, now: int, pool: map<string, Worker>, managed: map<string, Managed>)
    ensures |ReconcileAll(cfg, now, pool, managed)| <= |managed|
  {
    SubsetSize(ReconcileAll(cfg, now, pool, managed).Keys, managed.Keys);
    assert |ReconcileAll(cfg, now, pool, managed)| == |ReconcileAll(cfg, now, pool, managed).Keys|;
  }

  /** The managed count never exceeds Max, if no worker is dead when first seen. */
  lemma {:induction false} ManagedNeverExceedsMax(cfg: Config, pid: nat, xs: seq<Input>, states: seq<State>, acts: seq<Act>, n: nat)
    requires Runs(cfg, pid, xs, states, acts) && n < |states| && 0 <= cfg.max
    requires forall i :: 0 <= i < n ==> NoneDeadOnArrival(states[i], xs[i])
    ensures |states[n].managed| <= cfg.max
  {
    if n > 0 {
      var s, x := states[n - 1], xs[n - 1];
      ManagedNeverExceedsMax(cfg, pid, xs, states, acts, n - 1);
      assert Ticked(cfg, pid, s, x, states[n], acts[n - 1]);
      ManagedWithinEffective(cfg, s, x);
      ReconcileShrinks(cfg, x.now, x.pool, s.managed);
    }
  }

  /** Exactly when a tick goes past Max: it launches with Max workers managed, of which more arrived dead than foreign ones are alive. */
  lemma ExceedsMaxExactly(cfg: Config, pid: nat, xs: seq<Input>, states: seq<State>, acts: seq<Act>, n: nat)
    requires Runs(cfg, pid, xs, states, acts) && n < |xs| && |states[n].managed| <= cfg.max
    ensures var managed := ReconcileAll(cfg, xs[n].now, xs[n].pool, states[n].managed);
            |states[n + 1].managed| > cfg.max <==>
              && xs[n].launchOk && Wanted(cfg, states[n], managed, xs[n]).Some? && |managed| == cfg.max
              && |ArrivedDead(states[n], xs[n])| > |Foreign(states[n], xs[n])|
  {
    var s, x := states[n], xs[n];
    assert Ticked(cfg, pid, s, x, states[n + 1], acts[n]);
    ReconcileShrinks(cfg, x.now, x.pool, s.managed);
    EffectiveCounts(cfg, s, x);
    if acts[n].Launched? && acts[n].id in s.managed {
      var i := ManagedWasLaunched(cfg, pid, xs, states, acts, n, acts[n].id);
      IdsNeverRepeat(cfg, pid, xs, states, acts, i, n);
    }
  }

  /** And it does happen: a worker that registered and died between two ticks is counted nowhere for one tick. */
  lemma MaxCanBeExceeded() returns (cfg: Config, xs: seq<Input>, states: seq<State>, acts: seq<Act>)
    ensures Runs(cfg, 1, xs, states, acts) && Monotone(xs)
    ensures |states[|xs|].managed| > cfg.max == 1
  {
    cfg := Config(0, 1, 1, 30, 0, 15);
    var a, b := Name(1, 1), Name(1, 2);
    if a == b {
      NameInjective(1, 1, 2);
    }
    var dead := Worker(a, "", 1, 0, 0, 0, false);
    var x0 := Input(0, map[], 1, true, true);
    var x1 := Input(1, map[a := dead], 1, true, true);
    var s1 := State(map[a := Managed(0, false, None)], Some(0), 1);
    var managed := ReconcileAll(cfg, 1, x1.pool, s1.managed);
    assert managed == map[a := Managed(0, true, None)];
    var s2 := State(managed[b := Managed(1, false, None)], Some(1), 2);
    xs, states, acts := [x0, x1], [INIT, s1, s2], [Launched(a, true), Launched(b, true)];
    assert ReconcileAll(cfg, 0, x0.pool, INIT.managed) == map[];
    assert AliveIn(x0.pool) == {} && PendingIn(map[]) == {};
    assert Ticked(cfg, 1, INIT, x0, s1, acts[0]);
    assert AliveIn(x1.pool) == {} && PendingIn(managed) == {};
    assert Ticked(cfg, 1, s1, x1, s2, acts[1]);
    assert s2.managed.Keys == {a, b};
    assert |s2.managed| == |s2.managed.Keys| == 2;
  }
}
