/**
 What runs of the orchestrator's step system do, beyond what they keep: the
 drainer uses its attempts and does what Dispatch does, the queue is first in
 first out, a sweep visits all it found, and nobody is ever stuck
 (orchestrator/server.go, orchestrator/scheduler.go).
 */
module LifecycleRuns {
  import opened Jobs
  import opened JobStore
  import opened Lifecycle
  import opened Mutators
  import opened Scheduler
  import opened Server
  import opened Sets
  import opened WorkerPool

  // ---- attempts --------------------------------------------------------------

  /** Passes over the workers that found none to take the job, since the drainer took it. */
  function Dry(run: seq<Action>): nat {
    if run == [] then 0 else
    var a := run[|run| - 1];
    if a.Take? || a.Crash? then 0 else Dry(run[..|run| - 1]) + if a.NoMoreWorkers? then 1 else 0
  }

  ghost predicate Counted(cfg: Config, d: Drainer, dry: nat) {
    match d
    case Loading(_, n) => dry == n - 1 && n <= cfg.maxAttempts
    case Choosing(_, n, _) => dry == n - 1 && n <= cfg.maxAttempts
    case Marking(_, n, _, _) => dry == n - 1 && n <= cfg.maxAttempts
    case Sending(_, n, _) => dry == n - 1 && n <= cfg.maxAttempts
    case Reverting(_, n, _) => dry == n - 1 && n <= cfg.maxAttempts
    case Sleeping(_, n) => dry == n < cfg.maxAttempts
    case Failing(_, why) => why.Exhausted? ==> dry == cfg.maxAttempts
    case _ => true
  }

  lemma DrainCounts(cfg: Config, s: System, a: Action, dry: nat)
    requires 1 <= cfg.maxAttempts && Counted(cfg, s.drainer, dry) && Drain(cfg, s, a).Some?
    ensures Counted(cfg, Drain(cfg, s, a).value.drainer, if a.Take? then 0 else dry + if a.NoMoreWorkers? then 1 else 0)
  {
  }

  /** Who is not the drainer does not move it. */
  lemma OthersLeaveTheDrainer(cfg: Config, s: System, a: Action)
    requires Step(cfg, s, a).Some? && !a.Crash? && (s.phase.Recovering? || IsReaperAction(a) || IsClientAction(a))
    ensures Step(cfg, s, a).value.drainer == s.drainer && !a.Take? && !a.NoMoreWorkers?
  {
  }

  /** The drainer fails a job for want of a worker after exactly maxAttempts dry passes, and not before. */
  lemma {:induction false} AttemptsAreUsed(cfg: Config, run: seq<Action>)
    requires 1 <= cfg.maxAttempts && After(cfg, run).Some?
    ensures Counted(cfg, After(cfg, run).value.drainer, Dry(run))
  {
    if run != [] {
      var init, a := run[..|run| - 1], run[|run| - 1];
      var s := After(cfg, init).value;
      AttemptsAreUsed(cfg, init);
      if !a.Crash? {
        if s.phase.Recovering? || IsReaperAction(a) || IsClientAction(a) {
          OthersLeaveTheDrainer(cfg, s, a);
        } else {
          DrainCounts(cfg, s, a, Dry(init));
        }
      }
    }
  }

  // ---- first in, first out ---------------------------------------------------

  /** The jobs sent to the queue in this lifetime. */
  ghost function Enqueued(cfg: Config, run: seq<Action>): seq<string>
    requires After(cfg, run).Some?
  {
    if run == [] then [] else
    var init, a := run[..|run| - 1], run[|run| - 1];
    var s := After(cfg, init).value;
    match a
    case Crash(_) => []
    case InvokerEnqueue(job) => Enqueued(cfg, init) + [job]
    case ReaperEnqueue => Enqueued(cfg, init) + if s.reaper.Requeuing? then [s.reaper.job] else []
    case RecoverEnqueue => Enqueued(cfg, init) + if s.phase.Recovering? then HeldList(s.phase.held) else []
    case _ => Enqueued(cfg, init)
  }

  /** The jobs the drainer took in this lifetime. */
  ghost function Taken(cfg: Config, run: seq<Action>): seq<string>
    requires After(cfg, run).Some?
  {
    if run == [] then [] else
    var init, a := run[..|run| - 1], run[|run| - 1];
    if a.Crash? then []
    else if a.Take? && After(cfg, run).value.drainer.Loading? then Taken(cfg, init) + [After(cfg, run).value.drainer.job]
    else Taken(cfg, init)
  }

  lemma TakesTheFirst(cfg: Config, s: System)
    requires Step(cfg, s, Take).Some?
    ensures var s' := Step(cfg, s, Take).value;
            s'.drainer.Loading? && s'.drainer.attempt == 1 && s.queue == [s'.drainer.job] + s'.queue
  {
  }

  lemma OnlyEnqueuesTouchTheQueue(cfg: Config, s: System, a: Action)
    requires Step(cfg, s, a).Some? && !a.Take? && !a.Crash?
    ensures Step(cfg, s, a).value.queue == s.queue +
            match a
            case InvokerEnqueue(job) => [job]
            case ReaperEnqueue => (if s.reaper.Requeuing? then [s.reaper.job] else [])
            case RecoverEnqueue => (if s.phase.Recovering? then HeldList(s.phase.held) else [])
            case _ => []
  {
  }

  /** Jobs are taken in the order they were sent, none lost, none twice. */
  lemma {:induction false} FirstInFirstOut(cfg: Config, run: seq<Action>)
    requires After(cfg, run).Some?
    ensures Enqueued(cfg, run) == Taken(cfg, run) + After(cfg, run).value.queue
  {
    if run != [] {
      var init, a := run[..|run| - 1], run[|run| - 1];
      var s := After(cfg, init).value;
      FirstInFirstOut(cfg, init);
      if a.Take? {
        TakesTheFirst(cfg, s);
      } else if !a.Crash? {
        OnlyEnqueuesTouchTheQueue(cfg, s, a);
      }
    }
  }

  // ---- sweeps ----------------------------------------------------------------

  /** What the last sweep of this lifetime found. */
  function Found(run: seq<Action>): seq<string> {
    if run == [] then [] else
    var a := run[|run| - 1];
    if a.SweepWorker? then a.found else if a.Crash? then [] else Found(run[..|run| - 1])
  }

  /** The jobs the reaper has come to since. */
  ghost function Visited(cfg: Config, run: seq<Action>): seq<string>
    requires After(cfg, run).Some?
  {
    if run == [] then [] else
    var init, a := run[..|run| - 1], run[|run| - 1];
    if a.SweepWorker? || a.Crash? then []
    else Visited(cfg, init) + if a.ReapNext? then Target(After(cfg, init).value) else []
  }

  ghost function Target(s: System): seq<string> {
    if s.reaper.Scanning? && s.reaper.todo != [] then [s.reaper.todo[0]] else []
  }

  function ToVisit(r: Reaper): seq<string> {
    match r
    case Resting => []
    case Scanning(todo) => todo
    case Requeuing(_, todo) => todo
  }

  lemma OthersLeaveTheReaper(cfg: Config, s: System, a: Action)
    requires Step(cfg, s, a).Some? && !a.Crash? && !IsReaperAction(a)
    ensures Step(cfg, s, a).value.reaper == s.reaper
  {
  }

  lemma ReaperGoesOn(cfg: Config, s: System, a: Action)
    requires Step(cfg, s, a).Some? && !a.SweepWorker? && IsReaperAction(a)
    ensures a.ReapNext? ==> ToVisit(s.reaper) == Target(s) + ToVisit(Step(cfg, s, a).value.reaper)
    ensures !a.ReapNext? ==> ToVisit(s.reaper) == ToVisit(Step(cfg, s, a).value.reaper)
  {
  }

  /** A sweep lists exactly the jobs RUNNING on the dead worker and comes to each of them once, in order. */
  lemma {:induction false} SweepsVisitAll(cfg: Config, run: seq<Action>)
    requires After(cfg, run).Some?
    ensures Found(run) == Visited(cfg, run) + ToVisit(After(cfg, run).value.reaper)
    ensures run != [] && run[|run| - 1].SweepWorker? ==>
              Enumerates(Found(run), RunningOn(After(cfg, run).value.store.jobs, run[|run| - 1].worker))
  {
    if run != [] {
      var init, a := run[..|run| - 1], run[|run| - 1];
      var s := After(cfg, init).value;
      SweepsVisitAll(cfg, init);
      if IsReaperAction(a) && !a.SweepWorker? {
        ReaperGoesOn(cfg, s, a);
      } else if !a.Crash? && !a.SweepWorker? {
        OthersLeaveTheReaper(cfg, s, a);
      }
    }
  }

  /** A visited job is no longer RUNNING; if it was, it waits again exactly while it had a retry left, and else has FAILED. */
  lemma VisitsEndRunning(cfg: Config, s: System, now: int)
    requires !s.phase.Recovering? && Step(cfg, s, ReapNext(now)).Some?
    ensures s.reaper.Scanning? && s.reaper.todo != []
    ensures var s', job := Step(cfg, s, ReapNext(now)).value, s.reaper.todo[0];
            job in s.store.jobs ==>
              && job in s'.store.jobs && !s'.store.jobs[job].status.Running?
              && (s.store.jobs[job].status.Running? ==>
                    if s.store.jobs[job].retryCount < cfg.maxRetries
                    then s'.store.jobs[job].status.Pending? && s'.reaper.Requeuing? && s'.reaper.job == job
                    else s'.store.jobs[job].status.Failed? && s'.reaper.Scanning?)
  {
  }

  /** A report ends the job, and if it was live its result is the report's. */
  lemma ReportsFinish(cfg: Config, s: System, job: string, report: Mutator, now: int)
    requires Step(cfg, s, Action.Reported(job, report, now)).Some? && job in s.store.jobs
    ensures var s' := Step(cfg, s, Action.Reported(job, report, now)).value;
            && report.Report? && job in s'.store.jobs && Terminal(s'.store.jobs[job].status)
            && (!Terminal(s.store.jobs[job].status) ==>
                  ResultOf(s'.store.jobs[job]) == Mutators.Reported(report, s.store.jobs[job]))
  {
    if !Terminal(s.store.jobs[job].status) {
      ReportIsTheResult(report, s.store.jobs[job]);
    }
  }

  // ---- clients ---------------------------------------------------------------

  lemma DrainFrame(cfg: Config, s: System, a: Action)
    requires Drain(cfg, s, a).Some?
    ensures Drain(cfg, s, a).value.store.index == s.store.index && Drain(cfg, s, a).value.phase == s.phase
  {
  }

  lemma ReapFrame(cfg: Config, s: System, a: Action)
    requires ReapStep(cfg, s, a).Some?
    ensures ReapStep(cfg, s, a).value.store.index == s.store.index && ReapStep(cfg, s, a).value.phase == s.phase
  {
  }

  lemma ClientFrame(s: System, a: Action)
    requires ClientStep(s, a).Some?
    ensures !a.Invoke? ==> ClientStep(s, a).value.store.index == s.store.index
    ensures ClientStep(s, a).value.phase == if a.BeginShutdown? then Stopping else s.phase
  {
  }

  lemma RecoveryFrame(s: System, a: Action)
    requires s.phase.Recovering? && RecoveryStep(s, a).Some?
    ensures RecoveryStep(s, a).value.store.index == s.store.index && !RecoveryStep(s, a).value.phase.Stopping?
    ensures !a.BeginShutdown? && !a.Invoke?
  {
  }

  /** Only an invocation binds a key, only BeginShutdown begins to stop. */
  lemma StepFrame(cfg: Config, s: System, a: Action)
    requires Step(cfg, s, a).Some?
    ensures !a.Invoke? ==> Step(cfg, s, a).value.store.index == s.store.index
    ensures !a.Crash? ==> (Step(cfg, s, a).value.phase.Stopping? <==> s.phase.Stopping? || a.BeginShutdown?)
  {
    if !a.Crash? {
      if s.phase.Recovering? {
        RecoveryFrame(s, a);
      } else if IsReaperAction(a) {
        ReapFrame(cfg, s, a);
      } else if IsClientAction(a) {
        ClientFrame(s, a);
      } else {
        DrainFrame(cfg, s, a);
      }
    }
  }

  ghost predicate Used(run: seq<Action>, key: string) {
    exists i :: 0 <= i < |run| && run[i].Invoke? && run[i].key == key
  }

  lemma {:induction false} KeysWereUsed(cfg: Config, run: seq<Action>, key: string)
    requires After(cfg, run).Some?
    ensures key in After(cfg, run).value.store.index <==> key != "" && Used(run, key)
  {
    if run != [] {
      var init, a := run[..|run| - 1], run[|run| - 1];
      assert forall i :: 0 <= i < |init| ==> run[i] == init[i];
      assert Used(run, key) <==> Used(init, key) || (a.Invoke? && a.key == key);
      KeysWereUsed(cfg, init, key);
      if !a.Invoke? {
        StepFrame(cfg, After(cfg, init).value, a);
      }
    }
  }

  /** An invocation makes its job exactly when it has no key or no earlier one had it, over all lifetimes, and else changes nothing. */
  lemma InvokesExactly(cfg: Config, run: seq<Action>, rec: JobRecord, key: string)
    requires After(cfg, run + [Invoke(rec, key)]).Some?
    ensures After(cfg, run).Some?
    ensures var s, s' := After(cfg, run).value, After(cfg, run + [Invoke(rec, key)]).value;
            if key == "" || !Used(run, key)
            then s'.store.jobs == s.store.jobs[rec.id := rec] && s'.invoking == s.invoking + {rec.id} && rec.id !in s.store.jobs
            else s' == s
  {
    assert (run + [Invoke(rec, key)])[..|run|] == run;
    KeysWereUsed(cfg, run, key);
  }

  /** BeginShutdown was called in this lifetime. */
  predicate ShutDown(run: seq<Action>) {
    run != [] && !run[|run| - 1].Crash? && (run[|run| - 1].BeginShutdown? || ShutDown(run[..|run| - 1]))
  }

  /** The orchestrator drops enqueues exactly from BeginShutdown to its end. */
  lemma {:induction false} StopsWhenTold(cfg: Config, run: seq<Action>)
    requires After(cfg, run).Some?
    ensures After(cfg, run).value.phase.Stopping? <==> ShutDown(run)
  {
    if run != [] {
      var init, a := run[..|run| - 1], run[|run| - 1];
      StopsWhenTold(cfg, init);
      if !a.Crash? {
        StepFrame(cfg, After(cfg, init).value, a);
      }
    }
  }

  // ---- nobody is stuck -------------------------------------------------------

  ghost predicate Can(cfg: Config, s: System, a: Action) {
    Step(cfg, s, a).Some?
  }

  /** Wherever the drainer stands it can go on, both ways where the world decides. */
  lemma DrainerIsNeverStuck(cfg: Config, s: System, now: int, w: string)
    requires !s.phase.Recovering?
    ensures s.drainer.Waiting? ==> (Can(cfg, s, Take) <==> s.queue != [])
    ensures s.drainer.Loading? ==> Can(cfg, s, Load(now))
    ensures s.drainer.Choosing? ==> Can(cfg, s, NoMoreWorkers) && (Can(cfg, s, Choose(w)) <==> w !in s.drainer.tried)
    ensures s.drainer.Marking? ==> Can(cfg, s, Mark(now))
    ensures s.drainer.Sending? ==> Can(cfg, s, Accept) && Can(cfg, s, Refuse)
    ensures s.drainer.Reverting? ==> Can(cfg, s, Revert(now))
    ensures s.drainer.Sleeping? ==> Can(cfg, s, Wake)
    ensures s.drainer.Failing? ==> Can(cfg, s, Fail(now))
    ensures s.phase.Stopping? ==> Can(cfg, s, Cancel)
  {
  }

  /** Invokers and the reaper wait for room in the queue and for nothing else. */
  lemma OthersAreNeverStuck(cfg: Config, s: System, now: int, job: string, worker: string, found: seq<string>)
    requires !s.phase.Recovering?
    ensures job in s.invoking ==> (Can(cfg, s, InvokerEnqueue(job)) <==> |s.queue| < PENDING_QUEUE_SIZE)
    ensures job in s.invoking && s.phase.Stopping? ==> Can(cfg, s, InvokerSkip(job))
    ensures s.reaper.Resting? && Enumerates(found, RunningOn(s.store.jobs, worker)) ==> Can(cfg, s, SweepWorker(worker, found))
    ensures s.reaper.Scanning? ==> Can(cfg, s, if s.reaper.todo == [] then ReaperRest else ReapNext(now))
    ensures s.reaper.Requeuing? ==> (Can(cfg, s, ReaperEnqueue) <==> |s.queue| < PENDING_QUEUE_SIZE)
    ensures s.reaper.Requeuing? && s.phase.Stopping? ==> Can(cfg, s, ReaperSkip)
  {
  }

  // ---- runs from a state -----------------------------------------------------

  ghost function Steps(cfg: Config, s: System, acts: seq<Action>): Option<System>
    decreases |acts|
  {
    if acts == [] then Some(s) else
    match Step(cfg, s, acts[0])
    case Some(s') => Steps(cfg, s', acts[1..])
    case None => None
  }

  lemma {:induction false} StepsThen(cfg: Config, s: System, first: seq<Action>, s1: System, rest: seq<Action>)
    requires Steps(cfg, s, first) == Some(s1)
    ensures Steps(cfg, s, first + rest) == Steps(cfg, s1, rest)
    decreases |first|
  {
    if first == [] {
      assert first + rest == rest;
    } else {
      assert (first + rest)[1..] == first[1..] + rest;
      StepsThen(cfg, Step(cfg, s, first[0]).value, first[1..], s1, rest);
    }
  }

  lemma OneStep(cfg: Config, s: System, a: Action, s': System)
    requires Step(cfg, s, a) == Some(s')
    ensures Steps(cfg, s, [a]) == Some(s')
  {
    assert [a][1..] == [];
  }

  lemma StepThen(cfg: Config, s: System, a: Action, s1: System, rest: seq<Action>)
    requires Step(cfg, s, a) == Some(s1)
    ensures Steps(cfg, s, [a] + rest) == Steps(cfg, s1, rest)
  {
    assert ([a] + rest)[1..] == rest;
  }

  // ---- recovery goes through -------------------------------------------------

  /** If the jobs to recover fit, recovery comes to its end and the queue has them all, in order. */
  lemma {:induction false} RecoveryGoesThrough(cfg: Config, s: System, now: int) returns (acts: seq<Action>, s': System)
    requires s.phase.Recovering? && s.phase.held.None? && |s.queue| + |s.phase.todo| <= PENDING_QUEUE_SIZE
    ensures Steps(cfg, s, acts) == Some(s') && s'.phase.Serving? && s'.queue == s.queue + s.phase.todo
    decreases |s.phase.todo|
  {
    if s.phase.todo == [] {
      acts, s' := [Serve], s.(phase := Serving);
      OneStep(cfg, s, Serve, s');
    } else {
      var s1 := Step(cfg, s, RecoverOne(now)).value;
      var s2 := Step(cfg, s1, RecoverEnqueue).value;
      var rest;
      rest, s' := RecoveryGoesThrough(cfg, s2, now);
      acts := [RecoverOne(now)] + ([RecoverEnqueue] + rest);
      OneStep(cfg, s, RecoverOne(now), s1);
      OneStep(cfg, s1, RecoverEnqueue, s2);
      StepsThen(cfg, s1, [RecoverEnqueue], s2, rest);
      StepsThen(cfg, s, [RecoverOne(now)], s1, [RecoverEnqueue] + rest);
    }
  }

  // ---- the drainer is Dispatch -----------------------------------------------

  /** Nothing but the drainer, its job and the revert count has moved. */
  ghost predicate OnlyDrained(s: System, s': System, job: string) {
    && s'.phase == s.phase && s'.queue == s.queue && s'.invoking == s.invoking && s'.reaper == s.reaper
    && s'.store.index == s.store.index && OnlyChanges(s.store.jobs, s'.store.jobs, job)
    && s'.requeued == s.requeued && s'.retired == s.retired
  }

  function SetOf(ws: seq<string>): set<string> {
    set w | w in ws
  }

  /** The drainer holds a live job and has been turned away by `order`; `rec` is what the job was at first. */
  ghost predicate Trying(s: System, job: string, n: nat, rec: JobRecord, order: seq<string>) {
    && !s.phase.Recovering?
    && s.drainer == Choosing(job, n, SetOf(order))
    && job in s.store.jobs && !Terminal(s.store.jobs[job].status)
    && SameJob(s.store.jobs[job], Tempted(rec, order))
  }

  lemma LoadStep(cfg: Config, s: System, now: int) returns (s': System)
    requires !s.phase.Recovering? && s.drainer.Loading? && s.drainer.job in s.store.jobs
    requires !Terminal(s.store.jobs[s.drainer.job].status) && s.store.jobs[s.drainer.job].functionBytes != []
    ensures Step(cfg, s, Load(now)) == Some(s') && s' == s.(drainer := Choosing(s.drainer.job, s.drainer.attempt, {}))
  {
    s' := Step(cfg, s, Load(now)).value;
  }

  lemma ChooseStep(cfg: Config, s: System, w: string) returns (s': System)
    requires !s.phase.Recovering? && s.drainer.Choosing? && w !in s.drainer.tried
    ensures Step(cfg, s, Choose(w)) == Some(s')
    ensures s' == s.(drainer := Marking(s.drainer.job, s.drainer.attempt, s.drainer.tried + {w}, w))
  {
    s' := Step(cfg, s, Choose(w)).value;
  }

  lemma MarkStep(cfg: Config, s: System, now: int) returns (s': System)
    requires !s.phase.Recovering? && s.drainer.Marking?
    requires s.drainer.job in s.store.jobs && !Terminal(s.store.jobs[s.drainer.job].status)
    ensures var job := s.drainer.job;
            && Step(cfg, s, Mark(now)) == Some(s') && OnlyDrained(s, s', job) && s'.reverted == s.reverted
            && s'.drainer == Sending(job, s.drainer.attempt, s.drainer.tried)
            && SameJob(s'.store.jobs[job], s.store.jobs[job].(status := Running, workerId := s.drainer.worker))
  {
    s' := Step(cfg, s, Mark(now)).value;
  }

  lemma SendStep(cfg: Config, s: System, accepted: bool) returns (s': System)
    requires !s.phase.Recovering? && s.drainer.Sending?
    ensures Step(cfg, s, if accepted then Accept else Refuse) == Some(s')
    ensures s' == s.(drainer := if accepted then Waiting else Reverting(s.drainer.job, s.drainer.attempt, s.drainer.tried))
  {
    s' := Step(cfg, s, if accepted then Accept else Refuse).value;
  }

  lemma RevertStep(cfg: Config, s: System, now: int) returns (s': System)
    requires !s.phase.Recovering? && s.drainer.Reverting?
    requires s.drainer.job in s.store.jobs && !Terminal(s.store.jobs[s.drainer.job].status)
    ensures var job := s.drainer.job;
            && Step(cfg, s, Revert(now)) == Some(s') && OnlyDrained(s, s', job) && s'.reverted == s.reverted + multiset{job}
            && s'.drainer == Choosing(job, s.drainer.attempt, s.drainer.tried)
            && SameJob(s'.store.jobs[job],
                       s.store.jobs[job].(status := Pending, workerId := "", retryCount := s.store.jobs[job].retryCount + 1))
  {
    s' := Step(cfg, s, Revert(now)).value;
  }

  lemma DryStep(cfg: Config, s: System) returns (s': System)
    requires !s.phase.Recovering? && s.drainer.Choosing?
    ensures Step(cfg, s, NoMoreWorkers) == Some(s')
    ensures s' == s.(drainer := if s.drainer.attempt < cfg.maxAttempts then Sleeping(s.drainer.job, s.drainer.attempt)
                                else Failing(s.drainer.job, Exhausted))
  {
    s' := Step(cfg, s, NoMoreWorkers).value;
  }

  lemma WakeStep(cfg: Config, s: System) returns (s': System)
    requires !s.phase.Recovering? && s.drainer.Sleeping?
    ensures Step(cfg, s, Wake) == Some(s') && s' == s.(drainer := Loading(s.drainer.job, s.drainer.attempt + 1))
  {
    s' := Step(cfg, s, Wake).value;
  }

  lemma FailStep(cfg: Config, s: System, now: int) returns (s': System)
    requires !s.phase.Recovering? && s.drainer.Failing?
    requires s.drainer.job in s.store.jobs && !Terminal(s.store.jobs[s.drainer.job].status)
    ensures var job := s.drainer.job;
            && Step(cfg, s, Fail(now)) == Some(s') && OnlyDrained(s, s', job) && s'.drainer.Waiting?
            && SameJob(s'.store.jobs[job],
                       s.store.jobs[job].(status := Failed, error := "dispatch failed: " + Reason(cfg, job, s.drainer.why)))
  {
    s' := Step(cfg, s, Fail(now)).value;
  }

  /** Marked and reverted is reverted. */
  lemma MarkedAndReverted(a: JobRecord, b: JobRecord, c: JobRecord, w: string)
    requires SameJob(b, a.(status := Running, workerId := w))
    requires SameJob(c, b.(status := Pending, workerId := "", retryCount := b.retryCount + 1))
    ensures SameJob(c, a.(status := Pending, workerId := "", retryCount := a.retryCount + 1))
  {
  }

  lemma OnlyDrainedTwice(s: System, s1: System, s2: System, job: string)
    requires OnlyDrained(s, s1, job) && OnlyDrained(s1, s2, job)
    ensures OnlyDrained(s, s2, job)
  {
  }

  lemma TurnActs(cfg: Config, s: System, a: Action, s1: System, b: Action, s2: System, c: Action, s3: System)
    requires Step(cfg, s, a) == Some(s1) && Step(cfg, s1, b) == Some(s2) && Step(cfg, s2, c) == Some(s3)
    ensures Steps(cfg, s, [a, b, c]) == Some(s3)
  {
    OneStep(cfg, s2, c, s3);
    StepThen(cfg, s1, b, s2, [c]);
    StepThen(cfg, s, a, s1, [b, c]);
    assert [b] + [c] == [b, c] && [a] + [b, c] == [a, b, c];
  }

  /** One worker that refuses: chosen, marked, sent, reverted. */
  lemma RefusedTurn(cfg: Config, s: System, job: string, n: nat, rec: JobRecord, order: seq<string>, w: string, now: int) returns (s': System)
    requires Trying(s, job, n, rec, order) && w !in order
    ensures Steps(cfg, s, [Choose(w), Mark(now), Refuse] + [Revert(now)]) == Some(s')
    ensures Trying(s', job, n, rec, order + [w]) && OnlyDrained(s, s', job)
    ensures s'.reverted == s.reverted + multiset{job}
  {
    var s1 := ChooseStep(cfg, s, w);
    var s2 := MarkStep(cfg, s1, now);
    var s3 := SendStep(cfg, s2, false);
    s' := RevertStep(cfg, s3, now);
    TurnActs(cfg, s, Choose(w), s1, Mark(now), s2, Refuse, s3);
    OneStep(cfg, s3, Revert(now), s');
    StepsThen(cfg, s, [Choose(w), Mark(now), Refuse], s3, [Revert(now)]);
    OnlyDrainedTwice(s, s2, s', job);
    assert SetOf(order + [w]) == SetOf(order) + {w};
    MarkedAndReverted(s.store.jobs[job], s2.store.jobs[job], s'.store.jobs[job], w);
    TemptedByNext(rec, order, w, s.store.jobs[job], s'.store.jobs[job]);
  }

  function Refusals(ws: seq<string>, now: int): seq<Action> {
    if ws == [] then []
    else ([Choose(ws[0]), Mark(now), Refuse] + [Revert(now)]) + Refusals(ws[1..], now)
  }

  lemma {:induction false} RefusedTurns(cfg: Config, s: System, job: string, n: nat, rec: JobRecord, order: seq<string>, ws: seq<string>, now: int)
    returns (s': System)
    requires Trying(s, job, n, rec, order)
    requires forall i, j :: 0 <= i < j < |order + ws| ==> (order + ws)[i] != (order + ws)[j]
    ensures Steps(cfg, s, Refusals(ws, now)) == Some(s')
    ensures Trying(s', job, n, rec, order + ws) && OnlyDrained(s, s', job)
    ensures s'.reverted[job] == s.reverted[job] + |ws|
    decreases |ws|
  {
    if ws == [] {
      s' := s;
      assert order + ws == order;
    } else {
      assert forall i :: 0 <= i < |order| ==> (order + ws)[i] == order[i] && (order + ws)[|order|] == ws[0];
      var s1 := RefusedTurn(cfg, s, job, n, rec, order, ws[0], now);
      assert order + ws == (order + [ws[0]]) + ws[1..];
      s' := RefusedTurns(cfg, s1, job, n, rec, order + [ws[0]], ws[1..], now);
      StepsThen(cfg, s, [Choose(ws[0]), Mark(now), Refuse] + [Revert(now)], s1, Refusals(ws[1..], now));
      OnlyDrainedTwice(s, s1, s', job);
    }
  }

  /** The actions of one dispatch that tries `order` and ends in `r`. */
  function Pass(r: DispatchResult, order: seq<string>, now: int): seq<Action> {
    [Load(now)] +
    if r.Accepted? && order != []
    then Refusals(order[..|order| - 1], now) + [Choose(order[|order| - 1]), Mark(now), Accept]
    else Refusals(order, now) + [NoMoreWorkers]
  }

  lemma AcceptedTurn(cfg: Config, s: System, job: string, n: nat, rec: JobRecord, order: seq<string>, w: string, now: int) returns (s': System)
    requires Trying(s, job, n, rec, order) && w !in order
    ensures Steps(cfg, s, [Choose(w), Mark(now), Accept]) == Some(s')
    ensures s'.drainer.Waiting? && OnlyDrained(s, s', job) && s'.reverted == s.reverted
    ensures SameJob(s'.store.jobs[job], Dispatched(rec, Accepted, order + [w]))
  {
    var s1 := ChooseStep(cfg, s, w);
    var s2 := MarkStep(cfg, s1, now);
    s' := SendStep(cfg, s2, true);
    TurnActs(cfg, s, Choose(w), s1, Mark(now), s2, Accept, s');
    TemptedByNext(rec, order, w, s.store.jobs[job], s'.store.jobs[job]);
  }

  lemma {:induction false} DistinctOrder(workers: map<string, Worker>, order: seq<string>)
    requires LightestFirst(workers, order)
    ensures forall i, j :: 0 <= i < j < |order| ==> order[i] != order[j]
  {
    forall i, j | 0 <= i < j < |order|
      ensures order[i] != order[j]
    {
      InLoadOrder(workers, order, i, j);
    }
  }

  /** The workers of `order` refuse, but for the last. */
  lemma AcceptedPass(cfg: Config, s: System, job: string, n: nat, rec: JobRecord, order: seq<string>, now: int) returns (s': System)
    requires Trying(s, job, n, rec, []) && order != []
    requires forall i, j :: 0 <= i < j < |order| ==> order[i] != order[j]
    ensures Steps(cfg, s, Refusals(order[..|order| - 1], now) + [Choose(order[|order| - 1]), Mark(now), Accept]) == Some(s')
    ensures s'.drainer.Waiting? && OnlyDrained(s, s', job) && s'.reverted[job] == s.reverted[job] + |order| - 1
    ensures SameJob(s'.store.jobs[job], Dispatched(rec, Accepted, order))
  {
    var refused, w := order[..|order| - 1], order[|order| - 1];
    assert [] + refused == refused && refused + [w] == order;
    var s1 := RefusedTurns(cfg, s, job, n, rec, [], refused, now);
    s' := AcceptedTurn(cfg, s1, job, n, rec, refused, w, now);
    OnlyDrainedTwice(s, s1, s', job);
    StepsThen(cfg, s, Refusals(refused, now), s1, [Choose(w), Mark(now), Accept]);
  }

  /** All of them refuse. */
  lemma DryPass(cfg: Config, s: System, job: string, n: nat, rec: JobRecord, order: seq<string>, now: int) returns (s': System)
    requires Trying(s, job, n, rec, [])
    requires forall i, j :: 0 <= i < j < |order| ==> order[i] != order[j]
    ensures Steps(cfg, s, Refusals(order, now) + [NoMoreWorkers]) == Some(s')
    ensures s'.drainer == if n < cfg.maxAttempts then Sleeping(job, n) else Failing(job, Exhausted)
    ensures OnlyDrained(s, s', job) && s'.reverted[job] == s.reverted[job] + |order|
    ensures SameJob(s'.store.jobs[job], Tempted(rec, order))
  {
    assert [] + order == order;
    var s1 := RefusedTurns(cfg, s, job, n, rec, [], order, now);
    s' := DryStep(cfg, s1);
    OneStep(cfg, s1, NoMoreWorkers, s');
    OnlyDrainedTwice(s, s1, s', job);
    StepsThen(cfg, s, Refusals(order, now), s1, [NoMoreWorkers]);
  }

  /**
   Left alone, the drainer does with a live job exactly what Dispatch does:
   the same order of workers leads to the same record, and the answer decides
   whether it is done, sleeps, or gives the job up.
   */
  lemma DrainerDispatches(cfg: Config, s: System, workers: map<string, Worker>, accepts: string -> bool, r: DispatchResult,
                          order: seq<string>, now: int) returns (s': System)
    requires !s.phase.Recovering? && s.drainer.Loading? && s.drainer.job in s.store.jobs
    requires !Terminal(s.store.jobs[s.drainer.job].status) && s.store.jobs[s.drainer.job].functionBytes != []
    requires Tried(workers, accepts, r, order) && (r.Accepted? || r.NoWorkersAvailable? || r.AllWorkersExhausted?)
    ensures var job := s.drainer.job;
            && Steps(cfg, s, Pass(r, order, now)) == Some(s')
            && OnlyDrained(s, s', job)
            && SameJob(s'.store.jobs[job], Dispatched(s.store.jobs[job], r, order))
            && s'.reverted[job] == s.reverted[job] + |order| - (if r.Accepted? then 1 else 0)
            && s'.drainer == if r.Accepted? then Waiting
                             else if s.drainer.attempt < cfg.maxAttempts then Sleeping(job, s.drainer.attempt)
                             else Failing(job, Exhausted)
  {
    var job, n, rec := s.drainer.job, s.drainer.attempt, s.store.jobs[s.drainer.job];
    var s1 := LoadStep(cfg, s, now);
    assert SetOf([]) == {};
    DistinctOrder(workers, order);
    if r.Accepted? {
      s' := AcceptedPass(cfg, s1, job, n, rec, order, now);
    } else {
      s' := DryPass(cfg, s1, job, n, rec, order, now);
    }
    StepThen(cfg, s, Load(now), s1, Pass(r, order, now)[1..]);
    assert Pass(r, order, now) == [Load(now)] + Pass(r, order, now)[1..];
  }

  /** And with one that is finished, unknown or without payload what Dispatch and attemptDispatch do. */
  lemma DrainerDeclines(cfg: Config, s: System, now: int)
    requires !s.phase.Recovering? && s.drainer.Loading?
    ensures Can(cfg, s, Load(now))
    ensures var s', job := Step(cfg, s, Load(now)).value, s.drainer.job;
            && (job !in s.store.jobs ==> s'.store == s.store && s'.drainer == Failing(job, Unknown))
            && (job in s.store.jobs && Terminal(s.store.jobs[job].status) ==> s'.store == s.store && s'.drainer == Waiting)
            && (job in s.store.jobs && !Terminal(s.store.jobs[job].status) && s.store.jobs[job].functionBytes == [] ==>
                  && OnlyDrained(s, s', job) && s'.drainer == Failing(job, Why.NoPayload)
                  && SameJob(s'.store.jobs[job], Dispatched(s.store.jobs[job], DispatchResult.NoPayload, [])))
  {
  }

  /** How many of the actions are dry passes. */
  function Passes(acts: seq<Action>): nat {
    if acts == [] then 0 else (if acts[0].NoMoreWorkers? then 1 else 0) + Passes(acts[1..])
  }

  lemma {:induction false} PassesConcat(a: seq<Action>, b: seq<Action>)
    ensures Passes(a + b) == Passes(a) + Passes(b)
  {
    if a == [] {
      assert a + b == b;
    } else {
      assert (a + b)[1..] == a[1..] + b;
      PassesConcat(a[1..], b);
    }
  }

  /** Without a worker the job fails, after exactly the attempts that are left, and says so. */
  lemma {:induction false} GivesUpAfterAll(cfg: Config, s: System, now: int) returns (acts: seq<Action>, s': System)
    requires !s.phase.Recovering? && s.drainer.Loading? && s.drainer.job in s.store.jobs && s.drainer.attempt <= cfg.maxAttempts
    requires !Terminal(s.store.jobs[s.drainer.job].status) && s.store.jobs[s.drainer.job].functionBytes != []
    ensures Steps(cfg, s, acts) == Some(s') && s'.drainer.Waiting? && OnlyDrained(s, s', s.drainer.job)
    ensures Passes(acts) == cfg.maxAttempts - s.drainer.attempt + 1
    ensures SameJob(s'.store.jobs[s.drainer.job],
                    s.store.jobs[s.drainer.job].(status := Failed,
                      error := "dispatch failed: " + Reason(cfg, s.drainer.job, Exhausted)))
    decreases cfg.maxAttempts - s.drainer.attempt
  {
    var job, n := s.drainer.job, s.drainer.attempt;
    var s1 := LoadStep(cfg, s, now);
    var s2 := DryStep(cfg, s1);
    var rest;
    if n == cfg.maxAttempts {
      s' := FailStep(cfg, s2, now);
      rest := [Fail(now)];
      OneStep(cfg, s2, Fail(now), s');
    } else {
      var s3 := WakeStep(cfg, s2);
      var more;
      more, s' := GivesUpAfterAll(cfg, s3, now);
      rest := [Wake] + more;
      StepThen(cfg, s2, Wake, s3, more);
      PassesConcat([Wake], more);
    }
    acts := [Load(now)] + ([NoMoreWorkers] + rest);
    StepThen(cfg, s1, NoMoreWorkers, s2, rest);
    StepThen(cfg, s, Load(now), s1, [NoMoreWorkers] + rest);
    PassesConcat([NoMoreWorkers], rest);
    PassesConcat([Load(now)], [NoMoreWorkers] + rest);
  }
}
