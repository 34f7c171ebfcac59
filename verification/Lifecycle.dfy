/**
 The orchestrator as a step system in BoltStore mode: invokers, the single
 drainer (attemptDispatch around Dispatch), the reaper, result reports,
 shutdown, crash and startup recovery, interleaved at every point where the
 code lets go of the store (orchestrator/server.go, orchestrator/scheduler.go).
 Store errors are left out; a full channel blocks its sender; an enqueue that
 sees the shutdown flag drops the job and leaves it to the next recovery.
 */
module Lifecycle {
  import opened Decimal
  import opened Jobs
  import opened JobStore
  import opened Mutators
  import opened Server
  import opened Sets

  datatype Config = Config(maxRetries: int, maxAttempts: nat)

  /** Why a dispatch is given up. */
  datatype Why = Unknown | NoPayload | Exhausted

  function Reason(cfg: Config, job: string, why: Why): string {
    match why
    case Unknown => "job " + job + " not found"
    case NoPayload => "job " + job + " has no payload"
    case Exhausted => "no worker accepted after " + Itoa(cfg.maxAttempts) + " attempts"
  }

  /** Where the drainer goroutine stands, and with which job. */
  datatype Drainer =
    | Waiting                                                            // on the channel
    | Loading(job: string, attempt: nat)                                 // Dispatch, before GetJob
    | Choosing(job: string, attempt: nat, tried: set<string>)            // before LeastLoadedAliveExcluding
    | Marking(job: string, attempt: nat, tried: set<string>, worker: string)
    | Sending(job: string, attempt: nat, tried: set<string>)             // ExecuteTask in flight
    | Reverting(job: string, attempt: nat, tried: set<string>)           // refused
    | Sleeping(job: string, attempt: nat)                                // backoff
    | Failing(job: string, why: Why)                                     // about to mark FAILED
    | Gone                                                               // context cancelled

  datatype Reaper =
    | Resting
    | Scanning(todo: seq<string>)
    | Requeuing(job: string, todo: seq<string>)                          // demoted, not yet enqueued

  datatype Phase =
    | Recovering(todo: seq<string>, held: Option<string>)                // RecoverUnfinishedJobs
    | Serving
    | Stopping                                                           // BeginShutdown was called

  /** The last three fields count committed writes per job, over all lifetimes. */
  datatype System = System(
    phase: Phase,
    store: State,
    queue: seq<string>,
    invoking: set<string>,                                               // created, not yet enqueued
    drainer: Drainer,
    reaper: Reaper,
    reverted: multiset<string>,
    requeued: multiset<string>,
    retired: multiset<string>)

  datatype Action =
    | Invoke(rec: JobRecord, key: string)
    | InvokerEnqueue(job: string)
    | InvokerSkip(job: string)
    | Take
    | Load(now: int)
    | Choose(worker: string)
    | NoMoreWorkers
    | Mark(now: int)
    | Accept
    | Refuse
    | Revert(now: int)
    | Wake
    | Fail(now: int)
    | SweepWorker(worker: string, found: seq<string>)
    | ReapNext(now: int)
    | ReaperEnqueue
    | ReaperSkip
    | ReaperRest
    | Reported(job: string, report: Mutator, now: int)
    | BeginShutdown
    | Cancel
    | Crash(found: seq<string>)
    | RecoverOne(now: int)
    | RecoverEnqueue
    | Serve

  // ---- steps -----------------------------------------------------------------

  /** The drainer's next step, or None when `a` is not it. */
  ghost function Drain(cfg: Config, s: System, a: Action): Option<System> {
    match (s.drainer, a)
    case (Waiting, Take) =>
      if s.queue == [] then None
      else Some(s.(queue := s.queue[1..], drainer := Loading(s.queue[0], 1)))
    case (Loading(job, n), Load(now)) =>
      if job !in s.store.jobs then Some(s.(drainer := Failing(job, Unknown)))
      else if Terminal(s.store.jobs[job].status) then Some(s.(drainer := Waiting))
      else if s.store.jobs[job].functionBytes == [] then
        Some(s.(store := Commit(s.store, job, MissingPayload, now), drainer := Failing(job, NoPayload)))
      else Some(s.(drainer := Choosing(job, n, {})))
    case (Choosing(job, n, tried), Choose(worker)) =>
      if worker in tried then None else Some(s.(drainer := Marking(job, n, tried + {worker}, worker)))
    case (Choosing(job, n, tried), NoMoreWorkers) =>
      Some(s.(drainer := if n < cfg.maxAttempts then Sleeping(job, n) else Failing(job, Exhausted)))
    case (Marking(job, n, tried, worker), Mark(now)) =>
      Some(s.(store := Commit(s.store, job, MarkRunning(worker), now),
              drainer := if Commits(s.store, job, MarkRunning(worker)) then Sending(job, n, tried) else Waiting))
    case (Sending(_, _, _), Accept) => Some(s.(drainer := Waiting))
    case (Sending(job, n, tried), Refuse) => Some(s.(drainer := Reverting(job, n, tried)))
    case (Reverting(job, n, tried), Revert(now)) =>
      Some(s.(store := Commit(s.store, job, RevertToPending, now), drainer := Choosing(job, n, tried),
              reverted := if Commits(s.store, job, RevertToPending) then s.reverted + multiset{job} else s.reverted))
    case (Sleeping(job, n), Wake) => Some(s.(drainer := Loading(job, n + 1)))
    case (Failing(job, why), Fail(now)) =>
      Some(s.(store := Commit(s.store, job, GiveUp(Reason(cfg, job, why)), now), drainer := Waiting))
    case (_, Cancel) => if s.phase.Stopping? then Some(s.(drainer := Gone)) else None
    case _ => None
  }

  ghost function ReapStep(cfg: Config, s: System, a: Action): Option<System> {
    match (s.reaper, a)
    case (Resting, SweepWorker(worker, found)) =>
      if Enumerates(found, RunningOn(s.store.jobs, worker)) then Some(s.(reaper := Scanning(found))) else None
    case (Scanning(todo), ReapNext(now)) =>
      if todo == [] then None else
      var job, m := todo[0], Reap(cfg.maxRetries);
      var s' := s.(store := Commit(s.store, job, m, now), reaper := Scanning(todo[1..]));
      if !Commits(s.store, job, m) then Some(s')
      else if Run(m, s.store.jobs[job]).rec.status.Pending?
      then Some(s'.(reaper := Requeuing(job, todo[1..]), requeued := s.requeued + multiset{job}))
      else Some(s'.(retired := s.retired + multiset{job}))
    case (Requeuing(job, todo), ReaperEnqueue) =>
      if |s.queue| < PENDING_QUEUE_SIZE then Some(s.(queue := s.queue + [job], reaper := Scanning(todo))) else None
    case (Requeuing(_, todo), ReaperSkip) => if s.phase.Stopping? then Some(s.(reaper := Scanning(todo))) else None
    case (Scanning(todo), ReaperRest) => if todo == [] then Some(s.(reaper := Resting)) else None
    case _ => None
  }

  ghost function ClientStep(s: System, a: Action): Option<System> {
    match a
    case Invoke(rec, key) =>
      if rec.id in s.store.jobs || !Invoked(rec) || rec.idempotencyKey != key then None else
      var r := Submitted(s.store, rec, key);
      Some(s.(store := r.0, invoking := if r.1.created then s.invoking + {r.1.jobId} else s.invoking))
    case InvokerEnqueue(job) =>
      if job in s.invoking && |s.queue| < PENDING_QUEUE_SIZE
      then Some(s.(queue := s.queue + [job], invoking := s.invoking - {job}))
      else None
    case InvokerSkip(job) =>
      if job in s.invoking && s.phase.Stopping? then Some(s.(invoking := s.invoking - {job})) else None
    case Reported(job, report, now) =>
      if report.Report? then Some(s.(store := Commit(s.store, job, report, now))) else None
    case BeginShutdown => Some(s.(phase := Stopping))
    case _ => None
  }

  ghost function RecoveryStep(s: System, a: Action): Option<System>
    requires s.phase.Recovering?
  {
    match a
    case RecoverOne(now) =>
      if s.phase.held.Some? || s.phase.todo == [] then None else
      var job := s.phase.todo[0];
      Some(s.(store := Commit(s.store, job, Recover, now), phase := Recovering(s.phase.todo[1..], Some(job))))
    case RecoverEnqueue =>
      if s.phase.held.Some? && |s.queue| < PENDING_QUEUE_SIZE
      then Some(s.(queue := s.queue + [s.phase.held.value], phase := Recovering(s.phase.todo, None)))
      else None
    case Serve =>
      if s.phase.held.None? && s.phase.todo == [] then Some(s.(phase := Serving)) else None
    case _ => None
  }

  /** The process dies; the next one lists the unfinished jobs of the store it finds. */
  ghost function CrashStep(s: System, found: seq<string>): Option<System> {
    if Enumerates(found, UnfinishedIds(s.store.jobs))
    then Some(s.(phase := Recovering(found, None), queue := [], invoking := {}, drainer := Waiting, reaper := Resting))
    else None
  }

  ghost predicate IsReaperAction(a: Action) {
    a.SweepWorker? || a.ReapNext? || a.ReaperEnqueue? || a.ReaperSkip? || a.ReaperRest?
  }

  ghost predicate IsClientAction(a: Action) {
    a.Invoke? || a.InvokerEnqueue? || a.InvokerSkip? || a.Reported? || a.BeginShutdown?
  }

  ghost function Step(cfg: Config, s: System, a: Action): Option<System> {
    if a.Crash? then CrashStep(s, a.found)
    else if s.phase.Recovering? then RecoveryStep(s, a)
    else if IsReaperAction(a) then ReapStep(cfg, s, a)
    else if IsClientAction(a) then ClientStep(s, a)
    else Drain(cfg, s, a)
  }

  ghost const INIT :=
    System(Recovering([], None), EMPTY, [], {}, Waiting, Resting, multiset{}, multiset{}, multiset{})

  /** The state after a run, or None when some action was not possible where it stands. */
  ghost function After(cfg: Config, run: seq<Action>): Option<System> {
    if run == [] then Some(INIT) else
    match After(cfg, run[..|run| - 1])
    case Some(s) => Step(cfg, s, run[|run| - 1])
    case None => None
  }

  // ---- invariants ------------------------------------------------------------

  ghost predicate RecordsSound(s: State) {
    forall id :: id in s.jobs ==> s.jobs[id].id == id && Sound(s.jobs[id])
  }

  ghost predicate LedgerOf(cfg: Config, s: System, id: string) {
    && (if id in s.store.jobs then s.store.jobs[id].retryCount else 0) == s.reverted[id] + s.requeued[id] + s.retired[id]
    && (s.requeued[id] == 0 || s.requeued[id] <= cfg.maxRetries)
  }

  ghost predicate Ledger(cfg: Config, s: System) {
    forall id :: LedgerOf(cfg, s, id)
  }

  ghost predicate IndexSound(s: State) {
    forall key :: key in s.index ==>
      key != "" && s.index[key] in s.jobs && s.jobs[s.index[key]].idempotencyKey == key
  }

  ghost predicate DrainerHolds(s: System, id: string) {
    match s.drainer
    case Loading(job, _) => job == id
    case Choosing(job, _, _) => job == id
    case Marking(job, _, _, _) => job == id
    case Reverting(job, _, _) => job == id
    case Sleeping(job, _) => job == id
    case Failing(job, _) => job == id
    case _ => false
  }

  /** Someone will still act on the job: it is queued, in the drainer's hands, or about to be enqueued. */
  ghost predicate InCustody(s: System, id: string) {
    || id in s.queue
    || id in s.invoking
    || DrainerHolds(s, id)
    || (s.reaper.Requeuing? && s.reaper.job == id)
  }

  ghost predicate Custody(s: System) {
    s.phase.Serving? ==> forall id :: id in s.store.jobs && s.store.jobs[id].status.Pending? ==> InCustody(s, id)
  }

  function HeldList(held: Option<string>): seq<string> {
    if held.Some? then [held.value] else []
  }

  /** During recovery each unfinished job is in exactly one place, and what recovery has touched is PENDING. */
  ghost predicate RecoveryLine(s: System) {
    s.phase.Recovering? ==>
      && Enumerates(s.queue + HeldList(s.phase.held) + s.phase.todo, UnfinishedIds(s.store.jobs))
      && forall id :: id in s.queue + HeldList(s.phase.held) ==> id in s.store.jobs && s.store.jobs[id].status.Pending?
  }

  ghost predicate AttemptsBounded(cfg: Config, s: System) {
    match s.drainer
    case Loading(_, n) => 1 <= n <= cfg.maxAttempts
    case Choosing(_, n, _) => 1 <= n <= cfg.maxAttempts
    case Marking(_, n, tried, worker) => 1 <= n <= cfg.maxAttempts && worker in tried
    case Sending(_, n, _) => 1 <= n <= cfg.maxAttempts
    case Reverting(_, n, _) => 1 <= n <= cfg.maxAttempts
    case Sleeping(_, n) => 1 <= n < cfg.maxAttempts
    case _ => true
  }

  ghost predicate Inv(cfg: Config, s: System) {
    && RecordsSound(s.store)
    && Ledger(cfg, s)
    && IndexSound(s.store)
    && Custody(s)
    && RecoveryLine(s)
    && AttemptsBounded(cfg, s)
  }

  /** One guarded transaction: the store stays sound, and only this job's row can move. */
  lemma CommitKeepsStore(s: State, id: string, m: Mutator, now: int)
    requires RecordsSound(s) && IndexSound(s) && !m.MissingPayload?
    ensures RecordsSound(Commit(s, id, m, now)) && IndexSound(Commit(s, id, m, now))
    ensures Commit(s, id, m, now).jobs.Keys == s.jobs.Keys
    ensures forall x :: x in s.jobs && x != id ==> Commit(s, id, m, now).jobs[x] == s.jobs[x]
    ensures Commits(s, id, m) ==> Commit(s, id, m, now).jobs[id].retryCount == s.jobs[id].retryCount + RetryDelta(m)
  {
    if Commits(s, id, m) {
      KeepsIdentity(m, s.jobs[id]);
      KeepsSound(m, s.jobs[id]);
    }
  }

  /** A transaction and its entry in the ledger, which may only be one of the charged kinds. */
  lemma CommitKeepsLedger(cfg: Config, s: System, s': System, id: string, m: Mutator, now: int)
    requires RecordsSound(s.store) && IndexSound(s.store) && Ledger(cfg, s) && !m.MissingPayload?
    requires s'.store == Commit(s.store, id, m, now)
    requires s'.reverted + s'.requeued + s'.retired ==
             s.reverted + s.requeued + s.retired + if Commits(s.store, id, m) && RetryDelta(m) == 1 then multiset{id} else multiset{}
    requires s'.requeued == s.requeued ||
             (s'.requeued == s.requeued + multiset{id} && Commits(s.store, id, m) && s.store.jobs[id].retryCount < cfg.maxRetries)
    ensures Ledger(cfg, s')
  {
    CommitKeepsStore(s.store, id, m, now);
    forall x
      ensures LedgerOf(cfg, s', x)
    {
      assert LedgerOf(cfg, s, x);
      assert (s'.reverted + s'.requeued + s'.retired)[x] == s'.reverted[x] + s'.requeued[x] + s'.retired[x];
    }
  }

  lemma SameStoreKeepsLedger(cfg: Config, s: System, s': System)
    requires Ledger(cfg, s)
    requires s'.store == s.store && s'.reverted == s.reverted && s'.requeued == s.requeued && s'.retired == s.retired
    ensures Ledger(cfg, s')
  {
    forall x
      ensures LedgerOf(cfg, s', x)
    {
      assert LedgerOf(cfg, s, x);
    }
  }

  /** Custody goes over to `s'`: whoever is PENDING there and was looked after still is. */
  ghost predicate HandsOver(s: System, s': System, id: string) {
    InCustody(s, id) ==> InCustody(s', id)
  }

  /** A step of a serving or stopping process that writes no job. */
  lemma MoveKeepsInv(cfg: Config, s: System, s': System)
    requires Inv(cfg, s) && !s'.phase.Recovering? && (s'.phase.Serving? ==> s.phase.Serving?)
    requires s'.store == s.store && s'.reverted == s.reverted && s'.requeued == s.requeued && s'.retired == s.retired
    requires forall id :: id in s.store.jobs && s.store.jobs[id].status.Pending? ==> HandsOver(s, s', id)
    requires AttemptsBounded(cfg, s')
    ensures Inv(cfg, s')
  {
    SameStoreKeepsLedger(cfg, s, s');
    if s'.phase.Serving? {
      forall id | id in s'.store.jobs && s'.store.jobs[id].status.Pending?
        ensures InCustody(s', id)
      {
        assert InCustody(s, id) && HandsOver(s, s', id);
      }
    }
  }

  lemma CommitKeepsCustody(s: System, s': System, job: string, m: Mutator, now: int)
    requires Custody(s) && s'.phase == s.phase && s'.store == Commit(s.store, job, m, now)
    requires forall id :: id != job ==> HandsOver(s, s', id)
    requires job in s'.store.jobs && s'.store.jobs[job].status.Pending? && InCustody(s, job) ==> InCustody(s', job)
    requires Commits(s.store, job, m) && s'.store.jobs[job].status.Pending? ==> InCustody(s', job)
    ensures Custody(s')
  {
    if s'.phase.Serving? {
      forall id | id in s'.store.jobs && s'.store.jobs[id].status.Pending?
        ensures InCustody(s', id)
      {
        if id != job {
          assert InCustody(s, id) && HandsOver(s, s', id);
        }
      }
    }
  }

  // ---- the reaper ------------------------------------------------------------

  lemma ReapWriteKeepsLedger(cfg: Config, s: System, a: Action)
    requires RecordsSound(s.store) && IndexSound(s.store) && Ledger(cfg, s)
    requires a.ReapNext? && ReapStep(cfg, s, a).Some?
    ensures Ledger(cfg, ReapStep(cfg, s, a).value)
  {
    CommitKeepsLedger(cfg, s, ReapStep(cfg, s, a).value, s.reaper.todo[0], Reap(cfg.maxRetries), a.now);
  }

  lemma ReapWriteKeepsCustody(cfg: Config, s: System, a: Action)
    requires Custody(s) && a.ReapNext? && ReapStep(cfg, s, a).Some?
    ensures Custody(ReapStep(cfg, s, a).value)
  {
    var s', job := ReapStep(cfg, s, a).value, s.reaper.todo[0];
    assert forall id :: id != job ==> HandsOver(s, s', id);
    CommitKeepsCustody(s, s', job, Reap(cfg.maxRetries), a.now);
  }

  lemma ReapWriteKeepsInv(cfg: Config, s: System, a: Action)
    requires Inv(cfg, s) && !s.phase.Recovering? && a.ReapNext? && ReapStep(cfg, s, a).Some?
    ensures Inv(cfg, ReapStep(cfg, s, a).value)
  {
    ReapWriteKeepsLedger(cfg, s, a);
    ReapWriteKeepsCustody(cfg, s, a);
    CommitKeepsStore(s.store, s.reaper.todo[0], Reap(cfg.maxRetries), a.now);
  }

  lemma ReapMoveKeepsInv(cfg: Config, s: System, a: Action)
    requires Inv(cfg, s) && !s.phase.Recovering? && !a.ReapNext? && ReapStep(cfg, s, a).Some?
    ensures Inv(cfg, ReapStep(cfg, s, a).value)
  {
    var s' := ReapStep(cfg, s, a).value;
    if s'.phase.Serving? {
      assert forall id :: HandsOver(s, s', id);
      MoveKeepsInv(cfg, s, s');
    } else {
      SameStoreKeepsLedger(cfg, s, s');
    }
  }

  // ---- recovery and clients --------------------------------------------------

  lemma RecoverOneKeepsInv(cfg: Config, s: System, a: Action)
    requires Inv(cfg, s) && s.phase.Recovering? && a.RecoverOne? && RecoveryStep(s, a).Some?
    ensures Inv(cfg, RecoveryStep(s, a).value)
  {
    var s', job := RecoveryStep(s, a).value, s.phase.todo[0];
    var line := s.queue + HeldList(s.phase.held) + s.phase.todo;
    CommitKeepsStore(s.store, job, Recover, a.now);
    CommitKeepsLedger(cfg, s, s', job, Recover, a.now);
    assert job in line;
    assert s'.queue + HeldList(s'.phase.held) + s'.phase.todo == line;
    assert UnfinishedIds(s'.store.jobs) == UnfinishedIds(s.store.jobs);
  }

  lemma RecoveryMoveKeepsInv(cfg: Config, s: System, a: Action)
    requires Inv(cfg, s) && s.phase.Recovering? && !a.RecoverOne? && RecoveryStep(s, a).Some?
    ensures Inv(cfg, RecoveryStep(s, a).value)
  {
    var s' := RecoveryStep(s, a).value;
    var line := s.queue + HeldList(s.phase.held) + s.phase.todo;
    SameStoreKeepsLedger(cfg, s, s');
    if a.RecoverEnqueue? {
      assert s'.queue + HeldList(s'.phase.held) + s'.phase.todo == line;
      assert s'.queue + HeldList(s'.phase.held) == s.queue + HeldList(s.phase.held);
    } else {
      assert line == s.queue;
      assert forall id :: id in s.store.jobs && s.store.jobs[id].status.Pending? ==> id in UnfinishedIds(s.store.jobs);
    }
  }

  lemma InvokeKeepsInv(cfg: Config, s: System, a: Action)
    requires Inv(cfg, s) && !s.phase.Recovering? && a.Invoke? && ClientStep(s, a).Some?
    ensures Inv(cfg, ClientStep(s, a).value)
  {
    var s' := ClientStep(s, a).value;
    forall id
      ensures LedgerOf(cfg, s', id)
    {
      assert LedgerOf(cfg, s, id);
    }
  }

  lemma ReportKeepsInv(cfg: Config, s: System, a: Action)
    requires Inv(cfg, s) && !s.phase.Recovering? && a.Reported? && ClientStep(s, a).Some?
    ensures Inv(cfg, ClientStep(s, a).value)
  {
    var s' := ClientStep(s, a).value;
    CommitKeepsStore(s.store, a.job, a.report, a.now);
    CommitKeepsLedger(cfg, s, s', a.job, a.report, a.now);
    assert forall id :: HandsOver(s, s', id);
    CommitKeepsCustody(s, s', a.job, a.report, a.now);
  }

  lemma ClientMoveKeepsInv(cfg: Config, s: System, a: Action)
    requires Inv(cfg, s) && !s.phase.Recovering? && !a.Invoke? && !a.Reported? && ClientStep(s, a).Some?
    ensures Inv(cfg, ClientStep(s, a).value)
  {
    var s' := ClientStep(s, a).value;
    if s'.phase.Serving? {
      assert forall id :: HandsOver(s, s', id);
      MoveKeepsInv(cfg, s, s');
    } else {
      SameStoreKeepsLedger(cfg, s, s');
    }
  }

  // ---- the drainer -----------------------------------------------------------

  /** One of the drainer's transactions on the job it holds. */
  ghost predicate DrainCommits(s: System, s': System, m: Mutator, now: int) {
    && (s.drainer.Marking? || s.drainer.Reverting? || s.drainer.Failing?)
    && (m.MarkRunning? || m.RevertToPending? || m.GiveUp?)
    && s'.phase == s.phase && s'.queue == s.queue && s'.invoking == s.invoking && s'.reaper == s.reaper
    && s'.store == Commit(s.store, s.drainer.job, m, now)
    && s'.requeued == s.requeued && s'.retired == s.retired
    && s'.reverted == (if Commits(s.store, s.drainer.job, m) && m.RevertToPending? then s.reverted + multiset{s.drainer.job} else s.reverted)
    && (m.RevertToPending? ==> DrainerHolds(s', s.drainer.job))
  }

  lemma DrainCommitKeepsCustody(s: System, s': System, m: Mutator, now: int)
    requires Custody(s) && DrainCommits(s, s', m, now)
    ensures Custody(s')
  {
    var job := s.drainer.job;
    assert forall id :: id != job ==> HandsOver(s, s', id);
    CommitKeepsCustody(s, s', job, m, now);
  }

  lemma DrainCommitKeepsLedger(cfg: Config, s: System, s': System, m: Mutator, now: int)
    requires RecordsSound(s.store) && IndexSound(s.store) && Ledger(cfg, s) && DrainCommits(s, s', m, now)
    ensures Ledger(cfg, s') && RecordsSound(s'.store) && IndexSound(s'.store)
  {
    CommitKeepsStore(s.store, s.drainer.job, m, now);
    CommitKeepsLedger(cfg, s, s', s.drainer.job, m, now);
  }

  lemma DrainWriteKeepsInv(cfg: Config, s: System, a: Action)
    requires Inv(cfg, s) && !s.phase.Recovering? && (a.Mark? || a.Revert? || a.Fail?) && Drain(cfg, s, a).Some?
    ensures Inv(cfg, Drain(cfg, s, a).value)
  {
    var s' := Drain(cfg, s, a).value;
    var m := if a.Mark? then MarkRunning(s.drainer.worker) else if a.Revert? then RevertToPending else GiveUp(Reason(cfg, s.drainer.job, s.drainer.why));
    DrainCommitKeepsCustody(s, s', m, a.now);
    DrainCommitKeepsLedger(cfg, s, s', m, a.now);
  }

  lemma TakeHandsOver(cfg: Config, s: System, id: string)
    requires Drain(cfg, s, Take).Some?
    ensures HandsOver(s, Drain(cfg, s, Take).value, id)
  {
    assert s.queue == [s.queue[0]] + s.queue[1..];
  }

  /** Any other move leaves queue, invokers and reaper alone. */
  lemma DrainMoveKeepsOthers(cfg: Config, s: System, a: Action)
    requires Drain(cfg, s, a).Some? && !a.Take?
    ensures var s' := Drain(cfg, s, a).value;
            s'.queue == s.queue && s'.invoking == s.invoking && s'.reaper == s.reaper
  {
  }

  /** And keeps hold of a PENDING job. */
  lemma DrainMoveKeepsHold(cfg: Config, s: System, a: Action, id: string)
    requires RecordsSound(s.store) && s.phase.Serving? && Drain(cfg, s, a).Some?
    requires !a.Mark? && !a.Revert? && !a.Fail? && !a.Take?
    requires id in s.store.jobs && s.store.jobs[id].status.Pending? && DrainerHolds(s, id)
    ensures DrainerHolds(Drain(cfg, s, a).value, id)
  {
  }

  lemma DrainMoveHandsOver(cfg: Config, s: System, a: Action, id: string)
    requires RecordsSound(s.store) && s.phase.Serving? && !a.Mark? && !a.Revert? && !a.Fail? && Drain(cfg, s, a).Some?
    requires id in s.store.jobs && s.store.jobs[id].status.Pending?
    ensures HandsOver(s, Drain(cfg, s, a).value, id)
  {
    if a.Take? {
      TakeHandsOver(cfg, s, id);
    } else {
      DrainMoveKeepsOthers(cfg, s, a);
      if DrainerHolds(s, id) {
        DrainMoveKeepsHold(cfg, s, a, id);
      }
    }
  }

  lemma DrainMoveWritesNothing(cfg: Config, s: System, a: Action)
    requires RecordsSound(s.store) && AttemptsBounded(cfg, s) && 1 <= cfg.maxAttempts
    requires !a.Mark? && !a.Revert? && !a.Fail? && Drain(cfg, s, a).Some?
    ensures var s' := Drain(cfg, s, a).value;
            && s'.phase == s.phase && s'.store == s.store
            && s'.reverted == s.reverted && s'.requeued == s.requeued && s'.retired == s.retired
            && AttemptsBounded(cfg, s')
  {
  }

  lemma DrainMoveKeepsInv(cfg: Config, s: System, a: Action)
    requires 1 <= cfg.maxAttempts
    requires Inv(cfg, s) && !s.phase.Recovering? && !a.Mark? && !a.Revert? && !a.Fail? && Drain(cfg, s, a).Some?
    ensures Inv(cfg, Drain(cfg, s, a).value)
  {
    var s' := Drain(cfg, s, a).value;
    DrainMoveWritesNothing(cfg, s, a);
    if s'.phase.Serving? {
      forall id | id in s.store.jobs && s.store.jobs[id].status.Pending?
        ensures HandsOver(s, s', id)
      {
        DrainMoveHandsOver(cfg, s, a, id);
      }
      MoveKeepsInv(cfg, s, s');
    } else {
      SameStoreKeepsLedger(cfg, s, s');
    }
  }

  lemma StepKeepsInv(cfg: Config, s: System, a: Action)
    requires 1 <= cfg.maxAttempts
    requires Inv(cfg, s) && Step(cfg, s, a).Some?
    ensures Inv(cfg, Step(cfg, s, a).value)
  {
    if a.Crash? {
      SameStoreKeepsLedger(cfg, s, Step(cfg, s, a).value);
      assert [] + HeldList(None) + a.found == a.found;
    } else if s.phase.Recovering? {
      if a.RecoverOne? {
        RecoverOneKeepsInv(cfg, s, a);
      } else {
        RecoveryMoveKeepsInv(cfg, s, a);
      }
    } else if a.ReapNext? {
      ReapWriteKeepsInv(cfg, s, a);
    } else if IsReaperAction(a) {
      ReapMoveKeepsInv(cfg, s, a);
    } else if a.Invoke? {
      InvokeKeepsInv(cfg, s, a);
    } else if a.Reported? {
      ReportKeepsInv(cfg, s, a);
    } else if IsClientAction(a) {
      ClientMoveKeepsInv(cfg, s, a);
    } else if a.Mark? || a.Revert? || a.Fail? {
      DrainWriteKeepsInv(cfg, s, a);
    } else {
      DrainMoveKeepsInv(cfg, s, a);
    }
  }

  // ---- runs ------------------------------------------------------------------

  lemma {:induction false} RunKeepsInv(cfg: Config, run: seq<Action>)
    requires 1 <= cfg.maxAttempts && After(cfg, run).Some?
    ensures Inv(cfg, After(cfg, run).value)
  {
    if run == [] {
      assert [] + HeldList(None) + [] == [];
      forall id
        ensures LedgerOf(cfg, INIT, id)
      {
      }
    } else {
      RunKeepsInv(cfg, run[..|run| - 1]);
      StepKeepsInv(cfg, After(cfg, run[..|run| - 1]).value, run[|run| - 1]);
    }
  }

  /** After any run, while serving, no PENDING job is forgotten. */
  lemma NoPendingJobOrphaned(cfg: Config, run: seq<Action>, id: string)
    requires 1 <= cfg.maxAttempts && After(cfg, run).Some?
    requires After(cfg, run).value.phase.Serving?
    requires id in After(cfg, run).value.store.jobs && After(cfg, run).value.store.jobs[id].status.Pending?
    ensures InCustody(After(cfg, run).value, id)
  {
    RunKeepsInv(cfg, run);
  }

  /** The moment recovery hands over, the queue is exactly the unfinished jobs, each once, all PENDING. */
  lemma RecoveryQueuesEachOnce(cfg: Config, run: seq<Action>)
    requires 1 <= cfg.maxAttempts && After(cfg, run).Some?
    requires After(cfg, run).value.phase == Recovering([], None)
    ensures var s := After(cfg, run).value;
            && Enumerates(s.queue, UnfinishedIds(s.store.jobs))
            && forall id :: id in s.queue ==> s.store.jobs[id].status.Pending?
  {
    RunKeepsInv(cfg, run);
    var s := After(cfg, run).value;
    assert s.queue + HeldList(None) + [] == s.queue;
    assert s.queue + HeldList(None) == s.queue;
  }

  /** A dispatched job always has its payload: the unguarded missing-payload write never runs. */
  lemma PayloadAlwaysThere(cfg: Config, run: seq<Action>, id: string)
    requires 1 <= cfg.maxAttempts && After(cfg, run).Some?
    requires id in After(cfg, run).value.store.jobs && !Terminal(After(cfg, run).value.store.jobs[id].status)
    ensures After(cfg, run).value.store.jobs[id].functionBytes != []
  {
    RunKeepsInv(cfg, run);
  }

  lemma CommitKeepsTerminal(s: State, job: string, m: Mutator, now: int, id: string)
    requires id in s.jobs && Terminal(s.jobs[id].status)
    requires !m.MissingPayload? && (m.Recover? ==> job != id)
    ensures id in Commit(s, job, m, now).jobs && Commit(s, job, m, now).jobs[id] == s.jobs[id]
  {
  }

  lemma DrainKeepsTerminal(cfg: Config, s: System, a: Action, id: string)
    requires RecordsSound(s.store) && AttemptsBounded(cfg, s) && 1 <= cfg.maxAttempts && Drain(cfg, s, a).Some?
    requires id in s.store.jobs && Terminal(s.store.jobs[id].status)
    ensures id in Drain(cfg, s, a).value.store.jobs
    ensures Drain(cfg, s, a).value.store.jobs[id] == s.store.jobs[id]
  {
    if a.Mark? || a.Revert? || a.Fail? {
      var m := if a.Mark? then MarkRunning(s.drainer.worker) else if a.Revert? then RevertToPending else GiveUp(Reason(cfg, s.drainer.job, s.drainer.why));
      CommitKeepsTerminal(s.store, s.drainer.job, m, a.now, id);
    } else {
      DrainMoveWritesNothing(cfg, s, a);
    }
  }

  lemma ReapKeepsTerminal(cfg: Config, s: System, a: Action, id: string)
    requires ReapStep(cfg, s, a).Some?
    requires id in s.store.jobs && Terminal(s.store.jobs[id].status)
    ensures id in ReapStep(cfg, s, a).value.store.jobs
    ensures ReapStep(cfg, s, a).value.store.jobs[id] == s.store.jobs[id]
  {
    if a.ReapNext? {
      CommitKeepsTerminal(s.store, s.reaper.todo[0], Reap(cfg.maxRetries), a.now, id);
    }
  }

  lemma RecoveryKeepsTerminal(s: System, a: Action, id: string)
    requires s.phase.Recovering? && RecoveryLine(s) && RecoveryStep(s, a).Some?
    requires id in s.store.jobs && Terminal(s.store.jobs[id].status)
    ensures id in RecoveryStep(s, a).value.store.jobs
    ensures RecoveryStep(s, a).value.store.jobs[id] == s.store.jobs[id]
  {
    if a.RecoverOne? {
      assert s.phase.todo[0] in s.queue + HeldList(s.phase.held) + s.phase.todo;
      assert s.phase.todo[0] in UnfinishedIds(s.store.jobs);
      CommitKeepsTerminal(s.store, s.phase.todo[0], Recover, a.now, id);
    }
  }

  /** No step touches a finished job, not even its timestamps. */
  lemma StepKeepsTerminal(cfg: Config, s: System, a: Action, id: string)
    requires 1 <= cfg.maxAttempts && Inv(cfg, s) && Step(cfg, s, a).Some?
    requires id in s.store.jobs && Terminal(s.store.jobs[id].status)
    ensures id in Step(cfg, s, a).value.store.jobs
    ensures Step(cfg, s, a).value.store.jobs[id] == s.store.jobs[id]
  {
    if a.Crash? {
    } else if s.phase.Recovering? {
      RecoveryKeepsTerminal(s, a, id);
    } else if IsReaperAction(a) {
      ReapKeepsTerminal(cfg, s, a, id);
    } else if a.Reported? {
      CommitKeepsTerminal(s.store, a.job, a.report, a.now, id);
    } else if !IsClientAction(a) {
      DrainKeepsTerminal(cfg, s, a, id);
    }
  }

  /** Terminal states absorb across every continuation, crashes included. */
  lemma {:induction false} TerminalAbsorbs(cfg: Config, run: seq<Action>, more: seq<Action>, id: string)
    requires 1 <= cfg.maxAttempts && After(cfg, run).Some? && After(cfg, run + more).Some?
    requires id in After(cfg, run).value.store.jobs && Terminal(After(cfg, run).value.store.jobs[id].status)
    ensures id in After(cfg, run + more).value.store.jobs
    ensures After(cfg, run + more).value.store.jobs[id] == After(cfg, run).value.store.jobs[id]
  {
    if more == [] {
      assert run + more == run;
    } else {
      var prev := run + more[..|more| - 1];
      assert (run + more)[..|run + more| - 1] == prev;
      TerminalAbsorbs(cfg, run, more[..|more| - 1], id);
      RunKeepsInv(cfg, prev);
      StepKeepsTerminal(cfg, After(cfg, prev).value, more[|more| - 1], id);
    }
  }

  /** The retry count is what was committed, and the reaper requeues a job at most maxRetries times, over all lifetimes. */
  lemma RetryLedger(cfg: Config, run: seq<Action>, id: string)
    requires 1 <= cfg.maxAttempts && After(cfg, run).Some?
    requires id in After(cfg, run).value.store.jobs
    ensures var s := After(cfg, run).value;
            && s.store.jobs[id].retryCount == s.reverted[id] + s.requeued[id] + s.retired[id]
            && (s.requeued[id] == 0 || s.requeued[id] <= cfg.maxRetries)
            && (s.store.jobs[id].status.Pending? ==> s.store.jobs[id].workerId == "")
  {
    RunKeepsInv(cfg, run);
    assert LedgerOf(cfg, After(cfg, run).value, id);
  }
}
