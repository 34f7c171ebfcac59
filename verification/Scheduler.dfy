/**
 Scheduler.Dispatch (orchestrator/scheduler.go:81) with the ExecuteTask RPC as
 an accept/refuse oracle per worker, a pool that stands still and no other
 writer on the job.
 */
module Scheduler {
  import opened Jobs
  import opened JobStore
  import opened Mutators
  import opened Sets
  import opened WorkerPool

  datatype DispatchResult =
    | Accepted
    | NoWorkersAvailable
    | AllWorkersExhausted
    | JobAlreadyTerminal
    | JobNotFound
    | NoPayload

  /** An alive worker nobody tried yet, and none of those is lighter. */
  ghost predicate Lightest(workers: map<string, Worker>, before: seq<string>, w: string) {
    && w in AliveIn(workers) && w !in before
    && forall id :: id in AliveIn(workers) && id !in before ==> workers[w].activeTasks <= workers[id].activeTasks
  }

  /** Each attempt went to a lightest worker not tried before. */
  ghost predicate LightestFirst(workers: map<string, Worker>, order: seq<string>) {
    forall i {:trigger Lightest(workers, order[..i], order[i])} :: 0 <= i < |order| ==> Lightest(workers, order[..i], order[i])
  }

  /** So all are alive, no one is tried twice and loads never fall. */
  lemma InLoadOrder(workers: map<string, Worker>, order: seq<string>, i: nat, j: nat)
    requires LightestFirst(workers, order) && i < j < |order|
    ensures order[i] in workers && order[j] in workers && workers[order[i]].alive && workers[order[j]].alive
    ensures order[i] != order[j] && workers[order[i]].activeTasks <= workers[order[j]].activeTasks
  {
    assert Lightest(workers, order[..i], order[i]) && Lightest(workers, order[..j], order[j]);
    assert forall k :: 0 <= k < j ==> order[..j][k] == order[k];
    assert forall id :: id in order[..i] ==> id in order[..j];
  }

  lemma LightestAppended(workers: map<string, Worker>, order: seq<string>, w: string)
    requires LightestFirst(workers, order) && Lightest(workers, order, w)
    ensures LightestFirst(workers, order + [w])
  {
    forall i | 0 <= i < |order + [w]|
      ensures Lightest(workers, (order + [w])[..i], (order + [w])[i])
    {
      assert (order + [w])[..i] == order[..i];
      if i < |order| {
        assert Lightest(workers, order[..i], order[i]);
      } else {
        assert order[..i] == order;
      }
    }
  }

  /** Which answers the workers gave, for each way Dispatch can end. */
  ghost predicate Tried(workers: map<string, Worker>, accepts: string -> bool, r: DispatchResult, order: seq<string>)
  {
    && LightestFirst(workers, order)
    && (r.Accepted? ==>
          && order != []
          && accepts(order[|order| - 1])
          && forall i :: 0 <= i < |order| - 1 ==> !accepts(order[i]))
    && (r.NoWorkersAvailable? ==> order == [] && AliveIn(workers) == {})
    && (r.AllWorkersExhausted? ==>
          && order != []
          && Enumerates(order, AliveIn(workers))
          && forall id :: id in AliveIn(workers) ==> !accepts(id))
  }

  /** What each way of ending leaves of the job (timestamps aside). */
  ghost function Dispatched(rec: JobRecord, r: DispatchResult, order: seq<string>): JobRecord {
    match r
    case Accepted =>
      rec.(status := Running, workerId := if order == [] then "" else order[|order| - 1],
           retryCount := rec.retryCount + |order| - 1)
    case AllWorkersExhausted =>
      rec.(status := Pending, workerId := "", retryCount := rec.retryCount + |order|)
    case NoPayload =>
      rec.(status := Failed, error := "missing payload (pre-Phase-4 WAL entry)")
    case _ => rec
  }

  ghost predicate OnlyChanges(before: map<string, JobRecord>, after: map<string, JobRecord>, jobId: string) {
    jobId in after && after == before[jobId := after[jobId]]
  }

  /** Everyone tried so far is alive, came lightest first and said no. */
  ghost predicate Turned(workers: map<string, Worker>, accepts: string -> bool, order: seq<string>, tried: set<string>)
  {
    && LightestFirst(workers, order)
    && (forall id :: id in order <==> id in tried)
    && tried <= AliveIn(workers)
    && (forall i :: 0 <= i < |order| ==> !accepts(order[i]))
  }

  lemma TurnedByNext(workers: map<string, Worker>, accepts: string -> bool, order: seq<string>, tried: set<string>, w: string)
    requires Turned(workers, accepts, order, tried)
    requires Eligible(workers, tried, w)
    requires forall id :: Eligible(workers, tried, id) ==> workers[w].activeTasks <= workers[id].activeTasks
    ensures !accepts(w) ==> Turned(workers, accepts, order + [w], tried + {w})
    ensures accepts(w) ==> Tried(workers, accepts, Accepted, order + [w])
  {
    assert Lightest(workers, order, w) by {
      assert forall id :: id in AliveIn(workers) && id !in order ==> Eligible(workers, tried, id);
    }
    LightestAppended(workers, order, w);
    assert forall id :: id in order + [w] <==> id in order || id == w;
  }

  lemma TurnedByAll(workers: map<string, Worker>, accepts: string -> bool, order: seq<string>, tried: set<string>)
    requires Turned(workers, accepts, order, tried)
    requires AliveIn(workers) <= tried
    ensures Tried(workers, accepts, if tried == {} then NoWorkersAvailable else AllWorkersExhausted, order)
    ensures tried == {} <==> order == []
  {
    assert AliveIn(workers) == tried;
    assert order != [] ==> order[0] in tried;
    assert forall id :: id in AliveIn(workers) ==> id in order;
    forall i, j | 0 <= i < j < |order|
      ensures order[i] != order[j]
    {
      InLoadOrder(workers, order, i, j);
    }
  }

  /** The workers alone decide how a dispatch of a live job ends, and the job goes to a lightest one that takes it. */
  lemma WorkersDecide(workers: map<string, Worker>, accepts: string -> bool, r: DispatchResult, order: seq<string>)
    requires Tried(workers, accepts, r, order)
    requires r.Accepted? || r.NoWorkersAvailable? || r.AllWorkersExhausted?
    ensures r.NoWorkersAvailable? <==> AliveIn(workers) == {}
    ensures r.Accepted? <==> exists id :: id in AliveIn(workers) && accepts(id)
    ensures r.AllWorkersExhausted? <==> AliveIn(workers) != {} && forall id :: id in AliveIn(workers) ==> !accepts(id)
    ensures r.Accepted? ==> order != [] && order[|order| - 1] in AliveIn(workers) && forall id :: id in AliveIn(workers) && accepts(id) ==>
              workers[order[|order| - 1]].activeTasks <= workers[id].activeTasks
  {
    if r.Accepted? {
      var n := |order| - 1;
      var last := order[n];
      assert Lightest(workers, order[..n], last);
      assert last in AliveIn(workers) && accepts(last);
      assert forall i :: 0 <= i < n ==> order[..n][i] == order[i];
      assert forall id :: id in AliveIn(workers) && accepts(id) ==> id !in order[..n];
    } else if r.AllWorkersExhausted? {
      assert Lightest(workers, order[..0], order[0]);
    }
  }

  /** The record while workers are being tried: untouched before the first, reverted after each. */
  ghost function Tempted(rec: JobRecord, order: seq<string>): JobRecord {
    if order == [] then rec else Dispatched(rec, AllWorkersExhausted, order)
  }

  /** One more worker's answer on top of those before. */
  lemma TemptedByNext(rec: JobRecord, order: seq<string>, w: string, now: JobRecord, next: JobRecord)
    requires SameJob(now, Tempted(rec, order))
    ensures SameJob(next, now.(status := Running, workerId := w)) ==> SameJob(next, Dispatched(rec, Accepted, order + [w]))
    ensures SameJob(next, now.(status := Pending, workerId := "", retryCount := now.retryCount + 1)) ==>
              SameJob(next, Tempted(rec, order + [w]))
  {
  }

  class Scheduler {
    const pool: WorkerPool
    const store: BoltStore

    constructor (pool: WorkerPool, store: BoltStore)
      ensures this.pool == pool && this.store == store
    {
      this.pool, this.store := pool, store;
    }

    /** Mark RUNNING, send, and on a refusal revert: one turn of Dispatch's loop on a live job. */
    method TryWorker(jobId: string, w: string, accepts: string -> bool) returns (ok: bool)
      requires jobId in store.jobs && !Terminal(store.jobs[jobId].status)
      modifies store`jobs
      ensures ok == accepts(w)
      ensures OnlyChanges(old(store.jobs), store.jobs, jobId)
      ensures ok ==> SameJob(store.jobs[jobId], old(store.jobs)[jobId].(status := Running, workerId := w))
      ensures !ok ==> SameJob(store.jobs[jobId],
                              old(store.jobs)[jobId].(status := Pending, workerId := "",
                                                      retryCount := old(store.jobs)[jobId].retryCount + 1))
    {
      var now: int := *;
      var marked := store.Transition(jobId, r => Run(MarkRunning(w), r), now);
      if !marked.Committed? {
        assert false;                // only another writer could have ended the job
      }
      ok := accepts(w);
      if !ok {
        now := *;
        var _ := store.Transition(jobId, r => Run(RevertToPending, r), now);
      }
    }

    /** The loop of Dispatch: `order` is the order in which workers were tried. */
    method TryWorkers(jobId: string, accepts: string -> bool) returns (r: DispatchResult, ghost order: seq<string>)
      requires pool.Valid()
      requires jobId in store.jobs && !Terminal(store.jobs[jobId].status)
      modifies store`jobs
      ensures r.Accepted? || r.NoWorkersAvailable? || r.AllWorkersExhausted?
      ensures Tried(pool.workers, accepts, r, order)
      ensures OnlyChanges(old(store.jobs), store.jobs, jobId)
      ensures SameJob(store.jobs[jobId], Dispatched(old(store.jobs)[jobId], r, order))
    {
      order := [];
      var tried: set<string> := {};
      ghost var rec := store.jobs[jobId];
      while true
        invariant OnlyChanges(old(store.jobs), store.jobs, jobId)
        invariant Turned(pool.workers, accepts, order, tried)
        invariant SameJob(store.jobs[jobId], Tempted(rec, order))
        invariant !Terminal(store.jobs[jobId].status)
        decreases AliveIn(pool.workers) - tried
      {
        var best := pool.LeastLoadedAliveExcluding(tried);
        if best.None? {
          TurnedByAll(pool.workers, accepts, order, tried);
          r := if tried == {} then NoWorkersAvailable else AllWorkersExhausted;
          return;
        }
        var w := best.value.id;
        TurnedByNext(pool.workers, accepts, order, tried, w);
        tried := tried + {w};
        ghost var now := store.jobs[jobId];
        var ok := TryWorker(jobId, w, accepts);
        TemptedByNext(rec, order, w, now, store.jobs[jobId]);
        order := order + [w];
        if ok {
          return Accepted, order;
        }
      }
    }

    method Dispatch(jobId: string, accepts: string -> bool) returns (r: DispatchResult, ghost order: seq<string>)
      requires pool.Valid()
      modifies store`jobs
      ensures r.JobNotFound? <==> jobId !in old(store.jobs)
      ensures r.JobNotFound? ==> store.jobs == old(store.jobs)
      ensures !r.JobNotFound? ==>
                && (r.JobAlreadyTerminal? <==> Terminal(old(store.jobs)[jobId].status))
                && (r.NoPayload? <==> !Terminal(old(store.jobs)[jobId].status) && old(store.jobs)[jobId].functionBytes == [])
                && OnlyChanges(old(store.jobs), store.jobs, jobId)
                && SameJob(store.jobs[jobId], Dispatched(old(store.jobs)[jobId], r, order))
      ensures r.JobAlreadyTerminal? ==> store.jobs == old(store.jobs)
      ensures Tried(pool.workers, accepts, r, order)
    {
      order := [];
      var found := store.GetJob(jobId);
      if found.None? {
        return JobNotFound, order;
      }
      var rec := found.value;
      if Terminal(rec.status) {
        return JobAlreadyTerminal, order;
      }
      if rec.functionBytes == [] {
        var now: int := *;
        var _ := store.Transition(jobId, r => Run(MissingPayload, r), now);
        return NoPayload, order;
      }
      r, order := TryWorkers(jobId, accepts);
    }
  }
}
