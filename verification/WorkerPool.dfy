/**
 WorkerPool (orchestrator/worker_pool.go): registration, heartbeats, the
 liveness sweep and the least-loaded pick. Clocks are parameters.
 */
module WorkerPool {
  import opened Jobs
  import opened Sets

  datatype Worker = Worker(
    id: string,
    address: string,
    capacity: int,
    activeTasks: int,
    registeredAt: int,
    lastHeartbeat: int,
    alive: bool)

  predicate Eligible(workers: map<string, Worker>, exclude: set<string>, id: string) {
    id in workers && workers[id].alive && id !in exclude
  }

  ghost function AliveIn(workers: map<string, Worker>): set<string> {
    set id | id in workers && workers[id].alive
  }

  class WorkerPool {
    const timeout: int
    var workers: map<string, Worker>

    ghost predicate Valid()
      reads this
    {
      forall id :: id in workers ==> workers[id].id == id
    }

    constructor (timeout: int)
      ensures Valid() && this.timeout == timeout && workers == map[]
    {
      this.timeout := timeout;
      workers := map[];
    }

    method Register(id: string, address: string, capacity: int, now: int)
      requires Valid()
      modifies this
      ensures Valid()
      ensures workers == old(workers)[id := Worker(id, address, capacity, 0, now, now, true)]
    {
      workers := workers[id := Worker(id, address, capacity, 0, now, now, true)];
    }

    /** False for an unknown worker; a known one is alive afterwards even if it had been swept. */
    method RecordHeartbeat(id: string, activeTasks: int, now: int) returns (known: bool)
      requires Valid()
      modifies this
      ensures Valid()
      ensures known <==> id in old(workers)
      ensures known ==> workers == old(workers)[id := old(workers)[id].(alive := true, lastHeartbeat := now, activeTasks := activeTasks)]
      ensures !known ==> workers == old(workers)
    {
      if id !in workers {
        return false;
      }
      var w := workers[id];
      if !w.alive {
        w := w.(alive := true);
      }
      workers := workers[id := w.(lastHeartbeat := now, activeTasks := activeTasks)];
      known := true;
    }

    /** An alive worker outside `exclude` with the fewest tasks; None exactly when there is none. */
    method LeastLoadedAliveExcluding(exclude: set<string>) returns (best: Option<Worker>)
      requires Valid()
      ensures best.None? <==> AliveIn(workers) <= exclude
      ensures best.Some? ==>
                && Eligible(workers, exclude, best.value.id)
                && workers[best.value.id] == best.value
                && forall id :: Eligible(workers, exclude, id) ==> best.value.activeTasks <= workers[id].activeTasks
    {
      best := None;
      var rest := workers.Keys;
      while rest != {}
        invariant rest <= workers.Keys
        invariant best.None? <==> forall id :: id in workers && id !in rest ==> !Eligible(workers, exclude, id)
        invariant best.Some? ==>
                    && Eligible(workers, exclude, best.value.id)
                    && workers[best.value.id] == best.value
                    && forall id :: id !in rest && Eligible(workers, exclude, id) ==> best.value.activeTasks <= workers[id].activeTasks
        decreases rest
      {
        var k :| k in rest;
        rest := rest - {k};
        var w := workers[k];
        if w.alive && w.id !in exclude {
          if best.None? || w.activeTasks < best.value.activeTasks {
            best := Some(w);
          }
        }
      }
      assert best.None? ==> forall id :: id in AliveIn(workers) ==> !Eligible(workers, exclude, id);
    }

    /** Marks exactly the overdue workers dead and reports each of them once. */
    method Sweep(now: int) returns (dead: seq<string>)
      requires Valid()
      modifies this
      ensures Valid()
      ensures Enumerates(dead, AliveIn(old(workers)) - AliveIn(workers))
      ensures workers.Keys == old(workers).Keys
      ensures forall id :: id in workers ==>
                workers[id] == old(workers)[id].(alive := old(workers)[id].alive && now - old(workers)[id].lastHeartbeat <= timeout)
    {
      dead := [];
      var rest := workers.Keys;
      while rest != {}
        invariant rest <= workers.Keys == old(workers).Keys
        invariant forall id :: id in rest ==> workers[id] == old(workers)[id]
        invariant forall id :: id in workers && id !in rest ==>
                    workers[id] == old(workers)[id].(alive := old(workers)[id].alive && now - old(workers)[id].lastHeartbeat <= timeout)
        invariant Enumerates(dead, set id | id in workers && old(workers)[id].alive && !workers[id].alive)
        decreases rest
      {
        var id :| id in rest;
        rest := rest - {id};
        var w := workers[id];
        assert id !in dead;
        if w.alive && now - w.lastHeartbeat > timeout {
          assert forall x :: x in dead + [id] <==> x in dead || x == id;
          workers := workers[id := w.(alive := false)];
          dead := dead + [id];
        }
      }
      assert (set id | id in workers && old(workers)[id].alive && !workers[id].alive) == AliveIn(old(workers)) - AliveIn(workers);
    }
  }
}
