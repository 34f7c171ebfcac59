/**
 BoltStore (orchestrator/job_store.go): the jobs bucket and the idempotency
 bucket, each a map; each transaction one atomic method.
 */
module JobStore {
  import opened Jobs
  import opened Sets

  datatype State = State(jobs: map<string, JobRecord>, index: map<string, string>)

  const EMPTY := State(map[], map[])

  /** Every job sits under its own id. */
  predicate KeyedById(s: State) {
    forall id :: id in s.jobs ==> s.jobs[id].id == id
  }

  ghost function UnfinishedIds(jobs: map<string, JobRecord>): set<string> {
    set id | id in jobs && !Terminal(jobs[id].status)
  }

  ghost function RunningOn(jobs: map<string, JobRecord>, worker: string): set<string> {
    set id | id in jobs && jobs[id].status.Running? && jobs[id].workerId == worker
  }

  /** `list` holds the records stored under `keys`, in that order. */
  ghost predicate Lists(list: seq<JobRecord>, jobs: map<string, JobRecord>, keys: seq<string>) {
    && |list| == |keys|
    && forall i :: 0 <= i < |keys| ==> keys[i] in jobs && list[i] == jobs[keys[i]]
  }

  /** `list` holds each record stored under one of `ids` once, in some order. */
  ghost predicate ListsAll(list: seq<JobRecord>, jobs: map<string, JobRecord>, ids: set<string>) {
    exists keys :: Enumerates(keys, ids) && Lists(list, jobs, keys)
  }

  datatype TransitionResult = Committed | Skipped | NotFound | Aborted(error: string)

  datatype CasResult = Swapped | Conflict | Missing

  datatype SubmitResult = SubmitResult(jobId: string, created: bool)

  /** submitRaw as a function of the store (job_store.go:323). */
  function Submitted(s: State, rec: JobRecord, key: string): (State, SubmitResult) {
    if key != "" && key in s.index then
      (s, SubmitResult(s.index[key], false))
    else
      (State(s.jobs[rec.id := rec], if key != "" then s.index[key := rec.id] else s.index),
       SubmitResult(rec.id, true))
  }

  /** The jobs bucket after putting the records of `list` one after another. */
  function JobsOf(list: seq<JobRecord>): map<string, JobRecord> {
    if list == [] then map[]
    else JobsOf(list[..|list| - 1])[list[|list| - 1].id := list[|list| - 1]]
  }

  class BoltStore {
    var jobs: map<string, JobRecord>
    var index: map<string, string>

    function View(): State
      reads this
    {
      State(jobs, index)
    }

    /** Opens the file with whatever is in it; a new file has two empty buckets. */
    constructor (onDisk: State)
      ensures View() == onDisk
    {
      jobs, index := onDisk.jobs, onDisk.index;
    }

    method PutJob(rec: JobRecord, now: int)
      modifies this`jobs
      ensures jobs == old(jobs)[rec.id := Stamp(rec, now)]
    {
      jobs := jobs[rec.id := Stamp(rec, now)];
    }

    method GetJob(id: string) returns (rec: Option<JobRecord>)
      ensures rec == if id in jobs then Some(jobs[id]) else None
    {
      if id !in jobs {
        return None;
      }
      rec := Some(jobs[id]);
    }

    /** Read, mutate and write back in one transaction; nothing else moves. */
    method Transition(jobId: string, mutate: JobRecord -> Mutation, now: int) returns (r: TransitionResult)
      modifies this`jobs
      ensures jobId !in old(jobs) <==> r.NotFound?
      ensures r.Committed? ==>
                && mutate(old(jobs)[jobId]).Write?
                && jobs == old(jobs)[jobId := Stamp(mutate(old(jobs)[jobId]).rec, now)]
      ensures r.Skipped? ==> mutate(old(jobs)[jobId]).Skip?
      ensures r.Aborted? ==> mutate(old(jobs)[jobId]) == Abort(r.error)
      ensures !r.Committed? ==> jobs == old(jobs)
    {
      if jobId !in jobs {
        return NotFound;
      }
      match mutate(jobs[jobId])
      case Skip => r := Skipped;
      case Abort(e) => r := Aborted(e);
      case Write(rec) =>
        jobs := jobs[jobId := Stamp(rec, now)];
        r := Committed;
    }

    /** Bucket.ForEach with a filter, in any key order. */
    method Select(keep: JobRecord -> bool) returns (out: seq<JobRecord>)
      ensures ListsAll(out, jobs, set id | id in jobs && keep(jobs[id]))
    {
      out := [];
      ghost var keys: seq<string> := [];
      var rest := jobs.Keys;
      while rest != {}
        invariant rest <= jobs.Keys
        invariant Enumerates(keys, set id | id in jobs && id !in rest && keep(jobs[id]))
        invariant Lists(out, jobs, keys)
        decreases rest
      {
        var k :| k in rest;
        rest := rest - {k};
        assert k !in keys;
        if keep(jobs[k]) {
          assert forall x :: x in keys + [k] <==> x in keys || x == k;
          out, keys := out + [jobs[k]], keys + [k];
        }
      }
    }

    method ListUnfinished() returns (out: seq<JobRecord>)
      ensures ListsAll(out, jobs, UnfinishedIds(jobs))
    {
      out := Select(Unfinished);
      assert (set id | id in jobs && Unfinished(jobs[id])) == UnfinishedIds(jobs);
    }

    method ListRunningOnWorker(workerId: string) returns (out: seq<JobRecord>)
      ensures ListsAll(out, jobs, RunningOn(jobs, workerId))
    {
      out := Select((rec: JobRecord) => rec.status.Running? && rec.workerId == workerId);
      assert (set id | id in jobs && ((rec: JobRecord) => rec.status.Running? && rec.workerId == workerId)(jobs[id]))
          == RunningOn(jobs, workerId);
    }

    method SubmitWithIdempotency(rec: JobRecord, key: string, now: int) returns (r: SubmitResult)
      modifies this
      ensures (View(), r) == Submitted(old(View()), Stamp(rec.(idempotencyKey := key), now), key)
    {
      r := SubmitRaw(Stamp(rec.(idempotencyKey := key), now), key);
    }

    method PutJobRaw(rec: JobRecord)
      modifies this`jobs
      ensures jobs == old(jobs)[rec.id := rec]
    {
      jobs := jobs[rec.id := rec];
    }

    method CasPut(jobId: string, expected: int, rec: JobRecord) returns (r: CasResult)
      modifies this`jobs
      ensures r.Missing? <==> jobId !in old(jobs)
      ensures r.Conflict? <==> jobId in old(jobs) && old(jobs)[jobId].version != expected
      ensures jobs == if r.Swapped? then old(jobs)[jobId := rec] else old(jobs)
    {
      if jobId !in jobs {
        return Missing;
      }
      if jobs[jobId].version != expected {
        return Conflict;
      }
      jobs := jobs[jobId := rec];
      r := Swapped;
    }

    method SubmitRaw(rec: JobRecord, key: string) returns (r: SubmitResult)
      modifies this
      ensures (View(), r) == Submitted(old(View()), rec, key)
    {
      if key != "" {
        if key in index {
          return SubmitResult(index[key], false);
        }
      }
      jobs := jobs[rec.id := rec];
      if key != "" {
        index := index[key := rec.id];
      }
      r := SubmitResult(rec.id, true);
    }

    method ExportState() returns (list: seq<JobRecord>, idem: map<string, string>)
      ensures ListsAll(list, jobs, jobs.Keys)
      ensures idem == index
    {
      list := Select(_ => true);
      assert (set id | id in jobs) == jobs.Keys;
      idem := map[];
      var rest := index.Keys;
      while rest != {}
        invariant rest <= index.Keys
        invariant idem == map k | k in index && k !in rest :: index[k]
        decreases rest
      {
        var k :| k in rest;
        rest := rest - {k};
        idem := idem[k := index[k]];
      }
    }

    /** Drops both buckets, then refills them from the snapshot. */
    method ImportState(list: seq<JobRecord>, idem: map<string, string>)
      modifies this
      ensures View() == State(JobsOf(list), idem)
    {
      jobs, index := map[], map[];
      for i := 0 to |list|
        invariant jobs == JobsOf(list[..i])
        invariant index == map[]
      {
        assert list[..i + 1][..i] == list[..i];
        jobs := jobs[list[i].id := list[i]];
      }
      assert list[..|list|] == list;
      var rest := idem.Keys;
      while rest != {}
        invariant rest <= idem.Keys
        invariant jobs == JobsOf(list)
        invariant index == map k | k in idem && k !in rest :: idem[k]
        decreases rest
      {
        var k :| k in rest;
        rest := rest - {k};
        index := index[k := idem[k]];
      }
    }
  }

  /** An exported list, whatever its order, refills exactly the bucket it came from. */
  lemma ImportUndoesExport(s: State, list: seq<JobRecord>)
    requires KeyedById(s)
    requires ListsAll(list, s.jobs, s.jobs.Keys)
    ensures JobsOf(list) == s.jobs
  {
    var keys :| Enumerates(keys, s.jobs.Keys) && Lists(list, s.jobs, keys);
    RefilledFrom(s, list, keys);
  }

  lemma RefilledFrom(s: State, list: seq<JobRecord>, keys: seq<string>)
    requires KeyedById(s)
    requires Enumerates(keys, s.jobs.Keys) && Lists(list, s.jobs, keys)
    ensures JobsOf(list) == s.jobs
  {
    JobsOfListed(s.jobs, list, keys);
    forall id | id in s.jobs
      ensures id in JobsOf(list)
    {
      assert id in keys;
    }
  }

  lemma {:induction false} JobsOfListed(jobs: map<string, JobRecord>, list: seq<JobRecord>, keys: seq<string>)
    requires forall id :: id in jobs ==> jobs[id].id == id
    requires Lists(list, jobs, keys)
    ensures JobsOf(list).Keys == (set k | k in keys)
    ensures forall id :: id in JobsOf(list) ==> JobsOf(list)[id] == jobs[id]
  {
    if list != [] {
      var n := |list| - 1;
      JobsOfListed(jobs, list[..n], keys[..n]);
      assert keys == keys[..n] + [keys[n]];
    }
  }
}
