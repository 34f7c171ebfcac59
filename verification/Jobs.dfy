/**
 The job record and the vocabulary every other module shares
 (orchestrator/job_store.go, orchestrator/watch.go).
 */
module Jobs {

  newtype byte = x: int | 0 <= x < 256
  type Bytes = seq<byte>

  datatype Option<+T> = None | Some(value: T)

  datatype JobStatus = Pending | Running | Done | Failed

  predicate Terminal(status: JobStatus) {
    status.Done? || status.Failed?
  }

  /** One row of the jobs bucket. Times are opaque integers; 0 is Go's zero time. */
  datatype JobRecord = JobRecord(
    id: string,
    status: JobStatus,
    workerId: string,
    functionName: string,
    functionBytes: Bytes,
    argsBytes: Bytes,
    resultBytes: Bytes,
    coldStartMs: int,
    executionMs: int,
    idempotencyKey: string,
    createdAt: int,
    updatedAt: int,
    retryCount: int,
    error: string,
    version: int)

  predicate Unfinished(rec: JobRecord) {
    rec.status.Pending? || rec.status.Running?
  }

  /** What a Transition closure answers: a record to write back, ErrSkipTransition, or another error. */
  datatype Mutation = Write(rec: JobRecord) | Skip | Abort(error: string)

  /** The timestamps a store puts on a record it is about to write. */
  function Stamp(rec: JobRecord, now: int): (r: JobRecord)
    ensures r.updatedAt == now && r.createdAt == (if rec.createdAt == 0 then now else rec.createdAt)
    ensures r.(updatedAt := rec.updatedAt, createdAt := rec.createdAt) == rec
  {
    rec.(updatedAt := now, createdAt := if rec.createdAt == 0 then now else rec.createdAt)
  }

  /** Go's int32(x) on a 64-bit int. */
  function ToInt32(x: int): (r: int)
    ensures -0x8000_0000 <= r < 0x8000_0000
    ensures (x - r) % 0x1_0000_0000 == 0
    ensures -0x8000_0000 <= x < 0x8000_0000 ==> r == x
  {
    (x + 0x8000_0000) % 0x1_0000_0000 - 0x8000_0000
  }

  /** The terminal event a watcher receives. */
  datatype JobResult = JobResult(
    jobId: string,
    status: JobStatus,
    resultBytes: Bytes,
    error: string,
    coldStartMs: int,
    totalDurationMs: int,
    retryCount: int,
    workerId: string)

  function ResultOf(rec: JobRecord): JobResult {
    JobResult(rec.id, rec.status, rec.resultBytes, rec.error, rec.coldStartMs,
              rec.coldStartMs + rec.executionMs, ToInt32(rec.retryCount), rec.workerId)
  }
}
