/** The values the queue stores and exchanges: jobs, enqueue results, cron entries. */
module Types {

  datatype Option<+T> = None | Some(value: T)

  /** A Go `(T, error)` pair; the error text is not modelled, only its presence and kind. */
  datatype Result<+T> = Ok(value: T) | Err(error: StorageError)

  datatype StorageError = NotFound | NotFailed | ConstraintViolation | BadPayload

  /** Instants and durations, in nanoseconds. */
  type Time = int
  type Duration = int

  const SECOND: Duration := 1_000_000_000

  type Id = string
  type Key = string

  datatype Status = Pending | Running | Done | Failed

  /** The struct `Job`. The empty dedup key means "not deduplicated". */
  datatype Job = Job(
    id: Id,
    typ: string,
    payload: seq<bv8>,
    status: Status,
    attempts: int,
    maxAttempts: int,
    runAt: Time,
    createdAt: Time,
    updatedAt: Time,
    lastError: string,
    key: Key,
    ttl: Duration,
    expiresAt: Option<Time>)

  datatype DedupMode = Ignore | Replace

  datatype EnqueueAction = Inserted | Replaced | SkippedDuplicate | SkippedRunning

  /** The conflicting row reported with every action but `Inserted`. */
  datatype Conflict = Conflict(id: Id, status: Status)

  datatype EnqueueResult = EnqueueResult(action: EnqueueAction, existing: Option<Conflict>)

  datatype JobStats = JobStats(pending: nat, running: nat, done: nat, failed: nat)

  datatype CronEntry = CronEntry(
    name: string,
    schedule: Duration,
    lastRun: Option<Time>,
    nextRun: Time,
    createdAt: Time)

  function Min(a: int, b: int): int { if a <= b then a else b }

  function Max(a: int, b: int): int { if a <= b then b else a }
}
