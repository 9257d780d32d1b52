/** The rows of the schema and the values that cross the store's interface. */
module Types {

  datatype Option<+T> = None | Some(value: T) {
    function GetOr(default: T): T {
      match this
      case Some(v) => v
      case None => default
    }
  }

  // Fencing tokens are BIGINT columns, attempt budgets INT columns.
  type Int64 = x: int | -0x8000_0000_0000_0000 <= x < 0x8000_0000_0000_0000
  type Int32 = x: int | -0x8000_0000 <= x < 0x8000_0000

  const MAX_INT64: Int64 := 0x7fff_ffff_ffff_ffff
  const MIN_INT64: Int64 := -0x8000_0000_0000_0000

  // Execution ids are random UUIDs; only their identity matters.
  type Id = nat

  // JSON documents are opaque text.
  type Json = string

  // Points in time and durations are counted in nanoseconds, the unit of Go's time.Duration.
  type Instant = int

  const SECOND: int := 1_000_000_000

  datatype Status = Pending | Ready | Running | Completed | Failed | Cancelled

  datatype EventType =
    | EvSubmitted
    | EvReady
    | EvClaimed
    | EvHeartbeat
    | EvCompleted
    | EvFailed
    | EvLeaseExpired
    | EvStaleRejected
    | EvRetryScheduled
    | EvCancelled
    | EvDuplicateDetected

  datatype Payload =
    | NoPayload
    | IdempotencyKey(key: string)
    | Origin(toolName: string, namespace: string)
    | Attempt(attempt: nat)
    | Reason(reason: string)
    | Failure(error: string, failedAttempt: nat)
    | RetryPlan(retryError: string, retryAttempt: nat, backoffSeconds: int)

  /** One row of execution_events, without its execution id. An absent worker is the NULL
      that appendEvent stores for the empty worker id. */
  datatype Event = Event(kind: EventType, worker: Option<string>, token: Option<Int64>, payload: Payload, at: Instant)

  datatype CallKey = CallKey(namespace: string, toolName: string, key: string)

  datatype Tool = Tool(name: string, maxAttempts: Int32)

  datatype Execution = Execution(
    key: CallKey,
    args: Json,
    status: Status,
    attempts: nat,
    maxAttempts: Int32,
    result: Option<Json>,
    error: Option<string>,
    createdAt: Instant
  )

  datatype Lease = Lease(worker: string, token: Int64, expires: Instant)

  datatype Retry = Retry(at: Instant, attempt: nat)

  /** What the scheduler's first query remembers about one expired lease. */
  datatype Expired = Expired(id: Id, attempts: nat, maxAttempts: Int32)

  datatype ClaimInfo = ClaimInfo(
    id: Id,
    toolName: string,
    args: Json,
    attempts: nat,
    maxAttempts: Int32,
    token: Int64,
    expires: Instant
  )

  /** The status word of a SubmitResult: "accepted" for a new call, else the stored status. */
  datatype SubmitStatus = Accepted | Existing(status: Status)

  datatype SubmitInfo = SubmitInfo(id: Id, status: SubmitStatus, result: Option<Json>, duplicate: bool)

  /** What one store operation answers. DbError stands for an error raised by the database
      itself (a violated foreign key, a duplicate primary key, a BIGINT out of range), after
      which the transaction is rolled back. */
  datatype Reply =
    | Done
    | Submitted(info: SubmitInfo)
    | Claimed(claim: ClaimInfo)
    | NoWork
    | Stale
    | UnknownTool
    | DbError
}
