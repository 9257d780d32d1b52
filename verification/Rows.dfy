/** The effect of every store transaction on the one execution it touches. A Record collects
    all rows that belong to an execution: its row in each of the four tables. */
module Rows {
  import opened Types
  import opened Durations
  import opened EventLog

  datatype Record = Record(exec: Execution, lease: Option<Lease>, retry: Option<Retry>, events: seq<Event>)

  const EXPIRED_TEXT := "lease expired after max attempts"
  const COMPLETE_REJECTED := "completion rejected: fencing token superseded or lease expired"
  const FAIL_REJECTED := "failure rejected: fencing token superseded or lease expired"
  const PROMOTED_TEXT := "retry promoted"

  function WorkerColumn(worker: string): Option<string> {
    if worker == "" then None else Some(worker)
  }

  /** The guard of Heartbeat, Complete and Fail: the lease row alone, never the status. */
  predicate Holds(r: Record, token: Int64, now: Instant) {
    r.lease.Some? && r.lease.value.token == token && r.lease.value.expires > now
  }

  function SubmitRow(key: CallKey, args: Json, maxAttempts: Int32, now: Instant): Record {
    var exec := Execution(key, if args == "" then "{}" else args, Ready, 0, maxAttempts, None, None, now);
    Record(exec, None, None,
           [Event(EvSubmitted, None, None, Origin(key.toolName, key.namespace), now),
            Event(EvReady, None, None, NoPayload, now)])
  }

  function DuplicateRow(r: Record, key: string, now: Instant): Record {
    r.(events := r.events + [Event(EvDuplicateDetected, None, None, IdempotencyKey(key), now)])
  }

  predicate TokenAvailable(r: Record) {
    NextToken(r.events) <= MAX_INT64
  }

  function FreshToken(r: Record): Int64
    requires TokenAvailable(r)
  {
    assert MaxToken(r.events).Some? ==> MaxToken(r.events).value >= -0x8000_0000_0000_0000;
    NextToken(r.events)
  }

  /** When the next token does not fit a BIGINT the claim is rolled back. */
  function ClaimRow(r: Record, worker: string, leaseSeconds: int, now: Instant): Record {
    if !TokenAvailable(r) then r
    else
      var token := FreshToken(r);
      var attempts := r.exec.attempts + 1;
      r.(exec := r.exec.(status := Running, attempts := attempts),
         lease := Some(Lease(worker, token, now + leaseSeconds * SECOND)),
         events := r.events + [Event(EvClaimed, WorkerColumn(worker), Some(token), Attempt(attempts), now)])
  }

  function HeartbeatRow(r: Record, token: Int64, leaseSeconds: int, now: Instant): Record {
    if !Holds(r, token, now) then r
    else
      r.(lease := Some(r.lease.value.(expires := now + leaseSeconds * SECOND)),
         events := r.events + [Event(EvHeartbeat, None, Some(token), NoPayload, now)])
  }

  function CompleteRow(r: Record, token: Int64, worker: string, result: Option<Json>, now: Instant): Record {
    if !Holds(r, token, now) then
      r.(events := r.events + [Event(EvStaleRejected, WorkerColumn(worker), Some(token),
                                     Reason(COMPLETE_REJECTED), now)])
    else
      r.(exec := r.exec.(status := Completed, result := result, error := None),
         lease := None,
         events := r.events + [Event(EvCompleted, WorkerColumn(worker), Some(token), NoPayload, now)])
  }

  function FailRow(r: Record, token: Int64, worker: string, error: string, now: Instant): Record {
    if !Holds(r, token, now) then
      r.(events := r.events + [Event(EvStaleRejected, WorkerColumn(worker), Some(token), Reason(FAIL_REJECTED), now)])
    else if r.exec.attempts >= r.exec.maxAttempts then
      FailedRow(r, token, worker, error, now)
    else
      RetryRow(r, token, worker, error, BackoffSeconds(r.exec.attempts), now)
  }

  function FailedRow(r: Record, token: Int64, worker: string, error: string, now: Instant): Record {
    r.(exec := r.exec.(status := Failed, error := Some(error)),
       lease := None,
       events := r.events + [Event(EvFailed, WorkerColumn(worker), Some(token), Failure(error, r.exec.attempts), now)])
  }

  function RetryRow(r: Record, token: Int64, worker: string, error: string, backoff: int, now: Instant): Record {
    r.(exec := r.exec.(status := Pending, error := Some(error)),
       lease := None,
       retry := Some(Retry(now + backoff * SECOND, r.exec.attempts)),
       events := r.events + [Event(EvRetryScheduled, WorkerColumn(worker), Some(token),
                                   RetryPlan(error, r.exec.attempts, backoff), now)])
  }

  /** expireLease acts on the attempt numbers its pass read earlier, and checks nothing. */
  function ExpireRow(r: Record, attempts: nat, maxAttempts: Int32, now: Instant): Record {
    var logged := r.events + [Event(EvLeaseExpired, None, None, Attempt(attempts), now)];
    if attempts >= maxAttempts then
      r.(exec := r.exec.(status := Failed, error := Some(EXPIRED_TEXT)),
         lease := None,
         events := logged + [Event(EvFailed, None, None, Reason(EXPIRED_TEXT), now)])
    else
      r.(exec := r.exec.(status := Ready), lease := None, events := logged)
  }

  /** promoteRetry checks nothing either. */
  function PromoteRow(r: Record, now: Instant): Record {
    r.(exec := r.exec.(status := Ready),
       retry := None,
       events := r.events + [Event(EvReady, None, None, Reason(PROMOTED_TEXT), now)])
  }

  datatype RowOp =
    | OpNone
    | OpDuplicate(key: string)
    | OpClaim(worker: string, leaseSeconds: int)
    | OpHeartbeat(token: Int64, leaseSeconds: int)
    | OpComplete(token: Int64, worker: string, result: Option<Json>)
    | OpFail(token: Int64, worker: string, error: string)
    | OpExpire(attempts: nat, maxAttempts: Int32)
    | OpPromote

  function Apply(r: Record, op: RowOp, now: Instant): Record {
    match op
    case OpNone => r
    case OpDuplicate(key) => DuplicateRow(r, key, now)
    case OpClaim(worker, secs) => ClaimRow(r, worker, secs, now)
    case OpHeartbeat(token, secs) => HeartbeatRow(r, token, secs, now)
    case OpComplete(token, worker, result) => CompleteRow(r, token, worker, result, now)
    case OpFail(token, worker, error) => FailRow(r, token, worker, error, now)
    case OpExpire(attempts, maxAttempts) => ExpireRow(r, attempts, maxAttempts, now)
    case OpPromote => PromoteRow(r, now)
  }

  // ----- the scheduler's two queries, row by row -----

  predicate IsStale(r: Record, now: Instant) {
    r.exec.status == Running && r.lease.Some? && r.lease.value.expires < now
  }

  predicate IsDue(r: Record, now: Instant) {
    r.retry.Some? && r.retry.value.at <= now
  }
}
