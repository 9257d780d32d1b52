/** The invariants that tie an execution's status to its lease row, its retry row and its
    history, as long as the scheduler acts only on rows that its queries still describe. */
module Coupling {
  import opened Types
  import opened Durations
  import opened EventLog
  import opened Rows

  /** A call is tried at least once, whatever its tool's max_attempts. */
  function Budget(e: Execution): nat {
    if e.maxAttempts < 1 then 1 else e.maxAttempts
  }

  /** The call has its outcome. */
  predicate IsOver(r: Record) {
    r.exec.status == Completed || r.exec.status == Failed
  }

  /** The row operation finds the row the way its caller believes it to be. */
  predicate Guarded(r: Record, op: RowOp, now: Instant) {
    match op
    case OpClaim(_, _) => r.exec.status == Ready
    case OpExpire(attempts, maxAttempts) =>
      IsStale(r, now) && attempts == r.exec.attempts && maxAttempts == r.exec.maxAttempts
    case OpPromote => r.exec.status == Pending && IsDue(r, now)
    case _ => true
  }

  ghost predicate Coupled(r: Record) {
    var e := r.exec;
    && e.status != Cancelled
    && (e.status == Running <==> r.lease.Some?)
    && (e.status == Pending <==> r.retry.Some?)
    && (r.retry.Some? ==> r.retry.value.attempt == e.attempts)
    && e.attempts <= Budget(e)
    && (e.status == Ready || e.status == Pending ==> e.attempts < Budget(e))
    && (e.status == Running || e.status == Completed || e.status == Failed ==> 0 < e.attempts)
    && e.attempts == Count(r.events, EvClaimed)
    && (e.result.Some? ==> e.status == Completed)
    && Count(r.events, EvCompleted) == (if e.status == Completed then 1 else 0)
  }

  /** What of a row its history can tell. */
  function Shown(r: Record): Snapshot {
    Snapshot(
      r.exec.status,
      r.exec.attempts,
      r.exec.error,
      if r.lease.Some? then Some(Holder(r.lease.value.worker, r.lease.value.token)) else None,
      if r.retry.Some? then Some(r.retry.value.attempt) else None)
  }

  /** The history alone determines the row. */
  ghost predicate Replayable(r: Record) {
    Replay(r.events) == Shown(r)
  }

  lemma SubmittedIsCoupled(key: CallKey, args: Json, maxAttempts: Int32, now: Instant)
    ensures var r := SubmitRow(key, args, maxAttempts, now); Coupled(r) && Replayable(r)
  {
    var r := SubmitRow(key, args, maxAttempts, now);
    assert r.events == [] + [r.events[0]] + [r.events[1]];
    Appended([], r.events[0]);
    Appended([] + [r.events[0]], r.events[1]);
  }

  /** How an operation extends the history: not at all, by one event, or by two. */
  lemma Extended(r: Record, op: RowOp, now: Instant) returns (es: seq<Event>, e: Event)
    requires Apply(r, op, now).events != r.events
    ensures Apply(r, op, now).events == es + [e]
    ensures e == Last(Apply(r, op, now).events)
    ensures es == r.events || (op.OpExpire? && es != [] && es == r.events + [Last(es)])
  {
    var all, n := Apply(r, op, now).events, |r.events|;
    if op.OpExpire? && op.attempts >= op.maxAttempts {
      es, e := r.events + [all[n]], all[n + 1];
    } else {
      es, e := r.events, all[n];
    }
  }

  /** Only a successful claim is counted as one, and only an accepted completion. */
  lemma CountsStep(r: Record, op: RowOp, now: Instant)
    ensures Count(Apply(r, op, now).events, EvClaimed) ==
            Count(r.events, EvClaimed) + (if op.OpClaim? && TokenAvailable(r) then 1 else 0)
    ensures Count(Apply(r, op, now).events, EvCompleted) ==
            Count(r.events, EvCompleted) + (if op.OpComplete? && Holds(r, op.token, now) then 1 else 0)
  {
    if Apply(r, op, now).events != r.events {
      var es, e := Extended(r, op, now);
      Appended(es, e);
      if es != r.events {
        Appended(r.events, Last(es));
        assert Last(es) == Apply(r, op, now).events[|r.events|];
      }
    }
  }

  lemma CoupledStep(r: Record, op: RowOp, now: Instant)
    requires Coupled(r) && Guarded(r, op, now)
    ensures Coupled(Apply(r, op, now))
  {
    CountsStep(r, op, now);
    ColumnsStep(r, op, now, Apply(r, op, now));
  }

  /** The same, going by the columns and the counts alone. */
  lemma ColumnsStep(r: Record, op: RowOp, now: Instant, r': Record)
    requires Coupled(r) && Guarded(r, op, now) && r' == Apply(r, op, now)
    requires Count(r'.events, EvClaimed) ==
             Count(r.events, EvClaimed) + (if op.OpClaim? && TokenAvailable(r) then 1 else 0)
    requires Count(r'.events, EvCompleted) ==
             Count(r.events, EvCompleted) + (if op.OpComplete? && Holds(r, op.token, now) then 1 else 0)
    ensures Coupled(r')
  {
  }

  /** The last event of an operation tells what the operation did. */
  lemma ShownStep(r: Record, op: RowOp, now: Instant, e: Event)
    requires Coupled(r) && Guarded(r, op, now) && Apply(r, op, now).events == r.events + [e]
    ensures Shown(Apply(r, op, now)) == ReplayOne(Shown(r), e)
  {
    assert e == Apply(r, op, now).events[|r.events|];
  }

  /** Reaped for good: the second event has the last word. */
  lemma ShownExpiry(r: Record, op: RowOp, now: Instant, e: Event, f: Event)
    requires Coupled(r) && Guarded(r, op, now) && op.OpExpire? && Apply(r, op, now).events == r.events + [e] + [f]
    ensures Shown(Apply(r, op, now)) == ReplayOne(ReplayOne(Shown(r), e), f)
  {
    var es := Apply(r, op, now).events;
    assert e == es[|r.events|] && f == es[|r.events| + 1];
  }

  lemma ReplayableStep(r: Record, op: RowOp, now: Instant)
    requires Coupled(r) && Replayable(r) && Guarded(r, op, now)
    ensures Replayable(Apply(r, op, now))
  {
    if Apply(r, op, now).events != r.events {
      var es, e := Extended(r, op, now);
      Appended(es, e);
      if es != r.events {
        Appended(r.events, Last(es));
        ShownExpiry(r, op, now, Last(es), e);
      } else {
        ShownStep(r, op, now, e);
      }
    }
  }

  // ----- how far a call can still get -----

  /** The number of status changes still possible. */
  function Potential(r: Record): int {
    var left := Budget(r.exec) - r.exec.attempts;
    match r.exec.status
    case Ready => 3 * left - 1
    case Running => 3 * left + 1
    case Pending => 3 * left
    case _ => 0
  }

  /** Every status change uses up some of it, nothing ever adds to it, and the outcome of a
      call, once there is one, is never touched again. */
  lemma PotentialStep(r: Record, op: RowOp, now: Instant)
    requires Coupled(r) && Guarded(r, op, now)
    ensures var r' := Apply(r, op, now);
      && 0 <= Potential(r') <= Potential(r)
      && (r'.exec.status != r.exec.status ==> Potential(r') < Potential(r))
      && (IsOver(r) ==> r'.exec == r.exec)
      && r'.exec.maxAttempts == r.exec.maxAttempts
      && r'.exec.createdAt == r.exec.createdAt
      && r'.exec.key == r.exec.key
  {
  }

  // ----- retries and their backoff -----

  /** The number of attempts whose retry may already be on record. */
  function Tried(r: Record): nat {
    if r.exec.status in {Ready, Pending} then r.exec.attempts + 1 else r.exec.attempts
  }

  /** All backoff ever scheduled for the row is bounded by the attempts made. */
  ghost predicate BackoffBounded(r: Record) {
    BackoffSum(r.events) <= Pow2(Tried(r)) - 2
  }

  /** Only an accepted, retryable Fail schedules backoff. */
  lemma BackoffSumStep(r: Record, op: RowOp, now: Instant)
    ensures BackoffSum(Apply(r, op, now).events) ==
            BackoffSum(r.events)
            + (if op.OpFail? && Holds(r, op.token, now) && r.exec.attempts < r.exec.maxAttempts
               then Wait(BackoffSeconds(r.exec.attempts)) else 0)
  {
  }

  lemma BackoffStep(r: Record, op: RowOp, now: Instant)
    requires Coupled(r) && BackoffBounded(r) && Guarded(r, op, now)
    ensures BackoffBounded(Apply(r, op, now))
  {
    BackoffSumStep(r, op, now);
    TriedStep(r, op, now);
    BackoffNeverAbove(r.exec.attempts);
    Pow2Monotone(Tried(r), Tried(Apply(r, op, now)));
  }

  lemma TriedStep(r: Record, op: RowOp, now: Instant)
    requires Coupled(r) && Guarded(r, op, now)
    ensures var r' := Apply(r, op, now);
      if op.OpFail? && Holds(r, op.token, now) && r.exec.attempts < r.exec.maxAttempts
      then Tried(r) == r.exec.attempts && Tried(r') == r.exec.attempts + 1
      else Tried(r) <= Tried(r')
  {
  }

  /** Retries are logged with strictly increasing attempt numbers, at most the limit. */
  ghost predicate RetriesIncrease(es: seq<Event>, limit: int) {
    && (forall i :: 0 <= i < |es| && es[i].payload.RetryPlan? ==> 0 < es[i].payload.retryAttempt <= limit)
    && (forall i, j :: 0 <= i < j < |es| && es[i].payload.RetryPlan? && es[j].payload.RetryPlan? ==>
          es[i].payload.retryAttempt < es[j].payload.retryAttempt)
  }

  function RetryLimit(r: Record): int {
    if r.exec.status in {Ready, Pending} then r.exec.attempts else r.exec.attempts - 1
  }

  ghost predicate RetriesOrdered(r: Record) {
    RetriesIncrease(r.events, RetryLimit(r))
  }

  lemma RetriesAppend(es: seq<Event>, e: Event, limit: int, limit': int)
    requires RetriesIncrease(es, limit) && limit <= limit'
    requires e.payload.RetryPlan? ==> 0 < e.payload.retryAttempt && limit < e.payload.retryAttempt <= limit'
    ensures RetriesIncrease(es + [e], limit')
  {
  }

  lemma RetriesOrderedStep(r: Record, op: RowOp, now: Instant)
    requires Coupled(r) && RetriesOrdered(r) && Guarded(r, op, now)
    ensures RetriesOrdered(Apply(r, op, now))
  {
    var r' := Apply(r, op, now);
    if r'.events != r.events {
      var es, e := Extended(r, op, now);
      assert e.payload.RetryPlan? ==> op.OpFail? && e.payload.retryAttempt == r.exec.attempts;
      if es != r.events {
        assert Last(es) == r'.events[|r.events|];
        RetriesAppend(r.events, Last(es), RetryLimit(r), RetryLimit(r'));
        RetriesAppend(es, e, RetryLimit(r'), RetryLimit(r'));
      } else {
        RetriesAppend(es, e, RetryLimit(r), RetryLimit(r'));
      }
    }
  }

  lemma PlansMarkRetriesStep(r: Record, op: RowOp, now: Instant)
    requires PlansMarkRetries(r.events)
    ensures PlansMarkRetries(Apply(r, op, now).events)
  {
  }

  /** Everything above at once. */
  ghost predicate Sound(r: Record) {
    Coupled(r) && Replayable(r) && BackoffBounded(r) && RetriesOrdered(r)
  }

  lemma SubmittedIsSound(key: CallKey, args: Json, maxAttempts: Int32, now: Instant)
    ensures Sound(SubmitRow(key, args, maxAttempts, now))
  {
    SubmittedIsCoupled(key, args, maxAttempts, now);
    var es := SubmitRow(key, args, maxAttempts, now).events;
    assert es == [] + [es[0]] + [es[1]];
    Appended([], es[0]);
    Appended([] + [es[0]], es[1]);
    assert BackoffSum([] + [es[0]]) == BackoffSum([]);
    assert Pow2(1) == 2 * Pow2(0);
  }

  lemma SoundStep(r: Record, op: RowOp, now: Instant)
    requires Sound(r) && Guarded(r, op, now)
    ensures Sound(Apply(r, op, now))
  {
    CoupledStep(r, op, now);
    ReplayableStep(r, op, now);
    BackoffStep(r, op, now);
    RetriesOrderedStep(r, op, now);
  }

  // ----- what the scheduler is about to act on stays put -----

  /** Nobody but the reaper can change an execution whose lease has run out. */
  lemma StaleRowStays(r: Record, op: RowOp, now: Instant)
    requires Guarded(r, op, now) && IsStale(r, now) && !op.OpExpire?
    ensures Apply(r, op, now).exec == r.exec && Apply(r, op, now).lease == r.lease
  {
  }

  /** Nobody but the promoter can change an execution that waits for its retry. */
  lemma PendingRowStays(r: Record, op: RowOp, now: Instant)
    requires Coupled(r) && Guarded(r, op, now) && r.exec.status == Pending && !op.OpPromote?
    ensures Apply(r, op, now).exec == r.exec && Apply(r, op, now).retry == r.retry
  {
  }

  // ----- order of the history -----

  lemma ChronologicalStep(r: Record, op: RowOp, before: Instant, now: Instant)
    requires Chronological(r.events, before) && r.exec.createdAt <= before <= now
    ensures Chronological(Apply(r, op, now).events, now) && Apply(r, op, now).exec.createdAt <= now
  {
  }

  // ----- back to ready -----

  /** Ready, and no token left to claim it with. */
  predicate IsStuck(r: Record) {
    r.exec.status == Ready && !TokenAvailable(r)
  }

  /** The operation that makes an open row ready again once its deadline has passed. */
  function Release(r: Record): RowOp {
    if r.exec.status == Running then OpExpire(r.exec.attempts, r.exec.maxAttempts)
    else if r.exec.status == Pending then OpPromote
    else OpNone
  }

  function Deadline(r: Record, now: Instant): Instant {
    if r.lease.Some? && now <= r.lease.value.expires then r.lease.value.expires + 1
    else if r.retry.Some? && now < r.retry.value.at then r.retry.value.at
    else now
  }

  lemma ReleasedRow(r: Record, now: Instant)
    requires Coupled(r) && !IsOver(r) && r.exec.attempts < Budget(r.exec)
    ensures var at := Deadline(r, now); var r' := Apply(r, Release(r), at);
      && now <= at && Guarded(r, Release(r), at)
      && Coupled(r') && r'.exec.status == Ready
      && r'.exec.attempts == r.exec.attempts && r'.exec.maxAttempts == r.exec.maxAttempts
      && MaxToken(r'.events) == MaxToken(r.events)
  {
    CoupledStep(r, Release(r), Deadline(r, now));
    if Release(r).OpExpire? {
      Appended(r.events, Apply(r, Release(r), Deadline(r, now)).events[|r.events|]);
    }
  }
}
