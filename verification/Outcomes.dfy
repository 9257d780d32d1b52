/** What a client of the store can rely on over any run with one scheduler process: the log tells
    the truth, a call has one identity and one outcome, and it stops changing. */
module Outcomes {
  import opened Types
  import opened EventLog
  import opened Rows
  import opened Coupling
  import opened Database
  import opened Scheduler
  import opened Fencing
  import opened Effects
  import opened Views
  import opened Durations

  // ----- coupling -----

  /** Status, lease row, retry row, budget and log fit together in every reachable state; in
      particular no open execution is ever lost: it is ready, or leased, or has a retry coming. */
  lemma CouplingInvariant(s: Scheduled, j: nat, id: Id)
    requires s.Valid() && j <= |s.run.steps| && id in s.run.dbs[j].rows
    ensures var r := s.run.dbs[j].rows[id];
      && (r.exec.status == Running <==> r.lease.Some?)
      && (r.exec.status == Pending <==> r.retry.Some?)
      && (r.retry.Some? ==> r.retry.value.attempt == r.exec.attempts)
      && (r.exec.status in {Ready, Pending} ==> r.exec.attempts < Budget(r.exec))
      && r.exec.attempts == Count(r.events, EvClaimed) <= Budget(r.exec)
      && (r.exec.result.Some? ==> r.exec.status == Completed)
      && r.exec.status in {Ready, Running, Pending, Completed, Failed}
  {
    SnapshotStable(s, j);
    assert Sound(s.run.dbs[j].rows[id]);
  }

  /** The dashboard adds up in every reachable state. */
  lemma ViewsAddUp(s: Scheduled, j: nat, now: Instant, workers: seq<WorkerInfo>)
    requires s.Valid() && j <= |s.run.steps| && WorkersAgree(s.run.dbs[j], now, workers)
    ensures var db, v := s.run.dbs[j], StatsOf(s.run.dbs[j], now);
      && v.total - (v.ready + v.running + v.completed + v.failed) == |WithRetry(db)|
      && v.activeLeases <= v.running
      && (v.activeLeases == v.running <==>
            forall id :: id in db.rows && db.rows[id].lease.Some? ==> db.rows[id].lease.value.expires > now)
      && ClaimedSum(workers) == v.activeLeases
  {
    SnapshotStable(s, j);
    forall id | id in s.run.dbs[j].rows
      ensures Coupled(s.run.dbs[j].rows[id])
    {
      assert Sound(s.run.dbs[j].rows[id]);
    }
    StatusesAddUp(s.run.dbs[j], now);
    LeasesAddUp(s.run.dbs[j], now);
    WorkersAddUp(s.run.dbs[j], now, workers);
  }

  // ----- event sourcing -----

  lemma {:induction false} AlwaysChronological(run: Run, j: nat, id: Id)
    requires run.Valid() && j <= |run.steps| && id in run.dbs[j].rows
    ensures Chronological(run.dbs[j].rows[id].events, Clock(run, j))
    ensures run.dbs[j].rows[id].exec.createdAt <= Clock(run, j)
    decreases j
  {
    if j > 0 {
      var db, step := run.dbs[j - 1], run.steps[j - 1];
      RowAt(run, j - 1, id);
      if id in db.rows {
        AlwaysChronological(run, j - 1, id);
        ChronologicalStep(db.rows[id], Local(db, step.tx, id), Clock(run, j - 1), step.at);
      }
    }
  }

  /** The event history, in the order ListEvents gives it and with or without its noise, always
      determines status, attempts, error message, lease holder and retry of the execution. */
  lemma EventSourcing(s: Scheduled, j: nat, id: Id)
    requires s.Valid() && j <= |s.run.steps| && id in s.run.dbs[j].rows
    ensures var r := s.run.dbs[j].rows[id];
            var told := Replay(WithoutNoise(SortByTime(r.events)));
      && told.status == r.exec.status
      && told.attempts == r.exec.attempts
      && told.error == r.exec.error
      && (told.holder.Some? <==> r.lease.Some?)
      && (r.lease.Some? ==> told.holder.value == Holder(r.lease.value.worker, r.lease.value.token))
      && (told.retry.Some? <==> r.retry.Some?)
      && (r.retry.Some? ==> told.retry.value == r.retry.value.attempt)
  {
    var r := s.run.dbs[j].rows[id];
    SnapshotStable(s, j);
    AlwaysChronological(s.run, j, id);
    ListedAsWritten(r.events, Clock(s.run, j));
    NoiseIsIrrelevant(r.events);
    assert Sound(r);
  }

  // ----- one execution per key -----

  /** All successful Submits of one key return one execution id, and all but the first are
      flagged as duplicates; any number of schedulers may be at work. */
  lemma OneExecutionPerKey(run: Run, i: nat, j: nat)
    requires run.Valid() && i < j < |run.steps|
    requires run.steps[i].tx.Submit? && run.steps[j].tx.Submit? && run.steps[i].tx.key == run.steps[j].tx.key
    requires run.Reply(i).Submitted?
    ensures run.Reply(j).Submitted? && run.Reply(j).info.id == run.Reply(i).info.id && run.Reply(j).info.duplicate
  {
    var k := run.steps[i].tx.key;
    assert run.Follows(i);
    KeysAlwaysAgree(run, i + 1);
    KeysAlwaysAgree(run, j);
    IndexKept(run, i + 1, j, k);
  }

  // ----- one outcome per execution -----

  /** One step of a run with one scheduler, seen from one existing row. */
  lemma RowStep(s: Scheduled, j: nat, id: Id) returns (op: RowOp)
    requires s.Valid() && j < |s.run.steps| && id in s.run.dbs[j].rows
    ensures id in s.run.dbs[j + 1].rows
    ensures var r := s.run.dbs[j].rows[id];
      && op == Local(s.run.dbs[j], s.run.steps[j].tx, id)
      && Sound(r) && Guarded(r, op, s.run.steps[j].at)
      && s.run.dbs[j + 1].rows[id] == Apply(r, op, s.run.steps[j].at)
      && Sound(s.run.dbs[j + 1].rows[id])
  {
    AlwaysGuarded(s, j);
    RowAt(s.run, j, id);
    op := Local(s.run.dbs[j], s.run.steps[j].tx, id);
  }

  /** Completed and failed are absorbing: status, result and error never change again. */
  lemma {:induction false} OutcomeIsFinal(s: Scheduled, i: nat, j: nat, id: Id)
    requires s.Valid() && i <= j <= |s.run.steps|
    requires id in s.run.dbs[i].rows && IsOver(s.run.dbs[i].rows[id])
    ensures id in s.run.dbs[j].rows && s.run.dbs[j].rows[id].exec == s.run.dbs[i].rows[id].exec
    decreases j
  {
    if i < j {
      OutcomeIsFinal(s, i, j - 1, id);
      var op := RowStep(s, j - 1, id);
      PotentialStep(s.run.dbs[j - 1].rows[id], op, s.run.steps[j - 1].at);
    }
  }

  /** At most one Complete is ever accepted for an execution, at most one completed event is ever
      logged, and no later Heartbeat, Complete or Fail is accepted either. */
  lemma CompletedAtMostOnce(s: Scheduled, i: nat, j: nat, id: Id, t: Int64, u: Int64)
    requires s.Valid() && i < j
    requires ReportedAt(s.run, i, id, t, Done) && s.run.steps[i].tx.Complete?
    ensures !AcceptedAt(s.run, j, id, u)
    ensures forall m :: 0 <= m <= |s.run.steps| && id in s.run.dbs[m].rows ==>
              Count(s.run.dbs[m].rows[id].events, EvCompleted) <= 1
  {
    if j < |s.run.steps| {
      assert s.run.Follows(i);
      OutcomeIsFinal(s, i + 1, j, id);
      SnapshotStable(s, j);
      assert Sound(s.run.dbs[j].rows[id]);
    }
    forall m | 0 <= m <= |s.run.steps| && id in s.run.dbs[m].rows
      ensures Count(s.run.dbs[m].rows[id].events, EvCompleted) <= 1
    {
      SnapshotStable(s, m);
      assert Sound(s.run.dbs[m].rows[id]);
    }
  }

  /** After an accepted Complete with some result, every later Submit of that call's key is
      answered with the same id, status completed and exactly that result. */
  lemma ReplayReturnsResult(s: Scheduled, i: nat, j: nat, id: Id, t: Int64)
    requires s.Valid() && i < j < |s.run.steps|
    requires ReportedAt(s.run, i, id, t, Done) && s.run.steps[i].tx.Complete?
    requires s.run.steps[j].tx.Submit? && s.run.steps[j].tx.key == s.run.dbs[i].rows[id].exec.key
    ensures s.run.Reply(j) == Submitted(SubmitInfo(id, Existing(Completed), s.run.steps[i].tx.result, true))
  {
    assert s.run.Follows(i);
    OutcomeIsFinal(s, i + 1, j, id);
    KeysAlwaysAgree(s.run, j);
  }

  // ----- bounded change -----

  function StatusAt(run: Run, j: nat, id: Id): Option<Status> {
    if j < |run.dbs| && id in run.dbs[j].rows then Some(run.dbs[j].rows[id].exec.status) else None
  }

  /** How often the status of id changes between positions i and j of the run. */
  ghost function StatusChanges(run: Run, id: Id, i: nat, j: nat): nat
    requires i <= j
    decreases j
  {
    if i == j then 0
    else StatusChanges(run, id, i, j - 1) + (if StatusAt(run, j, id) != StatusAt(run, j - 1, id) then 1 else 0)
  }

  lemma RowPotential(s: Scheduled, j: nat, id: Id)
    requires s.Valid() && j < |s.run.steps| && id in s.run.dbs[j].rows
    ensures id in s.run.dbs[j + 1].rows
    ensures var r, r' := s.run.dbs[j].rows[id], s.run.dbs[j + 1].rows[id];
      && 0 <= Potential(r') <= Potential(r)
      && (r'.exec.status != r.exec.status ==> Potential(r') < Potential(r))
  {
    var op := RowStep(s, j, id);
    PotentialStep(s.run.dbs[j].rows[id], op, s.run.steps[j].at);
  }

  lemma {:induction false} ChangesUsePotential(s: Scheduled, id: Id, i: nat, j: nat)
    requires s.Valid() && i <= j <= |s.run.steps| && id in s.run.dbs[i].rows
    ensures id in s.run.dbs[j].rows
    ensures StatusChanges(s.run, id, i, j) + Potential(s.run.dbs[j].rows[id]) <= Potential(s.run.dbs[i].rows[id])
    ensures Potential(s.run.dbs[j].rows[id]) >= 0
    decreases j
  {
    if i < j {
      ChangesUsePotential(s, id, i, j - 1);
      RowPotential(s, j - 1, id);
    } else {
      SnapshotStable(s, i);
      assert Sound(s.run.dbs[i].rows[id]);
    }
  }

  /** No execution changes its status more than 3 * max_attempts - 1 times after submission,
      whatever the interleaving. */
  lemma FewStatusChanges(s: Scheduled, id: Id, i: nat, j: nat)
    requires s.Valid() && i < j <= |s.run.steps|
    requires s.run.Reply(i) == Submitted(SubmitInfo(id, Accepted, None, false))
    ensures id in s.run.dbs[i + 1].rows
    ensures StatusChanges(s.run, id, i + 1, j) <= 3 * Budget(s.run.dbs[i + 1].rows[id].exec) - 1
  {
    assert s.run.Follows(i);
    ChangesUsePotential(s, id, i + 1, j);
  }

  // ----- ownership intervals -----

  /** Position k is where a token's ownership of id ends: its Fail is accepted there, or its lease
      is reaped after its final expiry. */
  ghost predicate OwnershipEnds(run: Run, k: nat, id: Id, token: Int64)
    requires run.Valid() && k < |run.steps|
  {
    && id in run.dbs[k].rows && id in run.dbs[k + 1].rows
    && run.dbs[k].rows[id].lease.Some? && run.dbs[k].rows[id].lease.value.token == token
    && run.dbs[k + 1].rows[id].lease.None?
    && (|| (run.steps[k].tx.Fail? && ReportedAt(run, k, id, token, Done))
        || run.dbs[k].rows[id].lease.value.expires < run.steps[k].at)
  }

  /** A lease appears or changes its token only by a claim, and it disappears only where an
      ownership ends or the call is completed. */
  lemma LeaseStep(s: Scheduled, j: nat, id: Id)
    requires s.Valid() && j < |s.run.steps| && id in s.run.dbs[j].rows
    ensures id in s.run.dbs[j + 1].rows
    ensures var r, r' := s.run.dbs[j].rows[id], s.run.dbs[j + 1].rows[id];
      && (r'.lease.Some? ==>
            || ClaimedAt(s.run, j, id, r'.lease.value.token)
            || (r.lease.Some? && r.lease.value.token == r'.lease.value.token))
      && (r.lease.Some? && r'.lease.None? ==>
            OwnershipEnds(s.run, j, id, r.lease.value.token) || r'.exec.status == Completed)
  {
    var op := RowStep(s, j, id);
  }

  /** From a held lease to the next claim there is a position where the ownership ended, and the
      execution stays unowned from there on. */
  lemma {:induction false} LeaseEndsBeforeNextClaim(s: Scheduled, i: nat, j: nat, id: Id) returns (k: nat)
    requires s.Valid() && i < j < |s.run.steps|
    requires id in s.run.dbs[i].rows && s.run.dbs[i].rows[id].lease.Some?
    requires id in s.run.dbs[j].rows && s.run.dbs[j].rows[id].exec.status == Ready
    requires forall m, u :: i <= m < j ==> !ClaimedAt(s.run, m, id, u)
    ensures i <= k < j && OwnershipEnds(s.run, k, id, s.run.dbs[i].rows[id].lease.value.token)
    ensures forall m :: k < m <= j ==> id in s.run.dbs[m].rows && s.run.dbs[m].rows[id].lease.None?
    decreases j - i
  {
    LeaseStep(s, i, id);
    if s.run.dbs[i + 1].rows[id].lease.Some? {
      ReadyIsUnowned(s, j, id);
      k := LeaseEndsBeforeNextClaim(s, i + 1, j, id);
    } else {
      k := i;
      if s.run.dbs[i + 1].rows[id].exec.status == Completed {
        OutcomeIsFinal(s, i + 1, j, id);
      }
      StaysUnowned(s, i + 1, j, id);
    }
  }

  lemma ReadyIsUnowned(s: Scheduled, j: nat, id: Id)
    requires s.Valid() && j <= |s.run.steps| && id in s.run.dbs[j].rows && s.run.dbs[j].rows[id].exec.status == Ready
    ensures s.run.dbs[j].rows[id].lease.None?
  {
    SnapshotStable(s, j);
    assert Sound(s.run.dbs[j].rows[id]);
  }

  lemma {:induction false} StaysUnowned(s: Scheduled, i: nat, j: nat, id: Id)
    requires s.Valid() && i <= j < |s.run.steps|
    requires id in s.run.dbs[i].rows && s.run.dbs[i].rows[id].lease.None?
    requires forall m, u :: i <= m < j ==> !ClaimedAt(s.run, m, id, u)
    ensures forall m :: i <= m <= j ==> id in s.run.dbs[m].rows && s.run.dbs[m].rows[id].lease.None?
    decreases j - i
  {
    if i < j {
      LeaseStep(s, i, id);
      StaysUnowned(s, i + 1, j, id);
    }
  }

  /** Ownership intervals never overlap: when a claim hands out a token for an execution that was
      claimed before, the earlier claim's Fail was accepted, or the final expiry of its lease,
      heartbeats included, lies strictly in the past. */
  lemma OwnershipNeverOverlaps(s: Scheduled, i: nat, j: nat, id: Id, t: Int64, u: Int64) returns (k: nat)
    requires s.Valid() && i < j && ClaimedAt(s.run, i, id, t) && ClaimedAt(s.run, j, id, u)
    requires forall m, v :: i < m < j ==> !ClaimedAt(s.run, m, id, v)
    ensures i < k < j && OwnershipEnds(s.run, k, id, t)
    ensures forall m :: k < m <= j ==> id in s.run.dbs[m].rows && s.run.dbs[m].rows[id].lease.None?
    ensures || (s.run.steps[k].tx.Fail? && ReportedAt(s.run, k, id, t, Done))
            || s.run.dbs[k].rows[id].lease.value.expires < s.run.steps[j].at
  {
    assert s.run.Follows(i) && s.run.Follows(j);
    k := LeaseEndsBeforeNextClaim(s, i + 1, j, id);
  }

  // ----- bounded backoff -----

  lemma {:induction false} AlwaysMarked(run: Run, j: nat, id: Id)
    requires run.Valid() && j <= |run.steps| && id in run.dbs[j].rows
    ensures PlansMarkRetries(run.dbs[j].rows[id].events)
    decreases j
  {
    if j > 0 {
      var db, step := run.dbs[j - 1], run.steps[j - 1];
      RowAt(run, j - 1, id);
      if id in db.rows {
        AlwaysMarked(run, j - 1, id);
        PlansMarkRetriesStep(db.rows[id], Local(db, step.tx, id), step.at);
      }
    }
  }

  /** Each attempt number below the budget gets at most one retry, and all the backoff an execution
      ever waits sums to at most 2^budget - 2 seconds, whether or not single delays wrap around;
      a delay that wraps to a negative one counts as none. */
  lemma RetryBudget(s: Scheduled, j: nat, id: Id)
    requires s.Valid() && j <= |s.run.steps| && id in s.run.dbs[j].rows
    ensures var r := s.run.dbs[j].rows[id]; var es := r.events;
      && (forall i :: 0 <= i < |es| ==> (es[i].kind == EvRetryScheduled <==> es[i].payload.RetryPlan?))
      && (forall i :: 0 <= i < |es| && es[i].payload.RetryPlan? ==> 0 < es[i].payload.retryAttempt < Budget(r.exec))
      && (forall i, k :: 0 <= i < k < |es| && es[i].payload.RetryPlan? && es[k].payload.RetryPlan? ==>
            es[i].payload.retryAttempt < es[k].payload.retryAttempt)
      && BackoffSum(es) <= Pow2(Budget(r.exec)) - 2
  {
    SnapshotStable(s, j);
    AlwaysMarked(s.run, j, id);
    var r := s.run.dbs[j].rows[id];
    assert Sound(r);
    Pow2Monotone(Tried(r), Budget(r.exec));
  }

  // ----- a retry comes when it is due -----

  /** Step i is a Fail of id that is accepted with an attempt to spare, and it logs this backoff. */
  predicate FailsForNow(run: Run, i: nat, id: Id, backoff: int)
    requires i < |run.steps| && |run.dbs| == |run.steps| + 1
  {
    && run.steps[i].tx.Fail? && run.steps[i].tx.id == id && run.Reply(i) == Done
    && id in run.dbs[i].rows && run.dbs[i].rows[id].exec.attempts < run.dbs[i].rows[id].exec.maxAttempts
    && id in run.dbs[i + 1].rows && run.dbs[i + 1].rows[id].events != []
    && Last(run.dbs[i + 1].rows[id].events).payload.RetryPlan?
    && Last(run.dbs[i + 1].rows[id].events).payload.backoffSeconds == backoff
  }

  /** Every such Fail logs one, and up to attempt 33 it is two to the power of the attempts made. */
  lemma FailLogsBackoff(run: Run, i: nat, id: Id) returns (backoff: int)
    requires run.Valid() && i < |run.steps| && run.steps[i].tx.Fail? && run.steps[i].tx.id == id && run.Reply(i) == Done
    requires id in run.dbs[i].rows && run.dbs[i].rows[id].exec.attempts < run.dbs[i].rows[id].exec.maxAttempts
    ensures FailsForNow(run, i, id, backoff)
    ensures run.dbs[i].rows[id].exec.attempts <= 33 ==> backoff == Pow2(run.dbs[i].rows[id].exec.attempts)
  {
    DoneMeansHeld(run, i);
    AcceptedFail(run, i);
    backoff := Last(run.dbs[i + 1].rows[id].events).payload.backoffSeconds;
  }

  lemma DoneMeansHeld(run: Run, i: nat)
    requires run.Valid() && i < |run.steps| && (run.steps[i].tx.Complete? || run.steps[i].tx.Fail?)
    requires run.Reply(i) == Done
    ensures IsHeld(run.dbs[i], run.steps[i].tx.id, run.steps[i].tx.token, run.steps[i].at)
  {
    if !IsHeld(run.dbs[i], run.steps[i].tx.id, run.steps[i].tx.token, run.steps[i].at) {
      RejectedReport(run, i);
    }
  }

  ghost predicate WaitsUntil(run: Run, j: nat, id: Id, due: Instant, attempt: nat, error: string)
    requires j < |run.dbs|
  {
    && id in run.dbs[j].rows
    && run.dbs[j].rows[id].exec.status == Pending
    && run.dbs[j].rows[id].exec.error == Some(error)
    && run.dbs[j].rows[id].retry == Some(Retry(due, attempt))
  }

  lemma WaitsAtFirst(run: Run, i: nat, id: Id, backoff: int)
    requires run.Valid() && i < |run.steps| && FailsForNow(run, i, id, backoff)
    ensures WaitsUntil(run, i + 1, id, run.steps[i].at + backoff * SECOND, run.dbs[i].rows[id].exec.attempts,
                       run.steps[i].tx.error)
  {
    DoneMeansHeld(run, i);
    AcceptedFail(run, i);
  }

  lemma WaitingGoesOn(r: Record, op: RowOp, now: Instant)
    requires Coupled(r) && Guarded(r, op, now) && r.exec.status == Pending && now < r.retry.value.at
    ensures !op.OpPromote? && !op.OpClaim?
    ensures Apply(r, op, now).exec == r.exec && Apply(r, op, now).retry == r.retry
  {
    PendingRowStays(r, op, now);
  }

  lemma {:induction false} WaitsStill(s: Scheduled, i: nat, j: nat, id: Id, due: Instant, attempt: nat, error: string)
    requires s.Valid() && i <= j <= |s.run.steps| && WaitsUntil(s.run, i, id, due, attempt, error)
    requires forall m :: i <= m < j ==> s.run.steps[m].at < due
    ensures WaitsUntil(s.run, j, id, due, attempt, error)
    decreases j
  {
    if i < j {
      WaitsStill(s, i, j - 1, id, due, attempt, error);
      var op := RowStep(s, j - 1, id);
      WaitingGoesOn(s.run.dbs[j - 1].rows[id], op, s.run.steps[j - 1].at);
    }
  }

  /** After an accepted Fail with an attempt to spare the execution waits, with the reported error, for a
      retry that is due exactly the logged backoff later; before that instant nobody promotes or claims
      it. */
  lemma RetryComesWhenDue(s: Scheduled, i: nat, j: nat, id: Id, backoff: int)
    requires s.Valid() && i < j < |s.run.steps| && FailsForNow(s.run, i, id, backoff)
    requires s.run.steps[j].at < s.run.steps[i].at + backoff * SECOND
    ensures id in s.run.dbs[j].rows
    ensures var r := s.run.dbs[j].rows[id];
      && r.exec.status == Pending && r.exec.error == Some(s.run.steps[i].tx.error)
      && r.retry == Some(Retry(s.run.steps[i].at + backoff * SECOND, s.run.dbs[i].rows[id].exec.attempts))
    ensures !(s.run.steps[j].tx.PromoteRetry? && s.run.steps[j].tx.id == id)
    ensures !IsClaimOf(s.run, j, id)
  {
    var due := s.run.steps[i].at + backoff * SECOND;
    WaitsAtFirst(s.run, i, id, backoff);
    WaitsStill(s, i + 1, j, id, due, s.run.dbs[i].rows[id].exec.attempts, s.run.steps[i].tx.error);
    WaitingIsSpared(s, j, id);
  }

  lemma WaitingIsSpared(s: Scheduled, j: nat, id: Id)
    requires s.Valid() && j < |s.run.steps| && id in s.run.dbs[j].rows && s.run.dbs[j].rows[id].exec.status == Pending
    requires s.run.dbs[j].rows[id].retry.Some? && s.run.steps[j].at < s.run.dbs[j].rows[id].retry.value.at
    ensures !(s.run.steps[j].tx.PromoteRetry? && s.run.steps[j].tx.id == id)
    ensures !IsClaimOf(s.run, j, id)
  {
    var op := RowStep(s, j, id);
    WaitingGoesOn(s.run.dbs[j].rows[id], op, s.run.steps[j].at);
    if IsClaimOf(s.run, j, id) {
      ClaimIsLocal(s.run, j, id);
    }
  }

  lemma ClaimIsLocal(run: Run, j: nat, id: Id)
    requires run.Valid() && IsClaimOf(run, j, id)
    ensures Local(run.dbs[j], run.steps[j].tx, id).OpClaim?
  {
  }
}
