/** Lease renewal: a worker that heartbeats on schedule never loses its execution, whatever the
    other workers, the clients and the scheduler do. */
module Renewal {
  import opened Types
  import opened Durations
  import opened Rows
  import opened Coupling
  import opened Database
  import opened Scheduler
  import opened Fencing
  import opened Outcomes

  // ----- the ticker -----

  /** The heartbeats of one claim. The ticker starts some lag after the claim; the k-th heartbeat
      reaches the database some delay after the k-th tick, or is lost on the way. */
  datatype Schedule = Schedule(start: Instant, leaseSeconds: int, lag: int, delay: nat -> int, lost: nat -> bool) {
    function Tick(k: nat): Instant {
      start + lag + k * HeartbeatInterval(leaseSeconds)
    }

    function Due(k: nat): Instant {
      Tick(k) + delay(k)
    }

    function Length(): int {
      leaseSeconds * SECOND
    }

    /** Lag and delay stay below what remains of the lease after the given number of periods, and
        never that many heartbeats in a row are lost. */
    ghost predicate Punctual(periods: nat) {
      && 0 <= lag
      && 0 < Length()
      && (forall k: nat :: 0 <= delay(k) && lag + delay(k) < Length() - periods * HeartbeatInterval(leaseSeconds))
      && (periods == 1 || periods == 2)
      && (forall k: nat :: lost(k) ==> periods == 2 && !lost(k + 1))
    }
  }

  lemma TicksAdvance(s: Schedule, k: nat, d: nat)
    ensures s.Tick(k + d) == s.Tick(k) + d * HeartbeatInterval(s.leaseSeconds)
  {
  }

  lemma {:induction false} TickIsLate(s: Schedule, k: nat)
    ensures s.Tick(k) >= s.start + s.lag + k
  {
  }

  /** The first heartbeat that is neither lost nor due before the given time. */
  lemma {:induction false} NextHeartbeat(s: Schedule, now: Instant, from: nat) returns (k: nat)
    requires s.Punctual(1) || s.Punctual(2)
    requires from >= 1
    ensures k >= from && !s.lost(k) && s.Due(k) >= now
    ensures forall m :: from <= m < k && !s.lost(m) ==> s.Due(m) < now
    decreases now - s.start - from
  {
    if !s.lost(from) && s.Due(from) >= now {
      k := from;
    } else {
      if now - s.start - from <= 0 {
        TickIsLate(s, from);
        TickIsLate(s, from + 1);
        k := from + 1;
      } else {
        k := NextHeartbeat(s, now, from + 1);
      }
    }
  }

  /** A heartbeat is due less than a lease after the tick of one at most the given periods earlier. */
  lemma DueWithinLease(s: Schedule, periods: nat, j: nat, d: nat)
    requires s.Punctual(periods) && d <= periods
    ensures s.lag + s.Due(j + d) < s.Tick(j) + s.Length()
  {
    TicksAdvance(s, j, d);
    assert s.lag + s.delay(j + d) < s.Length() - periods * HeartbeatInterval(s.leaseSeconds);
    assert d * HeartbeatInterval(s.leaseSeconds) <= periods * HeartbeatInterval(s.leaseSeconds);
  }

  lemma ClaimCovers(s: Schedule, periods: nat, now: Instant, k: nat)
    requires s.Punctual(periods) && k <= periods && now <= s.Due(k)
    ensures now < s.start + s.Length()
  {
    DueWithinLease(s, periods, 0, k);
  }

  lemma HeartbeatCovers(s: Schedule, periods: nat, now: Instant, j: nat, d: nat)
    requires s.Punctual(periods) && d <= periods && now <= s.Due(j + d)
    ensures now < s.Due(j) + s.Length()
  {
    DueWithinLease(s, periods, j, d);
    assert s.delay(j) >= 0;
  }

  /** Up to the next heartbeat, the lease granted at the claim or at the last heartbeat that got
      through has not run out. */
  lemma LastGrantCovers(s: Schedule, periods: nat, now: Instant) returns (granted: Instant)
    requires s.Punctual(periods)
    ensures now < granted + s.Length()
    ensures granted == s.start || exists k :: 1 <= k && !s.lost(k) && s.Due(k) < now && granted == s.Due(k)
  {
    var k := NextHeartbeat(s, now, 1);
    if 1 < k && !s.lost(k - 1) {
      HeartbeatCovers(s, periods, now, k - 1, 1);
      granted := s.Due(k - 1);
    } else if 2 < k {
      assert s.lost(k - 2 + 1);
      HeartbeatCovers(s, periods, now, k - 2, 2);
      granted := s.Due(k - 2);
    } else {
      ClaimCovers(s, periods, now, k);
      granted := s.start;
    }
  }

  // ----- the run -----

  /** Step p is the holder's own heartbeat. */
  ghost predicate Beat(run: Run, p: nat, id: Id, token: Int64, secs: int) {
    p < |run.steps| && run.steps[p].tx == Heartbeat(id, token, secs)
  }

  /** Every heartbeat due before step m that was not lost has been sent by then. */
  ghost predicate OnSchedule(run: Run, i: nat, m: nat, id: Id, token: Int64, s: Schedule)
    requires m < |run.steps|
  {
    forall k: nat :: 1 <= k && !s.lost(k) && s.Due(k) < run.steps[m].at ==>
      exists p :: i <= p < m && Beat(run, p, id, token, s.leaseSeconds) && run.steps[p].at == s.Due(k)
  }

  /** Step m does not report on the token, and if it is a heartbeat it asks for the usual length. */
  predicate IsQuiet(step: Step, id: Id, token: Int64, s: Schedule) {
    && !(step.tx.Complete? && step.tx.id == id && step.tx.token == token)
    && !(step.tx.Fail? && step.tx.id == id && step.tx.token == token)
    && (step.tx.Heartbeat? && step.tx.id == id && step.tx.token == token ==> step.tx.leaseSeconds == s.leaseSeconds)
  }

  /** From position i, just after the claim, to position j the holder keeps to its schedule, and
      nobody reports on its token. */
  ghost predicate Keeps(run: Run, i: nat, j: nat, id: Id, token: Int64, s: Schedule) {
    && i <= j <= |run.steps|
    && (forall m :: i <= m < j ==> IsQuiet(run.steps[m], id, token, s))
    && (forall m :: i <= m < j ==> OnSchedule(run, i, m, id, token, s))
  }

  /** The row is running under the given token, with a lease that started no earlier than the
      given time. */
  ghost predicate OwnedSince(r: Record, token: Int64, s: Schedule, granted: Instant) {
    r.exec.status == Running && r.lease.Some? && r.lease.value.token == token
    && r.lease.value.expires >= granted + s.Length()
  }

  /** One step leaves a live owner in place, and its own heartbeat renews the lease. */
  lemma OwnerSurvives(r: Record, op: RowOp, now: Instant, token: Int64, s: Schedule, granted: Instant)
    requires Coupled(r) && Guarded(r, op, now) && OwnedSince(r, token, s, granted)
    requires granted <= now && Holds(r, token, now)
    requires op.OpComplete? || op.OpFail? ==> op.token != token
    requires op.OpHeartbeat? && op.token == token ==> op.leaseSeconds == s.leaseSeconds
    ensures OwnedSince(Apply(r, op, now), token, s, granted)
    ensures op == OpHeartbeat(token, s.leaseSeconds) ==> OwnedSince(Apply(r, op, now), token, s, now)
  {
  }

  /** Every grant up to position j - the claim and each heartbeat step - is still covered by the
      lease at position j. */
  ghost predicate Covered(run: Run, i: nat, j: nat, id: Id, token: Int64, s: Schedule)
    requires j <= |run.steps| && |run.dbs| == |run.steps| + 1
  {
    && id in run.dbs[j].rows
    && OwnedSince(run.dbs[j].rows[id], token, s, s.start)
    && (forall p :: i <= p < j && Beat(run, p, id, token, s.leaseSeconds) ==>
          OwnedSince(run.dbs[j].rows[id], token, s, run.steps[p].at))
  }

  /** At the moment of step j the lease is live. */
  lemma LiveAtStep(run: Run, i: nat, j: nat, id: Id, token: Int64, sch: Schedule, periods: nat)
    requires i <= j < |run.steps| && |run.dbs| == |run.steps| + 1 && sch.Punctual(periods)
    requires OnSchedule(run, i, j, id, token, sch) && Covered(run, i, j, id, token, sch)
    ensures Holds(run.dbs[j].rows[id], token, run.steps[j].at)
  {
    var now := run.steps[j].at;
    var granted := LastGrantCovers(sch, periods, now);
    if granted != sch.start {
      var k: nat :| 1 <= k && !sch.lost(k) && sch.Due(k) < now && granted == sch.Due(k);
      var p :| i <= p < j && Beat(run, p, id, token, sch.leaseSeconds) && run.steps[p].at == sch.Due(k);
      assert OwnedSince(run.dbs[j].rows[id], token, sch, run.steps[p].at);
    }
  }

  lemma QuietOp(db: Db, step: Step, id: Id, token: Int64, sch: Schedule, op: RowOp)
    requires op == Local(db, step.tx, id) && IsQuiet(step, id, token, sch)
    ensures op.OpComplete? || op.OpFail? ==> op.token != token
    ensures op.OpHeartbeat? && op.token == token ==> op.leaseSeconds == sch.leaseSeconds
    ensures step.tx == Heartbeat(id, token, sch.leaseSeconds) ==> op == OpHeartbeat(token, sch.leaseSeconds)
  {
  }

  lemma OwnerStep(s: Scheduled, j: nat, id: Id, token: Int64, sch: Schedule, granted: Instant)
    requires s.Valid() && j < |s.run.steps| && id in s.run.dbs[j].rows
    requires OwnedSince(s.run.dbs[j].rows[id], token, sch, granted) && granted <= s.run.steps[j].at
    requires Holds(s.run.dbs[j].rows[id], token, s.run.steps[j].at) && IsQuiet(s.run.steps[j], id, token, sch)
    ensures id in s.run.dbs[j + 1].rows
    ensures OwnedSince(s.run.dbs[j + 1].rows[id], token, sch, granted)
    ensures Beat(s.run, j, id, token, sch.leaseSeconds) ==>
              OwnedSince(s.run.dbs[j + 1].rows[id], token, sch, s.run.steps[j].at)
  {
    var op := RowStep(s, j, id);
    QuietOp(s.run.dbs[j], s.run.steps[j], id, token, sch, op);
    OwnerSurvives(s.run.dbs[j].rows[id], op, s.run.steps[j].at, token, sch, granted);
  }

  lemma {:induction false} StaysCovered(s: Scheduled, i: nat, j: nat, id: Id, token: Int64, sch: Schedule, periods: nat)
    requires s.Valid() && sch.Punctual(periods) && Keeps(s.run, i, j, id, token, sch)
    requires Covered(s.run, i, i, id, token, sch) && sch.start <= Clock(s.run, i)
    ensures Covered(s.run, i, j, id, token, sch)
    decreases j
  {
    if i < j {
      StaysCovered(s, i, j - 1, id, token, sch, periods);
      LiveAtStep(s.run, i, j - 1, id, token, sch, periods);
      OwnerStep(s, j - 1, id, token, sch, sch.start);
      forall p | i <= p < j - 1 && Beat(s.run, p, id, token, sch.leaseSeconds)
        ensures OwnedSince(s.run.dbs[j].rows[id], token, sch, s.run.steps[p].at)
      {
        OwnerStep(s, j - 1, id, token, sch, s.run.steps[p].at);
      }
    }
  }

  lemma FreshClaimIsCovered(s: Scheduled, c: nat, id: Id, token: Int64, sch: Schedule)
    requires s.Valid() && ClaimedAt(s.run, c, id, token)
    requires sch.start == s.run.steps[c].at
    requires s.run.steps[c].tx.Claim? && sch.leaseSeconds == s.run.steps[c].tx.leaseSeconds
    ensures Covered(s.run, c + 1, c + 1, id, token, sch)
  {
    ClaimGivesLease(s.run, c, id);
    SnapshotStable(s, c + 1);
    assert Sound(s.run.dbs[c + 1].rows[id]);
  }

  /** Renewal keeps ownership. A claim is granted for L seconds at position c; its holder runs the
      ticker of period I. If lag plus delay stay below L - I and no heartbeat is lost, or below
      L - 2I and no two in a row are lost, then at every later step, for as long as the holder does
      not report, the lease is live: the execution is running, it is neither reaped nor claimed by
      anyone else, each of the holder's heartbeats is accepted, and so is its report when it comes. */
  lemma RenewalKeepsOwnership(s: Scheduled, c: nat, j: nat, id: Id, token: Int64, sch: Schedule, periods: nat)
    requires s.Valid() && ClaimedAt(s.run, c, id, token) && c < j < |s.run.steps|
    requires sch.start == s.run.steps[c].at
    requires s.run.steps[c].tx.Claim? && sch.leaseSeconds == s.run.steps[c].tx.leaseSeconds
    requires sch.Punctual(periods)
    requires Keeps(s.run, c + 1, j, id, token, sch) && OnSchedule(s.run, c + 1, j, id, token, sch)
    ensures id in s.run.dbs[j].rows && s.run.dbs[j].rows[id].exec.status == Running
    ensures Holds(s.run.dbs[j].rows[id], token, s.run.steps[j].at)
    ensures var tx := s.run.steps[j].tx;
      && ((tx.Heartbeat? || tx.Complete? || tx.Fail?) && tx.id == id && tx.token == token ==> s.run.Reply(j) == Done)
      && !(tx.ExpireLease? && tx.id == id)
      && !IsClaimOf(s.run, j, id)
  {
    FreshClaimIsCovered(s, c, id, token, sch);
    StaysCovered(s, c + 1, j, id, token, sch, periods);
    LiveAtStep(s.run, c + 1, j, id, token, sch, periods);
    NeitherReapedNorClaimed(s, j, id, token);
  }

  lemma NeitherReapedNorClaimed(s: Scheduled, j: nat, id: Id, token: Int64)
    requires s.Valid() && j < |s.run.steps| && id in s.run.dbs[j].rows
    requires s.run.dbs[j].rows[id].exec.status == Running && Holds(s.run.dbs[j].rows[id], token, s.run.steps[j].at)
    ensures !(s.run.steps[j].tx.ExpireLease? && s.run.steps[j].tx.id == id)
    ensures !IsClaimOf(s.run, j, id)
  {
    AlwaysGuarded(s, j);
    var op := Local(s.run.dbs[j], s.run.steps[j].tx, id);
    LiveRowIsSpared(s.run.dbs[j].rows[id], op, s.run.steps[j].at, token);
    if IsClaimOf(s.run, j, id) {
      ClaimIsLocal(s.run, j, id);
    }
  }

  lemma LiveRowIsSpared(r: Record, op: RowOp, now: Instant, token: Int64)
    requires Guarded(r, op, now) && r.exec.status == Running && Holds(r, token, now)
    ensures !op.OpExpire? && !op.OpClaim?
  {
  }
}
