/** When the rejection of a heartbeat is final: the exact condition. */
module Rejection {
  import opened Types
  import opened EventLog
  import opened Rows
  import opened Coupling
  import opened Database
  import opened Pass
  import opened Scheduler
  import opened Fencing
  import opened Progress
  import opened Draining
  import opened Futures

  /** The row can still be claimed, and the token is above every token in its history. */
  predicate MayStillBeIssued(r: Record, token: Int64) {
    !IsOver(r) && r.exec.attempts < Budget(r.exec) && token > MaxToken(r.events).GetOr(MIN_INT64)
  }

  // ----- only if -----

  /** The current lease has another token, and no claim will ever return this one. */
  predicate NeverIssued(r: Record, token: Int64) {
    && !(r.lease.Some? && r.lease.value.token == token)
    && (IsOver(r) || r.exec.attempts == Budget(r.exec) || token == MIN_INT64)
  }

  ghost predicate Refused(r: Record, token: Int64, now: Instant) {
    Spent(r, token, now) || NeverIssued(r, token)
  }

  lemma LeaseTokenIsLogged(r: Record)
    requires FencedRow(r) && r.lease.Some?
    ensures MaxToken(r.events).Some? && r.lease.value.token <= MaxToken(r.events).value
  {
    var c := OwnerIsLatestClaim(r.events);
    MaxTokenBounds(r.events, c);
  }

  lemma RefusedFromNowOn(r: Record, token: Int64, now: Instant)
    requires Coupled(r) && FencedRow(r) && !Holds(r, token, now) && !MayStillBeIssued(r, token)
    ensures Refused(r, token, now)
  {
    if r.lease.Some? && r.lease.value.token == token {
      LeaseTokenIsLogged(r);
    }
  }

  lemma NeverIssuedStep(r: Record, op: RowOp, token: Int64, now: Instant)
    requires Coupled(r) && Guarded(r, op, now) && NeverIssued(r, token)
    ensures NeverIssued(Apply(r, op, now), token)
  {
  }

  lemma RefusedStep(r: Record, op: RowOp, token: Int64, before: Instant, now: Instant)
    requires Coupled(r) && Guarded(r, op, now) && Refused(r, token, before) && before <= now
    ensures Refused(Apply(r, op, now), token, now)
  {
    if Spent(r, token, before) {
      SpentStep(r, op, token, before, now);
    } else {
      NeverIssuedStep(r, op, token, now);
    }
  }

  /** A row created earlier is ready and unclaimable, so that no claim ever gets to this one. */
  predicate IsBlocked(db: Db, id: Id)
    requires id in db.rows
  {
    exists elder :: elder in db.rows && IsElderStuck(db, elder, id)
  }

  predicate IsElderStuck(db: Db, elder: Id, id: Id)
    requires elder in db.rows && id in db.rows
  {
    IsStuck(db.rows[elder]) && db.rows[elder].exec.createdAt < db.rows[id].exec.createdAt
  }

  /** Neither now nor ever: the row refuses the token, or it holds another one and is blocked. */
  ghost predicate Denied(db: Db, id: Id, token: Int64, now: Instant) {
    && id in db.rows
    && (|| Refused(db.rows[id], token, now)
        || (IsBlocked(db, id) && !HasToken(db.rows[id], token)))
  }

  predicate HasToken(r: Record, token: Int64) {
    r.lease.Some? && r.lease.value.token == token
  }

  lemma DeniedFromNowOn(db: Db, id: Id, token: Int64, now: Instant)
    requires id in db.rows && Coupled(db.rows[id]) && FencedRow(db.rows[id]) && !Holds(db.rows[id], token, now)
    requires !MayStillBeIssued(db.rows[id], token) || IsBlocked(db, id)
    ensures Denied(db, id, token, now)
  {
    var r := db.rows[id];
    if !MayStillBeIssued(r, token) {
      RefusedFromNowOn(r, token, now);
    } else if HasToken(r, token) {
      LeaseTokenIsLogged(r);
    }
  }

  lemma DeniedIsNotHeld(db: Db, id: Id, token: Int64, now: Instant)
    requires Denied(db, id, token, now)
    ensures !Holds(db.rows[id], token, now)
  {
  }

  lemma OnlyClaimsGiveTokens(r: Record, op: RowOp, token: Int64, now: Instant)
    requires !op.OpClaim? && !HasToken(r, token)
    ensures !HasToken(Apply(r, op, now), token)
  {
  }

  lemma ElderStaysStuck(db: Db, elder: Id, step: Step, r': Record)
    requires elder in db.rows && Coupled(db.rows[elder]) && AllGuarded(db, step) && IsStuck(db.rows[elder])
    requires r' == Apply(db.rows[elder], Local(db, step.tx, elder), step.at)
    ensures IsStuck(r') && r'.exec == db.rows[elder].exec
  {
    BlockedRowStays(db.rows[elder], Local(db, step.tx, elder), step.at);
  }

  lemma ElderGoesFirst(db: Db, tx: Tx, id: Id, elder: Id)
    requires Enabled(db, tx) && id in db.rows && elder in db.rows && IsElderStuck(db, elder, id)
    ensures !Local(db, tx, id).OpClaim?
  {
    assert IsReady(db, elder);
  }

  lemma BlockedStep(db: Db, step: Step, id: Id, elder: Id, token: Int64, db': Db)
    requires CoupledDb(db) && AllGuarded(db, step) && Enabled(db, step.tx) && db' == Exec(db, step.at, step.tx).db
    requires id in db.rows && elder in db.rows && IsElderStuck(db, elder, id) && !HasToken(db.rows[id], token)
    ensures id in db'.rows && IsBlocked(db', id) && !HasToken(db'.rows[id], token)
  {
    Projection(db, step.at, step.tx, id);
    Projection(db, step.at, step.tx, elder);
    ElderStaysStuck(db, elder, step, db'.rows[elder]);
    ElderGoesFirst(db, step.tx, id, elder);
    PotentialStep(db.rows[id], Local(db, step.tx, id), step.at);
    OnlyClaimsGiveTokens(db.rows[id], Local(db, step.tx, id), token, step.at);
    assert IsElderStuck(db', elder, id);
  }

  lemma DeniedStep(db: Db, step: Step, id: Id, token: Int64, before: Instant, db': Db)
    requires CoupledDb(db) && AllGuarded(db, step) && Enabled(db, step.tx) && db' == Exec(db, step.at, step.tx).db
    requires Denied(db, id, token, before) && before <= step.at
    ensures Denied(db', id, token, step.at)
  {
    if Refused(db.rows[id], token, before) {
      Projection(db, step.at, step.tx, id);
      RefusedStep(db.rows[id], Local(db, step.tx, id), token, before, step.at);
    } else {
      var elder :| elder in db.rows && IsElderStuck(db, elder, id);
      BlockedStep(db, step, id, elder, token, db');
    }
  }

  lemma {:induction false} DeniedForever(db: Db, id: Id, token: Int64, from: Instant, steps: seq<Step>)
    requires CoupledDb(db) && Denied(db, id, token, from) && Lawful(db, from, steps)
    ensures Denied(Played(db, steps), id, token, EndOf(from, steps))
    decreases steps
  {
    if steps != [] {
      var next := Exec(db, steps[0].at, steps[0].tx).db;
      StepIsCoupled(db, steps[0], next);
      DeniedStep(db, steps[0], id, token, from, next);
      DeniedForever(next, id, token, steps[0].at, steps[1..]);
      assert EndOf(from, steps) == EndOf(steps[0].at, steps[1..]);
    }
  }

  // ----- if -----

  ghost predicate CanIssue(db: Db, id: Id, token: Int64) {
    CoupledDb(db) && id in db.rows && MayStillBeIssued(db.rows[id], token) && !IsBlocked(db, id)
  }

  ghost predicate Reaches(db: Db, from: Instant, steps: seq<Step>, db': Db) {
    Lawful(db, from, steps) && Played(db, steps) == db'
  }

  /** One row changes, and does not get stuck. */
  lemma StillUnblocked(db: Db, id: Id, other: Id, r': Record)
    requires id in db.rows && other in db.rows && !IsBlocked(db, id)
    requires r'.exec.createdAt == db.rows[other].exec.createdAt
    requires other == id || !IsStuck(r')
    ensures !IsBlocked(Put(db, other, r'), id)
  {
    var db' := Put(db, other, r');
    forall elder | elder in db'.rows
      ensures !IsElderStuck(db', elder, id)
    {
      assert !IsElderStuck(db, elder, id);
    }
  }

  /** First the row is made ready, when its lease has run out or its retry is due ... */
  lemma ReleaseIt(db: Db, id: Id, token: Int64, now: Instant) returns (steps: seq<Step>, db': Db)
    requires CanIssue(db, id, token)
    ensures Reaches(db, now, steps, db') && CanIssue(db', id, token) && IsReady(db', id)
    ensures db.rows[id].exec.status != Pending ==> AllRealisable(db, steps)
  {
    var r := db.rows[id];
    if r.exec.status == Ready {
      steps, db' := [], db;
    } else {
      var op, at := Release(r), Deadline(r, now);
      var step := Step(at, Act(id, op));
      ReleasedRow(r, now);
      ActOnRow(db, id, op, at);
      db' := Put(db, id, Apply(r, op, at));
      OneStep(db, now, step);
      StepIsCoupled(db, step, db');
      StillUnblocked(db, id, id, Apply(r, op, at));
      steps := [step];
      assert steps[1..] == [];
    }
  }

  /** ... then the ready rows created earlier are claimed, oldest first ... */
  lemma {:induction false} ClaimElders(db: Db, id: Id, token: Int64, now: Instant)
    returns (steps: seq<Step>, db': Db)
    requires CanIssue(db, id, token) && IsReady(db, id)
    ensures Reaches(db, now, steps, db') && AllRealisable(db, steps) && EndOf(now, steps) == now
    ensures CanIssue(db', id, token) && LegalPick(db', Some(id))
    decreases TotalPotential(db)
  {
    var pick := SomePickIsLegal(db, id);
    if db.rows[pick].exec.createdAt == db.rows[id].exec.createdAt {
      steps, db' := [], db;
    } else {
      assert !IsElderStuck(db, pick, id);
      var step, next := ClaimElder(db, id, token, now, pick);
      PotentialIsNatural(next);
      var rest;
      rest, db' := ClaimElders(next, id, token, now);
      steps := [step] + rest;
      assert steps[1..] == rest;
    }
  }

  lemma ClaimElder(db: Db, id: Id, token: Int64, now: Instant, pick: Id) returns (step: Step, db': Db)
    requires CanIssue(db, id, token) && IsReady(db, id) && LegalPick(db, Some(pick)) && pick != id
    requires !IsStuck(db.rows[pick])
    ensures step.at == now && step.tx.Claim? && Enabled(db, step.tx) && AllGuarded(db, step)
    ensures db' == Exec(db, now, step.tx).db && TotalPotential(db') < TotalPotential(db)
    ensures CanIssue(db', id, token) && IsReady(db', id)
  {
    var op := OpClaim("", 1);
    var r' := Apply(db.rows[pick], op, now);
    step, db' := Step(now, Act(pick, op)), Put(db, pick, r');
    ActOnRow(db, pick, op, now);
    StepIsCoupled(db, step, db');
    PotentialFalls(db, pick, op, now, r');
    StillUnblocked(db, id, pick, r');
  }

  /** ... and then the row itself, after at most one stale report that presents the token just
      below. */
  lemma ClaimIt(db: Db, id: Id, token: Int64, now: Instant) returns (steps: seq<Step>)
    requires LegalPick(db, Some(id)) && NextToken(db.rows[id].events) == token
    ensures Lawful(db, now, steps) && AllRealisable(db, steps) && EndOf(now, steps) == now
    ensures id in Played(db, steps).rows && Holds(Played(db, steps).rows[id], token, now)
  {
    var op := OpClaim("", 1);
    ActOnRow(db, id, op, now);
    OneStep(db, now, Step(now, Act(id, op)));
    steps := [Step(now, Act(id, op))];
    assert steps[1..] == [];
  }

  lemma StaleReportRaises(r: Record, token: Int64, now: Instant)
    requires Coupled(r) && r.exec.status == Ready && MayStillBeIssued(r, token) && NextToken(r.events) != token
    ensures var r' := CompleteRow(r, token - 1, "", None, now);
      r'.exec == r.exec && NextToken(r'.events) == token
  {
    Appended(r.events, CompleteRow(r, token - 1, "", None, now).events[|r.events|]);
  }

  lemma IssueIt(db: Db, id: Id, token: Int64, now: Instant) returns (steps: seq<Step>)
    requires CanIssue(db, id, token) && LegalPick(db, Some(id))
    ensures Lawful(db, now, steps) && AllRealisable(db, steps) && EndOf(now, steps) == now
    ensures id in Played(db, steps).rows && Holds(Played(db, steps).rows[id], token, now)
  {
    if NextToken(db.rows[id].events) == token {
      steps := ClaimIt(db, id, token, now);
    } else {
      var op := OpComplete(token - 1, "", None);
      var db' := Put(db, id, Apply(db.rows[id], op, now));
      StaleReportRaises(db.rows[id], token, now);
      ActOnRow(db, id, op, now);
      var rest := ClaimIt(db', id, token, now);
      steps := [Step(now, Act(id, op))] + rest;
      assert steps[1..] == rest;
    }
  }

  lemma MayBeIssued(db: Db, id: Id, token: Int64, now: Instant) returns (steps: seq<Step>)
    requires CanIssue(db, id, token)
    ensures Lawful(db, now, steps) && id in Played(db, steps).rows
    ensures Holds(Played(db, steps).rows[id], token, EndOf(now, steps))
    ensures db.rows[id].exec.status != Pending ==> AllRealisable(db, steps)
  {
    var release, ready := ReleaseIt(db, id, token, now);
    var at := EndOf(now, release);
    var claims, clear := ClaimElders(ready, id, token, at);
    var issue := IssueIt(clear, id, token, at);
    Joined(ready, at, claims, issue);
    Joined(db, now, release, claims + issue);
    RealisableJoined(ready, claims, issue);
    if db.rows[id].exec.status != Pending {
      RealisableJoined(db, release, claims + issue);
    }
    steps := release + (claims + issue);
  }

  // ----- the exact condition -----

  ghost predicate Accepts(db: Db, id: Id, token: Int64, now: Instant, steps: seq<Step>) {
    && Lawful(db, now, steps) && id in Played(db, steps).rows
    && Holds(Played(db, steps).rows[id], token, EndOf(now, steps))
  }

  /** A heartbeat rejected now may come to be accepted, after some lawful continuation, exactly if
      the execution is not over, has an attempt left, its history knows no token as large, and no
      ready execution created earlier is without a next token. */
  lemma RejectedHeartbeatMayBeAcceptedLater(db: Db, id: Id, token: Int64, now: Instant)
    requires CoupledDb(db) && id in db.rows && FencedRow(db.rows[id]) && !Holds(db.rows[id], token, now)
    ensures (exists steps :: Accepts(db, id, token, now, steps))
            <==> MayStillBeIssued(db.rows[id], token) && !IsBlocked(db, id)
  {
    if MayStillBeIssued(db.rows[id], token) && !IsBlocked(db, id) {
      var steps := MayBeIssued(db, id, token, now);
      assert Accepts(db, id, token, now, steps);
    } else {
      DeniedFromNowOn(db, id, token, now);
      forall steps
        ensures !Accepts(db, id, token, now, steps)
      {
        if Lawful(db, now, steps) {
          DeniedForever(db, id, token, now, steps);
          DeniedIsNotHeld(Played(db, steps), id, token, EndOf(now, steps));
        }
      }
    }
  }

  // ----- in a run -----

  lemma SoundIsCoupled(db: Db)
    requires SoundDb(db)
    ensures CoupledDb(db)
  {
    forall id | id in db.rows
      ensures Coupled(db.rows[id])
    {
      assert Sound(db.rows[id]);
    }
  }

  lemma {:induction false} DeniedInRun(s: Scheduled, i: nat, j: nat, id: Id, token: Int64)
    requires s.Valid() && i <= j < |s.run.steps| && Denied(s.run.dbs[i], id, token, s.run.steps[i].at)
    ensures Denied(s.run.dbs[j], id, token, s.run.steps[j].at)
    decreases j
  {
    if i < j {
      DeniedInRun(s, i, j - 1, id, token);
      AlwaysGuarded(s, j - 1);
      SoundIsCoupled(s.run.dbs[j - 1]);
      assert s.run.Follows(j - 1);
      DeniedStep(s.run.dbs[j - 1], s.run.steps[j - 1], id, token, s.run.steps[j - 1].at, s.run.dbs[j]);
      DeniedLater(s.run.dbs[j], id, token, s.run.steps[j - 1].at, s.run.steps[j].at);
    }
  }

  lemma DeniedLater(db: Db, id: Id, token: Int64, now: Instant, later: Instant)
    requires Denied(db, id, token, now) && now <= later
    ensures Denied(db, id, token, later)
  {
  }

  lemma AcceptedMeansHeld(run: Run, j: nat, id: Id, token: Int64)
    requires run.Valid() && AcceptedAt(run, j, id, token)
    ensures id in run.dbs[j].rows && Holds(run.dbs[j].rows[id], token, run.steps[j].at)
  {
    assert run.Follows(j);
  }

  lemma RejectedMeansNotHeld(run: Run, i: nat, id: Id, token: Int64)
    requires run.Valid() && HeartbeatAt(run, i, id, token, Stale) && id in run.dbs[i].rows
    ensures !Holds(run.dbs[i].rows[id], token, run.steps[i].at)
  {
    assert run.Follows(i);
  }

  lemma DeniedAfter(s: Scheduled, i: nat, j: nat, id: Id, token: Int64)
    requires s.Valid() && i < j < |s.run.steps| && HeartbeatAt(s.run, i, id, token, Stale) && id in s.run.dbs[i].rows
    requires !MayStillBeIssued(s.run.dbs[i].rows[id], token) || IsBlocked(s.run.dbs[i], id)
    ensures Denied(s.run.dbs[j], id, token, s.run.steps[j].at)
  {
    RejectedMeansNotHeld(s.run, i, id, token);
    SnapshotStable(s, i);
    FencedAlways(s.run, i, id);
    assert Sound(s.run.dbs[i].rows[id]);
    DeniedFromNowOn(s.run.dbs[i], id, token, s.run.steps[i].at);
    DeniedInRun(s, i, j, id, token);
  }

  /** With one scheduler a heartbeat that is rejected outside that condition is rejected for good,
      and so is every report: on a finished execution, on one that is making its last attempt under
      another token, behind an execution without a next token, and whenever a token as large is
      known. */
  lemma RejectedForGood(s: Scheduled, i: nat, j: nat, id: Id, token: Int64)
    requires s.Valid() && i < j && HeartbeatAt(s.run, i, id, token, Stale) && id in s.run.dbs[i].rows
    requires !MayStillBeIssued(s.run.dbs[i].rows[id], token) || IsBlocked(s.run.dbs[i], id)
    ensures !AcceptedAt(s.run, j, id, token)
  {
    if j < |s.run.steps| {
      DeniedAfter(s, i, j, id, token);
      DeniedIsNotHeld(s.run.dbs[j], id, token, s.run.steps[j].at);
      if AcceptedAt(s.run, j, id, token) {
        AcceptedMeansHeld(s.run, j, id, token);
      }
    }
  }

  /** Within it, one scheduler process can bring the acceptance about, unless the execution waits
      for a retry: to promote that, its pass first has to reap whatever else has expired. */
  lemma RejectedNotForGood(s: Scheduled, id: Id, token: Int64, secs: int) returns (s': Scheduled, j: nat)
    requires s.Valid() && id in End(s.run).rows && End(s.run).rows[id].exec.status != Pending
    requires MayStillBeIssued(End(s.run).rows[id], token) && !IsBlocked(End(s.run), id)
    ensures Extends(s, s') && |s.run.steps| <= j && HeartbeatAt(s'.run, j, id, token, Done)
  {
    var now := EndOf(0, s.run.steps);
    SnapshotStable(s, |s.run.steps|);
    SoundIsCoupled(End(s.run));
    var steps := MayBeIssued(End(s.run), id, token, now);
    var held := FutureRealised(s, now, steps);
    var beat := Step(EndOf(now, steps), Heartbeat(id, token, secs));
    s' := ThenDoes(held, held, beat, PcOf(held));
    j := |held.run.steps|;
    HeartbeatIsDone(held, beat, s', id, token, secs);
  }

  lemma HeartbeatIsDone(s: Scheduled, beat: Step, s': Scheduled, id: Id, token: Int64, secs: int)
    requires Does(s, beat, s') && beat.tx == Heartbeat(id, token, secs)
    requires id in End(s.run).rows && Holds(End(s.run).rows[id], token, beat.at)
    requires s'.run.steps == s.run.steps + [beat]
    ensures HeartbeatAt(s'.run, |s.run.steps|, id, token, Done)
  {
  }
}
