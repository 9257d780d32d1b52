/** The token headroom that draining asks of every row is exactly what keeps claims from failing. */
module Headroom {
  import opened Types
  import opened EventLog
  import opened Rows
  import opened Coupling
  import opened Database
  import opened Pass
  import opened Scheduler
  import opened Tokens
  import opened Progress
  import opened Draining
  import opened Futures

  predicate AnyStuck(db: Db) {
    exists id :: id in db.rows && IsStuck(db.rows[id])
  }

  /** Whoever heartbeats or reports presents no token above those logged for the execution. */
  ghost predicate KnownTokens(db: Db, step: Step) {
    forall id :: id in db.rows ==> PresentsKnownToken(db.rows[id], Local(db, step.tx, id))
  }

  ghost predicate AllKnown(db: Db, steps: seq<Step>)
    decreases steps
  {
    steps != [] ==> KnownTokens(db, steps[0]) && AllKnown(Exec(db, steps[0].at, steps[0].tx).db, steps[1..])
  }

  // ----- headroom is enough -----

  lemma NewRowIsFit(key: CallKey, args: Json, maxAttempts: Int32, now: Instant)
    ensures Fit(SubmitRow(key, args, maxAttempts, now))
  {
    SubmittedIsCoupled(key, args, maxAttempts, now);
    SubmittedIsDense(key, args, maxAttempts, now);
  }

  lemma FitTableStep(db: Db, step: Step, db': Db)
    requires AllFit(db) && AllGuarded(db, step) && KnownTokens(db, step)
    requires db' == Exec(db, step.at, step.tx).db
    ensures AllFit(db')
  {
    forall id | id in db'.rows
      ensures Fit(db'.rows[id])
    {
      if id in db.rows {
        Projection(db, step.at, step.tx, id);
        FitStep(db.rows[id], Local(db, step.tx, id), step.at);
      } else {
        Insertion(db, step.at, step.tx, id);
        NewRowIsFit(step.tx.key, step.tx.args, db.tools[step.tx.key.toolName].maxAttempts, step.at);
      }
    }
  }

  lemma FitIsNotStuck(db: Db)
    requires AllFit(db)
    ensures !AnyStuck(db)
  {
    forall id | id in db.rows
      ensures !IsStuck(db.rows[id])
    {
      assert Fit(db.rows[id]);
    }
  }

  lemma {:induction false} FitTableNeverSticks(db: Db, from: Instant, steps: seq<Step>)
    requires AllFit(db) && Lawful(db, from, steps) && AllKnown(db, steps)
    ensures AllFit(Played(db, steps)) && !AnyStuck(Played(db, steps))
    decreases steps
  {
    if steps == [] {
      FitIsNotStuck(db);
    } else {
      var next := Exec(db, steps[0].at, steps[0].tx).db;
      FitTableStep(db, steps[0], next);
      FitTableNeverSticks(next, steps[0].at, steps[1..]);
    }
  }

  // ----- and nothing less is -----

  predicate IsUnfit(db: Db, id: Id) {
    id in db.rows && !IsOver(db.rows[id]) && MaxToken(db.rows[id].events).GetOr(0) + Owed(db.rows[id]) > MAX_INT64
  }

  /** A step on the way: it changes one row, presents no token, and brings the end nearer. */
  ghost predicate Onward(db: Db, from: Instant, step: Step, db': Db) {
    && db' == Exec(db, step.at, step.tx).db
    && from <= step.at && Enabled(db, step.tx) && AllGuarded(db, step)
    && Realisable(db, step) && KnownTokens(db, step)
    && CoupledDb(db') && TotalPotential(db') < TotalPotential(db)
  }

  lemma ActPresentsNothing(db: Db, id: Id, op: RowOp, at: Instant)
    requires op.OpClaim? || op.OpExpire? || op.OpPromote?
    ensures KnownTokens(db, Step(at, Act(id, op)))
  {
  }

  lemma ActIsOnward(db: Db, from: Instant, id: Id, op: RowOp, at: Instant, db': Db)
    requires CoupledDb(db) && id in db.rows && from <= at
    requires op.OpClaim? || op.OpExpire? || op.OpPromote?
    requires Guarded(db.rows[id], op, at) && Apply(db.rows[id], op, at).exec.status != db.rows[id].exec.status
    requires Enabled(db, Act(id, op)) && Realisable(db, Step(at, Act(id, op)))
    requires db' == Put(db, id, Apply(db.rows[id], op, at))
    ensures Onward(db, from, Step(at, Act(id, op)), db')
  {
    ActOnRow(db, id, op, at);
    ActPresentsNothing(db, id, op, at);
    StepIsCoupled(db, Step(at, Act(id, op)), db');
    PotentialFalls(db, id, op, at, Apply(db.rows[id], op, at));
  }

  /** The row lacks the headroom as much after the operation as before. */
  lemma UnfitRowStays(r: Record, op: RowOp, now: Instant)
    requires Coupled(r) && Guarded(r, op, now) && !IsOver(r) && MaxToken(r.events).GetOr(0) + Owed(r) > MAX_INT64
    requires op.OpExpire? || op.OpPromote? || (op.OpClaim? && TokenAvailable(r))
    ensures var r' := Apply(r, op, now); !IsOver(r') && MaxToken(r'.events).GetOr(0) + Owed(r') > MAX_INT64
  {
    MaxTokenStep(r, op, now);
    OwedStep(r, op, now);
  }

  /** If something is ready, the oldest ready row is claimed. */
  lemma ClaimOnward(db: Db, from: Instant, unfit: Id, ready: Id) returns (step: Step, db': Db)
    requires CoupledDb(db) && IsUnfit(db, unfit) && !AnyStuck(db) && IsReady(db, ready)
    ensures Onward(db, from, step, db') && IsUnfit(db', unfit)
  {
    var pick := SomePickIsLegal(db, ready);
    assert !IsStuck(db.rows[pick]);
    var op := OpClaim("", 1);
    step, db' := Step(from, Act(pick, op)), Put(db, pick, Apply(db.rows[pick], op, from));
    ActIsOnward(db, from, pick, op, from, db');
    if pick == unfit {
      UnfitRowStays(db.rows[pick], op, from);
    }
  }

  /** Otherwise, if something is running, its lease is left to run out. */
  lemma ExpireOnward(db: Db, from: Instant, unfit: Id, running: Id) returns (step: Step, db': Db)
    requires CoupledDb(db) && IsUnfit(db, unfit) && running in db.rows && db.rows[running].exec.status == Running
    ensures Onward(db, from, step, db') && IsUnfit(db', unfit)
  {
    var r := db.rows[running];
    var op, at := Release(r), Deadline(r, from);
    step, db' := Step(at, Act(running, op)), Put(db, running, Apply(r, op, at));
    ActIsOnward(db, from, running, op, at, db');
    if running == unfit {
      UnfitRowStays(r, op, at);
    }
  }

  /** Otherwise the row waits for its retry, and no lease is left that could be expired. */
  lemma PromoteOnward(db: Db, from: Instant, unfit: Id) returns (step: Step, db': Db)
    requires CoupledDb(db) && IsUnfit(db, unfit) && db.rows[unfit].exec.status == Pending
    requires forall id :: id in db.rows ==> db.rows[id].exec.status != Running
    ensures Onward(db, from, step, db') && IsUnfit(db', unfit)
  {
    var r := db.rows[unfit];
    var op, at := Release(r), Deadline(r, from);
    step, db' := Step(at, Act(unfit, op)), Put(db, unfit, Apply(r, op, at));
    ActIsOnward(db, from, unfit, op, at, db');
    UnfitRowStays(r, op, at);
  }

  lemma GoOnward(db: Db, from: Instant, unfit: Id) returns (step: Step, db': Db)
    requires CoupledDb(db) && IsUnfit(db, unfit) && !AnyStuck(db)
    ensures Onward(db, from, step, db') && IsUnfit(db', unfit)
  {
    assert Coupled(db.rows[unfit]);
    if id :| IsReady(db, id) {
      step, db' := ClaimOnward(db, from, unfit, id);
    } else if id :| id in db.rows && db.rows[id].exec.status == Running {
      step, db' := ExpireOnward(db, from, unfit, id);
    } else {
      assert !IsReady(db, unfit);
      step, db' := PromoteOnward(db, from, unfit);
    }
  }

  ghost predicate Sticks(db: Db, from: Instant, steps: seq<Step>) {
    Lawful(db, from, steps) && AllKnown(db, steps) && AnyStuck(Played(db, steps))
  }

  /** If one row lacks the headroom, claims that are abandoned one after the other end in a table in
      which some row is ready and unclaimable. */
  lemma {:induction false} UnfitTableGetsStuck(db: Db, from: Instant, unfit: Id) returns (steps: seq<Step>)
    requires CoupledDb(db) && IsUnfit(db, unfit)
    ensures Sticks(db, from, steps)
    decreases TotalPotential(db)
  {
    if AnyStuck(db) {
      steps := [];
    } else {
      var step, next := GoOnward(db, from, unfit);
      PotentialIsNatural(next);
      var rest := UnfitTableGetsStuck(next, step.at, unfit);
      steps := [step] + rest;
      assert steps[1..] == rest;
    }
  }

  lemma SomeRowIsUnfit(db: Db) returns (unfit: Id)
    requires CoupledDb(db) && !AllFit(db)
    ensures IsUnfit(db, unfit)
  {
    unfit :| unfit in db.rows && !Fit(db.rows[unfit]);
  }

  /** Every row has the headroom exactly if no lawful continuation that presents only known tokens
      ever reaches a table with a row that is ready and unclaimable. */
  lemma FitIffNeverStuck(db: Db, from: Instant)
    requires CoupledDb(db)
    ensures AllFit(db) <==> forall steps :: !Sticks(db, from, steps)
  {
    if AllFit(db) {
      forall steps
        ensures !Sticks(db, from, steps)
      {
        if Lawful(db, from, steps) && AllKnown(db, steps) {
          FitTableNeverSticks(db, from, steps);
        }
      }
    } else {
      var unfit := SomeRowIsUnfit(db);
      var steps := UnfitTableGetsStuck(db, from, unfit);
      assert Sticks(db, from, steps);
    }
  }

  // ----- the same of the runs of one scheduler process -----

  ghost predicate KnownFrom(run: Run, i: nat) {
    forall m :: i <= m < |run.steps| && m < |run.dbs| ==> KnownTokens(run.dbs[m], run.steps[m])
  }

  lemma {:induction false} FitRunNeverSticks(s: Scheduled, i: nat, j: nat)
    requires s.Valid() && i <= j <= |s.run.steps| && AllFit(s.run.dbs[i]) && KnownFrom(s.run, i)
    ensures AllFit(s.run.dbs[j]) && !AnyStuck(s.run.dbs[j])
    decreases j
  {
    if i < j {
      FitRunNeverSticks(s, i, j - 1);
      AlwaysGuarded(s, j - 1);
      assert s.run.Follows(j - 1) && KnownTokens(s.run.dbs[j - 1], s.run.steps[j - 1]);
      FitTableStep(s.run.dbs[j - 1], s.run.steps[j - 1], s.run.dbs[j]);
    }
    FitIsNotStuck(s.run.dbs[j]);
  }

  /** An extension of the run in which, from position i on, only known tokens are presented and
      which ends with a row stuck. */
  ghost predicate SticksFrom(s: Scheduled, i: nat, s': Scheduled) {
    && Extends(s, s')
    && KnownFrom(s'.run, i) && AnyStuck(End(s'.run))
  }

  lemma PassStepsAreKnown(db: Db, step: Step)
    requires IsPassStep(step.tx)
    ensures KnownTokens(db, step)
  {
  }

  lemma DoneKnown(s: Scheduled, i: nat, step: Step, s': Scheduled)
    requires Does(s, step, s') && KnownFrom(s.run, i) && KnownTokens(End(s.run), step)
    ensures KnownFrom(s'.run, i)
  {
    forall m | i <= m < |s'.run.steps| && m < |s'.run.dbs|
      ensures KnownTokens(s'.run.dbs[m], s'.run.steps[m])
    {
      if m < |s.run.steps| {
        assert KnownTokens(s.run.dbs[m], s.run.steps[m]);
      } else if IsPassStep(s'.run.steps[m].tx) {
        PassStepsAreKnown(s'.run.dbs[m], s'.run.steps[m]);
      }
    }
  }

  lemma OnwardRealised(s: Scheduled, i: nat, from: Instant, step: Step, db': Db) returns (next: Scheduled)
    requires s.Valid() && EndOf(from, s.run.steps) <= from && KnownFrom(s.run, i)
    requires Onward(End(s.run), from, step, db')
    ensures Extends(s, next)
    ensures EndOf(step.at, next.run.steps) <= step.at && KnownFrom(next.run, i) && End(next.run) == db'
  {
    next := Realised(s, step);
    DoneKnown(s, i, step, next);
  }

  lemma {:induction false} UnfitRunGetsStuck(s: Scheduled, i: nat, from: Instant, unfit: Id) returns (s': Scheduled)
    requires s.Valid() && EndOf(from, s.run.steps) <= from && KnownFrom(s.run, i)
    requires CoupledDb(End(s.run)) && IsUnfit(End(s.run), unfit)
    ensures SticksFrom(s, i, s')
    decreases TotalPotential(End(s.run))
  {
    if AnyStuck(End(s.run)) {
      s' := s;
    } else {
      var step, db' := GoOnward(End(s.run), from, unfit);
      var next := OnwardRealised(s, i, from, step, db');
      PotentialIsNatural(db');
      s' := UnfitRunGetsStuck(next, i, step.at, unfit);
    }
  }

  /** In the system with one scheduler process, however far it is into a pass: every row has the
      headroom exactly if no extension of the run, presenting only known tokens, gets a row stuck. */
  lemma FitIffRunNeverSticks(s: Scheduled)
    requires s.Valid()
    ensures AllFit(End(s.run)) <==> forall s' :: !SticksFrom(s, |s.run.steps|, s')
  {
    var i := |s.run.steps|;
    SnapshotStable(s, i);
    assert CoupledDb(End(s.run)) by {
      forall id | id in End(s.run).rows
        ensures Coupled(End(s.run).rows[id])
      {
        assert Sound(s.run.dbs[i].rows[id]);
      }
    }
    if AllFit(End(s.run)) {
      forall s'
        ensures !SticksFrom(s, i, s')
      {
        if Extends(s, s') && KnownFrom(s'.run, i) {
          assert s'.run.dbs[i] == End(s.run);
          FitRunNeverSticks(s', i, |s'.run.steps|);
        }
      }
    } else {
      var unfit := SomeRowIsUnfit(End(s.run));
      var s' := UnfitRunGetsStuck(s, i, EndOf(0, s.run.steps), unfit);
      assert SticksFrom(s, i, s');
    }
  }
}
