/** How the dashboard's counts move from step to step. */
module Counting {
  import opened Types
  import opened Coupling
  import opened Database
  import opened Scheduler
  import opened Effects
  import opened Views
  import opened Outcomes

  lemma SizeWithout(ids: set<Id>, id: Id)
    ensures |ids| == |ids - {id}| + (if id in ids then 1 else 0)
  {
    if id in ids {
      assert ids == ids - {id} + {id};
    } else {
      assert ids == ids - {id};
    }
  }

  /** The number of rows with a status, when only one row changes or is new. */
  lemma CountAfter(db: Db, id: Id, db': Db, status: Status)
    requires id in db'.rows && db'.rows == db.rows[id := db'.rows[id]]
    ensures |WithStatus(db', status)| ==
            |WithStatus(db, status)|
            - (if id in db.rows && db.rows[id].exec.status == status then 1 else 0)
            + (if db'.rows[id].exec.status == status then 1 else 0)
  {
    SizeWithout(WithStatus(db, status), id);
    SizeWithout(WithStatus(db', status), id);
    OthersKeepStatus(db, id, db', status);
  }

  lemma OthersKeepStatus(db: Db, id: Id, db': Db, status: Status)
    requires id in db'.rows && db'.rows == db.rows[id := db'.rows[id]]
    ensures WithStatus(db', status) - {id} == WithStatus(db, status) - {id}
  {
    forall other | other != id
      ensures other in WithStatus(db', status) <==> other in WithStatus(db, status)
    {
    }
  }

  lemma TotalAfter(db: Db, id: Id, db': Db)
    requires id in db'.rows && db'.rows == db.rows[id := db'.rows[id]]
    ensures |db'.rows| == |db.rows| + (if id in db.rows then 0 else 1)
  {
    assert |db'.rows| == |db'.rows.Keys| && |db.rows| == |db.rows.Keys|;
    SizeWithout(db'.rows.Keys, id);
    SizeWithout(db.rows.Keys, id);
    assert db'.rows.Keys - {id} == db.rows.Keys - {id};
  }

  /** Between two readings of the dashboard each count has grown by so much. */
  predicate Shifts(v: Stats, v': Stats, total: int, ready: int, running: int, completed: int, failed: int) {
    && v'.total == v.total + total
    && v'.ready == v.ready + ready
    && v'.running == v.running + running
    && v'.completed == v.completed + completed
    && v'.failed == v.failed + failed
  }

  predicate Stays(v: Stats, v': Stats) {
    Shifts(v, v', 0, 0, 0, 0, 0)
  }

  function Plus(counts: bool): int {
    if counts then 1 else 0
  }

  /** One row goes from a status, if it was there before, to another. */
  lemma RowShifts(db: Db, id: Id, db': Db, t: Instant, t': Instant)
    requires id in db'.rows && db'.rows == db.rows[id := db'.rows[id]]
    ensures var was := if id in db.rows then Some(db.rows[id].exec.status) else None;
            var goes := db'.rows[id].exec.status;
      Shifts(StatsOf(db, t), StatsOf(db', t'),
             Plus(was == None),
             Plus(goes == Ready) - Plus(was == Some(Ready)),
             Plus(goes == Running) - Plus(was == Some(Running)),
             Plus(goes == Completed) - Plus(was == Some(Completed)),
             Plus(goes == Failed) - Plus(was == Some(Failed)))
  {
    TotalAfter(db, id, db');
    CountAfter(db, id, db', Ready);
    CountAfter(db, id, db', Running);
    CountAfter(db, id, db', Completed);
    CountAfter(db, id, db', Failed);
  }

  lemma OnlyRowShifts(db: Db, id: Id, db': Db, t: Instant, t': Instant)
    requires OnlyRow(db, id, db')
    ensures var was, goes := db.rows[id].exec.status, db'.rows[id].exec.status;
      Shifts(StatsOf(db, t), StatsOf(db', t'),
             0,
             Plus(goes == Ready) - Plus(was == Ready),
             Plus(goes == Running) - Plus(was == Running),
             Plus(goes == Completed) - Plus(was == Completed),
             Plus(goes == Failed) - Plus(was == Failed))
  {
    assert db'.rows == db.rows[id := db'.rows[id]];
    RowShifts(db, id, db', t, t');
  }

  lemma SameStats(db: Db, db': Db, t: Instant, t': Instant)
    requires db'.rows == db.rows
    ensures Stays(StatsOf(db, t), StatsOf(db', t'))
  {
    forall status: Status
      ensures WithStatus(db', status) == WithStatus(db, status)
    {
    }
  }

  // ----- step by step -----

  /** An empty store shows zeros. */
  lemma NothingToCount(now: Instant)
    ensures StatsOf(EMPTY, now) == Totals(0, 0, 0, 0, 0, 0)
  {
    forall status: Status
      ensures WithStatus(EMPTY, status) == {}
    {
    }
    assert LiveLeases(EMPTY, now) == {};
  }

  /** A new call adds one to the total and to the ready ones; any other Submit changes no count. */
  lemma SubmitCounts(run: Run, i: nat, t: Instant, t': Instant)
    requires run.Valid() && i < |run.steps| && run.steps[i].tx.Submit?
    ensures var v, v' := StatsOf(run.dbs[i], t), StatsOf(run.dbs[i + 1], t');
      if run.Reply(i).Submitted? && !run.Reply(i).info.duplicate then Shifts(v, v', 1, 1, 0, 0, 0) else Stays(v, v')
  {
    var db, db', tx := run.dbs[i], run.dbs[i + 1], run.steps[i].tx;
    RefusedSubmit(run, i);
    if tx.key.toolName !in db.tools {
      SameStats(db, db', t, t');
    } else if id :| IsCallOf(db, id, tx.key) {
      DuplicateSubmit(run, i, id);
      OnlyRowShifts(db, id, db', t, t');
    } else if tx.newId in db.rows {
      SameStats(db, db', t, t');
    } else {
      AcceptedSubmit(run, i);
      RowShifts(db, tx.newId, db', t, t');
    }
  }

  /** A claim moves one execution from ready to running. */
  lemma ClaimCounts(run: Run, i: nat, t: Instant, t': Instant)
    requires run.Valid() && i < |run.steps| && run.steps[i].tx.Claim?
    ensures var v, v' := StatsOf(run.dbs[i], t), StatsOf(run.dbs[i + 1], t');
      if run.Reply(i).Claimed? then Shifts(v, v', 0, -1, 1, 0, 0) else Stays(v, v')
  {
    if run.Reply(i).Claimed? {
      ClaimTakes(run, i);
      OnlyRowShifts(run.dbs[i], run.Reply(i).claim.id, run.dbs[i + 1], t, t');
    } else {
      IdleClaim(run, i);
      SameStats(run.dbs[i], run.dbs[i + 1], t, t');
    }
  }

  lemma HeldIsRunning(s: Scheduled, i: nat, id: Id, token: Int64, now: Instant)
    requires s.Valid() && i <= |s.run.steps| && IsHeld(s.run.dbs[i], id, token, now)
    ensures s.run.dbs[i].rows[id].exec.status == Running
  {
    SnapshotStable(s, i);
    assert Sound(s.run.dbs[i].rows[id]);
  }

  /** A rejected report changes no count. */
  lemma RejectionCounts(run: Run, i: nat, t: Instant, t': Instant)
    requires run.Valid() && i < |run.steps| && (run.steps[i].tx.Complete? || run.steps[i].tx.Fail?)
    requires run.Reply(i) != Done
    ensures Stays(StatsOf(run.dbs[i], t), StatsOf(run.dbs[i + 1], t'))
  {
    var tx := run.steps[i].tx;
    NotDoneMeansNotHeld(run, i);
    RejectedReport(run, i);
    if tx.id in run.dbs[i].rows {
      OnlyRowShifts(run.dbs[i], tx.id, run.dbs[i + 1], t, t');
    } else {
      SameStats(run.dbs[i], run.dbs[i + 1], t, t');
    }
  }

  lemma NotDoneMeansNotHeld(run: Run, i: nat)
    requires run.Valid() && i < |run.steps| && (run.steps[i].tx.Complete? || run.steps[i].tx.Fail?)
    requires run.Reply(i) != Done
    ensures !IsHeld(run.dbs[i], run.steps[i].tx.id, run.steps[i].tx.token, run.steps[i].at)
  {
    if IsHeld(run.dbs[i], run.steps[i].tx.id, run.steps[i].tx.token, run.steps[i].at) {
      if run.steps[i].tx.Complete? {
        AcceptedComplete(run, i);
      } else {
        AcceptedFail(run, i);
      }
    }
  }

  /** An accepted Complete moves one execution from running to completed. */
  lemma CompleteCounts(s: Scheduled, i: nat, t: Instant, t': Instant)
    requires s.Valid() && i < |s.run.steps| && s.run.steps[i].tx.Complete?
    ensures var v, v' := StatsOf(s.run.dbs[i], t), StatsOf(s.run.dbs[i + 1], t');
      if s.run.Reply(i) == Done then Shifts(v, v', 0, 0, -1, 1, 0) else Stays(v, v')
  {
    var tx := s.run.steps[i].tx;
    if s.run.Reply(i) == Done {
      DoneMeansHeld(s.run, i);
      HeldIsRunning(s, i, tx.id, tx.token, s.run.steps[i].at);
      AcceptedComplete(s.run, i);
      OnlyRowShifts(s.run.dbs[i], tx.id, s.run.dbs[i + 1], t, t');
    } else {
      RejectionCounts(s.run, i, t, t');
    }
  }

  /** An accepted Fail takes one execution from running, into failed when no attempt is left. */
  lemma FailCounts(s: Scheduled, i: nat, t: Instant, t': Instant)
    requires s.Valid() && i < |s.run.steps| && s.run.steps[i].tx.Fail?
    ensures s.run.Reply(i) == Done ==> s.run.steps[i].tx.id in s.run.dbs[i].rows
    ensures var v, v' := StatsOf(s.run.dbs[i], t), StatsOf(s.run.dbs[i + 1], t');
      if s.run.Reply(i) == Done then
        var e := s.run.dbs[i].rows[s.run.steps[i].tx.id].exec;
        Shifts(v, v', 0, 0, -1, 0, if e.attempts >= e.maxAttempts then 1 else 0)
      else Stays(v, v')
  {
    var tx := s.run.steps[i].tx;
    if s.run.Reply(i) == Done {
      DoneMeansHeld(s.run, i);
      HeldIsRunning(s, i, tx.id, tx.token, s.run.steps[i].at);
      AcceptedFail(s.run, i);
      OnlyRowShifts(s.run.dbs[i], tx.id, s.run.dbs[i + 1], t, t');
    } else {
      RejectionCounts(s.run, i, t, t');
    }
  }

  /** A reap takes one execution from running, to ready or, without an attempt to spare, to failed. */
  lemma ReapCounts(s: Scheduled, i: nat, t: Instant, t': Instant)
    requires s.Valid() && i < |s.run.steps| && s.run.steps[i].tx.ExpireLease?
    ensures s.run.steps[i].tx.id in s.run.dbs[i].rows
    ensures var v, v' := StatsOf(s.run.dbs[i], t), StatsOf(s.run.dbs[i + 1], t');
      var e := s.run.dbs[i].rows[s.run.steps[i].tx.id].exec;
      if e.attempts < e.maxAttempts then Shifts(v, v', 0, 1, -1, 0, 0) else Shifts(v, v', 0, 0, -1, 0, 1)
  {
    ReapFindsStale(s, i);
    ReapActs(s.run, i);
    OnlyRowShifts(s.run.dbs[i], s.run.steps[i].tx.id, s.run.dbs[i + 1], t, t');
  }

  lemma ReapFindsStale(s: Scheduled, i: nat)
    requires s.Valid() && i < |s.run.steps| && s.run.steps[i].tx.ExpireLease?
    ensures s.run.steps[i].tx.id in s.run.dbs[i].rows
    ensures var tx, e := s.run.steps[i].tx, s.run.dbs[i].rows[s.run.steps[i].tx.id].exec;
      e.status == Running && tx.attempts == e.attempts && tx.maxAttempts == e.maxAttempts
  {
    ReapIsAtomic(s, i);
    AlwaysGuarded(s, i);
    var tx := s.run.steps[i].tx;
    assert Guarded(s.run.dbs[i].rows[tx.id], Local(s.run.dbs[i], tx, tx.id), s.run.steps[i].at);
  }

  /** A promotion adds one to the ready executions. */
  lemma PromoteCounts(s: Scheduled, i: nat, t: Instant, t': Instant)
    requires s.Valid() && i < |s.run.steps| && s.run.steps[i].tx.PromoteRetry?
    ensures Shifts(StatsOf(s.run.dbs[i], t), StatsOf(s.run.dbs[i + 1], t'), 0, 1, 0, 0, 0)
  {
    PromoteIsAtomic(s, i);
    PromoteActs(s.run, i);
    OnlyRowShifts(s.run.dbs[i], s.run.steps[i].tx.id, s.run.dbs[i + 1], t, t');
  }

  /** Heartbeats, registrations and the scheduler's queries change no count. */
  lemma OthersCountNothing(run: Run, i: nat, t: Instant, t': Instant)
    requires run.Valid() && i < |run.steps|
    requires var tx := run.steps[i].tx;
      tx.Heartbeat? || tx.SeedTool? || tx.QueryStale? || tx.QueryDue? || tx.EndPass? || tx.Observe?
    ensures Stays(StatsOf(run.dbs[i], t), StatsOf(run.dbs[i + 1], t'))
  {
    var tx := run.steps[i].tx;
    if tx.Heartbeat? && IsHeld(run.dbs[i], tx.id, tx.token, run.steps[i].at) {
      HeartbeatMovesExpiry(run, i);
      OnlyRowShifts(run.dbs[i], tx.id, run.dbs[i + 1], t, t');
    } else if tx.Heartbeat? {
      HeartbeatMovesExpiry(run, i);
      SameStats(run.dbs[i], run.dbs[i + 1], t, t');
    } else {
      OthersAct(run, i);
      SameStats(run.dbs[i], run.dbs[i + 1], t, t');
    }
  }
}
