/** Why the system runs dry: sums over the whole table that every claim and every pass lower. */
module Draining {
  import opened Types
  import opened EventLog
  import opened Rows
  import opened Coupling
  import opened Database
  import opened Pass
  import opened Tokens
  import opened Progress
  import opened Scheduler

  /** A row that can make all the claims it is owed without running out of tokens. */
  ghost predicate Fit(r: Record) {
    Coupled(r) && (IsOver(r) || MaxToken(r.events).GetOr(0) + Owed(r) <= MAX_INT64)
  }

  ghost predicate AllFit(db: Db) {
    forall id :: id in db.rows ==> Fit(db.rows[id])
  }

  function OwedBy(db: Db): map<Id, int> {
    map id | id in db.rows :: Owed(db.rows[id])
  }

  function Potentials(db: Db): map<Id, int> {
    map id | id in db.rows :: Potential(db.rows[id])
  }

  ghost function TotalOwed(db: Db): int {
    Total(OwedBy(db))
  }

  ghost function TotalPotential(db: Db): int {
    Total(Potentials(db))
  }

  lemma TotalsAreNatural(db: Db)
    requires AllFit(db)
    ensures TotalOwed(db) >= 0 && TotalPotential(db) >= 0
  {
    forall id | id in db.rows
      ensures Owed(db.rows[id]) >= 0 && Potential(db.rows[id]) >= 0
    {
      assert Fit(db.rows[id]);
    }
    TotalNonNegative(OwedBy(db));
    TotalNonNegative(Potentials(db));
  }

  lemma PutOwed(db: Db, id: Id, r: Record)
    requires id in db.rows
    ensures TotalOwed(Put(db, id, r)) == TotalOwed(db) - Owed(db.rows[id]) + Owed(r)
  {
    TotalUpdate(OwedBy(db), id, Owed(r));
    assert OwedBy(Put(db, id, r)) == OwedBy(db)[id := Owed(r)];
  }

  lemma PutPotential(db: Db, id: Id, r: Record)
    requires id in db.rows
    ensures TotalPotential(Put(db, id, r)) == TotalPotential(db) - Potential(db.rows[id]) + Potential(r)
  {
    TotalUpdate(Potentials(db), id, Potential(r));
    assert Potentials(Put(db, id, r)) == Potentials(db)[id := Potential(r)];
  }

  lemma PotentialIsNatural(db: Db)
    requires CoupledDb(db)
    ensures TotalPotential(db) >= 0
  {
    forall id | id in db.rows
      ensures Potential(db.rows[id]) >= 0
    {
      assert Coupled(db.rows[id]);
    }
    TotalNonNegative(Potentials(db));
  }

  lemma PotentialFalls(db: Db, id: Id, op: RowOp, at: Instant, r': Record)
    requires id in db.rows && Coupled(db.rows[id]) && Guarded(db.rows[id], op, at)
    requires r' == Apply(db.rows[id], op, at) && r'.exec.status != db.rows[id].exec.status
    ensures TotalPotential(Put(db, id, r')) < TotalPotential(db)
  {
    PotentialStep(db.rows[id], op, at);
    PutPotential(db, id, r');
  }

  lemma PutFit(db: Db, id: Id, r: Record)
    requires AllFit(db) && Fit(r)
    ensures AllFit(Put(db, id, r))
  {
  }

  /** The operation presents no token above those in the history, as a claimant never does. */
  predicate PresentsKnownToken(r: Record, op: RowOp) {
    match op
    case OpHeartbeat(t, _) => Larger(MaxToken(r.events), t) == MaxToken(r.events)
    case OpComplete(t, _, _) => Larger(MaxToken(r.events), t) == MaxToken(r.events)
    case OpFail(t, _, _) => Larger(MaxToken(r.events), t) == MaxToken(r.events)
    case _ => true
  }

  /** A claimed row, a row reported on by its claimant, a row touched by the scheduler: fit rows
      stay fit. */
  lemma FitStep(r: Record, op: RowOp, now: Instant)
    requires Fit(r) && Guarded(r, op, now)
    requires PresentsKnownToken(r, op)
    ensures Fit(Apply(r, op, now))
    ensures Owed(Apply(r, op, now)) == Owed(r) - (if op.OpClaim? then 1 else 0)
    ensures Potential(Apply(r, op, now)) <= Potential(r) - (if op.OpClaim? then 1 else 0)
  {
    assert op.OpClaim? ==> !IsOver(r) && Owed(r) > 0 && TokenAvailable(r);
    CoupledStep(r, op, now);
    MaxTokenStep(r, op, now);
    OwedStep(r, op, now);
    PotentialStep(r, op, now);
  }

  // ----- a claim and its ending -----

  lemma NoWorkMeansIdle(db: Db, now: Instant, pick: Option<Id>, worker: string, secs: int)
    requires LegalPick(db, pick) && ExecClaim(db, now, pick, worker, secs).reply == NoWork
    ensures ExecClaim(db, now, pick, worker, secs).db == db && forall id :: !IsReady(db, id)
  {
  }

  lemma ClaimedRowIsFit(r: Record, now: Instant, worker: string, secs: int)
    requires Fit(r) && r.exec.status == Ready
    ensures TokenAvailable(r)
    ensures var r' := ClaimRow(r, worker, secs, now);
      && r'.lease.Some? && Fit(r') && Owed(r') == Owed(r) - 1 && Potential(r') < Potential(r)
      && MaxToken(r'.events) == Some(r'.lease.value.token)
  {
  }

  /** The same calls, one attempt less to go, and nothing became harder. */
  ghost predicate OneClaimLess(before: Db, after: Db) {
    && after.rows.Keys == before.rows.Keys && AllFit(after)
    && TotalOwed(after) == TotalOwed(before) - 1
    && TotalPotential(after) < TotalPotential(before)
  }

  /** The row was claimed last under the given token, and no larger token is known. */
  predicate ClaimedLast(db: Db, claim: ClaimInfo) {
    claim.id in db.rows && MaxToken(db.rows[claim.id].events) == Some(claim.token)
  }

  lemma ClaimLowersTotals(db: Db, now: Instant, pick: Option<Id>, worker: string, secs: int)
    requires AllFit(db) && LegalPick(db, pick) && ExecClaim(db, now, pick, worker, secs).reply != NoWork
    ensures var out := ExecClaim(db, now, pick, worker, secs);
      out.reply.Claimed? && ClaimedLast(out.db, out.reply.claim) && OneClaimLess(db, out.db)
  {
    var r := db.rows[pick.value];
    assert Fit(r);
    ClaimedRowIsFit(r, now, worker, secs);
    var r' := ClaimRow(r, worker, secs, now);
    PutOwed(db, pick.value, r');
    PutPotential(db, pick.value, r');
    PutFit(db, pick.value, r');
  }

  /** The same attempts left, and nothing became harder. */
  ghost predicate NoHarder(r: Record, r': Record) {
    Fit(r') && Owed(r') == Owed(r) && Potential(r') <= Potential(r)
  }

  /** The claimant's heartbeat or report, accepted, rejected or never sent. */
  lemma ReportedRowIsFit(r: Record, now: Instant, token: Int64, op: RowOp)
    requires Fit(r) && MaxToken(r.events) == Some(token)
    requires op.OpNone? || ((op.OpHeartbeat? || op.OpComplete? || op.OpFail?) && op.token == token)
    ensures NoHarder(r, Apply(r, op, now)) && MaxToken(Apply(r, op, now).events) == Some(token)
  {
    FitStep(r, op, now);
    MaxTokenStep(r, op, now);
  }

  /** One round of the executor's loop: a claim and what becomes of it. */
  lemma RoundLowersTotals(before: Db, claimed: Db, id: Id, r': Record)
    requires OneClaimLess(before, claimed) && id in claimed.rows && NoHarder(claimed.rows[id], r')
    ensures OneClaimLess(before, Put(claimed, id, r'))
  {
    PutOwed(claimed, id, r');
    PutPotential(claimed, id, r');
    PutFit(claimed, id, r');
  }

  // ----- a pass after every deadline -----

  ghost predicate AllDue(db: Db, now: Instant) {
    forall id :: id in db.rows ==>
      && (db.rows[id].lease.Some? ==> db.rows[id].lease.value.expires < now)
      && (db.rows[id].retry.Some? ==> db.rows[id].retry.value.at <= now)
  }

  lemma PassOnFitRow(r: Record, now: Instant)
    requires Fit(r) && r.exec.status != Ready
    requires r.lease.Some? ==> r.lease.value.expires < now
    requires r.retry.Some? ==> r.retry.value.at <= now
    ensures Fit(PassRow(r, now)) && Owed(PassRow(r, now)) == Owed(r)
    ensures if IsOver(r) then PassRow(r, now) == r else Potential(PassRow(r, now)) < Potential(r)
  {
    var expire := OpExpire(r.exec.attempts, r.exec.maxAttempts);
    if r.exec.status == Running {
      FitStep(r, expire, now);
      PotentialStep(r, expire, now);
    } else if r.exec.status == Pending {
      FitStep(r, OpPromote, now);
      PotentialStep(r, OpPromote, now);
    }
  }

  lemma {:induction false} TotalLower(m: map<Id, int>, m': map<Id, int>)
    requires m.Keys == m'.Keys && forall k :: k in m ==> m'[k] <= m[k]
    ensures Total(m') <= Total(m)
    ensures (exists k :: k in m && m'[k] < m[k]) ==> Total(m') < Total(m)
    decreases |m|
  {
    if m != map[] {
      var p := Pick(m);
      TotalSplits(m', p);
      TotalLower(m - {p}, m' - {p});
      if k :| k in m && m'[k] < m[k] {
        assert k != p ==> k in m - {p} && (m' - {p})[k] < (m - {p})[k];
      }
    } else {
      assert m' == map[];
    }
  }

  lemma PassOnFitTable(db: Db, now: Instant, id: Id)
    requires AllFit(db) && AllDue(db, now) && !IsReady(db, id) && id in db.rows
    ensures var r, db' := db.rows[id], PassDb(db, now);
      && id in db'.rows && Fit(db'.rows[id]) && Owed(db'.rows[id]) == Owed(r)
      && if IsOver(r) then db'.rows[id] == r else Potential(db'.rows[id]) < Potential(r)
  {
    assert Fit(db.rows[id]);
    PassOnRow(db, now, id);
    PassOnFitRow(db.rows[id], now);
  }

  ghost predicate DueForPass(db: Db, now: Instant) {
    AllFit(db) && AllDue(db, now) && forall id :: !IsReady(db, id)
  }

  lemma PassKeepsFit(db: Db, now: Instant, db': Db)
    requires DueForPass(db, now) && db' == PassDb(db, now)
    ensures db'.rows.Keys == db.rows.Keys && AllFit(db')
  {
    forall id | id in db'.rows
      ensures Fit(db'.rows[id])
    {
      assert !IsReady(db, id);
      PassOnFitTable(db, now, id);
    }
  }

  lemma PassOwesTheSame(r: Record, now: Instant)
    ensures Owed(PassRow(r, now)) == Owed(r)
  {
  }

  lemma PassKeepsRows(db: Db, now: Instant)
    ensures PassDb(db, now).rows.Keys == db.rows.Keys
  {
  }

  lemma PassKeepsOwed(db: Db, now: Instant, db': Db)
    requires db' == PassDb(db, now)
    ensures TotalOwed(db') == TotalOwed(db)
  {
    PassKeepsRows(db, now);
    forall id | id in db.rows
      ensures id in db'.rows && Owed(db'.rows[id]) == Owed(db.rows[id])
    {
      PassOnRow(db, now, id);
      PassOwesTheSame(db.rows[id], now);
    }
    SameOwed(db, db');
  }

  lemma SameOwed(db: Db, db': Db)
    requires db'.rows.Keys == db.rows.Keys
    requires forall id :: id in db.rows ==> Owed(db'.rows[id]) == Owed(db.rows[id])
    ensures TotalOwed(db') == TotalOwed(db)
  {
    assert OwedBy(db') == OwedBy(db);
  }

  lemma PassLowersPotential(db: Db, now: Instant, db': Db)
    requires DueForPass(db, now) && db' == PassDb(db, now)
    ensures (exists id :: id in db.rows && !IsOver(db.rows[id])) ==> TotalPotential(db') < TotalPotential(db)
    ensures TotalPotential(db') <= TotalPotential(db)
  {
    forall id | id in db.rows
      ensures if IsOver(db.rows[id]) then db'.rows[id] == db.rows[id]
              else Potential(db'.rows[id]) < Potential(db.rows[id])
    {
      assert !IsReady(db, id);
      PassOnFitTable(db, now, id);
    }
    PotentialsFall(db, db');
  }

  /** Once nothing is ready and every deadline has passed, a pass moves every open call on. */
  lemma PassLowersTotals(db: Db, now: Instant, db': Db)
    requires DueForPass(db, now) && db' == PassDb(db, now)
    ensures db'.rows.Keys == db.rows.Keys && AllFit(db')
    ensures TotalOwed(db') == TotalOwed(db)
    ensures (exists id :: id in db.rows && !IsOver(db.rows[id])) ==> TotalPotential(db') < TotalPotential(db)
    ensures TotalPotential(db') <= TotalPotential(db)
  {
    PassKeepsFit(db, now, db');
    PassKeepsOwed(db, now, db');
    PassLowersPotential(db, now, db');
  }

  lemma PotentialsFall(db: Db, db': Db)
    requires db'.rows.Keys == db.rows.Keys
    requires forall id :: id in db.rows ==>
      if IsOver(db.rows[id]) then db'.rows[id] == db.rows[id] else Potential(db'.rows[id]) < Potential(db.rows[id])
    ensures (exists id :: id in db.rows && !IsOver(db.rows[id])) ==> TotalPotential(db') < TotalPotential(db)
    ensures TotalPotential(db') <= TotalPotential(db)
  {
    TotalLower(Potentials(db), Potentials(db'));
    if id :| id in db.rows && !IsOver(db.rows[id]) {
      assert id in Potentials(db) && Potentials(db')[id] < Potentials(db)[id];
    }
  }

  // ----- rows without headroom -----

  /** A pass does not help: past its deadline an unfit row comes out of it ready and unfit. */
  lemma PassLeavesUnfit(r: Record, now: Instant)
    requires Coupled(r) && !Fit(r) && r.exec.status != Ready
    requires r.lease.Some? ==> r.lease.value.expires < now
    requires r.retry.Some? ==> r.retry.value.at <= now
    ensures PassRow(r, now) == Apply(r, Release(r), now) && Guarded(r, Release(r), now)
    ensures Coupled(PassRow(r, now)) && PassRow(r, now).exec.status == Ready && !Fit(PassRow(r, now))
  {
    ReleasedRow(r, now);
    OwedStep(r, Release(r), now);
  }

  /** Honest use keeps every row fit. */
  lemma HonestRowIsFit(s: Scheduled, j: nat, id: Id)
    requires s.Valid() && HonestRun(s.run, id) && j <= |s.run.steps| && id in s.run.dbs[j].rows
    ensures Fit(s.run.dbs[j].rows[id])
  {
    AlwaysDense(s.run, j, id);
    SnapshotStable(s, j);
    assert Sound(s.run.dbs[j].rows[id]);
  }
}
