/** Attempts still owed to executions, and what they say about waiting: no ready call starves. */
module Progress {
  import opened Types
  import opened Rows
  import opened Coupling
  import opened Database
  import opened Scheduler
  import opened Fencing
  import opened Tokens
  import opened Outcomes

  // ----- sums over tables -----

  ghost function Pick(m: map<Id, int>): Id
    requires m != map[]
    ensures Pick(m) in m
  {
    assert m.Keys != {};
    var k :| k in m;
    k
  }

  ghost function Total(m: map<Id, int>): int
    decreases |m|
  {
    if m == map[] then 0 else m[Pick(m)] + Total(m - {Pick(m)})
  }

  lemma {:induction false} TotalSplits(m: map<Id, int>, k: Id)
    requires k in m
    ensures Total(m) == m[k] + Total(m - {k})
    decreases |m|
  {
    var p := Pick(m);
    if p != k {
      TotalSplits(m - {p}, k);
      TotalSplits(m - {k}, p);
      assert m - {p} - {k} == m - {k} - {p};
    }
  }

  lemma TotalUpdate(m: map<Id, int>, k: Id, v: int)
    ensures Total(m[k := v]) == Total(m) - (if k in m then m[k] else 0) + v
  {
    TotalSplits(m[k := v], k);
    if k in m {
      TotalSplits(m, k);
      assert m[k := v] - {k} == m - {k};
    } else {
      assert m[k := v] - {k} == m;
    }
  }

  lemma {:induction false} TotalBounds(m: map<Id, int>, k: Id)
    requires k in m && forall i :: i in m ==> m[i] >= 0
    ensures 0 <= m[k] <= Total(m)
    decreases |m|
  {
    TotalSplits(m, k);
    TotalNonNegative(m - {k});
  }

  lemma {:induction false} TotalNonNegative(m: map<Id, int>)
    requires forall i :: i in m ==> m[i] >= 0
    ensures Total(m) >= 0
    decreases |m|
  {
    if m != map[] {
      TotalNonNegative(m - {Pick(m)});
    }
  }

  // ----- attempts owed -----

  function Owed(r: Record): int {
    Budget(r.exec) - r.exec.attempts
  }

  /** What is owed to the executions created up to a given time. */
  function OwedUpTo(db: Db, t: Instant): map<Id, int> {
    map id | id in db.rows && db.rows[id].exec.createdAt <= t :: Owed(db.rows[id])
  }

  predicate IsSuccessfulClaim(db: Db, tx: Tx) {
    tx.Claim? && tx.pick.Some? && tx.pick.value in db.rows && TokenAvailable(db.rows[tx.pick.value])
  }

  lemma SuccessIsClaimed(db: Db, now: Instant, tx: Tx)
    ensures IsSuccessfulClaim(db, tx) <==> Exec(db, now, tx).reply.Claimed?
  {
  }

  /** A row operation spends an attempt exactly if it is a successful claim. */
  lemma OwedStep(r: Record, op: RowOp, now: Instant)
    ensures Apply(r, op, now).exec.createdAt == r.exec.createdAt
    ensures Owed(Apply(r, op, now)) == Owed(r) - (if op.OpClaim? && TokenAvailable(r) then 1 else 0)
  {
  }

  lemma OwedOnRow(db: Db, step: Step, id: Id, db': Db)
    requires db' == Exec(db, step.at, step.tx).db && id in db.rows
    ensures id in db'.rows && db'.rows[id].exec.createdAt == db.rows[id].exec.createdAt
    ensures Owed(db'.rows[id]) ==
            Owed(db.rows[id]) - (if IsSuccessfulClaim(db, step.tx) && step.tx.pick == Some(id) then 1 else 0)
  {
    Projection(db, step.at, step.tx, id);
    OwedStep(db.rows[id], Local(db, step.tx, id), step.at);
  }

  lemma NewRowIsYoung(db: Db, step: Step, id: Id, db': Db, t: Instant)
    requires db' == Exec(db, step.at, step.tx).db && id in db'.rows && id !in db.rows
    requires step.tx.Submit? ==> t < step.at
    ensures db'.rows[id].exec.createdAt > t
  {
    Insertion(db, step.at, step.tx, id);
  }

  lemma OwedAfter(db: Db, step: Step, t: Instant, db': Db)
    requires db' == Exec(db, step.at, step.tx).db
    requires step.tx.Submit? ==> t < step.at
    ensures OwedUpTo(db', t) ==
      if IsSuccessfulClaim(db, step.tx) && db.rows[step.tx.pick.value].exec.createdAt <= t
      then OwedUpTo(db, t)[step.tx.pick.value := Owed(db.rows[step.tx.pick.value]) - 1]
      else OwedUpTo(db, t)
  {
    forall id | id in db.rows
      ensures id in db'.rows && db'.rows[id].exec.createdAt == db.rows[id].exec.createdAt
      ensures Owed(db'.rows[id]) ==
              Owed(db.rows[id]) - (if IsSuccessfulClaim(db, step.tx) && step.tx.pick == Some(id) then 1 else 0)
    {
      OwedOnRow(db, step, id, db');
    }
    forall id | id in db'.rows && id !in db.rows
      ensures db'.rows[id].exec.createdAt > t
    {
      NewRowIsYoung(db, step, id, db', t);
    }
    OwedFollows(db, step.tx, t, db');
  }

  lemma OwedFollows(db: Db, tx: Tx, t: Instant, db': Db)
    requires forall id :: id in db.rows ==>
      && id in db'.rows && db'.rows[id].exec.createdAt == db.rows[id].exec.createdAt
      && Owed(db'.rows[id]) == Owed(db.rows[id]) - (if IsSuccessfulClaim(db, tx) && tx.pick == Some(id) then 1 else 0)
    requires forall id :: id in db'.rows && id !in db.rows ==> db'.rows[id].exec.createdAt > t
    ensures OwedUpTo(db', t) ==
      if IsSuccessfulClaim(db, tx) && db.rows[tx.pick.value].exec.createdAt <= t
      then OwedUpTo(db, t)[tx.pick.value := Owed(db.rows[tx.pick.value]) - 1]
      else OwedUpTo(db, t)
  {
  }

  // ----- no starvation -----

  ghost predicate ClaimsAt(run: Run, i: nat)
    requires run.Valid()
  {
    i < |run.steps| && run.Reply(i).Claimed?
  }

  ghost function Claims(run: Run, i: nat, j: nat): nat
    requires run.Valid() && i <= j <= |run.steps|
    decreases j
  {
    if i == j then 0 else Claims(run, i, j - 1) + (if ClaimsAt(run, j - 1) then 1 else 0)
  }

  /** A ready execution that nobody claims stays exactly as it is, but for its log. */
  lemma {:induction false} ReadyStays(s: Scheduled, i: nat, j: nat, id: Id)
    requires s.Valid() && i <= j <= |s.run.steps|
    requires id in s.run.dbs[i].rows && s.run.dbs[i].rows[id].exec.status == Ready
    requires forall m, u :: i <= m < j ==> !ClaimedAt(s.run, m, id, u)
    ensures id in s.run.dbs[j].rows && s.run.dbs[j].rows[id].exec == s.run.dbs[i].rows[id].exec
    decreases j
  {
    if i < j {
      ReadyStays(s, i, j - 1, id);
      var op := RowStep(s, j - 1, id);
      var r := s.run.dbs[j - 1].rows[id];
      if op.OpClaim? && TokenAvailable(r) {
        assert ClaimedAt(s.run, j - 1, id, FreshToken(r));
      }
      ReadyRowStays(r, op, s.run.steps[j - 1].at);
    }
  }

  lemma ReadyRowStays(r: Record, op: RowOp, now: Instant)
    requires Coupled(r) && Guarded(r, op, now) && r.exec.status == Ready && !(op.OpClaim? && TokenAvailable(r))
    ensures Apply(r, op, now).exec == r.exec
  {
  }

  /** While some execution created at time t is ready, a claim takes one no younger than t. */
  lemma ClaimTakesElder(run: Run, m: nat, id: Id, t: Instant)
    requires run.Valid() && m < |run.steps|
    requires IsReady(run.dbs[m], id) && run.dbs[m].rows[id].exec.createdAt == t
    requires run.steps[m].tx.Submit? ==> t < run.steps[m].at
    ensures Total(OwedUpTo(run.dbs[m + 1], t)) == Total(OwedUpTo(run.dbs[m], t)) - (if ClaimsAt(run, m) then 1 else 0)
  {
    var db, step := run.dbs[m], run.steps[m];
    assert run.Follows(m);
    OwedAfter(db, step, t, run.dbs[m + 1]);
    SuccessIsClaimed(db, step.at, step.tx);
    if IsSuccessfulClaim(db, step.tx) {
      var p := step.tx.pick.value;
      assert db.rows[p].exec.createdAt <= t;
      TotalUpdate(OwedUpTo(db, t), p, Owed(db.rows[p]) - 1);
    }
  }

  /** Every claim made meanwhile went to an execution at least as old and used up one attempt. */
  lemma {:induction false} ElderClaimsOnly(s: Scheduled, i: nat, j: nat, id: Id, t: Instant)
    requires s.Valid() && i <= j <= |s.run.steps|
    requires IsReady(s.run.dbs[i], id) && t == s.run.dbs[i].rows[id].exec.createdAt
    requires forall m, u :: i <= m < j ==> !ClaimedAt(s.run, m, id, u)
    requires forall m :: i <= m < j && s.run.steps[m].tx.Submit? ==> t < s.run.steps[m].at
    ensures Claims(s.run, i, j) + Total(OwedUpTo(s.run.dbs[j], t)) == Total(OwedUpTo(s.run.dbs[i], t))
    decreases j
  {
    if i < j {
      ElderClaimsOnly(s, i, j - 1, id, t);
      ReadyStays(s, i, j - 1, id);
      ClaimTakesElder(s.run, j - 1, id, t);
    }
  }

  lemma OwedIsPart(db: Db, t: Instant, id: Id)
    requires SoundDb(db) && IsReady(db, id) && db.rows[id].exec.createdAt <= t
    ensures 0 < Owed(db.rows[id]) <= Total(OwedUpTo(db, t))
  {
    forall k | k in OwedUpTo(db, t)
      ensures OwedUpTo(db, t)[k] >= 0
    {
      assert Sound(db.rows[k]);
    }
    assert Sound(db.rows[id]);
    TotalBounds(OwedUpTo(db, t), id);
  }

  /** While a ready execution waits, the number of successful claims stays below the attempts owed
      to it and to all executions created no later, however many newer calls are submitted. The
      clock only has to be past the execution's creation when they are. */
  lemma NoStarvation(s: Scheduled, i: nat, j: nat, id: Id)
    requires s.Valid() && i <= j <= |s.run.steps|
    requires id in s.run.dbs[i].rows && s.run.dbs[i].rows[id].exec.status == Ready
    requires forall m, u :: i <= m < j ==> !ClaimedAt(s.run, m, id, u)
    requires forall m :: i <= m < j && s.run.steps[m].tx.Submit? ==>
      s.run.dbs[i].rows[id].exec.createdAt < s.run.steps[m].at
    ensures var r := s.run.dbs[i].rows[id];
      Claims(s.run, i, j) <= Total(OwedUpTo(s.run.dbs[i], r.exec.createdAt)) - Owed(r) && Owed(r) > 0
  {
    var t := s.run.dbs[i].rows[id].exec.createdAt;
    ElderClaimsOnly(s, i, j, id, t);
    ReadyStays(s, i, j, id);
    SnapshotStable(s, j);
    OwedIsPart(s.run.dbs[j], t, id);
  }

  // ----- honest runs: no call of Claim is wasted -----

  ghost function ClaimCalls(run: Run, i: nat, j: nat): nat
    requires i <= j <= |run.steps|
    decreases j
  {
    if i == j then 0 else ClaimCalls(run, i, j - 1) + (if run.steps[j - 1].tx.Claim? then 1 else 0)
  }

  lemma {:induction false} EveryCallSucceeds(s: Scheduled, i: nat, j: nat, id: Id)
    requires s.Valid() && i <= j <= |s.run.steps| && IsReady(s.run.dbs[i], id)
    requires forall other :: HonestRun(s.run, other)
    requires forall m, u :: i <= m < j ==> !ClaimedAt(s.run, m, id, u)
    ensures ClaimCalls(s.run, i, j) == Claims(s.run, i, j)
    decreases j
  {
    if i < j {
      EveryCallSucceeds(s, i, j - 1, id);
      ReadyStays(s, i, j - 1, id);
      CallSucceeds(s, j - 1, id);
    }
  }

  lemma CallSucceeds(s: Scheduled, m: nat, id: Id)
    requires s.Valid() && m < |s.run.steps| && IsReady(s.run.dbs[m], id)
    requires forall other :: HonestRun(s.run, other)
    ensures s.run.steps[m].tx.Claim? <==> ClaimsAt(s.run, m)
  {
    assert s.run.Follows(m);
    if s.run.steps[m].tx.Claim? {
      HonestClaimSucceeds(s, m);
    }
  }

  /** When reports only present tokens that claims returned, the bound covers every call of Claim:
      after that many calls, whoever makes them, the waiting execution has been claimed. */
  lemma HonestCallsReachEveryone(s: Scheduled, i: nat, j: nat, id: Id)
    requires s.Valid() && i <= j <= |s.run.steps|
    requires forall other :: HonestRun(s.run, other)
    requires id in s.run.dbs[i].rows && s.run.dbs[i].rows[id].exec.status == Ready
    requires forall m :: i <= m < j && s.run.steps[m].tx.Submit? ==>
      s.run.dbs[i].rows[id].exec.createdAt < s.run.steps[m].at
    requires var r := s.run.dbs[i].rows[id];
      ClaimCalls(s.run, i, j) > Total(OwedUpTo(s.run.dbs[i], r.exec.createdAt)) - Owed(r)
    ensures exists m, u :: i <= m < j && ClaimedAt(s.run, m, id, u)
  {
    if forall m, u :: i <= m < j ==> !ClaimedAt(s.run, m, id, u) {
      EveryCallSucceeds(s, i, j, id);
      NoStarvation(s, i, j, id);
    }
  }

  // ----- a row without a next token -----

  lemma BlockedRowStays(r: Record, op: RowOp, now: Instant)
    requires Coupled(r) && Guarded(r, op, now) && r.exec.status == Ready && !TokenAvailable(r)
    ensures Apply(r, op, now).exec == r.exec && !TokenAvailable(Apply(r, op, now))
  {
    MaxTokenGrows(r, op, now);
    ReadyRowStays(r, op, now);
  }

  lemma {:induction false} BlockedForever(s: Scheduled, i: nat, j: nat, id: Id)
    requires s.Valid() && i <= j <= |s.run.steps| && IsReady(s.run.dbs[i], id) && !TokenAvailable(s.run.dbs[i].rows[id])
    ensures id in s.run.dbs[j].rows && s.run.dbs[j].rows[id].exec == s.run.dbs[i].rows[id].exec
    ensures !TokenAvailable(s.run.dbs[j].rows[id])
    decreases j
  {
    if i < j {
      BlockedForever(s, i, j - 1, id);
      var op := RowStep(s, j - 1, id);
      BlockedRowStays(s.run.dbs[j - 1].rows[id], op, s.run.steps[j - 1].at);
    }
  }

  /** Once a ready execution has no next token, it stays ready and unchanged for good, it is never
      claimed again, and every later claim takes another one that was created no later. */
  lemma QueueBlocked(s: Scheduled, i: nat, j: nat, id: Id)
    requires s.Valid() && i <= j <= |s.run.steps| && IsReady(s.run.dbs[i], id) && !TokenAvailable(s.run.dbs[i].rows[id])
    ensures id in s.run.dbs[j].rows && s.run.dbs[j].rows[id].exec == s.run.dbs[i].rows[id].exec
    ensures forall u :: !ClaimedAt(s.run, j, id, u)
    ensures ClaimsAt(s.run, j) ==>
      var taken := s.run.Reply(j).claim.id;
      taken != id && taken in s.run.dbs[j].rows
      && s.run.dbs[j].rows[taken].exec.createdAt <= s.run.dbs[i].rows[id].exec.createdAt
  {
    BlockedForever(s, i, j, id);
    if j < |s.run.steps| {
      assert s.run.Follows(j);
    }
  }

  /** So the whole queue comes to a halt: whatever is submitted from then on, the number of claims
      that still succeed is bounded by what was owed to the other executions created no later. */
  lemma QueueRunsDry(s: Scheduled, i: nat, j: nat, id: Id)
    requires s.Valid() && i <= j <= |s.run.steps| && IsReady(s.run.dbs[i], id) && !TokenAvailable(s.run.dbs[i].rows[id])
    requires forall m :: i <= m < j && s.run.steps[m].tx.Submit? ==>
      s.run.dbs[i].rows[id].exec.createdAt < s.run.steps[m].at
    ensures var r := s.run.dbs[i].rows[id];
      Claims(s.run, i, j) <= Total(OwedUpTo(s.run.dbs[i], r.exec.createdAt)) - Owed(r)
  {
    forall m, u | i <= m < j
      ensures !ClaimedAt(s.run, m, id, u)
    {
      QueueBlocked(s, i, m, id);
    }
    NoStarvation(s, i, j, id);
  }
}
