/** The scheduler process: it reads a snapshot in one query and acts on each id of it in a later
    transaction of its own, while clients and workers keep running in between. */
module Scheduler {
  import opened Types
  import opened Rows
  import opened Coupling
  import opened Database
  import opened Pass

  /** Where RunSchedulerPass stands: the part of its snapshot still to be worked off. */
  datatype Pc = Idle | Reaping(rest: seq<Expired>) | Promoting(due: seq<Id>)

  /** One step, seen from the scheduler. EndPass is also the way out after an error. */
  ghost predicate Moves(db: Db, pc: Pc, step: Step, pc': Pc) {
    match step.tx
    case QueryStale(stale) => pc == Idle && EnumeratesStale(db, step.at, stale) && pc' == Reaping(stale)
    case ExpireLease(id, attempts, maxAttempts) =>
      pc.Reaping? && pc.rest != [] && pc.rest[0] == Expired(id, attempts, maxAttempts) && pc' == Reaping(pc.rest[1..])
    case QueryDue(due) => pc == Reaping([]) && EnumeratesDue(db, step.at, due) && pc' == Promoting(due)
    case PromoteRetry(id) => pc.Promoting? && pc.due != [] && pc.due[0] == id && pc' == Promoting(pc.due[1..])
    case EndPass => pc' == Idle
    case _ => pc' == pc
  }

  /** A run in which all scheduler transactions come from one process. */
  datatype Scheduled = Scheduled(run: Run, pcs: seq<Pc>) {
    ghost predicate Valid() {
      && run.Valid()
      && |pcs| == |run.dbs|
      && pcs[0] == Idle
      && (forall i :: 0 <= i < |run.steps| ==> Proceeds(i))
    }

    ghost predicate Proceeds(i: nat)
      requires i < |run.steps| && |pcs| == |run.dbs| == |run.steps| + 1
    {
      Moves(run.dbs[i], pcs[i], run.steps[i], pcs[i + 1])
    }
  }

  /** A clock reading between the last step before position j and step j itself. */
  function Clock(run: Run, j: nat): Instant
    requires j <= |run.steps|
  {
    if j > 0 then run.steps[j - 1].at else if |run.steps| > 0 then run.steps[0].at else 0
  }

  ghost predicate SoundDb(db: Db) {
    forall id :: id in db.rows ==> Sound(db.rows[id])
  }

  ghost predicate StaleList(db: Db, rest: seq<Expired>, now: Instant) {
    && (forall k :: 0 <= k < |rest| ==> StaleEntry(db, rest[k], now))
    && (forall k, m :: 0 <= k < m < |rest| ==> rest[k].id != rest[m].id)
  }

  ghost predicate DueList(db: Db, due: seq<Id>, now: Instant) {
    && (forall k :: 0 <= k < |due| ==> DueEntry(db, due[k], now))
    && (forall k, m :: 0 <= k < m < |due| ==> due[k] != due[m])
  }

  /** Whatever the scheduler still has to work off is as its query saw it. */
  ghost predicate SnapshotHolds(db: Db, pc: Pc, now: Instant) {
    match pc
    case Idle => true
    case Reaping(rest) => StaleList(db, rest, now)
    case Promoting(due) => DueList(db, due, now)
  }

  ghost predicate AllGuarded(db: Db, step: Step) {
    forall id :: id in db.rows ==> Guarded(db.rows[id], Local(db, step.tx, id), step.at)
  }

  lemma StepIsGuarded(db: Db, pc: Pc, now: Instant, step: Step, pc': Pc)
    requires SoundDb(db) && SnapshotHolds(db, pc, now) && now <= step.at
    requires Enabled(db, step.tx) && Moves(db, pc, step, pc')
    ensures AllGuarded(db, step)
  {
  }

  lemma StepIsSound(db: Db, step: Step)
    requires SoundDb(db) && AllGuarded(db, step)
    ensures SoundDb(Exec(db, step.at, step.tx).db)
  {
    var db' := Exec(db, step.at, step.tx).db;
    forall id | id in db'.rows
      ensures Sound(db'.rows[id])
    {
      if id in db.rows {
        Projection(db, step.at, step.tx, id);
        SoundStep(db.rows[id], Local(db, step.tx, id), step.at);
      } else {
        Insertion(db, step.at, step.tx, id);
        SubmittedIsSound(step.tx.key, step.tx.args, db.tools[step.tx.key.toolName].maxAttempts, step.at);
      }
    }
  }

  lemma StaleEntryStays(db: Db, x: Expired, step: Step)
    requires AllGuarded(db, step) && StaleEntry(db, x, step.at)
    requires step.tx.ExpireLease? ==> step.tx.id != x.id
    ensures StaleEntry(Exec(db, step.at, step.tx).db, x, step.at)
  {
    Projection(db, step.at, step.tx, x.id);
    StaleRowStays(db.rows[x.id], Local(db, step.tx, x.id), step.at);
  }

  lemma DueEntryStays(db: Db, id: Id, step: Step)
    requires SoundDb(db) && AllGuarded(db, step) && DueEntry(db, id, step.at)
    requires step.tx.PromoteRetry? ==> step.tx.id != id
    ensures DueEntry(Exec(db, step.at, step.tx).db, id, step.at)
  {
    Projection(db, step.at, step.tx, id);
    PendingRowStays(db.rows[id], Local(db, step.tx, id), step.at);
  }

  lemma StaleListStays(db: Db, now: Instant, step: Step, rest: seq<Expired>, db': Db)
    requires AllGuarded(db, step) && db' == Exec(db, step.at, step.tx).db && now <= step.at
    requires StaleList(db, rest, now)
    requires step.tx.ExpireLease? ==> forall k :: 0 <= k < |rest| ==> rest[k].id != step.tx.id
    ensures StaleList(db', rest, step.at)
  {
    forall k | 0 <= k < |rest|
      ensures StaleEntry(db', rest[k], step.at)
    {
      StaleEntryStays(db, rest[k], step);
    }
  }

  lemma DueListStays(db: Db, now: Instant, step: Step, due: seq<Id>, db': Db)
    requires SoundDb(db) && AllGuarded(db, step) && db' == Exec(db, step.at, step.tx).db && now <= step.at
    requires DueList(db, due, now)
    requires step.tx.PromoteRetry? ==> forall k :: 0 <= k < |due| ==> due[k] != step.tx.id
    ensures DueList(db', due, step.at)
  {
    forall k | 0 <= k < |due|
      ensures DueEntry(db', due[k], step.at)
    {
      DueEntryStays(db, due[k], step);
    }
  }

  /** The list the reaper is left with holds before its step, without the row the step acts on. */
  lemma StaleListBefore(db: Db, pc: Pc, now: Instant, step: Step, rest: seq<Expired>)
    requires SnapshotHolds(db, pc, now) && Moves(db, pc, step, Reaping(rest))
    ensures StaleList(db, rest, if step.tx.QueryStale? then step.at else now)
    ensures step.tx.ExpireLease? ==> forall k :: 0 <= k < |rest| ==> rest[k].id != step.tx.id
  {
  }

  lemma DueListBefore(db: Db, pc: Pc, now: Instant, step: Step, due: seq<Id>)
    requires SnapshotHolds(db, pc, now) && Moves(db, pc, step, Promoting(due))
    ensures DueList(db, due, if step.tx.QueryDue? then step.at else now)
    ensures step.tx.PromoteRetry? ==> forall k :: 0 <= k < |due| ==> due[k] != step.tx.id
  {
  }

  lemma SnapshotStays(db: Db, pc: Pc, now: Instant, step: Step, pc': Pc, db': Db)
    requires SoundDb(db) && SnapshotHolds(db, pc, now) && now <= step.at
    requires AllGuarded(db, step) && Moves(db, pc, step, pc')
    requires db' == Exec(db, step.at, step.tx).db
    ensures SnapshotHolds(db', pc', step.at)
  {
    match pc'
    case Idle =>
    case Reaping(rest) =>
      StaleListBefore(db, pc, now, step, rest);
      StaleListStays(db, if step.tx.QueryStale? then step.at else now, step, rest, db');
    case Promoting(due) =>
      DueListBefore(db, pc, now, step, due);
      DueListStays(db, if step.tx.QueryDue? then step.at else now, step, due, db');
  }

  /** In every state of every run with one scheduler, all rows are sound and the rest of the
      scheduler's snapshot still describes them. */
  lemma {:induction false} SnapshotStable(s: Scheduled, j: nat)
    requires s.Valid() && j <= |s.run.steps|
    ensures SoundDb(s.run.dbs[j])
    ensures SnapshotHolds(s.run.dbs[j], s.pcs[j], Clock(s.run, j))
    decreases j
  {
    if j > 0 {
      SnapshotStable(s, j - 1);
      var db, step := s.run.dbs[j - 1], s.run.steps[j - 1];
      assert s.run.Follows(j - 1) && s.Proceeds(j - 1);
      StepIsGuarded(db, s.pcs[j - 1], Clock(s.run, j - 1), step, s.pcs[j]);
      StepIsSound(db, step);
      SnapshotStays(db, s.pcs[j - 1], Clock(s.run, j - 1), step, s.pcs[j], s.run.dbs[j]);
    }
  }

  /** So every transaction finds the row it changes the way its caller believes it to be. */
  lemma AlwaysGuarded(s: Scheduled, j: nat)
    requires s.Valid() && j < |s.run.steps|
    ensures SoundDb(s.run.dbs[j]) && AllGuarded(s.run.dbs[j], s.run.steps[j]) && SoundDb(s.run.dbs[j + 1])
  {
    SnapshotStable(s, j);
    SnapshotStable(s, j + 1);
    assert s.run.Follows(j) && s.Proceeds(j);
    StepIsGuarded(s.run.dbs[j], s.pcs[j], Clock(s.run, j), s.run.steps[j], s.pcs[j + 1]);
  }

  // ----- refinement of an atomic scheduler -----

  /** The simple system: the scheduler has no snapshot and no memory. In one transaction it picks
      a row, checks that its lease has expired or its retry is due, and only then acts on it,
      going by the row's own attempt numbers. */
  ghost predicate AtomicStep(db: Db, now: Instant, db': Db) {
    || db' == db
    || (exists tx :: IsClientTx(tx) && Enabled(db, tx) && db' == Exec(db, now, tx).db)
    || (exists id :: AtomicReap(db, now, id, db'))
    || (exists id :: AtomicPromote(db, now, id, db'))
  }

  predicate IsClientTx(tx: Tx) {
    tx.SeedTool? || tx.Submit? || tx.Claim? || tx.Heartbeat? || tx.Complete? || tx.Fail?
  }

  ghost predicate AtomicReap(db: Db, now: Instant, id: Id, db': Db) {
    && id in db.rows && IsStale(db.rows[id], now)
    && db' == Put(db, id, ExpireRow(db.rows[id], db.rows[id].exec.attempts, db.rows[id].exec.maxAttempts, now))
  }

  ghost predicate AtomicPromote(db: Db, now: Instant, id: Id, db': Db) {
    && id in db.rows && db.rows[id].exec.status == Pending && IsDue(db.rows[id], now)
    && db' == Put(db, id, PromoteRow(db.rows[id], now))
  }

  /** The snapshot-then-act scheduler refines the atomic one, step by step. */
  lemma PassRefinesAtomic(s: Scheduled, j: nat)
    requires s.Valid() && j < |s.run.steps|
    ensures AtomicStep(s.run.dbs[j], s.run.steps[j].at, s.run.dbs[j + 1])
  {
    var db, step := s.run.dbs[j], s.run.steps[j];
    assert s.run.Follows(j);
    match step.tx
    case ExpireLease(_, _, _) => ReapIsAtomic(s, j);
    case PromoteRetry(_) => PromoteIsAtomic(s, j);
    case _ =>
  }

  /** No live lease and no finished execution is ever touched by the scheduler. */
  lemma SchedulerSparesLiveWork(s: Scheduled, j: nat, id: Id)
    requires s.Valid() && j < |s.run.steps| && id in s.run.dbs[j].rows
    requires s.run.steps[j].tx.ExpireLease? || s.run.steps[j].tx.PromoteRetry?
    requires var r := s.run.dbs[j].rows[id];
      || (r.lease.Some? && r.lease.value.expires >= s.run.steps[j].at)
      || r.exec.status in {Ready, Completed, Failed}
    ensures id in s.run.dbs[j + 1].rows && s.run.dbs[j + 1].rows[id] == s.run.dbs[j].rows[id]
  {
    AlwaysGuarded(s, j);
    var db, step := s.run.dbs[j], s.run.steps[j];
    SparedRow(db.rows[id], Local(db, step.tx, id), step.at);
    RowAt(s.run, j, id);
  }

  lemma SparedRow(r: Record, op: RowOp, now: Instant)
    requires Sound(r) && Guarded(r, op, now) && (op.OpNone? || op.OpExpire? || op.OpPromote?)
    requires (r.lease.Some? && r.lease.value.expires >= now) || r.exec.status in {Ready, Completed, Failed}
    ensures op.OpNone?
  {
  }

  // ----- a pass gets its work done -----

  /** Between two positions of one pass the reaper works off its snapshot from the front. */
  lemma {:induction false} ReaperAdvances(s: Scheduled, i: nat, j: nat)
    requires s.Valid() && i <= j <= |s.run.steps|
    requires s.pcs[i].Reaping? && s.pcs[j].Reaping?
    requires forall m :: i <= m < j ==> !s.run.steps[m].tx.EndPass?
    ensures |s.pcs[j].rest| <= |s.pcs[i].rest|
    ensures forall k :: 0 <= k < |s.pcs[i].rest| - |s.pcs[j].rest| ==> Reaped(s.run, i, j, s.pcs[i].rest[k])
    ensures s.pcs[j].rest == s.pcs[i].rest[|s.pcs[i].rest| - |s.pcs[j].rest|..]
    decreases j - i
  {
    if i < j {
      assert s.Proceeds(i);
      NoWayBack(s, i + 1, j);
      ReaperAdvances(s, i + 1, j);
      var rest := s.pcs[i].rest;
      forall k | 0 <= k < |rest| - |s.pcs[j].rest|
        ensures Reaped(s.run, i, j, rest[k])
      {
        if s.pcs[i + 1] == s.pcs[i] {
          assert Reaped(s.run, i + 1, j, s.pcs[i + 1].rest[k]);
        } else if k == 0 {
          assert s.run.steps[i].tx == ExpireLease(rest[0].id, rest[0].attempts, rest[0].maxAttempts);
        } else {
          assert Reaped(s.run, i + 1, j, s.pcs[i + 1].rest[k - 1]);
        }
      }
    }
  }

  lemma ReaperDone(s: Scheduled, i: nat, j: nat)
    requires s.Valid() && i <= j <= |s.run.steps| && s.pcs[i].Reaping? && s.pcs[j] == Reaping([])
    requires forall m :: i <= m < j ==> !s.run.steps[m].tx.EndPass?
    ensures forall k :: 0 <= k < |s.pcs[i].rest| ==> Reaped(s.run, i, j, s.pcs[i].rest[k])
  {
    ReaperAdvances(s, i, j);
  }

  ghost predicate Reaped(run: Run, i: nat, j: nat, x: Expired)
    requires j <= |run.steps|
  {
    exists p :: i <= p < j && run.steps[p].tx == ExpireLease(x.id, x.attempts, x.maxAttempts)
  }

  /** Within a pass, reaping comes before promoting. */
  lemma {:induction false} NoWayBack(s: Scheduled, i: nat, j: nat)
    requires s.Valid() && i <= j <= |s.run.steps| && s.pcs[j].Reaping? && s.pcs[i] != Idle
    requires forall m :: i <= m < j ==> !s.run.steps[m].tx.EndPass?
    ensures s.pcs[i].Reaping?
    decreases j - i
  {
    if i < j {
      assert s.Proceeds(i);
      NoWayBack(s, i + 1, j);
    }
  }

  /** However its transactions interleave with others, a pass that gets as far as its second query
      has reaped every execution that was stale at its first one, and found it still stale. */
  lemma PassReapsEveryStaleRow(s: Scheduled, i: nat, j: nat, id: Id) returns (p: nat)
    requires s.Valid() && i < j < |s.run.steps| && s.run.steps[i].tx.QueryStale? && s.run.steps[j].tx.QueryDue?
    requires forall m :: i < m < j ==> !s.run.steps[m].tx.EndPass?
    requires id in s.run.dbs[i].rows
    requires var r := s.run.dbs[i].rows[id];
      r.exec.status == Running && r.lease.Some? && r.lease.value.expires < s.run.steps[i].at
    ensures i < p < j && AtomicReap(s.run.dbs[p], s.run.steps[p].at, id, s.run.dbs[p + 1])
  {
    assert s.Proceeds(i) && s.Proceeds(j);
    ReaperDone(s, i + 1, j);
    var stale := s.run.steps[i].tx.stale;
    var k :| 0 <= k < |stale| && stale[k].id == id;
    assert Reaped(s.run, i + 1, j, stale[k]);
    p :| i + 1 <= p < j && s.run.steps[p].tx == ExpireLease(stale[k].id, stale[k].attempts, stale[k].maxAttempts);
    ReapIsAtomic(s, p);
  }

  lemma {:induction false} PromoterAdvances(s: Scheduled, i: nat, j: nat)
    requires s.Valid() && i <= j <= |s.run.steps| && s.pcs[i].Promoting?
    requires forall m :: i <= m < j ==> !s.run.steps[m].tx.EndPass?
    ensures s.pcs[j].Promoting? && |s.pcs[j].due| <= |s.pcs[i].due|
    ensures forall k :: 0 <= k < |s.pcs[i].due| - |s.pcs[j].due| ==> Promoted(s.run, i, j, s.pcs[i].due[k])
    ensures s.pcs[j].due == s.pcs[i].due[|s.pcs[i].due| - |s.pcs[j].due|..]
    decreases j - i
  {
    if i < j {
      assert s.Proceeds(i);
      PromoterAdvances(s, i + 1, j);
      var due := s.pcs[i].due;
      forall k | 0 <= k < |due| - |s.pcs[j].due|
        ensures Promoted(s.run, i, j, due[k])
      {
        if s.pcs[i + 1] == s.pcs[i] {
          assert Promoted(s.run, i + 1, j, s.pcs[i + 1].due[k]);
        } else if k == 0 {
          assert s.run.steps[i].tx == PromoteRetry(due[0]);
        } else {
          assert Promoted(s.run, i + 1, j, s.pcs[i + 1].due[k - 1]);
        }
      }
    }
  }

  lemma PromoterDone(s: Scheduled, i: nat, j: nat)
    requires s.Valid() && i <= j <= |s.run.steps| && s.pcs[i].Promoting? && s.pcs[j] == Promoting([])
    requires forall m :: i <= m < j ==> !s.run.steps[m].tx.EndPass?
    ensures forall k :: 0 <= k < |s.pcs[i].due| ==> Promoted(s.run, i, j, s.pcs[i].due[k])
  {
    PromoterAdvances(s, i, j);
  }

  ghost predicate Promoted(run: Run, i: nat, j: nat, id: Id)
    requires j <= |run.steps|
  {
    exists p :: i <= p < j && run.steps[p].tx == PromoteRetry(id)
  }

  /** And a pass that works off its second list has promoted every retry that was due when it was
      read, and found it still due. */
  lemma PassPromotesEveryDueRow(s: Scheduled, i: nat, j: nat, id: Id) returns (p: nat)
    requires s.Valid() && i < j <= |s.run.steps| && s.run.steps[i].tx.QueryDue? && s.pcs[j] == Promoting([])
    requires forall m :: i < m < j ==> !s.run.steps[m].tx.EndPass?
    requires id in s.run.dbs[i].rows
    requires var r := s.run.dbs[i].rows[id]; r.retry.Some? && r.retry.value.at <= s.run.steps[i].at
    ensures i < p < j && AtomicPromote(s.run.dbs[p], s.run.steps[p].at, id, s.run.dbs[p + 1])
  {
    assert s.Proceeds(i);
    PromoterDone(s, i + 1, j);
    var due := s.run.steps[i].tx.due;
    var k :| 0 <= k < |due| && due[k] == id;
    assert Promoted(s.run, i + 1, j, due[k]);
    p :| i + 1 <= p < j && s.run.steps[p].tx == PromoteRetry(id);
    PromoteIsAtomic(s, p);
  }

  // ----- what RunSchedulerPass counts -----

  predicate IsPassChange(tx: Tx) {
    tx.ExpireLease? || tx.PromoteRetry?
  }

  ghost function PassChanges(run: Run, i: nat, j: nat): nat
    requires i <= j <= |run.steps|
    decreases j - i
  {
    if i == j then 0 else (if IsPassChange(run.steps[i].tx) then 1 else 0) + PassChanges(run, i + 1, j)
  }

  lemma ReaperMoves(s: Scheduled, i: nat)
    requires s.Valid() && i < |s.run.steps| && s.pcs[i].Reaping? && s.pcs[i + 1].Reaping?
    ensures |s.pcs[i].rest| == |s.pcs[i + 1].rest| + (if IsPassChange(s.run.steps[i].tx) then 1 else 0)
  {
    assert s.Proceeds(i);
  }

  lemma PromoterMoves(s: Scheduled, i: nat)
    requires s.Valid() && i < |s.run.steps| && s.pcs[i].Promoting? && !s.run.steps[i].tx.EndPass?
    ensures s.pcs[i + 1].Promoting?
    ensures |s.pcs[i].due| == |s.pcs[i + 1].due| + (if IsPassChange(s.run.steps[i].tx) then 1 else 0)
  {
    assert s.Proceeds(i);
  }

  lemma {:induction false} ReaperCounts(s: Scheduled, i: nat, j: nat)
    requires s.Valid() && i <= j <= |s.run.steps| && s.pcs[i].Reaping? && s.pcs[j].Reaping?
    requires forall m :: i <= m < j ==> !s.run.steps[m].tx.EndPass?
    ensures PassChanges(s.run, i, j) == |s.pcs[i].rest| - |s.pcs[j].rest|
    decreases j - i
  {
    if i < j {
      assert s.Proceeds(i);
      NoWayBack(s, i + 1, j);
      ReaperMoves(s, i);
      ReaperCounts(s, i + 1, j);
    }
  }

  lemma {:induction false} PromoterCounts(s: Scheduled, i: nat, j: nat)
    requires s.Valid() && i <= j <= |s.run.steps| && s.pcs[i].Promoting? && s.pcs[j] == Promoting([])
    requires forall m :: i <= m < j ==> !s.run.steps[m].tx.EndPass?
    ensures PassChanges(s.run, i, j) == |s.pcs[i].due|
    decreases j - i
  {
    if i < j {
      PromoterMoves(s, i);
      PromoterCounts(s, i + 1, j);
    }
  }

  lemma {:induction false} PassChangesAdd(run: Run, i: nat, k: nat, j: nat)
    requires i <= k <= j <= |run.steps|
    ensures PassChanges(run, i, j) == PassChanges(run, i, k) + PassChanges(run, k, j)
    decreases k - i
  {
    if i < k {
      PassChangesAdd(run, i + 1, k, j);
    }
  }

  /** However its transactions interleave with others, a pass makes as many changes as its two
      queries listed rows ... */
  lemma PassCountsItsLists(s: Scheduled, i: nat, k: nat, j: nat)
    requires s.Valid() && i < k < j <= |s.run.steps| && s.pcs[j] == Promoting([])
    requires s.run.steps[i].tx.QueryStale? && s.run.steps[k].tx.QueryDue?
    requires forall m :: i < m < j ==> !s.run.steps[m].tx.EndPass?
    ensures PassChanges(s.run, i, j) == |s.run.steps[i].tx.stale| + |s.run.steps[k].tx.due|
  {
    assert s.Proceeds(i) && s.Proceeds(k);
    ReaperCounts(s, i + 1, k);
    PromoterCounts(s, k + 1, j);
    PassChangesAdd(s.run, i + 1, k, j);
  }

  /** ... and each of them changes the status of a row. */
  lemma PassChangesStatus(s: Scheduled, m: nat)
    requires s.Valid() && m < |s.run.steps| && IsPassChange(s.run.steps[m].tx)
    ensures var id := s.run.steps[m].tx.id;
      && id in s.run.dbs[m].rows && id in s.run.dbs[m + 1].rows
      && s.run.dbs[m + 1].rows[id].exec.status != s.run.dbs[m].rows[id].exec.status
  {
    if s.run.steps[m].tx.ExpireLease? {
      ReapIsAtomic(s, m);
    } else {
      PromoteIsAtomic(s, m);
    }
  }

  lemma ReapIsAtomic(s: Scheduled, p: nat)
    requires s.Valid() && p < |s.run.steps| && s.run.steps[p].tx.ExpireLease?
    ensures AtomicReap(s.run.dbs[p], s.run.steps[p].at, s.run.steps[p].tx.id, s.run.dbs[p + 1])
  {
    SnapshotStable(s, p);
    assert s.run.Follows(p) && s.Proceeds(p);
  }

  lemma PromoteIsAtomic(s: Scheduled, p: nat)
    requires s.Valid() && p < |s.run.steps| && s.run.steps[p].tx.PromoteRetry?
    ensures AtomicPromote(s.run.dbs[p], s.run.steps[p].at, s.run.steps[p].tx.id, s.run.dbs[p + 1])
  {
    SnapshotStable(s, p);
    assert s.run.Follows(p) && s.Proceeds(p);
    assert Sound(s.run.dbs[p].rows[s.run.steps[p].tx.id]);
  }
}
