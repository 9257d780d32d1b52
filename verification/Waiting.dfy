/** Rejected heartbeats in the system with one scheduler process: the exact condition, which for an
    execution that waits for its retry also looks at what its promotion has to wait for. */
module Waiting {
  import opened Types
  import opened EventLog
  import opened Rows
  import opened Coupling
  import opened Database
  import opened Pass
  import opened Scheduler
  import opened Fencing
  import opened Futures
  import opened Rejection

  /** The execution was created earlier and has no next token: it blocks this one once it is ready. */
  predicate IsPoison(db: Db, elder: Id, id: Id)
    requires id in db.rows
  {
    && elder in db.rows && !TokenAvailable(db.rows[elder])
    && db.rows[elder].exec.createdAt < db.rows[id].exec.createdAt
  }

  /** Its lease has run out, and a reap would make it ready. */
  predicate IsThreat(db: Db, elder: Id, id: Id, now: Instant)
    requires id in db.rows
  {
    && IsPoison(db, elder, id)
    && IsStale(db.rows[elder], now) && db.rows[elder].exec.attempts < db.rows[elder].exec.maxAttempts
  }

  /** Everything that the pass promotes before this execution may become ready. */
  predicate IsClear(db: Db, due: seq<Id>, k: nat, id: Id)
    requires id in db.rows && k <= |due|
  {
    forall m :: 0 <= m < k ==> !IsPoison(db, due[m], id)
  }

  predicate IsReachedIn(db: Db, due: seq<Id>, id: Id)
    requires id in db.rows
  {
    exists k :: 0 <= k < |due| && due[k] == id && IsClear(db, due, k, id)
  }

  /** The scheduler can promote the retry before it makes a poisoned elder ready: in the pass it is
      at, or in a new one, which lists every expired lease first. */
  ghost predicate IsPromotable(db: Db, pc: Pc, id: Id, now: Instant)
    requires id in db.rows
  {
    match pc
    case Idle => forall elder :: !IsThreat(db, elder, id, now)
    case Reaping(rest) => forall k :: 0 <= k < |rest| ==> !IsThreat(db, rest[k].id, id, now)
    case Promoting(due) => IsReachedIn(db, due, id) || forall elder :: !IsThreat(db, elder, id, now)
  }

  // ----- held up for good -----

  predicate ReapsFirst(db: Db, pc: Pc, elder: Id, id: Id)
    requires id in db.rows
  {
    match pc
    case Idle => true
    case Reaping(rest) => exists k :: 0 <= k < |rest| && rest[k].id == elder
    case Promoting(due) => !IsReachedIn(db, due, id)
  }

  ghost predicate IsHeldUp(db: Db, pc: Pc, id: Id, elder: Id, now: Instant) {
    && id in db.rows && db.rows[id].exec.status == Pending
    && IsThreat(db, elder, id, now) && ReapsFirst(db, pc, elder, id)
  }

  lemma HeldUpOrPromotable(db: Db, pc: Pc, id: Id, now: Instant)
    requires id in db.rows && db.rows[id].exec.status == Pending && !IsPromotable(db, pc, id, now)
    ensures exists elder :: IsHeldUp(db, pc, id, elder, now)
  {
    if pc.Reaping? {
      var k :| 0 <= k < |pc.rest| && IsThreat(db, pc.rest[k].id, id, now);
      assert IsHeldUp(db, pc, id, pc.rest[k].id, now);
    } else {
      var elder :| IsThreat(db, elder, id, now);
      assert IsHeldUp(db, pc, id, elder, now);
    }
  }

  lemma ThreatStays(r: Record, op: RowOp, now: Instant)
    requires Guarded(r, op, now) && IsStale(r, now) && !TokenAvailable(r) && !op.OpExpire?
    ensures var r' := Apply(r, op, now); r'.exec == r.exec && r'.lease == r.lease && !TokenAvailable(r')
  {
    StaleRowStays(r, op, now);
    MaxTokenGrows(r, op, now);
  }

  /** The step that makes a poisoned elder ready. */
  predicate Wakes(db: Db, tx: Tx, elder: Id, id: Id)
    requires id in db.rows
  {
    (tx.ExpireLease? && tx.id == elder) || (tx.PromoteRetry? && IsPoison(db, tx.id, id))
  }

  lemma NotPromoted(db: Db, pc: Pc, step: Step, pc': Pc, elder: Id, id: Id)
    requires Moves(db, pc, step, pc') && id in db.rows && ReapsFirst(db, pc, elder, id)
    requires elder in db.rows && IsStale(db.rows[elder], step.at)
    ensures !(step.tx.PromoteRetry? && step.tx.id == id)
    ensures ReapsFirst(db, pc', elder, id) || Wakes(db, step.tx, elder, id)
  {
    if pc.Reaping? {
      var k :| 0 <= k < |pc.rest| && pc.rest[k].id == elder;
      if step.tx.ExpireLease? && k > 0 {
        assert pc'.rest[k - 1].id == elder;
      }
    } else if pc.Promoting? && step.tx.PromoteRetry? {
      assert IsClear(db, pc.due, 0, id);
      if IsReachedIn(db, pc'.due, id) {
        var k :| 0 <= k < |pc'.due| && pc'.due[k] == id && IsClear(db, pc'.due, k, id);
        ClearBehind(db, pc.due, k, id);
      }
    }
  }

  lemma ClearBehind(db: Db, due: seq<Id>, k: nat, id: Id)
    requires id in db.rows && k < |due| - 1 && IsClear(db, due[1..], k, id)
    ensures IsPoison(db, due[0], id) || IsClear(db, due, k + 1, id)
  {
    forall m | 1 <= m < k + 1
      ensures !IsPoison(db, due[m], id)
    {
      assert due[m] == due[1..][m - 1];
    }
  }

  lemma PoisonStays(db: Db, step: Step, elder: Id, id: Id, db': Db)
    requires id in db.rows && db' == Exec(db, step.at, step.tx).db && IsPoison(db, elder, id)
    ensures id in db'.rows && IsPoison(db', elder, id)
  {
    Projection(db, step.at, step.tx, id);
    Projection(db, step.at, step.tx, elder);
    MaxTokenGrows(db.rows[elder], Local(db, step.tx, elder), step.at);
    CreatedOnce(db.rows[elder], Local(db, step.tx, elder), step.at);
    CreatedOnce(db.rows[id], Local(db, step.tx, id), step.at);
  }

  lemma CreatedOnce(r: Record, op: RowOp, now: Instant)
    ensures Apply(r, op, now).exec.createdAt == r.exec.createdAt
  {
  }

  lemma StaysFirst(db: Db, step: Step, pc: Pc, elder: Id, id: Id, db': Db)
    requires id in db.rows && db' == Exec(db, step.at, step.tx).db && ReapsFirst(db, pc, elder, id)
    ensures id in db'.rows && ReapsFirst(db', pc, elder, id)
  {
    Projection(db, step.at, step.tx, id);
    if pc.Promoting? {
      forall k | 0 <= k < |pc.due| && pc.due[k] == id
        ensures !IsClear(db', pc.due, k, id)
      {
        assert !IsClear(db, pc.due, k, id);
        var m :| 0 <= m < k && IsPoison(db, pc.due[m], id);
        PoisonStays(db, step, pc.due[m], id, db');
      }
    }
  }

  lemma WokenIsStuck(db: Db, step: Step, elder: Id, id: Id, db': Db)
    requires AllGuarded(db, step) && db' == Exec(db, step.at, step.tx).db
    requires id in db.rows && IsThreat(db, elder, id, step.at) && Wakes(db, step.tx, elder, id)
    ensures id in db'.rows && IsBlocked(db', id)
  {
    var woken := step.tx.id;
    Projection(db, step.at, step.tx, woken);
    assert Guarded(db.rows[woken], Local(db, step.tx, woken), step.at);
    PoisonStays(db, step, woken, id, db');
    assert IsElderStuck(db', woken, id);
  }

  lemma ThreatGoesOn(db: Db, step: Step, elder: Id, id: Id, db': Db)
    requires AllGuarded(db, step) && db' == Exec(db, step.at, step.tx).db
    requires id in db.rows && IsThreat(db, elder, id, step.at) && !Wakes(db, step.tx, elder, id)
    ensures id in db'.rows && IsThreat(db', elder, id, step.at)
  {
    Projection(db, step.at, step.tx, elder);
    ThreatStays(db.rows[elder], Local(db, step.tx, elder), step.at);
    PoisonStays(db, step, elder, id, db');
  }

  /** It stays held up, or a poisoned elder has become ready and blocks it. */
  lemma HeldUpStep(db: Db, pc: Pc, step: Step, pc': Pc, id: Id, elder: Id, db': Db)
    requires CoupledDb(db) && AllGuarded(db, step) && Moves(db, pc, step, pc')
    requires db' == Exec(db, step.at, step.tx).db && IsHeldUp(db, pc, id, elder, step.at)
    ensures id in db'.rows && db'.rows[id].exec == db.rows[id].exec && db'.rows[id].lease.None?
    ensures IsHeldUp(db', pc', id, elder, step.at) || IsBlocked(db', id)
  {
    NotPromoted(db, pc, step, pc', elder, id);
    Projection(db, step.at, step.tx, id);
    PendingRowStays(db.rows[id], Local(db, step.tx, id), step.at);
    PendingIsUnleased(db.rows[id], Local(db, step.tx, id), step.at);
    if Wakes(db, step.tx, elder, id) {
      WokenIsStuck(db, step, elder, id, db');
    } else {
      ThreatGoesOn(db, step, elder, id, db');
      StaysFirst(db, step, pc', elder, id, db');
    }
  }

  lemma PendingIsUnleased(r: Record, op: RowOp, now: Instant)
    requires Coupled(r) && Guarded(r, op, now) && r.exec.status == Pending
    ensures Apply(r, op, now).lease.None?
  {
  }

  ghost predicate NoWay(db: Db, pc: Pc, id: Id, token: Int64, now: Instant) {
    Denied(db, id, token, now) || exists elder :: IsHeldUp(db, pc, id, elder, now)
  }

  lemma NoWayStep(db: Db, pc: Pc, step: Step, pc': Pc, id: Id, token: Int64, db': Db)
    requires CoupledDb(db) && AllGuarded(db, step) && Enabled(db, step.tx) && Moves(db, pc, step, pc')
    requires db' == Exec(db, step.at, step.tx).db && NoWay(db, pc, id, token, step.at)
    ensures NoWay(db', pc', id, token, step.at)
  {
    if Denied(db, id, token, step.at) {
      DeniedStep(db, step, id, token, step.at, db');
    } else {
      var elder :| IsHeldUp(db, pc, id, elder, step.at);
      HeldUpStep(db, pc, step, pc', id, elder, db');
    }
  }

  lemma NoWayLater(db: Db, pc: Pc, id: Id, token: Int64, now: Instant, later: Instant)
    requires NoWay(db, pc, id, token, now) && now <= later
    ensures NoWay(db, pc, id, token, later)
  {
    if Denied(db, id, token, now) {
      DeniedLater(db, id, token, now, later);
    } else {
      var elder :| IsHeldUp(db, pc, id, elder, now);
      assert IsHeldUp(db, pc, id, elder, later);
    }
  }

  lemma {:induction false} NoWayInRun(s: Scheduled, i: nat, j: nat, id: Id, token: Int64)
    requires s.Valid() && i <= j < |s.run.steps| && NoWay(s.run.dbs[i], s.pcs[i], id, token, s.run.steps[i].at)
    ensures NoWay(s.run.dbs[j], s.pcs[j], id, token, s.run.steps[j].at)
    decreases j
  {
    if i < j {
      NoWayInRun(s, i, j - 1, id, token);
      NoWayNext(s, j - 1, id, token);
      NoWayLater(s.run.dbs[j], s.pcs[j], id, token, s.run.steps[j - 1].at, s.run.steps[j].at);
    }
  }

  lemma NoWayNext(s: Scheduled, j: nat, id: Id, token: Int64)
    requires s.Valid() && j < |s.run.steps| && NoWay(s.run.dbs[j], s.pcs[j], id, token, s.run.steps[j].at)
    ensures NoWay(s.run.dbs[j + 1], s.pcs[j + 1], id, token, s.run.steps[j].at)
  {
    AlwaysGuarded(s, j);
    SoundIsCoupled(s.run.dbs[j]);
    assert s.run.Follows(j) && s.Proceeds(j);
    NoWayStep(s.run.dbs[j], s.pcs[j], s.run.steps[j], s.pcs[j + 1], id, token, s.run.dbs[j + 1]);
  }

  lemma NoWayIsNotHeld(db: Db, pc: Pc, id: Id, token: Int64, now: Instant)
    requires CoupledDb(db) && NoWay(db, pc, id, token, now)
    ensures id in db.rows && !Holds(db.rows[id], token, now)
  {
    if Denied(db, id, token, now) {
      DeniedIsNotHeld(db, id, token, now);
    } else {
      var elder :| IsHeldUp(db, pc, id, elder, now);
      assert Coupled(db.rows[id]);
    }
  }

  // ----- promoted in time -----

  /** The execution waits for its retry, and the reaper's list leaves it a way. */
  ghost predicate IsSafe(db: Db, rest: seq<Expired>, id: Id, token: Int64, now: Instant) {
    && CanIssue(db, id, token) && db.rows[id].exec.status == Pending
    && StaleList(db, rest, now)
    && forall k :: 0 <= k < |rest| ==> !IsThreat(db, rest[k].id, id, now)
  }

  lemma StillMayBlock(db: Db, id: Id, other: Id, r': Record, db': Db)
    requires id in db.rows && other in db.rows && !IsBlocked(db, id) && db' == Put(db, other, r')
    requires r'.exec.createdAt == db.rows[other].exec.createdAt
    requires MaxToken(r'.events) == MaxToken(db.rows[other].events)
    requires other == id || !IsPoison(db, other, id)
    ensures !IsBlocked(db', id)
  {
    forall elder | elder in db'.rows
      ensures !IsElderStuck(db', elder, id)
    {
      assert !IsElderStuck(db, elder, id);
    }
  }

  lemma ReapedIsUnblocked(db: Db, x: Expired, id: Id, token: Int64, now: Instant, db': Db)
    requires CanIssue(db, id, token) && db.rows[id].exec.status == Pending
    requires StaleEntry(db, x, now) && !IsThreat(db, x.id, id, now)
    requires db' == ExecExpire(db, now, x.id, x.attempts, x.maxAttempts).db
    ensures CanIssue(db', id, token)
  {
    var op := OpExpire(x.attempts, x.maxAttempts);
    var r' := Apply(db.rows[x.id], op, now);
    ActOnRow(db, x.id, op, now);
    StepIsCoupled(db, Step(now, Act(x.id, op)), db');
    if IsPoison(db, x.id, id) {
      assert r'.exec.status == Failed;
      StillUnblocked(db, id, x.id, r');
    } else {
      ExpiryKeepsTokens(db.rows[x.id], op, now);
      StillMayBlock(db, id, x.id, r', db');
    }
  }

  lemma ExpiryKeepsTokens(r: Record, op: RowOp, now: Instant)
    requires op.OpExpire?
    ensures MaxToken(Apply(r, op, now).events) == MaxToken(r.events)
  {
    Appended(r.events, Apply(r, op, now).events[|r.events|]);
  }

  /** The extension takes no longer than until the given time. */
  ghost predicate Grows(s: Scheduled, at: Instant, s': Scheduled) {
    Extends(s, s') && EndOf(at, s'.run.steps) <= at
  }

  lemma ReapedTable(db: Db, rest: seq<Expired>, id: Id, token: Int64, now: Instant) returns (db': Db)
    requires rest != [] && IsSafe(db, rest, id, token, now)
    ensures db' == ExecExpire(db, now, rest[0].id, rest[0].attempts, rest[0].maxAttempts).db
    ensures IsSafe(db', rest[1..], id, token, now)
  {
    var x := rest[0];
    db' := ExecExpire(db, now, x.id, x.attempts, x.maxAttempts).db;
    ReapedIsUnblocked(db, x, id, token, now, db');
    forall k | 0 <= k < |rest[1..]|
      ensures db'.rows[rest[1..][k].id] == db.rows[rest[1..][k].id]
    {
      assert rest[1..][k] == rest[k + 1];
    }
    RestIsSafe(db, rest[1..], id, now, db');
  }

  lemma RestIsSafe(db: Db, rest: seq<Expired>, id: Id, now: Instant, db': Db)
    requires id in db.rows && id in db'.rows && db'.rows[id] == db.rows[id] && StaleList(db, rest, now)
    requires forall k :: 0 <= k < |rest| ==> !IsThreat(db, rest[k].id, id, now)
    requires forall k :: 0 <= k < |rest| ==> rest[k].id in db'.rows && db'.rows[rest[k].id] == db.rows[rest[k].id]
    ensures StaleList(db', rest, now)
    ensures forall k :: 0 <= k < |rest| ==> !IsThreat(db', rest[k].id, id, now)
  {
    forall k | 0 <= k < |rest|
      ensures StaleEntry(db', rest[k], now) && !IsThreat(db', rest[k].id, id, now)
    {
      assert StaleEntry(db, rest[k], now) && !IsThreat(db, rest[k].id, id, now);
    }
  }

  lemma ReapsOne(s: Scheduled, rest: seq<Expired>, now: Instant, db': Db) returns (s': Scheduled)
    requires s.Valid() && EndOf(now, s.run.steps) <= now && PcOf(s) == Reaping(rest) && rest != []
    requires db' == ExecExpire(End(s.run), now, rest[0].id, rest[0].attempts, rest[0].maxAttempts).db
    ensures Grows(s, now, s') && PcOf(s') == Reaping(rest[1..]) && End(s'.run) == db'
  {
    var step := Step(now, ExpireLease(rest[0].id, rest[0].attempts, rest[0].maxAttempts));
    MovedIsValid(s, step, db', Reaping(rest[1..]));
    s' := Moved(s, step, db', Reaping(rest[1..]));
  }

  /** The reaper has this much of its list left, all of it expired by the given time. */
  ghost predicate Works(s: Scheduled, rest: seq<Expired>, id: Id, token: Int64, now: Instant) {
    && s.Valid() && EndOf(now, s.run.steps) <= now && PcOf(s) == Reaping(rest)
    && IsSafe(End(s.run), rest, id, token, now)
  }

  lemma WorksOn(s: Scheduled, rest: seq<Expired>, id: Id, token: Int64, now: Instant) returns (s': Scheduled)
    requires Works(s, rest, id, token, now) && rest != []
    ensures Extends(s, s') && Works(s', rest[1..], id, token, now)
  {
    var db' := ReapedTable(End(s.run), rest, id, token, now);
    s' := ReapsOne(s, rest, now, db');
  }

  lemma {:induction false} ReapsList(s: Scheduled, rest: seq<Expired>, id: Id, token: Int64, now: Instant)
    returns (s': Scheduled)
    requires Works(s, rest, id, token, now)
    ensures Extends(s, s') && Works(s', [], id, token, now)
    decreases rest
  {
    if rest == [] {
      s' := s;
    } else {
      var next := WorksOn(s, rest, id, token, now);
      s' := ReapsList(next, rest[1..], id, token, now);
    }
  }

  lemma PromotesIt(s: Scheduled, id: Id, token: Int64, now: Instant) returns (s': Scheduled)
    requires Works(s, [], id, token, now)
    ensures Extends(s, s')
    ensures CanIssue(End(s'.run), id, token) && IsReady(End(s'.run), id)
  {
    var db := End(s.run);
    var r, at := db.rows[id], Deadline(db.rows[id], now);
    ReleasedRow(r, now);
    var due := DueFirst(db, at, id);
    var promoting := PassGoesOn(s, at, s, QueryDue(due), Promoting(due));
    var step, db' := Step(at, Act(id, OpPromote)), Put(db, id, Apply(r, OpPromote, at));
    ActOnRow(db, id, OpPromote, at);
    StepIsCoupled(db, step, db');
    StillUnblocked(db, id, id, Apply(r, OpPromote, at));
    s' := ThenDoes(s, promoting, step, Promoting(due[1..]));
  }

  lemma StartsPass(s: Scheduled, id: Id, token: Int64, now: Instant) returns (s': Scheduled, stale: seq<Expired>)
    requires s.Valid() && EndOf(now, s.run.steps) <= now
    requires CanIssue(End(s.run), id, token) && End(s.run).rows[id].exec.status == Pending
    requires forall elder :: !IsThreat(End(s.run), elder, id, now)
    ensures Extends(s, s') && Works(s', stale, id, token, now)
  {
    stale := StaleListing(End(s.run), now);
    var idle := PassGoesOn(s, now, s, EndPass, Idle);
    s' := PassGoesOn(s, now, idle, QueryStale(stale), Reaping(stale));
  }

  /** A pass that is reaping works off what it listed, and waits with its second query until the
      retry is due. */
  lemma RetryIsReached(s: Scheduled, rest: seq<Expired>, id: Id, token: Int64, now: Instant) returns (s': Scheduled)
    requires Works(s, rest, id, token, now)
    ensures Extends(s, s')
    ensures CanIssue(End(s'.run), id, token) && IsReady(End(s'.run), id)
  {
    var reaped := ReapsList(s, rest, id, token, now);
    s' := PromotesIt(reaped, id, token, now);
    ExtendsFurther(s, reaped, s');
  }

  /** The promoter has this much of its list left, and the execution is in it behind k others. */
  ghost predicate Gets(s: Scheduled, due: seq<Id>, k: nat, id: Id, token: Int64, now: Instant) {
    && s.Valid() && EndOf(now, s.run.steps) <= now && PcOf(s) == Promoting(due)
    && CanIssue(End(s.run), id, token) && DueList(End(s.run), due, now)
    && k < |due| && due[k] == id && IsClear(End(s.run), due, k, id)
  }

  lemma PromotedRow(db: Db, id: Id, token: Int64, other: Id, now: Instant, db': Db)
    requires CanIssue(db, id, token) && DueEntry(db, other, now)
    requires other == id || !IsPoison(db, other, id)
    requires db' == Put(db, other, PromoteRow(db.rows[other], now))
    ensures AllGuarded(db, Step(now, PromoteRetry(other))) && db' == Exec(db, now, PromoteRetry(other)).db
    ensures CanIssue(db', id, token)
  {
    assert Coupled(db.rows[other]);
    ActOnRow(db, other, OpPromote, now);
    StepIsCoupled(db, Step(now, PromoteRetry(other)), db');
    Appended(db.rows[other].events, db'.rows[other].events[|db.rows[other].events|]);
    StillMayBlock(db, id, other, db'.rows[other], db');
  }

  lemma RestIsDue(db: Db, due: seq<Id>, k: nat, id: Id, now: Instant, db': Db)
    requires id in db.rows && 0 < k < |due| && due[k] == id && DueList(db, due, now) && IsClear(db, due, k, id)
    requires db' == Put(db, due[0], PromoteRow(db.rows[due[0]], now))
    ensures DueList(db', due[1..], now) && IsClear(db', due[1..], k - 1, id)
  {
    forall m | 0 <= m < |due[1..]|
      ensures DueEntry(db', due[1..][m], now) && db'.rows[due[1..][m]] == db.rows[due[1..][m]]
      ensures m < k - 1 ==> !IsPoison(db', due[1..][m], id)
    {
      assert due[1..][m] == due[m + 1] && due[0] != due[m + 1];
      assert DueEntry(db, due[m + 1], now);
      assert m < k - 1 ==> !IsPoison(db, due[m + 1], id);
    }
  }

  lemma PromotesFirst(s: Scheduled, due: seq<Id>, k: nat, id: Id, token: Int64, now: Instant) returns (s': Scheduled)
    requires Gets(s, due, k, id, token, now)
    ensures Extends(s, s') && (k > 0 ==> Gets(s', due[1..], k - 1, id, token, now))
    ensures k == 0 ==> CanIssue(End(s'.run), id, token) && IsReady(End(s'.run), id)
  {
    var db := End(s.run);
    var db' := Put(db, due[0], PromoteRow(db.rows[due[0]], now));
    PromotedRow(db, id, token, due[0], now, db');
    if k > 0 {
      RestIsDue(db, due, k, id, now, db');
    }
    s' := PromotesOne(s, due, now, db');
  }

  lemma PromotesOne(s: Scheduled, due: seq<Id>, now: Instant, db': Db) returns (s': Scheduled)
    requires s.Valid() && EndOf(now, s.run.steps) <= now && PcOf(s) == Promoting(due) && due != []
    requires db' == ExecPromote(End(s.run), now, due[0]).db
    ensures Grows(s, now, s') && PcOf(s') == Promoting(due[1..]) && End(s'.run) == db'
  {
    MovedIsValid(s, Step(now, PromoteRetry(due[0])), db', Promoting(due[1..]));
    s' := Moved(s, Step(now, PromoteRetry(due[0])), db', Promoting(due[1..]));
  }

  lemma {:induction false} PromotesUpTo(s: Scheduled, due: seq<Id>, k: nat, id: Id, token: Int64, now: Instant)
    returns (s': Scheduled)
    requires Gets(s, due, k, id, token, now)
    ensures Extends(s, s')
    ensures CanIssue(End(s'.run), id, token) && IsReady(End(s'.run), id)
    decreases k
  {
    s' := PromotesFirst(s, due, k, id, token, now);
    if k > 0 {
      var next := s';
      s' := PromotesUpTo(next, due[1..], k - 1, id, token, now);
      ExtendsFurther(s, next, s');
    }
  }

  /** Wherever the pass stands, if the retry is promotable it can be promoted. */
  lemma RetryIsPromoted(s: Scheduled, id: Id, token: Int64, now: Instant) returns (s': Scheduled)
    requires s.Valid() && EndOf(now, s.run.steps) <= now && SnapshotHolds(End(s.run), PcOf(s), now)
    requires CanIssue(End(s.run), id, token) && End(s.run).rows[id].exec.status == Pending
    requires IsPromotable(End(s.run), PcOf(s), id, now)
    ensures Extends(s, s')
    ensures CanIssue(End(s'.run), id, token) && IsReady(End(s'.run), id)
  {
    var db, pc := End(s.run), PcOf(s);
    if pc.Reaping? {
      s' := RetryIsReached(s, pc.rest, id, token, now);
    } else if pc.Promoting? && IsReachedIn(db, pc.due, id) {
      var k :| 0 <= k < |pc.due| && pc.due[k] == id && IsClear(db, pc.due, k, id);
      s' := PromotesUpTo(s, pc.due, k, id, token, now);
    } else {
      var listed, stale := StartsPass(s, id, token, now);
      s' := RetryIsReached(listed, stale, id, token, now);
      ExtendsFurther(s, listed, s');
    }
  }

  // ----- the exact condition -----

  /** In the extension a Heartbeat, Complete or Fail with the token is accepted. */
  ghost predicate LaterAccepts(s: Scheduled, id: Id, token: Int64, s': Scheduled, j: nat) {
    Extends(s, s') && |s.run.steps| <= j && AcceptedAt(s'.run, j, id, token)
  }

  /** The token can be issued, no ready execution without a next token comes first, and none will
      before the retry of this one, if it waits for one, can be promoted. */
  ghost predicate HasAWay(db: Db, pc: Pc, id: Id, token: Int64, now: Instant)
    requires id in db.rows
  {
    && MayStillBeIssued(db.rows[id], token) && !IsBlocked(db, id)
    && (db.rows[id].exec.status == Pending ==> IsPromotable(db, pc, id, now))
  }

  lemma NoWayFromNowOn(db: Db, pc: Pc, id: Id, token: Int64, now: Instant)
    requires id in db.rows && Coupled(db.rows[id]) && FencedRow(db.rows[id]) && !Holds(db.rows[id], token, now)
    requires !HasAWay(db, pc, id, token, now)
    ensures NoWay(db, pc, id, token, now)
  {
    if !MayStillBeIssued(db.rows[id], token) || IsBlocked(db, id) {
      DeniedFromNowOn(db, id, token, now);
    } else {
      HeldUpOrPromotable(db, pc, id, now);
    }
  }

  lemma NeverAccepted(s: Scheduled, i: nat, now: Instant, id: Id, token: Int64, j: nat)
    requires s.Valid() && i <= |s.run.steps| && NoWay(s.run.dbs[i], s.pcs[i], id, token, now)
    requires i < |s.run.steps| ==> now <= s.run.steps[i].at
    requires i <= j
    ensures !AcceptedAt(s.run, j, id, token)
  {
    if j < |s.run.steps| {
      NoWayLater(s.run.dbs[i], s.pcs[i], id, token, now, s.run.steps[i].at);
      NoWayInRun(s, i, j, id, token);
      SnapshotStable(s, j);
      SoundIsCoupled(s.run.dbs[j]);
      NoWayIsNotHeld(s.run.dbs[j], s.pcs[j], id, token, s.run.steps[j].at);
      if AcceptedAt(s.run, j, id, token) {
        AcceptedMeansHeld(s.run, j, id, token);
      }
    }
  }

  lemma AcceptedInTime(s: Scheduled, id: Id, token: Int64) returns (s': Scheduled, j: nat)
    requires s.Valid() && id in End(s.run).rows && HasAWay(End(s.run), PcOf(s), id, token, EndOf(0, s.run.steps))
    ensures LaterAccepts(s, id, token, s', j)
  {
    var ready := s;
    SnapshotStable(s, |s.run.steps|);
    SoundIsCoupled(End(s.run));
    if End(s.run).rows[id].exec.status == Pending {
      ready := RetryIsPromoted(s, id, token, EndOf(0, s.run.steps));
    }
    s', j := RejectedNotForGood(ready, id, token, 1);
    ExtendsFurther(s, ready, s');
  }

  lemma NeverAcceptedLater(s: Scheduled, id: Id, token: Int64, s': Scheduled, j: nat)
    requires s.Valid() && id in End(s.run).rows
    requires !Holds(End(s.run).rows[id], token, EndOf(0, s.run.steps))
    requires !HasAWay(End(s.run), PcOf(s), id, token, EndOf(0, s.run.steps))
    ensures !LaterAccepts(s, id, token, s', j)
  {
    var i, now := |s.run.steps|, EndOf(0, s.run.steps);
    SnapshotStable(s, i);
    SoundIsCoupled(End(s.run));
    FencedAlways(s.run, i, id);
    NoWayFromNowOn(End(s.run), PcOf(s), id, token, now);
    if Extends(s, s') && i <= j {
      StartsWith(s, s');
      NeverAccepted(s', i, now, id, token, j);
    }
  }

  lemma StartsWith(s: Scheduled, s': Scheduled)
    requires s.Valid() && s.run.steps != [] && Extends(s, s')
    ensures s'.run.dbs[|s.run.steps|] == End(s.run) && s'.pcs[|s.run.steps|] == PcOf(s)
    ensures |s.run.steps| < |s'.run.steps| ==> EndOf(0, s.run.steps) <= s'.run.steps[|s.run.steps|].at
  {
  }

  /** In the system with one scheduler process, wherever its pass stands: a token that the execution
      does not accept now is accepted in some continuation exactly if it has a way. */
  lemma AcceptedLaterIff(s: Scheduled, id: Id, token: Int64)
    requires s.Valid() && id in End(s.run).rows
    requires !Holds(End(s.run).rows[id], token, EndOf(0, s.run.steps))
    ensures (exists s', j :: LaterAccepts(s, id, token, s', j))
            <==> HasAWay(End(s.run), PcOf(s), id, token, EndOf(0, s.run.steps))
  {
    if HasAWay(End(s.run), PcOf(s), id, token, EndOf(0, s.run.steps)) {
      var s', j := AcceptedInTime(s, id, token);
    } else {
      forall s', j
        ensures !LaterAccepts(s, id, token, s', j)
      {
        NeverAcceptedLater(s, id, token, s', j);
      }
    }
  }
}
