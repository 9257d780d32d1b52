/** What can still happen to given tables: sequences of legal transactions, and why one scheduler
    process can make them happen. */
module Futures {
  import opened Types
  import opened Rows
  import opened Coupling
  import opened Database
  import opened Pass
  import opened Scheduler

  function Played(db: Db, steps: seq<Step>): Db
    decreases steps
  {
    if steps == [] then db else Played(Exec(db, steps[0].at, steps[0].tx).db, steps[1..])
  }

  /** In the order of time, every claim takes an oldest ready row, and every transaction finds the
      rows it changes the way its caller believes them to be. */
  ghost predicate Lawful(db: Db, from: Instant, steps: seq<Step>)
    decreases steps
  {
    steps != [] ==>
      && from <= steps[0].at
      && Enabled(db, steps[0].tx) && AllGuarded(db, steps[0])
      && Lawful(Exec(db, steps[0].at, steps[0].tx).db, steps[0].at, steps[1..])
  }

  function EndOf(from: Instant, steps: seq<Step>): Instant {
    if steps == [] then from else steps[|steps| - 1].at
  }

  lemma OneStep(db: Db, from: Instant, step: Step)
    requires from <= step.at && Enabled(db, step.tx) && AllGuarded(db, step)
    ensures Lawful(db, from, [step]) && Played(db, [step]) == Exec(db, step.at, step.tx).db
  {
    assert [step][1..] == [];
  }

  lemma {:induction false} Joined(db: Db, from: Instant, front: seq<Step>, rest: seq<Step>)
    requires Lawful(db, from, front) && Lawful(Played(db, front), EndOf(from, front), rest)
    ensures Lawful(db, from, front + rest)
    ensures Played(db, front + rest) == Played(Played(db, front), rest)
    ensures EndOf(from, front + rest) == EndOf(EndOf(from, front), rest)
    decreases front
  {
    if front == [] {
      assert front + rest == rest;
    } else {
      var next := Exec(db, front[0].at, front[0].tx).db;
      assert EndOf(front[0].at, front[1..]) == EndOf(from, front);
      Joined(next, front[0].at, front[1..], rest);
      assert (front + rest)[1..] == front[1..] + rest;
    }
  }

  lemma StepIsCoupled(db: Db, step: Step, db': Db)
    requires CoupledDb(db) && AllGuarded(db, step) && db' == Exec(db, step.at, step.tx).db
    ensures CoupledDb(db')
  {
    forall id | id in db'.rows
      ensures Coupled(db'.rows[id])
    {
      if id in db.rows {
        Projection(db, step.at, step.tx, id);
        CoupledStep(db.rows[id], Local(db, step.tx, id), step.at);
      } else {
        Insertion(db, step.at, step.tx, id);
        SubmittedIsCoupled(step.tx.key, step.tx.args, db.tools[step.tx.key.toolName].maxAttempts, step.at);
      }
    }
  }

  // ----- transactions on one row -----

  predicate IsAct(op: RowOp) {
    op.OpClaim? || op.OpComplete? || op.OpExpire? || op.OpPromote?
  }

  /** The transaction that applies the operation to the row. */
  function Act(id: Id, op: RowOp): Tx
    requires IsAct(op)
  {
    match op
    case OpClaim(worker, secs) => Claim(Some(id), worker, secs)
    case OpComplete(token, worker, result) => Complete(id, token, worker, result)
    case OpExpire(attempts, maxAttempts) => ExpireLease(id, attempts, maxAttempts)
    case OpPromote => PromoteRetry(id)
  }

  lemma ActOnRow(db: Db, id: Id, op: RowOp, now: Instant)
    requires IsAct(op) && id in db.rows && Guarded(db.rows[id], op, now)
    ensures AllGuarded(db, Step(now, Act(id, op)))
    ensures Exec(db, now, Act(id, op)).db == Put(db, id, Apply(db.rows[id], op, now))
  {
    forall other | other in db.rows
      ensures Local(db, Act(id, op), other) == if other == id then op else OpNone
    {
    }
    assert Put(db, id, db.rows[id]) == db;
  }

  lemma {:induction false} OldestOf(db: Db, ids: set<Id>) returns (pick: Id)
    requires ids != {} && forall id :: id in ids ==> id in db.rows
    ensures pick in ids
    ensures forall id :: id in ids ==> db.rows[pick].exec.createdAt <= db.rows[id].exec.createdAt
    decreases |ids|
  {
    var id :| id in ids;
    pick := id;
    if ids != {id} {
      assert ids - {id} != {};
      var other := OldestOf(db, ids - {id});
      if db.rows[other].exec.createdAt < db.rows[id].exec.createdAt {
        pick := other;
      }
    }
  }

  /** While a row is ready, some row is a legal pick. */
  lemma SomePickIsLegal(db: Db, id: Id) returns (pick: Id)
    requires IsReady(db, id)
    ensures LegalPick(db, Some(pick)) && db.rows[pick].exec.createdAt <= db.rows[id].exec.createdAt
  {
    var ready := set other | other in db.rows && IsReady(db, other);
    assert id in ready;
    pick := OldestOf(db, ready);
  }

  // ----- what one scheduler process can bring about -----

  /** The scheduler reaps any one expired lease on its own, but it promotes a retry only after it
      has reaped every expired lease there is. */
  ghost predicate Realisable(db: Db, step: Step) {
    || IsClientTx(step.tx)
    || (step.tx.ExpireLease? && step.tx.id in db.rows)
    || (step.tx.PromoteRetry? && step.tx.id in db.rows && forall id :: id in db.rows ==> !IsStale(db.rows[id], step.at))
  }

  ghost predicate AllRealisable(db: Db, steps: seq<Step>)
    decreases steps
  {
    steps != [] ==>
      Realisable(db, steps[0]) && AllRealisable(Exec(db, steps[0].at, steps[0].tx).db, steps[1..])
  }

  lemma {:induction false} RealisableJoined(db: Db, front: seq<Step>, rest: seq<Step>)
    requires AllRealisable(db, front) && AllRealisable(Played(db, front), rest)
    ensures AllRealisable(db, front + rest)
    decreases front
  {
    if front == [] {
      assert front + rest == rest;
    } else {
      RealisableJoined(Exec(db, front[0].at, front[0].tx).db, front[1..], rest);
      assert (front + rest)[1..] == front[1..] + rest;
    }
  }

  /** Everybody in the ids once, the given one first. */
  lemma {:induction false} Listed(ids: set<Id>, first: Id) returns (list: seq<Id>)
    requires first in ids
    ensures list != [] && list[0] == first
    ensures forall id :: id in list <==> id in ids
    ensures forall k, m :: 0 <= k < m < |list| ==> list[k] != list[m]
    decreases |ids|
  {
    list := [first];
    if ids != {first} {
      assert ids - {first} != {};
      var second :| second in ids - {first};
      var rest := Listed(ids - {first}, second);
      list := [first] + rest;
    }
  }

  lemma DueFirst(db: Db, now: Instant, id: Id) returns (due: seq<Id>)
    requires id in db.rows && IsDue(db.rows[id], now)
    ensures EnumeratesDue(db, now, due) && due != [] && due[0] == id
  {
    due := Listed(DueIds(db, now), id);
    forall k | 0 <= k < |due|
      ensures DueEntry(db, due[k], now)
    {
      assert due[k] in due;
    }
  }

  lemma StaleFirst(db: Db, now: Instant, id: Id) returns (stale: seq<Expired>)
    requires id in db.rows && IsStale(db.rows[id], now)
    ensures EnumeratesStale(db, now, stale)
    ensures stale != [] && stale[0] == Expired(id, db.rows[id].exec.attempts, db.rows[id].exec.maxAttempts)
  {
    var list := Listed(StaleIds(db, now), id);
    forall k | 0 <= k < |list|
      ensures list[k] in db.rows && IsStale(db.rows[list[k]], now)
    {
      assert list[k] in list;
    }
    stale := seq(|list|, k requires 0 <= k < |list| && list[k] in db.rows =>
                   Expired(list[k], db.rows[list[k]].exec.attempts, db.rows[list[k]].exec.maxAttempts));
    forall other | other in db.rows && IsStale(db.rows[other], now)
      ensures exists k :: 0 <= k < |stale| && stale[k].id == other
    {
      assert other in list;
      var k :| 0 <= k < |list| && list[k] == other;
      assert stale[k].id == other;
    }
  }

  lemma StaleListing(db: Db, now: Instant) returns (stale: seq<Expired>)
    ensures EnumeratesStale(db, now, stale)
  {
    if id :| id in db.rows && IsStale(db.rows[id], now) {
      stale := StaleFirst(db, now, id);
    } else {
      stale := [];
    }
  }

  predicate IsPassStep(tx: Tx) {
    tx.QueryStale? || tx.QueryDue? || tx.EndPass?
  }

  /** A run that goes on from where the given one stands. */
  ghost predicate Extends(s: Scheduled, s': Scheduled) {
    s'.Valid() && s.run.steps <= s'.run.steps && s.run.dbs <= s'.run.dbs && s.pcs <= s'.pcs
  }

  lemma ExtendsFurther(s: Scheduled, mid: Scheduled, s': Scheduled)
    requires Extends(s, mid) && Extends(mid, s')
    ensures Extends(s, s')
  {
  }

  /** The extension does the given step to the tables it finds, and besides only moves the pass on. */
  ghost predicate Does(s: Scheduled, step: Step, s': Scheduled) {
    && s.Valid() && Extends(s, s')
    && EndOf(0, s'.run.steps) == step.at
    && End(s'.run) == Exec(End(s.run), step.at, step.tx).db
    && (forall m :: |s.run.steps| <= m < |s'.run.steps| ==>
          IsPassStep(s'.run.steps[m].tx) || (s'.run.steps[m] == step && s'.run.dbs[m] == End(s.run)))
  }

  function Moved(s: Scheduled, step: Step, db: Db, pc: Pc): Scheduled {
    Scheduled(Then(s.run, step, db), s.pcs + [pc])
  }

  function PcOf(s: Scheduled): Pc
    requires s.pcs != []
  {
    s.pcs[|s.pcs| - 1]
  }

  lemma MovedIsValid(s: Scheduled, step: Step, db: Db, pc: Pc)
    requires s.Valid() && Continues(s.run, step, db) && Moves(End(s.run), PcOf(s), step, pc)
    ensures Moved(s, step, db, pc).Valid()
  {
    ContinuedIsValid(s.run, step, db);
    var s' := Moved(s, step, db, pc);
    forall i | 0 <= i < |s'.run.steps|
      ensures s'.Proceeds(i)
    {
      if i < |s.run.steps| {
        assert s.Proceeds(i);
      }
    }
  }

  /** The extension only moves the pass on, up to the given time. */
  ghost predicate Waits(s: Scheduled, at: Instant, s': Scheduled) {
    && s.Valid() && Extends(s, s')
    && EndOf(at, s'.run.steps) <= at
    && End(s'.run) == End(s.run)
    && (forall m :: |s.run.steps| <= m < |s'.run.steps| ==> IsPassStep(s'.run.steps[m].tx))
  }

  lemma PassGoesOn(s: Scheduled, at: Instant, mid: Scheduled, tx: Tx, pc: Pc) returns (s': Scheduled)
    requires Waits(s, at, mid) && IsPassStep(tx) && Moves(End(mid.run), PcOf(mid), Step(at, tx), pc)
    ensures Waits(s, at, s') && PcOf(s') == pc
  {
    MovedIsValid(mid, Step(at, tx), End(mid.run), pc);
    s' := Moved(mid, Step(at, tx), End(mid.run), pc);
  }

  lemma ThenDoes(s: Scheduled, mid: Scheduled, step: Step, pc: Pc) returns (s': Scheduled)
    requires Waits(s, step.at, mid) && Enabled(End(s.run), step.tx) && Moves(End(mid.run), PcOf(mid), step, pc)
    ensures Does(s, step, s') && s'.run.steps == mid.run.steps + [step]
  {
    var db := Exec(End(mid.run), step.at, step.tx).db;
    MovedIsValid(mid, step, db, pc);
    s' := Moved(mid, step, db, pc);
  }

  lemma ReapsAlone(s: Scheduled, step: Step) returns (s': Scheduled)
    requires s.Valid() && EndOf(step.at, s.run.steps) <= step.at && step.tx.ExpireLease?
    requires step.tx.id in End(s.run).rows && AllGuarded(End(s.run), step)
    ensures Does(s, step, s')
  {
    var db, id := End(s.run), step.tx.id;
    assert Guarded(db.rows[id], Local(db, step.tx, id), step.at);
    var stale := StaleFirst(db, step.at, id);
    var idle := PassGoesOn(s, step.at, s, EndPass, Idle);
    var reaping := PassGoesOn(s, step.at, idle, QueryStale(stale), Reaping(stale));
    s' := ThenDoes(s, reaping, step, Reaping(stale[1..]));
  }

  lemma PromotesAlone(s: Scheduled, step: Step) returns (s': Scheduled)
    requires s.Valid() && EndOf(step.at, s.run.steps) <= step.at && step.tx.PromoteRetry?
    requires step.tx.id in End(s.run).rows && AllGuarded(End(s.run), step) && Realisable(End(s.run), step)
    ensures Does(s, step, s')
  {
    var db, id := End(s.run), step.tx.id;
    assert Guarded(db.rows[id], Local(db, step.tx, id), step.at);
    var due := DueFirst(db, step.at, id);
    var idle := PassGoesOn(s, step.at, s, EndPass, Idle);
    var reaping := PassGoesOn(s, step.at, idle, QueryStale([]), Reaping([]));
    var promoting := PassGoesOn(s, step.at, reaping, QueryDue(due), Promoting(due));
    s' := ThenDoes(s, promoting, step, Promoting(due[1..]));
  }

  /** One scheduler process can bring every realisable step about, wherever its pass stands. */
  lemma Realised(s: Scheduled, step: Step) returns (s': Scheduled)
    requires s.Valid() && EndOf(step.at, s.run.steps) <= step.at
    requires Enabled(End(s.run), step.tx) && AllGuarded(End(s.run), step) && Realisable(End(s.run), step)
    ensures Does(s, step, s')
  {
    if step.tx.ExpireLease? {
      s' := ReapsAlone(s, step);
    } else if step.tx.PromoteRetry? {
      s' := PromotesAlone(s, step);
    } else {
      s' := ThenDoes(s, s, step, PcOf(s));
    }
  }

  lemma {:induction false} FutureRealised(s: Scheduled, from: Instant, steps: seq<Step>) returns (s': Scheduled)
    requires s.Valid() && EndOf(from, s.run.steps) <= from
    requires Lawful(End(s.run), from, steps) && AllRealisable(End(s.run), steps)
    ensures Extends(s, s') && End(s'.run) == Played(End(s.run), steps)
    ensures EndOf(EndOf(from, steps), s'.run.steps) <= EndOf(from, steps)
    decreases steps
  {
    if steps == [] {
      s' := s;
    } else {
      var next := Realised(s, steps[0]);
      assert EndOf(steps[0].at, steps[1..]) == EndOf(from, steps);
      s' := FutureRealised(next, steps[0].at, steps[1..]);
    }
  }
}
