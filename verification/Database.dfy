/** The whole store as one value, its transactions, and the runs they form. */
module Database {
  import opened Types
  import opened Rows

  /** index is the UNIQUE index on (namespace, tool_name, idempotency_key). */
  datatype Db = Db(tools: map<string, Tool>, index: map<CallKey, Id>, rows: map<Id, Record>)

  const EMPTY: Db := Db(map[], map[], map[])

  datatype Tx =
    | SeedTool(tool: Tool)
    | Submit(key: CallKey, args: Json, newId: Id)
    | Claim(pick: Option<Id>, worker: string, leaseSeconds: int)
    | Heartbeat(id: Id, token: Int64, leaseSeconds: int)
    | Complete(id: Id, token: Int64, worker: string, result: Option<Json>)
    | Fail(id: Id, token: Int64, worker: string, error: string)
    | QueryStale(stale: seq<Expired>)
    | ExpireLease(id: Id, attempts: nat, maxAttempts: Int32)
    | QueryDue(due: seq<Id>)
    | PromoteRetry(id: Id)
    | EndPass
    | Observe

  datatype Outcome = Outcome(db: Db, reply: Reply)

  function Put(db: Db, id: Id, r: Record): Db {
    db.(rows := db.rows[id := r])
  }

  function ExecSubmit(db: Db, now: Instant, key: CallKey, args: Json, newId: Id): Outcome {
    if key.toolName !in db.tools then Outcome(db, UnknownTool)
    else if key in db.index && db.index[key] in db.rows then
      var id := db.index[key];
      var e := db.rows[id].exec;
      Outcome(Put(db, id, DuplicateRow(db.rows[id], key.key, now)),
              Submitted(SubmitInfo(id, Existing(e.status), if e.status == Completed then e.result else None, true)))
    else if newId in db.rows then Outcome(db, DbError)
    else
      var r := SubmitRow(key, args, db.tools[key.toolName].maxAttempts, now);
      Outcome(Put(db, newId, r).(index := db.index[key := newId]),
              Submitted(SubmitInfo(newId, Accepted, None, false)))
  }

  function ClaimOf(id: Id, r: Record): ClaimInfo
    requires r.lease.Some?
  {
    ClaimInfo(id, r.exec.key.toolName, r.exec.args, r.exec.attempts, r.exec.maxAttempts,
              r.lease.value.token, r.lease.value.expires)
  }

  function ExecClaim(db: Db, now: Instant, pick: Option<Id>, worker: string, leaseSeconds: int): Outcome {
    if pick.None? || pick.value !in db.rows then Outcome(db, NoWork)
    else if !TokenAvailable(db.rows[pick.value]) then Outcome(db, DbError)
    else
      var r := ClaimRow(db.rows[pick.value], worker, leaseSeconds, now);
      Outcome(Put(db, pick.value, r), Claimed(ClaimOf(pick.value, r)))
  }

  function Verdict(r: Record, token: Int64, now: Instant): Reply {
    if Holds(r, token, now) then Done else Stale
  }

  function ExecHeartbeat(db: Db, now: Instant, id: Id, token: Int64, leaseSeconds: int): Outcome {
    if id !in db.rows then Outcome(db, Stale)
    else Outcome(Put(db, id, HeartbeatRow(db.rows[id], token, leaseSeconds, now)), Verdict(db.rows[id], token, now))
  }

  function ExecComplete(db: Db, now: Instant, id: Id, token: Int64, worker: string, result: Option<Json>): Outcome {
    if id !in db.rows then Outcome(db, DbError)
    else Outcome(Put(db, id, CompleteRow(db.rows[id], token, worker, result, now)), Verdict(db.rows[id], token, now))
  }

  function ExecFail(db: Db, now: Instant, id: Id, token: Int64, worker: string, error: string): Outcome {
    if id !in db.rows then Outcome(db, DbError)
    else Outcome(Put(db, id, FailRow(db.rows[id], token, worker, error, now)), Verdict(db.rows[id], token, now))
  }

  function ExecExpire(db: Db, now: Instant, id: Id, attempts: nat, maxAttempts: Int32): Outcome {
    if id !in db.rows then Outcome(db, DbError)
    else Outcome(Put(db, id, ExpireRow(db.rows[id], attempts, maxAttempts, now)), Done)
  }

  function ExecPromote(db: Db, now: Instant, id: Id): Outcome {
    if id !in db.rows then Outcome(db, DbError)
    else Outcome(Put(db, id, PromoteRow(db.rows[id], now)), Done)
  }

  function Exec(db: Db, now: Instant, tx: Tx): Outcome {
    match tx
    case SeedTool(tool) =>
      Outcome(if tool.name in db.tools then db else db.(tools := db.tools[tool.name := tool]), Done)
    case Submit(key, args, newId) => ExecSubmit(db, now, key, args, newId)
    case Claim(pick, worker, secs) => ExecClaim(db, now, pick, worker, secs)
    case Heartbeat(id, token, secs) => ExecHeartbeat(db, now, id, token, secs)
    case Complete(id, token, worker, result) => ExecComplete(db, now, id, token, worker, result)
    case Fail(id, token, worker, error) => ExecFail(db, now, id, token, worker, error)
    case ExpireLease(id, attempts, maxAttempts) => ExecExpire(db, now, id, attempts, maxAttempts)
    case PromoteRetry(id) => ExecPromote(db, now, id)
    case _ => Outcome(db, Done)
  }

  function SeedAll(db: Db, batch: seq<Tool>): Db {
    if batch == [] then db else Exec(SeedAll(db, batch[..|batch| - 1]), 0, SeedTool(batch[|batch| - 1])).db
  }

  /** A registered tool is never overwritten; of several new ones with one name the first wins. */
  lemma {:induction false} FirstToolWins(db: Db, batch: seq<Tool>, name: string)
    ensures SeedAll(db, batch) == db.(tools := SeedAll(db, batch).tools)
    ensures name in db.tools ==> name in SeedAll(db, batch).tools && SeedAll(db, batch).tools[name] == db.tools[name]
    ensures name !in db.tools && name in SeedAll(db, batch).tools ==>
      exists i :: 0 <= i < |batch| && batch[i].name == name && SeedAll(db, batch).tools[name] == batch[i]
                  && forall k :: 0 <= k < i ==> batch[k].name != name
    ensures (exists i :: 0 <= i < |batch| && batch[i].name == name) ==> name in SeedAll(db, batch).tools
  {
    if batch != [] {
      var front := batch[..|batch| - 1];
      FirstToolWins(db, front, name);
      if name !in db.tools && name in SeedAll(db, front).tools {
        var i :| 0 <= i < |front| && front[i].name == name && SeedAll(db, front).tools[name] == front[i]
                 && forall k :: 0 <= k < i ==> front[k].name != name;
        assert batch[i] == front[i] && forall k :: 0 <= k < i ==> batch[k] == front[k];
      } else {
        assert forall k :: 0 <= k < |front| ==> batch[k] == front[k];
      }
    }
  }

  // ----- which row Claim may take -----

  predicate IsReady(db: Db, id: Id) {
    id in db.rows && db.rows[id].exec.status == Ready
  }

  /** ORDER BY created_at LIMIT 1 over the ready rows; ties are broken arbitrarily. */
  ghost predicate LegalPick(db: Db, pick: Option<Id>) {
    match pick
    case None => forall id :: !IsReady(db, id)
    case Some(id) =>
      && IsReady(db, id)
      && forall other :: IsReady(db, other) ==> db.rows[id].exec.createdAt <= db.rows[other].exec.createdAt
  }

  ghost predicate Enabled(db: Db, tx: Tx) {
    tx.Claim? ==> LegalPick(db, tx.pick)
  }

  // ----- runs -----

  datatype Step = Step(at: Instant, tx: Tx)

  /** dbs[i] is the database before step i. ExpireLease and PromoteRetry steps may come at any
      time with any arguments, so a run covers any number of schedulers, in any state of
      confusion; Scheduler.Scheduled singles out the runs of one scheduler process. */
  datatype Run = Run(dbs: seq<Db>, steps: seq<Step>) {
    ghost predicate Valid() {
      && |dbs| == |steps| + 1
      && dbs[0] == EMPTY
      && (forall i :: 0 <= i < |steps| ==> Follows(i))
      && (forall i, j :: 0 <= i < j < |steps| ==> steps[i].at <= steps[j].at)
    }

    ghost predicate Follows(i: nat)
      requires i < |steps| && |dbs| == |steps| + 1
    {
      Enabled(dbs[i], steps[i].tx) && dbs[i + 1] == After(i).db
    }

    function After(i: nat): Outcome
      requires i < |steps| && i < |dbs|
    {
      Exec(dbs[i], steps[i].at, steps[i].tx)
    }

    function Reply(i: nat): Reply
      requires i < |steps| && i < |dbs|
    {
      After(i).reply
    }
  }

  // ----- runs, step by step -----

  function End(run: Run): Db
    requires run.dbs != []
  {
    run.dbs[|run.dbs| - 1]
  }

  function Then(run: Run, step: Step, db: Db): Run {
    Run(run.dbs + [db], run.steps + [step])
  }

  ghost predicate Continues(run: Run, step: Step, db: Db)
    requires run.dbs != []
  {
    && (run.steps != [] ==> run.steps[|run.steps| - 1].at <= step.at)
    && Enabled(End(run), step.tx)
    && db == Exec(End(run), step.at, step.tx).db
  }

  lemma ContinuedIsValid(run: Run, step: Step, db: Db)
    requires run.Valid() && Continues(run, step, db)
    ensures Then(run, step, db).Valid()
  {
    var run' := Then(run, step, db);
    forall i | 0 <= i < |run'.steps|
      ensures run'.Follows(i)
    {
      if i < |run.steps| {
        assert run.Follows(i);
      }
    }
  }

  // ----- the view of one row -----

  /** What a transaction does to one given row. */
  function Local(db: Db, tx: Tx, id: Id): RowOp {
    match tx
    case Submit(key, _, _) =>
      if key.toolName in db.tools && key in db.index && db.index[key] == id then OpDuplicate(key.key) else OpNone
    case Claim(pick, worker, secs) => if pick == Some(id) then OpClaim(worker, secs) else OpNone
    case Heartbeat(i, token, secs) => if i == id then OpHeartbeat(token, secs) else OpNone
    case Complete(i, token, worker, result) => if i == id then OpComplete(token, worker, result) else OpNone
    case Fail(i, token, worker, error) => if i == id then OpFail(token, worker, error) else OpNone
    case ExpireLease(i, attempts, maxAttempts) => if i == id then OpExpire(attempts, maxAttempts) else OpNone
    case PromoteRetry(i) => if i == id then OpPromote else OpNone
    case _ => OpNone
  }

  /** Executions are never deleted, and a transaction changes an existing row only by the
      row operation aimed at it. */
  lemma Projection(db: Db, now: Instant, tx: Tx, id: Id)
    requires id in db.rows
    ensures id in Exec(db, now, tx).db.rows
    ensures Exec(db, now, tx).db.rows[id] == Apply(db.rows[id], Local(db, tx, id), now)
  {
  }

  /** The only other thing that can happen to the table is a Submit inserting a new row. */
  lemma Insertion(db: Db, now: Instant, tx: Tx, id: Id)
    requires id !in db.rows
    ensures id in Exec(db, now, tx).db.rows <==>
            tx.Submit? && tx.newId == id && Exec(db, now, tx).reply == Submitted(SubmitInfo(id, Accepted, None, false))
    ensures id in Exec(db, now, tx).db.rows ==>
              && tx.key.toolName in db.tools
              && Exec(db, now, tx).db.rows[id] == SubmitRow(tx.key, tx.args, db.tools[tx.key.toolName].maxAttempts, now)
  {
  }

  /** One step of a run, seen from one row: it evolves by a row operation, or it is inserted. */
  lemma RowAt(run: Run, i: nat, id: Id)
    requires run.Valid() && i < |run.steps|
    ensures id in run.dbs[i].rows ==>
      && id in run.dbs[i + 1].rows
      && run.dbs[i + 1].rows[id] == Apply(run.dbs[i].rows[id], Local(run.dbs[i], run.steps[i].tx, id), run.steps[i].at)
    ensures id !in run.dbs[i].rows && id in run.dbs[i + 1].rows ==>
      exists key, args, maxAttempts :: run.dbs[i + 1].rows[id] == SubmitRow(key, args, maxAttempts, run.steps[i].at)
  {
    assert run.Follows(i);
    if id in run.dbs[i].rows {
      Projection(run.dbs[i], run.steps[i].at, run.steps[i].tx, id);
    } else {
      Insertion(run.dbs[i], run.steps[i].at, run.steps[i].tx, id);
    }
  }

  lemma {:induction false} RowsPersist(run: Run, i: nat, j: nat, id: Id)
    requires run.Valid() && i <= j <= |run.steps| && id in run.dbs[i].rows
    ensures id in run.dbs[j].rows
    decreases j
  {
    if i < j {
      RowsPersist(run, i, j - 1, id);
      RowAt(run, j - 1, id);
    }
  }

  // ----- the unique index and the tool reference -----

  /** The index and the key columns of the executions describe the same bijection, and every
      execution belongs to a registered tool. */
  ghost predicate KeysAgree(db: Db) {
    && (forall k :: k in db.index ==> db.index[k] in db.rows && db.rows[db.index[k]].exec.key == k)
    && (forall id :: id in db.rows ==> db.rows[id].exec.key in db.index && db.index[db.rows[id].exec.key] == id)
    && (forall id :: id in db.rows ==> db.rows[id].exec.key.toolName in db.tools)
  }

  ghost predicate InsertsCall(db: Db, tx: Tx, db': Db) {
    && tx.Submit?
    && tx.key !in db.index && tx.newId !in db.rows && tx.key.toolName in db.tools
    && db'.index == db.index[tx.key := tx.newId]
    && db'.rows.Keys == db.rows.Keys + {tx.newId}
    && db'.rows[tx.newId].exec.key == tx.key
  }

  predicate SameKeys(db: Db, db': Db) {
    db'.tools == db.tools && db'.index == db.index && db'.rows.Keys == db.rows.Keys
  }

  lemma PutKeepsKeys(db: Db, id: Id, r: Record)
    requires id in db.rows
    ensures SameKeys(db, Put(db, id, r))
  {
  }

  lemma SubmitGrows(db: Db, now: Instant, key: CallKey, args: Json, newId: Id)
    requires KeysAgree(db)
    ensures var db' := ExecSubmit(db, now, key, args, newId).db;
      || SameKeys(db, db')
      || (db'.tools == db.tools && key !in db.index && newId !in db.rows && key.toolName in db.tools
              && db'.index == db.index[key := newId]
              && db'.rows.Keys == db.rows.Keys + {newId}
              && db'.rows[newId].exec.key == key)
  {
  }

  lemma ClaimKeepsKeys(db: Db, now: Instant, pick: Option<Id>, worker: string, secs: int)
    ensures SameKeys(db, ExecClaim(db, now, pick, worker, secs).db)
  {
    if pick.Some? && pick.value in db.rows {
      PutKeepsKeys(db, pick.value, ClaimRow(db.rows[pick.value], worker, secs, now));
    }
  }

  lemma HeartbeatKeepsKeys(db: Db, now: Instant, id: Id, token: Int64, secs: int)
    ensures SameKeys(db, ExecHeartbeat(db, now, id, token, secs).db)
  {
    if id in db.rows {
      PutKeepsKeys(db, id, HeartbeatRow(db.rows[id], token, secs, now));
    }
  }

  lemma ReportKeepsKeys(db: Db, now: Instant, id: Id, token: Int64, worker: string, result: Option<Json>, error: string)
    ensures SameKeys(db, ExecComplete(db, now, id, token, worker, result).db)
    ensures SameKeys(db, ExecFail(db, now, id, token, worker, error).db)
  {
    if id in db.rows {
      PutKeepsKeys(db, id, CompleteRow(db.rows[id], token, worker, result, now));
      PutKeepsKeys(db, id, FailRow(db.rows[id], token, worker, error, now));
    }
  }

  lemma SchedulerKeepsKeys(db: Db, now: Instant, id: Id, attempts: nat, maxAttempts: Int32)
    ensures SameKeys(db, ExecExpire(db, now, id, attempts, maxAttempts).db)
    ensures SameKeys(db, ExecPromote(db, now, id).db)
  {
    if id in db.rows {
      PutKeepsKeys(db, id, ExpireRow(db.rows[id], attempts, maxAttempts, now));
      PutKeepsKeys(db, id, PromoteRow(db.rows[id], now));
    }
  }

  /** Only a Submit can insert. */
  lemma OthersKeepKeys(db: Db, now: Instant, tx: Tx, db': Db)
    requires !tx.Submit? && db' == Exec(db, now, tx).db
    ensures db.tools.Keys <= db'.tools.Keys && db'.index == db.index && db'.rows.Keys == db.rows.Keys
  {
    match tx
    case Claim(pick, worker, secs) => ClaimKeepsKeys(db, now, pick, worker, secs);
    case Heartbeat(id, token, secs) => HeartbeatKeepsKeys(db, now, id, token, secs);
    case Complete(id, token, worker, result) => ReportKeepsKeys(db, now, id, token, worker, result, "");
    case Fail(id, token, worker, error) => ReportKeepsKeys(db, now, id, token, worker, None, error);
    case ExpireLease(id, attempts, maxAttempts) => SchedulerKeepsKeys(db, now, id, attempts, maxAttempts);
    case PromoteRetry(id) => SchedulerKeepsKeys(db, now, id, 0, 0);
    case _ =>
  }

  lemma TablesGrow(db: Db, now: Instant, tx: Tx, db': Db)
    requires KeysAgree(db) && db' == Exec(db, now, tx).db
    ensures db.tools.Keys <= db'.tools.Keys
    ensures (db'.index == db.index && db'.rows.Keys == db.rows.Keys) || InsertsCall(db, tx, db')
  {
    if tx.Submit? {
      SubmitGrows(db, now, tx.key, tx.args, tx.newId);
    } else {
      OthersKeepKeys(db, now, tx, db');
    }
  }

  lemma KeyColumnsStay(db: Db, now: Instant, tx: Tx, id: Id)
    requires id in db.rows
    ensures id in Exec(db, now, tx).db.rows && Exec(db, now, tx).db.rows[id].exec.key == db.rows[id].exec.key
  {
  }

  lemma KeysStep(db: Db, now: Instant, tx: Tx, db': Db)
    requires KeysAgree(db) && db' == Exec(db, now, tx).db
    ensures KeysAgree(db')
    ensures forall k :: k in db.index ==> k in db'.index && db'.index[k] == db.index[k]
  {
    TablesGrow(db, now, tx, db');
    forall id | id in db.rows
      ensures id in db'.rows && db'.rows[id].exec.key == db.rows[id].exec.key
    {
      KeyColumnsStay(db, now, tx, id);
    }
    if InsertsCall(db, tx, db') {
      KeysGained(db, tx, db');
    } else {
      KeysKept(db, db');
    }
  }

  lemma KeysKept(db: Db, db': Db)
    requires KeysAgree(db) && db.tools.Keys <= db'.tools.Keys && db'.index == db.index && db'.rows.Keys == db.rows.Keys
    requires forall id :: id in db.rows ==> db'.rows[id].exec.key == db.rows[id].exec.key
    ensures KeysAgree(db')
  {
  }

  lemma KeysGained(db: Db, tx: Tx, db': Db)
    requires KeysAgree(db) && db.tools.Keys <= db'.tools.Keys && InsertsCall(db, tx, db')
    requires forall id :: id in db.rows ==> db'.rows[id].exec.key == db.rows[id].exec.key
    ensures KeysAgree(db')
  {
  }

  lemma {:induction false} KeysAlwaysAgree(run: Run, j: nat)
    requires run.Valid() && j <= |run.steps|
    ensures KeysAgree(run.dbs[j])
    decreases j
  {
    if j > 0 {
      KeysAlwaysAgree(run, j - 1);
      assert run.Follows(j - 1);
      KeysStep(run.dbs[j - 1], run.steps[j - 1].at, run.steps[j - 1].tx, run.dbs[j]);
    }
  }

  lemma {:induction false} IndexKept(run: Run, i: nat, j: nat, k: CallKey)
    requires run.Valid() && i <= j <= |run.steps| && k in run.dbs[i].index
    ensures k in run.dbs[j].index && run.dbs[j].index[k] == run.dbs[i].index[k]
    decreases j
  {
    if i < j {
      IndexKept(run, i, j - 1, k);
      KeysAlwaysAgree(run, j - 1);
      assert run.Follows(j - 1);
      KeysStep(run.dbs[j - 1], run.steps[j - 1].at, run.steps[j - 1].tx, run.dbs[j]);
    }
  }
}
