/** What each transaction does, told by its answer and by the columns of the tables before and after
    it, for every run: any tokens, any timing, any number of schedulers. */
module Effects {
  import opened Types
  import opened Durations
  import opened EventLog
  import opened Rows
  import opened Database

  /** Nothing but the rows of one execution has changed. */
  ghost predicate OnlyRow(db: Db, id: Id, db': Db) {
    && db'.tools == db.tools && db'.index == db.index && db'.rows.Keys == db.rows.Keys
    && id in db.rows
    && (forall other :: other in db.rows && other != id ==> db'.rows[other] == db.rows[other])
  }

  /** Only the log of the execution has grown, by one event. */
  ghost predicate OnlyLogs(db: Db, id: Id, e: Event, db': Db) {
    && OnlyRow(db, id, db')
    && db'.rows[id].exec == db.rows[id].exec
    && db'.rows[id].lease == db.rows[id].lease
    && db'.rows[id].retry == db.rows[id].retry
    && db'.rows[id].events == db.rows[id].events + [e]
  }

  /** A live lease with the given token. */
  predicate IsHeld(db: Db, id: Id, token: Int64, now: Instant) {
    && id in db.rows && db.rows[id].lease.Some?
    && db.rows[id].lease.value.token == token && now < db.rows[id].lease.value.expires
  }

  /** The empty worker id is stored as NULL, any other as it is. */
  lemma WorkerIsNamed(worker: string)
    ensures WorkerColumn(worker) == None <==> worker == ""
    ensures WorkerColumn(worker) == Some(worker) <==> worker != ""
  {
  }

  // ----- submit -----

  /** The execution that a key was first submitted for. */
  predicate IsCallOf(db: Db, id: Id, key: CallKey) {
    id in db.rows && db.rows[id].exec.key == key
  }

  ghost predicate IsNewKey(db: Db, key: CallKey) {
    forall id :: !IsCallOf(db, id, key)
  }

  lemma IndexIsByKey(run: Run, i: nat, key: CallKey)
    requires run.Valid() && i <= |run.steps|
    ensures IsNewKey(run.dbs[i], key) <==> key !in run.dbs[i].index
    ensures key in run.dbs[i].index ==> IsCallOf(run.dbs[i], run.dbs[i].index[key], key)
    ensures forall id :: IsCallOf(run.dbs[i], id, key) ==> key in run.dbs[i].index && run.dbs[i].index[key] == id
  {
    KeysAlwaysAgree(run, i);
    var db := run.dbs[i];
    if key in db.index {
      assert IsCallOf(db, db.index[key], key);
    }
  }

  /** The two refusals change nothing: an unknown tool, and an execution id that is taken. */
  lemma RefusedSubmit(run: Run, i: nat)
    requires run.Valid() && i < |run.steps| && run.steps[i].tx.Submit?
    ensures var db, tx := run.dbs[i], run.steps[i].tx;
      && (run.Reply(i) == UnknownTool <==> tx.key.toolName !in db.tools)
      && (run.Reply(i) == DbError <==>
            tx.key.toolName in db.tools && IsNewKey(db, tx.key) && tx.newId in db.rows)
      && (run.Reply(i) == UnknownTool || run.Reply(i) == DbError ==> run.dbs[i + 1] == db)
  {
    assert run.Follows(i);
    IndexIsByKey(run, i, run.steps[i].tx.key);
  }

  /** A duplicate is answered with the id, the status and, once completed, the result that the first
      call has at that moment; it leaves nothing but a duplicate_detected event. */
  lemma DuplicateSubmit(run: Run, i: nat, id: Id)
    requires run.Valid() && i < |run.steps| && run.steps[i].tx.Submit?
    requires IsCallOf(run.dbs[i], id, run.steps[i].tx.key)
    ensures var e := run.dbs[i].rows[id].exec;
      run.Reply(i) ==
        Submitted(SubmitInfo(id, Existing(e.status), if e.status == Completed then e.result else None, true))
    ensures OnlyLogs(run.dbs[i], id,
                     Event(EvDuplicateDetected, None, None, IdempotencyKey(run.steps[i].tx.key.key), run.steps[i].at),
                     run.dbs[i + 1])
  {
    assert run.Follows(i);
    KeysAlwaysAgree(run, i);
  }

  /** A new call is accepted and stored as submitted, ready, and with its two events. */
  lemma AcceptedSubmit(run: Run, i: nat)
    requires run.Valid() && i < |run.steps| && run.steps[i].tx.Submit?
    requires var db, tx := run.dbs[i], run.steps[i].tx;
      tx.key.toolName in db.tools && IsNewKey(db, tx.key) && tx.newId !in db.rows
    ensures var db, db', tx := run.dbs[i], run.dbs[i + 1], run.steps[i].tx;
      && run.Reply(i) == Submitted(SubmitInfo(tx.newId, Accepted, None, false))
      && db'.tools == db.tools && db'.rows.Keys == db.rows.Keys + {tx.newId}
      && (forall other :: other in db.rows ==> db'.rows[other] == db.rows[other])
    ensures var tx, now, r := run.steps[i].tx, run.steps[i].at, run.dbs[i + 1].rows[run.steps[i].tx.newId];
      && r.exec.status == Ready && r.exec.attempts == 0 && r.exec.result == None && r.exec.error == None
      && r.lease == None && r.retry == None
      && r.events == [Event(EvSubmitted, None, None, Origin(tx.key.toolName, tx.key.namespace), now),
                      Event(EvReady, None, None, NoPayload, now)]
  {
    assert run.Follows(i);
    IndexIsByKey(run, i, run.steps[i].tx.key);
  }

  predicate IsAcceptedAs(run: Run, i: nat, id: Id)
    requires i < |run.steps| && i < |run.dbs|
  {
    run.steps[i].tx.Submit? && run.Reply(i) == Submitted(SubmitInfo(id, Accepted, None, false))
  }

  lemma ColumnsStay(r: Record, op: RowOp, now: Instant)
    ensures var e, e' := r.exec, Apply(r, op, now).exec;
      e'.key == e.key && e'.args == e.args && e'.maxAttempts == e.maxAttempts && e'.createdAt == e.createdAt
  {
  }

  /** What was submitted stays what is stored: key, arguments, budget and time of creation. */
  lemma {:induction false} SubmittedStays(run: Run, i: nat, j: nat, id: Id)
    requires run.Valid() && i < j <= |run.steps| && IsAcceptedAs(run, i, id)
    ensures run.steps[i].tx.key.toolName in run.dbs[i].tools && id in run.dbs[j].rows
    ensures var e, tx := run.dbs[j].rows[id].exec, run.steps[i].tx;
      && e.key == tx.key
      && e.args == (if tx.args == "" then "{}" else tx.args)
      && e.maxAttempts == run.dbs[i].tools[tx.key.toolName].maxAttempts
      && e.createdAt == run.steps[i].at
    decreases j
  {
    if j == i + 1 {
      assert run.Follows(i);
    } else {
      SubmittedStays(run, i, j - 1, id);
      var db, step := run.dbs[j - 1], run.steps[j - 1];
      RowAt(run, j - 1, id);
      ColumnsStay(db.rows[id], Local(db, step.tx, id), step.at);
    }
  }

  // ----- claim -----

  /** No work is answered exactly if nothing is ready; then, and when the next token does not exist,
      nothing changes. */
  lemma IdleClaim(run: Run, i: nat)
    requires run.Valid() && i < |run.steps| && run.steps[i].tx.Claim?
    ensures run.Reply(i) == NoWork <==> forall id :: id in run.dbs[i].rows ==> run.dbs[i].rows[id].exec.status != Ready
    ensures run.Reply(i) in {NoWork, DbError} || run.Reply(i).Claimed?
    ensures !run.Reply(i).Claimed? ==> run.dbs[i + 1] == run.dbs[i]
  {
    assert run.Follows(i);
    var db, pick := run.dbs[i], run.steps[i].tx.pick;
    if pick.Some? {
      assert IsReady(db, pick.value);
    } else {
      forall id | id in db.rows
        ensures db.rows[id].exec.status != Ready
      {
        assert !IsReady(db, id);
      }
    }
  }

  /** A claim takes an oldest ready execution and answers with its next token and the end of its lease;
      the execution is running, one attempt further, and leased to the claimant. */
  lemma ClaimTakes(run: Run, i: nat)
    requires run.Valid() && i < |run.steps| && run.steps[i].tx.Claim? && run.Reply(i).Claimed?
    ensures var db, db', c := run.dbs[i], run.dbs[i + 1], run.Reply(i).claim;
      && OnlyRow(db, c.id, db')
      && db.rows[c.id].exec.status == Ready
      && (forall other :: other in db.rows && db.rows[other].exec.status == Ready ==>
            db.rows[c.id].exec.createdAt <= db.rows[other].exec.createdAt)
      && c.token == MaxToken(db.rows[c.id].events).GetOr(0) + 1
      && c.attempts == db.rows[c.id].exec.attempts + 1
    ensures var tx, now, c := run.steps[i].tx, run.steps[i].at, run.Reply(i).claim;
            var r, r' := run.dbs[i].rows[c.id], run.dbs[i + 1].rows[c.id];
      && r'.exec == r.exec.(status := Running, attempts := c.attempts)
      && r'.lease == Some(Lease(tx.worker, c.token, now + tx.leaseSeconds * SECOND))
      && r'.retry == r.retry
      && r'.events == r.events + [Event(EvClaimed, WorkerColumn(tx.worker), Some(c.token), Attempt(c.attempts), now)]
  {
    assert run.Follows(i);
    var db, id := run.dbs[i], run.Reply(i).claim.id;
    forall other | other in db.rows && db.rows[other].exec.status == Ready
      ensures db.rows[id].exec.createdAt <= db.rows[other].exec.createdAt
    {
      assert IsReady(db, other);
    }
  }

  lemma ClaimNamesRow(run: Run, j: nat)
    requires run.Valid() && j < |run.steps| && run.steps[j].tx.Claim? && run.Reply(j).Claimed?
    ensures run.Reply(j).claim.id in run.dbs[j].rows
    ensures var c, e := run.Reply(j).claim, run.dbs[j].rows[run.Reply(j).claim.id].exec;
      c.toolName == e.key.toolName && c.args == e.args && c.maxAttempts == e.maxAttempts
    ensures run.Reply(j).claim.expires == run.steps[j].at + run.steps[j].tx.leaseSeconds * SECOND
  {
    assert run.Follows(j);
  }

  /** The worker is handed the tool, the arguments and the budget that were submitted. */
  lemma ClaimHandsOutTheCall(run: Run, i: nat, j: nat, id: Id)
    requires run.Valid() && i < j < |run.steps| && IsAcceptedAs(run, i, id)
    requires run.steps[j].tx.Claim? && run.Reply(j).Claimed? && run.Reply(j).claim.id == id
    ensures run.steps[i].tx.key.toolName in run.dbs[i].tools
    ensures var c, tx := run.Reply(j).claim, run.steps[i].tx;
      && c.toolName == tx.key.toolName
      && c.args == (if tx.args == "" then "{}" else tx.args)
      && c.maxAttempts == run.dbs[i].tools[tx.key.toolName].maxAttempts
      && c.expires == run.steps[j].at + run.steps[j].tx.leaseSeconds * SECOND
  {
    SubmittedStays(run, i, j, id);
    ClaimNamesRow(run, j);
  }

  // ----- heartbeat, complete, fail -----

  /** A heartbeat moves the end of the lease it holds, and nothing else; without one it changes nothing. */
  lemma HeartbeatMovesExpiry(run: Run, i: nat)
    requires run.Valid() && i < |run.steps| && run.steps[i].tx.Heartbeat?
    ensures var db, tx, now := run.dbs[i], run.steps[i].tx, run.steps[i].at;
      && run.Reply(i) == (if IsHeld(db, tx.id, tx.token, now) then Done else Stale)
      && (!IsHeld(db, tx.id, tx.token, now) ==> run.dbs[i + 1] == db)
      && (IsHeld(db, tx.id, tx.token, now) ==>
            && OnlyRow(db, tx.id, run.dbs[i + 1])
            && var r, r' := db.rows[tx.id], run.dbs[i + 1].rows[tx.id];
            && r'.exec == r.exec && r'.retry == r.retry
            && r'.lease == Some(Lease(r.lease.value.worker, tx.token, now + tx.leaseSeconds * SECOND))
            && r'.events == r.events + [Event(EvHeartbeat, None, Some(tx.token), NoPayload, now)])
  {
    assert run.Follows(i);
    var db, tx := run.dbs[i], run.steps[i].tx;
    if tx.id in db.rows && !IsHeld(db, tx.id, tx.token, run.steps[i].at) {
      assert Put(db, tx.id, db.rows[tx.id]) == db;
    }
  }

  /** A report without a live lease leaves nothing but a stale_rejected event that tells who presented
      which token; for an unknown execution it leaves nothing. */
  lemma RejectedReport(run: Run, i: nat)
    requires run.Valid() && i < |run.steps| && (run.steps[i].tx.Complete? || run.steps[i].tx.Fail?)
    requires !IsHeld(run.dbs[i], run.steps[i].tx.id, run.steps[i].tx.token, run.steps[i].at)
    ensures var db, tx, now := run.dbs[i], run.steps[i].tx, run.steps[i].at;
            var reason := if tx.Complete? then "completion rejected: fencing token superseded or lease expired"
                          else "failure rejected: fencing token superseded or lease expired";
      && run.Reply(i) == (if tx.id in db.rows then Stale else DbError)
      && (tx.id !in db.rows ==> run.dbs[i + 1] == db)
      && (tx.id in db.rows ==>
            OnlyLogs(db, tx.id, Event(EvStaleRejected, WorkerColumn(tx.worker), Some(tx.token), Reason(reason), now),
                     run.dbs[i + 1]))
  {
    assert run.Follows(i);
  }

  /** A completion that is covered by a live lease stores the result and ends the lease. */
  lemma AcceptedComplete(run: Run, i: nat)
    requires run.Valid() && i < |run.steps| && run.steps[i].tx.Complete?
    requires IsHeld(run.dbs[i], run.steps[i].tx.id, run.steps[i].tx.token, run.steps[i].at)
    ensures run.Reply(i) == Done && OnlyRow(run.dbs[i], run.steps[i].tx.id, run.dbs[i + 1])
    ensures var tx, now := run.steps[i].tx, run.steps[i].at;
            var r, r' := run.dbs[i].rows[tx.id], run.dbs[i + 1].rows[tx.id];
      && r'.exec == r.exec.(status := Completed, result := tx.result, error := None)
      && r'.lease == None && r'.retry == r.retry
      && r'.events == r.events + [Event(EvCompleted, WorkerColumn(tx.worker), Some(tx.token), NoPayload, now)]
  {
    assert run.Follows(i);
  }

  /** A failure that is covered by a live lease stores the error and ends the lease. With no attempt left
      the execution has failed; otherwise it waits for a retry, due exactly the logged backoff from now. */
  lemma AcceptedFail(run: Run, i: nat)
    requires run.Valid() && i < |run.steps| && run.steps[i].tx.Fail?
    requires IsHeld(run.dbs[i], run.steps[i].tx.id, run.steps[i].tx.token, run.steps[i].at)
    ensures run.Reply(i) == Done && OnlyRow(run.dbs[i], run.steps[i].tx.id, run.dbs[i + 1])
    ensures var tx := run.steps[i].tx;
            var r, r' := run.dbs[i].rows[tx.id], run.dbs[i + 1].rows[tx.id];
      && r'.exec == r.exec.(status := if r.exec.attempts < r.exec.maxAttempts then Pending else Failed,
                            error := Some(tx.error))
      && r'.lease == None
      && (r.exec.attempts >= r.exec.maxAttempts ==> r'.retry == r.retry)
    ensures var tx, now := run.steps[i].tx, run.steps[i].at;
            var r, r' := run.dbs[i].rows[tx.id], run.dbs[i + 1].rows[tx.id];
      && |r'.events| == |r.events| + 1 && r.events < r'.events
      && var e := r'.events[|r.events|];
         && e.worker == WorkerColumn(tx.worker) && e.token == Some(tx.token) && e.at == now
         && (r.exec.attempts >= r.exec.maxAttempts ==>
               e.kind == EvFailed && e.payload == Failure(tx.error, r.exec.attempts))
         && (r.exec.attempts < r.exec.maxAttempts ==>
               && e.kind == EvRetryScheduled && e.payload.RetryPlan?
               && e.payload.retryError == tx.error && e.payload.retryAttempt == r.exec.attempts
               && r'.retry == Some(Retry(now + e.payload.backoffSeconds * SECOND, r.exec.attempts))
               && (r.exec.attempts <= 33 ==> e.payload.backoffSeconds == Pow2(r.exec.attempts)))
  {
    assert run.Follows(i);
    BackoffExactIff(run.dbs[i].rows[run.steps[i].tx.id].exec.attempts);
  }

  // ----- the scheduler's transactions, whatever they are given -----

  /** The reaper ends the lease; by the numbers it was given it makes the execution ready or fails it. */
  lemma ReapActs(run: Run, i: nat)
    requires run.Valid() && i < |run.steps| && run.steps[i].tx.ExpireLease? && run.steps[i].tx.id in run.dbs[i].rows
    ensures run.Reply(i) == Done && OnlyRow(run.dbs[i], run.steps[i].tx.id, run.dbs[i + 1])
    ensures var tx, now := run.steps[i].tx, run.steps[i].at;
            var r, r' := run.dbs[i].rows[tx.id], run.dbs[i + 1].rows[tx.id];
            var expired := Event(EvLeaseExpired, None, None, Attempt(tx.attempts), now);
            var text := "lease expired after max attempts";
      && r'.lease == None && r'.retry == r.retry
      && (tx.attempts < tx.maxAttempts ==> r'.exec == r.exec.(status := Ready) && r'.events == r.events + [expired])
      && (tx.attempts >= tx.maxAttempts ==>
            && r'.exec == r.exec.(status := Failed, error := Some(text))
            && r'.events == r.events + [expired, Event(EvFailed, None, None, Reason(text), now)])
  {
    assert run.Follows(i);
  }

  /** The promoter removes the retry and makes the execution ready. */
  lemma PromoteActs(run: Run, i: nat)
    requires run.Valid() && i < |run.steps| && run.steps[i].tx.PromoteRetry? && run.steps[i].tx.id in run.dbs[i].rows
    ensures run.Reply(i) == Done && OnlyRow(run.dbs[i], run.steps[i].tx.id, run.dbs[i + 1])
    ensures var tx, now := run.steps[i].tx, run.steps[i].at;
            var r, r' := run.dbs[i].rows[tx.id], run.dbs[i + 1].rows[tx.id];
      && r'.exec == r.exec.(status := Ready) && r'.lease == r.lease && r'.retry == None
      && r'.events == r.events + [Event(EvReady, None, None, Reason("retry promoted"), now)]
  {
    assert run.Follows(i);
  }

  /** Everything else leaves the executions alone, and so do the scheduler's transactions on an
      execution that does not exist. */
  lemma OthersAct(run: Run, i: nat)
    requires run.Valid() && i < |run.steps|
    ensures var db, db', tx := run.dbs[i], run.dbs[i + 1], run.steps[i].tx;
      && (tx.SeedTool? || tx.QueryStale? || tx.QueryDue? || tx.EndPass? || tx.Observe? ==>
            db'.rows == db.rows && db'.index == db.index && run.Reply(i) == Done)
      && (tx.SeedTool? ==>
            db'.tools == if tx.tool.name in db.tools then db.tools else db.tools[tx.tool.name := tx.tool])
      && (!tx.SeedTool? ==> db'.tools == db.tools)
      && ((tx.ExpireLease? || tx.PromoteRetry?) && tx.id !in db.rows ==> db' == db && run.Reply(i) == DbError)
  {
    assert run.Follows(i);
  }
}
