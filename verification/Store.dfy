/** The store as it runs: tables that its transactions update in place. Every method is proved
    to do to the tables what the specification in Database does to their value. */
module Store {
  import opened Types
  import opened Durations
  import opened EventLog
  import opened Rows
  import opened Database
  import opened Pass
  import opened Views

  datatype LogRow = LogRow(id: Id, event: Event)

  /** The events of one execution, in the order of insertion. */
  function EventsOf(log: seq<LogRow>, id: Id): seq<Event> {
    if log == [] then []
    else
      var last := log[|log| - 1];
      var before := EventsOf(log[..|log| - 1], id);
      if last.id == id then before + [last.event] else before
  }

  lemma EventsOfAppended(log: seq<LogRow>, row: LogRow, id: Id)
    ensures EventsOf(log + [row], id) == if row.id == id then EventsOf(log, id) + [row.event] else EventsOf(log, id)
  {
    assert (log + [row])[..|log|] == log;
  }

  function LeaseIn(table: map<Id, Lease>, id: Id): Option<Lease> {
    if id in table then Some(table[id]) else None
  }

  function RetryIn(table: map<Id, Retry>, id: Id): Option<Retry> {
    if id in table then Some(table[id]) else None
  }

  class Postgres {
    var tools: map<string, Tool>
    var executions: map<Id, Execution>
    var index: map<CallKey, Id>
    var leases: map<Id, Lease>
    var retries: map<Id, Retry>
    var events: seq<LogRow>

    /** The foreign keys of the schema, and the unique index pointing into its table. */
    ghost predicate Valid()
      reads this
    {
      && (forall id :: id in leases ==> id in executions)
      && (forall id :: id in retries ==> id in executions)
      && (forall id :: id !in executions ==> EventsOf(events, id) == [])
      && (forall k :: k in index ==> index[k] in executions)
    }

    ghost function RecordOf(id: Id): Record
      requires id in executions
      reads this
    {
      Record(executions[id], LeaseIn(leases, id), RetryIn(retries, id), EventsOf(events, id))
    }

    ghost function Abs(): Db
      reads this
    {
      Db(tools, index, map id | id in executions :: RecordOf(id))
    }

    /** A transaction that touched the rows of one execution only. */
    twostate lemma OnlyRow(id: Id)
      requires old(Valid())
      requires id in executions && executions.Keys == old(executions.Keys)
      requires tools == old(tools) && index == old(index)
      requires forall i :: i in executions && i != id ==> executions[i] == old(executions)[i]
      requires forall i :: i != id ==>
                 && LeaseIn(leases, i) == old(LeaseIn(leases, i))
                 && RetryIn(retries, i) == old(RetryIn(retries, i))
                 && EventsOf(events, i) == old(EventsOf(events, i))
      ensures Valid()
      ensures Abs() == Put(old(Abs()), id, RecordOf(id))
    {
      forall i | i in leases
        ensures i in executions
      {
        assert i != id ==> LeaseIn(leases, i) == old(LeaseIn(leases, i));
      }
      forall i | i in retries
        ensures i in executions
      {
        assert i != id ==> RetryIn(retries, i) == old(RetryIn(retries, i));
      }
      var db, db' := old(Abs()), Abs();
      assert db'.rows.Keys == executions.Keys;
      assert db.rows.Keys == executions.Keys;
      forall i | i in executions
        ensures db'.rows[i] == Put(db, id, RecordOf(id)).rows[i]
      {
      }
    }

    /** A transaction that inserted one execution and left the rows of the others alone. */
    twostate lemma InsertedRow(id: Id)
      requires id !in old(executions) && executions.Keys == old(executions.Keys) + {id}
      requires forall i :: i in old(executions) ==>
                 && executions[i] == old(executions)[i]
                 && LeaseIn(leases, i) == old(LeaseIn(leases, i))
                 && RetryIn(retries, i) == old(RetryIn(retries, i))
                 && EventsOf(events, i) == old(EventsOf(events, i))
      ensures Abs().rows == old(Abs()).rows[id := RecordOf(id)]
    {
      var db, db' := old(Abs()), Abs();
      assert db'.rows.Keys == executions.Keys;
      assert db.rows.Keys == old(executions.Keys);
    }

    constructor ()
      ensures Valid() && Abs() == EMPTY
    {
      tools, executions, index, leases, retries, events := map[], map[], map[], map[], map[], [];
    }

    /** The only writer of the log. It fails on the foreign key of an unknown execution. */
    method AppendEvent(now: Instant, id: Id, kind: EventType, worker: string, token: Option<Int64>, payload: Payload)
      returns (ok: bool)
      modifies this`events
      ensures ok <==> id in executions
      ensures ok ==> events == old(events) + [LogRow(id, Event(kind, WorkerColumn(worker), token, payload, now))]
      ensures !ok ==> events == old(events)
      ensures forall i :: EventsOf(events, i) ==
                old(EventsOf(events, i))
                + if ok && i == id then [Event(kind, WorkerColumn(worker), token, payload, now)] else []
    {
      ok := id in executions;
      if ok {
        var row := LogRow(id, Event(kind, WorkerColumn(worker), token, payload, now));
        forall i {
          EventsOfAppended(events, row, i);
        }
        events := events + [row];
      }
    }

    /** INSERT ... ON CONFLICT (name) DO NOTHING, tool by tool. */
    method SeedTools(batch: seq<Tool>)
      requires Valid()
      modifies this`tools
      ensures Valid()
      ensures Abs() == SeedAll(old(Abs()), batch)
    {
      for n := 0 to |batch|
        invariant Abs() == SeedAll(old(Abs()), batch[..n])
      {
        assert batch[..n + 1][..n] == batch[..n];
        if batch[n].name !in tools {
          tools := tools[batch[n].name := batch[n]];
        }
      }
      assert batch[..|batch|] == batch;
    }

    method Submit(now: Instant, key: CallKey, args: Json, newId: Id) returns (reply: Reply)
      requires Valid()
      modifies this
      ensures Valid()
      ensures Outcome(Abs(), reply) == ExecSubmit(old(Abs()), now, key, args, newId)
    {
      if key.toolName !in tools {
        return UnknownTool;
      }
      var tool := tools[key.toolName];
      var input := if args == "" then "{}" else args;
      if key in index {
        var id := index[key];
        var logged := AppendEvent(now, id, EvDuplicateDetected, "", None, IdempotencyKey(key.key));
        OnlyRow(id);
        var e := executions[id];
        reply := Submitted(SubmitInfo(id, Existing(e.status), if e.status == Completed then e.result else None, true));
        return;
      }
      if newId in executions {
        return DbError;
      }
      InsertCall(now, key, input, newId, tool.maxAttempts);
      assert RecordOf(newId) == SubmitRow(key, args, tool.maxAttempts, now);
      reply := Submitted(SubmitInfo(newId, Accepted, None, false));
    }

    method InsertCall(now: Instant, key: CallKey, input: Json, newId: Id, maxAttempts: Int32)
      requires Valid() && newId !in executions
      modifies this
      ensures Valid() && newId in executions
      ensures tools == old(tools) && index == old(index)[key := newId]
      ensures Abs().rows == old(Abs()).rows[newId := RecordOf(newId)]
      ensures RecordOf(newId) == Record(
                Execution(key, input, Ready, 0, maxAttempts, None, None, now), None, None,
                [Event(EvSubmitted, None, None, Origin(key.toolName, key.namespace), now),
                 Event(EvReady, None, None, NoPayload, now)])
    {
      executions := executions[newId := Execution(key, input, Pending, 0, maxAttempts, None, None, now)];
      index := index[key := newId];
      LogSubmission(now, newId, key);
      InsertedRow(newId);
    }

    /** The rest of the inserting transaction: log, make ready, log again. */
    method LogSubmission(now: Instant, newId: Id, key: CallKey)
      requires newId in executions && EventsOf(events, newId) == []
      modifies this`executions, this`events
      ensures executions == old(executions)[newId := old(executions)[newId].(status := Ready)]
      ensures forall i :: i != newId ==> EventsOf(events, i) == old(EventsOf(events, i))
      ensures EventsOf(events, newId) ==
                [Event(EvSubmitted, None, None, Origin(key.toolName, key.namespace), now),
                 Event(EvReady, None, None, NoPayload, now)]
    {
      var logged := AppendEvent(now, newId, EvSubmitted, "", None, Origin(key.toolName, key.namespace));
      executions := executions[newId := executions[newId].(status := Ready)];
      logged := AppendEvent(now, newId, EvReady, "", None, NoPayload);
    }

    /** SELECT id FROM executions WHERE status = 'ready' ORDER BY created_at LIMIT 1. */
    method OldestReady() returns (pick: Option<Id>)
      requires Valid()
      ensures LegalPick(Abs(), pick)
    {
      pick := None;
      var todo := executions.Keys;
      while todo != {}
        invariant todo <= executions.Keys
        invariant pick.Some? ==> pick.value in executions && executions[pick.value].status == Ready
        invariant forall id :: id in executions && id !in todo && executions[id].status == Ready ==>
                    pick.Some? && executions[pick.value].createdAt <= executions[id].createdAt
      {
        var id :| id in todo;
        todo := todo - {id};
        if executions[id].status == Ready
           && (pick.None? || executions[id].createdAt < executions[pick.value].createdAt) {
          pick := Some(id);
        }
      }
    }

    /** COALESCE(MAX(fencing_token), 0) + 1 over the events of one execution. */
    method NextTokenOf(id: Id) returns (next: int)
      ensures next == NextToken(EventsOf(events, id))
    {
      var max: Option<Int64> := None;
      for n := 0 to |events|
        invariant max == MaxToken(EventsOf(events[..n], id))
      {
        assert events[..n + 1] == events[..n] + [events[n]];
        EventsOfAppended(events[..n], events[n], id);
        if events[n].id == id {
          Appended(EventsOf(events[..n], id), events[n].event);
          match events[n].event.token
          case None =>
          case Some(t) =>
            if max.None? || max.value < t {
              max := Some(t);
            }
        }
      }
      assert events[..|events|] == events;
      next := max.GetOr(0) + 1;
    }

    method Claim(now: Instant, worker: string, leaseSeconds: int) returns (reply: Reply, ghost pick: Option<Id>)
      requires Valid()
      modifies this
      ensures Valid()
      ensures LegalPick(old(Abs()), pick)
      ensures Outcome(Abs(), reply) == ExecClaim(old(Abs()), now, pick, worker, leaseSeconds)
    {
      var oldest := OldestReady();
      pick := oldest;
      match oldest
      case None => reply := NoWork;
      case Some(id) => reply := ClaimReady(now, id, worker, leaseSeconds);
    }

    method ClaimReady(now: Instant, id: Id, worker: string, leaseSeconds: int) returns (reply: Reply)
      requires Valid() && id in executions
      modifies this
      ensures Valid()
      ensures Outcome(Abs(), reply) == ExecClaim(old(Abs()), now, Some(id), worker, leaseSeconds)
    {
      var saved := executions;
      executions := executions[id := executions[id].(status := Running, attempts := executions[id].attempts + 1)];
      var next := NextTokenOf(id);
      if next > MAX_INT64 {
        executions := saved;
        return DbError;
      }
      ghost var before := old(RecordOf(id));
      assert TokenAvailable(before) && next == FreshToken(before);
      GrantLease(now, id, worker, next, leaseSeconds);
      OnlyRow(id);
      ClaimRowIs(before, worker, leaseSeconds, now, RecordOf(id));
      var e := executions[id];
      reply := Claimed(ClaimInfo(id, e.key.toolName, e.args, e.attempts, e.maxAttempts, next, leases[id].expires));
    }

    lemma ClaimRowIs(r: Record, worker: string, leaseSeconds: int, now: Instant, r': Record)
      requires TokenAvailable(r)
      requires r'.exec == r.exec.(status := Running, attempts := r.exec.attempts + 1) && r'.retry == r.retry
      requires r'.lease == Some(Lease(worker, FreshToken(r), now + leaseSeconds * SECOND))
      requires r'.events == r.events + [Event(EvClaimed, WorkerColumn(worker), Some(FreshToken(r)),
                                              Attempt(r.exec.attempts + 1), now)]
      ensures r' == ClaimRow(r, worker, leaseSeconds, now)
    {
    }

    method GrantLease(now: Instant, id: Id, worker: string, token: Int64, leaseSeconds: int)
      requires Valid() && id in executions
      modifies this`leases, this`events
      ensures Valid()
      ensures leases == old(leases)[id := Lease(worker, token, now + leaseSeconds * SECOND)]
      ensures forall i :: EventsOf(events, i) ==
                if i != id then old(EventsOf(events, i))
                else old(EventsOf(events, i))
                     + [Event(EvClaimed, WorkerColumn(worker), Some(token), Attempt(executions[id].attempts), now)]
    {
      leases := leases[id := Lease(worker, token, now + leaseSeconds * SECOND)];
      var logged := AppendEvent(now, id, EvClaimed, worker, Some(token), Attempt(executions[id].attempts));
    }

    method Heartbeat(now: Instant, id: Id, token: Int64, leaseSeconds: int) returns (reply: Reply)
      requires Valid()
      modifies this
      ensures Valid()
      ensures Outcome(Abs(), reply) == ExecHeartbeat(old(Abs()), now, id, token, leaseSeconds)
    {
      if !(id in leases && leases[id].token == token && leases[id].expires > now) {
        return Stale;
      }
      leases := leases[id := leases[id].(expires := now + leaseSeconds * SECOND)];
      var logged := AppendEvent(now, id, EvHeartbeat, "", Some(token), NoPayload);
      OnlyRow(id);
      assert RecordOf(id) == HeartbeatRow(old(RecordOf(id)), token, leaseSeconds, now);
      reply := Done;
    }

    /** A report that is not covered by a live lease only leaves a stale_rejected event. */
    method Reject(now: Instant, id: Id, token: Int64, worker: string, reason: string) returns (reply: Reply)
      requires Valid()
      modifies this
      ensures Valid()
      ensures id !in old(executions) ==> reply == DbError && Abs() == old(Abs())
      ensures id in old(executions) ==>
                && reply == Stale && id in executions
                && RecordOf(id) == old(RecordOf(id)).(events := old(RecordOf(id)).events
                                     + [Event(EvStaleRejected, WorkerColumn(worker), Some(token), Reason(reason), now)])
                && Abs() == Put(old(Abs()), id, RecordOf(id))
    {
      var logged := AppendEvent(now, id, EvStaleRejected, worker, Some(token), Reason(reason));
      if !logged {
        return DbError;
      }
      OnlyRow(id);
      reply := Stale;
    }

    method Complete(now: Instant, id: Id, token: Int64, worker: string, result: Option<Json>) returns (reply: Reply)
      requires Valid()
      modifies this
      ensures Valid()
      ensures Outcome(Abs(), reply) == ExecComplete(old(Abs()), now, id, token, worker, result)
    {
      if !(id in executions && id in leases && leases[id].token == token && leases[id].expires > now) {
        reply := Reject(now, id, token, worker, COMPLETE_REJECTED);
        return;
      }
      CompleteOwned(now, id, token, worker, result);
      reply := Done;
    }

    method CompleteOwned(now: Instant, id: Id, token: Int64, worker: string, result: Option<Json>)
      requires Valid() && id in executions && id in leases && leases[id].token == token && leases[id].expires > now
      modifies this
      ensures Valid() && id in executions
      ensures Abs() == Put(old(Abs()), id, CompleteRow(old(RecordOf(id)), token, worker, result, now))
    {
      executions := executions[id := executions[id].(status := Completed, result := result, error := None)];
      leases := leases - {id};
      var logged := AppendEvent(now, id, EvCompleted, worker, Some(token), NoPayload);
      OnlyRow(id);
      assert RecordOf(id).exec == CompleteRow(old(RecordOf(id)), token, worker, result, now).exec;
    }

    method Fail(now: Instant, id: Id, token: Int64, worker: string, error: string) returns (reply: Reply)
      requires Valid()
      modifies this
      ensures Valid()
      ensures Outcome(Abs(), reply) == ExecFail(old(Abs()), now, id, token, worker, error)
    {
      if !(id in executions && id in leases && leases[id].token == token && leases[id].expires > now) {
        reply := Reject(now, id, token, worker, FAIL_REJECTED);
        return;
      }
      if executions[id].attempts >= executions[id].maxAttempts {
        FailForGood(now, id, token, worker, error);
      } else {
        FailForNow(now, id, token, worker, error, BackoffSeconds(executions[id].attempts));
      }
      reply := Done;
    }

    method FailForGood(now: Instant, id: Id, token: Int64, worker: string, error: string)
      requires Valid() && id in executions
      modifies this
      ensures Valid() && id in executions
      ensures Abs() == Put(old(Abs()), id, FailedRow(old(RecordOf(id)), token, worker, error, now))
    {
      executions := executions[id := executions[id].(status := Failed, error := Some(error))];
      leases := leases - {id};
      var logged := AppendEvent(now, id, EvFailed, worker, Some(token), Failure(error, executions[id].attempts));
      OnlyRow(id);
    }

    method FailForNow(now: Instant, id: Id, token: Int64, worker: string, error: string, backoff: int)
      requires Valid() && id in executions
      modifies this
      ensures Valid() && id in executions
      ensures Abs() == Put(old(Abs()), id, RetryRow(old(RecordOf(id)), token, worker, error, backoff, now))
    {
      var attempts := executions[id].attempts;
      executions := executions[id := executions[id].(status := Pending, error := Some(error))];
      leases := leases - {id};
      retries := retries[id := Retry(now + backoff * SECOND, attempts)];
      var logged := AppendEvent(now, id, EvRetryScheduled, worker, Some(token), RetryPlan(error, attempts, backoff));
      OnlyRow(id);
    }

    method ExpireLease(now: Instant, id: Id, attempts: nat, maxAttempts: Int32) returns (reply: Reply)
      requires Valid()
      modifies this
      ensures Valid()
      ensures Outcome(Abs(), reply) == ExecExpire(old(Abs()), now, id, attempts, maxAttempts)
    {
      var logged := AppendEvent(now, id, EvLeaseExpired, "", None, Attempt(attempts));
      if !logged {
        return DbError;
      }
      leases := leases - {id};
      if attempts >= maxAttempts {
        executions := executions[id := executions[id].(status := Failed, error := Some(EXPIRED_TEXT))];
        logged := AppendEvent(now, id, EvFailed, "", None, Reason(EXPIRED_TEXT));
      } else {
        executions := executions[id := executions[id].(status := Ready)];
      }
      OnlyRow(id);
      assert RecordOf(id).exec == ExpireRow(old(RecordOf(id)), attempts, maxAttempts, now).exec;
      assert RecordOf(id).events == ExpireRow(old(RecordOf(id)), attempts, maxAttempts, now).events;
      assert RecordOf(id) == ExpireRow(old(RecordOf(id)), attempts, maxAttempts, now);
      reply := Done;
    }

    method PromoteRetry(now: Instant, id: Id) returns (reply: Reply)
      requires Valid()
      modifies this
      ensures Valid()
      ensures Outcome(Abs(), reply) == ExecPromote(old(Abs()), now, id)
    {
      if id in executions {
        executions := executions[id := executions[id].(status := Ready)];
      }
      retries := retries - {id};
      var logged := AppendEvent(now, id, EvReady, "", None, Reason(PROMOTED_TEXT));
      if !logged {
        return DbError;
      }
      OnlyRow(id);
      assert RecordOf(id) == PromoteRow(old(RecordOf(id)), now);
      reply := Done;
    }

    ghost predicate StaleNow(id: Id, now: Instant)
      reads this
    {
      id in executions && executions[id].status == Running && id in leases && leases[id].expires < now
    }

    /** The rows of the scheduler's first query. */
    method QueryStale(now: Instant) returns (stale: seq<Expired>)
      requires Valid()
      ensures EnumeratesStale(Abs(), now, stale)
      ensures |stale| == |StaleIds(Abs(), now)|
    {
      stale := [];
      var todo := executions.Keys;
      ghost var ids: seq<Id> := [];
      ghost var found: set<Id> := {};
      while todo != {}
        invariant todo <= executions.Keys
        invariant |stale| == |ids| == |found|
        invariant forall k :: 0 <= k < |ids| ==>
                    && StaleNow(ids[k], now)
                    && stale[k] == Expired(ids[k], executions[ids[k]].attempts, executions[ids[k]].maxAttempts)
        invariant forall k, m :: 0 <= k < m < |ids| ==> ids[k] != ids[m]
        invariant forall id :: id in ids <==> id in found
        invariant forall id :: id in found <==> id !in todo && StaleNow(id, now)
      {
        var id :| id in todo;
        todo := todo - {id};
        if executions[id].status == Running && id in leases && leases[id].expires < now {
          stale := stale + [Expired(id, executions[id].attempts, executions[id].maxAttempts)];
          ids := ids + [id];
          found := found + {id};
        }
      }
      StaleRowsAre(now, ids, stale);
      assert found == StaleIds(Abs(), now);
    }

    lemma StaleRowsAre(now: Instant, ids: seq<Id>, stale: seq<Expired>)
      requires Valid() && |stale| == |ids|
      requires forall k :: 0 <= k < |ids| ==>
                 && StaleNow(ids[k], now)
                 && stale[k] == Expired(ids[k], executions[ids[k]].attempts, executions[ids[k]].maxAttempts)
      requires forall k, m :: 0 <= k < m < |ids| ==> ids[k] != ids[m]
      requires forall id :: StaleNow(id, now) ==> id in ids
      ensures EnumeratesStale(Abs(), now, stale)
      ensures forall id :: id in StaleIds(Abs(), now) <==> StaleNow(id, now)
    {
      forall id
        ensures id in StaleIds(Abs(), now) <==> StaleNow(id, now)
      {
      }
      forall k | 0 <= k < |stale|
        ensures StaleEntry(Abs(), stale[k], now)
      {
        assert StaleNow(ids[k], now);
      }
      forall k, m | 0 <= k < m < |stale|
        ensures stale[k].id != stale[m].id
      {
        assert ids[k] != ids[m];
      }
      forall id | id in Abs().rows && IsStale(Abs().rows[id], now)
        ensures exists k :: 0 <= k < |stale| && stale[k].id == id
      {
        assert StaleNow(id, now);
        var k :| 0 <= k < |ids| && ids[k] == id;
        assert stale[k].id == id;
      }
    }

    /** The rows of its second query. */
    method QueryDue(now: Instant) returns (due: seq<Id>)
      requires Valid()
      ensures EnumeratesDue(Abs(), now, due)
      ensures |due| == |DueIds(Abs(), now)|
    {
      due := [];
      var todo := retries.Keys;
      ghost var found: set<Id> := {};
      while todo != {}
        invariant todo <= retries.Keys
        invariant |due| == |found|
        invariant forall id :: id in due <==> id in found
        invariant forall k, m :: 0 <= k < m < |due| ==> due[k] != due[m]
        invariant forall id :: id in found <==> id !in todo && id in retries && retries[id].at <= now
      {
        var id :| id in todo;
        todo := todo - {id};
        if retries[id].at <= now {
          due := due + [id];
          found := found + {id};
        }
      }
      assert found == DueIds(Abs(), now);
      forall k | 0 <= k < |due|
        ensures DueEntry(Abs(), due[k], now)
      {
        assert due[k] in found;
      }
    }

    method ReapAll(now: Instant, stale: seq<Expired>) returns (changed: nat)
      requires Valid() && EnumeratesStale(Abs(), now, stale)
      modifies this
      ensures Valid() && Abs() == ReapedDb(old(Abs()), now) && changed == |stale|
    {
      changed := 0;
      ghost var before := Abs();
      for n := 0 to |stale|
        invariant Valid() && changed == n
        invariant Abs() == AfterReaping(before, now, stale[..n])
      {
        assert stale[..n + 1][..n] == stale[..n];
        var reply := ExpireLease(now, stale[n].id, stale[n].attempts, stale[n].maxAttempts);
        changed := changed + 1;
      }
      assert stale[..|stale|] == stale;
      ReapingIsReapedDb(before, now, stale);
    }

    method PromoteAll(now: Instant, due: seq<Id>) returns (changed: nat)
      requires Valid() && EnumeratesDue(Abs(), now, due)
      modifies this
      ensures Valid() && Abs() == PromotedDb(old(Abs()), now) && changed == |due|
    {
      changed := 0;
      ghost var before := Abs();
      for n := 0 to |due|
        invariant Valid() && changed == n
        invariant Abs() == AfterPromoting(before, now, due[..n])
      {
        assert due[..n + 1][..n] == due[..n];
        var reply := PromoteRetry(now, due[n]);
        changed := changed + 1;
      }
      assert due[..|due|] == due;
      PromotingIsPromotedDb(before, now, due);
    }

    /** One pass in which nothing else happens between the transactions. */
    method RunSchedulerPass(now: Instant) returns (changed: nat)
      requires Valid()
      modifies this
      ensures Valid()
      ensures Abs() == PassDb(old(Abs()), now)
      ensures changed == |StaleIds(old(Abs()), now)| + |DueIds(old(Abs()), now)|
    {
      var stale := QueryStale(now);
      var reaped := ReapAll(now, stale);
      DueAfterReaping(old(Abs()), now);
      var due := QueryDue(now);
      var promoted := PromoteAll(now, due);
      changed := reaped + promoted;
    }

    // ----- views -----

    /** SELECT ... WHERE execution_id = $1 ORDER BY occurred_at, id. */
    method ListEvents(id: Id) returns (list: seq<Event>)
      ensures list == SortByTime(EventsOf(events, id))
      ensures InOrder(list) && multiset(list) == multiset(EventsOf(events, id))
      ensures forall t :: EventsAt(list, t) == EventsAt(EventsOf(events, id), t)
    {
      list := [];
      for n := 0 to |events|
        invariant list == SortByTime(EventsOf(events[..n], id))
      {
        assert events[..n + 1] == events[..n] + [events[n]];
        EventsOfAppended(events[..n], events[n], id);
        if events[n].id == id {
          Appended(EventsOf(events[..n], id), events[n].event);
          list := InsertByTime(list, events[n].event);
        }
      }
      assert events[..|events|] == events;
      SortedStably(EventsOf(events, id));
    }

    method Stats(now: Instant) returns (stats: Stats)
      requires Valid()
      ensures stats == StatsOf(Abs(), now)
    {
      var ready := CountStatus(Ready);
      var running := CountStatus(Running);
      var completed := CountStatus(Completed);
      var failed := CountStatus(Failed);
      var active := set id | id in leases && leases[id].expires > now;
      assert active == LiveLeases(Abs(), now);
      assert Abs().rows.Keys == executions.Keys;
      assert |Abs().rows| == |Abs().rows.Keys| && |executions| == |executions.Keys|;
      stats := Totals(|executions|, ready, running, completed, failed, |active|);
    }

    /** count(*) FILTER (WHERE status = ...). */
    method CountStatus(status: Status) returns (count: nat)
      ensures count == |WithStatus(Abs(), status)|
    {
      var matching := set id | id in executions && executions[id].status == status;
      assert matching == WithStatus(Abs(), status);
      count := |matching|;
    }

    /** GROUP BY worker_id over the live leases; the order of the groups is left open. */
    method ListWorkers(now: Instant) returns (workers: seq<WorkerInfo>)
      requires Valid()
      ensures WorkersAgree(Abs(), now, workers)
    {
      workers := [];
      var live := set id | id in leases && leases[id].expires > now;
      var todo := live;
      ghost var names: seq<string> := [];
      assert live == LiveLeases(Abs(), now);
      while todo != {}
        invariant todo <= live && |names| == |workers|
        invariant forall k :: 0 <= k < |workers| ==>
                    workers[k].worker == names[k] && 0 < workers[k].claimed == |LeasesOf(Abs(), now, names[k])|
        invariant forall k, m :: 0 <= k < m < |names| ==> names[k] != names[m]
        invariant forall id :: id in live ==> (id in todo <==> leases[id].worker !in names)
      {
        var first :| first in todo;
        var worker := leases[first].worker;
        var group := LiveOf(now, worker);
        assert first in group;
        workers := workers + [WorkerInfo(worker, |group|)];
        names := names + [worker];
        todo := todo - group;
      }
      WorkersAre(now, live, names, workers);
    }

    method LiveOf(now: Instant, worker: string) returns (group: set<Id>)
      requires Valid()
      ensures group == LeasesOf(Abs(), now, worker)
      ensures forall id :: id in group <==> id in leases && leases[id].expires > now && leases[id].worker == worker
    {
      group := set id | id in leases && leases[id].expires > now && leases[id].worker == worker;
    }

    lemma WorkersAre(now: Instant, live: set<Id>, names: seq<string>, workers: seq<WorkerInfo>)
      requires Valid() && live == LiveLeases(Abs(), now) && |names| == |workers|
      requires forall id :: id in live ==> id in leases && leases[id].worker in names
      requires forall k :: 0 <= k < |workers| ==>
                 workers[k].worker == names[k] && 0 < workers[k].claimed == |LeasesOf(Abs(), now, names[k])|
      requires forall k, m :: 0 <= k < m < |names| ==> names[k] != names[m]
      ensures WorkersAgree(Abs(), now, workers)
    {
    }
  }
}
