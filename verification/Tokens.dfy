/** Honest runs: when workers only report with tokens that a claim handed to them, tokens are
    dense. */
module Tokens {
  import opened Types
  import opened EventLog
  import opened Rows
  import opened Coupling
  import opened Database
  import opened Scheduler
  import opened Fencing

  /** Some earlier claim of this execution returned the token. */
  ghost predicate WasIssued(r: Record, token: Int64) {
    exists i :: 0 <= i < |r.events| && r.events[i].kind == EvClaimed && r.events[i].token == Some(token)
  }

  ghost predicate HonestOp(r: Record, op: RowOp) {
    match op
    case OpComplete(token, _, _) => WasIssued(r, token)
    case OpFail(token, _, _) => WasIssued(r, token)
    case _ => true
  }

  /** The k-th claim logged the token k. */
  ghost predicate ClaimsNumbered(es: seq<Event>) {
    forall k :: 0 <= k < |es| && es[k].kind == EvClaimed ==>
      && es[k].token.Some?
      && es[k].token.value == Count(es[..k], EvClaimed) + 1
      && es[k].payload == Attempt(es[k].token.value)
  }

  /** The k-th claim logged the token k, and no larger token was ever logged. */
  ghost predicate Dense(r: Record) {
    MaxToken(r.events).GetOr(0) == r.exec.attempts && ClaimsNumbered(r.events)
  }

  function Larger(m: Option<Int64>, t: Int64): Option<Int64> {
    if m.Some? && m.value >= t then m else Some(t)
  }

  /** Besides claims only presented tokens enter the log, accepted or not. */
  lemma MaxTokenStep(r: Record, op: RowOp, now: Instant)
    ensures MaxToken(Apply(r, op, now).events) ==
      match op {
        case OpClaim(_, _) => if TokenAvailable(r) then Some(FreshToken(r)) else MaxToken(r.events)
        case OpHeartbeat(t, _) => if Holds(r, t, now) then Larger(MaxToken(r.events), t) else MaxToken(r.events)
        case OpComplete(t, _, _) => Larger(MaxToken(r.events), t)
        case OpFail(t, _, _) => Larger(MaxToken(r.events), t)
        case _ => MaxToken(r.events)
      }
  {
  }

  lemma IssuedIsBounded(r: Record, token: Int64)
    requires WasIssued(r, token)
    ensures Larger(MaxToken(r.events), token) == MaxToken(r.events)
  {
    var i :| 0 <= i < |r.events| && r.events[i].kind == EvClaimed && r.events[i].token == Some(token);
    MaxTokenBounds(r.events, i);
  }

  lemma HonestMaxToken(r: Record, op: RowOp, now: Instant)
    requires Dense(r) && FencedRow(r) && HonestOp(r, op)
    ensures MaxToken(Apply(r, op, now).events).GetOr(0) == Apply(r, op, now).exec.attempts
  {
    MaxTokenStep(r, op, now);
    match op
    case OpHeartbeat(token, _) =>
      if Holds(r, token, now) {
        var c := OwnerIsLatestClaim(r.events);
        IssuedIsBounded(r, token);
      }
    case OpComplete(token, _, _) => IssuedIsBounded(r, token);
    case OpFail(token, _, _) => IssuedIsBounded(r, token);
    case _ =>
  }

  lemma NumberedAppend(es: seq<Event>, e: Event)
    requires ClaimsNumbered(es)
    requires e.kind == EvClaimed ==>
      e.token.Some? && e.token.value == Count(es, EvClaimed) + 1 && e.payload == Attempt(e.token.value)
    ensures ClaimsNumbered(es + [e])
  {
    forall k | 0 <= k < |es|
      ensures (es + [e])[..k] == es[..k]
    {
    }
    assert (es + [e])[..|es|] == es;
  }

  lemma DenseStep(r: Record, op: RowOp, now: Instant)
    requires Dense(r) && FencedRow(r) && HonestOp(r, op) && r.exec.attempts == Count(r.events, EvClaimed)
    ensures Dense(Apply(r, op, now))
  {
    HonestMaxToken(r, op, now);
    var r' := Apply(r, op, now);
    if r'.events != r.events {
      var es, e := Extended(r, op, now);
      if es != r.events {
        assert Last(es) == r'.events[|r.events|];
        NumberedAppend(r.events, Last(es));
      }
      NumberedAppend(es, e);
    }
  }

  ghost predicate HonestRun(run: Run, id: Id) {
    forall i :: 0 <= i < |run.steps| && i < |run.dbs| && id in run.dbs[i].rows ==>
      HonestOp(run.dbs[i].rows[id], Local(run.dbs[i], run.steps[i].tx, id))
  }

  ghost predicate DenseAndCounted(r: Record) {
    Dense(r) && r.exec.attempts == Count(r.events, EvClaimed)
  }

  lemma SubmittedIsDense(key: CallKey, args: Json, maxAttempts: Int32, now: Instant)
    ensures DenseAndCounted(SubmitRow(key, args, maxAttempts, now))
  {
    var es := SubmitRow(key, args, maxAttempts, now).events;
    assert es == [] + [es[0]] + [es[1]];
    Appended([], es[0]);
    Appended([] + [es[0]], es[1]);
    assert MaxToken([] + [es[0]]) == None;
  }

  lemma DenseRowStep(r: Record, op: RowOp, now: Instant, r': Record)
    requires DenseAndCounted(r) && FencedRow(r) && HonestOp(r, op) && r' == Apply(r, op, now)
    ensures DenseAndCounted(r')
  {
    DenseStep(r, op, now);
    ClaimsCounted(r, op, now);
  }

  lemma {:induction false} AlwaysDense(run: Run, j: nat, id: Id)
    requires run.Valid() && HonestRun(run, id) && j <= |run.steps| && id in run.dbs[j].rows
    ensures DenseAndCounted(run.dbs[j].rows[id])
    decreases j
  {
    if j > 0 {
      var db, step := run.dbs[j - 1], run.steps[j - 1];
      RowAt(run, j - 1, id);
      if id in db.rows {
        AlwaysDense(run, j - 1, id);
        FencedAlways(run, j - 1, id);
        DenseRowStep(db.rows[id], Local(db, step.tx, id), step.at, run.dbs[j].rows[id]);
      } else {
        var key, args, max :| run.dbs[j].rows[id] == SubmitRow(key, args, max, step.at);
        SubmittedIsDense(key, args, max, step.at);
      }
    }
  }

  lemma ClaimsCounted(r: Record, op: RowOp, now: Instant)
    requires r.exec.attempts == Count(r.events, EvClaimed)
    ensures Apply(r, op, now).exec.attempts == Count(Apply(r, op, now).events, EvClaimed)
  {
    CountsStep(r, op, now);
  }

  /** In an honest run the k-th claim of an execution is answered with token k, which is also the
      number of attempts made; with one scheduler it is at most the budget, so it never overflows. */
  lemma HonestTokensAreDense(s: Scheduled, j: nat, id: Id, token: Int64)
    requires s.Valid() && HonestRun(s.run, id) && ClaimedAt(s.run, j, id, token)
    ensures id in s.run.dbs[j].rows
    ensures token == Count(s.run.dbs[j].rows[id].events, EvClaimed) + 1
    ensures token == s.run.Reply(j).claim.attempts
    ensures token <= Budget(s.run.dbs[j].rows[id].exec)
  {
    AlwaysDense(s.run, j, id);
    AlwaysGuarded(s, j);
    assert Guarded(s.run.dbs[j].rows[id], Local(s.run.dbs[j], s.run.steps[j].tx, id), s.run.steps[j].at);
  }

  /** A claim of an honestly used row never fails for want of a token. */
  lemma HonestClaimSucceeds(s: Scheduled, j: nat)
    requires s.Valid() && j < |s.run.steps| && s.run.steps[j].tx.Claim? && s.run.steps[j].tx.pick.Some?
    requires HonestRun(s.run, s.run.steps[j].tx.pick.value)
    ensures s.run.Reply(j).Claimed?
  {
    var id := s.run.steps[j].tx.pick.value;
    assert s.run.Follows(j);
    assert IsReady(s.run.dbs[j], id);
    AlwaysDense(s.run, j, id);
    AlwaysGuarded(s, j);
  }

  /** Exactly when the largest BIGINT was ever logged for the ready row that Claim picks, the oldest,
      does it fail with work at hand. */
  lemma ClaimFailsIff(db: Db, now: Instant, id: Id, worker: string, secs: int)
    requires LegalPick(db, Some(id))
    ensures Exec(db, now, Claim(Some(id), worker, secs)).reply.Claimed? <==>
            forall k :: 0 <= k < |db.rows[id].events| && db.rows[id].events[k].token.Some? ==>
              db.rows[id].events[k].token.value < MAX_INT64
    ensures !Exec(db, now, Claim(Some(id), worker, secs)).reply.Claimed? ==>
            Exec(db, now, Claim(Some(id), worker, secs)) == Outcome(db, DbError)
  {
    var es := db.rows[id].events;
    if MaxToken(es).Some? {
      var k := MaxTokenIsLogged(es);
    }
    forall k | 0 <= k < |es| && es[k].token.Some?
      ensures MaxToken(es).Some? && es[k].token.value <= MaxToken(es).value
    {
      MaxTokenBounds(es, k);
    }
  }

  lemma {:induction false} MaxTokenIsLogged(es: seq<Event>) returns (k: nat)
    requires MaxToken(es).Some?
    ensures k < |es| && es[k].token == MaxToken(es)
  {
    if Last(es).token == MaxToken(es) {
      k := |es| - 1;
    } else {
      k := MaxTokenIsLogged(Front(es));
    }
  }
}
