/** Fencing, proved for every run: arbitrary caller-chosen tokens, any number of schedulers. */
module Fencing {
  import opened Types
  import opened EventLog
  import opened Rows
  import opened Database

  // ----- one history -----

  /** A claim's token exceeds every token logged before it; a heartbeat or a report carries the
      token of the latest claim, on which no report was accepted yet. */
  ghost predicate FencedAt(es: seq<Event>, k: nat)
    requires k < |es|
  {
    if es[k].kind == EvClaimed then
      es[k].token.Some? && forall i :: 0 <= i < k && es[i].token.Some? ==> es[i].token.value < es[k].token.value
    else if es[k].kind == EvHeartbeat || IsReport(es[k]) then
      es[k].token.Some? && Owner(es[..k]) == es[k].token
    else
      true
  }

  ghost predicate Fenced(es: seq<Event>) {
    forall k :: 0 <= k < |es| ==> FencedAt(es, k)
  }

  ghost predicate FencedRow(r: Record) {
    Fenced(r.events) && (r.lease.Some? ==> Owner(r.events) == Some(r.lease.value.token))
  }

  lemma FencedAppend(es: seq<Event>, e: Event)
    requires Fenced(es) && FencedAt(es + [e], |es|)
    ensures Fenced(es + [e])
  {
    forall k | 0 <= k < |es|
      ensures FencedAt(es + [e], k)
    {
      assert FencedAt(es, k);
      assert (es + [e])[..k] == es[..k];
    }
  }

  /** The token that Claim computes is above every token in the history. */
  lemma FreshTokenIsFresh(r: Record)
    requires TokenAvailable(r)
    ensures forall i :: 0 <= i < |r.events| && r.events[i].token.Some? ==> r.events[i].token.value < FreshToken(r)
  {
    forall i | 0 <= i < |r.events| && r.events[i].token.Some?
      ensures r.events[i].token.value < FreshToken(r)
    {
      MaxTokenBounds(r.events, i);
    }
  }

  lemma FencedStep(r: Record, op: RowOp, now: Instant)
    requires FencedRow(r)
    ensures FencedRow(Apply(r, op, now))
    ensures r.events <= Apply(r, op, now).events
  {
    var r' := Apply(r, op, now);
    if |r'.events| == |r.events| + 1 {
      var e := r'.events[|r.events|];
      assert r'.events == r.events + [e];
      Appended(r.events, e);
      assert (r.events + [e])[..|r.events|] == r.events;
      if op.OpClaim? {
        FreshTokenIsFresh(r);
      }
      FencedAppend(r.events, e);
    } else if op.OpExpire? {
      var e, f := r'.events[|r.events|], r'.events[|r.events| + 1];
      assert r'.events == r.events + [e] + [f];
      FencedAppend(r.events, e);
      FencedAppend(r.events + [e], f);
    }
  }

  /** If a history has an owner, its token comes from a claim after which nobody claimed and
      no report was accepted. */
  lemma {:induction false} OwnerIsLatestClaim(es: seq<Event>) returns (c: nat)
    requires Owner(es).Some?
    ensures c < |es| && es[c].kind == EvClaimed && es[c].token == Owner(es)
    ensures forall k :: c < k < |es| ==> es[k].kind != EvClaimed && !IsReport(es[k])
  {
    if Last(es).kind == EvClaimed {
      c := |es| - 1;
    } else {
      c := OwnerIsLatestClaim(Front(es));
      forall k | c < k < |es|
        ensures es[k].kind != EvClaimed && !IsReport(es[k])
      {
        if k < |es| - 1 {
          assert es[k] == Front(es)[k];
        }
      }
    }
  }

  /** No two accepted reports in a fenced history carry the same token. */
  lemma ReportsDiffer(es: seq<Event>, i: nat, j: nat)
    requires Fenced(es) && i < j < |es| && IsReport(es[i]) && IsReport(es[j])
    ensures es[i].token.Some? && es[j].token.Some? && es[i].token.value < es[j].token.value
  {
    assert FencedAt(es, i) && FencedAt(es, j);
    assert es[..j][i] == es[i];
    var c := OwnerIsLatestClaim(es[..j]);
    assert es[c] == es[..j][c] && FencedAt(es, c);
  }

  // ----- all runs -----

  lemma {:induction false} FencedAlways(run: Run, j: nat, id: Id)
    requires run.Valid() && j <= |run.steps| && id in run.dbs[j].rows
    ensures FencedRow(run.dbs[j].rows[id])
    decreases j
  {
    if j > 0 {
      var db, step := run.dbs[j - 1], run.steps[j - 1];
      RowAt(run, j - 1, id);
      if id in db.rows {
        FencedAlways(run, j - 1, id);
        FencedStep(db.rows[id], Local(db, step.tx, id), step.at);
      }
    }
  }

  /** The event log is append-only. */
  lemma {:induction false} HistoryGrows(run: Run, i: nat, j: nat, id: Id)
    requires run.Valid() && i <= j <= |run.steps| && id in run.dbs[i].rows
    ensures id in run.dbs[j].rows && run.dbs[i].rows[id].events <= run.dbs[j].rows[id].events
    decreases j
  {
    if i < j {
      HistoryGrows(run, i, j - 1, id);
      var db, step := run.dbs[j - 1], run.steps[j - 1];
      RowAt(run, j - 1, id);
      FencedAlways(run, j - 1, id);
      FencedStep(db.rows[id], Local(db, step.tx, id), step.at);
    }
  }

  // ----- what a run's replies say -----

  ghost predicate ClaimedAt(run: Run, i: nat, id: Id, token: Int64)
    requires run.Valid()
  {
    i < |run.steps| && run.Reply(i).Claimed? && run.Reply(i).claim.id == id && run.Reply(i).claim.token == token
  }

  /** Step i is a Complete or Fail of id with the given token, and it is answered thus. */
  ghost predicate ReportedAt(run: Run, i: nat, id: Id, token: Int64, reply: Reply)
    requires run.Valid()
  {
    && i < |run.steps| && run.Reply(i) == reply
    && (run.steps[i].tx.Complete? || run.steps[i].tx.Fail?)
    && run.steps[i].tx.id == id && run.steps[i].tx.token == token
  }

  ghost predicate HeartbeatAt(run: Run, i: nat, id: Id, token: Int64, reply: Reply)
    requires run.Valid()
  {
    && i < |run.steps| && run.Reply(i) == reply
    && run.steps[i].tx.Heartbeat? && run.steps[i].tx.id == id && run.steps[i].tx.token == token
  }

  ghost predicate AcceptedAt(run: Run, i: nat, id: Id, token: Int64)
    requires run.Valid()
  {
    ReportedAt(run, i, id, token, Done) || HeartbeatAt(run, i, id, token, Done)
  }

  /** The event a successful operation leaves behind, at the end of the history of its time. */
  ghost predicate Logged(run: Run, i: nat, id: Id, e: Event)
    requires run.Valid() && i < |run.steps|
  {
    && id in run.dbs[i].rows && id in run.dbs[i + 1].rows
    && run.dbs[i + 1].rows[id].events == run.dbs[i].rows[id].events + [e]
  }

  lemma ClaimIsLogged(run: Run, i: nat, id: Id, token: Int64) returns (e: Event)
    requires run.Valid() && ClaimedAt(run, i, id, token)
    ensures Logged(run, i, id, e) && e.kind == EvClaimed && e.token == Some(token)
  {
    assert run.Follows(i);
    var es := run.dbs[i + 1].rows[id].events;
    e := es[|es| - 1];
  }

  lemma AcceptanceIsLogged(run: Run, i: nat, id: Id, token: Int64) returns (e: Event)
    requires run.Valid() && AcceptedAt(run, i, id, token)
    ensures Logged(run, i, id, e) && e.token == Some(token)
    ensures ReportedAt(run, i, id, token, Done) ==> IsReport(e)
    ensures HeartbeatAt(run, i, id, token, Done) ==> e.kind == EvHeartbeat
  {
    assert run.Follows(i);
    var es := run.dbs[i + 1].rows[id].events;
    e := es[|es| - 1];
  }

  /** An event logged at step i keeps its place in every later history. */
  lemma LoggedStays(run: Run, i: nat, j: nat, id: Id, e: Event)
    requires run.Valid() && i < j <= |run.steps| && Logged(run, i, id, e)
    ensures id in run.dbs[j].rows
    ensures var at, es := |run.dbs[i].rows[id].events|, run.dbs[j].rows[id].events;
      at < |es| && es[at] == e
  {
    HistoryGrows(run, i + 1, j, id);
  }

  /** Successive claims of one execution return strictly increasing tokens. */
  lemma TokensIncrease(run: Run, i: nat, j: nat, id: Id, t: Int64, u: Int64)
    requires run.Valid() && i < j && ClaimedAt(run, i, id, t) && ClaimedAt(run, j, id, u)
    ensures t < u
  {
    var e := ClaimIsLogged(run, i, id, t);
    var f := ClaimIsLogged(run, j, id, u);
    LoggedStays(run, i, j, id, e);
    FencedAlways(run, j + 1, id);
    var p, q := |run.dbs[i].rows[id].events|, |run.dbs[j].rows[id].events|;
    var es := run.dbs[j + 1].rows[id].events;
    assert es[p] == e && es[q] == f && FencedAt(es, q);
  }

  /** Each token has at most one accepted Complete or Fail in the whole run. */
  lemma OneReportPerToken(run: Run, i: nat, j: nat, id: Id, t: Int64, u: Int64)
    requires run.Valid() && i < j && ReportedAt(run, i, id, t, Done) && ReportedAt(run, j, id, u, Done)
    ensures t < u
  {
    var e := AcceptanceIsLogged(run, i, id, t);
    var f := AcceptanceIsLogged(run, j, id, u);
    LoggedStays(run, i, j, id, e);
    FencedAlways(run, j + 1, id);
    var p, q := |run.dbs[i].rows[id].events|, |run.dbs[j].rows[id].events|;
    var es := run.dbs[j + 1].rows[id].events;
    assert es[p] == e && es[q] == f;
    ReportsDiffer(es, p, q);
  }

  /** Whoever holds the lease of id before step j got its token from a claim in this run, and
      nobody has claimed id since. */
  lemma {:induction false} LeaseComesFromLatestClaim(run: Run, j: nat, id: Id) returns (c: nat)
    requires run.Valid() && j <= |run.steps| && id in run.dbs[j].rows && run.dbs[j].rows[id].lease.Some?
    ensures c < j && ClaimedAt(run, c, id, run.dbs[j].rows[id].lease.value.token)
    ensures forall k, u :: c < k < j ==> !ClaimedAt(run, k, id, u)
    decreases j
  {
    if IsClaimOf(run, j - 1, id) {
      c := j - 1;
      ClaimGivesLease(run, c, id);
    } else {
      LeaseKept(run, j - 1, id);
      c := LeaseComesFromLatestClaim(run, j - 1, id);
    }
  }

  ghost predicate IsClaimOf(run: Run, i: nat, id: Id)
    requires run.Valid()
  {
    i < |run.steps| && run.Reply(i).Claimed? && run.Reply(i).claim.id == id
  }

  lemma ClaimGivesLease(run: Run, i: nat, id: Id)
    requires run.Valid() && IsClaimOf(run, i, id)
    ensures id in run.dbs[i].rows && id in run.dbs[i + 1].rows
    ensures run.steps[i].tx.Claim?
    ensures var tx := run.steps[i].tx;
      run.dbs[i + 1].rows[id].lease ==
        Some(Lease(tx.worker, run.Reply(i).claim.token, run.steps[i].at + tx.leaseSeconds * SECOND))
  {
    assert run.Follows(i);
  }

  /** Nothing but a claim creates a lease or changes its token; only heartbeats move its expiry. */
  lemma LeaseKept(run: Run, i: nat, id: Id)
    requires run.Valid() && i < |run.steps| && !IsClaimOf(run, i, id)
    requires id in run.dbs[i + 1].rows && run.dbs[i + 1].rows[id].lease.Some?
    ensures id in run.dbs[i].rows && run.dbs[i].rows[id].lease.Some?
    ensures var l, l' := run.dbs[i].rows[id].lease.value, run.dbs[i + 1].rows[id].lease.value;
      && l'.token == l.token
      && (l' == l || (HeartbeatAt(run, i, id, l.token, Done)
                      && l'.expires == run.steps[i].at + run.steps[i].tx.leaseSeconds * SECOND))
  {
    assert run.Follows(i);
    RowAt(run, i, id);
  }

  /** Every accepted Heartbeat, Complete or Fail presented the token of the latest claim. */
  lemma AcceptedPresentsLatestClaim(run: Run, j: nat, id: Id, token: Int64) returns (c: nat)
    requires run.Valid() && AcceptedAt(run, j, id, token)
    ensures c < j && ClaimedAt(run, c, id, token)
    ensures forall k, u :: c < k < j ==> !ClaimedAt(run, k, id, u)
  {
    c := LeaseComesFromLatestClaim(run, j, id);
  }

  // ----- rejected once, rejected forever -----

  /** The token is spent: some logged token is at least as large, and it holds no live lease. */
  ghost predicate Spent(r: Record, token: Int64, now: Instant) {
    MaxToken(r.events).Some? && token <= MaxToken(r.events).value && !Holds(r, token, now)
  }

  lemma MaxTokenGrows(r: Record, op: RowOp, now: Instant)
    requires MaxToken(r.events).Some?
    ensures var m := MaxToken(Apply(r, op, now).events); m.Some? && MaxToken(r.events).value <= m.value
  {
  }

  lemma SpentStep(r: Record, op: RowOp, token: Int64, before: Instant, now: Instant)
    requires Spent(r, token, before) && before <= now
    ensures Spent(Apply(r, op, now), token, now)
  {
    MaxTokenGrows(r, op, now);
    SpentIsNotHeld(r, op, token, before, now);
  }

  lemma SpentIsNotHeld(r: Record, op: RowOp, token: Int64, before: Instant, now: Instant)
    requires Spent(r, token, before) && before <= now
    ensures !Holds(Apply(r, op, now), token, now)
  {
  }

  lemma {:induction false} SpentForever(run: Run, i: nat, j: nat, id: Id, token: Int64)
    requires run.Valid() && i < j < |run.steps|
    requires id in run.dbs[i + 1].rows && Spent(run.dbs[i + 1].rows[id], token, run.steps[i].at)
    ensures id in run.dbs[j].rows && Spent(run.dbs[j].rows[id], token, run.steps[j].at)
    decreases j
  {
    if i + 1 < j {
      SpentForever(run, i, j - 1, id, token);
      var db, step := run.dbs[j - 1], run.steps[j - 1];
      RowAt(run, j - 1, id);
      SpentStep(db.rows[id], Local(db, step.tx, id), token, step.at, step.at);
    }
  }

  /** After a Complete or Fail is answered with ErrStale, its token is never accepted again. */
  lemma RejectedForever(run: Run, i: nat, j: nat, id: Id, token: Int64)
    requires run.Valid() && i < j && ReportedAt(run, i, id, token, Stale)
    ensures !AcceptedAt(run, j, id, token)
  {
    if AcceptedAt(run, j, id, token) {
      assert run.Follows(i);
      var r' := run.dbs[i + 1].rows[id];
      MaxTokenBounds(r'.events, |r'.events| - 1);
      SpentForever(run, i, j, id, token);
    }
  }

  /** A rejected Heartbeat logs nothing. It is final, for any number of schedulers, if the log
      already holds a token at least as large. */
  lemma RejectedHeartbeatIsFinal(run: Run, i: nat, j: nat, id: Id, token: Int64)
    requires run.Valid() && i < j && HeartbeatAt(run, i, id, token, Stale) && id in run.dbs[i].rows
    requires MaxToken(run.dbs[i].rows[id].events).Some? && token <= MaxToken(run.dbs[i].rows[id].events).value
    ensures !AcceptedAt(run, j, id, token)
  {
    if AcceptedAt(run, j, id, token) {
      assert run.Follows(i);
      SpentForever(run, i, j, id, token);
    }
  }

  // ----- which reports are rejected -----

  /** The claim of id that comes last before step i. */
  ghost predicate IsLatestClaim(run: Run, c: nat, i: nat, id: Id, token: Int64)
    requires run.Valid()
  {
    c < i && ClaimedAt(run, c, id, token) && forall k, u :: c < k < i ==> !ClaimedAt(run, k, id, u)
  }

  /** Some claim handed out a larger token. */
  ghost predicate IsSuperseded(run: Run, i: nat, id: Id, token: Int64)
    requires run.Valid()
  {
    exists c: nat, u: Int64 :: c < i && ClaimedAt(run, c, id, u) && token < u
  }

  ghost predicate WasClaimed(run: Run, i: nat, id: Id, token: Int64)
    requires run.Valid()
  {
    exists c: nat :: c < i && ClaimedAt(run, c, id, token)
  }

  /** The token is the latest one, but its lease has ended or run out. */
  ghost predicate HasLapsed(run: Run, i: nat, id: Id, token: Int64)
    requires run.Valid() && i < |run.steps| && id in run.dbs[i].rows
  {
    var lease := run.dbs[i].rows[id].lease;
    && (exists c :: IsLatestClaim(run, c, i, id, token))
    && (lease.None? || (lease.value.token == token && lease.value.expires <= run.steps[i].at))
  }

  lemma HeldIsLatest(run: Run, i: nat, id: Id, token: Int64)
    requires run.Valid() && i < |run.steps| && id in run.dbs[i].rows && run.dbs[i].rows[id].lease.Some?
    requires run.dbs[i].rows[id].lease.value.token == token
    ensures exists c :: IsLatestClaim(run, c, i, id, token)
  {
    var c := LeaseComesFromLatestClaim(run, i, id);
    assert IsLatestClaim(run, c, i, id, token);
  }

  /** Of two claims that both come last, both handed out the same token. */
  lemma LatestIsUnique(run: Run, c: nat, d: nat, i: nat, id: Id, t: Int64, u: Int64)
    requires run.Valid() && IsLatestClaim(run, c, i, id, t) && IsLatestClaim(run, d, i, id, u)
    ensures t == u
  {
  }

  lemma LatestIsNotSuperseded(run: Run, c: nat, i: nat, id: Id, token: Int64)
    requires run.Valid() && IsLatestClaim(run, c, i, id, token)
    ensures !IsSuperseded(run, i, id, token)
  {
    forall d: nat, u: Int64 | d < i && ClaimedAt(run, d, id, u)
      ensures u <= token
    {
      if d < c {
        TokensIncrease(run, d, c, id, u, token);
      }
    }
  }

  lemma ClaimedTokenIsLatestOrSuperseded(run: Run, c: nat, i: nat, id: Id, token: Int64)
    requires run.Valid() && c < i && ClaimedAt(run, c, id, token)
    ensures IsLatestClaim(run, c, i, id, token) || IsSuperseded(run, i, id, token)
  {
    if k, u :| c < k < i && ClaimedAt(run, k, id, u) {
      TokensIncrease(run, c, k, id, token, u);
    }
  }

  lemma NotHeldIff(run: Run, i: nat, id: Id, token: Int64)
    requires run.Valid() && i < |run.steps| && id in run.dbs[i].rows
    ensures !Holds(run.dbs[i].rows[id], token, run.steps[i].at) <==>
            !WasClaimed(run, i, id, token) || IsSuperseded(run, i, id, token) || HasLapsed(run, i, id, token)
  {
    var lease := run.dbs[i].rows[id].lease;
    if Holds(run.dbs[i].rows[id], token, run.steps[i].at) {
      HeldIsLatest(run, i, id, token);
      var c :| IsLatestClaim(run, c, i, id, token);
      LatestIsNotSuperseded(run, c, i, id, token);
    } else if WasClaimed(run, i, id, token) && !IsSuperseded(run, i, id, token) {
      var c: nat :| c < i && ClaimedAt(run, c, id, token);
      ClaimedTokenIsLatestOrSuperseded(run, c, i, id, token);
      if lease.Some? {
        HeldIsLatest(run, i, id, lease.value.token);
        var d :| IsLatestClaim(run, d, i, id, lease.value.token);
        LatestIsUnique(run, c, d, i, id, token, lease.value.token);
      }
    }
  }

  /** A Complete or Fail is rejected exactly if no claim ever returned its token, or a later claim
      returned a larger one, or its token is the latest and the lease has ended or run out. */
  lemma RejectedReportIff(run: Run, i: nat, id: Id, token: Int64)
    requires run.Valid() && i < |run.steps| && id in run.dbs[i].rows
    requires run.steps[i].tx.Complete? || run.steps[i].tx.Fail?
    requires run.steps[i].tx.id == id && run.steps[i].tx.token == token
    ensures ReportedAt(run, i, id, token, Stale) <==>
            !WasClaimed(run, i, id, token) || IsSuperseded(run, i, id, token) || HasLapsed(run, i, id, token)
  {
    assert run.Follows(i);
    NotHeldIff(run, i, id, token);
  }

  // ----- acceptance implies recency -----

  /** Step i grants the token a lease of the given length: a claim or an accepted heartbeat. */
  ghost predicate Granted(run: Run, i: nat, id: Id, token: Int64, leaseSeconds: int)
    requires run.Valid()
  {
    && (ClaimedAt(run, i, id, token) || HeartbeatAt(run, i, id, token, Done))
    && leaseSeconds == (if run.steps[i].tx.Claim? then run.steps[i].tx.leaseSeconds else
                        if run.steps[i].tx.Heartbeat? then run.steps[i].tx.leaseSeconds else 0)
  }

  lemma {:induction false} LeaseWasGranted(run: Run, j: nat, id: Id) returns (g: nat, secs: int)
    requires run.Valid() && j <= |run.steps| && id in run.dbs[j].rows && run.dbs[j].rows[id].lease.Some?
    ensures var lease := run.dbs[j].rows[id].lease.value;
      g < j && Granted(run, g, id, lease.token, secs) && lease.expires == run.steps[g].at + secs * SECOND
    decreases j
  {
    if IsClaimOf(run, j - 1, id) {
      g := j - 1;
      ClaimGivesLease(run, g, id);
      secs := run.steps[g].tx.leaseSeconds;
    } else {
      LeaseKept(run, j - 1, id);
      var token := run.dbs[j].rows[id].lease.value.token;
      if run.dbs[j].rows[id].lease == run.dbs[j - 1].rows[id].lease {
        g, secs := LeaseWasGranted(run, j - 1, id);
      } else {
        g := j - 1;
        secs := run.steps[g].tx.leaseSeconds;
      }
    }
  }

  /** Any Heartbeat, Complete or Fail accepted at time T with a token was preceded by a claim or
      accepted heartbeat with that token, at a time T' with T < T' + its lease length. */
  lemma AcceptanceIsRecent(run: Run, j: nat, id: Id, token: Int64) returns (g: nat, secs: int)
    requires run.Valid() && AcceptedAt(run, j, id, token)
    ensures g < j && Granted(run, g, id, token, secs)
    ensures run.steps[j].at < run.steps[g].at + secs * SECOND
  {
    g, secs := LeaseWasGranted(run, j, id);
  }

  /** So an abandoned claim is rejected from its expiry on, whether or not anybody reaped it. */
  lemma AbandonedClaimIsRejected(run: Run, i: nat, j: nat, id: Id, token: Int64)
    requires run.Valid() && i < j && ClaimedAt(run, i, id, token)
    requires forall k :: i < k < j ==> !HeartbeatAt(run, k, id, token, Done)
    requires j < |run.steps| && run.steps[j].at >= run.steps[i].at + run.steps[i].tx.leaseSeconds * SECOND
    ensures !AcceptedAt(run, j, id, token)
  {
    if AcceptedAt(run, j, id, token) {
      var g, secs := AcceptanceIsRecent(run, j, id, token);
      if ClaimedAt(run, g, id, token) {
        if g < i {
          TokensIncrease(run, g, i, id, token, token);
        } else if i < g {
          TokensIncrease(run, i, g, id, token, token);
        }
      } else if g < i {
        var c := AcceptedPresentsLatestClaim(run, g, id, token);
        TokensIncrease(run, c, i, id, token, token);
      }
    }
  }
}
