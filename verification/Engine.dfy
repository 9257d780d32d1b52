/** The executor: it claims ready work, runs the tool's handler, and reports the outcome. */
module Engine {
  import opened Types
  import opened Durations
  import opened EventLog
  import opened Rows
  import opened Coupling
  import opened Database
  import opened Pass
  import opened Draining
  import Store

  /** How the work on one claim ends: the handler returns a result or an error, or the worker dies
      before it reports anything. */
  datatype Ending = Succeeds(result: Option<Json>) | Errs(error: string) | Vanishes

  /** A tick of the heartbeat's ticker; the heartbeat it triggers may be lost on the way. */
  datatype Tick = Tick(at: Instant, lost: bool)

  /** The row after the heartbeats of the given ticks, up to the first rejected one. */
  function Renewed(r: Record, token: Int64, secs: int, ticks: seq<Tick>): Record
    decreases ticks
  {
    if ticks == [] then r
    else if ticks[0].lost then Renewed(r, token, secs, ticks[1..])
    else if !Holds(r, token, ticks[0].at) then r
    else Renewed(HeartbeatRow(r, token, secs, ticks[0].at), token, secs, ticks[1..])
  }

  predicate LosesLease(r: Record, token: Int64, secs: int, ticks: seq<Tick>)
    decreases ticks
  {
    if ticks == [] then false
    else if ticks[0].lost then LosesLease(r, token, secs, ticks[1..])
    else !Holds(r, token, ticks[0].at) || LosesLease(HeartbeatRow(r, token, secs, ticks[0].at), token, secs, ticks[1..])
  }

  /** The latest expiry that the heartbeats sent so far have bought. */
  function ExpiryAfter(expires: Instant, secs: int, ticks: seq<Tick>): Instant {
    if ticks == [] then expires
    else
      var last := ticks[|ticks| - 1];
      if last.lost then ExpiryAfter(expires, secs, ticks[..|ticks| - 1]) else last.at + secs * SECOND
  }

  /** Some heartbeat that gets through comes at or after the expiry bought by the ones before. */
  ghost predicate TooLate(expires: Instant, secs: int, ticks: seq<Tick>) {
    exists n :: 0 <= n < |ticks| && LateAt(expires, secs, ticks, n)
  }

  predicate LateAt(expires: Instant, secs: int, ticks: seq<Tick>, n: nat)
    requires n < |ticks|
  {
    !ticks[n].lost && ticks[n].at >= ExpiryAfter(expires, secs, ticks[..n])
  }

  lemma TooLateSnoc(expires: Instant, secs: int, front: seq<Tick>, last: Tick)
    ensures TooLate(expires, secs, front + [last]) <==>
      TooLate(expires, secs, front) || (!last.lost && last.at >= ExpiryAfter(expires, secs, front))
  {
    var all := front + [last];
    assert all[..|front|] == front;
    forall n | 0 <= n < |front|
      ensures LateAt(expires, secs, all, n) <==> LateAt(expires, secs, front, n)
    {
      assert all[..n] == front[..n];
    }
    assert LateAt(expires, secs, all, |front|) <==> !last.lost && last.at >= ExpiryAfter(expires, secs, front);
  }

  /** A held lease is lost exactly when some heartbeat is too late; otherwise it ends up with the
      latest expiry bought, and nothing but the log has changed besides. */
  lemma {:induction false} RenewedUntil(r: Record, token: Int64, secs: int, ticks: seq<Tick>)
    requires r.lease.Some? && r.lease.value.token == token
    ensures LosesLease(r, token, secs, ticks) <==> TooLate(r.lease.value.expires, secs, ticks)
    ensures !LosesLease(r, token, secs, ticks) ==>
      var r' := Renewed(r, token, secs, ticks);
      && r'.lease == Some(r.lease.value.(expires := ExpiryAfter(r.lease.value.expires, secs, ticks)))
      && r'.exec == r.exec && r'.retry == r.retry
  {
    if ticks != [] {
      var front, last := ticks[..|ticks| - 1], ticks[|ticks| - 1];
      assert front + [last] == ticks;
      RenewedUntil(r, token, secs, front);
      RenewedSnoc(r, token, secs, front, last);
      TooLateSnoc(r.lease.value.expires, secs, front, last);
    }
  }

  lemma {:induction false} RenewedSnoc(r: Record, token: Int64, secs: int, front: seq<Tick>, last: Tick)
    ensures LosesLease(r, token, secs, front + [last]) <==>
      LosesLease(r, token, secs, front) || (!last.lost && !Holds(Renewed(r, token, secs, front), token, last.at))
    ensures !LosesLease(r, token, secs, front) ==>
      Renewed(r, token, secs, front + [last]) ==
        if last.lost then Renewed(r, token, secs, front)
        else HeartbeatRow(Renewed(r, token, secs, front), token, secs, last.at)
    decreases front
  {
    var all := front + [last];
    if front == [] {
      assert all[1..] == [];
    } else {
      assert all[1..] == front[1..] + [last];
      var next := if front[0].lost then r else HeartbeatRow(r, token, secs, front[0].at);
      RenewedSnoc(next, token, secs, front[1..], last);
    }
  }

  /** One heartbeat of a claimant, some time after the one before it. */
  datatype Beat = Beat(wait: nat, lost: bool)

  /** The work on one claim: its heartbeats, the time from the last of them to the end, and the end. */
  datatype Fate = Fate(beats: seq<Beat>, rest: nat, ending: Ending)

  /** The tables and the clock before a round of the executor's loop, and the fate of its claim. */
  datatype Mark = Mark(db: Db, at: Instant, met: Fate)

  function TicksOf(now: Instant, beats: seq<Beat>): seq<Tick>
    decreases beats
  {
    if beats == [] then []
    else [Tick(now + beats[0].wait, beats[0].lost)] + TicksOf(now + beats[0].wait, beats[1..])
  }

  function AfterBeats(now: Instant, beats: seq<Beat>): (later: Instant)
    ensures now <= later
    ensures forall n :: 0 <= n < |TicksOf(now, beats)| ==> now <= TicksOf(now, beats)[n].at <= later
    decreases beats
  {
    if beats == [] then now else AfterBeats(now + beats[0].wait, beats[1..])
  }

  /** Heartbeats of the claimant leave a fit row fit. */
  lemma {:induction false} RenewedRowIsFit(r: Record, token: Int64, secs: int, ticks: seq<Tick>)
    requires Fit(r) && MaxToken(r.events) == Some(token)
    ensures NoHarder(r, Renewed(r, token, secs, ticks))
    ensures MaxToken(Renewed(r, token, secs, ticks).events) == Some(token)
    decreases ticks
  {
    if ticks != [] {
      ReportedRowIsFit(r, ticks[0].at, token, OpHeartbeat(token, secs));
      if ticks[0].lost {
        RenewedRowIsFit(r, token, secs, ticks[1..]);
      } else if Holds(r, token, ticks[0].at) {
        RenewedRowIsFit(HeartbeatRow(r, token, secs, ticks[0].at), token, secs, ticks[1..]);
      }
    }
  }

  // ----- what the work on a claim leaves in its row -----

  /** The heartbeats only log themselves and move the end of the lease. */
  lemma {:induction false} RenewedKeeps(r: Record, token: Int64, secs: int, ticks: seq<Tick>, kind: EventType)
    requires kind != EvHeartbeat
    ensures var r' := Renewed(r, token, secs, ticks);
      && r'.exec == r.exec && r'.retry == r.retry && Count(r'.events, kind) == Count(r.events, kind)
      && HasToken(r', token) == HasToken(r, token)
    decreases ticks
  {
    if ticks != [] {
      var next := if ticks[0].lost then r else HeartbeatRow(r, token, secs, ticks[0].at);
      if next != r {
        Appended(r.events, next.events[|r.events|]);
      }
      if ticks[0].lost || Holds(r, token, ticks[0].at) {
        RenewedKeeps(next, token, secs, ticks[1..], kind);
      }
    }
  }

  predicate HasToken(r: Record, token: Int64) {
    r.lease.Some? && r.lease.value.token == token
  }

  /** A heartbeat gets through when the claim is not covered: too late, or another one owns the row. */
  ghost predicate IsCut(r: Record, token: Int64, secs: int, ticks: seq<Tick>) {
    if HasToken(r, token) then TooLate(r.lease.value.expires, secs, ticks)
    else exists n :: 0 <= n < |ticks| && !ticks[n].lost
  }

  lemma {:induction false} CutWithoutLease(r: Record, token: Int64, secs: int, ticks: seq<Tick>)
    requires !HasToken(r, token)
    ensures LosesLease(r, token, secs, ticks) <==> exists n :: 0 <= n < |ticks| && !ticks[n].lost
    ensures Renewed(r, token, secs, ticks) == r
    decreases ticks
  {
    if ticks != [] && ticks[0].lost {
      CutWithoutLease(r, token, secs, ticks[1..]);
      assert forall n :: 1 <= n < |ticks| ==> ticks[n] == ticks[1..][n - 1];
    }
  }

  lemma CutIff(r: Record, token: Int64, secs: int, ticks: seq<Tick>)
    ensures LosesLease(r, token, secs, ticks) <==> IsCut(r, token, secs, ticks)
  {
    if HasToken(r, token) {
      RenewedUntil(r, token, secs, ticks);
    } else {
      CutWithoutLease(r, token, secs, ticks);
    }
  }

  /** A lease that a heartbeat missed is not live any more. */
  lemma {:induction false} LostStaysLost(r: Record, token: Int64, secs: int, ticks: seq<Tick>, now: Instant)
    requires LosesLease(r, token, secs, ticks) && forall n :: 0 <= n < |ticks| ==> ticks[n].at <= now
    ensures !Holds(Renewed(r, token, secs, ticks), token, now)
    decreases ticks
  {
    if ticks[0].lost {
      LostStaysLost(r, token, secs, ticks[1..], now);
    } else if Holds(r, token, ticks[0].at) {
      LostStaysLost(HeartbeatRow(r, token, secs, ticks[0].at), token, secs, ticks[1..], now);
    }
  }

  /** After the heartbeats the claim's lease is live at the given time. */
  ghost predicate IsCovered(r: Record, token: Int64, secs: int, ticks: seq<Tick>, now: Instant) {
    && HasToken(r, token) && !TooLate(r.lease.value.expires, secs, ticks)
    && now < ExpiryAfter(r.lease.value.expires, secs, ticks)
  }

  lemma CoveredIff(r: Record, token: Int64, secs: int, ticks: seq<Tick>, now: Instant)
    requires forall n :: 0 <= n < |ticks| ==> ticks[n].at <= now
    ensures IsCovered(r, token, secs, ticks, now) <==> Holds(Renewed(r, token, secs, ticks), token, now)
    ensures IsCovered(r, token, secs, ticks, now) ==> !LosesLease(r, token, secs, ticks)
  {
    if HasToken(r, token) {
      RenewedUntil(r, token, secs, ticks);
      if LosesLease(r, token, secs, ticks) {
        LostStaysLost(r, token, secs, ticks, now);
      }
    } else {
      CutWithoutLease(r, token, secs, ticks);
    }
  }

  /** The call has its result, and the lease is over. */
  predicate HasResult(r: Record, r': Record, result: Option<Json>) {
    && r'.exec == r.exec.(status := Completed, result := result, error := None)
    && r'.lease == None && r'.retry == r.retry
    && Count(r'.events, EvCompleted) == Count(r.events, EvCompleted) + 1
  }

  /** The call has failed this time: for good, or with a retry to come. */
  predicate HasFailed(r: Record, r': Record, error: string) {
    && r'.exec == r.exec.(status := if r.exec.attempts < r.exec.maxAttempts then Pending else Failed,
                          error := Some(error))
    && r'.lease == None
    && (if r.exec.attempts < r.exec.maxAttempts then r'.retry.Some? && r'.retry.value.attempt == r.exec.attempts
        else r'.retry == r.retry)
    && Count(r'.events, EvCompleted) == Count(r.events, EvCompleted)
  }

  /** The tables tell of no report: only the log and the end of the lease may have changed. */
  predicate IsLeft(r: Record, r': Record, token: Int64) {
    && r'.exec == r.exec && r'.retry == r.retry && HasToken(r', token) == HasToken(r, token)
    && Count(r'.events, EvCompleted) == Count(r.events, EvCompleted)
    && Count(r'.events, EvFailed) == Count(r.events, EvFailed)
    && Count(r'.events, EvRetryScheduled) == Count(r.events, EvRetryScheduled)
  }

  /** The last event is a report by this worker on this token. */
  predicate IsSigned(r: Record, worker: string, token: Int64) {
    && r.events != [] && Last(r.events).token == Some(token)
    && Last(r.events).worker == (if worker == "" then None else Some(worker))
  }

  /** The columns of the row before and after a report, which a live lease covers or does not. */
  ghost predicate IsReported(r: Record, r': Record, worker: string, claim: ClaimInfo, handled: bool, ending: Ending,
                             covered: bool)
    requires handled ==> !ending.Vanishes?
  {
    && IsSigned(r', worker, claim.token)
    && Count(r'.events, EvStaleRejected) == Count(r.events, EvStaleRejected) + (if covered then 0 else 1)
    && (if !covered then IsLeft(r, r', claim.token)
        else if handled && ending.Succeeds? then HasResult(r, r', ending.result)
        else HasFailed(r, r', if handled then ending.error else "no handler registered for tool " + claim.toolName))
  }

  lemma CompletedColumns(w: Record, worker: string, claim: ClaimInfo, result: Option<Json>, now: Instant)
    ensures IsReported(w, CompleteRow(w, claim.token, worker, result, now), worker, claim, true, Succeeds(result),
                       Holds(w, claim.token, now))
  {
    var r' := CompleteRow(w, claim.token, worker, result, now);
    Appended(w.events, r'.events[|w.events|]);
  }

  lemma FailedColumns(w: Record, worker: string, claim: ClaimInfo, handled: bool, ending: Ending, now: Instant)
    requires handled ==> ending.Errs?
    ensures var error := if handled then ending.error else "no handler registered for tool " + claim.toolName;
      IsReported(w, FailRow(w, claim.token, worker, error, now), worker, claim, handled, ending,
                 Holds(w, claim.token, now))
  {
    var error := if handled then ending.error else "no handler registered for tool " + claim.toolName;
    var r' := FailRow(w, claim.token, worker, error, now);
    Appended(w.events, r'.events[|w.events|]);
  }

  /** The columns of the claimed row before and after the work, and the last reply of the store. */
  ghost predicate Delivers(r: Record, r': Record, reply: Reply, worker: string, claim: ClaimInfo, handled: bool,
                           secs: int, ticks: seq<Tick>, ending: Ending, now: Instant) {
    var beats := if handled then ticks else [];
    var covered := IsCovered(r, claim.token, secs, beats, now);
    if ending.Vanishes? || (handled && ending.Errs? && IsCut(r, claim.token, secs, beats)) then
      && IsLeft(r, r', claim.token) && Count(r'.events, EvStaleRejected) == Count(r.events, EvStaleRejected)
      && reply == Done
      && (covered ==> r'.lease.value.expires == ExpiryAfter(r.lease.value.expires, secs, beats))
    else
      && IsReported(r, r', worker, claim, handled, ending, covered)
      && reply == if covered then Done else Stale
  }

  /** So many claims less to make. */
  ghost predicate ClaimsLess(before: Db, after: Db, claims: nat) {
    && after.rows.Keys == before.rows.Keys && AllFit(after)
    && claims == TotalOwed(before) - TotalOwed(after)
    && (if claims == 0 then after == before else TotalPotential(after) < TotalPotential(before))
  }

  lemma OneMoreClaim(before: Db, mid: Db, after: Db, claims: nat)
    requires ClaimsLess(before, mid, claims) && OneClaimLess(mid, after)
    ensures ClaimsLess(before, after, claims + 1) && 0 <= TotalOwed(after) < TotalOwed(mid)
  {
    TotalsAreNatural(after);
  }

  /** The same calls and attempts, and every open call a status further. */
  ghost predicate IsMovedOn(before: Db, after: Db) {
    && after.rows.Keys == before.rows.Keys && AllFit(after) && TotalOwed(after) == TotalOwed(before)
    && TotalPotential(after) <= TotalPotential(before)
    && ((exists id :: id in before.rows && !IsOver(before.rows[id])) ==> TotalPotential(after) < TotalPotential(before))
  }

  lemma RoundIsDone(before: Db, idle: Db, claims: nat, after: Db)
    requires ClaimsLess(before, idle, claims) && IsMovedOn(idle, after)
    requires exists id :: id in before.rows && !IsOver(before.rows[id])
    ensures after.rows.Keys == before.rows.Keys && AllFit(after)
    ensures claims == TotalOwed(before) - TotalOwed(after) && TotalPotential(after) < TotalPotential(before)
  {
  }

  lemma PutTwice(db: Db, id: Id, r: Record, r': Record)
    ensures Put(Put(db, id, r), id, r') == Put(db, id, r')
  {
  }

  const MILLISECOND: int := 1_000_000

  class Runtime {
    const store: Store.Postgres
    const workerId: string
    const handlers: set<string>
    var pollInterval: int
    var leaseSeconds: int
    var heartbeatTimeout: int

    constructor (store: Store.Postgres, workerId: string, handlers: set<string>, poll: int, lease: int, timeout: int)
      ensures this.store == store && this.workerId == workerId && this.handlers == handlers
      ensures pollInterval == poll && leaseSeconds == lease && heartbeatTimeout == timeout
    {
      this.store, this.workerId, this.handlers := store, workerId, handlers;
      pollInterval, leaseSeconds, heartbeatTimeout := poll, lease, timeout;
    }

    /** Run's defaults. Settled, every lease outlives two periods of its heartbeat. */
    method Normalise()
      modifies this
      ensures pollInterval == if old(pollInterval) <= 0 then 500 * MILLISECOND else old(pollInterval)
      ensures leaseSeconds == if old(leaseSeconds) <= 0 then 30 else old(leaseSeconds)
      ensures heartbeatTimeout == if old(heartbeatTimeout) <= 0 then 10 * SECOND else old(heartbeatTimeout)
      ensures leaseSeconds <= 9_223_372_036 ==> 0 < 2 * HeartbeatInterval(leaseSeconds) < leaseSeconds * SECOND
    {
      if pollInterval <= 0 {
        pollInterval := 500 * MILLISECOND;
      }
      if leaseSeconds <= 0 {
        leaseSeconds := 30;
      }
      if heartbeatTimeout <= 0 {
        heartbeatTimeout := 10 * SECOND;
      }
      if leaseSeconds <= 9_223_372_036 {
        IntervalIsThirdIff(leaseSeconds);
      }
    }

    /** The heartbeat goroutine: one renewal per tick, until the context is cancelled, which ends the
        sequence of ticks, or until a renewal is answered with ErrStale, which cancels the work. */
    method HeartbeatLoop(claim: ClaimInfo, ticks: seq<Tick>) returns (cancelled: bool)
      requires store.Valid() && claim.id in store.executions
      modifies store
      ensures store.Valid() && claim.id in store.executions
      ensures store.Abs() == Put(old(store.Abs()), claim.id,
                                 Renewed(old(store.RecordOf(claim.id)), claim.token, leaseSeconds, ticks))
      ensures cancelled <==> LosesLease(old(store.RecordOf(claim.id)), claim.token, leaseSeconds, ticks)
    {
      cancelled := false;
      ghost var before, first := store.Abs(), store.RecordOf(claim.id);
      ghost var row := first;
      assert Put(before, claim.id, row) == before;
      var n := 0;
      while n < |ticks| && !cancelled
        invariant n <= |ticks| && store.Valid() && claim.id in store.executions
        invariant leaseSeconds == old(leaseSeconds)
        invariant store.RecordOf(claim.id) == row && store.Abs() == Put(before, claim.id, row)
        invariant Renewed(first, claim.token, leaseSeconds, ticks) ==
                  if cancelled then row else Renewed(row, claim.token, leaseSeconds, ticks[n..])
        invariant LosesLease(first, claim.token, leaseSeconds, ticks) <==>
                  cancelled || LosesLease(row, claim.token, leaseSeconds, ticks[n..])
      {
        if !ticks[n].lost {
          ghost var next := HeartbeatRow(row, claim.token, leaseSeconds, ticks[n].at);
          var reply := store.Heartbeat(ticks[n].at, claim.id, claim.token, leaseSeconds);
          PutTwice(before, claim.id, row, next);
          assert claim.id in store.Abs().rows;
          row := next;
          cancelled := reply == Stale;
        }
        n := n + 1;
      }
    }

    /** The row after the heartbeats that run beside the handler; without a handler there are none. */
    function Worked(r: Record, claim: ClaimInfo, secs: int, ticks: seq<Tick>): Record {
      if claim.toolName in handlers then Renewed(r, claim.token, secs, ticks) else r
    }

    /** The heartbeat goroutine has cancelled the work. */
    predicate IsCancelled(r: Record, claim: ClaimInfo, secs: int, ticks: seq<Tick>) {
      claim.toolName in handlers && LosesLease(r, claim.token, secs, ticks)
    }

    /** The one report that execute sends for a claim, if any. A result is reported even when the
        lease is already lost; it is the store that turns it down. */
    function ReportOp(claim: ClaimInfo, ending: Ending, cancelled: bool): RowOp {
      if ending.Vanishes? then OpNone
      else if claim.toolName !in handlers then
        OpFail(claim.token, workerId, "no handler registered for tool " + claim.toolName)
      else
        match ending
        case Succeeds(result) => OpComplete(claim.token, workerId, result)
        case Errs(error) => if cancelled then OpNone else OpFail(claim.token, workerId, error)
    }

    /** What execute makes of the row of its claim, reporting at time now. */
    function Handled(r: Record, now: Instant, claim: ClaimInfo, secs: int, ticks: seq<Tick>, ending: Ending): Record {
      Apply(Worked(r, claim, secs, ticks), ReportOp(claim, ending, IsCancelled(r, claim, secs, ticks)), now)
    }

    lemma HandledRoundLowersTotals(before: Db, claimed: Db, now: Instant, claim: ClaimInfo, secs: int,
                                   ticks: seq<Tick>, ending: Ending, after: Db)
      requires OneClaimLess(before, claimed) && ClaimedLast(claimed, claim)
      requires after == Put(claimed, claim.id, Handled(claimed.rows[claim.id], now, claim, secs, ticks, ending))
      ensures OneClaimLess(before, after)
    {
      var r := claimed.rows[claim.id];
      assert Fit(r);
      RenewedRowIsFit(r, claim.token, secs, ticks);
      ReportedRowIsFit(Worked(r, claim, secs, ticks), now, claim.token,
                       ReportOp(claim, ending, IsCancelled(r, claim, secs, ticks)));
      RoundLowersTotals(before, claimed, claim.id, Handled(r, now, claim, secs, ticks, ending));
    }

    /** The row after its heartbeats, as the report finds it. */
    lemma WorkedRow(r: Record, claim: ClaimInfo, secs: int, ticks: seq<Tick>, now: Instant)
      requires forall n :: 0 <= n < |ticks| ==> ticks[n].at <= now
      ensures var beats, w := if claim.toolName in handlers then ticks else [], Worked(r, claim, secs, ticks);
        && IsLeft(r, w, claim.token) && Count(w.events, EvStaleRejected) == Count(r.events, EvStaleRejected)
        && (Holds(w, claim.token, now) <==> IsCovered(r, claim.token, secs, beats, now))
        && (IsCancelled(r, claim, secs, ticks) <==>
              claim.toolName in handlers && IsCut(r, claim.token, secs, beats))
        && (IsCovered(r, claim.token, secs, beats, now) ==>
              w.lease.value.expires == ExpiryAfter(r.lease.value.expires, secs, beats))
    {
      var beats := if claim.toolName in handlers then ticks else [];
      RenewedKeeps(r, claim.token, secs, beats, EvCompleted);
      RenewedKeeps(r, claim.token, secs, beats, EvFailed);
      RenewedKeeps(r, claim.token, secs, beats, EvRetryScheduled);
      RenewedKeeps(r, claim.token, secs, beats, EvStaleRejected);
      CoveredIff(r, claim.token, secs, beats, now);
      CutIff(r, claim.token, secs, beats);
      if IsCovered(r, claim.token, secs, beats, now) {
        RenewedUntil(r, claim.token, secs, beats);
      }
    }

    /** The report does to the columns what the ending of the work calls for. */
    lemma ReportedRow(w: Record, claim: ClaimInfo, ending: Ending, cancelled: bool, now: Instant)
      ensures var op, handled := ReportOp(claim, ending, cancelled), claim.toolName in handlers;
              var r' := Apply(w, op, now);
        if ending.Vanishes? || (handled && ending.Errs? && cancelled) then r' == w && op.OpNone?
        else !op.OpNone? && IsReported(w, r', workerId, claim, handled, ending, Holds(w, claim.token, now))
    {
      if ending.Vanishes? || (claim.toolName in handlers && ending.Errs? && cancelled) {
      } else if claim.toolName in handlers && ending.Succeeds? {
        CompletedColumns(w, workerId, claim, ending.result, now);
      } else {
        FailedColumns(w, workerId, claim, claim.toolName in handlers, ending, now);
      }
    }

    lemma HandledDelivers(r: Record, claim: ClaimInfo, secs: int, ticks: seq<Tick>, ending: Ending, now: Instant,
                          reply: Reply)
      requires forall n :: 0 <= n < |ticks| ==> ticks[n].at <= now
      requires reply == if ReportOp(claim, ending, IsCancelled(r, claim, secs, ticks)).OpNone? then Done
                        else Verdict(Worked(r, claim, secs, ticks), claim.token, now)
      ensures Delivers(r, Handled(r, now, claim, secs, ticks, ending), reply, workerId, claim,
                       claim.toolName in handlers, secs, ticks, ending, now)
    {
      WorkedRow(r, claim, secs, ticks, now);
      ReportedRow(Worked(r, claim, secs, ticks), claim, ending, IsCancelled(r, claim, secs, ticks), now);
    }

    /** Run the handler with the heartbeats of the given ticks beside it, and report at time now. */
    method Execute(now: Instant, claim: ClaimInfo, ticks: seq<Tick>, ending: Ending) returns (reply: Reply)
      requires store.Valid() && claim.id in store.executions
      modifies store
      ensures store.Valid()
      ensures store.Abs() == Put(old(store.Abs()), claim.id,
                                 Handled(old(store.RecordOf(claim.id)), now, claim, leaseSeconds, ticks, ending))
      ensures var r := old(store.RecordOf(claim.id));
        reply == if ReportOp(claim, ending, IsCancelled(r, claim, leaseSeconds, ticks)).OpNone? then Done
                 else Verdict(Worked(r, claim, leaseSeconds, ticks), claim.token, now)
      ensures claim.id in store.executions
      ensures (forall n :: 0 <= n < |ticks| ==> ticks[n].at <= now) ==>
                Delivers(old(store.RecordOf(claim.id)), store.RecordOf(claim.id), reply, workerId, claim,
                         claim.toolName in handlers, leaseSeconds, ticks, ending, now)
    {
      ghost var before, r := store.Abs(), store.RecordOf(claim.id);
      assert Put(before, claim.id, r) == before;
      var cancelled := false;
      if claim.toolName in handlers {
        cancelled := HeartbeatLoop(claim, ticks);
      }
      ghost var worked := Worked(r, claim, leaseSeconds, ticks);
      assert store.Abs() == Put(before, claim.id, worked);
      assert store.RecordOf(claim.id) == store.Abs().rows[claim.id];
      reply := Report(now, claim, ending, cancelled);
      PutTwice(before, claim.id, worked, Apply(worked, ReportOp(claim, ending, cancelled), now));
      assert claim.id in store.Abs().rows && store.RecordOf(claim.id) == store.Abs().rows[claim.id];
      if forall n :: 0 <= n < |ticks| ==> ticks[n].at <= now {
        HandledDelivers(r, claim, leaseSeconds, ticks, ending, now, reply);
      }
    }

    method Report(now: Instant, claim: ClaimInfo, ending: Ending, cancelled: bool) returns (reply: Reply)
      requires store.Valid() && claim.id in store.executions
      modifies store
      ensures store.Valid()
      ensures var r, op := old(store.RecordOf(claim.id)), ReportOp(claim, ending, cancelled);
        && store.Abs() == Put(old(store.Abs()), claim.id, Apply(r, op, now))
        && reply == if op.OpNone? then Done else Verdict(r, claim.token, now)
    {
      assert Put(store.Abs(), claim.id, store.RecordOf(claim.id)) == store.Abs();
      if ending.Vanishes? {
        return Done;
      }
      if claim.toolName !in handlers {
        reply := store.Fail(now, claim.id, claim.token, workerId, "no handler registered for tool " + claim.toolName);
        return;
      }
      match ending
      case Succeeds(result) =>
        reply := store.Complete(now, claim.id, claim.token, workerId, result);
      case Errs(error) =>
        if cancelled {
          return Done;
        }
        reply := store.Fail(now, claim.id, claim.token, workerId, error);
    }

    /** One round of the loop: a claim of an oldest ready execution under the worker's name, and the work
        on it. */
    ghost predicate IsLink(mark: Mark, secs: int, db': Db, later: Instant) {
      exists claim, claimed :: IsRound(mark.db, mark.at, secs, mark.met, claim, claimed, db', later)
    }

    ghost predicate IsRound(db: Db, now: Instant, secs: int, fate: Fate, claim: ClaimInfo, claimed: Db, db': Db,
                            later: Instant) {
      && IsClaimBy(db, now, secs, claim, claimed) && claim.id in claimed.rows
      && later == AfterBeats(now, fate.beats) + fate.rest
      && db' == Put(claimed, claim.id, Handled(claimed.rows[claim.id], later, claim, secs,
                                               TicksOf(now, fate.beats), fate.ending))
    }

    /** One round after the other, from the first tables and time up to the last. */
    ghost predicate IsTrail(first: Db, start: Instant, trail: seq<Mark>, secs: int, last: Db, now: Instant)
      decreases |trail|
    {
      if trail == [] then last == first && now == start
      else
        var mark := trail[|trail| - 1];
        IsLink(mark, secs, last, now) && IsTrail(first, start, trail[..|trail| - 1], secs, mark.db, mark.at)
    }

    lemma TrailGrows(first: Db, start: Instant, trail: seq<Mark>, secs: int, mark: Mark, db: Db, now: Instant)
      requires IsTrail(first, start, trail, secs, mark.db, mark.at) && IsLink(mark, secs, db, now)
      ensures IsTrail(first, start, trail + [mark], secs, db, now)
    {
      assert (trail + [mark])[..|trail|] == trail;
    }

    /** So far the loop has made these rounds, one claim each. */
    ghost predicate HasRun(first: Db, start: Instant, trail: seq<Mark>, secs: int, last: Db, now: Instant) {
      ClaimsLess(first, last, |trail|) && IsTrail(first, start, trail, secs, last, now)
    }

    /** Run's loop, as far as the first ErrNoWork: claim, execute, claim again. The n-th claim meets
        a fate of its own, any fate, and the clock runs on while it does. */
    method RunUntilIdle(start: Instant) returns (claims: nat, now: Instant, ghost trail: seq<Mark>)
      requires store.Valid() && AllFit(store.Abs())
      modifies store
      ensures store.Valid() && start <= now && forall id :: !IsReady(store.Abs(), id)
      ensures |trail| == claims && HasRun(old(store.Abs()), start, trail, leaseSeconds, store.Abs(), now)
    {
      claims, now, trail := 0, start, [];
      var idle := false;
      while !idle
        invariant store.Valid() && start <= now && |trail| == claims && leaseSeconds == old(leaseSeconds)
        invariant HasRun(old(store.Abs()), start, trail, leaseSeconds, store.Abs(), now)
        invariant idle ==> forall id :: !IsReady(store.Abs(), id)
        decreases !idle, TotalOwed(store.Abs())
      {
        var fate: Fate := *;
        idle, now, trail := NextRound(now, fate, old(store.Abs()), start, trail);
        if !idle {
          claims := claims + 1;
        }
      }
    }

    /** A legal claim of an oldest ready execution under the worker's name. */
    ghost predicate IsClaimBy(db: Db, now: Instant, secs: int, claim: ClaimInfo, db': Db) {
      && LegalPick(db, Some(claim.id))
      && ExecClaim(db, now, Some(claim.id), workerId, secs) == Outcome(db', Claimed(claim))
    }

    lemma ClaimedByWorker(db: Db, now: Instant, secs: int, pick: Option<Id>, reply: Reply, db': Db)
      requires AllFit(db) && LegalPick(db, pick) && reply != NoWork
      requires Outcome(db', reply) == ExecClaim(db, now, pick, workerId, secs)
      ensures reply.Claimed? && ClaimedLast(db', reply.claim) && OneClaimLess(db, db')
      ensures IsClaimBy(db, now, secs, reply.claim, db')
    {
      ClaimLowersTotals(db, now, pick, workerId, secs);
      ClaimAnswersPick(db, now, secs, pick, reply, db');
    }

    lemma ClaimAnswersPick(db: Db, now: Instant, secs: int, pick: Option<Id>, reply: Reply, db': Db)
      requires LegalPick(db, pick) && reply.Claimed?
      requires Outcome(db', reply) == ExecClaim(db, now, pick, workerId, secs)
      ensures IsClaimBy(db, now, secs, reply.claim, db')
    {
    }

    method TryClaim(now: Instant) returns (claim: Option<ClaimInfo>)
      requires store.Valid() && AllFit(store.Abs())
      modifies store
      ensures store.Valid()
      ensures claim.None? ==> store.Abs() == old(store.Abs()) && forall id :: !IsReady(store.Abs(), id)
      ensures claim.Some? ==> ClaimedLast(store.Abs(), claim.value) && OneClaimLess(old(store.Abs()), store.Abs())
      ensures claim.Some? ==> IsClaimBy(old(store.Abs()), now, leaseSeconds, claim.value, store.Abs())
    {
      ghost var before := store.Abs();
      var reply, pick := store.Claim(now, workerId, leaseSeconds);
      if reply == NoWork {
        NoWorkMeansIdle(before, now, pick, workerId, leaseSeconds);
        return None;
      }
      ClaimedByWorker(before, now, leaseSeconds, pick, reply, store.Abs());
      claim := Some(reply.claim);
    }

    /** One round of the loop. */
    method ClaimOnce(now: Instant, fate: Fate) returns (idle: bool, later: Instant)
      requires store.Valid() && AllFit(store.Abs())
      modifies store
      ensures store.Valid() && now <= later
      ensures idle ==> store.Abs() == old(store.Abs()) && later == now && forall id :: !IsReady(store.Abs(), id)
      ensures !idle ==> IsLink(Mark(old(store.Abs()), now, fate), leaseSeconds, store.Abs(), later)
      ensures !idle ==> OneClaimLess(old(store.Abs()), store.Abs())
    {
      var claim := TryClaim(now);
      idle, later := claim.None?, now;
      if claim.Some? {
        ghost var claimed := store.Abs();
        later := AfterBeats(now, fate.beats) + fate.rest;
        ExecuteClaimed(later, claim.value, TicksOf(now, fate.beats), fate.ending, old(store.Abs()));
        assert IsRound(old(store.Abs()), now, leaseSeconds, fate, claim.value, claimed, store.Abs(), later);
      }
    }

    lemma RunGoesOn(first: Db, start: Instant, trail: seq<Mark>, secs: int, mark: Mark, db: Db, now: Instant)
      requires HasRun(first, start, trail, secs, mark.db, mark.at)
      requires IsLink(mark, secs, db, now) && OneClaimLess(mark.db, db)
      ensures HasRun(first, start, trail + [mark], secs, db, now) && 0 <= TotalOwed(db) < TotalOwed(mark.db)
    {
      OneMoreClaim(first, mark.db, db, |trail|);
      TrailGrows(first, start, trail, secs, mark, db, now);
    }

    /** One more round, put on record. */
    method NextRound(now: Instant, fate: Fate, ghost first: Db, ghost start: Instant, ghost trail: seq<Mark>)
      returns (idle: bool, later: Instant, ghost trail': seq<Mark>)
      requires store.Valid() && HasRun(first, start, trail, leaseSeconds, store.Abs(), now)
      modifies store
      ensures store.Valid() && now <= later && HasRun(first, start, trail', leaseSeconds, store.Abs(), later)
      ensures idle ==> forall id :: !IsReady(store.Abs(), id)
      ensures !idle ==> 0 <= TotalOwed(store.Abs()) < TotalOwed(old(store.Abs()))
      ensures trail' == if idle then trail else trail + [Mark(old(store.Abs()), now, fate)]
    {
      ghost var mark := Mark(store.Abs(), now, fate);
      trail' := trail;
      idle, later := ClaimOnce(now, fate);
      if !idle {
        RunGoesOn(first, start, trail, leaseSeconds, mark, store.Abs(), later);
        trail' := trail + [mark];
      }
    }

    method ExecuteClaimed(now: Instant, claim: ClaimInfo, ticks: seq<Tick>, ending: Ending, ghost before: Db)
      requires store.Valid() && ClaimedLast(store.Abs(), claim) && OneClaimLess(before, store.Abs())
      modifies store
      ensures store.Valid() && OneClaimLess(before, store.Abs())
      ensures store.Abs() == Put(old(store.Abs()), claim.id,
                                 Handled(old(store.Abs()).rows[claim.id], now, claim, leaseSeconds, ticks, ending))
    {
      ghost var claimed := store.Abs();
      assert store.RecordOf(claim.id) == claimed.rows[claim.id];
      var report := Execute(now, claim, ticks, ending);
      HandledRoundLowersTotals(before, claimed, now, claim, leaseSeconds, ticks, ending, store.Abs());
    }

    /** A time by which every lease has expired and every retry is due. */
    method PastEveryDeadline(now: Instant) returns (later: Instant)
      requires store.Valid()
      ensures later >= now && AllDue(store.Abs(), later)
    {
      later := now;
      var todo := store.leases.Keys;
      while todo != {}
        invariant later >= now && todo <= store.leases.Keys
        invariant forall id :: id in store.leases && id !in todo ==> store.leases[id].expires < later
      {
        var id :| id in todo;
        todo := todo - {id};
        if later <= store.leases[id].expires {
          later := store.leases[id].expires + 1;
        }
      }
      todo := store.retries.Keys;
      while todo != {}
        invariant later >= now && todo <= store.retries.Keys
        invariant forall id :: id in store.leases ==> store.leases[id].expires < later
        invariant forall id :: id in store.retries && id !in todo ==> store.retries[id].at <= later
      {
        var id :| id in todo;
        todo := todo - {id};
        if later < store.retries[id].at {
          later := store.retries[id].at;
        }
      }
    }

    method AnyOpen() returns (open: bool)
      requires store.Valid()
      ensures open <==> exists id :: id in store.Abs().rows && !IsOver(store.Abs().rows[id])
    {
      open := exists id :: id in store.executions
                && store.executions[id].status != Completed && store.executions[id].status != Failed;
      ghost var db := store.Abs();
      assert db.rows.Keys == store.executions.Keys;
      assert forall id :: id in store.executions ==> db.rows[id].exec == store.executions[id];
    }

    /** Draining terminates: claim until there is no work, with every claim meeting any fate;
        let every deadline pass; run the scheduler; repeat. In the end every execution is completed
        or failed, and no more claims were made than attempts were owed. */
    method Drain(start: Instant) returns (now: Instant, claims: nat)
      requires store.Valid() && AllFit(store.Abs())
      modifies store
      ensures store.Valid() && AllFit(store.Abs())
      ensures store.Abs().rows.Keys == old(store.Abs().rows.Keys)
      ensures forall id :: id in store.Abs().rows ==> IsOver(store.Abs().rows[id])
      ensures now >= start
      ensures claims == TotalOwed(old(store.Abs())) - TotalOwed(store.Abs()) <= TotalOwed(old(store.Abs()))
    {
      now, claims := start, 0;
      var open := AnyOpen();
      while open
        invariant store.Valid() && AllFit(store.Abs())
        invariant store.Abs().rows.Keys == old(store.Abs().rows.Keys)
        invariant claims == TotalOwed(old(store.Abs())) - TotalOwed(store.Abs())
        invariant open <==> exists id :: id in store.Abs().rows && !IsOver(store.Abs().rows[id])
        invariant now >= start
        decreases TotalPotential(store.Abs()), open
      {
        TotalsAreNatural(store.Abs());
        now, claims := DrainRound(now, claims);
        TotalsAreNatural(store.Abs());
        open := AnyOpen();
      }
      TotalsAreNatural(store.Abs());
    }

    /** Claim until idle, let every deadline pass, and run one pass. */
    method DrainRound(now: Instant, done: nat) returns (later: Instant, claims: nat)
      requires store.Valid() && AllFit(store.Abs())
      requires exists id :: id in store.Abs().rows && !IsOver(store.Abs().rows[id])
      modifies store
      ensures later >= now
      ensures store.Valid() && AllFit(store.Abs())
      ensures store.Abs().rows.Keys == old(store.Abs().rows.Keys)
      ensures claims == done + TotalOwed(old(store.Abs())) - TotalOwed(store.Abs())
      ensures TotalPotential(store.Abs()) < TotalPotential(old(store.Abs()))
    {
      ghost var before := store.Abs();
      var made, idleAt, trail := RunUntilIdle(now);
      ghost var idle := store.Abs();
      later := PassWhenAllDue(idleAt);
      claims := done + made;
      RoundIsDone(before, idle, made, store.Abs());
    }

    /** Let every deadline pass and run one pass. */
    method PassWhenAllDue(now: Instant) returns (later: Instant)
      requires store.Valid() && AllFit(store.Abs()) && forall id :: !IsReady(store.Abs(), id)
      modifies store
      ensures store.Valid() && now <= later
      ensures AllDue(old(store.Abs()), later) && store.Abs() == PassDb(old(store.Abs()), later)
      ensures IsMovedOn(old(store.Abs()), store.Abs())
    {
      ghost var idle := store.Abs();
      later := PastEveryDeadline(now);
      var changed := store.RunSchedulerPass(later);
      PassLowersTotals(idle, later, store.Abs());
    }
  }
}
