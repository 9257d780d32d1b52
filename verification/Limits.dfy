/** Runs on which the guarantees end: two schedulers, and a token that leaves no larger one. */
module Limits {
  import opened Types
  import opened Durations
  import opened EventLog
  import opened Rows
  import opened Coupling
  import opened Database
  import opened Pass
  import opened Scheduler
  import opened Tokens
  import opened Futures

  // ----- a store with one tool and one call -----

  const TOOL: Tool := Tool("tool", 2)
  const KEY: CallKey := CallKey("default", "tool", "key")
  const REGISTERED: Db := Db(map[TOOL.name := TOOL], map[], map[])

  function Single(r: Record): Db {
    Db(map[TOOL.name := TOOL], map[KEY := 0], map[0 := r])
  }

  function NewCall(): Record {
    SubmitRow(KEY, "", TOOL.maxAttempts, 0)
  }

  lemma PutSingle(r: Record, r': Record)
    ensures Put(Single(r), 0, r') == Single(r')
  {
    assert map[0 := r][0 := r'] == map[0 := r'];
  }

  lemma CallSubmitted()
    ensures Exec(EMPTY, 0, SeedTool(TOOL)) == Outcome(REGISTERED, Done)
    ensures Exec(REGISTERED, 0, Submit(KEY, "", 0)).db == Single(NewCall())
    ensures Sound(NewCall()) && NewCall().exec.status == Ready && MaxToken(NewCall().events) == None
  {
    SubmittedIsSound(KEY, "", TOOL.maxAttempts, 0);
    SubmittedIsDense(KEY, "", TOOL.maxAttempts, 0);
    var es := NewCall().events;
    assert es == [] + [es[0]] + [es[1]];
    Appended([], es[0]);
    Appended([] + [es[0]], es[1]);
    assert MaxToken([] + [es[0]]) == None;
  }

  lemma OnlyCallIsOldest(r: Record)
    requires r.exec.status == Ready
    ensures LegalPick(Single(r), Some(0))
  {
  }

  // ----- runs, step by step -----

  /** The tool is registered and the call submitted. */
  function Opening(): Run {
    Then(Then(Run([EMPTY], []), Step(0, SeedTool(TOOL)), REGISTERED), Step(0, Submit(KEY, "", 0)), Single(NewCall()))
  }

  lemma OpeningIsValid()
    ensures Opening().Valid()
  {
    CallSubmitted();
    var first := Run([EMPTY], []);
    assert first.Valid();
    ContinuedIsValid(first, Step(0, SeedTool(TOOL)), REGISTERED);
    ContinuedIsValid(Then(first, Step(0, SeedTool(TOOL)), REGISTERED), Step(0, Submit(KEY, "", 0)), Single(NewCall()));
  }

  // ----- no next token -----

  lemma PoisonedCall(worker: string, result: Option<Json>, secs: int)
    ensures var r := CompleteRow(NewCall(), MAX_INT64, worker, result, 0);
      && Exec(Single(NewCall()), 0, Complete(0, MAX_INT64, worker, result)) == Outcome(Single(r), Stale)
      && Exec(Single(r), 0, Claim(Some(0), worker, secs)) == Outcome(Single(r), DbError)
      && r.exec.status == Ready
  {
    CallSubmitted();
    var r := CompleteRow(NewCall(), MAX_INT64, worker, result, 0);
    PutSingle(NewCall(), r);
    MaxTokenStep(NewCall(), OpComplete(MAX_INT64, worker, result), 0);
  }

  /** One rejected report with the largest BIGINT, and the next Claim fails although work is ready. */
  lemma ClaimFailureIsReachable(worker: string, result: Option<Json>, secs: int) returns (run: Run)
    ensures run.Valid() && |run.steps| == 4 && run.steps[2].tx == Complete(0, MAX_INT64, worker, result)
    ensures run.steps[3].tx == Claim(Some(0), worker, secs) && IsReady(run.dbs[3], 0)
    ensures run.Reply(2) == Stale && run.Reply(3) == DbError
  {
    var db := Single(CompleteRow(NewCall(), MAX_INT64, worker, result, 0));
    var report := Step(0, Complete(0, MAX_INT64, worker, result));
    PoisonedCall(worker, result, secs);
    OnlyCallIsOldest(db.rows[0]);
    OpeningIsValid();
    ContinuedIsValid(Opening(), report, db);
    ContinuedIsValid(Then(Opening(), report, db), Step(0, Claim(Some(0), worker, secs)), db);
    run := Then(Then(Opening(), report, db), Step(0, Claim(Some(0), worker, secs)), db);
  }

  // ----- a rejected heartbeat that is accepted later -----

  lemma EarlyHeartbeat(worker: string, secs: int)
    requires secs > 0
    ensures var r := NewCall(); var claimed := ClaimRow(r, worker, secs, 0);
      && Exec(Single(r), 0, Heartbeat(0, 1, secs)) == Outcome(Single(r), Stale)
      && Exec(Single(r), 0, Claim(Some(0), worker, secs)).db == Single(claimed)
      && Exec(Single(claimed), 0, Heartbeat(0, 1, secs)) == Outcome(Single(HeartbeatRow(claimed, 1, secs, 0)), Done)
  {
    CallSubmitted();
    var claimed := ClaimRow(NewCall(), worker, secs, 0);
    PutSingle(NewCall(), NewCall());
    PutSingle(NewCall(), claimed);
    PutSingle(claimed, HeartbeatRow(claimed, 1, secs, 0));
  }

  /** The run of one scheduler process has n steps so far, all at time 0, and stands thus. */
  ghost predicate StandsAlone(s: Scheduled, n: nat, r: Record) {
    && s.Valid() && |s.run.steps| == n > 0 && s.run.steps[n - 1].at == 0
    && s.run.dbs[n] == Single(r) && s.pcs[n] == Idle
  }

  lemma OpensAlone() returns (s: Scheduled)
    ensures StandsAlone(s, 2, NewCall())
  {
    OpeningIsValid();
    s := Scheduled(Opening(), [Idle, Idle, Idle]);
  }

  lemma GoesAlone(s: Scheduled, n: nat, r: Record, tx: Tx, r': Record) returns (s': Scheduled)
    requires StandsAlone(s, n, r) && IsClientTx(tx) && Enabled(Single(r), tx)
    requires Exec(Single(r), 0, tx).db == Single(r')
    ensures StandsAlone(s', n + 1, r')
    ensures s'.run.steps == s.run.steps + [Step(0, tx)] && s.run.dbs < s'.run.dbs
    ensures s'.run.Reply(n) == Exec(Single(r), 0, tx).reply
  {
    MovedIsValid(s, Step(0, tx), Single(r'), Idle);
    s' := Moved(s, Step(0, tx), Single(r'), Idle);
  }

  lemma EarlyBeat(s: Scheduled, worker: string, secs: int) returns (s': Scheduled)
    requires StandsAlone(s, 2, NewCall()) && secs > 0
    ensures StandsAlone(s', 3, NewCall()) && s'.run.Reply(2) == Stale
    ensures s'.run.steps == s.run.steps + [Step(0, Heartbeat(0, 1, secs))]
  {
    EarlyHeartbeat(worker, secs);
    s' := GoesAlone(s, 2, NewCall(), Heartbeat(0, 1, secs), NewCall());
  }

  lemma ThenClaim(s: Scheduled, worker: string, secs: int) returns (s': Scheduled)
    requires StandsAlone(s, 3, NewCall()) && secs > 0
    ensures StandsAlone(s', 4, ClaimRow(NewCall(), worker, secs, 0))
    ensures s.run.steps < s'.run.steps && s.run.dbs < s'.run.dbs
  {
    CallSubmitted();
    EarlyHeartbeat(worker, secs);
    OnlyCallIsOldest(NewCall());
    s' := GoesAlone(s, 3, NewCall(), Claim(Some(0), worker, secs), ClaimRow(NewCall(), worker, secs, 0));
  }

  lemma ThenBeat(s: Scheduled, worker: string, secs: int) returns (s': Scheduled)
    requires StandsAlone(s, 4, ClaimRow(NewCall(), worker, secs, 0)) && secs > 0
    ensures s'.Valid() && s.run.dbs < s'.run.dbs && s'.run.steps == s.run.steps + [Step(0, Heartbeat(0, 1, secs))]
    ensures |s'.run.steps| == 5 && s'.run.Reply(4) == Done
  {
    var claimed := ClaimRow(NewCall(), worker, secs, 0);
    EarlyHeartbeat(worker, secs);
    s' := GoesAlone(s, 4, claimed, Heartbeat(0, 1, secs), HeartbeatRow(claimed, 1, secs, 0));
  }

  /** The heartbeat of a token that the next claim hands out: rejected, and after the claim accepted. */
  lemma HeartbeatIsAcceptedLater(worker: string, secs: int) returns (s: Scheduled)
    requires secs > 0
    ensures s.Valid() && |s.run.steps| == 5
    ensures s.run.steps[2].tx == s.run.steps[4].tx == Heartbeat(0, 1, secs)
    ensures s.run.Reply(2) == Stale && s.run.Reply(4) == Done
  {
    var s2 := OpensAlone();
    var s3 := EarlyBeat(s2, worker, secs);
    var s4 := ThenClaim(s3, worker, secs);
    s := ThenBeat(s4, worker, secs);
  }

  // ----- two schedulers -----

  /** A run shared by two scheduler processes, each with a program counter of its own. */
  datatype Shared = Shared(run: Run, a: seq<Pc>, b: seq<Pc>) {
    ghost predicate Valid() {
      && run.Valid()
      && |a| == |b| == |run.dbs|
      && a[0] == b[0] == Idle
      && (forall i :: 0 <= i < |run.steps| ==>
            OneMoves(run.dbs[i], run.steps[i], a[i], b[i], a[i + 1], b[i + 1]))
    }
  }

  ghost predicate OneMoves(db: Db, step: Step, a: Pc, b: Pc, a': Pc, b': Pc) {
    (Moves(db, a, step, a') && b' == b) || (Moves(db, b, step, b') && a' == a)
  }

  function ThenBoth(s: Shared, step: Step, db: Db, a: Pc, b: Pc): Shared {
    Shared(Then(s.run, step, db), s.a + [a], s.b + [b])
  }

  lemma SharedContinues(s: Shared, step: Step, db: Db, a: Pc, b: Pc)
    requires s.Valid() && Continues(s.run, step, db)
    requires OneMoves(End(s.run), step, s.a[|s.a| - 1], s.b[|s.b| - 1], a, b)
    ensures ThenBoth(s, step, db, a, b).Valid()
  {
    ContinuedIsValid(s.run, step, db);
  }

  /** For every sound row with an expired lease and an attempt to spare: both schedulers read it,
      the first reaps it, a worker claims and completes it, and the second, acting on its snapshot,
      makes the completed call ready again. */
  lemma StaleSnapshotReopensRow(r: Record, worker: string, result: Option<Json>, secs: int, now: Instant)
    requires Sound(r) && IsStale(r, now) && r.exec.attempts < r.exec.maxAttempts && TokenAvailable(r) && secs > 0
    ensures var reaped := ExpireRow(r, r.exec.attempts, r.exec.maxAttempts, now);
      && reaped.exec.status == Ready && TokenAvailable(reaped) && FreshToken(reaped) == FreshToken(r)
      && var claimed := ClaimRow(reaped, worker, secs, now);
         var completed := CompleteRow(claimed, FreshToken(r), worker, result, now);
         var reopened := ExpireRow(completed, r.exec.attempts, r.exec.maxAttempts, now);
         && Holds(claimed, FreshToken(r), now)
         && completed.exec.status == Completed
         && reopened.exec.status == Ready && reopened.exec.result == result
  {
  }

  /** Listed without an attempt to spare, it is reaped for good, and neither another reap of the same
      entry nor anything else that finds it as expected changes it. */
  lemma ReapedForGoodStays(r: Record, r': Record, op: RowOp, before: Instant, now: Instant)
    requires IsStale(r, before) && r.exec.attempts >= r.exec.maxAttempts
    requires r'.exec == ExpireRow(r, r.exec.attempts, r.exec.maxAttempts, before).exec && r'.lease.None?
    requires op == OpExpire(r.exec.attempts, r.exec.maxAttempts) || Guarded(r', op, now)
    ensures Apply(r', op, now).exec == r'.exec && Apply(r', op, now).lease.None?
  {
  }

  lemma OnlyCallIsListed(r: Record, now: Instant)
    requires IsStale(r, now)
    ensures EnumeratesStale(Single(r), now, [Expired(0, r.exec.attempts, r.exec.maxAttempts)])
  {
    var stale := [Expired(0, r.exec.attempts, r.exec.maxAttempts)];
    forall id | id in Single(r).rows
      ensures exists k :: 0 <= k < |stale| && stale[k].id == id
    {
      assert stale[0].id == id;
    }
  }

  // The stages of the one call in the run below.
  const RACE: Instant := 2 * SECOND

  function Leased(worker: string): Record {
    ClaimRow(NewCall(), worker, 1, 0)
  }

  function ReapedOnce(worker: string): Record {
    ExpireRow(Leased(worker), 1, 2, RACE)
  }

  function Retaken(worker: string): Record {
    ClaimRow(ReapedOnce(worker), worker, 30, RACE)
  }

  function Finished(worker: string, result: Option<Json>): Record {
    CompleteRow(Retaken(worker), 2, worker, result, RACE)
  }

  function ReapedTwice(worker: string, result: Option<Json>): Record {
    ExpireRow(Finished(worker, result), 1, 2, RACE)
  }

  const LISTED: seq<Expired> := [Expired(0, 1, 2)]

  lemma FirstClaim(worker: string)
    ensures Exec(Single(NewCall()), 0, Claim(Some(0), worker, 1)).db == Single(Leased(worker))
    ensures LegalPick(Single(NewCall()), Some(0))
    ensures Sound(Leased(worker)) && TokenAvailable(Leased(worker)) && FreshToken(Leased(worker)) == 2
    ensures Leased(worker).exec.attempts == 1 && Leased(worker).exec.maxAttempts == 2
    ensures IsStale(Leased(worker), RACE) && EnumeratesStale(Single(Leased(worker)), RACE, LISTED)
  {
    CallSubmitted();
    OnlyCallIsOldest(NewCall());
    SoundStep(NewCall(), OpClaim(worker, 1), 0);
    MaxTokenStep(NewCall(), OpClaim(worker, 1), 0);
    PutSingle(NewCall(), Leased(worker));
    OnlyCallIsListed(Leased(worker), RACE);
  }

  /** The shared run has n steps so far, the last one at the given time, and stands thus. */
  ghost predicate Stands(s: Shared, n: nat, at: Instant, r: Record, a: Pc, b: Pc) {
    && s.Valid() && |s.run.steps| == n > 0 && s.run.steps[n - 1].at == at
    && s.run.dbs[n] == Single(r) && s.a[n] == a && s.b[n] == b
  }

  lemma Goes(s: Shared, n: nat, at: Instant, r: Record, a: Pc, b: Pc, step: Step, r': Record, a': Pc, b': Pc)
    returns (s': Shared)
    requires Stands(s, n, at, r, a, b) && at <= step.at
    requires Enabled(Single(r), step.tx) && Exec(Single(r), step.at, step.tx).db == Single(r')
    requires OneMoves(Single(r), step, a, b, a', b')
    ensures Stands(s', n + 1, step.at, r', a', b')
    ensures s'.run.steps == s.run.steps + [step] && s.run.dbs < s'.run.dbs
  {
    SharedContinues(s, step, Single(r'), a', b');
    s' := ThenBoth(s, step, Single(r'), a', b');
  }

  lemma SharedOpening() returns (s: Shared)
    ensures Stands(s, 2, 0, NewCall(), Idle, Idle)
  {
    OpeningIsValid();
    s := Shared(Opening(), [Idle, Idle, Idle], [Idle, Idle, Idle]);
  }

  lemma WorkerClaims(s: Shared, worker: string) returns (s': Shared)
    requires Stands(s, 2, 0, NewCall(), Idle, Idle)
    ensures Stands(s', 3, 0, Leased(worker), Idle, Idle)
  {
    FirstClaim(worker);
    s' := Goes(s, 2, 0, NewCall(), Idle, Idle, Step(0, Claim(Some(0), worker, 1)), Leased(worker), Idle, Idle);
  }

  /** One after the other both schedulers list the expired lease. */
  lemma BothListIt(s: Shared, r: Record) returns (s': Shared)
    requires Stands(s, 3, 0, r, Idle, Idle) && EnumeratesStale(Single(r), RACE, LISTED)
    ensures Stands(s', 5, RACE, r, Reaping(LISTED), Reaping(LISTED))
    ensures s'.run.steps == s.run.steps + [Step(RACE, QueryStale(LISTED)), Step(RACE, QueryStale(LISTED))]
  {
    var query, listed := Step(RACE, QueryStale(LISTED)), Reaping(LISTED);
    var s4 := Goes(s, 3, 0, r, Idle, Idle, query, r, listed, Idle);
    s' := Goes(s4, 4, RACE, r, listed, Idle, query, r, listed, listed);
  }

  lemma FirstReaps(s: Shared, worker: string) returns (s': Shared)
    requires Stands(s, 5, RACE, Leased(worker), Reaping(LISTED), Reaping(LISTED))
    ensures Stands(s', 6, RACE, ReapedOnce(worker), Reaping([]), Reaping(LISTED))
    ensures s.run.steps < s'.run.steps
  {
    PutSingle(Leased(worker), ReapedOnce(worker));
    s' := Goes(s, 5, RACE, Leased(worker), Reaping(LISTED), Reaping(LISTED), Step(RACE, ExpireLease(0, 1, 2)),
               ReapedOnce(worker), Reaping([]), Reaping(LISTED));
  }

  lemma WorkerRetakes(s: Shared, worker: string) returns (s': Shared)
    requires Stands(s, 6, RACE, ReapedOnce(worker), Reaping([]), Reaping(LISTED))
    requires TokenAvailable(ReapedOnce(worker)) && ReapedOnce(worker).exec.status == Ready
    ensures Stands(s', 7, RACE, Retaken(worker), Reaping([]), Reaping(LISTED))
    ensures s.run.steps < s'.run.steps
  {
    OnlyCallIsOldest(ReapedOnce(worker));
    PutSingle(ReapedOnce(worker), Retaken(worker));
    s' := Goes(s, 6, RACE, ReapedOnce(worker), Reaping([]), Reaping(LISTED), Step(RACE, Claim(Some(0), worker, 30)),
               Retaken(worker), Reaping([]), Reaping(LISTED));
  }

  lemma WorkerCompletes(s: Shared, worker: string, result: Option<Json>) returns (s': Shared)
    requires Stands(s, 7, RACE, Retaken(worker), Reaping([]), Reaping(LISTED))
    requires Holds(Retaken(worker), 2, RACE)
    ensures Stands(s', 8, RACE, Finished(worker, result), Reaping([]), Reaping(LISTED))
    ensures s'.run.steps == s.run.steps + [Step(RACE, Complete(0, 2, worker, result))] && s'.run.Reply(7) == Done
  {
    PutSingle(Retaken(worker), Finished(worker, result));
    s' := Goes(s, 7, RACE, Retaken(worker), Reaping([]), Reaping(LISTED), Step(RACE, Complete(0, 2, worker, result)),
               Finished(worker, result), Reaping([]), Reaping(LISTED));
  }

  lemma SecondReaps(s: Shared, worker: string, result: Option<Json>) returns (s': Shared)
    requires Stands(s, 8, RACE, Finished(worker, result), Reaping([]), Reaping(LISTED))
    ensures Stands(s', 9, RACE, ReapedTwice(worker, result), Reaping([]), Reaping([]))
    ensures s.run.steps < s'.run.steps && s.run.dbs < s'.run.dbs
  {
    PutSingle(Finished(worker, result), ReapedTwice(worker, result));
    s' := Goes(s, 8, RACE, Finished(worker, result), Reaping([]), Reaping(LISTED), Step(RACE, ExpireLease(0, 1, 2)),
               ReapedTwice(worker, result), Reaping([]), Reaping([]));
  }

  /** So with two schedulers the guarantees end: here is a run in which both list one expired
      lease, and a Complete that was accepted in between does not last. */
  lemma TwoSchedulersReopenCompletedCall(worker: string, result: Option<Json>) returns (s: Shared)
    ensures s.Valid() && |s.run.steps| == 9
    ensures s.run.steps[3].tx.QueryStale? && s.run.steps[4].tx.QueryStale?
    ensures s.run.steps[7].tx == Complete(0, 2, worker, result) && s.run.Reply(7) == Done
    ensures 0 in s.run.dbs[8].rows && s.run.dbs[8].rows[0].exec.status == Completed
    ensures 0 in s.run.dbs[9].rows && s.run.dbs[9].rows[0].exec == s.run.dbs[8].rows[0].exec.(status := Ready)
  {
    FirstClaim(worker);
    StaleSnapshotReopensRow(Leased(worker), worker, result, 30, RACE);
    var s2 := SharedOpening();
    var s3 := WorkerClaims(s2, worker);
    var s5 := BothListIt(s3, Leased(worker));
    var s6 := FirstReaps(s5, worker);
    var s7 := WorkerRetakes(s6, worker);
    var s8 := WorkerCompletes(s7, worker, result);
    s := SecondReaps(s8, worker, result);
  }

  // ----- two schedulers promote one retry -----

  /** For every sound row with a due retry and a token left: both schedulers list it, the first
      promotes it, a worker claims it, and the second makes it ready under the worker's lease. */
  lemma SecondPromotionFreesLeasedRow(r: Record, worker: string, secs: int, now: Instant)
    requires Sound(r) && IsDue(r, now) && TokenAvailable(r) && secs > 0
    ensures var claimed := ClaimRow(PromoteRow(r, now), worker, secs, now);
      var freed := PromoteRow(claimed, now);
      && Holds(claimed, FreshToken(r), now) && claimed.exec.status == Running
      && Holds(freed, FreshToken(r), now) && freed.exec.status == Ready
      && MaxToken(freed.events) == Some(FreshToken(r))
  {
    var promoted := PromoteRow(r, now);
    MaxTokenStep(r, OpPromote, now);
    MaxTokenStep(promoted, OpClaim(worker, secs), now);
    MaxTokenStep(ClaimRow(promoted, worker, secs, now), OpPromote, now);
  }

  // The stages of the one call in the run below.

  function Attempted(worker: string): Record {
    ClaimRow(NewCall(), worker, 30, 0)
  }

  function Waiting(worker: string, error: string): Record {
    FailRow(Attempted(worker), 1, worker, error, 0)
  }

  function PromotedOnce(worker: string, error: string): Record {
    PromoteRow(Waiting(worker, error), RACE)
  }

  function Owned(worker: string, error: string): Record {
    ClaimRow(PromotedOnce(worker, error), worker, 30, RACE)
  }

  function PromotedTwice(worker: string, error: string): Record {
    PromoteRow(Owned(worker, error), RACE)
  }

  lemma FirstTry(worker: string, error: string)
    ensures Sound(Attempted(worker)) && Holds(Attempted(worker), 1, 0) && MaxToken(Attempted(worker).events) == Some(1)
    ensures Sound(Waiting(worker, error)) && MaxToken(Waiting(worker, error).events) == Some(1)
    ensures Waiting(worker, error).exec.status == Pending && IsDue(Waiting(worker, error), RACE)
    ensures Waiting(worker, error).exec.attempts == 1
  {
    BackoffExactIff(1);
    FirstAttempt(worker);
    var fail := OpFail(1, worker, error);
    SoundStep(Attempted(worker), fail, 0);
    MaxTokenStep(Attempted(worker), fail, 0);
  }

  lemma FirstAttempt(worker: string)
    ensures var r := Attempted(worker);
      && Sound(r) && Holds(r, 1, 0) && MaxToken(r.events) == Some(1)
      && r.exec.attempts == 1 && r.exec.maxAttempts == 2
  {
    CallSubmitted();
    SoundStep(NewCall(), OpClaim(worker, 30), 0);
    MaxTokenStep(NewCall(), OpClaim(worker, 30), 0);
  }

  lemma WorkerTries(s: Shared, worker: string) returns (s': Shared)
    requires Stands(s, 2, 0, NewCall(), Idle, Idle)
    ensures Stands(s', 3, 0, Attempted(worker), Idle, Idle)
  {
    CallSubmitted();
    OnlyCallIsOldest(NewCall());
    PutSingle(NewCall(), Attempted(worker));
    s' := Goes(s, 2, 0, NewCall(), Idle, Idle, Step(0, Claim(Some(0), worker, 30)), Attempted(worker), Idle, Idle);
  }

  lemma WorkerFails(s: Shared, worker: string, error: string) returns (s': Shared)
    requires Stands(s, 3, 0, Attempted(worker), Idle, Idle)
    ensures Stands(s', 4, 0, Waiting(worker, error), Idle, Idle)
  {
    PutSingle(Attempted(worker), Waiting(worker, error));
    s' := Goes(s, 3, 0, Attempted(worker), Idle, Idle, Step(0, Fail(0, 1, worker, error)),
               Waiting(worker, error), Idle, Idle);
  }

  lemma OnlyCallIsDue(r: Record, now: Instant)
    requires r.exec.status == Pending && IsDue(r, now)
    ensures EnumeratesStale(Single(r), now, []) && EnumeratesDue(Single(r), now, [0])
  {
  }

  /** Both schedulers find nothing stale and list the due retry. */
  lemma BothListRetry(s: Shared, r: Record) returns (s': Shared)
    requires Stands(s, 4, 0, r, Idle, Idle)
    requires EnumeratesStale(Single(r), RACE, []) && EnumeratesDue(Single(r), RACE, [0])
    ensures Stands(s', 8, RACE, r, Promoting([0]), Promoting([0]))
    ensures s'.run.steps == s.run.steps + [Step(RACE, QueryStale([])), Step(RACE, QueryDue([0])),
                                           Step(RACE, QueryStale([])), Step(RACE, QueryDue([0]))]
  {
    var stale, due := Step(RACE, QueryStale([])), Step(RACE, QueryDue([0]));
    var s5 := Goes(s, 4, 0, r, Idle, Idle, stale, r, Reaping([]), Idle);
    var s6 := Goes(s5, 5, RACE, r, Reaping([]), Idle, due, r, Promoting([0]), Idle);
    var s7 := Goes(s6, 6, RACE, r, Promoting([0]), Idle, stale, r, Promoting([0]), Reaping([]));
    s' := Goes(s7, 7, RACE, r, Promoting([0]), Reaping([]), due, r, Promoting([0]), Promoting([0]));
  }

  lemma FirstPromotes(s: Shared, worker: string, error: string) returns (s': Shared)
    requires Stands(s, 8, RACE, Waiting(worker, error), Promoting([0]), Promoting([0]))
    ensures Stands(s', 9, RACE, PromotedOnce(worker, error), Promoting([]), Promoting([0]))
    ensures s.run.steps < s'.run.steps
  {
    PutSingle(Waiting(worker, error), PromotedOnce(worker, error));
    s' := Goes(s, 8, RACE, Waiting(worker, error), Promoting([0]), Promoting([0]), Step(RACE, PromoteRetry(0)),
               PromotedOnce(worker, error), Promoting([]), Promoting([0]));
  }

  lemma WorkerOwns(s: Shared, worker: string, error: string) returns (s': Shared)
    requires Stands(s, 9, RACE, PromotedOnce(worker, error), Promoting([]), Promoting([0]))
    requires TokenAvailable(PromotedOnce(worker, error))
    ensures Stands(s', 10, RACE, Owned(worker, error), Promoting([]), Promoting([0]))
    ensures s.run.steps < s'.run.steps
  {
    OnlyCallIsOldest(PromotedOnce(worker, error));
    PutSingle(PromotedOnce(worker, error), Owned(worker, error));
    s' := Goes(s, 9, RACE, PromotedOnce(worker, error), Promoting([]), Promoting([0]),
               Step(RACE, Claim(Some(0), worker, 30)), Owned(worker, error), Promoting([]), Promoting([0]));
  }

  lemma SecondPromotes(s: Shared, worker: string, error: string) returns (s': Shared)
    requires Stands(s, 10, RACE, Owned(worker, error), Promoting([]), Promoting([0]))
    ensures Stands(s', 11, RACE, PromotedTwice(worker, error), Promoting([]), Promoting([]))
    ensures s.run.steps < s'.run.steps
  {
    PutSingle(Owned(worker, error), PromotedTwice(worker, error));
    s' := Goes(s, 10, RACE, Owned(worker, error), Promoting([]), Promoting([0]), Step(RACE, PromoteRetry(0)),
               PromotedTwice(worker, error), Promoting([]), Promoting([]));
  }

  lemma RivalClaims(s: Shared, r: Record, rival: string) returns (s': Shared)
    requires Stands(s, 11, RACE, r, Promoting([]), Promoting([]))
    requires r.exec.status == Ready && MaxToken(r.events) == Some(2)
    ensures s'.Valid() && |s'.run.steps| == 12 && s.run.steps < s'.run.steps && s.run.dbs < s'.run.dbs
    ensures s'.run.Reply(11).Claimed? && s'.run.Reply(11).claim.id == 0 && s'.run.Reply(11).claim.token == 3
    ensures s'.run.Reply(11).claim.attempts == r.exec.attempts + 1
  {
    OnlyCallIsOldest(r);
    PutSingle(r, ClaimRow(r, rival, 30, RACE));
    s' := Goes(s, 11, RACE, r, Promoting([]), Promoting([]), Step(RACE, Claim(Some(0), rival, 30)),
               ClaimRow(r, rival, 30, RACE), Promoting([]), Promoting([]));
  }

  /** What the two promotions and the claim between them make of the call. */
  lemma RetryRace(worker: string, error: string)
    ensures TokenAvailable(PromotedOnce(worker, error))
    ensures var r := PromotedTwice(worker, error);
      && r.exec.status == Ready && r.exec.attempts == 2 == r.exec.maxAttempts
      && Holds(r, 2, RACE) && MaxToken(r.events) == Some(2)
  {
    FirstTry(worker, error);
    MaxTokenStep(Waiting(worker, error), OpPromote, RACE);
    SecondPromotionFreesLeasedRow(Waiting(worker, error), worker, 30, RACE);
  }

  /** The failed call is listed for promotion by both. */
  lemma BothListFailedCall(worker: string, error: string) returns (s: Shared)
    ensures Stands(s, 8, RACE, Waiting(worker, error), Promoting([0]), Promoting([0]))
    ensures s.run.steps[5].tx == s.run.steps[7].tx == QueryDue([0])
  {
    FirstTry(worker, error);
    OnlyCallIsDue(Waiting(worker, error), RACE);
    var s2 := SharedOpening();
    var s3 := WorkerTries(s2, worker);
    var s4 := WorkerFails(s3, worker, error);
    s := BothListRetry(s4, Waiting(worker, error));
  }

  lemma BothPromote(s: Shared, worker: string, error: string) returns (s': Shared)
    requires Stands(s, 8, RACE, Waiting(worker, error), Promoting([0]), Promoting([0]))
    requires TokenAvailable(PromotedOnce(worker, error))
    ensures Stands(s', 11, RACE, PromotedTwice(worker, error), Promoting([]), Promoting([]))
    ensures s.run.steps < s'.run.steps
  {
    var s9 := FirstPromotes(s, worker, error);
    var s10 := WorkerOwns(s9, worker, error);
    s' := SecondPromotes(s10, worker, error);
  }

  /** The second loop of a pass has the same gap: here is a run in which two schedulers list one due
      retry, and the second promotion puts an execution up for claiming while its lease is live. The
      next claim then is the third of a call with two attempts, and has an owner beside it. */
  lemma TwoSchedulersFreeLeasedCall(worker: string, error: string, rival: string) returns (s: Shared)
    ensures s.Valid() && |s.run.steps| == 12
    ensures s.run.steps[5].tx == s.run.steps[7].tx == QueryDue([0])
    ensures 0 in s.run.dbs[11].rows && Holds(s.run.dbs[11].rows[0], 2, s.run.steps[10].at)
    ensures s.run.Reply(11).Claimed? && s.run.Reply(11).claim.id == 0 && s.run.Reply(11).claim.token == 3
    ensures s.run.Reply(11).claim.attempts == 3 > Budget(s.run.dbs[11].rows[0].exec)
  {
    RetryRace(worker, error);
    var s8 := BothListFailedCall(worker, error);
    var s11 := BothPromote(s8, worker, error);
    s := RivalClaims(s11, PromotedTwice(worker, error), rival);
  }
}
