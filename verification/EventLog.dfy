/** Readings of one execution's event history, oldest event first. */
module EventLog {
  import opened Types

  function Front(es: seq<Event>): seq<Event>
    requires es != []
  {
    es[..|es| - 1]
  }

  function Last(es: seq<Event>): Event
    requires es != []
  {
    es[|es| - 1]
  }

  function Count(es: seq<Event>, kind: EventType): nat {
    if es == [] then 0 else Count(Front(es), kind) + (if Last(es).kind == kind then 1 else 0)
  }

  /** MAX(fencing_token), NULL when no event carries a token. */
  function MaxToken(es: seq<Event>): Option<Int64> {
    if es == [] then None
    else
      var m := MaxToken(Front(es));
      match Last(es).token
      case None => m
      case Some(t) => if m.Some? && m.value >= t then m else Some(t)
  }

  /** COALESCE(MAX(fencing_token), 0) + 1, which may leave the BIGINT range. */
  function NextToken(es: seq<Event>): int {
    MaxToken(es).GetOr(0) + 1
  }

  /** An event that only the current token holder can cause and that ends its claim. */
  predicate IsReport(e: Event) {
    e.kind == EvCompleted || e.kind == EvRetryScheduled || (e.kind == EvFailed && e.token.Some?)
  }

  /** The token of the latest claim, as long as no report on that claim was accepted. */
  function Owner(es: seq<Event>): Option<Int64> {
    if es == [] then None
    else if Last(es).kind == EvClaimed then Last(es).token
    else if IsReport(Last(es)) then None
    else Owner(Front(es))
  }

  // ----- replay: what the history alone says about the execution -----

  datatype Holder = Holder(worker: string, token: Int64)

  datatype Snapshot = Snapshot(
    status: Status,
    attempts: nat,
    error: Option<string>,
    holder: Option<Holder>,
    retry: Option<nat>
  )

  function ErrorOf(p: Payload): Option<string> {
    match p
    case Reason(text) => Some(text)
    case Failure(text, _) => Some(text)
    case RetryPlan(text, _, _) => Some(text)
    case _ => None
  }

  function AttemptOf(p: Payload): nat {
    match p
    case Attempt(n) => n
    case Failure(_, n) => n
    case RetryPlan(_, n, _) => n
    case _ => 0
  }

  function ReplayOne(s: Snapshot, e: Event): Snapshot {
    match e.kind
    case EvSubmitted => Snapshot(Pending, 0, None, None, None)
    case EvReady => s.(status := Ready, retry := None)
    case EvClaimed =>
      s.(status := Running,
         attempts := AttemptOf(e.payload),
         holder := if e.token.Some? then Some(Holder(e.worker.GetOr(""), e.token.value)) else None)
    case EvHeartbeat => s
    case EvCompleted => s.(status := Completed, error := None, holder := None)
    case EvFailed => s.(status := Failed, error := ErrorOf(e.payload), holder := None)
    case EvLeaseExpired => s.(status := Ready, holder := None)
    case EvStaleRejected => s
    case EvRetryScheduled =>
      s.(status := Pending, error := ErrorOf(e.payload), holder := None, retry := Some(AttemptOf(e.payload)))
    case EvCancelled => s.(status := Cancelled)
    case EvDuplicateDetected => s
  }

  function Replay(es: seq<Event>): Snapshot {
    if es == [] then Snapshot(Pending, 0, None, None, None) else ReplayOne(Replay(Front(es)), Last(es))
  }

  /** Heartbeats, rejected reports and duplicate submissions leave no trace in the tables. */
  predicate IsNoise(e: Event) {
    e.kind == EvHeartbeat || e.kind == EvStaleRejected || e.kind == EvDuplicateDetected
  }

  function WithoutNoise(es: seq<Event>): seq<Event> {
    if es == [] then []
    else if IsNoise(Last(es)) then WithoutNoise(Front(es))
    else WithoutNoise(Front(es)) + [Last(es)]
  }

  lemma {:induction false} NoiseIsIrrelevant(es: seq<Event>)
    ensures Replay(WithoutNoise(es)) == Replay(es)
  {
    if es != [] {
      NoiseIsIrrelevant(Front(es));
      var kept := WithoutNoise(Front(es));
      assert Front(kept + [Last(es)]) == kept;
    }
  }

  // ----- retries -----

  /** A retry planned for the past is not waited for, and cancels no other waiting. */
  function Wait(seconds: int): nat {
    if seconds > 0 then seconds else 0
  }

  function BackoffSum(es: seq<Event>): nat {
    if es == [] then 0
    else BackoffSum(Front(es)) + (if Last(es).payload.RetryPlan? then Wait(Last(es).payload.backoffSeconds) else 0)
  }

  /** Retries, and only they, carry a retry plan. */
  ghost predicate PlansMarkRetries(es: seq<Event>) {
    forall i :: 0 <= i < |es| ==> (es[i].kind == EvRetryScheduled <==> es[i].payload.RetryPlan?)
  }

  // ----- order -----

  ghost predicate Chronological(es: seq<Event>, now: Instant) {
    (forall i :: 0 <= i < |es| ==> es[i].at <= now) && InOrder(es)
  }

  ghost predicate InOrder(es: seq<Event>) {
    forall i, j :: 0 <= i < j < |es| ==> es[i].at <= es[j].at
  }

  /** ORDER BY occurred_at, id, where the ids grow in the order of insertion. */
  function InsertByTime(sorted: seq<Event>, e: Event): seq<Event> {
    if sorted == [] || Last(sorted).at <= e.at then sorted + [e]
    else InsertByTime(Front(sorted), e) + [Last(sorted)]
  }

  function SortByTime(es: seq<Event>): seq<Event> {
    if es == [] then [] else InsertByTime(SortByTime(Front(es)), Last(es))
  }

  /** The events of one instant, in their order. */
  function EventsAt(es: seq<Event>, t: Instant): seq<Event> {
    if es == [] then [] else EventsAt(Front(es), t) + (if Last(es).at == t then [Last(es)] else [])
  }

  lemma {:induction false} InsertKeepsAll(sorted: seq<Event>, e: Event)
    ensures multiset(InsertByTime(sorted, e)) == multiset(sorted) + multiset{e}
  {
    if sorted != [] && Last(sorted).at > e.at {
      var front, last := Front(sorted), Last(sorted);
      InsertKeepsAll(front, e);
      var list := InsertByTime(front, e);
      assert multiset(list + [last]) == multiset(list) + multiset{last};
      assert sorted == front + [last];
      assert multiset(front + [last]) == multiset(front) + multiset{last};
    }
  }

  lemma {:induction false} InsertKeepsOrder(sorted: seq<Event>, e: Event)
    requires InOrder(sorted)
    ensures InOrder(InsertByTime(sorted, e))
  {
    if sorted != [] && Last(sorted).at > e.at {
      var front, last := Front(sorted), Last(sorted);
      InsertKeepsOrder(front, e);
      InsertKeepsAll(front, e);
      var list := InsertByTime(front, e);
      forall i | 0 <= i < |list|
        ensures list[i].at <= last.at
      {
        assert list[i] in multiset(list);
        assert list[i] in front || list[i] == e;
      }
    }
  }

  lemma {:induction false} InsertKeepsTies(sorted: seq<Event>, e: Event, t: Instant)
    ensures EventsAt(InsertByTime(sorted, e), t) == EventsAt(sorted, t) + (if e.at == t then [e] else [])
  {
    var list := InsertByTime(sorted, e);
    if sorted == [] || Last(sorted).at <= e.at {
      assert Front(list) == sorted;
    } else {
      var front, last := Front(sorted), Last(sorted);
      InsertKeepsTies(front, e, t);
      assert Front(list) == InsertByTime(front, e) && Last(list) == last;
      assert e.at == t ==> last.at != t;
    }
  }

  /** The listing is ordered by time, holds exactly the given events, and keeps those of one
      instant in their order. */
  lemma {:induction false} SortedStably(es: seq<Event>)
    ensures InOrder(SortByTime(es))
    ensures multiset(SortByTime(es)) == multiset(es)
    ensures forall t :: EventsAt(SortByTime(es), t) == EventsAt(es, t)
  {
    if es != [] {
      var list := SortByTime(Front(es));
      SortedStably(Front(es));
      InsertKeepsOrder(list, Last(es));
      InsertKeepsAll(list, Last(es));
      assert es == Front(es) + [Last(es)];
      forall t
        ensures EventsAt(SortByTime(es), t) == EventsAt(es, t)
      {
        InsertKeepsTies(list, Last(es), t);
      }
    }
  }

  /** A history that was written in chronological order is listed in the order it was written. */
  lemma {:induction false} ListedAsWritten(es: seq<Event>, now: Instant)
    requires Chronological(es, now)
    ensures SortByTime(es) == es
  {
    if es != [] {
      ListedAsWritten(Front(es), now);
      if |es| > 1 {
        assert Last(Front(es)) == es[|es| - 2];
      }
    }
  }

  /** How each reading of the history changes when one event is appended. */
  lemma Appended(es: seq<Event>, e: Event)
    ensures Front(es + [e]) == es && Last(es + [e]) == e
    ensures forall kind :: Count(es + [e], kind) == Count(es, kind) + (if e.kind == kind then 1 else 0)
  {
    assert Front(es + [e]) == es;
  }

  lemma {:induction false} MaxTokenBounds(es: seq<Event>, i: nat)
    requires i < |es| && es[i].token.Some?
    ensures MaxToken(es).Some? && es[i].token.value <= MaxToken(es).value
  {
    if i < |es| - 1 {
      MaxTokenBounds(Front(es), i);
    }
  }
}
