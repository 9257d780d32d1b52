/** The dashboard's aggregate views, and what they must add up to. */
module Views {
  import opened Types
  import opened Coupling
  import opened Database

  datatype Stats = Totals(total: nat, ready: nat, running: nat, completed: nat, failed: nat, activeLeases: nat)

  datatype WorkerInfo = WorkerInfo(worker: string, claimed: nat)

  function WithStatus(db: Db, status: Status): set<Id> {
    set id | id in db.rows && db.rows[id].exec.status == status
  }

  function LiveLeases(db: Db, now: Instant): set<Id> {
    set id | id in db.rows && db.rows[id].lease.Some? && db.rows[id].lease.value.expires > now
  }

  function WithRetry(db: Db): set<Id> {
    set id | id in db.rows && db.rows[id].retry.Some?
  }

  function LeasesOf(db: Db, now: Instant, worker: string): set<Id> {
    set id | id in LiveLeases(db, now) && db.rows[id].lease.value.worker == worker
  }

  function StatsOf(db: Db, now: Instant): Stats {
    Totals(|db.rows|, |WithStatus(db, Ready)|, |WithStatus(db, Running)|, |WithStatus(db, Completed)|,
          |WithStatus(db, Failed)|, |LiveLeases(db, now)|)
  }

  /** One entry for each worker with a live lease, counting its live leases. */
  ghost predicate WorkersAgree(db: Db, now: Instant, workers: seq<WorkerInfo>) {
    && (forall k :: 0 <= k < |workers| ==>
          workers[k].claimed == |LeasesOf(db, now, workers[k].worker)| && workers[k].claimed > 0)
    && (forall k, m :: 0 <= k < m < |workers| ==> workers[k].worker != workers[m].worker)
    && (forall id :: id in LiveLeases(db, now) ==>
          exists k :: 0 <= k < |workers| && workers[k].worker == db.rows[id].lease.value.worker)
  }

  lemma DisjointUnionSize(a: set<Id>, b: set<Id>)
    requires a !! b
    ensures |a + b| == |a| + |b|
  {
  }

  lemma PartsSize(all: set<Id>, part: set<Id>)
    requires part <= all
    ensures |all| == |part| + |all - part|
  {
  }

  lemma SubsetSize(a: set<Id>, b: set<Id>)
    requires a <= b
    ensures |a| <= |b|
    ensures |a| == |b| <==> a == b
  {
    assert b == a + (b - a);
    DisjointUnionSize(a, b - a);
  }

  lemma RetriesArePending(db: Db)
    requires forall id :: id in db.rows ==> Coupled(db.rows[id])
    ensures forall id :: id in db.rows ==> (id in WithRetry(db) <==> db.rows[id].exec.status == Pending)
    ensures forall id :: id in db.rows ==> db.rows[id].exec.status != Cancelled
  {
  }

  function WithAny(db: Db, statuses: set<Status>): set<Id> {
    set id | id in db.rows && db.rows[id].exec.status in statuses
  }

  lemma SplitOff(db: Db, status: Status, rest: set<Status>)
    requires status !in rest
    ensures |WithAny(db, {status} + rest)| == |WithStatus(db, status)| + |WithAny(db, rest)|
  {
    assert WithAny(db, {status} + rest) - WithStatus(db, status) == WithAny(db, rest);
    PartsSize(WithAny(db, {status} + rest), WithStatus(db, status));
  }

  /** Six statuses, one of them unused, split the table. */
  lemma StatusesSplit(db: Db)
    requires forall id :: id in db.rows ==> db.rows[id].exec.status != Cancelled
    ensures |db.rows| == |WithStatus(db, Ready)| + |WithStatus(db, Running)| + |WithStatus(db, Completed)|
                         + |WithStatus(db, Failed)| + |WithStatus(db, Pending)|
  {
    SplitOff(db, Failed, {Pending});
    SplitOff(db, Completed, {Failed} + {Pending});
    SplitOff(db, Running, {Completed} + ({Failed} + {Pending}));
    SplitOff(db, Ready, {Running} + ({Completed} + ({Failed} + {Pending})));
    assert WithAny(db, {Pending}) == WithStatus(db, Pending);
    assert WithAny(db, {Ready} + ({Running} + ({Completed} + ({Failed} + {Pending})))) == db.rows.Keys;
    assert |db.rows| == |db.rows.Keys|;
  }

  /** The statuses the view leaves out are exactly the executions waiting for a retry. */
  lemma StatusesAddUp(db: Db, now: Instant)
    requires forall id :: id in db.rows ==> Coupled(db.rows[id])
    ensures var s := StatsOf(db, now); s.total - (s.ready + s.running + s.completed + s.failed) == |WithRetry(db)|
  {
    RetriesArePending(db);
    assert WithRetry(db) == WithStatus(db, Pending);
    StatusesSplit(db);
  }

  /** Live leases never outnumber running executions, and they are as many exactly when no lease
      has expired. */
  lemma LeasesAddUp(db: Db, now: Instant)
    requires forall id :: id in db.rows ==> Coupled(db.rows[id])
    ensures var s := StatsOf(db, now);
      && s.activeLeases <= s.running
      && (s.activeLeases == s.running <==>
            forall id :: id in db.rows && db.rows[id].lease.Some? ==> db.rows[id].lease.value.expires > now)
  {
    var live, running := LiveLeases(db, now), WithStatus(db, Running);
    forall id | id in db.rows
      ensures db.rows[id].lease.Some? <==> id in running
    {
      assert Coupled(db.rows[id]);
    }
    SubsetSize(live, running);
    if live == running {
      forall id | id in db.rows && db.rows[id].lease.Some?
        ensures db.rows[id].lease.value.expires > now
      {
        assert id in live;
      }
    }
  }

  function ClaimedSum(workers: seq<WorkerInfo>): nat {
    if workers == [] then 0 else ClaimedSum(workers[..|workers| - 1]) + workers[|workers| - 1].claimed
  }

  ghost function LeasesOfAll(db: Db, now: Instant, workers: seq<WorkerInfo>): set<Id> {
    set id |
      && id in LiveLeases(db, now)
      && exists k :: 0 <= k < |workers| && workers[k].worker == db.rows[id].lease.value.worker
  }

  lemma OneMoreWorker(db: Db, now: Instant, front: seq<WorkerInfo>, last: WorkerInfo)
    requires forall k :: 0 <= k < |front| ==> front[k].worker != last.worker
    ensures LeasesOfAll(db, now, front) !! LeasesOf(db, now, last.worker)
    ensures LeasesOfAll(db, now, front + [last]) == LeasesOfAll(db, now, front) + LeasesOf(db, now, last.worker)
  {
    var all := front + [last];
    forall id | id in LiveLeases(db, now)
      ensures id in LeasesOfAll(db, now, all) <==>
              id in LeasesOfAll(db, now, front) || id in LeasesOf(db, now, last.worker)
    {
      assert all[|front|] == last;
      if k :| 0 <= k < |front| && front[k].worker == db.rows[id].lease.value.worker {
        assert all[k] == front[k];
      }
    }
  }

  lemma {:induction false} SumOfDistinctWorkers(db: Db, now: Instant, workers: seq<WorkerInfo>)
    requires forall k :: 0 <= k < |workers| ==> workers[k].claimed == |LeasesOf(db, now, workers[k].worker)|
    requires forall k, m :: 0 <= k < m < |workers| ==> workers[k].worker != workers[m].worker
    ensures ClaimedSum(workers) == |LeasesOfAll(db, now, workers)|
  {
    if workers != [] {
      var front, last := workers[..|workers| - 1], workers[|workers| - 1];
      assert workers == front + [last];
      SumOfDistinctWorkers(db, now, front);
      OneMoreWorker(db, now, front, last);
      DisjointUnionSize(LeasesOfAll(db, now, front), LeasesOf(db, now, last.worker));
    }
  }

  /** The per-worker counts of ListWorkers sum to the ActiveLeases of Stats. */
  lemma WorkersAddUp(db: Db, now: Instant, workers: seq<WorkerInfo>)
    requires WorkersAgree(db, now, workers)
    ensures ClaimedSum(workers) == StatsOf(db, now).activeLeases
  {
    SumOfDistinctWorkers(db, now, workers);
    assert LeasesOfAll(db, now, workers) == LiveLeases(db, now);
  }
}
