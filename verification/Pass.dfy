/** One uninterrupted pass of the scheduler at a given time, as a function of the tables. */
module Pass {
  import opened Types
  import opened Rows
  import opened Coupling
  import opened Database

  predicate StaleEntry(db: Db, x: Expired, now: Instant) {
    && x.id in db.rows
    && IsStale(db.rows[x.id], now)
    && x.attempts == db.rows[x.id].exec.attempts
    && x.maxAttempts == db.rows[x.id].exec.maxAttempts
  }

  predicate DueEntry(db: Db, id: Id, now: Instant) {
    id in db.rows && IsDue(db.rows[id], now)
  }

  /** The first query: every running execution whose lease has expired, once, in any order. */
  ghost predicate EnumeratesStale(db: Db, now: Instant, stale: seq<Expired>) {
    && (forall k :: 0 <= k < |stale| ==> StaleEntry(db, stale[k], now))
    && (forall k, m :: 0 <= k < m < |stale| ==> stale[k].id != stale[m].id)
    && (forall id :: id in db.rows && IsStale(db.rows[id], now) ==> exists k :: 0 <= k < |stale| && stale[k].id == id)
  }

  /** The second query: every retry row that is due, once, in any order. */
  ghost predicate EnumeratesDue(db: Db, now: Instant, due: seq<Id>) {
    && (forall k :: 0 <= k < |due| ==> DueEntry(db, due[k], now))
    && (forall k, m :: 0 <= k < m < |due| ==> due[k] != due[m])
    && (forall id :: id in db.rows && IsDue(db.rows[id], now) ==> id in due)
  }

  ghost function StaleIds(db: Db, now: Instant): set<Id> {
    set id | id in db.rows && IsStale(db.rows[id], now)
  }

  ghost function DueIds(db: Db, now: Instant): set<Id> {
    set id | id in db.rows && IsDue(db.rows[id], now)
  }

  // ----- row by row -----

  function ReapedRow(r: Record, now: Instant): Record {
    if IsStale(r, now) then ExpireRow(r, r.exec.attempts, r.exec.maxAttempts, now) else r
  }

  function PromotedRow(r: Record, now: Instant): Record {
    if IsDue(r, now) then PromoteRow(r, now) else r
  }

  function ReapedDb(db: Db, now: Instant): Db {
    db.(rows := map id | id in db.rows :: ReapedRow(db.rows[id], now))
  }

  function PromotedDb(db: Db, now: Instant): Db {
    db.(rows := map id | id in db.rows :: PromotedRow(db.rows[id], now))
  }

  function PassDb(db: Db, now: Instant): Db {
    PromotedDb(ReapedDb(db, now), now)
  }

  // ----- transaction by transaction -----

  function AfterReaping(db: Db, now: Instant, stale: seq<Expired>): Db {
    if stale == [] then db
    else
      var x := stale[|stale| - 1];
      ExecExpire(AfterReaping(db, now, stale[..|stale| - 1]), now, x.id, x.attempts, x.maxAttempts).db
  }

  function AfterPromoting(db: Db, now: Instant, due: seq<Id>): Db {
    if due == [] then db
    else ExecPromote(AfterPromoting(db, now, due[..|due| - 1]), now, due[|due| - 1]).db
  }

  ghost predicate WasListed(stale: seq<Expired>, n: nat, id: Id)
    requires n <= |stale|
  {
    exists k :: 0 <= k < n && stale[k].id == id
  }

  /** Reaping one row leaves the others, in particular those still in the snapshot. */
  lemma {:induction false} ReapingKeepsOthers(db: Db, now: Instant, stale: seq<Expired>, n: nat)
    requires n <= |stale|
    requires forall k :: 0 <= k < |stale| ==> StaleEntry(db, stale[k], now)
    requires forall k, m :: 0 <= k < m < |stale| ==> stale[k].id != stale[m].id
    ensures var db' := AfterReaping(db, now, stale[..n]);
      && db'.tools == db.tools && db'.index == db.index && db'.rows.Keys == db.rows.Keys
      && (forall id :: id in db.rows ==>
            db'.rows[id] == if WasListed(stale, n, id) then ReapedRow(db.rows[id], now) else db.rows[id])
  {
    if n > 0 {
      ReapingKeepsOthers(db, now, stale, n - 1);
      assert stale[..n][..n - 1] == stale[..n - 1];
      var x := stale[n - 1];
      var earlier := AfterReaping(db, now, stale[..n - 1]);
      assert !WasListed(stale, n - 1, x.id);
      assert AfterReaping(db, now, stale[..n]) == Put(earlier, x.id, ReapedRow(db.rows[x.id], now));
      forall id
        ensures WasListed(stale, n, id) <==> WasListed(stale, n - 1, id) || id == x.id
      {
        if id == x.id {
          assert stale[n - 1].id == id;
        }
      }
    }
  }

  lemma ReapingIsReapedDb(db: Db, now: Instant, stale: seq<Expired>)
    requires EnumeratesStale(db, now, stale)
    ensures AfterReaping(db, now, stale) == ReapedDb(db, now)
  {
    ReapingKeepsOthers(db, now, stale, |stale|);
    assert stale[..|stale|] == stale;
    var db' := AfterReaping(db, now, stale);
    forall id | id in db.rows
      ensures db'.rows[id] == ReapedRow(db.rows[id], now)
    {
      assert IsStale(db.rows[id], now) ==> WasListed(stale, |stale|, id);
    }
  }

  lemma DueAfterReaping(db: Db, now: Instant)
    ensures DueIds(ReapedDb(db, now), now) == DueIds(db, now)
  {
  }

  lemma {:induction false} PromotingKeepsOthers(db: Db, now: Instant, due: seq<Id>, n: nat)
    requires n <= |due|
    requires forall k :: 0 <= k < |due| ==> DueEntry(db, due[k], now)
    requires forall k, m :: 0 <= k < m < |due| ==> due[k] != due[m]
    ensures var db' := AfterPromoting(db, now, due[..n]);
      && db'.tools == db.tools && db'.index == db.index && db'.rows.Keys == db.rows.Keys
      && (forall id :: id in db.rows ==>
            db'.rows[id] == if id in due[..n] then PromotedRow(db.rows[id], now) else db.rows[id])
  {
    if n > 0 {
      PromotingKeepsOthers(db, now, due, n - 1);
      assert due[..n][..n - 1] == due[..n - 1];
      assert due[..n] == due[..n - 1] + [due[n - 1]];
      assert due[n - 1] !in due[..n - 1];
    }
  }

  lemma PromotingIsPromotedDb(db: Db, now: Instant, due: seq<Id>)
    requires EnumeratesDue(db, now, due)
    ensures AfterPromoting(db, now, due) == PromotedDb(db, now)
  {
    PromotingKeepsOthers(db, now, due, |due|);
    assert due[..|due|] == due;
    var db' := AfterPromoting(db, now, due);
    forall id | id in db.rows
      ensures db'.rows[id] == PromotedRow(db.rows[id], now)
    {
    }
  }

  // ----- what a pass achieves -----

  function PassRow(r: Record, now: Instant): Record {
    PromotedRow(ReapedRow(r, now), now)
  }

  /** An expired lease sends a row back to ready if it has an attempt to spare and fails it
      otherwise; a due retry sends it back to ready; every other row is left alone. */
  lemma PassMovesRows(r: Record, now: Instant)
    requires Coupled(r)
    ensures var r' := PassRow(r, now);
            var expired := r.exec.status == Running && r.lease.Some? && r.lease.value.expires < now;
            var due := r.retry.Some? && r.retry.value.at <= now;
      && (r'.lease.Some? ==> r'.lease.value.expires >= now) && (r'.retry.Some? ==> r'.retry.value.at > now)
      && (expired ==> r'.exec.status == if r.exec.attempts < Budget(r.exec) then Ready else Failed)
      && (due ==> r'.exec.status == Ready && r'.exec.error == r.exec.error)
      && (!expired && !due ==> r' == r)
      && r'.exec.attempts == r.exec.attempts && r'.exec.maxAttempts == r.exec.maxAttempts
  {
  }

  lemma PassOnRow(db: Db, now: Instant, id: Id)
    requires id in db.rows
    ensures PassDb(db, now).rows.Keys == db.rows.Keys
    ensures PassDb(db, now).rows[id] == PassRow(db.rows[id], now)
  {
  }

  ghost predicate CoupledDb(db: Db) {
    forall id :: id in db.rows ==> Coupled(db.rows[id])
  }

  /** After a pass no expired lease and no due retry is left, so a second pass at the same time
      finds nothing to do and answers 0. */
  lemma SecondPassIsIdle(db: Db, now: Instant)
    requires CoupledDb(db)
    ensures StaleIds(PassDb(db, now), now) == {} && DueIds(PassDb(db, now), now) == {}
    ensures PassDb(PassDb(db, now), now) == PassDb(db, now)
  {
    var db' := PassDb(db, now);
    forall id | id in db'.rows
      ensures !IsStale(db'.rows[id], now) && !IsDue(db'.rows[id], now)
    {
      PassOnRow(db, now, id);
      PassMovesRows(db.rows[id], now);
    }
    IdlePass(db', now);
  }

  lemma IdlePass(db: Db, now: Instant)
    requires forall id :: id in db.rows ==> !IsStale(db.rows[id], now) && !IsDue(db.rows[id], now)
    ensures StaleIds(db, now) == {} && DueIds(db, now) == {}
    ensures PassDb(db, now) == db
  {
  }
}
