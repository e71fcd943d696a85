/** The claim loop of the worker process (worker.py). */
module WorkerPool {
  import opened Common
  import opened Jobs
  import opened JobStore

  const STALE_MINUTES := 5

  lemma {:induction false} FilterNoLonger<T(!new)>(s: seq<T>, p: T -> bool)
    ensures |Filter(s, p)| <= |s|
  {
    if s != [] {
      FilterNoLonger(s[1..], p);
    }
  }

  /** The store calls of one round, as a run sees them. */
  function RoundOps(expired: Option<seq<string>>, claimed: Option<seq<string>>, now: int): seq<Op> {
    (if expired.Some? then [OpReap(expired.value, STALE_MINUTES, now)] else [])
    + (if claimed.Some? then [OpClaim(claimed.value, now)] else [])
  }

  lemma {:induction false} RoundRuns(
      s: State, mid: State, expired: Option<seq<string>>, claimed: Option<seq<string>>, now: int)
    requires mid == if expired.Some? then Step(s, OpReap(expired.value, STALE_MINUTES, now)) else s
    ensures Exec(s, RoundOps(expired, claimed, now)) ==
            if claimed.Some? then Step(mid, OpClaim(claimed.value, now)) else mid
  {
    var reap := if expired.Some? then [OpReap(expired.value, STALE_MINUTES, now)] else [];
    var ops := RoundOps(expired, claimed, now);
    assert Exec(s, []) == s;
    assert reap != [] ==> reap[..0] == [];
    assert Exec(s, reap) == mid;
    if claimed.Some? {
      assert ops[..|ops| - 1] == reap;
    } else {
      assert ops == reap;
    }
  }

  /** One worker process. A task is named by its job. */
  class Pool {
    const concurrency: int
    const table: JobTable
    var inFlight: seq<string>

    constructor (concurrency: int, table: JobTable)
      ensures this.concurrency == concurrency && this.table == table && inFlight == [] && Valid()
    {
      this.concurrency := concurrency;
      this.table := table;
      inFlight := [];
    }

    /** No more tasks than the concurrency limit; none if it is not positive. */
    predicate Valid()
      reads this
    {
      |inFlight| <= if concurrency > 0 then concurrency else 0
    }

    /** One round: reap if it is time, forget finished tasks, claim as many jobs as there are free
        slots, and start one task for each. What the table undergoes is a run of store calls. */
    method Round(staleDue: bool, finished: string -> bool, locked: set<string>, now: int)
      returns (expired: Option<seq<string>>, claimed: Option<seq<string>>)
      requires Valid()
      modifies this, table
      ensures Valid() && (inFlight == [] || |inFlight| <= concurrency)
      ensures table.state == Exec(old(table.state), RoundOps(expired, claimed, now))
      ensures expired.Some? <==> staleDue
      ensures inFlight == Filter(old(inFlight), t => !finished(t)) + OrElse(claimed, [])
      ensures claimed.Some? <==> |Filter(old(inFlight), t => !finished(t))| < concurrency
      ensures claimed.Some? ==>
                && AllRunning(table.state, claimed.value)
                && ClaimsItsShare(old(table.state), concurrency - |Filter(old(inFlight), t => !finished(t))|, locked,
                                  claimed.value)
      ensures ExpiresSilent(old(table.state), table.state, expired, now)
    {
      ghost var before := table.state;
      expired, claimed := None, None;
      if staleDue {
        var ids := table.ExpireStaleRunningJobs(STALE_MINUTES, now);
        expired := Some(ids);
      }
      ghost var mid := table.state;
      FilterNoLonger(inFlight, t => !finished(t));
      inFlight := Filter(inFlight, t => !finished(t));
      var slots := concurrency - |inFlight|;
      if slots > 0 {
        var ids := table.ClaimQueuedJobs(slots, locked, now);
        ClaimFollowsReap(before, mid, expired, slots, locked, ids, now);
        claimed := Some(ids);
        inFlight := inFlight + ids;
      }
      RoundRuns(before, mid, expired, claimed, now);
      RoundExpires(before, mid, expired, claimed, now);
    }
  }

  predicate AllRunning(s: State, ids: seq<string>) {
    forall i :: 0 <= i < |ids| ==> ids[i] in s.jobs && s.jobs[ids[i]].status == "RUNNING"
  }

  /** A claim after a reap is a claim of what was queued before it. */
  lemma {:induction false} ClaimFollowsReap(
      s: State, mid: State, expired: Option<seq<string>>, slots: int, locked: set<string>, ids: seq<string>, now: int)
    requires expired.Some? ==> Reapable(s, expired.value, STALE_MINUTES, now)
    requires mid == if expired.Some? then Step(s, OpReap(expired.value, STALE_MINUTES, now)) else s
    requires Claimable(mid, ids) && ClaimsItsShare(mid, slots, locked, ids)
    ensures ClaimsItsShare(s, slots, locked, ids)
    ensures AllRunning(Step(mid, OpClaim(ids, now)), ids)
  {
    ClaimedRows(mid, ids, now);
    SameQueue(s, mid, expired, now);
    ShareOfSameQueue(s, mid, slots, locked, ids);
  }

  lemma {:induction false} ShareOfSameQueue(s: State, mid: State, slots: int, locked: set<string>, ids: seq<string>)
    requires ClaimsItsShare(mid, slots, locked, ids)
    requires forall id :: Queued(mid, id) <==> Queued(s, id)
    requires forall id :: Queued(mid, id) ==> id in s.jobs && mid.jobs[id] == s.jobs[id]
    ensures ClaimsItsShare(s, slots, locked, ids)
  {
    forall id | id in s.jobs && s.jobs[id].status == "QUEUED"
      ensures id in mid.jobs && mid.jobs[id].status == "QUEUED" && mid.jobs[id] == s.jobs[id]
    {
      assert Queued(s, id);
    }
    forall i | 0 <= i < |ids|
      ensures ids[i] in s.jobs && s.jobs[ids[i]].status == "QUEUED" && mid.jobs[ids[i]] == s.jobs[ids[i]]
    {
      assert Queued(mid, ids[i]);
    }
  }

  lemma {:induction false} ClaimedRows(s: State, ids: seq<string>, now: int)
    requires Claimable(s, ids)
    ensures forall i :: 0 <= i < |ids| ==> Queued(s, ids[i])
    ensures forall i :: 0 <= i < |ids| ==>
              ids[i] in Step(s, OpClaim(ids, now)).jobs && Step(s, OpClaim(ids, now)).jobs[ids[i]].status == "RUNNING"
  {
    forall i | 0 <= i < |ids|
      ensures ids[i] in Step(s, OpClaim(ids, now)).jobs && Step(s, OpClaim(ids, now)).jobs[ids[i]].status == "RUNNING"
    {
      assert Queued(s, ids[i]) && ids[i] in ids;
      MoveAllRows(s, ids, ClaimMark(now), ids[i]);
    }
  }

  /** A reap neither queues a job nor takes one from the queue, nor touches one in it. */
  lemma {:induction false} SameQueue(s: State, mid: State, expired: Option<seq<string>>, now: int)
    requires expired.Some? ==> Reapable(s, expired.value, STALE_MINUTES, now)
    requires mid == if expired.Some? then Step(s, OpReap(expired.value, STALE_MINUTES, now)) else s
    ensures forall id :: Queued(mid, id) <==> Queued(s, id)
    ensures forall id :: Queued(mid, id) ==> id in s.jobs && mid.jobs[id] == s.jobs[id]
  {
    if expired.Some? {
      forall id | id in s.jobs
        ensures Queued(mid, id) <==> Queued(s, id)
        ensures Queued(mid, id) ==> mid.jobs[id] == s.jobs[id]
      {
        ReapedRow(s, expired.value, now, id);
      }
    }
  }

  lemma {:induction false} ReapedRow(s: State, reaped: seq<string>, now: int, id: string)
    requires Reapable(s, reaped, STALE_MINUTES, now) && id in s.jobs
    ensures var mid := Step(s, OpReap(reaped, STALE_MINUTES, now));
            && id in mid.jobs
            && if id in reaped then s.jobs[id].status == "RUNNING" && mid.jobs[id].status == "EXPIRED"
               else mid.jobs[id] == s.jobs[id]
  {
    MoveAllRows(s, reaped, ExpireMark(now), id);
    if id in reaped {
      var i :| 0 <= i < |reaped| && reaped[i] == id;
      assert Stale(s, reaped[i], STALE_MINUTES, now);
    }
  }

  /** A round that reaps expires exactly the running jobs silent for five minutes, and one that does not
      reap expires none. */
  ghost predicate ExpiresSilent(s: State, after: State, expired: Option<seq<string>>, now: int) {
    && (expired.Some? ==> forall id :: id in expired.value <==> Silent(s, id, 5, now))
    && forall id :: id in s.jobs ==>
         id in after.jobs && (after.jobs[id].status == "EXPIRED" <==>
           s.jobs[id].status == "EXPIRED" || (expired.Some? && id in expired.value))
  }

  lemma {:induction false} RoundExpires(
      s: State, mid: State, expired: Option<seq<string>>, claimed: Option<seq<string>>, now: int)
    requires expired.Some? ==> Reapable(s, expired.value, STALE_MINUTES, now)
    requires mid == if expired.Some? then Step(s, OpReap(expired.value, STALE_MINUTES, now)) else s
    requires claimed.Some? ==> Claimable(mid, claimed.value)
    requires expired.Some? ==> forall id :: id in expired.value <==> Silent(s, id, STALE_MINUTES, now)
    ensures ExpiresSilent(s, Exec(s, RoundOps(expired, claimed, now)), expired, now)
  {
    RoundRuns(s, mid, expired, claimed, now);
    forall id | id in s.jobs
      ensures var after := if claimed.Some? then Step(mid, OpClaim(claimed.value, now)) else mid;
              id in after.jobs && (after.jobs[id].status == "EXPIRED" <==>
                s.jobs[id].status == "EXPIRED" || (expired.Some? && id in expired.value))
    {
      if expired.Some? {
        ReapedRow(s, expired.value, now, id);
      }
      if claimed.Some? {
        ClaimedRow(mid, claimed.value, now, id);
      }
    }
  }

  lemma {:induction false} ClaimedRow(s: State, ids: seq<string>, now: int, id: string)
    requires Claimable(s, ids) && id in s.jobs
    ensures var after := Step(s, OpClaim(ids, now));
            && id in after.jobs
            && if id in ids then s.jobs[id].status == "QUEUED" && after.jobs[id].status == "RUNNING"
               else after.jobs[id] == s.jobs[id]
  {
    MoveAllRows(s, ids, ClaimMark(now), id);
    if id in ids {
      var i :| 0 <= i < |ids| && ids[i] == id;
      assert Queued(s, ids[i]);
    }
  }
}
