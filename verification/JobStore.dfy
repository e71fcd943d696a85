/** The job store as an object over its two tables (job_store.py). */
module JobStore {
  import opened Common
  import opened Jobs

  function Logged(ids: seq<string>, from: string, to: string): (es: seq<Event>)
    ensures |es| == |ids|
  {
    if ids == [] then [] else Logged(ids[..|ids| - 1], from, to) + [Event(ids[|ids| - 1], Some(from), to)]
  }

  function Marked(jobs: map<string, Job>, ids: seq<string>, mark: Job -> Job): map<string, Job> {
    map id | id in jobs :: if id in ids then mark(jobs[id]) else jobs[id]
  }

  lemma {:induction false} MoveAllEvents(s: State, ids: seq<string>, mark: Job -> Job, from: string, to: string)
    requires AllIn(s, ids) && Distinct(ids)
    requires forall i :: 0 <= i < |ids| ==> s.jobs[ids[i]].status == from
    requires forall j :: mark(j).status == to
    ensures MoveAll(s, ids, mark).events == s.events + Logged(ids, from, to)
    decreases |ids|
  {
    if ids != [] {
      var front, last := ids[..|ids| - 1], ids[|ids| - 1];
      MoveAllEvents(s, front, mark, from, to);
      MoveAllRows(s, front, mark, last);
      assert last !in front;
    }
  }

  /** One bulk update followed by one event per returned row is the batch move. */
  lemma {:induction false} BulkUpdateIsMoveAll(s: State, ids: seq<string>, mark: Job -> Job, from: string, to: string)
    requires AllIn(s, ids) && Distinct(ids)
    requires forall i :: 0 <= i < |ids| ==> s.jobs[ids[i]].status == from
    requires forall j :: mark(j).status == to
    ensures State(Marked(s.jobs, ids, mark), s.events + Logged(ids, from, to)) == MoveAll(s, ids, mark)
  {
    MoveAllEvents(s, ids, mark, from, to);
    var after, marked := MoveAll(s, ids, mark), Marked(s.jobs, ids, mark);
    forall id | id in s.jobs ensures after.jobs[id] == marked[id] {
      MoveAllRows(s, ids, mark, id);
    }
    assert after.jobs == marked;
  }

  lemma {:induction false} OldestExists(jobs: map<string, Job>, pool: set<string>)
    requires pool != {} && pool <= jobs.Keys
    ensures exists id :: id in pool && forall k :: k in pool ==> jobs[id].createdAt <= jobs[k].createdAt
    decreases |pool|
  {
    var x :| x in pool;
    if pool != {x} {
      var rest := pool - {x};
      assert pool == rest + {x};
      OldestExists(jobs, rest);
      var y :| y in rest && forall k :: k in rest ==> jobs[y].createdAt <= jobs[k].createdAt;
      var id := if jobs[x].createdAt <= jobs[y].createdAt then x else y;
      assert forall k :: k in pool ==> k == x || k in rest;
      assert id in pool && forall k :: k in pool ==> jobs[id].createdAt <= jobs[k].createdAt;
    } else {
      assert x in pool && forall k :: k in pool ==> jobs[x].createdAt <= jobs[k].createdAt;
    }
  }

  datatype CreateResult = Created(id: string, status: string) | IdempotentHit(id: string, status: string) | DuplicateId

  class JobTable {
    var state: State

    constructor ()
      ensures state == State(map[], [])
    {
      state := State(map[], []);
    }

    method CreateJob(id: string, key: string, webhook: string, escrow: string, now: int) returns (r: CreateResult)
      modifies this
      ensures state == Create(old(state), id, key, webhook, escrow, now)
      ensures r.IdempotentHit? <==> KeyTaken(old(state), key)
      ensures r.IdempotentHit? ==>
                r.id in state.jobs && state.jobs[r.id].idempotencyKey == key && r.status == state.jobs[r.id].status
      ensures r.Created? ==> r.id == id && r.status == "QUEUED" && id !in old(state).jobs && Queued(state, id)
                             && state.jobs[id].webhook == webhook && state.jobs[id].escrow == escrow
                             && state.jobs[id].createdAt == now
    {
      if KeyTaken(state, key) {
        var existing :| existing in state.jobs && state.jobs[existing].idempotencyKey == key;
        return IdempotentHit(existing, state.jobs[existing].status);
      }
      if id in state.jobs {
        return DuplicateId;
      }
      state := State(state.jobs[id := Job("QUEUED", now, None, None, None, key, webhook, escrow)],
                     state.events + [Event(id, None, "QUEUED")]);
      return Created(id, "QUEUED");
    }

    method CreateChildJob(id: string, now: int)
      modifies this
      ensures state == CreateChild(old(state), id, now)
    {
      if id !in state.jobs {
        state := state.(jobs := state.jobs[id := Job("RUNNING", now, Some(now), Some(now), None, "", "", "")]);
      }
      state := state.(events := state.events + [Event(id, None, "RUNNING")]);
    }

    /** False, and nothing changed, when the row is missing or the move is refused. */
    method UpdateJobStatus(id: string, status: string, override_: bool, now: int) returns (ok: bool)
      modifies this
      ensures state == Update(old(state), id, status, override_, now)
      ensures ok <==> id in old(state).jobs && !Refused(old(state).jobs[id].status, status, override_)
    {
      if id !in state.jobs {
        return false;
      }
      var from := state.jobs[id].status;
      if from in TERMINAL && status != from && !override_ {
        return false;
      }
      state := State(state.jobs[id := UpdateMark(status, now)(state.jobs[id])],
                     state.events + [Event(id, Some(from), status)]);
      return true;
    }

    method Beat(id: string, now: int) returns (ok: bool)
      modifies this
      ensures state == Heartbeat(old(state), id, now)
      ensures ok <==> id in old(state).jobs
    {
      if id !in state.jobs {
        return false;
      }
      state := state.(jobs := state.jobs[id := state.jobs[id].(lastHeartbeat := Some(now))]);
      return true;
    }

    /** Claim one job by id; the row as claimed, or nothing. */
    method ClaimJobById(id: string, now: int) returns (r: Option<Job>)
      modifies this
      ensures state == Step(old(state), OpClaim([id], now))
      ensures r.Some? <==> Queued(old(state), id)
      ensures r.Some? ==> r.value == state.jobs[id] && r.value.status == "RUNNING" && r.value.lastHeartbeat == Some(now)
    {
      ghost var before := state;
      if !Queued(state, id) {
        assert !Queued(before, [id][0]);
        return None;
      }
      var row := ClaimMark(now)(state.jobs[id]);
      state := State(state.jobs[id := row], state.events + [Event(id, Some("QUEUED"), "RUNNING")]);
      assert [id][..0] == [];
      assert MoveAll(before, [id], ClaimMark(now)) == Move(before, id, ClaimMark(now));
      return Some(row);
    }

    /** Up to `limit` queued rows not locked by another claimer, oldest first. */
    method PickOldest(limit: nat, locked: set<string>) returns (ids: seq<string>, ghost pool: set<string>)
      ensures Claimable(state, ids)
      ensures pool == set id | id in state.jobs && Queued(state, id) && id !in locked
      ensures forall i :: 0 <= i < |ids| ==> ids[i] in pool
      ensures |ids| <= limit && (|ids| < limit ==> forall id :: id in pool ==> id in ids)
      ensures forall i, k :: 0 <= i < |ids| && k in pool && k !in ids ==>
                state.jobs[ids[i]].createdAt <= state.jobs[k].createdAt
    {
      ids := [];
      var left := set id | id in state.jobs && Queued(state, id) && id !in locked;
      pool := left;
      while |ids| < limit && left != {}
        invariant |ids| <= limit && left <= pool
        invariant Claimable(state, ids)
        invariant forall i :: 0 <= i < |ids| ==> ids[i] in pool && ids[i] !in left
        invariant forall id :: id in pool ==> id in left || id in ids
        invariant forall i, k :: 0 <= i < |ids| && k in left ==>
                    state.jobs[ids[i]].createdAt <= state.jobs[k].createdAt
        decreases |left|
      {
        OldestExists(state.jobs, left);
        var id :| id in left && forall k :: k in left ==> state.jobs[id].createdAt <= state.jobs[k].createdAt;
        ids, left := ids + [id], left - {id};
      }
    }

    /** One event per returned row. */
    method LogMoves(ids: seq<string>, from: string, to: string)
      modifies this
      ensures state == old(state).(events := old(state).events + Logged(ids, from, to))
    {
      ghost var before := state;
      for i := 0 to |ids|
        invariant state == before.(events := before.events + Logged(ids[..i], from, to))
      {
        assert ids[..i + 1][..i] == ids[..i];
        state := state.(events := state.events + [Event(ids[i], Some(from), to)]);
      }
      assert ids[..|ids|] == ids;
    }

    /** Claim a batch: one bulk update, then one event per returned row. */
    method ClaimQueuedJobs(limit: nat, locked: set<string>, now: int) returns (ids: seq<string>)
      modifies this
      ensures Claimable(old(state), ids) && ClaimsItsShare(old(state), limit, locked, ids)
      ensures state == Step(old(state), OpClaim(ids, now))
    {
      ghost var pool;
      ids, pool := PickOldest(limit, locked);
      ghost var before := state;
      state := state.(jobs := Marked(state.jobs, ids, ClaimMark(now)));
      LogMoves(ids, "QUEUED", "RUNNING");
      QueuedRows(before, ids);
      PickIsShare(before, limit, locked, ids, pool);
      BulkUpdateIsMoveAll(before, ids, ClaimMark(now), "QUEUED", "RUNNING");
    }

    /** The rows the reaper's update returns, in some order. */
    method PickStale(minutes: int, now: int) returns (ids: seq<string>)
      ensures Reapable(state, ids, minutes, now)
      ensures forall id :: id in ids <==> Silent(state, id, minutes, now)
    {
      forall id ensures Stale(state, id, minutes, now) <==> Silent(state, id, minutes, now) {
        StaleIffSilent(state, id, minutes, now);
      }
      ids := [];
      var left := set id | id in state.jobs && Stale(state, id, minutes, now);
      while left != {}
        invariant Reapable(state, ids, minutes, now)
        invariant forall id :: id in left || id in ids ==> Stale(state, id, minutes, now)
        invariant forall i :: 0 <= i < |ids| ==> ids[i] !in left
        invariant forall id :: Stale(state, id, minutes, now) ==> id in left || id in ids
        decreases |left|
      {
        var id :| id in left;
        ids, left := ids + [id], left - {id};
      }
    }

    /** Expire every stale running row, and only those. */
    method ExpireStaleRunningJobs(minutes: int, now: int) returns (ids: seq<string>)
      modifies this
      ensures Reapable(old(state), ids, minutes, now)
      ensures forall id :: id in ids <==> Silent(old(state), id, minutes, now)
      ensures state == Step(old(state), OpReap(ids, minutes, now))
    {
      ids := PickStale(minutes, now);
      ghost var before := state;
      state := state.(jobs := Marked(state.jobs, ids, ExpireMark(now)));
      LogMoves(ids, "RUNNING", "EXPIRED");
      StaleRows(before, ids, minutes, now);
      BulkUpdateIsMoveAll(before, ids, ExpireMark(now), "RUNNING", "EXPIRED");
    }
  }

  lemma {:induction false} PickIsShare(s: State, limit: nat, locked: set<string>, ids: seq<string>, pool: set<string>)
    requires Claimable(s, ids) && pool == set id | id in s.jobs && Queued(s, id) && id !in locked
    requires forall i :: 0 <= i < |ids| ==> ids[i] in pool
    requires |ids| <= limit && (|ids| < limit ==> forall id :: id in pool ==> id in ids)
    requires forall i, k :: 0 <= i < |ids| && k in pool && k !in ids ==> s.jobs[ids[i]].createdAt <= s.jobs[k].createdAt
    ensures ClaimsItsShare(s, limit, locked, ids)
  {
    forall id | id in s.jobs && s.jobs[id].status == "QUEUED" && id !in locked ensures id in pool {
      assert Queued(s, id);
    }
    forall i | 0 <= i < |ids|
      ensures ids[i] in s.jobs && s.jobs[ids[i]].status == "QUEUED" && ids[i] !in locked
    {
      assert Queued(s, ids[i]) && ids[i] in pool;
    }
  }

  lemma {:induction false} QueuedRows(s: State, ids: seq<string>)
    requires Claimable(s, ids)
    ensures AllIn(s, ids) && forall i :: 0 <= i < |ids| ==> s.jobs[ids[i]].status == "QUEUED"
  {
    assert forall i :: 0 <= i < |ids| ==> Queued(s, ids[i]);
  }

  lemma {:induction false} StaleRows(s: State, ids: seq<string>, minutes: int, now: int)
    requires Reapable(s, ids, minutes, now)
    ensures AllIn(s, ids) && forall i :: 0 <= i < |ids| ==> s.jobs[ids[i]].status == "RUNNING"
  {
    assert forall i :: 0 <= i < |ids| ==> Stale(s, ids[i], minutes, now);
  }
}
