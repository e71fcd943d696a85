/** Workers and everyone else on one job table (worker.py, job_store.py). A claim starts one task per
    claimed job; a task makes its effects one at a time, between which anything may happen: other
    store calls, heartbeats, the reaper, other tasks, refunds by an administrator (main.py), or the
    end of its process. */
module WorkerRuns {
  import opened Common
  import opened Jobs
  import opened Worker

  /** A started task: the row as claimed, what the outside world has in store for it, the effects that
      `process_job` makes in that case, and those of them still to be made. */
  datatype Task = Task(id: string, job: Job, script: Script, plan: seq<Effect>, todo: seq<Effect>)

  /** One effect made by a task. */
  datatype Act = Act(task: nat, id: string, effect: Effect)

  /** `log` is what workers did; `refunds` names the job of each escrow release by an administrator. */
  datatype System = System(table: Jobs.State, tasks: seq<Task>, log: seq<Act>, refunds: seq<string>)

  /** `Other` is a store call of any other party. An update that raises may or may not have taken
      effect, so `Work` says whether it did. `AdminRelease` is the escrow call of the admin refund, with
      whether the escrow client is bound in that build; the update to REFUNDED that follows it is a
      store call like any other. */
  datatype Happening =
    | Claiming(ids: seq<string>, now: int)
    | Other(op: Op)
    | Work(task: nat, now: int, effective: bool)
    | Beating(task: nat, now: int)
    | Kill(task: nat)
    | AdminRelease(id: string, bound: bool)

  function NewTask(table: Jobs.State, id: string, script: Script): Task
    requires id in table.jobs
  {
    var plan := Effects(table.jobs[id], script);
    Task(id, table.jobs[id], script, plan, plan)
  }

  function NewTasks(table: Jobs.State, ids: seq<string>, scripts: nat -> Script, n: nat): (r: seq<Task>)
    requires AllIn(table, ids)
    ensures |r| == |ids| && forall i :: 0 <= i < |ids| ==> r[i] == NewTask(table, ids[i], scripts(n + i))
  {
    seq(|ids|, i requires 0 <= i < |ids| && ids[i] in table.jobs => NewTask(table, ids[i], scripts(n + i)))
  }

  /** The store calls that a happening amounts to. */
  function CallsOf(s: System, ev: Happening): (calls: seq<Op>)
    ensures |calls| <= 1
  {
    match ev
    case Claiming(ids, now) => [OpClaim(ids, now)]
    case Other(op) => if op.OpClaim? then [] else [op]
    case Work(t, now, effective) =>
      if t < |s.tasks| && s.tasks[t].todo != [] && s.tasks[t].todo[0].StatusUpdate? && effective
      then [OpUpdate(s.tasks[t].id, s.tasks[t].todo[0].status, false, now)] else []
    case Beating(t, now) => if t < |s.tasks| then [OpHeartbeat(s.tasks[t].id, now)] else []
    case Kill(_) => []
    case AdminRelease(_, _) => []
  }

  function TableAfter(s: System, ev: Happening): Jobs.State {
    var calls := CallsOf(s, ev);
    if calls == [] then s.table else Jobs.Step(s.table, calls[0])
  }

  function Next(scripts: nat -> Script, s: System, ev: Happening): System {
    var table := TableAfter(s, ev);
    match ev
    case Claiming(ids, _) =>
      if Claimable(s.table, ids) && AllIn(table, ids)
      then s.(table := table, tasks := s.tasks + NewTasks(table, ids, scripts, |s.tasks|))
      else s.(table := table)
    case Other(_) => s.(table := table)
    case Work(t, _, _) =>
      if t < |s.tasks| && s.tasks[t].todo != [] then
        var k := s.tasks[t];
        s.(table := table, tasks := s.tasks[t := k.(todo := k.todo[1..])], log := s.log + [Act(t, k.id, k.todo[0])])
      else s
    case Beating(_, _) => s.(table := table)
    case Kill(t) => if t < |s.tasks| then s.(tasks := s.tasks[t := s.tasks[t].(todo := [])]) else s
    case AdminRelease(id, _) => if Releases(s, ev, id) then s.(refunds := s.refunds + [id]) else s
  }

  /** The admin refund releases the escrow of any job that has one; it looks neither at the webhook nor
      at what was paid before. */
  predicate Releases(s: System, ev: Happening, id: string) {
    ev.AdminRelease? && ev.id == id && ev.bound && id in s.table.jobs && s.table.jobs[id].escrow != ""
  }

  function Run(scripts: nat -> Script, s: System, evs: seq<Happening>): System {
    if evs == [] then s else Next(scripts, Run(scripts, s, evs[..|evs| - 1]), evs[|evs| - 1])
  }

  predicate Quiet(s: System) {
    s.tasks == [] && s.log == [] && s.refunds == []
  }

  /** No outside call puts a job back into the queue; true of every call site. */
  predicate NoRequeue(evs: seq<Happening>) {
    forall i :: 0 <= i < |evs| ==> KeepsOut(evs[i])
  }

  predicate KeepsOut(ev: Happening) {
    ev.Other? && ev.op.OpUpdate? ==> ev.op.status != "QUEUED"
  }

  // ----- invariant ------------------------------------------------------------------------------

  /** The effects a task has made so far. */
  function Performed(log: seq<Act>, t: nat): seq<Effect> {
    if log == [] then []
    else
      var last := log[|log| - 1];
      Performed(log[..|log| - 1], t) + (if last.task == t then [last.effect] else [])
  }

  /** A task has made, and is going to make, a beginning of its plan; and its job is in the table, out
      of the queue, with the same webhook and escrow. */
  predicate TaskOk(table: Jobs.State, log: seq<Act>, t: nat, k: Task) {
    && k.id in table.jobs && table.jobs[k.id].status != "QUEUED" && SameTerms(table.jobs[k.id], k.job)
    && Performed(log, t) + k.todo <= k.plan
  }

  /** What decides who pays for a job; no store call changes it. */
  predicate SameTerms(a: Job, b: Job) {
    a.webhook == b.webhook && a.escrow == b.escrow
  }

  /** The plan is what `process_job` does for the row as claimed. */
  predicate Planned(k: Task) {
    k.plan == Effects(k.job, k.script)
  }

  ghost predicate Inv(s: System) {
    && (forall t: nat :: t < |s.tasks| ==> TaskOk(s.table, s.log, t, s.tasks[t]))
    && (forall t: nat :: t < |s.tasks| ==> Planned(s.tasks[t]))
    && (forall t: nat, u: nat :: t < u < |s.tasks| ==> s.tasks[t].id != s.tasks[u].id)
    && (forall n: nat :: n < |s.log| ==> LogOk(s, s.log[n]))
  }

  predicate LogOk(s: System, a: Act) {
    a.task < |s.tasks| && s.tasks[a.task].id == a.id
  }

  lemma {:induction false} PerformedNext(log: seq<Act>, a: Act, t: nat)
    ensures Performed(log + [a], t) == Performed(log, t) + (if a.task == t then [a.effect] else [])
  {
    assert (log + [a])[..|log|] == log;
  }

  lemma {:induction false} NothingPerformed(s: System, t: nat)
    requires forall n: nat :: n < |s.log| ==> LogOk(s, s.log[n])
    requires t >= |s.tasks|
    ensures Performed(s.log, t) == []
    decreases |s.log|
  {
    if s.log != [] {
      var n := |s.log| - 1;
      assert LogOk(s, s.log[n]);
      var before := s.(log := s.log[..n]);
      forall m: nat | m < n ensures LogOk(before, before.log[m]) {
        assert LogOk(s, s.log[m]);
      }
      NothingPerformed(before, t);
    }
  }

  /** No store call of a run queues an existing job, removes it, or changes its terms. */
  lemma {:induction false} CallKeepsRow(table: Jobs.State, op: Op, id: string)
    requires id in table.jobs && (op.OpUpdate? ==> op.status != "QUEUED")
    ensures id in Jobs.Step(table, op).jobs
    ensures table.jobs[id].status != "QUEUED" ==> Jobs.Step(table, op).jobs[id].status != "QUEUED"
    ensures SameTerms(Jobs.Step(table, op).jobs[id], table.jobs[id])
  {
    StepStaysOutOfQueue(table, op, id);
    if op.OpClaim? && Claimable(table, op.ids) {
      MoveAllRows(table, op.ids, ClaimMark(op.now), id);
    } else if op.OpReap? && Reapable(table, op.ids, op.minutes, op.now) {
      MoveAllRows(table, op.ids, ExpireMark(op.now), id);
    }
  }

  /** What a task is going to write is one of the worker's statuses. */
  lemma {:induction false} NextEffect(s: System, t: nat)
    requires Inv(s) && t < |s.tasks| && s.tasks[t].todo != []
    ensures s.tasks[t].todo[0] in s.tasks[t].plan
    ensures s.tasks[t].todo[0].StatusUpdate? ==> s.tasks[t].todo[0].status in WORKER_STATUSES
  {
    var k := s.tasks[t];
    assert TaskOk(s.table, s.log, t, k);
    var done := Performed(s.log, t);
    assert Planned(k) && (done + k.todo)[|done|] == k.todo[0] == k.plan[|done|];
    StatusesOfJob(k.job, k.script);
  }

  lemma {:induction false} CallsKeepOut(s: System, ev: Happening)
    requires Inv(s) && KeepsOut(ev)
    ensures forall op :: op in CallsOf(s, ev) && op.OpUpdate? ==> op.status != "QUEUED"
  {
    if ev.Work? && ev.task < |s.tasks| && s.tasks[ev.task].todo != [] {
      NextEffect(s, ev.task);
      QueuedIsNotWritten();
    }
  }

  lemma {:induction false} QueuedIsNotWritten()
    ensures "QUEUED" !in WORKER_STATUSES
  {
    assert "QUEUED"[0] == 'Q' && "FAILED"[0] == 'F' && |"DELIVERED"| == 9;
  }

  lemma {:induction false} TableKeepsRow(s: System, ev: Happening, id: string)
    requires Inv(s) && KeepsOut(ev) && id in s.table.jobs
    ensures id in TableAfter(s, ev).jobs
    ensures s.table.jobs[id].status != "QUEUED" ==> TableAfter(s, ev).jobs[id].status != "QUEUED"
    ensures SameTerms(TableAfter(s, ev).jobs[id], s.table.jobs[id])
  {
    CallsKeepOut(s, ev);
    var calls := CallsOf(s, ev);
    if calls != [] {
      assert calls[0] in calls;
      CallKeepsRow(s.table, calls[0], id);
    }
  }

  /** One effect further along the same path, whatever the table has become. */
  lemma {:induction false} FurtherAlong(s: System, table: Jobs.State, t: nat, u: nat)
    requires t < |s.tasks| && s.tasks[t].todo != [] && u < |s.tasks| && TaskOk(s.table, s.log, u, s.tasks[u])
    requires s.tasks[u].id in table.jobs && table.jobs[s.tasks[u].id].status != "QUEUED"
    requires SameTerms(table.jobs[s.tasks[u].id], s.tasks[u].job)
    ensures var k := s.tasks[t];
            TaskOk(table, s.log + [Act(t, k.id, k.todo[0])], u, if u == t then k.(todo := k.todo[1..]) else s.tasks[u])
  {
    var k, done := s.tasks[t], Performed(s.log, u);
    PerformedNext(s.log, Act(t, k.id, k.todo[0]), u);
    if u == t {
      assert (done + [k.todo[0]]) + k.todo[1..] == done + k.todo;
    }
  }

  lemma {:induction false} WorkKeepsInv(scripts: nat -> Script, s: System, ev: Happening)
    requires Inv(s) && ev.Work? && ev.task < |s.tasks| && s.tasks[ev.task].todo != []
    ensures Inv(Next(scripts, s, ev))
  {
    var s' := Next(scripts, s, ev);
    forall u: nat | u < |s'.tasks|
      ensures TaskOk(s'.table, s'.log, u, s'.tasks[u]) && s'.tasks[u].id == s.tasks[u].id
    {
      assert TaskOk(s.table, s.log, u, s.tasks[u]);
      TableKeepsRow(s, ev, s.tasks[u].id);
      FurtherAlong(s, TableAfter(s, ev), ev.task, u);
    }
    WorkKeepsLog(scripts, s, ev);
  }

  lemma {:induction false} WorkKeepsLog(scripts: nat -> Script, s: System, ev: Happening)
    requires Inv(s) && ev.Work? && ev.task < |s.tasks| && s.tasks[ev.task].todo != []
    ensures var s' := Next(scripts, s, ev);
            forall n: nat :: n < |s'.log| ==> LogOk(s', s'.log[n])
  {
    var s' := Next(scripts, s, ev);
    forall n: nat | n < |s'.log| ensures LogOk(s', s'.log[n]) {
      assert n < |s.log| ==> LogOk(s, s.log[n]);
    }
  }

  lemma {:induction false} KilledTaskOk(table: Jobs.State, log: seq<Act>, t: nat, k: Task)
    requires TaskOk(table, log, t, k)
    ensures TaskOk(table, log, t, k.(todo := []))
  {
    PrefixOfPrefix(Performed(log, t), k.todo, k.plan);
  }

  lemma {:induction false} KillKeepsTasks(tasks: seq<Task>, t: nat, table: Jobs.State, log: seq<Act>)
    requires t < |tasks| && forall u: nat :: u < |tasks| ==> TaskOk(table, log, u, tasks[u])
    ensures var after := tasks[t := tasks[t].(todo := [])];
            forall u: nat :: u < |after| ==> TaskOk(table, log, u, after[u])
  {
    KilledTaskOk(table, log, t, tasks[t]);
  }

  lemma {:induction false} KillKeepsPlans(tasks: seq<Task>, t: nat)
    requires t < |tasks| && forall u: nat :: u < |tasks| ==> Planned(tasks[u])
    requires forall u: nat, v: nat :: u < v < |tasks| ==> tasks[u].id != tasks[v].id
    ensures var after := tasks[t := tasks[t].(todo := [])];
            && (forall u: nat :: u < |after| ==> Planned(after[u]) && after[u].id == tasks[u].id)
            && forall u: nat, v: nat :: u < v < |after| ==> after[u].id != after[v].id
  {
  }

  lemma {:induction false} KillKeepsInv(scripts: nat -> Script, s: System, t: nat)
    requires Inv(s) && t < |s.tasks|
    ensures Inv(Next(scripts, s, Kill(t)))
  {
    var s' := Next(scripts, s, Kill(t));
    KillKeepsTasks(s.tasks, t, s.table, s.log);
    KillKeepsPlans(s.tasks, t);
    forall n: nat | n < |s'.log| ensures LogOk(s', s'.log[n]) {
      assert LogOk(s, s.log[n]);
    }
  }

  lemma {:induction false} PrefixOfPrefix(a: seq<Effect>, b: seq<Effect>, whole: seq<Effect>)
    requires a + b <= whole
    ensures a + [] <= whole && a <= whole
  {
    assert a == (a + b)[..|a|] == whole[..|a|];
    assert a + [] == a;
  }

  lemma {:induction false} ClaimKeepsInv(scripts: nat -> Script, s: System, ids: seq<string>, now: int)
    requires Inv(s) && Claimable(s.table, ids)
    ensures Inv(Next(scripts, s, Claiming(ids, now)))
  {
    var ev := Claiming(ids, now);
    var s' := Next(scripts, s, ev);
    ClaimedOutOfQueue(s.table, ids, now);
    forall u: nat | u < |s'.tasks| ensures TaskOk(s'.table, s'.log, u, s'.tasks[u]) {
      if u < |s.tasks| {
        assert TaskOk(s.table, s.log, u, s.tasks[u]);
        TableKeepsRow(s, ev, s.tasks[u].id);
      } else {
        NothingPerformed(s, u);
        assert s'.tasks[u] == NewTask(s'.table, ids[u - |s.tasks|], scripts(u));
        assert [] + s'.tasks[u].todo == s'.tasks[u].todo;
      }
    }
    forall t: nat, u: nat | t < u < |s'.tasks| ensures s'.tasks[t].id != s'.tasks[u].id {
      if t < |s.tasks| <= u {
        assert TaskOk(s.table, s.log, t, s.tasks[t]);
        assert Queued(s.table, ids[u - |s.tasks|]);
      }
    }
    forall n: nat | n < |s'.log| ensures LogOk(s', s'.log[n]) {
      assert LogOk(s, s.log[n]);
    }
  }

  lemma {:induction false} ClaimedOutOfQueue(table: Jobs.State, ids: seq<string>, now: int)
    requires Claimable(table, ids)
    ensures AllIn(Jobs.Step(table, OpClaim(ids, now)), ids)
    ensures forall i :: 0 <= i < |ids| ==> Jobs.Step(table, OpClaim(ids, now)).jobs[ids[i]].status == "RUNNING"
  {
    forall i | 0 <= i < |ids|
      ensures ids[i] in Jobs.Step(table, OpClaim(ids, now)).jobs
              && Jobs.Step(table, OpClaim(ids, now)).jobs[ids[i]].status == "RUNNING"
    {
      assert Queued(table, ids[i]);
      MoveAllRows(table, ids, ClaimMark(now), ids[i]);
    }
  }

  lemma {:induction false} TableOnlyKeepsInv(s: System, ev: Happening)
    requires Inv(s) && KeepsOut(ev)
    ensures Inv(s.(table := TableAfter(s, ev)))
  {
    var s' := s.(table := TableAfter(s, ev));
    forall u: nat | u < |s'.tasks| ensures TaskOk(s'.table, s'.log, u, s'.tasks[u]) {
      assert TaskOk(s.table, s.log, u, s.tasks[u]);
      TableKeepsRow(s, ev, s.tasks[u].id);
    }
    forall n: nat | n < |s'.log| ensures LogOk(s', s'.log[n]) {
      assert LogOk(s, s.log[n]);
    }
  }

  /** Every happening keeps it. */
  lemma {:induction false} NextKeepsInv(scripts: nat -> Script, s: System, ev: Happening)
    requires Inv(s) && KeepsOut(ev)
    ensures Inv(Next(scripts, s, ev))
  {
    if ev.Work? {
      if ev.task < |s.tasks| && s.tasks[ev.task].todo != [] {
        WorkKeepsInv(scripts, s, ev);
      }
    } else if ev.Kill? {
      if ev.task < |s.tasks| {
        KillKeepsInv(scripts, s, ev.task);
      }
    } else if ev.Claiming? && Claimable(s.table, ev.ids) {
      ClaimKeepsInv(scripts, s, ev.ids, ev.now);
    } else {
      TableOnlyKeepsInv(s, ev);
    }
  }

  lemma {:induction false} RunKeepsInv(scripts: nat -> Script, s: System, evs: seq<Happening>)
    requires Inv(s) && NoRequeue(evs)
    ensures Inv(Run(scripts, s, evs))
    decreases |evs|
  {
    if evs != [] {
      var front := evs[..|evs| - 1];
      assert forall i :: 0 <= i < |front| ==> front[i] == evs[i];
      RunKeepsInv(scripts, s, front);
      NextKeepsInv(scripts, Run(scripts, s, front), evs[|evs| - 1]);
    }
  }

  // ----- payments -------------------------------------------------------------------------------

  /** Everything done for a job, by whichever task, in order. */
  function DoneFor(log: seq<Act>, id: string): seq<Effect> {
    if log == [] then []
    else
      var last := log[|log| - 1];
      DoneFor(log[..|log| - 1], id) + (if last.id == id then [last.effect] else [])
  }

  /** A job has at most one task, and what was done for it is what that task did. */
  lemma {:induction false} OneTaskPerJob(s: System, log: seq<Act>, t: nat)
    requires t < |s.tasks|
    requires forall u: nat, v: nat :: u < v < |s.tasks| ==> s.tasks[u].id != s.tasks[v].id
    requires forall n: nat :: n < |log| ==> LogOk(s, log[n])
    ensures DoneFor(log, s.tasks[t].id) == Performed(log, t)
    decreases |log|
  {
    if log != [] {
      var front, last := log[..|log| - 1], log[|log| - 1];
      assert LogOk(s, last);
      forall n: nat | n < |front| ensures LogOk(s, front[n]) {
        assert LogOk(s, log[n]);
      }
      OneTaskPerJob(s, front, t);
    }
  }

  lemma {:induction false} NothingDone(s: System, log: seq<Act>, id: string)
    requires forall t: nat :: t < |s.tasks| ==> s.tasks[t].id != id
    requires forall n: nat :: n < |log| ==> LogOk(s, log[n])
    ensures DoneFor(log, id) == []
    decreases |log|
  {
    if log != [] {
      var front := log[..|log| - 1];
      assert LogOk(s, log[|log| - 1]);
      forall n: nat | n < |front| ensures LogOk(s, front[n]) {
        assert LogOk(s, log[n]);
      }
      NothingDone(s, front, id);
    }
  }

  /** In every interleaving, what was done for a job is a beginning of what `process_job` does on some
      path for the row as it was claimed, or nothing. */
  lemma {:induction false} EveryJobFollowsOnePath(scripts: nat -> Script, s: System, evs: seq<Happening>, id: string)
    returns (job: Job, script: Script)
    requires Quiet(s) && NoRequeue(evs)
    ensures DoneFor(Run(scripts, s, evs).log, id) <= Effects(job, script)
    ensures DoneFor(Run(scripts, s, evs).log, id) != [] ==>
              id in Run(scripts, s, evs).table.jobs && SameTerms(Run(scripts, s, evs).table.jobs[id], job)
  {
    var r := Run(scripts, s, evs);
    RunKeepsInv(scripts, s, evs);
    if t: nat :| t < |r.tasks| && r.tasks[t].id == id {
      OneTaskPerJob(r, r.log, t);
      assert TaskOk(r.table, r.log, t, r.tasks[t]) && Planned(r.tasks[t]);
      PrefixOfPrefix(Performed(r.log, t), r.tasks[t].todo, r.tasks[t].plan);
      job, script := r.tasks[t].job, r.tasks[t].script;
    } else {
      NothingDone(r, r.log, id);
      job, script := Job("", 0, None, None, None, "", "", ""),
                     Script(AgentRaises, Returns, false, false, false, false, Returns, Returns, false, Returns);
    }
  }

  lemma {:induction false} PaymentsOfPrefix(a: seq<Effect>, b: seq<Effect>)
    requires a <= b
    ensures |Payments(a)| <= |Payments(b)|
    ensures Ordered(b) ==> Ordered(a)
  {
    assert b == a + b[|a|..];
    FilterAppend(a, b[|a|..], IsPayment());
    if Ordered(b) {
      forall i | 0 <= i < |a| ensures PaidAfterStatus(a, i) {
        assert PaidAfterStatus(b, i);
      }
    }
  }

  /** In every interleaving of workers, reapers, heartbeats and other callers, with any failures and
      with processes dying anywhere, workers settle or refund a job at most once, never if it has a
      webhook or no escrow, and only right after the update to the status that goes with the payment. */
  lemma {:induction false} WorkersPayAtMostOnce(scripts: nat -> Script, s: System, evs: seq<Happening>, id: string)
    requires Quiet(s) && NoRequeue(evs)
    ensures var r := Run(scripts, s, evs);
            && |Payments(DoneFor(r.log, id))| <= 1
            && Ordered(DoneFor(r.log, id))
            && (forall i, j :: 0 <= i < j < |r.log| ==> !(PaidAt(r.log, id, i) && PaidAt(r.log, id, j)))
            && (id in r.table.jobs && !OwnsEscrow(r.table.jobs[id]) ==> Payments(DoneFor(r.log, id)) == [])
  {
    var done := DoneFor(Run(scripts, s, evs).log, id);
    var job, script := EveryJobFollowsOnePath(scripts, s, evs, id);
    PaymentsOfJob(job, script);
    PaymentFollowsStatus(job, script);
    PaymentsOfPrefix(done, Effects(job, script));
    PaidAtOnce(Run(scripts, s, evs).log, id);
  }

  /** Act `i` of the log is a settlement or refund of the job. */
  predicate PaidAt(log: seq<Act>, id: string, i: int)
    requires 0 <= i < |log|
  {
    log[i].id == id && (log[i].effect.Settle? || log[i].effect.Refund?)
  }

  lemma {:induction false} PaidAtOnce(log: seq<Act>, id: string)
    requires |Payments(DoneFor(log, id))| <= 1
    ensures forall i, j :: 0 <= i < j < |log| ==> !(PaidAt(log, id, i) && PaidAt(log, id, j))
  {
    forall i, j | 0 <= i < j < |log| && PaidAt(log, id, i) ensures !PaidAt(log, id, j) {
      if PaidAt(log, id, j) {
        PaidTwice(log, id, i, j);
      }
    }
  }

  lemma {:induction false} PaidTwice(log: seq<Act>, id: string, i: nat, j: nat)
    requires i <= j < |log| && PaidAt(log, id, i) && PaidAt(log, id, j)
    ensures |Payments(DoneFor(log, id))| >= if i < j then 2 else 1
    decreases |log|
  {
    var front, last := log[..|log| - 1], log[|log| - 1];
    assert log == front + [last];
    PaymentsDone(front, last, id);
    if j < |front| {
      PaidTwice(front, id, i, j);
    } else if i < |front| {
      PaidTwice(front, id, i, i);
    }
  }

  // ----- refunds by an administrator ---------------------------------------------------------------

  /** How many admin refunds of the run release the escrow of the job. */
  function ReleaseCount(scripts: nat -> Script, s: System, evs: seq<Happening>, id: string): nat {
    if evs == [] then 0
    else
      var front := evs[..|evs| - 1];
      ReleaseCount(scripts, s, front, id)
      + (if Releases(Run(scripts, s, front), evs[|evs| - 1], id) then 1 else 0)
  }

  /** All payment calls made for a job, by workers and by administrators. */
  function PaymentCount(s: System, id: string): nat {
    |Payments(DoneFor(s.log, id))| + multiset(s.refunds)[id]
  }

  lemma {:induction false} RefundsAreReleases(scripts: nat -> Script, s: System, evs: seq<Happening>, id: string)
    requires s.refunds == []
    ensures multiset(Run(scripts, s, evs).refunds)[id] == ReleaseCount(scripts, s, evs, id)
    decreases |evs|
  {
    if evs != [] {
      var front := evs[..|evs| - 1];
      RefundsAreReleases(scripts, s, front, id);
      OneMoreRefund(scripts, Run(scripts, s, front), evs[|evs| - 1], id);
    }
  }

  lemma {:induction false} OneMoreRefund(scripts: nat -> Script, s: System, ev: Happening, id: string)
    ensures multiset(Next(scripts, s, ev).refunds)[id] ==
            multiset(s.refunds)[id] + (if Releases(s, ev, id) then 1 else 0)
  {
  }

  /** A worker's next effect is a payment for the job. */
  predicate WorkerPays(s: System, ev: Happening, id: string) {
    && ev.Work? && ev.task < |s.tasks| && s.tasks[ev.task].todo != [] && s.tasks[ev.task].id == id
    && IsPayment()(s.tasks[ev.task].todo[0])
  }

  lemma {:induction false} PaymentsDone(log: seq<Act>, a: Act, id: string)
    ensures Payments(DoneFor(log + [a], id)) ==
            Payments(DoneFor(log, id)) + (if a.id == id && IsPayment()(a.effect) then [a.effect] else [])
  {
    assert (log + [a])[..|log|] == log;
    if a.id == id {
      FilterOneMore(DoneFor(log, id), a.effect, IsPayment());
    } else {
      assert DoneFor(log, id) + [] == DoneFor(log, id);
    }
  }

  /** What one happening adds to the payments by workers. */
  lemma {:induction false} WorkerPaymentStep(scripts: nat -> Script, s: System, ev: Happening, id: string)
    ensures |Payments(DoneFor(Next(scripts, s, ev).log, id))| ==
            |Payments(DoneFor(s.log, id))| + (if WorkerPays(s, ev, id) then 1 else 0)
  {
    if ev.Work? && ev.task < |s.tasks| && s.tasks[ev.task].todo != [] {
      PaymentsDone(s.log, Act(ev.task, s.tasks[ev.task].id, s.tasks[ev.task].todo[0]), id);
    }
  }

  /** A worker's payment is for a job that has an escrow and no webhook, as it claimed it. */
  lemma {:induction false} WorkerPaymentOwned(s: System, ev: Happening, id: string)
    requires Inv(s) && WorkerPays(s, ev, id)
    ensures var k := s.tasks[ev.task];
            k.id == id && (k.todo[0].Settle? || k.todo[0].Refund?) && k.job.escrow != "" && k.job.webhook == ""
  {
    var k := s.tasks[ev.task];
    NextEffect(s, ev.task);
    assert Planned(k);
    PaymentsOfJob(k.job, k.script);
    assert k.todo[0] in Payments(Effects(k.job, k.script));
  }

  /** At any moment of any run the next happening is one more payment for a job exactly when it is an
      admin refund that releases the job's escrow or the payment of its worker. It is a payment for a job
      that was paid for already if and only if it is such a refund after any payment, or the worker's
      payment after a refund: a worker never pays after a worker. */
  lemma {:induction false} FurtherPaymentIff(
      scripts: nat -> Script, s: System, evs: seq<Happening>, ev: Happening, id: string)
    requires Quiet(s) && NoRequeue(evs) && KeepsOut(ev)
    ensures var r := Run(scripts, s, evs);
            var n := Next(scripts, r, ev);
            && PaymentCount(n, id) ==
               PaymentCount(r, id) + (if Releases(r, ev, id) || WorkerPays(r, ev, id) then 1 else 0)
            && (PaymentCount(n, id) > PaymentCount(r, id) >= 1 <==>
                (Releases(r, ev, id) && PaymentCount(r, id) >= 1) || (WorkerPays(r, ev, id) && id in r.refunds))
            && (Releases(r, ev, id) <==>
                ev == AdminRelease(id, true) && id in r.table.jobs && r.table.jobs[id].escrow != "")
  {
    var r := Run(scripts, s, evs);
    WorkerPaymentStep(scripts, r, ev, id);
    OneMoreRefund(scripts, r, ev, id);
    assert (evs + [ev])[..|evs|] == evs;
    WorkersPayAtMostOnce(scripts, s, evs + [ev], id);
    assert Run(scripts, s, evs + [ev]) == Next(scripts, r, ev);
  }

  /** Over a whole run a job is paid for more than once, by whomever, if and only if the escrow is
      released by admin refunds twice, or once besides a payment by a worker. An admin refund of a job
      that is in the table, has an escrow and meets a bound client always releases, so nothing in the
      table prevents either. */
  lemma {:induction false} PaidAgainIff(scripts: nat -> Script, s: System, evs: seq<Happening>, id: string)
    requires Quiet(s) && NoRequeue(evs)
    ensures var r, n := Run(scripts, s, evs), ReleaseCount(scripts, s, evs, id);
            && PaymentCount(r, id) <= n + 1
            && (PaymentCount(r, id) > 1 <==> n > 1 || (n == 1 && Payments(DoneFor(r.log, id)) != []))
  {
    RefundsAreReleases(scripts, s, evs, id);
    WorkersPayAtMostOnce(scripts, s, evs, id);
  }

  /** A job without an escrow is paid for by nobody. */
  lemma {:induction false} NoEscrowNoPayment(scripts: nat -> Script, s: System, evs: seq<Happening>, id: string)
    requires Quiet(s) && NoRequeue(evs)
    requires id in Run(scripts, s, evs).table.jobs && Run(scripts, s, evs).table.jobs[id].escrow == ""
    ensures PaymentCount(Run(scripts, s, evs), id) == 0
  {
    RefundsAreReleases(scripts, s, evs, id);
    WorkersPayAtMostOnce(scripts, s, evs, id);
    NeverReleased(scripts, s, evs, id);
  }

  lemma {:induction false} NeverReleased(scripts: nat -> Script, s: System, evs: seq<Happening>, id: string)
    requires Inv(s) && NoRequeue(evs)
    requires id in Run(scripts, s, evs).table.jobs ==> Run(scripts, s, evs).table.jobs[id].escrow == ""
    ensures ReleaseCount(scripts, s, evs, id) == 0
    decreases |evs|
  {
    if evs != [] {
      var front, ev := evs[..|evs| - 1], evs[|evs| - 1];
      assert forall i :: 0 <= i < |front| ==> front[i] == evs[i];
      var mid := Run(scripts, s, front);
      RunKeepsInv(scripts, s, front);
      NextTable(scripts, mid, ev);
      if id in mid.table.jobs {
        TableKeepsRow(mid, ev, id);
      }
      NeverReleased(scripts, s, front, id);
    }
  }

  lemma {:induction false} SettledByWorker(scripts: nat -> Script, s: System, id: string, now: int)
    requires id in s.table.jobs && s.log == [] && |s.tasks| == 1
    requires s.tasks[0].id == id && s.tasks[0].todo == [StatusUpdate("DELIVERED"), Settle]
    ensures var paid := Next(scripts, Next(scripts, s, Work(0, now, true)), Work(0, now, true));
            && paid.log == [Act(0, id, StatusUpdate("DELIVERED")), Act(0, id, Settle)]
            && id in paid.table.jobs && paid.table.jobs[id].escrow == s.table.jobs[id].escrow
            && paid.refunds == s.refunds
  {
    var written := Next(scripts, s, Work(0, now, true));
    assert written.log == [Act(0, id, StatusUpdate("DELIVERED"))] && written.tasks[0].todo == [Settle];
    assert written.table == Update(s.table, id, "DELIVERED", false, now);
    assert CallsOf(written, Work(0, now, true)) == [];
  }

  /** A job that its worker settled and whose escrow an administrator then releases: the settlement is
      no obstacle. */
  lemma {:induction false} SettledThenRefunded(scripts: nat -> Script, table: Jobs.State, id: string, now: int)
    requires Queued(table, id) && OwnsEscrow(table.jobs[id]) && scripts(0).escrowPermitted && scripts(0).agent.AgentOk?
    requires scripts(0).upload.Returns? && !scripts(0).packingRaises && !scripts(0).updateRaises
    ensures var claimed := Next(scripts, System(table, [], [], []), Claiming([id], now));
            var paid := Next(scripts, Next(scripts, claimed, Work(0, now, true)), Work(0, now, true));
            var refunded := Next(scripts, paid, AdminRelease(id, true));
            && refunded.log == [Act(0, id, StatusUpdate("DELIVERED")), Act(0, id, Settle)]
            && refunded.refunds == [id]
  {
    var claimed := Next(scripts, System(table, [], [], []), Claiming([id], now));
    ClaimOne(scripts, table, id, now);
    SettledByWorker(scripts, claimed, id, now);
    var paid := Next(scripts, Next(scripts, claimed, Work(0, now, true)), Work(0, now, true));
    ReleaseAlways(scripts, paid, id);
  }

  lemma {:induction false} ReleaseAlways(scripts: nat -> Script, s: System, id: string)
    requires id in s.table.jobs && s.table.jobs[id].escrow != ""
    ensures Next(scripts, s, AdminRelease(id, true)) == s.(refunds := s.refunds + [id])
  {
  }

  /** Claiming one job for a worker that will succeed. */
  lemma {:induction false} ClaimOne(scripts: nat -> Script, table: Jobs.State, id: string, now: int)
    requires Queued(table, id) && OwnsEscrow(table.jobs[id]) && scripts(0).escrowPermitted && scripts(0).agent.AgentOk?
    requires scripts(0).upload.Returns? && !scripts(0).packingRaises && !scripts(0).updateRaises
    ensures var claimed := Next(scripts, System(table, [], [], []), Claiming([id], now));
            && id in claimed.table.jobs && claimed.table.jobs[id] == ClaimMark(now)(table.jobs[id])
            && |claimed.tasks| == 1 && claimed.tasks[0].id == id && claimed.log == [] && claimed.refunds == []
            && claimed.tasks[0].todo == [StatusUpdate("DELIVERED"), Settle]
  {
    var claimed := Next(scripts, System(table, [], [], []), Claiming([id], now));
    assert Queued(table, [id][0]);
    ClaimedOutOfQueue(table, [id], now);
    MoveAllRows(table, [id], ClaimMark(now), id);
    assert claimed.tasks == [NewTask(claimed.table, id, scripts(0))];
    assert Effects(claimed.table.jobs[id], scripts(0)) == [StatusUpdate("DELIVERED"), Settle];
  }

  // ----- the table ------------------------------------------------------------------------------

  function RunCalls(scripts: nat -> Script, s: System, evs: seq<Happening>): seq<Op> {
    if evs == [] then []
    else
      var front := evs[..|evs| - 1];
      RunCalls(scripts, s, front) + CallsOf(Run(scripts, s, front), evs[|evs| - 1])
  }

  lemma {:induction false} OneMoreCall(table: Jobs.State, ops: seq<Op>, more: seq<Op>)
    requires |more| <= 1
    ensures Jobs.Exec(table, ops + more) ==
            if more == [] then Jobs.Exec(table, ops) else Jobs.Step(Jobs.Exec(table, ops), more[0])
  {
    if more == [] {
      assert ops + more == ops;
    } else {
      assert (ops + more)[..|ops|] == ops;
    }
  }

  lemma {:induction false} RunTable(scripts: nat -> Script, s: System, evs: seq<Happening>)
    ensures Run(scripts, s, evs).table == Jobs.Exec(s.table, RunCalls(scripts, s, evs))
    decreases |evs|
  {
    if evs != [] {
      var front, ev := evs[..|evs| - 1], evs[|evs| - 1];
      RunTable(scripts, s, front);
      NextTable(scripts, Run(scripts, s, front), ev);
      OneMoreCall(s.table, RunCalls(scripts, s, front), CallsOf(Run(scripts, s, front), ev));
    }
  }

  lemma {:induction false} StillNeverRequeued(ops: seq<Op>, more: seq<Op>)
    requires NeverRequeued(ops) && forall op :: op in more && op.OpUpdate? ==> op.status != "QUEUED"
    ensures NeverRequeued(ops + more)
  {
    forall i | 0 <= i < |ops + more| && (ops + more)[i].OpUpdate? ensures (ops + more)[i].status != "QUEUED" {
      if i >= |ops| {
        assert more[i - |ops|] in more;
      }
    }
  }

  lemma {:induction false} RunNeverRequeues(scripts: nat -> Script, s: System, evs: seq<Happening>)
    requires Inv(s) && NoRequeue(evs)
    ensures NeverRequeued(RunCalls(scripts, s, evs))
    decreases |evs|
  {
    if evs != [] {
      var front, ev := evs[..|evs| - 1], evs[|evs| - 1];
      assert forall i :: 0 <= i < |front| ==> front[i] == evs[i];
      RunNeverRequeues(scripts, s, front);
      RunKeepsInv(scripts, s, front);
      CallsKeepOut(Run(scripts, s, front), ev);
      StillNeverRequeued(RunCalls(scripts, s, front), CallsOf(Run(scripts, s, front), ev));
    }
  }

  /** The table of a run is that of its store calls, none of which requeues a job: what holds of every
      run of store calls holds of the table the workers share. */
  lemma {:induction false} RunIsStoreRun(scripts: nat -> Script, s: System, evs: seq<Happening>)
    requires Inv(s) && NoRequeue(evs)
    ensures Run(scripts, s, evs).table == Jobs.Exec(s.table, RunCalls(scripts, s, evs))
    ensures NeverRequeued(RunCalls(scripts, s, evs))
  {
    RunTable(scripts, s, evs);
    RunNeverRequeues(scripts, s, evs);
  }

  /** So the event log of every job is a path in every interleaving of workers, if child ids are new. */
  lemma {:induction false} WorkersKeepPaths(scripts: nat -> Script, s: System, evs: seq<Happening>)
    requires Quiet(s) && NoRequeue(evs) && PathsOk(s.table) && FreshChildren(s.table, RunCalls(scripts, s, evs))
    ensures PathsOk(Run(scripts, s, evs).table)
  {
    RunIsStoreRun(scripts, s, evs);
    EveryLogIsAPath(s.table, RunCalls(scripts, s, evs));
  }

  lemma {:induction false} NextTable(scripts: nat -> Script, s: System, ev: Happening)
    ensures Next(scripts, s, ev).table == TableAfter(s, ev)
  {
  }

  // ----- payment and record -----------------------------------------------------------------------

  /** Nothing but the task itself moves the task on or its job elsewhere. */
  predicate LeavesAlone(ev: Happening, t: nat, id: string) {
    && !(ev.Work? && ev.task == t) && !(ev.Kill? && ev.task == t)
    && (ev.Other? && ev.op.OpUpdate? ==> ev.op.id != id && ev.op.status != "QUEUED")
    && (ev.Other? && ev.op.OpReap? ==> id !in ev.op.ids)
  }

  /** A store call that does not name the job leaves its status alone, once it is out of the queue. */
  lemma {:induction false} CallLeavesStatus(table: Jobs.State, op: Op, id: string)
    requires id in table.jobs && table.jobs[id].status != "QUEUED"
    requires !(op.OpUpdate? && op.id == id) && !(op.OpReap? && id in op.ids)
    ensures id in Jobs.Step(table, op).jobs && Jobs.Step(table, op).jobs[id].status == table.jobs[id].status
  {
    if op.OpClaim? && Claimable(table, op.ids) {
      assert id !in op.ids;
      MoveAllRows(table, op.ids, ClaimMark(op.now), id);
    } else if op.OpReap? && Reapable(table, op.ids, op.minutes, op.now) {
      MoveAllRows(table, op.ids, ExpireMark(op.now), id);
    }
  }

  lemma {:induction false} AloneCalls(s: System, ev: Happening, t: nat)
    requires Inv(s) && t < |s.tasks| && LeavesAlone(ev, t, s.tasks[t].id) && CallsOf(s, ev) != []
    ensures var op, id := CallsOf(s, ev)[0], s.tasks[t].id;
            !(op.OpUpdate? && op.id == id) && !(op.OpReap? && id in op.ids)
  {
  }

  lemma {:induction false} AloneStep(scripts: nat -> Script, s: System, ev: Happening, t: nat)
    requires Inv(s) && t < |s.tasks| && LeavesAlone(ev, t, s.tasks[t].id)
    ensures var s' := Next(scripts, s, ev);
            && Inv(s') && t < |s'.tasks| && s'.tasks[t] == s.tasks[t]
            && s.tasks[t].id in s.table.jobs && s.tasks[t].id in s'.table.jobs
            && s'.table.jobs[s.tasks[t].id].status == s.table.jobs[s.tasks[t].id].status
  {
    NextKeepsInv(scripts, s, ev);
    NextTable(scripts, s, ev);
    assert TaskOk(s.table, s.log, t, s.tasks[t]);
    if CallsOf(s, ev) != [] {
      AloneCalls(s, ev, t);
      CallLeavesStatus(s.table, CallsOf(s, ev)[0], s.tasks[t].id);
    }
    AloneTask(scripts, s, ev, t);
  }

  lemma {:induction false} AloneTask(scripts: nat -> Script, s: System, ev: Happening, t: nat)
    requires t < |s.tasks| && !(ev.Work? && ev.task == t) && !(ev.Kill? && ev.task == t)
    ensures t < |Next(scripts, s, ev).tasks| && Next(scripts, s, ev).tasks[t] == s.tasks[t]
  {
  }

  lemma {:induction false} AloneRun(scripts: nat -> Script, s: System, evs: seq<Happening>, t: nat)
    requires Inv(s) && t < |s.tasks|
    requires forall i :: 0 <= i < |evs| ==> LeavesAlone(evs[i], t, s.tasks[t].id)
    ensures var s' := Run(scripts, s, evs);
            && Inv(s') && t < |s'.tasks| && s'.tasks[t] == s.tasks[t]
            && s.tasks[t].id in s.table.jobs && s.tasks[t].id in s'.table.jobs
            && s'.table.jobs[s.tasks[t].id].status == s.table.jobs[s.tasks[t].id].status
    decreases |evs|
  {
    assert TaskOk(s.table, s.log, t, s.tasks[t]);
    if evs != [] {
      var front := evs[..|evs| - 1];
      assert forall i :: 0 <= i < |front| ==> front[i] == evs[i];
      AloneRun(scripts, s, front, t);
      AloneStep(scripts, Run(scripts, s, front), evs[|evs| - 1], t);
      assert TaskOk(Run(scripts, s, evs).table, Run(scripts, s, evs).log, t, Run(scripts, s, evs).tasks[t]);
    }
  }

  /** A worker does not look at whether its status update was refused before it pays. So, as long
      as no other update or reap of the job comes in between, whatever else does, the job stands in the
      status that goes with the payment when that is made if and only if it was not in another terminal
      status before the update. */
  lemma {:induction false} PaymentMatchesRecordIff(
      scripts: nat -> Script, s: System, t: nat, status: string, pay: Effect, now: int, evs: seq<Happening>, later: int)
    requires Inv(s) && t < |s.tasks| && s.tasks[t].id in s.table.jobs
    requires |s.tasks[t].todo| >= 2 && s.tasks[t].todo[0] == StatusUpdate(status) && s.tasks[t].todo[1] == pay
    requires pay.Settle? || pay.Refund?
    requires forall i :: 0 <= i < |evs| ==> LeavesAlone(evs[i], t, s.tasks[t].id)
    ensures var id := s.tasks[t].id;
            var written := Next(scripts, s, Work(t, now, true));
            var before := Run(scripts, written, evs);
            var paid := Next(scripts, before, Work(t, later, true));
            && paid.log == before.log + [Act(t, id, pay)] && id in paid.table.jobs
            && (paid.table.jobs[id].status == status <==>
                s.table.jobs[id].status !in TERMINAL || s.table.jobs[id].status == status)
  {
    var written := Next(scripts, s, Work(t, now, true));
    WorkKeepsInv(scripts, s, Work(t, now, true));
    StatusWritten(scripts, s, t, now);
    AloneRun(scripts, written, evs, t);
    PaymentMade(scripts, Run(scripts, written, evs), t, later);
  }

  /** The update a worker writes: what it leaves to do and what becomes of the status. */
  lemma {:induction false} StatusWritten(scripts: nat -> Script, s: System, t: nat, now: int)
    requires t < |s.tasks| && s.tasks[t].id in s.table.jobs
    requires s.tasks[t].todo != [] && s.tasks[t].todo[0].StatusUpdate?
    ensures var id, status, written := s.tasks[t].id, s.tasks[t].todo[0].status, Next(scripts, s, Work(t, now, true));
            && t < |written.tasks| && written.tasks[t] == s.tasks[t].(todo := s.tasks[t].todo[1..])
            && id in written.table.jobs
            && (written.table.jobs[id].status == status <==>
                s.table.jobs[id].status !in TERMINAL || s.table.jobs[id].status == status)
  {
  }

  /** A payment is recorded and touches nothing in the table. */
  lemma {:induction false} PaymentMade(scripts: nat -> Script, s: System, t: nat, now: int)
    requires t < |s.tasks| && s.tasks[t].todo != []
    requires s.tasks[t].todo[0].Settle? || s.tasks[t].todo[0].Refund?
    ensures var paid := Next(scripts, s, Work(t, now, true));
            paid.table == s.table && paid.log == s.log + [Act(t, s.tasks[t].id, s.tasks[t].todo[0])]
  {
  }

  /** A silent job with a finished worker: reaped, then updated and paid by its worker. */
  lemma {:induction false} SettledAfterReap(scripts: nat -> Script, s: System, id: string, reap: int)
    requires Stale(s.table, id, 5, reap)
    requires |s.tasks| == 1 && s.tasks[0].id == id && s.tasks[0].todo == [StatusUpdate("DELIVERED"), Settle]
    requires s.log == []
    ensures var reaped := Next(scripts, s, Other(OpReap([id], 5, reap)));
            var paid := Next(scripts, Next(scripts, reaped, Work(0, reap, true)), Work(0, reap, true));
            && id in paid.table.jobs && paid.table.jobs[id].status == "EXPIRED"
            && paid.log == [Act(0, id, StatusUpdate("DELIVERED")), Act(0, id, Settle)]
  {
    assert Stale(s.table, [id][0], 5, reap);
    MoveAllRows(s.table, [id], ExpireMark(reap), id);
    var reaped := Next(scripts, s, Other(OpReap([id], 5, reap)));
    assert reaped.table.jobs[id].status == "EXPIRED" && reaped.tasks == s.tasks;
    assert Refused("EXPIRED", "DELIVERED", false);
    var refused := Next(scripts, reaped, Work(0, reap, true));
    assert refused.table == reaped.table;
    assert refused.log == [Act(0, id, StatusUpdate("DELIVERED"))];
    var paid := Next(scripts, refused, Work(0, reap, true));
    assert paid.table == reaped.table;
    assert paid.log == [Act(0, id, StatusUpdate("DELIVERED")), Act(0, id, Settle)];
  }

  /** The reaper is how that happens: a claimed job that falls silent for more than five minutes is
      expired, its worker finishes all the same, the update to DELIVERED is refused, and the escrow
      is settled. */
  lemma {:induction false} ExpiredJobIsSettled(scripts: nat -> Script, table: Jobs.State, id: string, now: int)
    requires Queued(table, id) && OwnsEscrow(table.jobs[id]) && scripts(0).escrowPermitted && scripts(0).agent.AgentOk?
    requires scripts(0).upload.Returns? && !scripts(0).packingRaises && !scripts(0).updateRaises
    ensures var reap := now + 5 * MINUTE + 1;
            var claimed := Next(scripts, System(table, [], [], []), Claiming([id], now));
            var reaped := Next(scripts, claimed, Other(OpReap([id], 5, reap)));
            var paid := Next(scripts, Next(scripts, reaped, Work(0, reap, true)), Work(0, reap, true));
            && id in paid.table.jobs && paid.table.jobs[id].status == "EXPIRED"
            && paid.log == [Act(0, id, StatusUpdate("DELIVERED")), Act(0, id, Settle)]
  {
    var claimed := Next(scripts, System(table, [], [], []), Claiming([id], now));
    ClaimOne(scripts, table, id, now);
    SettledAfterReap(scripts, claimed, id, now + 5 * MINUTE + 1);
  }

  // ----- what one task does, and when it stops ----------------------------------------------------------

  /** A task whose process died does nothing more, whatever happens. */
  lemma {:induction false} KilledIsSilent(scripts: nat -> Script, s: System, t: nat, evs: seq<Happening>)
    requires t < |s.tasks|
    ensures var r := Run(scripts, Next(scripts, s, Kill(t)), evs);
            t < |r.tasks| && r.tasks[t].todo == [] && Performed(r.log, t) == Performed(s.log, t)
    decreases |evs|
  {
    if evs != [] {
      var front, ev := evs[..|evs| - 1], evs[|evs| - 1];
      KilledIsSilent(scripts, s, t, front);
      SilentStep(scripts, Run(scripts, Next(scripts, s, Kill(t)), front), t, ev);
    }
  }

  lemma {:induction false} SilentStep(scripts: nat -> Script, s: System, t: nat, ev: Happening)
    requires t < |s.tasks| && s.tasks[t].todo == []
    ensures var r := Next(scripts, s, ev);
            t < |r.tasks| && r.tasks[t].todo == [] && Performed(r.log, t) == Performed(s.log, t)
  {
    if ev.Work? && ev.task < |s.tasks| && s.tasks[ev.task].todo != [] {
      PerformedNext(s.log, Act(ev.task, s.tasks[ev.task].id, s.tasks[ev.task].todo[0]), t);
    }
  }

  /** A heartbeat of a task is recorded on its job. */
  lemma {:induction false} BeatIsRecorded(scripts: nat -> Script, s: System, t: nat, now: int)
    requires Inv(s) && t < |s.tasks|
    ensures var r, id := Next(scripts, s, Beating(t, now)), s.tasks[t].id;
            && id in r.table.jobs && r.table.jobs[id].lastHeartbeat == Some(now)
            && r.tasks == s.tasks && r.log == s.log
  {
    assert TaskOk(s.table, s.log, t, s.tasks[t]);
  }

  /** A claim starts, for every claimed job in order, a task that is to do all that `process_job` does for
      the row as claimed. */
  lemma {:induction false} ClaimStartsTasks(scripts: nat -> Script, s: System, ids: seq<string>, now: int, i: nat)
    requires Claimable(s.table, ids) && i < |ids|
    ensures var r := Next(scripts, s, Claiming(ids, now));
            && |r.tasks| == |s.tasks| + |ids| && r.tasks[..|s.tasks|] == s.tasks
            && ids[i] in r.table.jobs && r.table.jobs[ids[i]].status == "RUNNING"
            && var k := r.tasks[|s.tasks| + i];
               && k.id == ids[i] && k.job == r.table.jobs[ids[i]] && k.todo == k.plan
               && k.plan == Effects(k.job, scripts(|s.tasks| + i))
  {
    ClaimedOutOfQueue(s.table, ids, now);
    ClaimedRuns(s.table, ids, now, i);
    ClaimedTask(s, ids, scripts, now, i);
  }

  lemma {:induction false} ClaimedRuns(table: Jobs.State, ids: seq<string>, now: int, i: nat)
    requires Claimable(table, ids) && i < |ids|
    ensures AllIn(table, ids) && AllIn(Jobs.Step(table, OpClaim(ids, now)), ids)
    ensures Jobs.Step(table, OpClaim(ids, now)).jobs[ids[i]].status == "RUNNING"
  {
    forall n | 0 <= n < |ids| ensures ids[n] in table.jobs {
      assert Queued(table, ids[n]);
    }
    assert ids[i] in ids;
    MoveAllRows(table, ids, ClaimMark(now), ids[i]);
  }

  lemma {:induction false} ClaimedTask(s: System, ids: seq<string>, scripts: nat -> Script, now: int, i: nat)
    requires Claimable(s.table, ids) && i < |ids| && AllIn(Jobs.Step(s.table, OpClaim(ids, now)), ids)
    ensures var r := Next(scripts, s, Claiming(ids, now));
            && r.table == Jobs.Step(s.table, OpClaim(ids, now)) && |r.tasks| == |s.tasks| + |ids|
            && r.tasks[..|s.tasks|] == s.tasks
            && r.tasks[|s.tasks| + i] == NewTask(r.table, ids[i], scripts(|s.tasks| + i))
  {
  }

  function Works(t: nat, n: nat, now: int): seq<Happening> {
    if n == 0 then [] else Works(t, n - 1, now) + [Work(t, now, true)]
  }

  function Acts(t: nat, id: string, effects: seq<Effect>): (acts: seq<Act>)
    ensures |acts| == |effects| && forall i :: 0 <= i < |acts| ==> acts[i] == Act(t, id, effects[i])
  {
    seq(|effects|, i requires 0 <= i < |effects| => Act(t, id, effects[i]))
  }

  /** Left to itself a task does everything it has to do, in order, and then it is done. */
  lemma {:induction false} TaskCompletes(scripts: nat -> Script, s: System, t: nat, n: nat, now: int)
    requires t < |s.tasks| && n <= |s.tasks[t].todo|
    ensures var r, k := Run(scripts, s, Works(t, n, now)), s.tasks[t];
            && r.log == s.log + Acts(t, k.id, k.todo[..n])
            && |r.tasks| == |s.tasks| && r.tasks[t] == k.(todo := k.todo[n..])
    decreases n
  {
    if n > 0 {
      var front := Works(t, n - 1, now);
      TaskCompletes(scripts, s, t, n - 1, now);
      assert Works(t, n, now)[..|front|] == front;
      OneMoreDone(scripts, s, Run(scripts, s, front), t, n, now);
    }
  }

  lemma {:induction false} OneMoreDone(scripts: nat -> Script, s: System, mid: System, t: nat, n: nat, now: int)
    requires t < |s.tasks| && 1 <= n <= |s.tasks[t].todo| && |mid.tasks| == |s.tasks|
    requires mid.log == s.log + Acts(t, s.tasks[t].id, s.tasks[t].todo[..n - 1])
    requires mid.tasks[t] == s.tasks[t].(todo := s.tasks[t].todo[n - 1..])
    ensures var r, k := Next(scripts, mid, Work(t, now, true)), s.tasks[t];
            && r.log == s.log + Acts(t, k.id, k.todo[..n])
            && |r.tasks| == |s.tasks| && r.tasks[t] == k.(todo := k.todo[n..])
  {
    var k := s.tasks[t];
    ActsOneMore(t, k.id, k.todo, n);
    WorkDoesNext(scripts, mid, t, now);
    LogJoins(s.log, Acts(t, k.id, k.todo[..n - 1]), Act(t, k.id, k.todo[n - 1]));
  }

  lemma {:induction false} WorkDoesNext(scripts: nat -> Script, s: System, t: nat, now: int)
    requires t < |s.tasks| && s.tasks[t].todo != []
    ensures var r, k := Next(scripts, s, Work(t, now, true)), s.tasks[t];
            && r.log == s.log + [Act(t, k.id, k.todo[0])]
            && |r.tasks| == |s.tasks| && r.tasks[t] == k.(todo := k.todo[1..])
  {
  }

  lemma {:induction false} LogJoins(log: seq<Act>, acts: seq<Act>, a: Act)
    ensures (log + acts) + [a] == log + (acts + [a])
  {
  }

  lemma {:induction false} ActsOneMore(t: nat, id: string, todo: seq<Effect>, n: nat)
    requires 1 <= n <= |todo|
    ensures todo[n - 1..] != [] && todo[n - 1..][0] == todo[n - 1] && todo[n - 1..][1..] == todo[n..]
    ensures Acts(t, id, todo[..n]) == Acts(t, id, todo[..n - 1]) + [Act(t, id, todo[n - 1])]
  {
  }
}
