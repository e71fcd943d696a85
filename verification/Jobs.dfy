/** The job table and its event log (job_store.py). Every store call is one atomic step. */
module Jobs {
  import opened Common

  /** Times are in microseconds. */
  const MINUTE := 60_000_000

  /** The columns the lifecycle reads: the webhook and escrow decide what a worker may pay. */
  datatype Job = Job(
    status: string, createdAt: int, startedAt: Option<int>, lastHeartbeat: Option<int>, completedAt: Option<int>,
    idempotencyKey: string, webhook: string, escrow: string)

  /** A `status_change` row; the first of a job has no predecessor. */
  datatype Event = Event(jobId: string, from: Option<string>, to: string)

  datatype State = State(jobs: map<string, Job>, events: seq<Event>)

  const TERMINAL: set<string> := {"DELIVERED", "FAILED", "SETTLED", "REFUNDED", "EXPIRED"}

  /** `COALESCE("lastHeartbeatAt", "startedAt", "createdAt")`. */
  function SignOf(j: Job): int {
    if j.lastHeartbeat.Some? then j.lastHeartbeat.value
    else if j.startedAt.Some? then j.startedAt.value
    else j.createdAt
  }

  // ----- the store calls as functions ------------------------------------------------------

  /** Move a row and log the move. */
  function Move(s: State, id: string, mark: Job -> Job): State
    requires id in s.jobs
  {
    var j := s.jobs[id];
    State(s.jobs[id := mark(j)], s.events + [Event(id, Some(j.status), mark(j).status)])
  }

  predicate AllIn(s: State, ids: seq<string>) {
    forall i :: 0 <= i < |ids| ==> ids[i] in s.jobs
  }

  /** The same move for each of several rows. */
  function MoveAll(s: State, ids: seq<string>, mark: Job -> Job): (s': State)
    requires AllIn(s, ids)
    ensures s'.jobs.Keys == s.jobs.Keys
    decreases |ids|
  {
    if ids == [] then s
    else
      var front := MoveAll(s, ids[..|ids| - 1], mark);
      Move(front, ids[|ids| - 1], mark)
  }

  function Started(j: Job, now: int): Option<int> {
    if j.startedAt.Some? then j.startedAt else Some(now)
  }

  function ClaimMark(now: int): Job -> Job {
    (j: Job) => j.(status := "RUNNING", startedAt := Started(j, now), lastHeartbeat := Some(now))
  }

  function ExpireMark(now: int): Job -> Job {
    (j: Job) => j.(status := "EXPIRED", completedAt := Some(now))
  }

  function UpdateMark(status: string, now: int): Job -> Job {
    (j: Job) => j.(
        status := status,
        startedAt := if status == "RUNNING" then Started(j, now) else j.startedAt,
        completedAt := if status in TERMINAL then Some(now) else j.completedAt)
  }

  predicate KeyTaken(s: State, key: string) {
    key != "" && exists id :: id in s.jobs && s.jobs[id].idempotencyKey == key
  }

  function Create(s: State, id: string, key: string, webhook: string, escrow: string, now: int): State {
    if KeyTaken(s, key) || id in s.jobs then s
    else State(s.jobs[id := Job("QUEUED", now, None, None, None, key, webhook, escrow)],
               s.events + [Event(id, None, "QUEUED")])
  }

  /** The row insert is skipped when the id exists; the event is written either way. */
  function CreateChild(s: State, id: string, now: int): State {
    State(if id in s.jobs then s.jobs
          else s.jobs[id := Job("RUNNING", now, Some(now), Some(now), None, "", "", "")],
          s.events + [Event(id, None, "RUNNING")])
  }

  predicate Refused(from: string, to: string, override_: bool) {
    from in TERMINAL && to != from && !override_
  }

  function Update(s: State, id: string, status: string, override_: bool, now: int): State {
    if id !in s.jobs || Refused(s.jobs[id].status, status, override_) then s
    else Move(s, id, UpdateMark(status, now))
  }

  function Heartbeat(s: State, id: string, now: int): State {
    if id in s.jobs then s.(jobs := s.jobs[id := s.jobs[id].(lastHeartbeat := Some(now))]) else s
  }

  predicate Queued(s: State, id: string) {
    id in s.jobs && s.jobs[id].status == "QUEUED"
  }

  predicate Stale(s: State, id: string, minutes: int, now: int) {
    id in s.jobs && s.jobs[id].status == "RUNNING" && SignOf(s.jobs[id]) < now - minutes * MINUTE
  }

  /** Running, and the last of heartbeat, start and creation that is known is more than so many minutes ago. */
  predicate Silent(s: State, id: string, minutes: int, now: int) {
    id in s.jobs && s.jobs[id].status == "RUNNING" &&
    (match s.jobs[id].lastHeartbeat
     case Some(beat) => beat
     case None =>
       (match s.jobs[id].startedAt
        case Some(start) => start
        case None => s.jobs[id].createdAt)) + minutes * 60_000_000 < now
  }

  lemma {:induction false} StaleIffSilent(s: State, id: string, minutes: int, now: int)
    ensures Stale(s, id, minutes, now) <==> Silent(s, id, minutes, now)
  {
  }

  /** What a claim of so many slots takes from the queue: each once, none locked, none beyond the free slots,
      all of them if there are fewer, and no job younger than one that it leaves behind. */
  ghost predicate ClaimsItsShare(s: State, slots: int, locked: set<string>, ids: seq<string>) {
    && |ids| <= slots && Distinct(ids)
    && (forall i :: 0 <= i < |ids| ==>
          ids[i] in s.jobs && s.jobs[ids[i]].status == "QUEUED" && ids[i] !in locked)
    && (|ids| < slots ==>
          forall id :: id in s.jobs && s.jobs[id].status == "QUEUED" && id !in locked ==> id in ids)
    && (forall i, id ::
          0 <= i < |ids| && id in s.jobs && s.jobs[id].status == "QUEUED" && id !in locked && id !in ids ==>
            s.jobs[ids[i]].createdAt <= s.jobs[id].createdAt)
  }

  // ----- runs ------------------------------------------------------------------------------

  /** One store call. Batches name the rows the database returned, in the order it did. */
  datatype Op =
    | OpCreate(id: string, key: string, webhook: string, escrow: string, now: int)
    | OpCreateChild(id: string, now: int)
    | OpUpdate(id: string, status: string, override_: bool, now: int)
    | OpHeartbeat(id: string, now: int)
    | OpClaim(ids: seq<string>, now: int)
    | OpReap(ids: seq<string>, minutes: int, now: int)

  predicate Claimable(s: State, ids: seq<string>) {
    Distinct(ids) && forall i :: 0 <= i < |ids| ==> Queued(s, ids[i])
  }

  predicate Reapable(s: State, ids: seq<string>, minutes: int, now: int) {
    Distinct(ids) && forall i :: 0 <= i < |ids| ==> Stale(s, ids[i], minutes, now)
  }

  /** A claim or a reap of rows that do not qualify is not a step the database can take. */
  function Step(s: State, op: Op): State {
    match op
    case OpCreate(id, key, webhook, escrow, now) => Create(s, id, key, webhook, escrow, now)
    case OpCreateChild(id, now) => CreateChild(s, id, now)
    case OpUpdate(id, status, o, now) => Update(s, id, status, o, now)
    case OpHeartbeat(id, now) => Heartbeat(s, id, now)
    case OpClaim(ids, now) => if Claimable(s, ids) then MoveAll(s, ids, ClaimMark(now)) else s
    case OpReap(ids, minutes, now) => if Reapable(s, ids, minutes, now) then MoveAll(s, ids, ExpireMark(now)) else s
  }

  function Exec(s: State, ops: seq<Op>): State {
    if ops == [] then s else Step(Exec(s, ops[..|ops| - 1]), ops[|ops| - 1])
  }

  /** A row is changed by a batch exactly when it is in it. */
  lemma {:induction false} MoveAllRows(s: State, ids: seq<string>, mark: Job -> Job, id: string)
    requires AllIn(s, ids) && Distinct(ids) && id in s.jobs
    ensures MoveAll(s, ids, mark).jobs[id] == if id in ids then mark(s.jobs[id]) else s.jobs[id]
    decreases |ids|
  {
    if ids != [] {
      var front, last := ids[..|ids| - 1], ids[|ids| - 1];
      MoveAllRows(s, front, mark, id);
      assert ids == front + [last];
      if id == last {
        assert last !in front;
      }
    }
  }

  /** What a call does to the columns of a row that exists already: the job's key, webhook, escrow and time
      of creation never change; the start is the first time it runs; the completion is the last time it
      comes to a terminal status; and the heartbeat is its last claim or heartbeat. */
  lemma {:induction false} StepColumns(s: State, op: Op, id: string)
    requires id in s.jobs
    ensures id in Step(s, op).jobs
    ensures var a, b, moved := s.jobs[id], Step(s, op).jobs[id], Moves(s, op, id);
            && b.createdAt == a.createdAt && b.idempotencyKey == a.idempotencyKey
            && b.webhook == a.webhook && b.escrow == a.escrow
            && b.status == (if moved.Some? then moved.value else a.status)
            && b.startedAt == (if moved == Some("RUNNING") && a.startedAt.None? then Some(op.now) else a.startedAt)
            && b.completedAt == (if moved.Some? && moved.value in TERMINAL then Some(op.now) else a.completedAt)
            && b.lastHeartbeat == (if (op.OpHeartbeat? && op.id == id) || (op.OpClaim? && moved.Some?) then Some(op.now)
                                   else a.lastHeartbeat)
  {
    if op.OpClaim? && Claimable(s, op.ids) {
      MoveAllRows(s, op.ids, ClaimMark(op.now), id);
    } else if op.OpReap? && Reapable(s, op.ids, op.minutes, op.now) {
      MoveAllRows(s, op.ids, ExpireMark(op.now), id);
    }
  }

  /** The status a call writes to a row, if it writes one. */
  function Moves(s: State, op: Op, id: string): Option<string>
    requires id in s.jobs
  {
    match op
    case OpCreate(_, _, _, _, _) => None
    case OpCreateChild(_, _) => None
    case OpUpdate(i, status, override_, _) =>
      if i == id && (s.jobs[id].status !in TERMINAL || status == s.jobs[id].status || override_)
      then Some(status) else None
    case OpHeartbeat(_, _) => None
    case OpClaim(ids, _) => if id in ids && Claimable(s, ids) then Some("RUNNING") else None
    case OpReap(ids, minutes, now) => if id in ids && Reapable(s, ids, minutes, now) then Some("EXPIRED") else None
  }

  /** A create call adds its job unless the id is there or another job has the key; no key is no other's. */
  lemma {:induction false} CreateAddsIff(s: State, id: string, key: string, webhook: string, escrow: string, now: int)
    requires id !in s.jobs
    ensures id in Create(s, id, key, webhook, escrow, now).jobs <==>
            key == "" || forall other :: other in s.jobs ==> s.jobs[other].idempotencyKey != key
    ensures forall other :: other in s.jobs ==>
              && other in Create(s, id, key, webhook, escrow, now).jobs
              && Create(s, id, key, webhook, escrow, now).jobs[other] == s.jobs[other]
  {
  }

  /** What a new row holds: a job is queued under the key, webhook and escrow asked for; a child runs from
      the start and has none of them. */
  lemma {:induction false} NewRowColumns(s: State, op: Op, id: string)
    requires id !in s.jobs && id in Step(s, op).jobs
    ensures var b := Step(s, op).jobs[id];
            && b.createdAt == op.now && b.completedAt.None?
            && if op.OpCreate? then
                 && op.id == id && b.status == "QUEUED" && b.startedAt.None? && b.lastHeartbeat.None?
                 && b.idempotencyKey == op.key && b.webhook == op.webhook && b.escrow == op.escrow
               else
                 && op == OpCreateChild(id, op.now) && b.status == "RUNNING"
                 && b.startedAt == Some(op.now) && b.lastHeartbeat == Some(op.now)
                 && b.idempotencyKey == "" && b.webhook == "" && b.escrow == ""
  {
  }

  // ----- the event log is a path -----------------------------------------------------------

  function ForJob(id: string): Event -> bool {
    (e: Event) => e.jobId == id
  }

  function EventsOf(s: State, id: string): seq<Event> {
    Filter(s.events, ForJob(id))
  }

  /** The first event has no predecessor and each later one starts where the last ended. */
  predicate ConnectedAt(es: seq<Event>, i: nat)
    requires i < |es|
  {
    es[i].from == (if i == 0 then None else Some(es[i - 1].to))
  }

  predicate Path(es: seq<Event>) {
    forall i :: 0 <= i < |es| ==> ConnectedAt(es, i)
  }

  predicate PathOk(s: State, id: string) {
    var es := EventsOf(s, id);
    && Path(es)
    && (id in s.jobs ==> es != [] && es[|es| - 1].to == s.jobs[id].status)
    && (id !in s.jobs ==> es == [])
  }

  ghost predicate PathsOk(s: State) {
    forall id :: PathOk(s, id)
  }

  lemma {:induction false} EventsAfter(s: State, e: Event, jobs: map<string, Job>, id: string)
    ensures EventsOf(State(jobs, s.events + [e]), id) ==
            if e.jobId == id then EventsOf(s, id) + [e] else EventsOf(s, id)
  {
    FilterAppend(s.events, [e], ForJob(id));
  }

  lemma {:induction false} PathExtend(es: seq<Event>, e: Event)
    ensures Path(es + [e]) <==> Path(es) && e.from == (if es == [] then None else Some(es[|es| - 1].to))
  {
    var longer := es + [e];
    assert forall i :: 0 <= i < |es| ==> ConnectedAt(longer, i) == ConnectedAt(es, i);
    assert ConnectedAt(longer, |es|) == (e.from == (if es == [] then None else Some(es[|es| - 1].to)));
  }

  lemma {:induction false} MoveKeepsPaths(s: State, id: string, mark: Job -> Job)
    requires PathsOk(s) && id in s.jobs
    ensures PathsOk(Move(s, id, mark))
  {
    var s' := Move(s, id, mark);
    var e := Event(id, Some(s.jobs[id].status), mark(s.jobs[id]).status);
    forall x ensures PathOk(s', x) {
      NextEventKeepsPath(s, id, s'.jobs, e, x);
    }
  }

  /** An event from where the log of its job stands to the status the row now has. */
  lemma {:induction false} NextEventKeepsPath(s: State, id: string, jobs: map<string, Job>, e: Event, x: string)
    requires PathsOk(s) && e.jobId == id && id in jobs && jobs[id].status == e.to
    requires e.from == if id in s.jobs then Some(s.jobs[id].status) else None
    requires x != id ==> (x in jobs <==> x in s.jobs) && (x in jobs ==> jobs[x] == s.jobs[x])
    ensures PathOk(State(jobs, s.events + [e]), x)
  {
    assert PathOk(s, x);
    EventsAfter(s, e, jobs, x);
    PathExtend(EventsOf(s, x), e);
  }

  lemma {:induction false} MoveAllKeepsPaths(s: State, ids: seq<string>, mark: Job -> Job)
    requires PathsOk(s) && AllIn(s, ids)
    ensures PathsOk(MoveAll(s, ids, mark))
    decreases |ids|
  {
    if ids != [] {
      MoveAllKeepsPaths(s, ids[..|ids| - 1], mark);
      MoveKeepsPaths(MoveAll(s, ids[..|ids| - 1], mark), ids[|ids| - 1], mark);
    }
  }

  lemma {:induction false} FirstEventKeepsPaths(s: State, id: string, j: Job)
    requires PathsOk(s) && id !in s.jobs
    ensures PathsOk(State(s.jobs[id := j], s.events + [Event(id, None, j.status)]))
  {
    var e := Event(id, None, j.status);
    var s' := State(s.jobs[id := j], s.events + [e]);
    forall x ensures PathOk(s', x) {
      NextEventKeepsPath(s, id, s'.jobs, e, x);
    }
  }

  /** Creating a child keeps every log a path exactly when its id is new. */
  lemma {:induction false} ChildKeepsPathsIff(s: State, id: string, now: int)
    requires PathsOk(s)
    ensures PathsOk(CreateChild(s, id, now)) <==> id !in s.jobs
  {
    if id in s.jobs {
      var e := Event(id, None, "RUNNING");
      assert PathOk(s, id);
      EventsAfter(s, e, s.jobs, id);
      PathExtend(EventsOf(s, id), e);
      assert !PathOk(CreateChild(s, id, now), id);
    } else {
      FirstEventKeepsPaths(s, id, Job("RUNNING", now, Some(now), Some(now), None, "", "", ""));
    }
  }

  lemma {:induction false} StepKeepsPaths(s: State, op: Op)
    requires PathsOk(s) && (op.OpCreateChild? ==> op.id !in s.jobs)
    ensures PathsOk(Step(s, op))
  {
    match op
    case OpCreate(id, key, webhook, escrow, now) =>
      if Step(s, op) != s {
        FirstEventKeepsPaths(s, id, Job("QUEUED", now, None, None, None, key, webhook, escrow));
      }
    case OpCreateChild(id, now) => ChildKeepsPathsIff(s, id, now);
    case OpUpdate(id, status, o, now) =>
      if Step(s, op) != s {
        MoveKeepsPaths(s, id, UpdateMark(status, now));
      }
    case OpHeartbeat(id, now) =>
      forall x ensures PathOk(Step(s, op), x) {
        assert PathOk(s, x);
      }
    case OpClaim(ids, now) =>
      if Claimable(s, ids) {
        MoveAllKeepsPaths(s, ids, ClaimMark(now));
      }
    case OpReap(ids, minutes, now) =>
      if Reapable(s, ids, minutes, now) {
        MoveAllKeepsPaths(s, ids, ExpireMark(now));
      }
  }

  /** Every child is created under an id that is new at that moment. */
  predicate FreshChildren(s: State, ops: seq<Op>) {
    forall i :: 0 <= i < |ops| && ops[i].OpCreateChild? ==> ops[i].id !in Exec(s, ops[..i]).jobs
  }

  /** In every run the events of each job form a connected path that ends in its status. */
  lemma {:induction false} EveryLogIsAPath(s: State, ops: seq<Op>)
    requires PathsOk(s) && FreshChildren(s, ops)
    ensures PathsOk(Exec(s, ops))
    decreases |ops|
  {
    if ops != [] {
      var front := ops[..|ops| - 1];
      FreshPrefix(s, ops, |front|);
      EveryLogIsAPath(s, front);
      StepKeepsPaths(Exec(s, front), ops[|ops| - 1]);
    }
  }

  lemma {:induction false} FreshPrefix(s: State, ops: seq<Op>, n: nat)
    requires FreshChildren(s, ops) && n <= |ops|
    ensures FreshChildren(s, ops[..n])
  {
    var front := ops[..n];
    forall i | 0 <= i < n && front[i].OpCreateChild? ensures front[i].id !in Exec(s, front[..i]).jobs {
      assert front[i] == ops[i] && front[..i] == ops[..i];
    }
  }

  lemma {:induction false} ReusedIdBreaksPath(s: State, ops: seq<Op>, i: nat)
    requires i < |ops| && ops[i].OpCreateChild? && ops[i].id in Exec(s, ops[..i]).jobs
    requires PathsOk(Exec(s, ops[..i]))
    ensures !PathsOk(Exec(s, ops[..i + 1]))
  {
    ChildKeepsPathsIff(Exec(s, ops[..i]), ops[i].id, ops[i].now);
    assert ops[..i + 1][..i] == ops[..i];
  }

  /** Fresh child ids are exactly what it takes: in a run the logs are paths at every moment if and
      only if every child was created under a new id. */
  lemma {:induction false} LogsArePathsIff(s: State, ops: seq<Op>)
    requires PathsOk(s)
    ensures (forall n: nat :: n <= |ops| ==> PathsOk(Exec(s, ops[..n]))) <==> FreshChildren(s, ops)
  {
    if FreshChildren(s, ops) {
      forall n: nat | n <= |ops| ensures PathsOk(Exec(s, ops[..n])) {
        FreshPrefix(s, ops, n);
        EveryLogIsAPath(s, ops[..n]);
      }
    } else {
      var i: nat :| i < |ops| && ops[i].OpCreateChild? && ops[i].id in Exec(s, ops[..i]).jobs;
      if PathsOk(Exec(s, ops[..i])) {
        ReusedIdBreaksPath(s, ops, i);
      }
    }
  }

  // ----- claimed once ------------------------------------------------------------------------

  /** Whether this call claims the job. */
  predicate Claims(s: State, op: Op, id: string) {
    op.OpClaim? && Claimable(s, op.ids) && id in op.ids
  }

  function ClaimCount(s: State, ops: seq<Op>, id: string): nat {
    if ops == [] then 0
    else
      var front := ops[..|ops| - 1];
      ClaimCount(s, front, id) + (if Claims(Exec(s, front), ops[|ops| - 1], id) then 1 else 0)
  }

  /** No call puts a job back into the queue; true of every call site. */
  predicate NeverRequeued(ops: seq<Op>) {
    forall i :: 0 <= i < |ops| && ops[i].OpUpdate? ==> ops[i].status != "QUEUED"
  }

  lemma {:induction false} StepStaysOutOfQueue(s: State, op: Op, id: string)
    requires id in s.jobs && (op.OpUpdate? ==> op.status != "QUEUED")
    ensures id in Step(s, op).jobs
    ensures s.jobs[id].status != "QUEUED" ==> Step(s, op).jobs[id].status != "QUEUED"
    ensures Claims(s, op, id) ==> s.jobs[id].status == "QUEUED" && Step(s, op).jobs[id].status != "QUEUED"
  {
    if op.OpClaim? && Claimable(s, op.ids) {
      MoveAllRows(s, op.ids, ClaimMark(op.now), id);
    } else if op.OpReap? && Reapable(s, op.ids, op.minutes, op.now) {
      MoveAllRows(s, op.ids, ExpireMark(op.now), id);
    }
  }

  /** One for a job that may still be claimed: not created yet, or waiting in the queue. */
  function ClaimsLeft(s: State, id: string): nat {
    if id !in s.jobs || s.jobs[id].status == "QUEUED" then 1 else 0
  }

  lemma {:induction false} ClaimBudget(s: State, ops: seq<Op>, id: string)
    requires NeverRequeued(ops)
    ensures ClaimCount(s, ops, id) + ClaimsLeft(Exec(s, ops), id) <= ClaimsLeft(s, id)
    decreases |ops|
  {
    if ops != [] {
      var front, op := ops[..|ops| - 1], ops[|ops| - 1];
      assert forall i :: 0 <= i < |front| ==> front[i] == ops[i];
      ClaimBudget(s, front, id);
      var mid := Exec(s, front);
      if id in mid.jobs {
        StepStaysOutOfQueue(mid, op, id);
      } else if op.OpClaim? && id in op.ids {
        var i :| 0 <= i < |op.ids| && op.ids[i] == id;
        assert !Queued(mid, op.ids[i]);
      }
    }
  }

  /** A job is claimed at most once in any run in which nothing puts it back in the queue, and
      not at all if it exists outside the queue to begin with, as a child job does. */
  lemma {:induction false} ClaimedAtMostOnce(s: State, ops: seq<Op>, id: string)
    requires NeverRequeued(ops)
    ensures ClaimCount(s, ops, id) <= ClaimsLeft(s, id) <= 1
    ensures forall i: nat, j: nat :: i < j < |ops| ==> !(ClaimedAt(s, ops, i, id) && ClaimedAt(s, ops, j, id))
    ensures id in s.jobs && s.jobs[id].status != "QUEUED" ==> forall i: nat :: i < |ops| ==> !ClaimedAt(s, ops, i, id)
  {
    ClaimBudget(s, ops, id);
    forall i: nat, j: nat | i < j < |ops| && ClaimedAt(s, ops, i, id) ensures !ClaimedAt(s, ops, j, id) {
      ExecNext(s, ops, i);
      ClaimMovesRow(Exec(s, ops[..i]), ops[i], id);
      OutOfQueueStays(s, ops, i + 1, j, id);
    }
    if id in s.jobs && s.jobs[id].status != "QUEUED" {
      forall i: nat | i < |ops| ensures !ClaimedAt(s, ops, i, id) {
        assert ops[..0] == [];
        OutOfQueueStays(s, ops, 0, i, id);
      }
    }
  }

  /** Call `i` is a claim that takes the job from QUEUED. */
  predicate ClaimedAt(s: State, ops: seq<Op>, i: nat, id: string) {
    && i < |ops| && ops[i].OpClaim? && id in ops[i].ids && Claimable(Exec(s, ops[..i]), ops[i].ids)
    && id in Exec(s, ops[..i]).jobs && Exec(s, ops[..i]).jobs[id].status == "QUEUED"
  }

  lemma {:induction false} ClaimMovesRow(s: State, op: Op, id: string)
    requires op.OpClaim? && id in op.ids && Claimable(s, op.ids) && id in s.jobs
    ensures id in Step(s, op).jobs && Step(s, op).jobs[id].status != "QUEUED"
  {
    MoveAllRows(s, op.ids, ClaimMark(op.now), id);
  }

  lemma {:induction false} ExecNext(s: State, ops: seq<Op>, i: nat)
    requires i < |ops|
    ensures Exec(s, ops[..i + 1]) == Step(Exec(s, ops[..i]), ops[i])
  {
    assert ops[..i + 1][..i] == ops[..i];
  }

  lemma {:induction false} NotRequeued(ops: seq<Op>, i: nat)
    requires NeverRequeued(ops) && i < |ops|
    ensures ops[i].OpUpdate? ==> ops[i].status != "QUEUED"
  {
  }

  lemma {:induction false} OutOfQueueStays(s: State, ops: seq<Op>, m: nat, n: nat, id: string)
    requires NeverRequeued(ops) && m <= n <= |ops|
    requires id in Exec(s, ops[..m]).jobs && Exec(s, ops[..m]).jobs[id].status != "QUEUED"
    ensures id in Exec(s, ops[..n]).jobs && Exec(s, ops[..n]).jobs[id].status != "QUEUED"
    decreases n
  {
    if m < n {
      OutOfQueueStays(s, ops, m, n - 1, id);
      ExecNext(s, ops, n - 1);
      NotRequeued(ops, n - 1);
      StepStaysOutOfQueue(Exec(s, ops[..n - 1]), ops[n - 1], id);
    }
  }

  /** Requeueing is what that rules out: one update makes a running job claimable again. */
  lemma {:induction false} RequeueMakesClaimable(s: State, id: string, now: int)
    requires id in s.jobs && s.jobs[id].status == "RUNNING"
    ensures Claims(Update(s, id, "QUEUED", false, now), OpClaim([id], now), id)
  {
    assert Queued(Update(s, id, "QUEUED", false, now), [id][0]);
  }

  // ----- terminal statuses --------------------------------------------------------------------

  /** A terminal status is left only by an update that asks to override it. */
  lemma {:induction false} TerminalLeftOnlyByOverride(s: State, op: Op, id: string)
    requires id in s.jobs && s.jobs[id].status in TERMINAL
    requires !(op.OpUpdate? && op.id == id && op.override_)
    ensures id in Step(s, op).jobs && Step(s, op).jobs[id].status == s.jobs[id].status
  {
    if op.OpClaim? && Claimable(s, op.ids) {
      TerminalNotBatched(s, op.ids, id);
      MoveAllRows(s, op.ids, ClaimMark(op.now), id);
    } else if op.OpReap? && Reapable(s, op.ids, op.minutes, op.now) {
      TerminalNotBatched(s, op.ids, id);
      MoveAllRows(s, op.ids, ExpireMark(op.now), id);
    }
  }

  /** Only queued and running jobs are claimed or reaped. */
  lemma {:induction false} TerminalNotBatched(s: State, ids: seq<string>, id: string)
    requires id in s.jobs && s.jobs[id].status in TERMINAL
    requires forall i :: 0 <= i < |ids| ==> ids[i] in s.jobs && s.jobs[ids[i]].status in {"QUEUED", "RUNNING"}
    ensures id !in ids
  {
  }

  lemma {:induction false} TerminalStays(s: State, ops: seq<Op>, id: string)
    requires id in s.jobs && s.jobs[id].status in TERMINAL
    requires forall i :: 0 <= i < |ops| ==> !(ops[i].OpUpdate? && ops[i].id == id && ops[i].override_)
    ensures id in Exec(s, ops).jobs && Exec(s, ops).jobs[id].status == s.jobs[id].status
    decreases |ops|
  {
    if ops != [] {
      var front := ops[..|ops| - 1];
      assert forall i :: 0 <= i < |front| ==> front[i] == ops[i];
      TerminalStays(s, front, id);
      TerminalLeftOnlyByOverride(Exec(s, front), ops[|ops| - 1], id);
    }
  }

  /** An update that does not ask to override changes a job's status if and only if that status is not
      terminal and the new one is another. */
  lemma {:induction false} UpdateChangesIff(s: State, id: string, status: string, now: int)
    requires id in s.jobs
    ensures id in Update(s, id, status, false, now).jobs
    ensures Update(s, id, status, false, now).jobs[id].status != s.jobs[id].status <==>
            s.jobs[id].status !in TERMINAL && s.jobs[id].status != status
  {
  }

  /** A delivery is protected from every such update if and only if it is plain `DELIVERED`: with an
      artifact warning it is moved by any other status, for instance back into the queue. */
  lemma {:induction false} DeliveryProtectedIff(s: State, id: string, now: int)
    requires id in s.jobs && s.jobs[id].status in {"DELIVERED", "DELIVERED_WITH_ARTIFACT_WARNING"}
    ensures (forall status :: Update(s, id, status, false, now).jobs[id].status == s.jobs[id].status) <==>
            s.jobs[id].status == "DELIVERED"
    ensures s.jobs[id].status == "DELIVERED_WITH_ARTIFACT_WARNING" ==>
              Queued(Update(s, id, "QUEUED", false, now), id)
              && Update(s, id, "FAILED", false, now).jobs[id].status == "FAILED"
  {
    assert |"DELIVERED_WITH_ARTIFACT_WARNING"| == 31 && |"DELIVERED"| == 9;
    assert "DELIVERED_WITH_ARTIFACT_WARNING" !in TERMINAL by {
      assert forall t :: t in TERMINAL ==> |t| < 31;
    }
    forall status ensures s.jobs[id].status == "DELIVERED" ==>
        Update(s, id, status, false, now).jobs[id].status == s.jobs[id].status
    {
      UpdateChangesIff(s, id, status, now);
    }
    UpdateChangesIff(s, id, "QUEUED", now);
  }

  /** A terminal row has its completion time and a running row its start time. */
  predicate Stamped(j: Job) {
    && (j.status in TERMINAL ==> j.completedAt.Some?)
    && (j.status == "RUNNING" ==> j.startedAt.Some?)
  }

  ghost predicate AllStamped(s: State) {
    forall id :: id in s.jobs ==> Stamped(s.jobs[id])
  }

  /** Every call keeps every row stamped, so the reaper never has to go by the creation time. */
  lemma {:induction false} StepKeepsStamps(s: State, op: Op)
    requires AllStamped(s)
    ensures AllStamped(Step(s, op))
    ensures forall id :: id in Step(s, op).jobs ==>
              && (Step(s, op).jobs[id].status in TERMINAL ==> Step(s, op).jobs[id].completedAt.Some?)
              && (Step(s, op).jobs[id].status == "RUNNING" ==> Step(s, op).jobs[id].startedAt.Some?)
    ensures forall id :: id in s.jobs && s.jobs[id].status == "RUNNING" ==>
              SignOf(s.jobs[id]) == OrElse(s.jobs[id].lastHeartbeat, s.jobs[id].startedAt.value)
  {
    forall id | id in Step(s, op).jobs ensures Stamped(Step(s, op).jobs[id]) {
      if op.OpClaim? && Claimable(s, op.ids) {
        BatchKeepsStamps(s, op.ids, ClaimMark(op.now), id);
      } else if op.OpReap? && Reapable(s, op.ids, op.minutes, op.now) {
        BatchKeepsStamps(s, op.ids, ExpireMark(op.now), id);
      } else {
        assert id in s.jobs ==> Stamped(s.jobs[id]);
      }
    }
  }

  lemma {:induction false} BatchKeepsStamps(s: State, ids: seq<string>, mark: Job -> Job, id: string)
    requires AllStamped(s) && AllIn(s, ids) && Distinct(ids) && id in s.jobs
    requires Stamped(mark(s.jobs[id]))
    ensures Stamped(MoveAll(s, ids, mark).jobs[id])
  {
    MoveAllRows(s, ids, mark, id);
  }

  // ----- the reaper ---------------------------------------------------------------------------

  /** The call is a sign of life: the row is created or claimed, its worker reports, or it is
      started before anything else was known of it. */
  predicate SignOfLife(s: State, op: Op, id: string) {
    match op
    case OpCreate(i, key, _, _, _) => i == id && id !in s.jobs && !KeyTaken(s, key)
    case OpCreateChild(i, _) => i == id && id !in s.jobs
    case OpUpdate(i, status, o, _) =>
      && i == id && id in s.jobs && !Refused(s.jobs[id].status, status, o) && status == "RUNNING"
      && s.jobs[id].lastHeartbeat.None? && s.jobs[id].startedAt.None?
    case OpHeartbeat(i, _) => i == id && id in s.jobs
    case OpClaim(_, _) => Claims(s, op, id)
    case OpReap(_, _, _) => false
  }

  /** The time of the last sign of life in a run that starts with no jobs. */
  function LastSeen(ops: seq<Op>, id: string): Option<int> {
    if ops == [] then None
    else
      var front, op := ops[..|ops| - 1], ops[|ops| - 1];
      if SignOfLife(Exec(State(map[], []), front), op, id) then Some(op.now) else LastSeen(front, id)
  }

  lemma {:induction false} StepSign(s: State, op: Op, id: string)
    requires id in Step(s, op).jobs
    ensures SignOfLife(s, op, id) ==> SignOf(Step(s, op).jobs[id]) == op.now
    ensures !SignOfLife(s, op, id) ==> id in s.jobs && SignOf(Step(s, op).jobs[id]) == SignOf(s.jobs[id])
  {
    if op.OpClaim? && Claimable(s, op.ids) {
      MoveAllRows(s, op.ids, ClaimMark(op.now), id);
    } else if op.OpReap? && Reapable(s, op.ids, op.minutes, op.now) {
      MoveAllRows(s, op.ids, ExpireMark(op.now), id);
    }
  }

  lemma {:induction false} SignIsLastSeen(ops: seq<Op>, id: string)
    requires id in Exec(State(map[], []), ops).jobs
    ensures LastSeen(ops, id) == Some(SignOf(Exec(State(map[], []), ops).jobs[id]))
    decreases |ops|
  {
    if ops != [] {
      var front, op := ops[..|ops| - 1], ops[|ops| - 1];
      var mid := Exec(State(map[], []), front);
      StepSign(mid, op, id);
      if !SignOfLife(mid, op, id) {
        SignIsLastSeen(front, id);
      }
    }
  }

  /** In any run from an empty table, every job a reap changes was RUNNING, becomes EXPIRED, and
      had its last sign of life, as the run shows it, more than `minutes` ago. */
  lemma {:induction false} ReapedMeansSilent(ops: seq<Op>, reap: Op, id: string)
    requires reap.OpReap?
    requires var s := Exec(State(map[], []), ops);
             id in s.jobs && Step(s, reap).jobs[id] != s.jobs[id]
    ensures var s := Exec(State(map[], []), ops);
            && id in reap.ids && s.jobs[id].status == "RUNNING"
            && Step(s, reap).jobs[id].status == "EXPIRED"
            && LastSeen(ops, id).Some? && LastSeen(ops, id).value < reap.now - reap.minutes * MINUTE
  {
    var s := Exec(State(map[], []), ops);
    MoveAllRows(s, reap.ids, ExpireMark(reap.now), id);
    var i :| 0 <= i < |reap.ids| && reap.ids[i] == id;
    assert Stale(s, reap.ids[i], reap.minutes, reap.now);
    SignIsLastSeen(ops, id);
  }

  /** At every reap of the run, the job is not running or was seen within the limit. */
  predicate KeptAlive(ops: seq<Op>, id: string) {
    forall i :: 0 <= i < |ops| && ops[i].OpReap? ==>
      var s := Exec(State(map[], []), ops[..i]);
      id in s.jobs && s.jobs[id].status == "RUNNING" ==>
        LastSeen(ops[..i], id).Some? && ops[i].now - LastSeen(ops[..i], id).value <= ops[i].minutes * MINUTE
  }

  /** A job whose signs of life are never too far apart is never touched by a reap, in any
      interleaving. */
  lemma {:induction false} KeptAliveIsNeverReaped(ops: seq<Op>, id: string, i: nat)
    requires KeptAlive(ops, id) && i < |ops| && ops[i].OpReap?
    requires id in Exec(State(map[], []), ops[..i]).jobs
    ensures id in Exec(State(map[], []), ops[..i + 1]).jobs
    ensures Exec(State(map[], []), ops[..i + 1]).jobs[id] == Exec(State(map[], []), ops[..i]).jobs[id]
  {
    var s := Exec(State(map[], []), ops[..i]);
    assert ops[..i + 1][..i] == ops[..i] && ops[..i + 1][i] == ops[i];
    assert Exec(State(map[], []), ops[..i + 1]) == Step(s, ops[i]);
    if Step(s, ops[i]).jobs[id] != s.jobs[id] {
      ReapedMeansSilent(ops[..i], ops[i], id);
    }
  }

  // ----- heartbeats in time --------------------------------------------------------------------

  predicate SignAt(ops: seq<Op>, j: nat, id: string) {
    j < |ops| && SignOfLife(Exec(State(map[], []), ops[..j]), ops[j], id)
  }

  predicate RunningAt(ops: seq<Op>, n: nat, id: string)
    requires n <= |ops|
  {
    var s := Exec(State(map[], []), ops[..n]);
    id in s.jobs && s.jobs[id].status == "RUNNING"
  }

  /** Call `k` is a heartbeat of the job, or the job is not running at any time after it. */
  ghost predicate HeardAt(ops: seq<Op>, k: nat, id: string)
    requires k < |ops|
  {
    || (ops[k].OpHeartbeat? && ops[k].id == id)
    || (forall n: nat :: k < n <= |ops| ==> !RunningAt(ops, n, id))
  }

  /** The job runs at moment `n`, and call `j` was its latest sign of life then. */
  ghost predicate Latest(ops: seq<Op>, j: nat, n: nat, id: string) {
    && SignAt(ops, j, id) && j < n <= |ops| && RunningAt(ops, n, id)
    && forall k: nat :: j < k < n ==> !SignAt(ops, k, id)
  }

  /** While the job runs, no call of the run comes more than `minutes` after a sign of life, unless
      there was a heartbeat or the job's end within that time. */
  ghost predicate Attended(ops: seq<Op>, id: string, minutes: int) {
    forall j: nat, n: nat, m: nat ::
      Latest(ops, j, n, id) && n <= m < |ops| && ops[m].now > ops[j].now + minutes * MINUTE ==>
        exists k: nat :: j < k < m && ops[k].now <= ops[j].now + minutes * MINUTE && HeardAt(ops, k, id)
  }

  /** The last sign of life of a run. */
  lemma {:induction false} LastSign(ops: seq<Op>, id: string) returns (j: nat)
    requires LastSeen(ops, id).Some?
    ensures SignAt(ops, j, id) && LastSeen(ops, id) == Some(ops[j].now)
    ensures forall k: nat :: j < k < |ops| ==> !SignAt(ops, k, id)
    decreases |ops|
  {
    var front := ops[..|ops| - 1];
    if SignAt(ops, |front|, id) {
      j := |front|;
    } else {
      j := LastSign(front, id);
      assert front[..j] == ops[..j];
      forall k: nat | j < k < |ops| ensures !SignAt(ops, k, id) {
        if k < |front| {
          assert front[..k] == ops[..k] && !SignAt(front, k, id);
        }
      }
    }
  }

  lemma {:induction false} SignedRowStays(ops: seq<Op>, j: nat, n: nat, id: string)
    requires SignAt(ops, j, id) && j < n <= |ops|
    ensures id in Exec(State(map[], []), ops[..n]).jobs
    decreases n
  {
    var s := Exec(State(map[], []), ops[..n - 1]);
    ExecLast(ops, n);
    if n > j + 1 {
      SignedRowStays(ops, j, n - 1, id);
      RowStays(s, ops[n - 1], id);
    } else {
      SignMeansRow(s, ops[j], id);
    }
  }

  lemma {:induction false} ExecLast(ops: seq<Op>, n: nat)
    requires 1 <= n <= |ops|
    ensures Exec(State(map[], []), ops[..n]) == Step(Exec(State(map[], []), ops[..n - 1]), ops[n - 1])
  {
    assert ops[..n][..n - 1] == ops[..n - 1];
  }

  lemma {:induction false} RowStays(s: State, op: Op, id: string)
    requires id in s.jobs
    ensures id in Step(s, op).jobs
  {
  }

  lemma {:induction false} SignMeansRow(s: State, op: Op, id: string)
    requires SignOfLife(s, op, id)
    ensures id in Step(s, op).jobs
  {
    if op.OpClaim? {
      var i :| 0 <= i < |op.ids| && op.ids[i] == id;
      assert Queued(s, op.ids[i]);
    }
  }

  /** Between its latest sign of life and a moment at which it runs, a job is neither heard nor ended. */
  lemma {:induction false} NotHeardBefore(ops: seq<Op>, j: nat, k: nat, n: nat, id: string)
    requires Latest(ops, j, n, id) && j < k < |ops| && HeardAt(ops, k, id)
    ensures n <= k
  {
    SignedRowStays(ops, j, k, id);
    if ops[k].OpHeartbeat? && ops[k].id == id {
      assert SignAt(ops, k, id);
    }
  }

  /** The latest sign of life of a job that runs at moment `n`. */
  lemma {:induction false} LatestAt(ops: seq<Op>, n: nat, id: string) returns (j: nat)
    requires n <= |ops| && RunningAt(ops, n, id)
    ensures Latest(ops, j, n, id) && LastSeen(ops[..n], id) == Some(ops[j].now)
  {
    SignIsLastSeen(ops[..n], id);
    j := LastSign(ops[..n], id);
    assert ops[..n][..j] == ops[..j];
    forall k: nat | j < k < n ensures !SignAt(ops, k, id) {
      assert ops[..n][..k] == ops[..k] && !SignAt(ops[..n], k, id);
    }
  }

  /** Heartbeats at most `minutes` apart keep the job from ever being silent for longer. */
  lemma {:induction false} AttendedIsKeptAlive(ops: seq<Op>, id: string, minutes: int)
    requires Attended(ops, id, minutes)
    requires forall i :: 0 <= i < |ops| && ops[i].OpReap? ==> ops[i].minutes >= minutes
    ensures KeptAlive(ops, id)
  {
    forall i | 0 <= i < |ops| && ops[i].OpReap? && RunningAt(ops, i, id)
      ensures LastSeen(ops[..i], id).Some? && ops[i].now - LastSeen(ops[..i], id).value <= ops[i].minutes * MINUTE
    {
      var j := LatestAt(ops, i, id);
      if ops[i].now > ops[j].now + minutes * MINUTE {
        var k: nat :| j < k < i && ops[k].now <= ops[j].now + minutes * MINUTE && HeardAt(ops, k, id);
        NotHeardBefore(ops, j, k, i, id);
      }
    }
  }

  /** A job whose claim, or insert as a child, and later heartbeats are never more than N minutes apart
      until it ends is never touched by a reaper that waits N minutes, in any interleaving. */
  lemma {:induction false} HeartbeatsKeepAlive(ops: seq<Op>, id: string, minutes: int, i: nat)
    requires Attended(ops, id, minutes)
    requires forall i :: 0 <= i < |ops| && ops[i].OpReap? ==> ops[i].minutes >= minutes
    requires i < |ops| && ops[i].OpReap? && id in Exec(State(map[], []), ops[..i]).jobs
    ensures id in Exec(State(map[], []), ops[..i + 1]).jobs
    ensures Exec(State(map[], []), ops[..i + 1]).jobs[id] == Exec(State(map[], []), ops[..i]).jobs[id]
  {
    AttendedIsKeptAlive(ops, id, minutes);
    KeptAliveIsNeverReaped(ops, id, i);
  }

  // ----- idempotency keys -----------------------------------------------------------------------

  predicate KeysUnique(s: State) {
    forall a, b :: a in s.jobs && b in s.jobs && a != b && s.jobs[a].idempotencyKey != "" ==>
      s.jobs[a].idempotencyKey != s.jobs[b].idempotencyKey
  }

  lemma {:induction false} MoveAllKeepsKeys(s: State, ids: seq<string>, mark: Job -> Job)
    requires AllIn(s, ids) && forall j :: mark(j).idempotencyKey == j.idempotencyKey
    ensures forall id :: id in s.jobs ==> MoveAll(s, ids, mark).jobs[id].idempotencyKey == s.jobs[id].idempotencyKey
    decreases |ids|
  {
    if ids != [] {
      MoveAllKeepsKeys(s, ids[..|ids| - 1], mark);
    }
  }

  /** No two jobs ever share an idempotency key. */
  lemma {:induction false} StepKeepsKeysUnique(s: State, op: Op)
    requires KeysUnique(s)
    ensures KeysUnique(Step(s, op))
  {
    if op.OpClaim? && Claimable(s, op.ids) {
      MoveAllKeepsKeys(s, op.ids, ClaimMark(op.now));
    } else if op.OpReap? && Reapable(s, op.ids, op.minutes, op.now) {
      MoveAllKeepsKeys(s, op.ids, ExpireMark(op.now));
    }
  }
}
