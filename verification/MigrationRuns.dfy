/** Runs of the migration runner: one run as the runner codes it, and all interleavings of
    concurrent runs over one directory. */
module MigrationRuns {
  import opened Common
  import opened Migrations

  // ----- one run --------------------------------------------------------------------------

  class Database<S(!new)> {
    const sql: Sql<S>
    const empty: S
    var ledger: Ledger
    var schema: S

    constructor (sql: Sql<S>, empty: S)
      ensures this.sql == sql && this.empty == empty
      ensures ledger == map[] && schema == empty
    {
      this.sql := sql;
      this.empty := empty;
      ledger := map[];
      schema := empty;
    }

    /** Ledger and schema are those of the first `n` files. */
    ghost predicate At(files: seq<Migration>, n: nat)
      reads this
    {
      AppliedPrefix(sql, empty, files, ledger, schema, n)
    }

    /** One file and its ledger row in one transaction: both are written or neither is. */
    method ApplyOne(m: Migration) returns (r: Result<(), Refusal>)
      modifies this
      ensures r.Ok? <==> sql(old(schema), m.sql).Some? && m.filename !in old(ledger)
      ensures r.Ok? ==> Some(schema) == sql(old(schema), m.sql)
                        && ledger == old(ledger)[m.filename := m.checksum]
      ensures r.Err? ==> schema == old(schema) && ledger == old(ledger)
    {
      var after := sql(schema, m.sql);
      if after.None? {
        return Err(SqlFailed);
      }
      if m.filename in ledger {
        return Err(AlreadyRecorded);
      }
      schema, ledger := after.value, ledger[m.filename := m.checksum];
      return Ok(());
    }

    /** Reading the ledger and reconciling it with the files. */
    method Plan(files: seq<Migration>, ghost n: nat) returns (r: Result<seq<Migration>, Refusal>)
      requires Discovered(files) && (Reconcile(files, ledger).Ok? ==> At(files, n))
      ensures r == Reconcile(files, ledger)
      ensures r.Ok? ==> n <= |files| && r.value == files[n..] && At(files, n)
    {
      r := Reconcile(files, ledger);
      if r.Ok? {
        PrefixReconciles(files, ledger, n);
      }
    }

    /** The next file of the directory, through the lock check. */
    method ApplyPending(files: seq<Migration>, ghost n: nat, m: Migration, alive: bool) returns (r: Result<(), Refusal>)
      requires Discovered(files) && At(files, n) && n < |files| && m == files[n]
      modifies this
      ensures r.Ok? ==> At(files, n + 1)
      ensures r.Err? ==> r.error in {LockLost, SqlFailed} && schema == old(schema) && ledger == old(ledger)
      ensures r.Ok? <==> alive && sql(old(schema), m.sql).Some?
    {
      if !alive {
        return Err(LockLost);
      }
      RecordedIff(files, ledger, n, n);
      ghost var before, was := schema, ledger;
      r := ApplyOne(m);
      if r.Err? {
        return Err(SqlFailed);
      }
      ApplyNext(sql, empty, files, was, before, n, schema);
    }

    /** The loop over the pending files. `alive(i)` is the outcome of the lock check before the
        i-th of them. */
    method ApplyAll(files: seq<Migration>, pending: seq<Migration>, alive: nat -> bool, ghost n: nat)
      returns (r: Result<seq<string>, Refusal>, ghost done: nat)
      requires Discovered(files) && n <= |files| && pending == files[n..] && At(files, n)
      modifies this
      ensures n <= done <= |files| && At(files, done)
      ensures r.Ok? <==> done == |files|
      ensures r.Ok? ==> r.value == Names(files[n..])
      ensures done == n ==> ledger == old(ledger) && schema == old(schema)
    {
      done := n;
      ghost var names := Names(pending);
      var applied: seq<string> := [];
      for i := 0 to |pending|
        invariant done == n + i && At(files, done)
        invariant applied == names[..i]
        invariant i == 0 ==> ledger == old(ledger) && schema == old(schema)
      {
        var one := ApplyPending(files, done, pending[i], alive(i));
        if one.Err? {
          return Err(one.error), done;
        }
        done := done + 1;
        applied := applied + [pending[i].filename];
      }
      return Ok(applied), done;
    }

    /** One run under the lock. The schema is only assumed to be the one an accepted ledger stands
        for. A refused ledger leaves everything as it was; otherwise success means that all files
        are applied, and failure leaves a prefix at least as long as before. */
    method Migrate(files: seq<Migration>, alive: nat -> bool, ghost n: nat)
      returns (r: Result<seq<string>, Refusal>, ghost done: nat)
      requires Discovered(files) && (Reconcile(files, ledger).Ok? ==> At(files, n))
      modifies this
      ensures done == n ==> ledger == old(ledger) && schema == old(schema)
      ensures old(Reconcile(files, ledger)).Err? ==> done == n && r == Err(old(Reconcile(files, ledger)).error)
      ensures old(Reconcile(files, ledger)).Ok? ==>
                && n <= done <= |files| && At(files, done)
                && (r.Ok? <==> done == |files|)
                && (r.Ok? ==> r.value == Names(files[n..]))
    {
      var plan := Plan(files, n);
      if plan.Err? {
        return Err(plan.error), n;
      }
      r, done := ApplyAll(files, plan.value, alive, n);
    }
  }

  // ----- concurrent runs --------------------------------------------------------------------

  /** Where a runner is. `Executed` has an open transaction whose statements ran on the schema
      committed at that time and produced `result`; nothing of it is visible yet. */
  datatype Runner<S> =
    | Holding
    | Running(pending: seq<Migration>)
    | Checked(pending: seq<Migration>)
    | Executed(pending: seq<Migration>, result: S)
    | Done
    | Failed

  /** `history` lists the committed files in commit order. */
  datatype State<S> = State(
    ledger: Ledger, schema: S, history: seq<string>, lock: Option<nat>, runners: map<nat, Runner<S>>)

  datatype Event =
    | Acquire(p: nat)
    | LoseLock(p: nat)
    | ReadLedger(p: nat)
    | CheckLock(p: nat)
    | RunStatements(p: nat)
    | CommitFile(p: nat)
    | Finish(p: nat)
    | Crash(p: nat)

  function Put<S>(s: State<S>, p: nat, r: Runner<S>): State<S> {
    s.(runners := s.runners[p := r])
  }

  /** A runner that stops gives up the lock if it still has it. */
  function Stop<S>(s: State<S>, p: nat, r: Runner<S>): State<S> {
    Put(s, p, r).(lock := if s.lock == Some(p) then None else s.lock)
  }

  /** One event; an event that is not possible changes nothing. */
  function Step<S>(files: seq<Migration>, sql: Sql<S>, s: State<S>, ev: Event): State<S> {
    if ev.Acquire? then
      if ev.p !in s.runners && s.lock.None? then Put(s, ev.p, Holding).(lock := Some(ev.p)) else s
    else if ev.p !in s.runners then s
    else
      var p, r := ev.p, s.runners[ev.p];
      match ev
      case LoseLock(_) => if s.lock == Some(p) then s.(lock := None) else s
      case ReadLedger(_) =>
        if r.Holding? then
          match Reconcile(files, s.ledger)
          case Ok(pending) => Put(s, p, Running(pending))
          case Err(_) => Stop(s, p, Failed)
        else s
      case CheckLock(_) =>
        if r.Running? && r.pending != [] then
          if s.lock == Some(p) then Put(s, p, Checked(r.pending)) else Stop(s, p, Failed)
        else s
      case RunStatements(_) =>
        if r.Checked? && r.pending != [] then
          var result := sql(s.schema, r.pending[0].sql);
          if result.Some? then Put(s, p, Executed(r.pending, result.value)) else Stop(s, p, Failed)
        else s
      case CommitFile(_) =>
        if r.Executed? && r.pending != [] then
          if r.pending[0].filename in s.ledger then Stop(s, p, Failed)
          else Record(s, p, r.pending, r.result)
        else s
      case Finish(_) => if r.Running? && r.pending == [] then Stop(s, p, Done) else s
      case Crash(_) => Stop(s, p, if r.Done? then Done else Failed)
  }

  /** The commit of one file: its transaction's schema replaces the committed one. */
  function Record<S>(s: State<S>, p: nat, pending: seq<Migration>, result: S): State<S>
    requires pending != []
  {
    Put(s, p, Running(pending[1..])).(
      ledger := s.ledger[pending[0].filename := pending[0].checksum],
      schema := result,
      history := s.history + [pending[0].filename])
  }

  function Exec<S>(files: seq<Migration>, sql: Sql<S>, s: State<S>, evs: seq<Event>): State<S>
    decreases |evs|
  {
    if evs == [] then s else Exec(files, sql, Step(files, sql, s, evs[0]), evs[1..])
  }

  // ----- invariant --------------------------------------------------------------------------

  /** A runner's pending files are a suffix starting no later than the first unapplied file; and
      if it starts there, its open transaction ran on the schema that is still committed. */
  ghost predicate RunnerOk<S>(files: seq<Migration>, sql: Sql<S>, schema: S, n: nat, r: Runner<S>) {
    match r
    case Holding => true
    case Running(pending) => SuffixUpTo(files, n, pending)
    case Checked(pending) => SuffixUpTo(files, n, pending) && pending != []
    case Executed(pending, result) =>
      && SuffixUpTo(files, n, pending) && pending != []
      && (|files| - |pending| == n ==> sql(schema, files[n].sql) == Some(result))
    case Done => n == |files|
    case Failed => true
  }

  ghost predicate SuffixUpTo(files: seq<Migration>, n: nat, pending: seq<Migration>) {
    |pending| <= |files| && |files| - |pending| <= n && pending == files[|files| - |pending|..]
  }

  ghost predicate Inv<S(!new)>(files: seq<Migration>, sql: Sql<S>, empty: S, s: State<S>) {
    var n := |s.history|;
    && AppliedPrefix(sql, empty, files, s.ledger, s.schema, n)
    && s.history == Names(files[..n])
    && forall p :: p in s.runners ==> RunnerOk(files, sql, s.schema, n, s.runners[p])
  }

  lemma {:induction false} PutKeepsInv<S(!new)>(
      files: seq<Migration>, sql: Sql<S>, empty: S, s: State<S>, s': State<S>, p: nat, r: Runner<S>)
    requires Inv(files, sql, empty, s) && RunnerOk(files, sql, s.schema, |s.history|, r)
    requires s'.runners == s.runners[p := r]
    requires s'.ledger == s.ledger && s'.schema == s.schema && s'.history == s.history
    ensures Inv(files, sql, empty, s')
  {
  }

  /** A transaction whose ledger row goes in is for the first unapplied file, so its statements
      ran on the committed schema: nothing was committed in between. */
  lemma {:induction false} CommitKeepsInv<S(!new)>(files: seq<Migration>, sql: Sql<S>, empty: S, s: State<S>, p: nat)
    requires Discovered(files) && Inv(files, sql, empty, s)
    requires p in s.runners && s.runners[p].Executed? && s.runners[p].pending != []
    requires s.runners[p].pending[0].filename !in s.ledger
    ensures Inv(files, sql, empty, Record(s, p, s.runners[p].pending, s.runners[p].result))
  {
    var n, r := |s.history|, s.runners[p];
    var k := |files| - |r.pending|;
    assert RunnerOk(files, sql, s.schema, n, r);
    assert r.pending[0] == files[k];
    RecordedIff(files, s.ledger, n, k);
    assert k == n;
    ApplyNext(sql, empty, files, s.ledger, s.schema, n, r.result);
    var s' := Record(s, p, r.pending, r.result);
    assert s'.history == Names(files[..n + 1]);
    forall q | q in s'.runners ensures RunnerOk(files, sql, s'.schema, n + 1, s'.runners[q]) {
      if q != p {
        assert RunnerOk(files, sql, s.schema, n, s.runners[q]);
      }
    }
  }

  lemma {:induction false} ReadKeepsInv<S(!new)>(files: seq<Migration>, sql: Sql<S>, empty: S, s: State<S>, p: nat)
    requires Discovered(files) && Inv(files, sql, empty, s)
    ensures Inv(files, sql, empty, Step(files, sql, s, ReadLedger(p)))
  {
    var n := |s.history|;
    PrefixReconciles(files, s.ledger, n);
    var s' := Step(files, sql, s, ReadLedger(p));
    if s' != s {
      PutKeepsInv(files, sql, empty, s, s', p, Running(files[n..]));
    }
  }

  lemma {:induction false} StepKeepsInv<S(!new)>(files: seq<Migration>, sql: Sql<S>, empty: S, s: State<S>, ev: Event)
    requires Discovered(files) && Inv(files, sql, empty, s)
    ensures Inv(files, sql, empty, Step(files, sql, s, ev))
  {
    var s' := Step(files, sql, s, ev);
    if ev.p in s.runners {
      assert RunnerOk(files, sql, s.schema, |s.history|, s.runners[ev.p]);
    }
    if ev.ReadLedger? {
      ReadKeepsInv(files, sql, empty, s, ev.p);
    } else if s'.history != s.history {
      CommitKeepsInv(files, sql, empty, s, ev.p);
    } else if s' != s && !ev.LoseLock? {
      OtherStepKeepsInv(files, sql, empty, s, ev);
    }
  }

  lemma {:induction false} OtherStepKeepsInv<S(!new)>(
      files: seq<Migration>, sql: Sql<S>, empty: S, s: State<S>, ev: Event)
    requires Inv(files, sql, empty, s)
    requires !ev.ReadLedger? && !ev.LoseLock?
    requires Step(files, sql, s, ev) != s && Step(files, sql, s, ev).history == s.history
    ensures Inv(files, sql, empty, Step(files, sql, s, ev))
  {
    var s' := Step(files, sql, s, ev);
    if ev.p in s.runners {
      assert RunnerOk(files, sql, s.schema, |s.history|, s.runners[ev.p]);
    }
    PutKeepsInv(files, sql, empty, s, s', ev.p, s'.runners[ev.p]);
  }

  lemma {:induction false} RunKeepsInv<S(!new)>(
      files: seq<Migration>, sql: Sql<S>, empty: S, s: State<S>, evs: seq<Event>)
    requires Discovered(files) && Inv(files, sql, empty, s)
    ensures Inv(files, sql, empty, Exec(files, sql, s, evs))
    decreases |evs|
  {
    if evs != [] {
      StepKeepsInv(files, sql, empty, s, evs[0]);
      RunKeepsInv(files, sql, empty, Step(files, sql, s, evs[0]), evs[1..]);
    }
  }

  // ----- every interleaving -----------------------------------------------------------------

  function Fresh<S>(empty: S): State<S> {
    State(map[], empty, [], None, map[])
  }

  /** Whatever runners do, crash or lose, the ledger records a prefix of the sorted files, the
      files committed are that prefix in order, each once, and the schema is what that prefix
      builds from an empty database. A runner that finished left nothing pending. */
  lemma {:induction false} EveryRunAppliesAPrefix<S(!new)>(
      files: seq<Migration>, sql: Sql<S>, empty: S, evs: seq<Event>)
    requires Discovered(files)
    ensures var s := Exec(files, sql, Fresh(empty), evs);
            var n := |s.history|;
            && RecordsPrefix(files, s.ledger, n)
            && s.history == Names(files[..n]) && Distinct(s.history)
            && Build(sql, empty, files, n) == Some(s.schema)
            && Reconcile(files, s.ledger) == Ok(files[n..])
            && (forall p :: p in s.runners && s.runners[p].Done? ==> n == |files|)
  {
    RunKeepsInv(files, sql, empty, Fresh(empty), evs);
    var s := Exec(files, sql, Fresh(empty), evs);
    PrefixReconciles(files, s.ledger, |s.history|);
    forall i, j | 0 <= i < j < |s.history| ensures s.history[i] != s.history[j] {
      assert Ordered(files, i, j);
      LexIrreflexive(files[i].filename);
    }
    forall p | p in s.runners && s.runners[p].Done? ensures |s.history| == |files| {
      assert RunnerOk(files, sql, s.schema, |s.history|, s.runners[p]);
    }
  }

  lemma {:induction false} HistoryWithinFiles<S(!new)>(files: seq<Migration>, sql: Sql<S>, empty: S, s: State<S>)
    requires Inv(files, sql, empty, s)
    ensures |s.history| <= |files|
  {
  }

  /** A step that records no further file leaves everything as it was. */
  lemma {:induction false} StepRecordsOrKeeps<S>(files: seq<Migration>, sql: Sql<S>, s: State<S>, ev: Event)
    ensures var s' := Step(files, sql, s, ev);
            || |s'.history| > |s.history|
            || (s'.ledger == s.ledger && s'.schema == s.schema && s'.history == s.history)
  {
  }

  /** Once everything is applied no further run, of any number of runners, changes anything. */
  lemma {:induction false} CompleteIsStable<S(!new)>(
      files: seq<Migration>, sql: Sql<S>, empty: S, s: State<S>, evs: seq<Event>)
    requires Discovered(files) && Inv(files, sql, empty, s) && |s.history| == |files|
    ensures var s' := Exec(files, sql, s, evs);
            s'.ledger == s.ledger && s'.schema == s.schema && s'.history == s.history
    decreases |evs|
  {
    if evs != [] {
      var s' := Step(files, sql, s, evs[0]);
      StepKeepsInv(files, sql, empty, s, evs[0]);
      HistoryWithinFiles(files, sql, empty, s');
      StepRecordsOrKeeps(files, sql, s, evs[0]);
      CompleteIsStable(files, sql, empty, s', evs[1..]);
    }
  }

  // ----- the lock --------------------------------------------------------------------------------

  lemma {:induction false} ExecAppend<S>(files: seq<Migration>, sql: Sql<S>, s: State<S>, a: seq<Event>, b: seq<Event>)
    ensures Exec(files, sql, s, a + b) == Exec(files, sql, Exec(files, sql, s, a), b)
    decreases |a|
  {
    if a == [] {
      assert a + b == b;
    } else {
      assert (a + b)[1..] == a[1..] + b;
      ExecAppend(files, sql, Step(files, sql, s, a[0]), a[1..], b);
    }
  }

  /** The state at the moment before event `n`. */
  function At<S>(files: seq<Migration>, sql: Sql<S>, s: State<S>, evs: seq<Event>, n: nat): State<S>
    requires n <= |evs|
  {
    Exec(files, sql, s, evs[..n])
  }

  lemma {:induction false} AtNext<S>(files: seq<Migration>, sql: Sql<S>, s: State<S>, evs: seq<Event>, n: nat)
    requires n < |evs|
    ensures At(files, sql, s, evs, n + 1) == Step(files, sql, At(files, sql, s, evs, n), evs[n])
  {
    assert evs[..n + 1] == evs[..n] + [evs[n]];
    ExecAppend(files, sql, s, evs[..n], [evs[n]]);
    ExecOne(files, sql, At(files, sql, s, evs, n), evs[n]);
  }

  /** Runner `p` checked the lock with event `c` while it held it, and has recorded no file from then on
      until event `n`. */
  ghost predicate CheckedAt<S>(
      files: seq<Migration>, sql: Sql<S>, s: State<S>, evs: seq<Event>, p: nat, c: nat, n: nat)
    requires n <= |evs|
  {
    && c < n && evs[c] == CheckLock(p) && At(files, sql, s, evs, c).lock == Some(p)
    && forall k: nat :: c <= k < n && evs[k].p == p ==>
         At(files, sql, s, evs, k + 1).history == At(files, sql, s, evs, k).history
  }

  /** What one event does to a runner that has checked the lock or run its statements. */
  lemma {:induction false} CheckStep<S>(files: seq<Migration>, sql: Sql<S>, s: State<S>, ev: Event, p: nat)
    requires var s' := Step(files, sql, s, ev);
             p in s'.runners && (s'.runners[p].Checked? || s'.runners[p].Executed?)
    ensures var s' := Step(files, sql, s, ev);
            && p in s.runners && (ev.p == p ==> s'.history == s.history)
            && if s.runners[p].Checked? || s.runners[p].Executed? then s.runners[p].pending == s'.runners[p].pending
               else ev == CheckLock(p) && s.lock == Some(p) && s.runners[p] == Running(s'.runners[p].pending)
  {
  }

  lemma {:induction false} CheckedSince<S>(
      files: seq<Migration>, sql: Sql<S>, s: State<S>, evs: seq<Event>, p: nat, n: nat)
    returns (c: nat)
    requires s.runners == map[] && n <= |evs| && p in At(files, sql, s, evs, n).runners
    requires At(files, sql, s, evs, n).runners[p].Checked? || At(files, sql, s, evs, n).runners[p].Executed?
    ensures CheckedAt(files, sql, s, evs, p, c, n)
    decreases n
  {
    if n > 0 {
      var before := At(files, sql, s, evs, n - 1);
      AtNext(files, sql, s, evs, n - 1);
      CheckStep(files, sql, before, evs[n - 1], p);
      if before.runners[p].Checked? || before.runners[p].Executed? {
        c := CheckedSince(files, sql, s, evs, p, n - 1);
      } else {
        c := n - 1;
      }
    }
  }

  /** What an event that changes ledger, schema or history does: it is a commit by a runner whose statements
      have run, and it records that runner's next file. */
  lemma {:induction false} CommitRecordsNext<S>(files: seq<Migration>, sql: Sql<S>, s: State<S>, ev: Event)
    requires var s' := Step(files, sql, s, ev);
             s'.ledger != s.ledger || s'.schema != s.schema || s'.history != s.history
    ensures var p, s' := ev.p, Step(files, sql, s, ev);
            && ev == CommitFile(p) && p in s.runners && s.runners[p].Executed? && s.runners[p].pending != []
            && s'.history == s.history + [s.runners[p].pending[0].filename]
  {
  }

  /** In every run whatever is committed was preceded by a lock check, of its own, that found the lock held
      by the runner that commits. */
  lemma {:induction false} CommitWasChecked<S>(
      files: seq<Migration>, sql: Sql<S>, empty: S, evs: seq<Event>, n: nat)
    returns (c: nat)
    requires n < |evs|
    requires var s, s' := At(files, sql, Fresh(empty), evs, n), At(files, sql, Fresh(empty), evs, n + 1);
             s'.ledger != s.ledger || s'.schema != s.schema || s'.history != s.history
    ensures evs[n] == CommitFile(evs[n].p) && CheckedAt(files, sql, Fresh(empty), evs, evs[n].p, c, n)
  {
    AtNext(files, sql, Fresh(empty), evs, n);
    CommitRecordsNext(files, sql, At(files, sql, Fresh(empty), evs, n), evs[n]);
    c := CheckedSince(files, sql, Fresh(empty), evs, evs[n].p, n);
  }

  predicate Stopped<S>(s: State<S>, p: nat) {
    p in s.runners && (s.runners[p].Done? || s.runners[p].Failed?)
  }

  /** A runner that finished, failed or crashed commits nothing more. */
  lemma {:induction false} StoppedStays<S>(
      files: seq<Migration>, sql: Sql<S>, s: State<S>, evs: seq<Event>, p: nat, n: nat)
    requires Stopped(s, p) && n < |evs| && evs[n].p == p
    ensures Stopped(At(files, sql, s, evs, n), p) && At(files, sql, s, evs, n).runners[p] == s.runners[p]
    ensures var a, b := At(files, sql, s, evs, n), At(files, sql, s, evs, n + 1);
            a.ledger == b.ledger && a.schema == b.schema && a.history == b.history
  {
    StoppedAt(files, sql, s, evs, p, n);
    AtNext(files, sql, s, evs, n);
  }

  lemma {:induction false} StoppedAt<S>(
      files: seq<Migration>, sql: Sql<S>, s: State<S>, evs: seq<Event>, p: nat, n: nat)
    requires Stopped(s, p) && n <= |evs|
    ensures Stopped(At(files, sql, s, evs, n), p) && At(files, sql, s, evs, n).runners[p] == s.runners[p]
    decreases n
  {
    if n > 0 {
      StoppedAt(files, sql, s, evs, p, n - 1);
      AtNext(files, sql, s, evs, n - 1);
    }
  }

  /** What makes a runner stop: a crash, nothing left to do, a refused ledger, a lock no longer held at a
      check, statements that fail, or a file that was recorded meanwhile. */
  predicate StopCause<S(!new)>(files: seq<Migration>, sql: Sql<S>, s: State<S>, ev: Event)
    requires ev.p in s.runners
  {
    var p, r := ev.p, s.runners[ev.p];
    || ev == Crash(p)
    || (ev == Finish(p) && r == Running([]))
    || (ev == ReadLedger(p) && r.Holding? && Reconcile(files, s.ledger).Err?)
    || (ev == CheckLock(p) && r.Running? && r.pending != [] && s.lock != Some(p))
    || (ev == RunStatements(p) && r.Checked? && r.pending != [] && sql(s.schema, r.pending[0].sql).None?)
    || (ev == CommitFile(p) && r.Executed? && r.pending != [] && r.pending[0].filename in s.ledger)
  }

  /** Then it stops, having changed neither ledger nor schema, and does not hold the lock afterwards; nobody
      else's lock is touched. And it stops for no other reason. */
  lemma {:induction false} StopsIff<S(!new)>(files: seq<Migration>, sql: Sql<S>, s: State<S>, ev: Event)
    requires ev.p in s.runners && !Stopped(s, ev.p)
    ensures Stopped(Step(files, sql, s, ev), ev.p) <==> StopCause(files, sql, s, ev)
    ensures StopCause(files, sql, s, ev) ==>
              var s' := Step(files, sql, s, ev);
              && s'.ledger == s.ledger && s'.schema == s.schema && s'.history == s.history
              && s'.lock == (if s.lock == Some(ev.p) then None else s.lock)
              && (s'.runners[ev.p].Done? <==> ev.Finish?)
  {
  }

  /** Nobody loses another's lock. */
  lemma {:induction false} OnlyHolderLoses<S>(files: seq<Migration>, sql: Sql<S>, s: State<S>, p: nat)
    requires s.lock != Some(p)
    ensures Step(files, sql, s, LoseLock(p)) == s
  {
  }

  /** A lock that is lost is free for the next runner, while the one that lost it goes on unawares. */
  lemma {:induction false} LostLockIsFree<S>(files: seq<Migration>, sql: Sql<S>, s: State<S>, p: nat, q: nat)
    requires p in s.runners && s.lock == Some(p) && q !in s.runners
    ensures Step(files, sql, s, Acquire(q)) == s
    ensures var s' := Exec(files, sql, s, [LoseLock(p), Acquire(q)]);
            && s'.lock == Some(q) && q in s'.runners && s'.runners[q].Holding?
            && p in s'.runners && s'.runners[p] == s.runners[p]
  {
    ExecTwo(files, sql, s, LoseLock(p), Acquire(q));
  }

  /** A runner that finds the lock gone, with files left to apply, commits nothing more in any run. */
  lemma {:induction false} LostLockCommitsNothing<S(!new)>(
      files: seq<Migration>, sql: Sql<S>, s: State<S>, p: nat, evs: seq<Event>, n: nat)
    requires p in s.runners && s.runners[p].Running? && s.runners[p].pending != [] && s.lock != Some(p)
    requires n < |evs| && evs[n].p == p
    ensures var after := Step(files, sql, s, CheckLock(p));
            var a, b := At(files, sql, after, evs, n), At(files, sql, after, evs, n + 1);
            a.ledger == b.ledger && a.schema == b.schema && a.history == b.history
  {
    StopsIff(files, sql, s, CheckLock(p));
    StoppedStays(files, sql, Step(files, sql, s, CheckLock(p)), evs, p, n);
  }

  /** Runner `p` commits a file with event `n`. */
  predicate CommitsAt<S(==)>(files: seq<Migration>, sql: Sql<S>, s: State<S>, evs: seq<Event>, p: nat, n: nat) {
    n < |evs| && evs[n].p == p && At(files, sql, s, evs, n + 1).history != At(files, sql, s, evs, n).history
  }

  /** A runner that has lost the lock commits at most the one file it had already checked for, whatever
      happens then; so two runners are never both at work on more than that. */
  lemma {:induction false} LostLockOneMore<S(!new)>(
      files: seq<Migration>, sql: Sql<S>, s: State<S>, evs: seq<Event>, p: nat, n: nat)
    requires p in s.runners && s.lock != Some(p) && CommitsAt(files, sql, s, evs, p, n)
    ensures s.runners[p].Checked? || s.runners[p].Executed?
    ensures forall m: nat :: m < n ==> !CommitsAt(files, sql, s, evs, p, m)
  {
    LostLockAt(files, sql, s, evs, p, n);
    AtNext(files, sql, s, evs, n);
    LostLockStep(files, sql, At(files, sql, s, evs, n), evs[n], p);
  }

  /** As long as such a runner may still commit it has not, and it could from the start. */
  lemma {:induction false} LostLockAt<S(!new)>(
      files: seq<Migration>, sql: Sql<S>, s: State<S>, evs: seq<Event>, p: nat, n: nat)
    requires p in s.runners && s.lock != Some(p) && n <= |evs|
    ensures var r := At(files, sql, s, evs, n);
            && p in r.runners && r.lock != Some(p)
            && (r.runners[p].Checked? || r.runners[p].Executed? ==>
                  && (s.runners[p].Checked? || s.runners[p].Executed?)
                  && forall m: nat :: m < n ==> !CommitsAt(files, sql, s, evs, p, m))
    decreases n
  {
    if n > 0 {
      LostLockAt(files, sql, s, evs, p, n - 1);
      AtNext(files, sql, s, evs, n - 1);
      LostLockStep(files, sql, At(files, sql, s, evs, n - 1), evs[n - 1], p);
    }
  }

  lemma {:induction false} LostLockStep<S(!new)>(files: seq<Migration>, sql: Sql<S>, s: State<S>, ev: Event, p: nat)
    requires p in s.runners && s.lock != Some(p)
    ensures var s' := Step(files, sql, s, ev);
            && p in s'.runners && s'.lock != Some(p)
            && (ev.p == p && s'.history != s.history ==> s.runners[p].Executed? && s'.runners[p].Running?)
            && (s'.runners[p].Checked? || s'.runners[p].Executed? ==> s.runners[p].Checked? || s.runners[p].Executed?)
  {
  }

  /** Every runner that has not stopped holds the lock, so there is at most one. */
  ghost predicate Serial<S>(s: State<S>) {
    && (forall p :: p in s.runners && !Stopped(s, p) ==> s.lock == Some(p))
    && (s.lock.Some? ==> s.lock.value in s.runners && !Stopped(s, s.lock.value))
  }

  /** As long as no lock is lost runners take turns, whatever else happens: at every moment at most one is at
      work, and it holds the lock; and the lock is free when none is. */
  lemma {:induction false} RunnersTakeTurns<S(!new)>(files: seq<Migration>, sql: Sql<S>, empty: S, evs: seq<Event>)
    requires forall i :: 0 <= i < |evs| ==> !evs[i].LoseLock?
    ensures Serial(Exec(files, sql, Fresh(empty), evs))
  {
    SerialRun(files, sql, Fresh(empty), evs);
  }

  lemma {:induction false} SerialRun<S(!new)>(files: seq<Migration>, sql: Sql<S>, s: State<S>, evs: seq<Event>)
    requires Serial(s) && forall i :: 0 <= i < |evs| ==> !evs[i].LoseLock?
    ensures Serial(Exec(files, sql, s, evs))
    decreases |evs|
  {
    if evs != [] {
      SerialStep(files, sql, s, evs[0]);
      SerialRun(files, sql, Step(files, sql, s, evs[0]), evs[1..]);
    }
  }

  lemma {:induction false} SerialStep<S(!new)>(files: seq<Migration>, sql: Sql<S>, s: State<S>, ev: Event)
    requires Serial(s) && !ev.LoseLock?
    ensures Serial(Step(files, sql, s, ev))
  {
    var s' := Step(files, sql, s, ev);
    forall p | p in s'.runners && !Stopped(s', p) ensures s'.lock == Some(p) {
      assert p != ev.p ==> p in s.runners && !Stopped(s, p);
    }
  }

  // ----- progress ----------------------------------------------------------------------------------

  /** The events of one file. */
  function FileEvents(p: nat): seq<Event> {
    [CheckLock(p), RunStatements(p), CommitFile(p)]
  }

  /** An undisturbed run of one runner for `n` files, from the lock to the end. */
  function Undisturbed(p: nat, n: nat): seq<Event> {
    [Acquire(p), ReadLedger(p)] + AllFiles(p, n) + [Finish(p)]
  }

  function AllFiles(p: nat, n: nat): seq<Event> {
    if n == 0 then [] else FileEvents(p) + AllFiles(p, n - 1)
  }

  lemma {:induction false} ExecOne<S>(files: seq<Migration>, sql: Sql<S>, s: State<S>, a: Event)
    ensures Exec(files, sql, s, [a]) == Step(files, sql, s, a)
  {
    assert [a][1..] == [];
  }

  lemma {:induction false} ExecTwo<S>(files: seq<Migration>, sql: Sql<S>, s: State<S>, a: Event, b: Event)
    ensures Exec(files, sql, s, [a, b]) == Step(files, sql, Step(files, sql, s, a), b)
  {
    assert [a, b][1..] == [b];
    ExecOne(files, sql, Step(files, sql, s, a), b);
  }

  lemma {:induction false} ExecThree<S>(files: seq<Migration>, sql: Sql<S>, s: State<S>, a: Event, b: Event, c: Event)
    ensures Exec(files, sql, s, [a, b, c]) == Step(files, sql, Step(files, sql, Step(files, sql, s, a), b), c)
  {
    assert [a, b, c][1..] == [b, c];
    ExecTwo(files, sql, Step(files, sql, s, a), b, c);
  }

  /** Runner `p` holds the lock and has exactly the unapplied files before it. */
  ghost predicate AtWork<S(!new)>(files: seq<Migration>, sql: Sql<S>, empty: S, s: State<S>, p: nat) {
    && Inv(files, sql, empty, s) && s.lock == Some(p) && |s.history| <= |files|
    && p in s.runners && s.runners[p] == Running(files[|s.history|..])
  }

  lemma {:induction false} OneFileDone<S(!new)>(files: seq<Migration>, sql: Sql<S>, empty: S, s: State<S>, p: nat)
    requires Discovered(files) && AtWork(files, sql, empty, s, p) && |s.history| < |files|
    requires sql(s.schema, files[|s.history|].sql).Some?
    ensures var s' := Exec(files, sql, s, FileEvents(p));
            AtWork(files, sql, empty, s', p) && |s'.history| == |s.history| + 1
  {
    var n := |s.history|;
    var pending := files[n..];
    var s1 := Step(files, sql, s, CheckLock(p));
    var s2 := Step(files, sql, s1, RunStatements(p));
    var s3 := Step(files, sql, s2, CommitFile(p));
    ExecThree(files, sql, s, CheckLock(p), RunStatements(p), CommitFile(p));
    StepKeepsInv(files, sql, empty, s, CheckLock(p));
    StepKeepsInv(files, sql, empty, s1, RunStatements(p));
    StepKeepsInv(files, sql, empty, s2, CommitFile(p));
    RecordedIff(files, s.ledger, n, n);
    assert s2.runners[p].Executed? && s2.runners[p].pending == pending && pending[0] == files[n];
    assert s3.runners[p] == Running(pending[1..]) && pending[1..] == files[n + 1..];
  }

  lemma {:induction false} AllFilesDone<S(!new)>(
      files: seq<Migration>, sql: Sql<S>, empty: S, s: State<S>, p: nat, k: nat)
    requires Discovered(files) && AtWork(files, sql, empty, s, p) && |s.history| + k == |files|
    requires Build(sql, empty, files, |files|).Some?
    ensures var s' := Exec(files, sql, s, AllFiles(p, k));
            AtWork(files, sql, empty, s', p) && |s'.history| == |files|
    decreases k
  {
    if k > 0 {
      NextFileBuilds(files, sql, empty, s);
      OneFileDone(files, sql, empty, s, p);
      ExecAppend(files, sql, s, FileEvents(p), AllFiles(p, k - 1));
      AllFilesDone(files, sql, empty, Exec(files, sql, s, FileEvents(p)), p, k - 1);
    }
  }

  lemma {:induction false} NextFileBuilds<S(!new)>(files: seq<Migration>, sql: Sql<S>, empty: S, s: State<S>)
    requires Inv(files, sql, empty, s) && |s.history| < |files| && Build(sql, empty, files, |files|).Some?
    ensures sql(s.schema, files[|s.history|].sql).Some?
  {
    BuildPrefix(sql, empty, files, |s.history| + 1, |files|);
  }

  lemma {:induction false} BuildPrefix<S>(sql: Sql<S>, empty: S, files: seq<Migration>, m: nat, n: nat)
    requires m <= n <= |files| && Build(sql, empty, files, n).Some?
    ensures Build(sql, empty, files, m).Some?
    decreases n
  {
    if m < n {
      BuildPrefix(sql, empty, files, m, n - 1);
    }
  }

  /** Progress: from any reachable state in which the lock is free, a new runner that is left undisturbed
      finishes, with every file recorded and the lock free again, if and only if the SQL of all files succeeds
      one after another. */
  lemma {:induction false} UndisturbedFinishesIff<S(!new)>(
      files: seq<Migration>, sql: Sql<S>, empty: S, s: State<S>, p: nat)
    requires Discovered(files) && Inv(files, sql, empty, s) && s.lock.None? && p !in s.runners
    ensures var s' := Exec(files, sql, s, Undisturbed(p, |files| - |s.history|));
            && |s.history| <= |files|
            && ((p in s'.runners && s'.runners[p].Done?) <==> Build(sql, empty, files, |files|).Some?)
            && (Build(sql, empty, files, |files|).Some? ==>
                  s'.history == Names(files) && RecordsPrefix(files, s'.ledger, |files|) && s'.lock.None?)
  {
    HistoryWithinFiles(files, sql, empty, s);
    var k := |files| - |s.history|;
    RunKeepsInv(files, sql, empty, s, Undisturbed(p, k));
    if Build(sql, empty, files, |files|).Some? {
      UndisturbedFinishes(files, sql, empty, s, p);
    } else {
      var s' := Exec(files, sql, s, Undisturbed(p, k));
      if p in s'.runners && s'.runners[p].Done? {
        DoneMeansBuilt(files, sql, empty, s', p);
      }
    }
  }

  lemma {:induction false} DoneMeansBuilt<S(!new)>(files: seq<Migration>, sql: Sql<S>, empty: S, s: State<S>, p: nat)
    requires Inv(files, sql, empty, s) && p in s.runners && s.runners[p].Done?
    ensures Build(sql, empty, files, |files|) == Some(s.schema)
  {
    assert RunnerOk(files, sql, s.schema, |s.history|, s.runners[p]);
  }

  lemma {:induction false} UndisturbedFinishes<S(!new)>(
      files: seq<Migration>, sql: Sql<S>, empty: S, s: State<S>, p: nat)
    requires Discovered(files) && Inv(files, sql, empty, s) && s.lock.None? && p !in s.runners
    requires Build(sql, empty, files, |files|).Some?
    requires |s.history| <= |files|
    ensures var s' := Exec(files, sql, s, Undisturbed(p, |files| - |s.history|));
            && p in s'.runners && s'.runners[p].Done? && s'.lock.None?
            && s'.history == Names(files) && RecordsPrefix(files, s'.ledger, |files|)
  {
    var k := |files| - |s.history|;
    WorkDone(files, sql, empty, s, p, k);
    UndisturbedParts(files, sql, s, p, k);
    FinishDone(files, sql, empty, Worked(files, sql, s, p, k), p);
  }

  /** Where the runner is before it finishes. */
  function Worked<S>(files: seq<Migration>, sql: Sql<S>, s: State<S>, p: nat, k: nat): State<S> {
    Exec(files, sql, Exec(files, sql, s, [Acquire(p), ReadLedger(p)]), AllFiles(p, k))
  }

  lemma {:induction false} WorkDone<S(!new)>(
      files: seq<Migration>, sql: Sql<S>, empty: S, s: State<S>, p: nat, k: nat)
    requires Discovered(files) && Inv(files, sql, empty, s) && s.lock.None? && p !in s.runners
    requires Build(sql, empty, files, |files|).Some? && |s.history| + k == |files|
    ensures AtWork(files, sql, empty, Worked(files, sql, s, p, k), p)
    ensures |Worked(files, sql, s, p, k).history| == |files|
  {
    StartsAtWork(files, sql, empty, s, p);
    AllFilesDone(files, sql, empty, Exec(files, sql, s, [Acquire(p), ReadLedger(p)]), p, k);
  }

  lemma {:induction false} UndisturbedParts<S>(files: seq<Migration>, sql: Sql<S>, s: State<S>, p: nat, k: nat)
    ensures Exec(files, sql, s, Undisturbed(p, k)) == Step(files, sql, Worked(files, sql, s, p, k), Finish(p))
  {
    var start, all := [Acquire(p), ReadLedger(p)], AllFiles(p, k);
    ExecAppend(files, sql, s, start, all);
    ExecAppend(files, sql, s, start + all, [Finish(p)]);
    ExecOne(files, sql, Exec(files, sql, s, start + all), Finish(p));
  }

  lemma {:induction false} FinishDone<S(!new)>(files: seq<Migration>, sql: Sql<S>, empty: S, s: State<S>, p: nat)
    requires AtWork(files, sql, empty, s, p) && |s.history| == |files|
    ensures var s' := Step(files, sql, s, Finish(p));
            && p in s'.runners && s'.runners[p].Done? && s'.lock.None?
            && s'.history == Names(files) && RecordsPrefix(files, s'.ledger, |files|)
  {
    assert files[|files|..] == [] && files[..|files|] == files;
  }

  lemma {:induction false} StartsAtWork<S(!new)>(files: seq<Migration>, sql: Sql<S>, empty: S, s: State<S>, p: nat)
    requires Discovered(files) && Inv(files, sql, empty, s) && s.lock.None? && p !in s.runners
    ensures var s' := Exec(files, sql, s, [Acquire(p), ReadLedger(p)]);
            AtWork(files, sql, empty, s', p) && s'.history == s.history
  {
    var s1 := Step(files, sql, s, Acquire(p));
    ExecTwo(files, sql, s, Acquire(p), ReadLedger(p));
    StepKeepsInv(files, sql, empty, s, Acquire(p));
    StepKeepsInv(files, sql, empty, s1, ReadLedger(p));
    HistoryWithinFiles(files, sql, empty, s);
    PrefixReconciles(files, s.ledger, |s.history|);
  }
}
