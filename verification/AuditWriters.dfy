/** Concurrent Postgres writers appending to the audit log. Each writer runs the statements of
    its transaction one at a time; statements of different writers interleave freely, and a
    writer may crash or roll back between any two. A statement sees what is committed when it
    runs, plus the writer's own row. */
module AuditWriters {
  import opened Common
  import opened AuditChain
  import opened AuditAppend

  /** How far a transaction has come, with what it has read or written privately. */
  datatype Txn =
    | Locked(entry: Entry)
    | HasPrev(entry: Entry, prev: string)
    | HasRow(entry: Entry, row: Row)
    | HasHash(entry: Entry, row: Row)
    | HasHead(entry: Entry, row: Row, head: Head)
  {
    predicate HasId() {
      HasRow? || HasHash? || HasHead?
    }
  }

  /** Committed tables, the id sequence (which rollbacks do not rewind), open transactions by
      writer, and the advisory locks with their holders. */
  datatype State = State(store: Store, nextId: nat, txns: map<nat, Txn>, locks: map<int, nat>)

  datatype Event =
    | Lock(w: nat, entry: Entry)
    | ReadPrev(w: nat)
    | Insert(w: nat)
    | UpdateHash(w: nat)
    | UpsertHead(w: nat)
    | Commit(w: nat)
    | Abort(w: nat)

  /** One event. A writer that cannot take the step, for instance because the lock is held,
      waits: the state does not change. `key` maps a session to its advisory lock key and may
      map two sessions to one key. */
  function Step(h: Hasher, key: string -> int, s: State, ev: Event): State {
    if ev.Lock? then
      if ev.w !in s.txns && key(ev.entry.session) !in s.locks then
        s.(txns := s.txns[ev.w := Locked(ev.entry)], locks := s.locks[key(ev.entry.session) := ev.w])
      else s
    else if ev.w !in s.txns then s
    else Advance(h, key, s, ev)
  }

  function Advance(h: Hasher, key: string -> int, s: State, ev: Event): State
    requires !ev.Lock? && ev.w in s.txns
  {
    var t := s.txns[ev.w];
    var e := t.entry;
    match ev
    case ReadPrev(w) =>
      if t.Locked? then
        s.(txns := s.txns[w := HasPrev(e, LastHash(SessionRows(s.store.table, e.session)))])
      else s
    case Insert(w) =>
      if t.HasPrev? then
        s.(txns := s.txns[w := HasRow(e, Placeholder(h, e, s.nextId, t.prev))], nextId := s.nextId + 1)
      else s
    case UpdateHash(w) =>
      if t.HasRow? then s.(txns := s.txns[w := HasHash(e, Sealed(h, t.row))]) else s
    case UpsertHead(w) =>
      if t.HasHash? then
        s.(txns := s.txns[w := HasHead(e, t.row, NextHead(HeadOf(s.store, e.session), t.row))])
      else s
    case Commit(w) =>
      if t.HasHead? then
        Release(key, s, w).(store := Store(InsertById(s.store.table, t.row), s.store.heads[e.session := t.head]))
      else s
    case Abort(w) => Release(key, s, w)
  }

  /** End of a transaction: its private state and its lock are gone. */
  function Release(key: string -> int, s: State, w: nat): State
    requires w in s.txns
  {
    s.(txns := s.txns - {w}, locks := s.locks - {key(s.txns[w].entry.session)})
  }

  function Exec(h: Hasher, key: string -> int, s: State, evs: seq<Event>): State
    decreases |evs|
  {
    if evs == [] then s else Exec(h, key, Step(h, key, s, evs[0]), evs[1..])
  }

  predicate Initial(s: State) {
    && s.txns == map[] && s.locks == map[] && Sorted(s.store.table)
    && forall x :: x in s.store.table ==> x.id < s.nextId
  }

  // ----- invariant ------------------------------------------------------------------------

  /** What a transaction has read is still true of the committed tables. */
  ghost predicate Fits(h: Hasher, store: Store, nextId: nat, t: Txn) {
    var e := t.entry;
    var prev := LastHash(SessionRows(store.table, e.session));
    match t
    case Locked(_) => true
    case HasPrev(_, p) => p == prev
    case HasRow(_, row) => row == Placeholder(h, e, row.id, prev) && GoodId(store, e, nextId, row.id)
    case HasHash(_, row) => row == Sealed(h, Placeholder(h, e, row.id, prev)) && GoodId(store, e, nextId, row.id)
    case HasHead(_, row, head) =>
      && row == Sealed(h, Placeholder(h, e, row.id, prev)) && GoodId(store, e, nextId, row.id)
      && head == NextHead(HeadOf(store, e.session), row)
  }

  ghost predicate GoodId(store: Store, e: Entry, nextId: nat, id: nat) {
    id < nextId && FreshId(store, e.session, id)
  }

  predicate Holds(key: string -> int, s: State, w: nat)
    requires w in s.txns
  {
    var k := key(s.txns[w].entry.session);
    k in s.locks && s.locks[k] == w
  }

  ghost predicate TableOk(s: State) {
    IdsBelow(s.store.table, s.nextId)
  }

  predicate IdsBelow(table: seq<Row>, nextId: nat) {
    Sorted(table) && forall x :: x in table ==> x.id < nextId
  }

  ghost predicate IdsApart(s: State) {
    forall v, w :: v in s.txns && w in s.txns && v != w && s.txns[v].HasId() && s.txns[w].HasId() ==>
      s.txns[v].row.id != s.txns[w].row.id
  }

  ghost predicate Inv(h: Hasher, key: string -> int, s: State) {
    && TableOk(s) && IdsApart(s)
    && (forall w :: w in s.txns ==> Holds(key, s, w))
    && (forall w :: w in s.txns ==> Fits(h, s.store, s.nextId, s.txns[w]))
  }

  /** The lock separates writers: two open transactions are on different sessions. */
  lemma {:induction false} LocksSeparate(h: Hasher, key: string -> int, s: State, v: nat, w: nat)
    requires Inv(h, key, s) && v in s.txns && w in s.txns && v != w
    ensures key(s.txns[v].entry.session) != key(s.txns[w].entry.session)
    ensures s.txns[v].entry.session != s.txns[w].entry.session
  {
    assert Holds(key, s, v) && Holds(key, s, w);
  }

  lemma {:induction false} ReleaseKeepsInv(h: Hasher, key: string -> int, s: State, w: nat)
    requires Inv(h, key, s) && w in s.txns
    ensures Inv(h, key, Release(key, s, w))
  {
    var s' := Release(key, s, w);
    forall v | v in s'.txns ensures Holds(key, s', v) {
      assert Holds(key, s, v);
      LocksSeparate(h, key, s, v, w);
    }
  }

  /** A statement that changes only the writer's own progress, and possibly draws an id. */
  lemma {:induction false} ProgressKeepsInv(h: Hasher, key: string -> int, s: State, w: nat, t: Txn, nextId: nat)
    requires Inv(h, key, s) && w in s.txns && t.entry == s.txns[w].entry && nextId >= s.nextId
    requires Fits(h, s.store, nextId, t)
    requires t.HasId() ==> (s.txns[w].HasId() && t.row.id == s.txns[w].row.id) || t.row.id == s.nextId
    ensures Inv(h, key, s.(txns := s.txns[w := t], nextId := nextId))
  {
    var s' := s.(txns := s.txns[w := t], nextId := nextId);
    forall v | v in s'.txns ensures Holds(key, s', v) && Fits(h, s'.store, s'.nextId, s'.txns[v]) {
      if v != w {
        OtherKept(h, key, s, s', v);
      } else {
        assert Holds(key, s, w);
      }
    }
    ProgressKeepsIdsApart(h, key, s, w, t);
  }

  lemma {:induction false} OtherKept(h: Hasher, key: string -> int, s: State, s': State, v: nat)
    requires Inv(h, key, s) && v in s.txns && v in s'.txns && s'.txns[v] == s.txns[v]
    requires s'.locks == s.locks && s'.store == s.store && s'.nextId >= s.nextId
    ensures Holds(key, s', v) && Fits(h, s'.store, s'.nextId, s'.txns[v])
  {
    assert Holds(key, s, v) && Fits(h, s.store, s.nextId, s.txns[v]);
  }

  lemma {:induction false} ProgressKeepsIdsApart(h: Hasher, key: string -> int, s: State, w: nat, t: Txn)
    requires Inv(h, key, s) && w in s.txns
    requires t.HasId() ==> (s.txns[w].HasId() && t.row.id == s.txns[w].row.id) || t.row.id == s.nextId
    ensures IdsApart(s.(txns := s.txns[w := t]))
  {
    forall v | v in s.txns && v != w && t.HasId() && s.txns[v].HasId() ensures s.txns[v].row.id != t.row.id {
      OwnIdKnown(h, key, s, v);
    }
  }

  lemma {:induction false} OwnIdKnown(h: Hasher, key: string -> int, s: State, v: nat)
    requires Inv(h, key, s) && v in s.txns && s.txns[v].HasId()
    ensures s.txns[v].row.id < s.nextId
  {
    assert Fits(h, s.store, s.nextId, s.txns[v]);
  }

  /** Under the invariant a commit is exactly one append. */
  lemma {:induction false} CommitIsAppend(h: Hasher, key: string -> int, s: State, w: nat)
    requires Inv(h, key, s) && w in s.txns && s.txns[w].HasHead?
    ensures var t := s.txns[w];
            && FreshId(s.store, t.entry.session, t.row.id)
            && Step(h, key, s, Commit(w)).store == Append(h, s.store, t.entry, t.row.id)
  {
    assert Fits(h, s.store, s.nextId, s.txns[w]);
  }

  lemma {:induction false} GoodIdAcrossCommit(
      h: Hasher, store: Store, nextId: nat, e: Entry, id: nat, other: Entry, otherId: nat)
    requires GoodId(store, other, nextId, otherId) && otherId != id && other.session != e.session
    ensures GoodId(Append(h, store, e, id), other, nextId, otherId)
  {
  }

  /** An append by one session leaves what another writer has read true. */
  lemma {:induction false} FitsAcrossCommit(h: Hasher, store: Store, nextId: nat, e: Entry, id: nat, t: Txn)
    requires Sorted(store.table) && FreshId(store, e.session, id)
    requires t.entry.session != e.session && Fits(h, store, nextId, t)
    requires t.HasId() ==> t.row.id != id
    ensures Fits(h, Append(h, store, e, id), nextId, t)
  {
    AppendRows(h, store, e, id, t.entry.session);
    if t.HasId() {
      GoodIdAcrossCommit(h, store, nextId, e, id, t.entry, t.row.id);
    }
  }

  lemma {:induction false} CommitKeepsInv(h: Hasher, key: string -> int, s: State, w: nat)
    requires Inv(h, key, s) && w in s.txns && s.txns[w].HasHead?
    ensures Inv(h, key, Step(h, key, s, Commit(w)))
  {
    var s' := Step(h, key, s, Commit(w));
    CommitKeepsTable(h, key, s, w);
    CommitReleases(h, key, s, w);
    ReleaseKeepsInv(h, key, s, w);
    forall v | v in s'.txns ensures Holds(key, s', v) && Fits(h, s'.store, s'.nextId, s'.txns[v]) {
      CommitKeepsOther(h, key, s, v, w);
    }
  }

  /** A commit leaves locks, ids and other transactions as a rollback would. */
  lemma {:induction false} CommitReleases(h: Hasher, key: string -> int, s: State, w: nat)
    requires w in s.txns && s.txns[w].HasHead?
    ensures Step(h, key, s, Commit(w)) == Release(key, s, w).(store := Step(h, key, s, Commit(w)).store)
    ensures IdsApart(Release(key, s, w)) ==> IdsApart(Step(h, key, s, Commit(w)))
  {
  }

  lemma {:induction false} CommitKeepsOther(h: Hasher, key: string -> int, s: State, v: nat, w: nat)
    requires Inv(h, key, s) && w in s.txns && s.txns[w].HasHead? && v in Step(h, key, s, Commit(w)).txns
    ensures var s' := Step(h, key, s, Commit(w));
            Holds(key, s', v) && Fits(h, s'.store, s'.nextId, s'.txns[v])
  {
    CommitReleases(h, key, s, w);
    ReleaseKeepsInv(h, key, s, w);
    assert Holds(key, Release(key, s, w), v);
    CommitKeepsFits(h, key, s, v, w);
  }

  lemma {:induction false} AppendKeepsTable(h: Hasher, store: Store, e: Entry, id: nat, nextId: nat)
    requires IdsBelow(store.table, nextId) && FreshId(store, e.session, id) && id < nextId
    ensures IdsBelow(Append(h, store, e, id).table, nextId)
  {
    AppendRows(h, store, e, id, e.session);
  }

  lemma {:induction false} CommitKeepsTable(h: Hasher, key: string -> int, s: State, w: nat)
    requires Inv(h, key, s) && w in s.txns && s.txns[w].HasHead?
    ensures TableOk(Step(h, key, s, Commit(w)))
  {
    var t, s' := s.txns[w], Step(h, key, s, Commit(w));
    CommitIsAppend(h, key, s, w);
    CommitReleases(h, key, s, w);
    OwnIdKnown(h, key, s, w);
    AppendKeepsTable(h, s.store, t.entry, t.row.id, s.nextId);
    assert IdsBelow(s'.store.table, s'.nextId);
  }

  lemma {:induction false} CommitKeepsFits(h: Hasher, key: string -> int, s: State, v: nat, w: nat)
    requires Inv(h, key, s) && v in s.txns && w in s.txns && v != w && s.txns[w].HasHead?
    ensures Fits(h, Step(h, key, s, Commit(w)).store, s.nextId, s.txns[v])
  {
    var t := s.txns[w];
    CommitIsAppend(h, key, s, w);
    LocksSeparate(h, key, s, v, w);
    FitsAcrossCommit(h, s.store, s.nextId, t.entry, t.row.id, s.txns[v]);
  }

  lemma {:induction false} LockKeepsInv(h: Hasher, key: string -> int, s: State, w: nat, e: Entry)
    requires Inv(h, key, s)
    ensures Inv(h, key, Step(h, key, s, Lock(w, e)))
  {
    var s' := Step(h, key, s, Lock(w, e));
    forall v | v in s'.txns ensures Holds(key, s', v) && Fits(h, s'.store, s'.nextId, s'.txns[v]) {
      if v in s.txns {
        LockKeepsOther(h, key, s, w, e, v);
      }
    }
  }

  lemma {:induction false} LockKeepsOther(h: Hasher, key: string -> int, s: State, w: nat, e: Entry, v: nat)
    requires Inv(h, key, s) && v in s.txns
    ensures var s' := Step(h, key, s, Lock(w, e));
            v in s'.txns && Holds(key, s', v) && Fits(h, s'.store, s'.nextId, s'.txns[v])
  {
    assert Holds(key, s, v) && Fits(h, s.store, s.nextId, s.txns[v]);
  }

  lemma {:induction false} StepKeepsInv(h: Hasher, key: string -> int, s: State, ev: Event)
    requires Inv(h, key, s)
    ensures Inv(h, key, Step(h, key, s, ev))
  {
    if ev.Lock? {
      LockKeepsInv(h, key, s, ev.w, ev.entry);
    } else if ev.w in s.txns {
      var w, t := ev.w, s.txns[ev.w];
      assert Fits(h, s.store, s.nextId, t);
      if ev.Commit? && t.HasHead? {
        CommitKeepsInv(h, key, s, w);
      } else if ev.Abort? {
        ReleaseKeepsInv(h, key, s, w);
      } else {
        ProgressStepKeepsInv(h, key, s, ev);
      }
    }
  }

  lemma {:induction false} ProgressStepKeepsInv(h: Hasher, key: string -> int, s: State, ev: Event)
    requires Inv(h, key, s) && ev.w in s.txns
    requires ev.ReadPrev? || ev.Insert? || ev.UpdateHash? || ev.UpsertHead? || (ev.Commit? && !s.txns[ev.w].HasHead?)
    ensures Inv(h, key, Step(h, key, s, ev))
  {
    var s' := Step(h, key, s, ev);
    var t := s.txns[ev.w];
    assert Fits(h, s.store, s.nextId, t);
    if s' != s {
      ProgressKeepsInv(h, key, s, ev.w, s'.txns[ev.w], s'.nextId);
      assert s' == s.(txns := s.txns[ev.w := s'.txns[ev.w]], nextId := s'.nextId);
    }
  }

  // ----- every run --------------------------------------------------------------------------

  /** A step either leaves the committed tables alone or performs one append with a fresh id. */
  lemma {:induction false} StepKeepsTracked(h: Hasher, key: string -> int, s: State, ev: Event, session: string)
    requires Inv(h, key, s) && Tracked(h, s.store, session)
    ensures Tracked(h, Step(h, key, s, ev).store, session)
  {
    if ev.Commit? && ev.w in s.txns && s.txns[ev.w].HasHead? {
      var t := s.txns[ev.w];
      CommitIsAppend(h, key, s, ev.w);
      AppendKeepsTracked(h, s.store, t.entry, t.row.id, session);
    }
  }

  lemma {:induction false} RunFromInv(h: Hasher, key: string -> int, s: State, evs: seq<Event>, session: string)
    requires Inv(h, key, s) && Tracked(h, s.store, session)
    ensures Inv(h, key, Exec(h, key, s, evs)) && Tracked(h, Exec(h, key, s, evs).store, session)
    decreases |evs|
  {
    if evs != [] {
      StepKeepsInv(h, key, s, evs[0]);
      StepKeepsTracked(h, key, s, evs[0], session);
      RunFromInv(h, key, Step(h, key, s, evs[0]), evs[1..], session);
    }
  }

  /** In every interleaving of any number of writers, with rollbacks and crashes anywhere, every
      session that starts out tracked (in particular every session that starts empty) verifies
      in every committed state. */
  lemma {:induction false} EveryCommittedChainVerifies(
      h: Hasher, key: string -> int, s: State, evs: seq<Event>, session: string)
    requires Initial(s) && Tracked(h, s.store, session)
    ensures var store := Exec(h, key, s, evs).store;
            ChainOk(h, SessionRows(store.table, session), HeadOf(store, session))
  {
    RunFromInv(h, key, s, evs, session);
  }

  /** The appends a run commits, in commit order. */
  function Commits(h: Hasher, key: string -> int, s: State, evs: seq<Event>): seq<(Entry, nat)>
    decreases |evs|
  {
    if evs == [] then []
    else
      var rest := Commits(h, key, Step(h, key, s, evs[0]), evs[1..]);
      if evs[0].Commit? && evs[0].w in s.txns && s.txns[evs[0].w].HasHead? then
        [(s.txns[evs[0].w].entry, s.txns[evs[0].w].row.id)] + rest
      else rest
  }

  function Replay(h: Hasher, store: Store, appends: seq<(Entry, nat)>): Store
    decreases |appends|
  {
    if appends == [] then store
    else Replay(h, Append(h, store, appends[0].0, appends[0].1), appends[1..])
  }

  lemma {:induction false} RunIsReplay(h: Hasher, key: string -> int, s: State, evs: seq<Event>)
    requires Inv(h, key, s)
    ensures Exec(h, key, s, evs).store == Replay(h, s.store, Commits(h, key, s, evs))
    decreases |evs|
  {
    if evs != [] {
      var s' := Step(h, key, s, evs[0]);
      StepKeepsInv(h, key, s, evs[0]);
      RunIsReplay(h, key, s', evs[1..]);
      if evs[0].Commit? && evs[0].w in s.txns && s.txns[evs[0].w].HasHead? {
        CommitIsAppend(h, key, s, evs[0].w);
      }
    }
  }

  /** The committed tables of any run are those of its committed appends done one after
      another: the interleaving has no other effect. */
  lemma {:induction false} InterleavingIsSequential(h: Hasher, key: string -> int, s: State, evs: seq<Event>)
    requires Initial(s)
    ensures Exec(h, key, s, evs).store == Replay(h, s.store, Commits(h, key, s, evs))
  {
    RunIsReplay(h, key, s, evs);
  }

  // ----- a verification beside the writers ---------------------------------------------------

  lemma {:induction false} ExecAppend(h: Hasher, key: string -> int, s: State, a: seq<Event>, b: seq<Event>)
    ensures Exec(h, key, s, a + b) == Exec(h, key, Exec(h, key, s, a), b)
    ensures Commits(h, key, s, a + b) == Commits(h, key, s, a) + Commits(h, key, Exec(h, key, s, a), b)
    decreases |a|
  {
    if a == [] {
      assert a + b == b;
    } else {
      assert (a + b)[1..] == a[1..] + b;
      ExecAppend(h, key, Step(h, key, s, a[0]), a[1..], b);
    }
  }

  /** The store at the moment before event `n` of a run, and the appends committed from one moment to
      another. */
  function StoreAt(h: Hasher, key: string -> int, s: State, evs: seq<Event>, n: nat): Store
    requires n <= |evs|
  {
    Exec(h, key, s, evs[..n]).store
  }

  function CommitsBetween(h: Hasher, key: string -> int, s: State, evs: seq<Event>, m: nat, n: nat): seq<(Entry, nat)>
    requires m <= n <= |evs|
  {
    Commits(h, key, Exec(h, key, s, evs[..m]), evs[m..n])
  }

  predicate Writes(commits: seq<(Entry, nat)>, session: string) {
    exists i :: 0 <= i < |commits| && commits[i].0.session == session
  }

  /** A run changes the head of a session exactly when it commits a row of it, and then it counts up. */
  lemma {:induction false} HeadAfterRun(h: Hasher, key: string -> int, s: State, evs: seq<Event>, session: string)
    requires Inv(h, key, s)
    ensures var before, after := HeadOf(s.store, session), HeadOf(Exec(h, key, s, evs).store, session);
            if Writes(Commits(h, key, s, evs), session) then after.Some? && HeadCount(after) > HeadCount(before)
            else after == before
    decreases |evs|
  {
    if evs != [] {
      var s' := Step(h, key, s, evs[0]);
      var later := Commits(h, key, s', evs[1..]);
      StepKeepsInv(h, key, s, evs[0]);
      HeadAfterRun(h, key, s', evs[1..], session);
      if evs[0].Commit? && evs[0].w in s.txns && s.txns[evs[0].w].HasHead? {
        CommitIsAppend(h, key, s, evs[0].w);
        WritesCons((s.txns[evs[0].w].entry, s.txns[evs[0].w].row.id), later, session);
      }
    }
  }

  lemma {:induction false} WritesCons(first: (Entry, nat), rest: seq<(Entry, nat)>, session: string)
    ensures Writes([first] + rest, session) <==> first.0.session == session || Writes(rest, session)
  {
    var all := [first] + rest;
    assert all[0] == first;
    if Writes(rest, session) {
      var i :| 0 <= i < |rest| && rest[i].0.session == session;
      assert all[i + 1] == rest[i];
    }
    if Writes(all, session) && first.0.session != session {
      var i :| 0 <= i < |all| && all[i].0.session == session;
      assert rest[i - 1] == all[i];
    }
  }

  /** `verify_chain` reads the rows of a session and then, in another transaction, its head. For a
      tracked session the verdict is true exactly when no row of it commits in between. */
  lemma {:induction false} SplitReadIff(h: Hasher, key: string -> int, s: State, evs: seq<Event>, session: string)
    requires Inv(h, key, s) && Tracked(h, s.store, session)
    ensures ChainOk(h, SessionRows(s.store.table, session), HeadOf(Exec(h, key, s, evs).store, session)) <==>
            !Writes(Commits(h, key, s, evs), session)
  {
    HeadAfterRun(h, key, s, evs, session);
  }

  lemma {:induction false} RunKeepsInv(h: Hasher, key: string -> int, s: State, evs: seq<Event>)
    requires Inv(h, key, s)
    ensures Inv(h, key, Exec(h, key, s, evs))
    decreases |evs|
  {
    if evs != [] {
      StepKeepsInv(h, key, s, evs[0]);
      RunKeepsInv(h, key, Step(h, key, s, evs[0]), evs[1..]);
    }
  }

  /** One writer's whole transaction, undisturbed. */
  function Whole(w: nat, e: Entry): seq<Event> {
    [Lock(w, e), Event.ReadPrev(w), Insert(w), Event.UpdateHash(w), Event.UpsertHead(w), Commit(w)]
  }

  lemma {:induction false} ExecOne(h: Hasher, key: string -> int, s: State, ev: Event, rest: seq<Event>)
    ensures Exec(h, key, s, [ev] + rest) == Exec(h, key, Step(h, key, s, ev), rest)
    ensures Commits(h, key, s, [ev] + rest) ==
            (if ev.Commit? && ev.w in s.txns && s.txns[ev.w].HasHead?
             then [(s.txns[ev.w].entry, s.txns[ev.w].row.id)] else [])
            + Commits(h, key, Step(h, key, s, ev), rest)
  {
    assert ([ev] + rest)[1..] == rest;
  }

  /** A state in which one transaction is open, and nothing else. */
  function Alone(key: string -> int, s: State, w: nat, t: Txn, nextId: nat): State {
    State(s.store, nextId, map[w := t], map[key(t.entry.session) := w])
  }

  lemma {:induction false} FirstHalf(h: Hasher, key: string -> int, s: State, w: nat, e: Entry)
    requires s.txns == map[] && s.locks == map[]
    ensures var row := Placeholder(h, e, s.nextId, LastHash(SessionRows(s.store.table, e.session)));
            var half := [Lock(w, e), Event.ReadPrev(w), Insert(w)];
            && Exec(h, key, s, half) == Alone(key, s, w, HasRow(e, row), s.nextId + 1)
            && Commits(h, key, s, half) == []
  {
    var prev := LastHash(SessionRows(s.store.table, e.session));
    var s1, s2 := Alone(key, s, w, Locked(e), s.nextId), Alone(key, s, w, HasPrev(e, prev), s.nextId);
    assert Step(h, key, s, Lock(w, e)) == s1;
    assert Step(h, key, s1, Event.ReadPrev(w)) == s2;
    ExecOne(h, key, s, Lock(w, e), [Event.ReadPrev(w), Insert(w)]);
    ExecOne(h, key, s1, Event.ReadPrev(w), [Insert(w)]);
    ExecOne(h, key, s2, Insert(w), []);
  }

  lemma {:induction false} SecondHalf(h: Hasher, key: string -> int, s: State, w: nat, e: Entry, row: Row, nextId: nat)
    requires s.txns == map[] && s.locks == map[]
    ensures var half, sealed := [Event.UpdateHash(w), Event.UpsertHead(w), Commit(w)], Sealed(h, row);
            var heads := s.store.heads[e.session := NextHead(HeadOf(s.store, e.session), sealed)];
            && Exec(h, key, Alone(key, s, w, HasRow(e, row), nextId), half)
               == State(Store(InsertById(s.store.table, sealed), heads), nextId, map[], map[])
            && Commits(h, key, Alone(key, s, w, HasRow(e, row), nextId), half) == [(e, row.id)]
  {
    var sealed := Sealed(h, row);
    var s3, s4 := Alone(key, s, w, HasRow(e, row), nextId), Alone(key, s, w, HasHash(e, sealed), nextId);
    var s5 := Alone(key, s, w, HasHead(e, sealed, NextHead(HeadOf(s.store, e.session), sealed)), nextId);
    assert Step(h, key, s3, Event.UpdateHash(w)) == s4;
    assert Step(h, key, s4, Event.UpsertHead(w)) == s5;
    ExecOne(h, key, s3, Event.UpdateHash(w), [Event.UpsertHead(w), Commit(w)]);
    ExecOne(h, key, s4, Event.UpsertHead(w), [Commit(w)]);
    ExecOne(h, key, s5, Commit(w), []);
    CommitAlone(h, key, s, w, e, sealed, nextId);
  }

  lemma {:induction false} CommitAlone(
      h: Hasher, key: string -> int, s: State, w: nat, e: Entry, row: Row, nextId: nat)
    requires s.txns == map[] && s.locks == map[]
    ensures var head := NextHead(HeadOf(s.store, e.session), row);
            Step(h, key, Alone(key, s, w, HasHead(e, row, head), nextId), Commit(w)) ==
            State(Store(InsertById(s.store.table, row), s.store.heads[e.session := head]), nextId, map[], map[])
  {
  }

  /** It leads from a state without open transactions to another, by one append. */
  lemma {:induction false} WholeAppends(h: Hasher, key: string -> int, s: State, w: nat, e: Entry)
    requires Initial(s)
    ensures Commits(h, key, s, Whole(w, e)) == [(e, s.nextId)]
    ensures Exec(h, key, s, Whole(w, e)) == State(Append(h, s.store, e, s.nextId), s.nextId + 1, map[], map[])
    ensures Initial(Exec(h, key, s, Whole(w, e)))
  {
    var row := Placeholder(h, e, s.nextId, LastHash(SessionRows(s.store.table, e.session)));
    assert Whole(w, e) == [Lock(w, e), Event.ReadPrev(w), Insert(w)]
                          + [Event.UpdateHash(w), Event.UpsertHead(w), Commit(w)];
    ExecAppend(h, key, s, [Lock(w, e), Event.ReadPrev(w), Insert(w)],
               [Event.UpdateHash(w), Event.UpsertHead(w), Commit(w)]);
    FirstHalf(h, key, s, w, e);
    SecondHalf(h, key, s, w, e, row, s.nextId + 1);
    InsertKeepsSorted(s.store.table, Sealed(h, row));
  }

  /** A run in which it goes wrong: the rows of a verifying session are read, one append to it runs from
      start to end, and then its head is read. The verdict is false, although the session verifies
      before and after. */
  lemma {:induction false} SplitReadFails(h: Hasher, key: string -> int, s: State, w: nat, e: Entry)
    requires Initial(s) && Tracked(h, s.store, e.session)
    ensures var before, after := s.store, Exec(h, key, s, Whole(w, e)).store;
            && !ChainOk(h, SessionRows(before.table, e.session), HeadOf(after, e.session))
            && ChainOk(h, SessionRows(before.table, e.session), HeadOf(before, e.session))
            && ChainOk(h, SessionRows(after.table, e.session), HeadOf(after, e.session))
  {
    WholeAppends(h, key, s, w, e);
    assert Commits(h, key, s, Whole(w, e))[0].0.session == e.session;
    SplitReadIff(h, key, s, Whole(w, e), e.session);
    EveryCommittedChainVerifies(h, key, s, Whole(w, e), e.session);
  }

  // ----- rollbacks -----------------------------------------------------------------------------

  /** A rollback at any point of a transaction: the tables are as they were, the transaction is gone and
      its lock is free. Only the id sequence may have moved on. */
  lemma {:induction false} AbortRollsBack(h: Hasher, key: string -> int, s: State, w: nat)
    requires Inv(h, key, s) && w in s.txns
    ensures var after := Step(h, key, s, Abort(w));
            && after.store == s.store && after.nextId == s.nextId && after.txns == s.txns - {w}
            && key(s.txns[w].entry.session) !in after.locks
            && (forall k :: k != key(s.txns[w].entry.session) ==>
                  (k in after.locks <==> k in s.locks) && (k in s.locks ==> after.locks[k] == s.locks[k]))
  {
    assert Holds(key, s, w);
  }

  /** Every beginning of a whole transaction, rolled back, leaves tables, transactions and locks as they
      were, though the statements before it had written. */
  lemma {:induction false} BeginningRollsBack(h: Hasher, key: string -> int, s: State, w: nat, e: Entry, n: nat)
    requires Initial(s) && n < |Whole(w, e)|
    ensures var after := Exec(h, key, s, Whole(w, e)[..n] + [Abort(w)]);
            after.store == s.store && after.txns == s.txns && after.locks == s.locks
    ensures Commits(h, key, s, Whole(w, e)[..n] + [Abort(w)]) == []
  {
    var mid := Exec(h, key, s, Whole(w, e)[..n]);
    BeginningIsPrivate(h, key, s, w, e, n);
    ExecAppend(h, key, s, Whole(w, e)[..n], [Abort(w)]);
    ExecOne(h, key, mid, Abort(w), []);
    assert mid.locks - {key(e.session)} == map[] && mid.txns - {w} == map[];
  }

  /** Before its commit a lone transaction has changed nothing others see but the lock it holds. */
  lemma {:induction false} BeginningIsPrivate(h: Hasher, key: string -> int, s: State, w: nat, e: Entry, n: nat)
    requires Initial(s) && n < |Whole(w, e)|
    ensures var mid := Exec(h, key, s, Whole(w, e)[..n]);
            && mid.store == s.store
            && (n == 0 ==> mid.txns == map[] && mid.locks == map[])
            && (n > 0 ==> mid.txns.Keys == {w} && mid.txns[w].entry == e && mid.locks == map[key(e.session) := w])
    ensures Commits(h, key, s, Whole(w, e)[..n]) == []
    decreases n
  {
    if n > 0 {
      var before, ev := Exec(h, key, s, Whole(w, e)[..n - 1]), Whole(w, e)[n - 1];
      BeginningIsPrivate(h, key, s, w, e, n - 1);
      assert Whole(w, e)[..n] == Whole(w, e)[..n - 1] + [ev];
      ExecAppend(h, key, s, Whole(w, e)[..n - 1], [ev]);
      ExecOne(h, key, before, ev, []);
      assert !ev.Commit? && !ev.Abort? && ev.w == w;
    }
  }

  /** While a transaction is open nobody else gets its lock. */
  lemma {:induction false} LockWaits(h: Hasher, key: string -> int, s: State, w: nat, v: nat, f: Entry)
    requires Inv(h, key, s) && w in s.txns && key(f.session) == key(s.txns[w].entry.session)
    ensures Step(h, key, s, Lock(v, f)) == s
  {
    assert Holds(key, s, w);
  }

  /** As soon as it is rolled back, or commits, the next one who asks does. */
  lemma {:induction false} LockAfterEnd(h: Hasher, key: string -> int, s: State, w: nat, v: nat, f: Entry, end: Event)
    requires w in s.txns && v !in s.txns && key(f.session) == key(s.txns[w].entry.session)
    requires end == Abort(w) || (end == Commit(w) && s.txns[w].HasHead?)
    ensures var after := Step(h, key, Step(h, key, s, end), Lock(v, f));
            v in after.txns && after.txns[v] == Locked(f) && w !in after.txns && after.locks[key(f.session)] == v
  {
    EndReleases(h, key, s, w, v, end);
    LockTaken(h, key, Step(h, key, s, end), v, f);
  }

  lemma {:induction false} EndReleases(h: Hasher, key: string -> int, s: State, w: nat, v: nat, end: Event)
    requires w in s.txns && v !in s.txns && w != v
    requires end == Abort(w) || (end == Commit(w) && s.txns[w].HasHead?)
    ensures var after := Step(h, key, s, end);
            w !in after.txns && v !in after.txns && key(s.txns[w].entry.session) !in after.locks
  {
  }

  lemma {:induction false} LockTaken(h: Hasher, key: string -> int, s: State, v: nat, f: Entry)
    requires v !in s.txns && key(f.session) !in s.locks
    ensures var after := Step(h, key, s, Lock(v, f));
            && v in after.txns && after.txns[v] == Locked(f) && after.locks == s.locks[key(f.session) := v]
            && after.txns.Keys == s.txns.Keys + {v}
  {
  }

  /** The statements of a transaction before its commit, in order. */
  function Statement(w: nat, k: nat): Event
    requires 1 <= k <= 4
  {
    if k == 1 then Event.ReadPrev(w) else if k == 2 then Insert(w)
    else if k == 3 then Event.UpdateHash(w) else Event.UpsertHead(w)
  }

  /** How many statements a transaction has run. */
  function Stage(t: Txn): nat {
    match t
    case Locked(_) => 0
    case HasPrev(_, _) => 1
    case HasRow(_, _) => 2
    case HasHash(_, _) => 3
    case HasHead(_, _, _) => 4
  }

  /** Between events `l` and `n` the writer ran its first `k` statements in order. */
  ghost predicate Ran(evs: seq<Event>, w: nat, l: nat, n: nat, k: nat)
    requires n <= |evs| && k <= 4
    decreases k
  {
    l < n && (k == 0 || exists m: nat :: l < m < n && evs[m] == Statement(w, k) && Ran(evs, w, l, m, k - 1))
  }

  lemma {:induction false} RanLater(evs: seq<Event>, w: nat, l: nat, m: nat, n: nat, k: nat)
    requires m <= n <= |evs| && k <= 4 && Ran(evs, w, l, m, k)
    ensures Ran(evs, w, l, n, k)
  {
  }

  function At(h: Hasher, key: string -> int, s: State, evs: seq<Event>, n: nat): State
    requires n <= |evs|
  {
    Exec(h, key, s, evs[..n])
  }

  lemma {:induction false} AtNext(h: Hasher, key: string -> int, s: State, evs: seq<Event>, n: nat)
    requires n < |evs|
    ensures At(h, key, s, evs, n + 1) == Step(h, key, At(h, key, s, evs, n), evs[n])
  {
    assert evs[..n + 1] == evs[..n] + [evs[n]];
    ExecAppend(h, key, s, evs[..n], [evs[n]]);
    ExecOne(h, key, At(h, key, s, evs, n), evs[n], []);
  }

  /** The transaction `w` has open before event `n` was begun at `l` and is still the same one. */
  ghost predicate OpenSince(h: Hasher, key: string -> int, s: State, evs: seq<Event>, w: nat, l: nat, n: nat)
    requires n <= |evs|
  {
    && l < n && w in At(h, key, s, evs, n).txns
    && evs[l] == Lock(w, At(h, key, s, evs, n).txns[w].entry)
    && Ran(evs, w, l, n, Stage(At(h, key, s, evs, n).txns[w]))
    && (forall k: nat :: l < k < n ==> evs[k] != Abort(w))
    && (forall k: nat :: l < k <= n ==> w in At(h, key, s, evs, k).txns)
  }

  /** What one event does to the transaction of a writer. */
  lemma {:induction false} TxnStep(h: Hasher, key: string -> int, s: State, ev: Event, w: nat)
    requires w in Step(h, key, s, ev).txns
    ensures var t := Step(h, key, s, ev).txns[w];
            if w !in s.txns then ev == Lock(w, t.entry) && Stage(t) == 0
            else
              && ev != Abort(w) && t.entry == s.txns[w].entry
              && (Stage(t) == Stage(s.txns[w]) || (Stage(t) == Stage(s.txns[w]) + 1 && ev == Statement(w, Stage(t))))
  {
  }

  lemma {:induction false} OpenedAt(h: Hasher, key: string -> int, s: State, evs: seq<Event>, w: nat, n: nat)
    returns (l: nat)
    requires s.txns == map[] && n <= |evs| && w in At(h, key, s, evs, n).txns
    ensures OpenSince(h, key, s, evs, w, l, n)
    decreases n
  {
    if n > 0 {
      AtNext(h, key, s, evs, n - 1);
      TxnStep(h, key, At(h, key, s, evs, n - 1), evs[n - 1], w);
      if w in At(h, key, s, evs, n - 1).txns {
        l := OpenedAt(h, key, s, evs, w, n - 1);
        OpenLonger(h, key, s, evs, w, l, n - 1);
      } else {
        l := n - 1;
      }
    }
  }

  lemma {:induction false} OpenLonger(h: Hasher, key: string -> int, s: State, evs: seq<Event>, w: nat, l: nat, n: nat)
    requires n < |evs| && OpenSince(h, key, s, evs, w, l, n) && w in At(h, key, s, evs, n + 1).txns
    ensures OpenSince(h, key, s, evs, w, l, n + 1)
  {
    AtNext(h, key, s, evs, n);
    SameTxnLater(h, key, At(h, key, s, evs, n), evs, w, l, n);
  }

  /** One event further in the run. */
  lemma {:induction false} SameTxnLater(
      h: Hasher, key: string -> int, s: State, evs: seq<Event>, w: nat, l: nat, n: nat)
    requires n < |evs| && w in s.txns && Ran(evs, w, l, n, Stage(s.txns[w]))
    requires w in Step(h, key, s, evs[n]).txns
    ensures var t := Step(h, key, s, evs[n]).txns[w];
            evs[n] != Abort(w) && t.entry == s.txns[w].entry && Ran(evs, w, l, n + 1, Stage(t))
  {
    TxnStep(h, key, s, evs[n], w);
    RanOneMore(evs, w, l, n, Stage(s.txns[w]), Stage(Step(h, key, s, evs[n]).txns[w]));
  }

  lemma {:induction false} RanOneMore(evs: seq<Event>, w: nat, l: nat, n: nat, k: nat, k': nat)
    requires n < |evs| && k <= 4 && k' <= 4 && Ran(evs, w, l, n, k)
    requires k' == k || (k' == k + 1 && evs[n] == Statement(w, k'))
    ensures Ran(evs, w, l, n + 1, k')
  {
    if k' == k {
      RanLater(evs, w, l, n, n + 1, k);
    } else {
      assert evs[n] == Statement(w, k') && Ran(evs, w, l, n, k' - 1);
    }
  }

  /** Whatever changes the committed tables is a commit, of a transaction begun at `l` that has since run
      all its statements in order and was not rolled back; and the change is one append of the entry it was
      begun with, under an id of its own. */
  lemma {:induction false} CommitHasItsStatements(h: Hasher, key: string -> int, s: State, evs: seq<Event>, n: nat)
    returns (l: nat, id: nat)
    requires Initial(s) && n < |evs| && StoreAt(h, key, s, evs, n + 1) != StoreAt(h, key, s, evs, n)
    ensures var w := evs[n].w;
            && evs[n] == Commit(w) && l < n && evs[l].Lock? && evs[l].w == w
            && Ran(evs, w, l, n, 4)
            && (forall k: nat :: l < k < n ==> evs[k] != Abort(w))
            && (forall k: nat :: l < k < n && evs[k] == Commit(w) ==>
                  StoreAt(h, key, s, evs, k + 1) == StoreAt(h, key, s, evs, k))
            && StoreAt(h, key, s, evs, n + 1) == Append(h, StoreAt(h, key, s, evs, n), evs[l].entry, id)
            && FreshId(StoreAt(h, key, s, evs, n), evs[l].entry.session, id)
  {
    var before, w := At(h, key, s, evs, n), evs[n].w;
    RunKeepsInv(h, key, s, evs[..n]);
    AtNext(h, key, s, evs, n);
    OnlyCommitsChange(h, key, before, evs[n]);
    l := OpenedAt(h, key, s, evs, w, n);
    id := before.txns[w].row.id;
    CommitIsAppend(h, key, before, w);
    forall k: nat | l < k < n && evs[k] == Commit(w)
      ensures StoreAt(h, key, s, evs, k + 1) == StoreAt(h, key, s, evs, k)
    {
      AtNext(h, key, s, evs, k);
      assert w in At(h, key, s, evs, k + 1).txns;
    }
  }

  lemma {:induction false} OnlyCommitsChange(h: Hasher, key: string -> int, s: State, ev: Event)
    requires Step(h, key, s, ev).store != s.store
    ensures ev == Commit(ev.w) && ev.w in s.txns && s.txns[ev.w].HasHead?
  {
  }
}
