/** Daily anchors (anchor_logger.py): the Merkle root of a day's row hashes is recorded once and
    compared later, together with a fresh verification of every session seen that day. */
module Anchors {
  import opened Common
  import opened AuditChain
  import opened AuditAppend
  import opened AuditWriters
  import Merkle

  /** One UTC day in nanoseconds; a date is its number of days since the epoch. */
  const DAY := 86_400_000_000_000

  datatype Anchor = Anchor(
    date: int, sessionCount: nat, actionCount: nat, leafHashes: seq<string>, merkleRoot: string)

  datatype Report = Report(
    anchored: bool, storedRoot: string, recomputedRoot: string, rowsIntact: bool,
    brokenSessions: seq<string>, matches: bool, tampered: bool)

  datatype AnchorError = AuditUnreadable | ListingRaised

  function OnDay(date: int): Row -> bool {
    (r: Row) => date * DAY <= r.timestamp < date * DAY + DAY
  }

  /** The rows of a day, of all sessions, in append order. */
  function DayRows(table: seq<Row>, date: int): seq<Row> {
    Filter(table, OnDay(date))
  }

  function RowHashes(rows: seq<Row>): (hashes: seq<string>)
    ensures |hashes| == |rows| && forall i :: 0 <= i < |rows| ==> hashes[i] == rows[i].rowHash
  {
    seq(|rows|, i requires 0 <= i < |rows| => rows[i].rowHash)
  }

  function Sessions(rows: seq<Row>): (ids: seq<string>)
    ensures |ids| == |rows| && forall i :: 0 <= i < |rows| ==> ids[i] == rows[i].session
  {
    seq(|rows|, i requires 0 <= i < |rows| => rows[i].session)
  }

  /** Distinct sessions of a day in chain order. */
  function SessionsOn(store: Store, date: int): seq<string> {
    FirstSeen(Sessions(DayRows(store.table, date)))
  }

  function DayRoot(h: Hasher, store: Store, date: int): string {
    Merkle.Root(h.sha, RowHashes(DayRows(store.table, date)))
  }

  function AnchorOf(h: Hasher, store: Store, date: int): Anchor {
    var rows := DayRows(store.table, date);
    Anchor(date, |SessionsOn(store, date)|, |rows|, RowHashes(rows), DayRoot(h, store, date))
  }

  /** The first recorded anchor of a date is the one that counts. */
  function FirstAnchor(anchors: seq<Anchor>, date: int): Option<Anchor> {
    if anchors == [] then None
    else if anchors[0].date == date then Some(anchors[0])
    else FirstAnchor(anchors[1..], date)
  }

  /** The second reading of a day, for its sessions. When the file of the SQLite log does not open it is
      empty and no error; a query that raises is one. */
  datatype Listing = ListedFrom(store: Store) | NotOpened | QueryRaised

  /** What one run of `verify_anchor` reads, each from the store as it stands at that moment: the day for
      the fresh root, the day again for its sessions, and for each session first the rows and then the
      head. */
  datatype Reads = Reads(
    live: Option<Store>, listing: Listing, rowsAt: string -> Store, headAt: string -> Store)
  {
    /** Both readings of the day gave something. */
    predicate Complete() {
      live.Some? && !listing.QueryRaised?
    }

    /** The rows the sessions are listed from. */
    function Listed(): Store {
      if listing.ListedFrom? then listing.store else Store([], map[])
    }
  }

  /** All reads at one moment. */
  function OneMoment(store: Store): Reads {
    Reads(Some(store), ListedFrom(store), (session: string) => store, (session: string) => store)
  }

  predicate IntactAsRead(h: Hasher, view: Reads, session: string) {
    ChainOk(h, SessionRows(view.rowsAt(session).table, session), HeadOf(view.headAt(session), session))
  }

  /** What `verify_anchor` reports as a match, unless a verification cannot run. */
  predicate MatchesAsRead(h: Hasher, anchors: seq<Anchor>, view: Reads, date: int)
    requires view.Complete()
  {
    && FirstAnchor(anchors, date).Some?
    && FirstAnchor(anchors, date).value.merkleRoot == DayRoot(h, view.live.value, date)
    && forall r :: r in DayRows(view.Listed().table, date) ==> IntactAsRead(h, view, r.session)
  }

  predicate Intact(h: Hasher, store: Store, session: string) {
    ChainOk(h, SessionRows(store.table, session), HeadOf(store, session))
  }

  /** The match of a store that is read at one moment. */
  predicate Matches(h: Hasher, anchors: seq<Anchor>, store: Store, date: int) {
    && FirstAnchor(anchors, date).Some?
    && FirstAnchor(anchors, date).value.merkleRoot == DayRoot(h, store, date)
    && forall r :: r in DayRows(store.table, date) ==> Intact(h, store, r.session)
  }

  // ----- the logger ------------------------------------------------------------------------

  class AnchorLogger {
    const hasher: Hasher
    var anchors: seq<Anchor>

    constructor (hasher: Hasher)
      ensures this.hasher == hasher && anchors == []
    {
      this.hasher := hasher;
      anchors := [];
    }

    /** An unreadable audit store yields no anchor at all. */
    method ComputeDailyAnchor(source: Option<Store>, date: int) returns (r: Result<Anchor, AnchorError>)
      ensures source.None? ==> r == Err(AuditUnreadable)
      ensures source.Some? ==> r == Ok(AnchorOf(hasher, source.value, date))
      ensures source.Some? ==>
                var rows := DayRows(source.value.table, date);
                && r.value.actionCount == |rows| == |r.value.leafHashes|
                && r.value.sessionCount == |set x | x in rows :: x.session|
    {
      if source.None? {
        return Err(AuditUnreadable);
      }
      var rows := DayRows(source.value.table, date);
      var leaves := RowHashes(rows);
      var tree := Merkle.BuildMerkleTree(hasher.sha, leaves);
      var sessions := ListSessions(source.value, date);
      SessionCount(source.value, date);
      return Ok(Anchor(date, |sessions|, |rows|, leaves, tree.root));
    }

    /** Anchors are only ever appended. */
    method RecordAnchor(anchor: Anchor)
      modifies this
      ensures anchors == old(anchors) + [anchor]
    {
      anchors := anchors + [anchor];
    }

    method GetAnchor(date: int) returns (r: Option<Anchor>)
      ensures r == FirstAnchor(anchors, date)
    {
      for i := 0 to |anchors|
        invariant FirstAnchor(anchors[i..], date) == FirstAnchor(anchors, date)
      {
        if anchors[i].date == date {
          return Some(anchors[i]);
        }
        assert anchors[i..][1..] == anchors[i + 1..];
      }
      return None;
    }

    method ListSessions(store: Store, date: int) returns (seen: seq<string>)
      ensures seen == SessionsOn(store, date)
    {
      var ids := Sessions(DayRows(store.table, date));
      seen := [];
      for i := 0 to |ids|
        invariant seen == FirstSeen(ids[..i])
      {
        assert ids[..i + 1][..i] == ids[..i];
        if ids[i] !in seen {
          seen := seen + [ids[i]];
        }
      }
      assert ids[..|ids|] == ids;
    }

    /** The sessions listed whose rows no longer hash or link, in chain order. A session whose
        verification raises counts as broken, and so do all that are listed if the log cannot be opened. */
    method BrokenSessions(view: Reads, date: int, trouble: Trouble) returns (broken: seq<string>)
      ensures broken == Filter(SessionsOn(view.Listed(), date), Suspect(hasher, view, trouble))
    {
      var sessions := ListSessions(view.Listed(), date);
      ghost var bad := Suspect(hasher, view, trouble);
      if trouble.cannotOpen {
        FilterAll(sessions, bad);
        return sessions;
      }
      broken := [];
      for i := 0 to |sessions|
        invariant broken == Filter(sessions[..i], bad)
      {
        var session := sessions[i];
        assert sessions[..i + 1] == sessions[..i] + [session];
        FilterOneMore(sessions[..i], session, bad);
        var rows, head := SessionRows(view.rowsAt(session).table, session), HeadOf(view.headAt(session), session);
        var ok := VerifyRows(hasher, rows, head);
        if session in trouble.raising || !ok {
          broken := broken + [session];
        }
      }
      assert sessions[..|sessions|] == sessions;
    }

    /** The whole report, from reads at whatever moments. It is a match exactly when the day as read
        matches its first anchor and every session listed could be verified; an anchored day that is
        no match is tampered. */
    method VerifyAnchor(view: Reads, date: int, trouble: Trouble) returns (r: Result<Report, AnchorError>)
      ensures view.live.None? ==> r == Err(AuditUnreadable)
      ensures view.live.Some? && view.listing.QueryRaised? ==> r == Err(ListingRaised)
      ensures r.Ok? <==> view.Complete()
      ensures r.Ok? ==>
                && (r.value.anchored <==> FirstAnchor(anchors, date).Some?)
                && r.value.storedRoot == (if r.value.anchored then FirstAnchor(anchors, date).value.merkleRoot else "")
                && r.value.recomputedRoot == DayRoot(hasher, view.live.value, date)
                && r.value.brokenSessions == Filter(SessionsOn(view.Listed(), date), Suspect(hasher, view, trouble))
                && (r.value.rowsIntact <==> r.value.brokenSessions == [])
      ensures r.Ok? ==> (r.value.matches <==> Verdict(hasher, anchors, view, date, trouble))
      ensures r.Ok? ==> (r.value.tampered <==> r.value.anchored && !r.value.matches)
    {
      var stored := GetAnchor(date);
      var storedRoot := if stored.Some? then stored.value.merkleRoot else "";
      var live := ComputeDailyAnchor(view.live, date);
      if live.Err? {
        return Err(live.error);
      }
      if view.listing.QueryRaised? {
        return Err(ListingRaised);
      }
      var broken := BrokenSessions(view, date, trouble);
      NoneBroken(hasher, view, date, trouble);
      var anchored := stored.Some?;
      var intact := broken == [];
      var matched := anchored && storedRoot == live.value.merkleRoot && intact;
      return Ok(Report(anchored, storedRoot, live.value.merkleRoot, intact, broken, matched, anchored && !matched));
    }
  }

  /** What keeps a verification from running: the log does not open, or some sessions raise. */
  datatype Trouble = Trouble(cannotOpen: bool, raising: set<string>)

  function Suspect(h: Hasher, view: Reads, trouble: Trouble): string -> bool {
    (session: string) => trouble.cannotOpen || session in trouble.raising || !IntactAsRead(h, view, session)
  }

  predicate DayVerifiable(store: Store, date: int, trouble: Trouble) {
    forall r :: r in DayRows(store.table, date) ==> !trouble.cannotOpen && r.session !in trouble.raising
  }

  /** The match that is reported. */
  predicate Verdict(h: Hasher, anchors: seq<Anchor>, view: Reads, date: int, trouble: Trouble)
    requires view.Complete()
  {
    MatchesAsRead(h, anchors, view, date) && DayVerifiable(view.Listed(), date, trouble)
  }

  lemma {:induction false} DistinctCount(s: seq<string>)
    requires Distinct(s)
    ensures |set x | x in s| == |s|
  {
    if s != [] {
      var front, last := s[..|s| - 1], s[|s| - 1];
      DistinctCount(front);
      assert last !in front;
      assert (set x | x in s) == (set x | x in front) + {last};
    }
  }

  /** The sessions listed are as many as there are different session ids. */
  lemma {:induction false} SessionCount(store: Store, date: int)
    ensures |SessionsOn(store, date)| == |set r | r in DayRows(store.table, date) :: r.session|
  {
    var rows, listed := DayRows(store.table, date), SessionsOn(store, date);
    FirstSeenProperties(Sessions(rows));
    DistinctCount(listed);
    forall x ensures x in listed <==> x in (set r | r in rows :: r.session) {
      SessionOnIff(store, date, x);
    }
    assert (set x | x in listed) == (set r | r in rows :: r.session);
  }

  lemma {:induction false} SessionOnIff(store: Store, date: int, session: string)
    ensures session in SessionsOn(store, date) <==>
            exists r :: r in DayRows(store.table, date) && r.session == session
  {
    var rows := DayRows(store.table, date);
    var ids := Sessions(rows);
    FirstSeenProperties(ids);
    if session in SessionsOn(store, date) {
      var i :| 0 <= i < |ids| && ids[i] == session;
      assert rows[i] in rows;
    }
    if r :| r in rows && r.session == session {
      var i :| 0 <= i < |rows| && rows[i] == r;
      assert ids[i] == session;
    }
  }

  lemma {:induction false} NoneBroken(h: Hasher, view: Reads, date: int, trouble: Trouble)
    ensures Filter(SessionsOn(view.Listed(), date), Suspect(h, view, trouble)) == [] <==>
            DayVerifiable(view.Listed(), date, trouble)
            && (forall r :: r in DayRows(view.Listed().table, date) ==> IntactAsRead(h, view, r.session))
  {
    var listed := view.Listed();
    var rows, bad := DayRows(listed.table, date), Suspect(h, view, trouble);
    var broken := Filter(SessionsOn(listed, date), bad);
    forall r | r in rows ensures r.session in SessionsOn(listed, date) {
      SessionOnIff(listed, date, r.session);
    }
    if broken != [] {
      assert broken[0] in broken;
      SessionOnIff(listed, date, broken[0]);
    }
  }

  // ----- what a match means ------------------------------------------------------------------

  /** A row of a verified chain is linked: it hashes to its recorded hash and its `prev_hash` is
      empty or a digest. */
  predicate RowLinked(h: Hasher, r: Row) {
    r.rowHash == ExpectedHash(h, r) && ':' !in r.prevHash
  }

  ghost predicate DayLinked(h: Hasher, store: Store, date: int) {
    forall r :: r in DayRows(store.table, date) ==> RowLinked(h, r)
  }

  ghost predicate DayIntact(h: Hasher, store: Store, date: int) {
    forall r :: r in DayRows(store.table, date) ==> Intact(h, store, r.session)
  }

  lemma {:induction false} ChainRowLinked(h: Hasher, table: seq<Row>, head: Option<Head>, r: Row)
    requires h.Valid() && r in table && ChainOk(h, SessionRows(table, r.session), head)
    ensures RowLinked(h, r)
  {
    var rows := SessionRows(table, r.session);
    assert r in rows;
    var i :| 0 <= i < |rows| && rows[i] == r;
    assert LinkedAt(h, rows, i);
    LinkTextColonFree(h, rows, i);
  }

  lemma {:induction false} IntactDayLinked(h: Hasher, store: Store, date: int)
    requires h.Valid() && DayIntact(h, store, date)
    ensures DayLinked(h, store, date)
  {
    forall r | r in DayRows(store.table, date) ensures RowLinked(h, r) {
      ChainRowLinked(h, store.table, HeadOf(store, r.session), r);
    }
  }

  predicate ListedSession(view: Reads, date: int, session: string) {
    exists q :: q in DayRows(view.Listed().table, date) && q.session == session
  }

  /** The rows whose hashes made the fresh root are still there when their sessions are listed and
      verified. So it is when nothing is deleted in between, in particular when all is read at once; it
      is not when the file does not open for the listing. */
  ghost predicate StillThere(view: Reads, date: int)
    requires view.Complete()
  {
    forall r :: r in DayRows(view.live.value.table, date) ==>
      ListedSession(view, date, r.session) && r in view.rowsAt(r.session).table
  }

  /** A row of the fresh root was read and verified with its session. */
  ghost predicate RowVerified(h: Hasher, view: Reads, trouble: Trouble, r: Row) {
    && r in view.rowsAt(r.session).table && IntactAsRead(h, view, r.session)
    && !trouble.cannotOpen && r.session !in trouble.raising
  }

  /** Whatever verification runs into, a match says that every row under the root was verified. */
  ghost predicate MatchVouches(h: Hasher, anchors: seq<Anchor>, view: Reads, date: int)
    requires view.Complete()
  {
    forall trouble: Trouble | Verdict(h, anchors, view, date, trouble) ::
      forall r :: r in DayRows(view.live.value.table, date) ==> RowVerified(h, view, trouble, r)
  }

  /** A match vouches for the rows under its root if and only if it cannot occur, because the root is
      another or a session that was listed is broken, or the rows were still there for verification. */
  lemma {:induction false} MatchVouchesIff(h: Hasher, anchors: seq<Anchor>, view: Reads, date: int)
    requires view.Complete()
    ensures MatchVouches(h, anchors, view, date) <==>
            !MatchesAsRead(h, anchors, view, date) || StillThere(view, date)
  {
    if MatchesAsRead(h, anchors, view, date) {
      if StillThere(view, date) {
        StillThereVouches(h, anchors, view, date);
      } else {
        var r :| r in DayRows(view.live.value.table, date)
                 && !(ListedSession(view, date, r.session) && r in view.rowsAt(r.session).table);
        MissingRowNotVouched(h, anchors, view, date, r);
      }
    }
  }

  lemma {:induction false} MissingRowNotVouched(h: Hasher, anchors: seq<Anchor>, view: Reads, date: int, r: Row)
    requires view.Complete() && MatchesAsRead(h, anchors, view, date) && r in DayRows(view.live.value.table, date)
    requires !ListedSession(view, date, r.session) || r !in view.rowsAt(r.session).table
    ensures !MatchVouches(h, anchors, view, date)
  {
    var trouble := Trouble(false, if ListedSession(view, date, r.session) then {} else {r.session});
    assert Verdict(h, anchors, view, date, trouble) && !RowVerified(h, view, trouble, r);
  }

  lemma {:induction false} StillThereVouches(h: Hasher, anchors: seq<Anchor>, view: Reads, date: int)
    requires view.Complete() && StillThere(view, date)
    ensures MatchVouches(h, anchors, view, date)
  {
    forall trouble: Trouble, r
      | Verdict(h, anchors, view, date, trouble) && r in DayRows(view.live.value.table, date)
      ensures RowVerified(h, view, trouble, r)
    {
      var q :| q in DayRows(view.Listed().table, date) && q.session == r.session;
      assert IntactAsRead(h, view, q.session);
    }
  }

  /** The failure: when the file does not open for the listing, the root alone decides, even if no
      verification can run. Such a match vouches for the rows only if there are none. */
  lemma {:induction false} UnlistedDayMatchesIff(
      h: Hasher, anchors: seq<Anchor>, view: Reads, date: int, trouble: Trouble)
    requires view.live.Some? && view.listing.NotOpened?
    ensures var anchor := FirstAnchor(anchors, date);
            Verdict(h, anchors, view, date, trouble) <==>
            anchor.Some? && anchor.value.merkleRoot == DayRoot(h, view.live.value, date)
    ensures Verdict(h, anchors, view, date, trouble) && MatchVouches(h, anchors, view, date) ==>
              DayRows(view.live.value.table, date) == []
  {
    if Verdict(h, anchors, view, date, trouble) && DayRows(view.live.value.table, date) != [] {
      assert DayRows(view.live.value.table, date)[0] in DayRows(view.live.value.table, date);
      MatchVouchesIff(h, anchors, view, date);
    }
  }

  lemma {:induction false} MatchedDayLinked(h: Hasher, anchors: seq<Anchor>, view: Reads, date: int)
    requires view.Complete() && StillThere(view, date)
    requires h.Valid() && MatchesAsRead(h, anchors, view, date)
    ensures DayLinked(h, view.live.value, date)
  {
    forall r | r in DayRows(view.live.value.table, date) ensures RowLinked(h, r) {
      var q :| q in DayRows(view.Listed().table, date) && q.session == r.session;
      assert IntactAsRead(h, view, q.session);
      ChainRowLinked(h, view.rowsAt(r.session).table, HeadOf(view.headAt(r.session), r.session), r);
    }
  }

  /** The texts hashed to compare two days: row payloads and the nodes of both trees. */
  ghost function DayInputs(h: Hasher, store: Store, date: int): set<string> {
    var rows := DayRows(store.table, date);
    Payloads(h, rows) + Merkle.HashedPairs(h.sha, RowHashes(rows))
  }

  lemma {:induction false} LinkedHashesHaveOneWidth(h: Hasher, store: Store, date: int)
    requires h.Valid() && DayLinked(h, store, date)
    ensures Merkle.AllOfLength(RowHashes(DayRows(store.table, date)), 64)
  {
    var rows := DayRows(store.table, date);
    forall i | 0 <= i < |rows| ensures |RowHashes(rows)[i]| == 64 {
      assert RowLinked(h, rows[i]);
    }
  }

  lemma {:induction false} CollisionFreeSubset(f: string -> string, small: set<string>, big: set<string>)
    requires CollisionFreeOn(f, big) && small <= big
    ensures CollisionFreeOn(f, small)
  {
  }

  /** Everything hashed to compare a day as it was anchored with the day as it is now. */
  ghost function ComparedInputs(h: Hasher, then_: Store, now: Store, date: int): set<string> {
    DayInputs(h, then_, date) + DayInputs(h, now, date) + {"empty"}
  }

  lemma {:induction false} FilterSorted(table: seq<Row>, p: Row -> bool)
    requires Sorted(table)
    ensures Sorted(Filter(table, p))
  {
    if table != [] {
      FilterSorted(table[1..], p);
      var rest := Filter(table[1..], p);
      forall j | 0 <= j < |rest| ensures table[0].id < rest[j].id {
        assert rest[j] in table[1..];
      }
    }
  }

  lemma {:induction false} PayloadHasColon(h: Hasher, b: Bound)
    ensures ':' in Payload(h, b)
  {
    assert Payload(h, b)[|Decimal(b.id)|] == ':';
  }

  /** The payload starts with the id, so rows of different ids have different hashes. */
  lemma {:induction false} SameHashSameId(h: Hasher, x: Row, y: Row, hashed: set<string>)
    requires h.Valid() && CollisionFreeOn(h.sha, hashed)
    requires Payload(h, BoundOf(x)) in hashed && Payload(h, BoundOf(y)) in hashed
    requires x.rowHash == ExpectedHash(h, x) && y.rowHash == ExpectedHash(h, y) && x.rowHash == y.rowHash
    ensures x.id == y.id
  {
    var a, b := BoundOf(x), BoundOf(y);
    DecimalColonFree(a.id);
    DecimalColonFree(b.id);
    SplitAtFirstColon(Decimal(a.id), Middle(h, a), Decimal(b.id), Middle(h, b));
    DecimalInjective(a.id, b.id);
  }

  lemma {:induction false} DayHashesDistinct(h: Hasher, store: Store, date: int)
    requires h.Valid() && Sorted(store.table) && DayLinked(h, store, date)
    requires CollisionFreeOn(h.sha, DayInputs(h, store, date))
    ensures Distinct(RowHashes(DayRows(store.table, date)))
  {
    var rows := DayRows(store.table, date);
    FilterSorted(store.table, OnDay(date));
    forall i, j | 0 <= i < j < |rows| ensures RowHashes(rows)[i] != RowHashes(rows)[j] {
      if rows[i].rowHash == rows[j].rowHash {
        assert RowLinked(h, rows[i]) && RowLinked(h, rows[j]);
        SameHashSameId(h, rows[i], rows[j], DayInputs(h, store, date));
      }
    }
  }

  lemma {:induction false} HashedPairsColonFree(h: Hasher, leaves: seq<string>)
    requires h.Valid() && forall x :: x in leaves ==> ':' !in x
    ensures forall p :: p in Merkle.HashedPairs(h.sha, leaves) ==> ':' !in p
    decreases |leaves|
  {
    if |leaves| > 1 {
      var next, pairs := Merkle.NextLevel(h.sha, leaves), Merkle.Pairs(leaves);
      forall i | 0 <= i < |pairs| ensures |next| == |pairs| && ':' !in next[i] && ':' !in pairs[i] {
        Merkle.PairsAreHashed(h.sha, leaves, i);
        Merkle.PairAt(leaves, i);
      }
      HashedPairsColonFree(h, next);
    }
  }

  /** A payload has a colon and no text hashed for a tree does: no leaf of a day of linked rows is an
      inner node of another's tree. */
  lemma {:induction false} DayLeavesApart(h: Hasher, a: Store, b: Store, date: int, hashed: set<string>)
    requires h.Valid() && DayLinked(h, a, date) && DayLinked(h, b, date)
    requires CollisionFreeOn(h.sha, hashed) && "empty" in hashed
    requires DayInputs(h, a, date) + DayInputs(h, b, date) <= hashed
    ensures Merkle.LeavesApart(h.sha, RowHashes(DayRows(a.table, date)), RowHashes(DayRows(b.table, date)))
  {
    var rows, leaves := DayRows(a.table, date), RowHashes(DayRows(b.table, date));
    forall i | 0 <= i < |leaves| ensures ':' !in leaves[i] {
      assert RowLinked(h, DayRows(b.table, date)[i]);
    }
    HashedPairsColonFree(h, leaves);
    forall i, p | 0 <= i < |rows| && (p in Merkle.HashedPairs(h.sha, leaves) || p == "empty")
      ensures RowHashes(rows)[i] != h.sha(p)
    {
      assert RowLinked(h, rows[i]);
      PayloadHasColon(h, BoundOf(rows[i]));
      assert Payload(h, BoundOf(rows[i])) in Payloads(h, rows);
    }
  }

  /** Two days of linked rows with one root have the same hashes: the root alone does not say how many
      leaves it has, but chains do. */
  lemma {:induction false} SameRootSameHashes(h: Hasher, a: Store, b: Store, date: int)
    requires h.Valid() && DayLinked(h, a, date) && DayLinked(h, b, date)
    requires Sorted(a.table) && Sorted(b.table)
    requires DayRoot(h, a, date) == DayRoot(h, b, date)
    requires CollisionFreeOn(h.sha, ComparedInputs(h, a, b, date))
    ensures RowHashes(DayRows(a.table, date)) == RowHashes(DayRows(b.table, date))
  {
    var x, y := RowHashes(DayRows(a.table, date)), RowHashes(DayRows(b.table, date));
    var hashed := ComparedInputs(h, a, b, date);
    LinkedHashesHaveOneWidth(h, a, date);
    LinkedHashesHaveOneWidth(h, b, date);
    CollisionFreeSubset(h.sha, DayInputs(h, a, date), hashed);
    CollisionFreeSubset(h.sha, DayInputs(h, b, date), hashed);
    DayHashesDistinct(h, a, date);
    DayHashesDistinct(h, b, date);
    DayLeavesApart(h, a, b, date, hashed);
    DayLeavesApart(h, b, a, date, hashed);
    CollisionFreeSubset(h.sha, Merkle.HashedPairs(h.sha, x) + Merkle.HashedPairs(h.sha, y) + {"empty"}, hashed);
    Merkle.RootBindsDistinctLeaves(h.sha, 64, x, y);
  }

  /** A match of a day that was intact when anchored: the hashes read now are the anchored ones, each
      and no more. */
  lemma {:induction false} MatchKeepsHashes(h: Hasher, anchors: seq<Anchor>, then_: Store, view: Reads, date: int)
    requires view.Complete() && StillThere(view, date)
    requires h.Valid() && DayIntact(h, then_, date)
    requires Sorted(then_.table) && Sorted(view.live.value.table)
    requires FirstAnchor(anchors, date) == Some(AnchorOf(h, then_, date))
    requires MatchesAsRead(h, anchors, view, date)
    requires CollisionFreeOn(h.sha, ComparedInputs(h, then_, view.live.value, date))
    ensures RowHashes(DayRows(view.live.value.table, date)) == RowHashes(DayRows(then_.table, date))
    ensures |DayRows(view.live.value.table, date)| == FirstAnchor(anchors, date).value.actionCount
  {
    IntactDayLinked(h, then_, date);
    MatchedDayLinked(h, anchors, view, date);
    SameRootSameHashes(h, then_, view.live.value, date);
    SameCount(DayRows(then_.table, date), DayRows(view.live.value.table, date));
  }

  lemma {:induction false} SameCount(a: seq<Row>, b: seq<Row>)
    requires RowHashes(a) == RowHashes(b)
    ensures |a| == |b| && forall i :: 0 <= i < |a| ==> a[i].rowHash == b[i].rowHash
  {
    assert |RowHashes(a)| == |RowHashes(b)|;
    forall i | 0 <= i < |a| ensures a[i].rowHash == b[i].rowHash {
      assert RowHashes(a)[i] == RowHashes(b)[i];
    }
  }

  /** The free texts of two rows can be told apart: `x` has no colon in its own, and either the
      same holds of `y` or `x` has none in its session id either. */
  predicate TextsSeparate(x: Bound, y: Bound) {
    ColonFree(x) && (ColonFree(y) || x.session == y.session || ':' !in x.session)
  }

  predicate RowsSeparate(a: seq<Row>, b: seq<Row>) {
    forall i :: 0 <= i < |a| && i < |b| ==> TextsSeparate(BoundOf(a[i]), BoundOf(b[i]))
  }

  /** If a day was anchored while its sessions were intact and later matches, then it has the rows it
      had when anchored: as many, in the same order, each with its hash and its bound fields. */
  lemma {:induction false} MatchMeansUnchanged(h: Hasher, anchors: seq<Anchor>, then_: Store, view: Reads, date: int)
    requires view.Complete() && StillThere(view, date)
    requires h.Valid() && DayIntact(h, then_, date)
    requires Sorted(then_.table) && Sorted(view.live.value.table)
    requires FirstAnchor(anchors, date) == Some(AnchorOf(h, then_, date))
    requires MatchesAsRead(h, anchors, view, date)
    requires CollisionFreeOn(h.sha, ComparedInputs(h, then_, view.live.value, date))
    requires RowsSeparate(DayRows(then_.table, date), DayRows(view.live.value.table, date))
    ensures var a, b := DayRows(then_.table, date), DayRows(view.live.value.table, date);
            && |b| == |a|
            && forall i :: 0 <= i < |a| ==> b[i].rowHash == a[i].rowHash && BoundOf(b[i]) == BoundOf(a[i])
  {
    var a, b := DayRows(then_.table, date), DayRows(view.live.value.table, date);
    MatchKeepsHashes(h, anchors, then_, view, date);
    IntactDayLinked(h, then_, date);
    MatchedDayLinked(h, anchors, view, date);
    SameHashesSameFields(h, a, b, ComparedInputs(h, then_, view.live.value, date));
  }

  lemma {:induction false} SameHashesSameFields(h: Hasher, a: seq<Row>, b: seq<Row>, hashed: set<string>)
    requires h.Valid() && RowHashes(a) == RowHashes(b) && RowsSeparate(a, b)
    requires (forall r :: r in a ==> RowLinked(h, r)) && (forall r :: r in b ==> RowLinked(h, r))
    requires Payloads(h, a) + Payloads(h, b) <= hashed && CollisionFreeOn(h.sha, hashed)
    ensures |b| == |a|
    ensures forall i :: 0 <= i < |a| ==> b[i].rowHash == a[i].rowHash && BoundOf(b[i]) == BoundOf(a[i])
  {
    SameCount(a, b);
    forall i | 0 <= i < |a| ensures BoundOf(b[i]) == BoundOf(a[i]) {
      assert a[i] in a && b[i] in b;
      assert Payload(h, BoundOf(a[i])) in Payloads(h, a) && Payload(h, BoundOf(b[i])) in Payloads(h, b);
      HashBindsFields(h, BoundOf(a[i]), BoundOf(b[i]), hashed);
    }
  }

  /** Recording more anchors, even for the same date, does not change which one counts. */
  lemma {:induction false} FirstAnchorStays(anchors: seq<Anchor>, more: seq<Anchor>, date: int)
    requires FirstAnchor(anchors, date).Some?
    ensures FirstAnchor(anchors + more, date) == FirstAnchor(anchors, date)
  {
    if anchors[0].date != date {
      assert (anchors + more)[1..] == anchors[1..] + more;
      FirstAnchorStays(anchors[1..], more, date);
    }
  }

  lemma {:induction false} FirstAnchorRecorded(anchors: seq<Anchor>, a: Anchor)
    requires FirstAnchor(anchors, a.date).None?
    ensures FirstAnchor(anchors + [a], a.date) == Some(a)
  {
    if anchors != [] {
      assert (anchors + [a])[1..] == anchors[1..] + [a];
      FirstAnchorRecorded(anchors[1..], a);
    }
  }

  /** Conversely: anchor a date for the first time, record any further anchors, and leave the
      recorded hashes of the day alone; then the day matches exactly when its sessions are
      intact. */
  lemma {:induction false} UnchangedDayMatchesIff(
      h: Hasher, anchors: seq<Anchor>, more: seq<Anchor>, then_: Store, now: Store, date: int)
    requires FirstAnchor(anchors, date).None?
    requires RowHashes(DayRows(now.table, date)) == RowHashes(DayRows(then_.table, date))
    ensures Matches(h, anchors + [AnchorOf(h, then_, date)] + more, now, date) <==> DayIntact(h, now, date)
  {
    FirstAnchorRecorded(anchors, AnchorOf(h, then_, date));
    FirstAnchorStays(anchors + [AnchorOf(h, then_, date)], more, date);
  }

  // ----- anchors and further appends -----------------------------------------------------------

  /** An append on another day leaves an anchored day matching. */
  lemma {:induction false} AppendKeepsMatch(h: Hasher, anchors: seq<Anchor>, store: Store, e: Entry, id: nat, date: int)
    requires Sorted(store.table) && FreshId(store, e.session, id)
    requires Matches(h, anchors, store, date)
    requires forall r :: r in DayRows(store.table, date) ==> Tracked(h, store, r.session)
    requires !(date * DAY <= e.timestamp < date * DAY + DAY)
    ensures var after := Append(h, store, e, id);
            && Matches(h, anchors, after, date)
            && DayRows(after.table, date) == DayRows(store.table, date)
            && forall r :: r in DayRows(after.table, date) ==> Tracked(h, after, r.session)
  {
    var after := Append(h, store, e, id);
    AppendKeepsDay(h, store, e, id, date);
    forall r | r in DayRows(after.table, date) ensures Tracked(h, after, r.session) && Intact(h, after, r.session) {
      AppendKeepsTracked(h, store, e, id, r.session);
    }
  }

  lemma {:induction false} AppendKeepsDay(h: Hasher, store: Store, e: Entry, id: nat, date: int)
    requires Sorted(store.table) && !(date * DAY <= e.timestamp < date * DAY + DAY)
    ensures DayRows(Append(h, store, e, id).table, date) == DayRows(store.table, date)
  {
    var row := Sealed(h, Placeholder(h, e, id, LastHash(SessionRows(store.table, e.session))));
    FilterInsert(store.table, row, OnDay(date));
  }

  /** A day whose sessions are all tracked and match its anchor. */
  ghost predicate Settled(h: Hasher, anchors: seq<Anchor>, store: Store, date: int) {
    Matches(h, anchors, store, date) && forall r :: r in DayRows(store.table, date) ==> Tracked(h, store, r.session)
  }

  ghost predicate OtherDays(commits: seq<(Entry, nat)>, date: int) {
    forall c :: c in commits ==> !(date * DAY <= c.0.timestamp < date * DAY + DAY)
  }

  /** Once a day with tracked sessions matches its anchor, it goes on matching, with the same rows,
      through every interleaving of writers whose committed rows fall on other days. */
  lemma {:induction false} RunKeepsMatch(
      h: Hasher, key: string -> int, s: State, evs: seq<Event>, anchors: seq<Anchor>, date: int)
    requires Inv(h, key, s) && Settled(h, anchors, s.store, date)
    requires OtherDays(Commits(h, key, s, evs), date)
    ensures Settled(h, anchors, Exec(h, key, s, evs).store, date)
    ensures DayRows(Exec(h, key, s, evs).store.table, date) == DayRows(s.store.table, date)
    decreases |evs|
  {
    if evs != [] {
      var s' := Step(h, key, s, evs[0]);
      StepKeepsInv(h, key, s, evs[0]);
      if evs[0].Commit? && evs[0].w in s.txns && s.txns[evs[0].w].HasHead? {
        var t := s.txns[evs[0].w];
        assert (t.entry, t.row.id) == Commits(h, key, s, evs)[0];
        CommitIsAppend(h, key, s, evs[0].w);
        AppendKeepsMatch(h, anchors, s.store, t.entry, t.row.id, date);
        assert Commits(h, key, s', evs[1..]) == Commits(h, key, s, evs)[1..];
      }
      RunKeepsMatch(h, key, s', evs[1..], anchors, date);
    }
  }

  lemma {:induction false} InsertCount(table: seq<Row>, r: Row, p: Row -> bool)
    ensures |Filter(InsertById(table, r), p)| == |Filter(table, p)| + (if p(r) then 1 else 0)
  {
    if table == [] || r.id < table[0].id {
      FilterCons(r, table, p);
    } else {
      InsertCount(table[1..], r, p);
      FilterCons(table[0], InsertById(table[1..], r), p);
    }
  }

  lemma {:induction false} AppendGrowsDay(h: Hasher, store: Store, e: Entry, id: nat, date: int)
    ensures |DayRows(Append(h, store, e, id).table, date)| ==
            |DayRows(store.table, date)| + (if date * DAY <= e.timestamp < date * DAY + DAY then 1 else 0)
  {
    var row := Sealed(h, Placeholder(h, e, id, LastHash(SessionRows(store.table, e.session))));
    InsertCount(store.table, row, OnDay(date));
  }

  lemma {:induction false} RunGrowsDay(h: Hasher, key: string -> int, s: State, evs: seq<Event>, date: int)
    requires Inv(h, key, s)
    ensures |DayRows(Exec(h, key, s, evs).store.table, date)| >= |DayRows(s.store.table, date)|
    ensures !OtherDays(Commits(h, key, s, evs), date) ==>
              |DayRows(Exec(h, key, s, evs).store.table, date)| > |DayRows(s.store.table, date)|
    decreases |evs|
  {
    if evs != [] {
      var s' := Step(h, key, s, evs[0]);
      StepKeepsInv(h, key, s, evs[0]);
      RunGrowsDay(h, key, s', evs[1..], date);
      StepGrowsDay(h, key, s, evs[0], date);
      if Committing(s, evs[0]) {
        FirstOtherDay(CommitOf(s, evs[0]), Commits(h, key, s', evs[1..]), date);
      }
    }
  }

  predicate Committing(s: State, ev: Event) {
    ev.Commit? && ev.w in s.txns && s.txns[ev.w].HasHead?
  }

  function CommitOf(s: State, ev: Event): (Entry, nat)
    requires Committing(s, ev)
  {
    (s.txns[ev.w].entry, s.txns[ev.w].row.id)
  }

  lemma {:induction false} StepGrowsDay(h: Hasher, key: string -> int, s: State, ev: Event, date: int)
    requires Inv(h, key, s)
    ensures var after := Step(h, key, s, ev).store;
            |DayRows(after.table, date)| ==
            |DayRows(s.store.table, date)|
            + (if Committing(s, ev) && date * DAY <= CommitOf(s, ev).0.timestamp < date * DAY + DAY then 1 else 0)
  {
    if Committing(s, ev) {
      var t := s.txns[ev.w];
      CommitIsAppend(h, key, s, ev.w);
      AppendGrowsDay(h, s.store, t.entry, t.row.id, date);
    }
  }

  lemma {:induction false} FirstOtherDay(first: (Entry, nat), rest: seq<(Entry, nat)>, date: int)
    ensures OtherDays([first] + rest, date) <==>
            !(date * DAY <= first.0.timestamp < date * DAY + DAY) && OtherDays(rest, date)
  {
    assert first in [first] + rest;
    assert forall c :: c in [first] + rest <==> c == first || c in rest;
  }

  /** Two stores that match one anchor have equally many rows of the day. */
  lemma {:induction false} MatchKeepsCount(h: Hasher, anchors: seq<Anchor>, a: Store, b: Store, date: int)
    requires h.Valid() && Sorted(a.table) && Sorted(b.table)
    requires Matches(h, anchors, a, date) && Matches(h, anchors, b, date)
    requires CollisionFreeOn(h.sha, ComparedInputs(h, a, b, date))
    ensures |DayRows(a.table, date)| == |DayRows(b.table, date)|
  {
    IntactDayLinked(h, a, date);
    IntactDayLinked(h, b, date);
    SameRootSameHashes(h, a, b, date);
    SameCount(DayRows(a.table, date), DayRows(b.table, date));
  }

  /** One append leaves a matching day matching if and only if it is dated another day. The log takes
      its timestamp before its lock, so a row can be appended after its day was anchored. */
  lemma {:induction false} AppendMatchesIff(h: Hasher, anchors: seq<Anchor>, store: Store, e: Entry, id: nat, date: int)
    requires h.Valid() && Sorted(store.table) && FreshId(store, e.session, id)
    requires Settled(h, anchors, store, date)
    requires CollisionFreeOn(h.sha, ComparedInputs(h, store, Append(h, store, e, id), date))
    ensures Matches(h, anchors, Append(h, store, e, id), date) <==> !(date * DAY <= e.timestamp < date * DAY + DAY)
  {
    var after := Append(h, store, e, id);
    AppendRows(h, store, e, id, e.session);
    AppendGrowsDay(h, store, e, id, date);
    if Matches(h, anchors, after, date) {
      MatchKeepsCount(h, anchors, store, after, date);
    } else if !(date * DAY <= e.timestamp < date * DAY + DAY) {
      AppendKeepsMatch(h, anchors, store, e, id, date);
    }
  }

  /** A day with tracked sessions that matches its anchor goes on matching through a run of any number
      of writers if and only if none of the rows they commit is of that day. */
  lemma {:induction false} RunMatchesIff(
      h: Hasher, key: string -> int, s: State, evs: seq<Event>, anchors: seq<Anchor>, date: int)
    requires h.Valid() && Inv(h, key, s) && Settled(h, anchors, s.store, date)
    requires CollisionFreeOn(h.sha, ComparedInputs(h, s.store, Exec(h, key, s, evs).store, date))
    ensures Matches(h, anchors, Exec(h, key, s, evs).store, date) <==> OtherDays(Commits(h, key, s, evs), date)
  {
    var after := Exec(h, key, s, evs).store;
    RunKeepsInv(h, key, s, evs);
    RunGrowsDay(h, key, s, evs, date);
    if Matches(h, anchors, after, date) {
      MatchKeepsCount(h, anchors, s.store, after, date);
    } else if OtherDays(Commits(h, key, s, evs), date) {
      RunKeepsMatch(h, key, s, evs, anchors, date);
    }
  }

  lemma {:induction false} PrefixKeepsMatch(
      h: Hasher, key: string -> int, s: State, evs: seq<Event>, anchors: seq<Anchor>, date: int, n: nat)
    requires Inv(h, key, s) && Settled(h, anchors, s.store, date)
    requires OtherDays(Commits(h, key, s, evs), date) && n <= |evs|
    ensures Settled(h, anchors, StoreAt(h, key, s, evs, n), date)
    ensures DayRows(StoreAt(h, key, s, evs, n).table, date) == DayRows(s.store.table, date)
  {
    assert evs == evs[..n] + evs[n..];
    ExecAppend(h, key, s, evs[..n], evs[n..]);
    RunKeepsMatch(h, key, s, evs[..n], anchors, date);
  }

  /** The reads of a verification that runs beside the writers: the day at `p` and at `q`, the rows of
      each session at `rows`, its head at `heads`, no earlier. */
  ghost predicate ReadBeside(h: Hasher, key: string -> int, s: State, evs: seq<Event>, view: Reads,
                             p: nat, q: nat, rows: string -> nat, heads: string -> nat) {
    && p <= |evs| && q <= |evs|
    && view.live == Some(StoreAt(h, key, s, evs, p)) && view.listing == ListedFrom(StoreAt(h, key, s, evs, q))
    && forall x :: && rows(x) <= heads(x) <= |evs|
                   && view.rowsAt(x) == StoreAt(h, key, s, evs, rows(x))
                   && view.headAt(x) == StoreAt(h, key, s, evs, heads(x))
  }

  /** Verifying an anchored day while writers append rows of other days, interleaved anyhow: it is a
      match if and only if no session of the day commits a row between the reading of its rows and
      the reading of its head. Otherwise an untouched day is reported as tampered. */
  lemma {:induction false} MatchBesideWritersIff(
      h: Hasher, key: string -> int, s: State, evs: seq<Event>, anchors: seq<Anchor>, date: int,
      view: Reads, p: nat, q: nat, rows: string -> nat, heads: string -> nat)
    requires Inv(h, key, s) && Settled(h, anchors, s.store, date)
    requires OtherDays(Commits(h, key, s, evs), date)
    requires ReadBeside(h, key, s, evs, view, p, q, rows, heads)
    ensures MatchesAsRead(h, anchors, view, date) <==>
            forall r :: r in DayRows(s.store.table, date) ==>
              !Writes(CommitsBetween(h, key, s, evs, rows(r.session), heads(r.session)), r.session)
  {
    PrefixKeepsMatch(h, key, s, evs, anchors, date, p);
    PrefixKeepsMatch(h, key, s, evs, anchors, date, q);
    forall r | r in DayRows(s.store.table, date)
      ensures IntactAsRead(h, view, r.session) <==>
              !Writes(CommitsBetween(h, key, s, evs, rows(r.session), heads(r.session)), r.session)
    {
      SessionBesideWriters(h, key, s, evs, r.session, rows(r.session), heads(r.session));
    }
  }

  lemma {:induction false} SessionBesideWriters(
      h: Hasher, key: string -> int, s: State, evs: seq<Event>, session: string, m: nat, n: nat)
    requires Inv(h, key, s) && Tracked(h, s.store, session) && m <= n <= |evs|
    ensures var rows := SessionRows(StoreAt(h, key, s, evs, m).table, session);
            ChainOk(h, rows, HeadOf(StoreAt(h, key, s, evs, n), session))
            <==> !Writes(CommitsBetween(h, key, s, evs, m, n), session)
  {
    assert evs[..n] == evs[..m] + evs[m..n];
    ExecAppend(h, key, s, evs[..m], evs[m..n]);
    RunFromInv(h, key, s, evs[..m], session);
    SplitReadIff(h, key, Exec(h, key, s, evs[..m]), evs[m..n], session);
  }

  /** Read at one moment, a match is a match of the store. */
  lemma {:induction false} OneMomentMatchesIff(h: Hasher, anchors: seq<Anchor>, store: Store, date: int)
    ensures MatchesAsRead(h, anchors, OneMoment(store), date) <==> Matches(h, anchors, store, date)
    ensures StillThere(OneMoment(store), date)
  {
    forall session ensures IntactAsRead(h, OneMoment(store), session) <==> Intact(h, store, session) {
    }
  }

  /** A run in which that goes wrong, from an empty log: a row of the day is written and the day
      anchored; a verification reads everything but the heads; another row of that session, dated another
      day, is written; the heads are read. The day is reported as tampered, though it matches before
      and after. */
  lemma {:induction false} UntouchedDayTampered(h: Hasher, key: string -> int, e: Entry, f: Entry, date: int)
    requires date * DAY <= e.timestamp < date * DAY + DAY && !(date * DAY <= f.timestamp < date * DAY + DAY)
    requires e.session == f.session
    ensures var s := Exec(h, key, State(Store([], map[]), 1, map[], map[]), Whole(0, e));
            var before, after := s.store, Exec(h, key, s, Whole(0, f)).store;
            var anchors := [AnchorOf(h, before, date)];
            var view := Reads(Some(before), ListedFrom(before), (x: string) => before, (x: string) => after);
            && Matches(h, anchors, before, date) && Matches(h, anchors, after, date)
            && !MatchesAsRead(h, anchors, view, date)
  {
    var empty := State(Store([], map[]), 1, map[], map[]);
    var s := Exec(h, key, empty, Whole(0, e));
    var anchors := [AnchorOf(h, s.store, date)];
    FirstDaySettled(h, key, e, date);
    TamperedBySplitRead(h, key, s, f, anchors, date);
  }

  /** The same of any anchored day, beside a whole append to one of its sessions that is dated another day. */
  lemma {:induction false} TamperedBySplitRead(
      h: Hasher, key: string -> int, s: State, f: Entry, anchors: seq<Anchor>, date: int)
    requires Initial(s) && Settled(h, anchors, s.store, date) && !(date * DAY <= f.timestamp < date * DAY + DAY)
    requires exists r :: r in DayRows(s.store.table, date) && r.session == f.session
    ensures var before, after := s.store, Exec(h, key, s, Whole(0, f)).store;
            var view := Reads(Some(before), ListedFrom(before), (x: string) => before, (x: string) => after);
            && Matches(h, anchors, before, date) && Matches(h, anchors, after, date)
            && !MatchesAsRead(h, anchors, view, date)
  {
    WholeAppends(h, key, s, 0, f);
    RunKeepsMatch(h, key, s, Whole(0, f), anchors, date);
    SplitReadFails(h, key, s, 0, f);
  }

  lemma {:induction false} FirstDaySettled(h: Hasher, key: string -> int, e: Entry, date: int)
    requires date * DAY <= e.timestamp < date * DAY + DAY
    ensures var s := Exec(h, key, State(Store([], map[]), 1, map[], map[]), Whole(0, e));
            && Initial(s)
            && (exists r :: r in DayRows(s.store.table, date) && r.session == e.session)
            && Settled(h, [AnchorOf(h, s.store, date)], s.store, date)
  {
    var empty := State(Store([], map[]), 1, map[], map[]);
    var s := Exec(h, key, empty, Whole(0, e));
    WholeAppends(h, key, empty, 0, e);
    assert Tracked(h, empty.store, e.session);
    RunFromInv(h, key, empty, Whole(0, e), e.session);
    var row := s.store.table[0];
    assert s.store.table == [row] && row.session == e.session;
    assert row in DayRows(s.store.table, date);
  }
}
