/** Appending to the audit log (audit.py): the transaction as a single step, and the SQLite path
    that runs it statement by statement under a lock. */
module AuditAppend {
  import opened Common
  import opened AuditChain

  /** What a caller asks to be logged, after redaction and JSON encoding. */
  datatype Entry = Entry(
    session: string, action: string, tool: string, inputsJson: string, outputsJson: string,
    cost: int, error: string, timestamp: int)

  /** The committed tables: `audit_log` in id order and `audit_chain_heads`. */
  datatype Store = Store(table: seq<Row>, heads: map<string, Head>)

  // ----- the table ------------------------------------------------------------------------

  predicate Sorted(table: seq<Row>) {
    forall i, j :: 0 <= i < j < |table| ==> table[i].id < table[j].id
  }

  function InSession(session: string): Row -> bool {
    (r: Row) => r.session == session
  }

  /** `SELECT ... WHERE session_id = ... ORDER BY id`. */
  function SessionRows(table: seq<Row>, session: string): seq<Row> {
    Filter(table, InSession(session))
  }

  function LastHash(rows: seq<Row>): string {
    if rows == [] then "" else rows[|rows| - 1].rowHash
  }

  function HeadOf(store: Store, session: string): Option<Head> {
    if session in store.heads then Some(store.heads[session]) else None
  }

  function HeadCount(head: Option<Head>): int {
    if head.Some? then head.value.count else 0
  }

  function InsertById(table: seq<Row>, r: Row): (t: seq<Row>)
    ensures forall x :: x in t <==> x in table || x == r
  {
    if table == [] || r.id < table[0].id then [r] + table
    else [table[0]] + InsertById(table[1..], r)
  }

  lemma {:induction false} InsertKeepsSorted(table: seq<Row>, r: Row)
    requires Sorted(table) && forall x :: x in table ==> x.id != r.id
    ensures Sorted(InsertById(table, r))
  {
    if table != [] && r.id > table[0].id {
      InsertKeepsSorted(table[1..], r);
      var rest := InsertById(table[1..], r);
      forall j | 0 <= j < |rest| ensures table[0].id < rest[j].id {
        assert rest[j] in rest;
      }
    }
  }

  lemma {:induction false} FilterCons(x: Row, s: seq<Row>, p: Row -> bool)
    ensures Filter([x] + s, p) == (if p(x) then [x] else []) + Filter(s, p)
  {
    assert ([x] + s)[1..] == s;
  }

  lemma {:induction false} InsertTail(table: seq<Row>, r: Row)
    requires table != [] && r.id >= table[0].id
    ensures InsertById(table, r) == [table[0]] + InsertById(table[1..], r)
  {
  }

  lemma {:induction false} Regrouped(a: seq<Row>, b: seq<Row>, c: seq<Row>)
    ensures a + (b + c) == (a + b) + c
  {
  }

  lemma {:induction false} FilterHead(s: seq<Row>, p: Row -> bool)
    requires s != []
    ensures Filter(s, p) == (if p(s[0]) then [s[0]] else []) + Filter(s[1..], p)
  {
  }

  /** Inserting a row that the selection skips, or that comes after all it selects. */
  lemma {:induction false} FilterInsert(table: seq<Row>, r: Row, p: Row -> bool)
    requires Sorted(table)
    requires p(r) ==> forall x :: x in table && p(x) ==> x.id < r.id
    ensures Filter(InsertById(table, r), p) == Filter(table, p) + (if p(r) then [r] else [])
  {
    if table == [] || r.id < table[0].id {
      if p(r) && table != [] {
        FilterAfter(table, r, p);
      }
      FilterCons(r, table, p);
    } else {
      FilterInsert(table[1..], r, p);
      FilterInsertLater(table, r, p);
    }
  }

  lemma {:induction false} FilterInsertLater(table: seq<Row>, r: Row, p: Row -> bool)
    requires table != [] && r.id >= table[0].id
    requires Filter(InsertById(table[1..], r), p) == Filter(table[1..], p) + (if p(r) then [r] else [])
    ensures Filter(InsertById(table, r), p) == Filter(table, p) + (if p(r) then [r] else [])
  {
    var rest := InsertById(table[1..], r);
    InsertTail(table, r);
    FilterHead(table, p);
    FilterCons(table[0], rest, p);
    Regrouped(if p(table[0]) then [table[0]] else [], Filter(table[1..], p), if p(r) then [r] else []);
  }

  lemma {:induction false} FilterAfter(table: seq<Row>, r: Row, p: Row -> bool)
    requires Sorted(table) && table != [] && r.id < table[0].id
    requires forall x :: x in table && p(x) ==> x.id < r.id
    ensures Filter(table, p) == []
  {
    forall x | x in table ensures !p(x) {
      var i :| 0 <= i < |table| && table[i] == x;
      assert table[0].id <= table[i].id;
    }
    FilterNone(table, p);
  }

  // ----- one append -------------------------------------------------------------------------

  /** The row as inserted, its hash still empty. */
  function Placeholder(h: Hasher, e: Entry, id: nat, prev: string): Row {
    Row(id, e.session, e.action, e.tool, e.inputsJson, e.outputsJson, e.cost, e.error, e.timestamp,
        prev, "", Some(Digest(h, e.inputsJson)), Some(Digest(h, e.outputsJson)))
  }

  function Sealed(h: Hasher, r: Row): Row {
    r.(rowHash := ExpectedHash(h, r))
  }

  /** The upserted head: a first row starts the count at one. */
  function NextHead(head: Option<Head>, r: Row): Head {
    Head(r.id, r.rowHash, if head.Some? then head.value.count + 1 else 1)
  }

  /** The whole append transaction as one step. */
  function Append(h: Hasher, store: Store, e: Entry, id: nat): Store {
    var row := Sealed(h, Placeholder(h, e, id, LastHash(SessionRows(store.table, e.session))));
    Store(InsertById(store.table, row),
          store.heads[e.session := NextHead(HeadOf(store, e.session), row)])
  }

  ghost predicate FreshId(store: Store, session: string, id: nat) {
    && (forall x :: x in store.table ==> x.id != id)
    && (forall x :: x in store.table && x.session == session ==> x.id < id)
  }

  /** What an append does to every session's rows: one more at the end of its own session. */
  lemma {:induction false} AppendRows(h: Hasher, store: Store, e: Entry, id: nat, session: string)
    requires Sorted(store.table) && FreshId(store, e.session, id)
    ensures var rows := SessionRows(store.table, session);
            SessionRows(Append(h, store, e, id).table, session) ==
            if session == e.session then rows + [Sealed(h, Placeholder(h, e, id, LastHash(rows)))] else rows
    ensures Sorted(Append(h, store, e, id).table)
  {
    var row := Sealed(h, Placeholder(h, e, id, LastHash(SessionRows(store.table, e.session))));
    InsertKeepsSorted(store.table, row);
    FilterInsert(store.table, row, InSession(session));
  }

  lemma {:induction false} LinksExtend(h: Hasher, rows: seq<Row>, row: Row)
    ensures Links(h, rows + [row]) <==>
              Links(h, rows) && row.prevHash == LastHash(rows) && row.rowHash == ExpectedHash(h, row)
  {
    var longer := rows + [row];
    LinksStep(h, longer, |rows|);
    assert longer[..|rows| + 1] == longer && longer[..|rows|] == rows;
  }

  /** After an append a session verifies exactly when its rows were linked and its head, taken
      as zero when absent, counted them. A chain written before heads were tracked therefore
      verifies until its next append and never again; and an append overwrites the last id and
      hash of the head, so those two are not needed before it. */
  lemma {:induction false} AppendVerifiesIff(h: Hasher, store: Store, e: Entry, id: nat)
    requires Sorted(store.table) && FreshId(store, e.session, id)
    ensures var after := Append(h, store, e, id);
            ChainOk(h, SessionRows(after.table, e.session), HeadOf(after, e.session)) <==>
              && Links(h, SessionRows(store.table, e.session))
              && HeadCount(HeadOf(store, e.session)) == |SessionRows(store.table, e.session)|
  {
    var rows := SessionRows(store.table, e.session);
    var row := Sealed(h, Placeholder(h, e, id, LastHash(rows)));
    AppendRows(h, store, e, id, e.session);
    LinksExtend(h, rows, row);
    assert BoundOf(row) == BoundOf(Placeholder(h, e, id, LastHash(rows)));
  }

  /** A row the log writes keeps its fields apart in the payload exactly when its action type and
      tool name have no colon: the two digests never do. */
  lemma {:induction false} WrittenRowColonFreeIff(h: Hasher, e: Entry, id: nat, prev: string)
    requires h.Valid()
    ensures ColonFree(BoundOf(Sealed(h, Placeholder(h, e, id, prev)))) <==> ':' !in e.action && ':' !in e.tool
  {
    var b := BoundOf(Sealed(h, Placeholder(h, e, id, prev)));
    assert b.left == Digest(h, e.inputsJson) && b.right == Digest(h, e.outputsJson);
  }

  /** What an append records: every field of the entry, the digests of its two texts (empty for an empty
      text), the link to the row before, and the hash of the nine of these that are bound. */
  lemma {:induction false} AppendedRow(h: Hasher, store: Store, e: Entry, id: nat)
    requires Sorted(store.table) && FreshId(store, e.session, id)
    ensures var before := SessionRows(store.table, e.session);
            var rows := SessionRows(Append(h, store, e, id).table, e.session);
            && |rows| == |before| + 1 && rows[..|before|] == before
            && var r := rows[|before|];
               && r.id == id && r.session == e.session && r.action == e.action && r.tool == e.tool
               && r.inputsJson == e.inputsJson && r.outputsJson == e.outputsJson && r.cost == e.cost
               && r.error == e.error && r.timestamp == e.timestamp
               && r.prevHash == (if before == [] then "" else before[|before| - 1].rowHash)
               && r.inputsDigest == Some(if e.inputsJson == "" then "" else h.sha(e.inputsJson))
               && r.outputsDigest == Some(if e.outputsJson == "" then "" else h.sha(e.outputsJson))
               && r.rowHash == h.sha(Payload(h, Bound(id, e.session, e.action, e.tool, e.cost, e.timestamp, r.prevHash,
                                                       r.inputsDigest.value, r.outputsDigest.value)))
  {
    AppendRows(h, store, e, id, e.session);
    var before := SessionRows(store.table, e.session);
    SealedRow(h, e, id, LastHash(before));
  }

  lemma {:induction false} SealedRow(h: Hasher, e: Entry, id: nat, prev: string)
    ensures var r := Sealed(h, Placeholder(h, e, id, prev));
            && r.inputsDigest == Some(if e.inputsJson == "" then "" else h.sha(e.inputsJson))
            && r.outputsDigest == Some(if e.outputsJson == "" then "" else h.sha(e.outputsJson))
            && r.rowHash == h.sha(Payload(h, Bound(id, e.session, e.action, e.tool, e.cost, e.timestamp, prev,
                                                   r.inputsDigest.value, r.outputsDigest.value)))
  {
  }

  /** And the head it leaves: one row more, the new one the last; no other head changes. */
  lemma {:induction false} AppendedHead(h: Hasher, store: Store, e: Entry, id: nat)
    requires Sorted(store.table) && FreshId(store, e.session, id)
    ensures var after := Append(h, store, e, id);
            var rows := SessionRows(after.table, e.session);
            && after.heads.Keys == store.heads.Keys + {e.session}
            && (forall x :: x in store.heads && x != e.session ==> after.heads[x] == store.heads[x])
            && rows != [] && after.heads[e.session].lastId == id == rows[|rows| - 1].id
            && after.heads[e.session].lastHash == rows[|rows| - 1].rowHash
            && after.heads[e.session].count ==
               (if e.session in store.heads then store.heads[e.session].count + 1 else 1)
  {
    AppendRows(h, store, e, id, e.session);
  }

  lemma {:induction false} DigestBindsText(h: Hasher, x: string, y: string, hashed: set<string>)
    requires h.Valid() && CollisionFreeOn(h.sha, hashed) && x in hashed && y in hashed
    requires Digest(h, x) == Digest(h, y)
    ensures x == y
  {
    assert |h.sha(x)| == 64 && |h.sha(y)| == 64;
  }

  /** The texts hashed when an entry is written: the payload and the two JSON texts. */
  ghost function EntryInputs(h: Hasher, e: Entry, r: Row): set<string> {
    {Payload(h, BoundOf(r)), e.inputsJson, e.outputsJson}
  }

  /** The hash of a written row binds the whole entry, inputs and outputs included, but for its error text:
      two rows with one hash are of equal entries under one id after the same row, if the names of one
      have no colon and nothing hashed collides. */
  lemma {:induction false} HashBindsEntry(h: Hasher, e: Entry, id: nat, prev: string, f: Entry, id': nat, prev': string)
    requires h.Valid() && ':' !in prev && ':' !in prev'
    requires ':' !in e.action && ':' !in e.tool && (e.session == f.session || ':' !in e.session)
    requires var a, b := Sealed(h, Placeholder(h, e, id, prev)), Sealed(h, Placeholder(h, f, id', prev'));
             a.rowHash == b.rowHash && CollisionFreeOn(h.sha, EntryInputs(h, e, a) + EntryInputs(h, f, b))
    ensures id == id' && prev == prev' && e == f.(error := e.error)
  {
    var a, b := Sealed(h, Placeholder(h, e, id, prev)), Sealed(h, Placeholder(h, f, id', prev'));
    var hashed := EntryInputs(h, e, a) + EntryInputs(h, f, b);
    WrittenRowColonFreeIff(h, e, id, prev);
    HashBindsFields(h, BoundOf(a), BoundOf(b), hashed);
    DigestBindsText(h, e.inputsJson, f.inputsJson, hashed);
    DigestBindsText(h, e.outputsJson, f.outputsJson, hashed);
  }

  /** The chain verifies and was head-tracked from its first row. */
  predicate Tracked(h: Hasher, store: Store, session: string) {
    var rows := SessionRows(store.table, session);
    ChainOk(h, rows, HeadOf(store, session)) && (rows != [] ==> session in store.heads)
  }

  /** An append keeps every tracked session tracked. */
  lemma {:induction false} AppendKeepsTracked(h: Hasher, store: Store, e: Entry, id: nat, session: string)
    requires Sorted(store.table) && FreshId(store, e.session, id)
    requires Tracked(h, store, session)
    ensures Tracked(h, Append(h, store, e, id), session)
  {
    AppendRows(h, store, e, id, session);
    if session == e.session {
      AppendVerifiesIff(h, store, e, id);
    }
  }

  /** A session with rows but no head, the legacy case, stops verifying at its first append. */
  lemma {:induction false} LegacyChainBreaks(h: Hasher, store: Store, e: Entry, id: nat)
    requires Sorted(store.table) && FreshId(store, e.session, id)
    requires SessionRows(store.table, e.session) != [] && e.session !in store.heads
    ensures var after := Append(h, store, e, id);
            !ChainOk(h, SessionRows(after.table, e.session), HeadOf(after, e.session))
  {
    AppendVerifiesIff(h, store, e, id);
  }

  // ----- the SQLite path ----------------------------------------------------------------------

  function SetHash(table: seq<Row>, id: nat, hash: string): seq<Row> {
    if table == [] then []
    else [if table[0].id == id then table[0].(rowHash := hash) else table[0]] + SetHash(table[1..], id, hash)
  }

  lemma {:induction false} SetHashElsewhere(table: seq<Row>, id: nat, hash: string)
    requires forall x :: x in table ==> x.id != id
    ensures SetHash(table, id, hash) == table
  {
    if table != [] {
      SetHashElsewhere(table[1..], id, hash);
    }
  }

  /** Inserting a placeholder and then setting its hash is inserting the finished row. */
  lemma {:induction false} SetHashOfInserted(table: seq<Row>, r: Row, hash: string)
    requires forall x :: x in table ==> x.id != r.id
    ensures SetHash(InsertById(table, r), r.id, hash) == InsertById(table, r.(rowHash := hash))
  {
    if table == [] || r.id < table[0].id {
      assert ([r] + table)[1..] == table;
      SetHashElsewhere(table, r.id, hash);
    } else {
      assert InsertById(table, r)[1..] == InsertById(table[1..], r);
      SetHashOfInserted(table[1..], r, hash);
    }
  }

  /** Statements of the append in the order they run; any of them may raise. */
  datatype Statement = ReadPrev | InsertRow | UpdateHash | UpsertHead | CommitTxn

  lemma {:induction false} AllStatements(s: Option<Statement>)
    ensures s in {None, Some(ReadPrev), Some(InsertRow), Some(UpdateHash), Some(UpsertHead), Some(CommitTxn)}
  {
    if s.Some? {
      match s.value
      case ReadPrev =>
      case InsertRow =>
      case UpdateHash =>
      case UpsertHead =>
      case CommitTxn =>
    }
  }

  /** The statements together are the append. */
  lemma {:induction false} StatementsMakeAppend(h: Hasher, store: Store, e: Entry, id: nat)
    requires Sorted(store.table) && forall x :: x in store.table ==> x.id < id
    ensures var row := Placeholder(h, e, id, LastHash(SessionRows(store.table, e.session)));
            var hash := ExpectedHash(h, row);
            Append(h, store, e, id) ==
            Store(SetHash(InsertById(store.table, row), id, hash),
                  store.heads[e.session := NextHead(HeadOf(store, e.session), row.(rowHash := hash))])
    ensures Sorted(Append(h, store, e, id).table)
    ensures forall x :: x in Append(h, store, e, id).table ==> x.id <= id
  {
    var row := Placeholder(h, e, id, LastHash(SessionRows(store.table, e.session)));
    SetHashOfInserted(store.table, row, ExpectedHash(h, row));
    InsertKeepsSorted(store.table, Sealed(h, row));
  }

  /** The audit log over one SQLite file. The process-wide lock and BEGIN IMMEDIATE make the
      body of `Log` run alone, so the object has no other writer. */
  class AuditLog {
    const hasher: Hasher
    var store: Store
    var nextId: nat

    constructor (hasher: Hasher)
      ensures this.hasher == hasher && Valid()
      ensures store == Store([], map[])
    {
      this.hasher := hasher;
      store := Store([], map[]);
      nextId := 1;
    }

    ghost predicate Valid()
      reads this
    {
      Sorted(store.table) && forall x :: x in store.table ==> x.id < nextId
    }

    /** Append one row and return its id, or leave the log as it was. `failing` is the statement
        that raises, if any. */
    method Log(e: Entry, failing: Option<Statement>) returns (r: Result<nat, Statement>)
      requires Valid()
      modifies this
      ensures Valid()
      ensures r.Ok? <==> failing.None?
      ensures r.Ok? ==> r.value == old(nextId)
                        && store == Append(hasher, old(store), e, r.value)
                        && nextId == old(nextId) + 1
      ensures r.Err? ==> r.error == failing.value && store == old(store) && nextId == old(nextId)
    {
      var begun, begunId := store, nextId;
      if failing == Some(ReadPrev) {
        return Err(ReadPrev);
      }
      var prev := LastHash(SessionRows(store.table, e.session));
      if failing == Some(InsertRow) {
        return Err(InsertRow);
      }
      var row := Placeholder(hasher, e, nextId, prev);
      store := store.(table := InsertById(store.table, row));
      nextId := nextId + 1;
      if failing == Some(UpdateHash) {
        store, nextId := begun, begunId;
        return Err(UpdateHash);
      }
      var hash := ExpectedHash(hasher, row);
      store := store.(table := SetHash(store.table, row.id, hash));
      if failing == Some(UpsertHead) {
        store, nextId := begun, begunId;
        return Err(UpsertHead);
      }
      store := store.(heads := store.heads[e.session := NextHead(HeadOf(store, e.session), row.(rowHash := hash))]);
      if failing == Some(CommitTxn) {
        store, nextId := begun, begunId;
        return Err(CommitTxn);
      }
      assert failing.None? by {
        AllStatements(failing);
      }
      StatementsMakeAppend(hasher, begun, e, row.id);
      return Ok(row.id);
    }

    /** `verify_chain` on the stored rows and head of one session. */
    method VerifyChain(session: string) returns (ok: bool)
      ensures ok <==> ChainOk(hasher, SessionRows(store.table, session), HeadOf(store, session))
    {
      ok := VerifyRows(hasher, SessionRows(store.table, session), HeadOf(store, session));
    }
  }
}
