/** The hash-linked rows of one audit session (audit.py): what a row binds, what `verify_chain`
    decides, and why two chains with one head must agree. */
module AuditChain {
  import opened Common

  /** One row of `audit_log`. A row written before the digest columns existed has
      `inputsDigest == None`. Timestamps are counted in nanoseconds. */
  datatype Row = Row(
    id: nat, session: string, action: string, tool: string,
    inputsJson: string, outputsJson: string, cost: int, error: string, timestamp: int,
    prevHash: string, rowHash: string,
    inputsDigest: Option<string>, outputsDigest: Option<string>)

  /** A row of `audit_chain_heads`. */
  datatype Head = Head(lastId: nat, lastHash: string, count: int)

  /** SHA-256 as hexadecimal text, and the printed form of a floating-point timestamp. */
  datatype Hasher = Hasher(sha: string -> string, repr: int -> string) {
    /** The two facts about hexadecimal digests and printed numbers the proofs use: neither
        contains the separator, digests have 64 digits, and distinct timestamps print apart. */
    ghost predicate Valid() {
      && (forall x :: |sha(x)| == 64 && ':' !in sha(x))
      && (forall t :: ':' !in repr(t))
      && (forall t, u :: repr(t) == repr(u) ==> t == u)
    }
  }

  function Digest(h: Hasher, text: string): string {
    if text == "" then "" else h.sha(text)
  }

  // ----- what a row binds ------------------------------------------------------------------

  /** The nine fields joined into the hashed payload. `left` and `right` are the two digests
      of a current row, or the two raw JSON texts of an old one. */
  datatype Bound = Bound(
    id: nat, session: string, action: string, tool: string, cost: int, timestamp: int,
    prevHash: string, left: string, right: string)

  function PrintedDigest(d: Option<string>): string {
    if d.Some? then d.value else "None"
  }

  /** An absent digest is printed as the word for it, which is no digest and not the empty text. */
  lemma {:induction false} AbsentDigestPrints(h: Hasher, d: string)
    requires h.Valid() && (d == "" || |d| == 64)
    ensures PrintedDigest(None) == "None" && PrintedDigest(Some(d)) == d && PrintedDigest(None) != d
  {
    assert |"None"| == 4;
  }

  function BoundOf(r: Row): Bound {
    if r.inputsDigest.None? then
      Bound(r.id, r.session, r.action, r.tool, r.cost, r.timestamp, r.prevHash,
            r.inputsJson, r.outputsJson)
    else
      Bound(r.id, r.session, r.action, r.tool, r.cost, r.timestamp, r.prevHash,
            r.inputsDigest.value, PrintedDigest(r.outputsDigest))
  }

  /** The colon-joined text of both hash formulas. */
  function Payload(h: Hasher, b: Bound): string {
    Decimal(b.id) + ":" + Middle(h, b)
  }

  function Middle(h: Hasher, b: Bound): string {
    b.session + ":" + b.action + ":" + b.tool + ":" + Decimal(b.cost) + ":"
    + h.repr(b.timestamp) + ":" + b.prevHash + ":" + b.left + ":" + b.right
  }

  function ExpectedHash(h: Hasher, r: Row): string {
    h.sha(Payload(h, BoundOf(r)))
  }

  predicate ColonFree(b: Bound) {
    ':' !in b.action && ':' !in b.tool && ':' !in b.left && ':' !in b.right
  }

  lemma {:induction false} SplitAtFirstColon(a: string, x: string, b: string, y: string)
    requires ':' !in a && ':' !in b && a + ":" + x == b + ":" + y
    ensures a == b && x == y
  {
    var s, t := a + ":" + x, b + ":" + y;
    assert s[0] == t[0];
    if a == [] && b == [] {
      assert s[1..] == x && t[1..] == y;
    } else if a != [] && b != [] {
      assert s[1..] == a[1..] + ":" + x && t[1..] == b[1..] + ":" + y;
      SplitAtFirstColon(a[1..], x, b[1..], y);
      assert a == [a[0]] + a[1..] && b == [b[0]] + b[1..];
    }
  }

  lemma {:induction false} SplitAtLastColon(a: string, x: string, b: string, y: string)
    requires ':' !in x && ':' !in y && a + ":" + x == b + ":" + y
    ensures a == b && x == y
  {
    var s, t := a + ":" + x, b + ":" + y;
    var n := |s| - 1;
    assert s[n] == t[n] && s[..n] == t[..n];
    if x == [] && y == [] {
      assert s[..n] == a && t[..n] == b;
    } else if x != [] && y != [] {
      var x', y' := x[..|x| - 1], y[..|y| - 1];
      assert s[..n] == a + ":" + x' && t[..n] == b + ":" + y';
      SplitAtLastColon(a, x', b, y');
      assert x == x' + [s[n]] && y == y' + [t[n]];
    }
  }

  /** Equal payloads bind equal fields when neither row has a colon in its free-text fields;
      session ids may contain colons, since the fields around them are read from both ends. */
  lemma {:induction false} PayloadBindsFields(h: Hasher, a: Bound, b: Bound)
    requires h.Valid() && Payload(h, a) == Payload(h, b)
    requires ':' !in a.prevHash && ':' !in b.prevHash
    requires ColonFree(a) && ColonFree(b)
    ensures a == b
  {
    DecimalColonFree(a.id);
    DecimalColonFree(b.id);
    SplitAtFirstColon(Decimal(a.id), Middle(h, a), Decimal(b.id), Middle(h, b));
    DecimalInjective(a.id, b.id);
    MiddleBindsFields(h, a, b);
  }

  lemma {:induction false} MiddleBindsFields(h: Hasher, a: Bound, b: Bound)
    requires h.Valid() && Middle(h, a) == Middle(h, b)
    requires ':' !in a.prevHash && ':' !in b.prevHash
    requires ColonFree(a) && ColonFree(b)
    ensures a.(id := 0) == b.(id := 0)
  {
    var a1, b1 := a.session + ":" + a.action, b.session + ":" + b.action;
    var a2, b2 := a1 + ":" + a.tool, b1 + ":" + b.tool;
    var a3, b3 := a2 + ":" + Decimal(a.cost), b2 + ":" + Decimal(b.cost);
    var a4, b4 := a3 + ":" + h.repr(a.timestamp), b3 + ":" + h.repr(b.timestamp);
    var a5, b5 := a4 + ":" + a.prevHash, b4 + ":" + b.prevHash;
    var a6, b6 := a5 + ":" + a.left, b5 + ":" + b.left;
    SplitAtLastColon(a6, a.right, b6, b.right);
    SplitAtLastColon(a5, a.left, b5, b.left);
    SplitAtLastColon(a4, a.prevHash, b4, b.prevHash);
    SplitAtLastColon(a3, h.repr(a.timestamp), b3, h.repr(b.timestamp));
    DecimalColonFree(a.cost);
    DecimalColonFree(b.cost);
    SplitAtLastColon(a2, Decimal(a.cost), b2, Decimal(b.cost));
    DecimalInjective(a.cost, b.cost);
    SplitAtLastColon(a1, a.tool, b1, b.tool);
    SplitAtLastColon(a.session, a.action, b.session, b.action);
  }

  function Colons(s: string): (n: nat)
    ensures n == 0 <==> ':' !in s
  {
    if s == [] then 0 else (if s[0] == ':' then 1 else 0) + Colons(s[1..])
  }

  function FreeColons(b: Bound): nat {
    Colons(b.action) + Colons(b.tool) + Colons(b.left) + Colons(b.right)
  }

  lemma {:induction false} PayloadColons(h: Hasher, b: Bound)
    requires h.Valid() && ':' !in b.prevHash
    ensures Colons(Payload(h, b)) ==
            8 + Colons(b.session) + FreeColons(b)
  {
    DecimalColonFree(b.id);
    DecimalColonFree(b.cost);
    var a1 := b.session + ":" + b.action;
    var a2 := a1 + ":" + b.tool;
    var a3 := a2 + ":" + Decimal(b.cost);
    var a4 := a3 + ":" + h.repr(b.timestamp);
    var a5 := a4 + ":" + b.prevHash;
    var a6 := a5 + ":" + b.left;
    ColonsJoin(b.session, b.action);
    ColonsJoin(a1, b.tool);
    ColonsJoin(a2, Decimal(b.cost));
    ColonsJoin(a3, h.repr(b.timestamp));
    ColonsJoin(a4, b.prevHash);
    ColonsJoin(a5, b.left);
    ColonsJoin(a6, b.right);
    ColonsJoin(Decimal(b.id), Middle(h, b));
  }

  lemma {:induction false} ColonsJoin(a: string, b: string)
    ensures Colons(a + ":" + b) == Colons(a) + 1 + Colons(b)
  {
    if a == [] {
      assert (a + ":" + b)[1..] == b;
    } else {
      assert (a + ":" + b)[1..] == a[1..] + ":" + b;
      ColonsJoin(a[1..], b);
    }
  }

  /** Colons are counted, so one colon-free row makes every row with its payload colon-free. */
  lemma {:induction false} ColonFreeSpreads(h: Hasher, a: Bound, b: Bound)
    requires h.Valid() && Payload(h, a) == Payload(h, b)
    requires ':' !in a.prevHash && ':' !in b.prevHash
    requires ColonFree(a) && (a.session == b.session || ':' !in a.session)
    ensures ColonFree(b)
  {
    PayloadColons(h, a);
    PayloadColons(h, b);
  }

  /** The payload of a row determines every bound field, among rows of its session, exactly
      when the row's action type, tool name and two bound texts contain no colon. */
  lemma {:induction false} PayloadBindsFieldsIff(h: Hasher, a: Bound)
    requires h.Valid() && ':' !in a.prevHash
    ensures ColonFree(a) <==>
            (forall b: Bound | b.session == a.session && ':' !in b.prevHash && Payload(h, b) == Payload(h, a)
             :: b == a)
  {
    if ColonFree(a) {
      forall b: Bound | b.session == a.session && ':' !in b.prevHash && Payload(h, b) == Payload(h, a)
        ensures b == a
      {
        ColonFreeSpreads(h, a, b);
        PayloadBindsFields(h, a, b);
      }
    } else {
      var b := Shifted(h, a);
      assert Payload(h, b) == Payload(h, a) && b != a;
    }
  }

  /** Among the rows of all sessions it does so exactly when the session id has no colon either. */
  lemma {:induction false} PayloadBindsRowIff(h: Hasher, a: Bound)
    requires h.Valid() && ':' !in a.prevHash
    ensures ColonFree(a) && ':' !in a.session <==>
            (forall b: Bound | ':' !in b.prevHash && Payload(h, b) == Payload(h, a) :: b == a)
  {
    if !ColonFree(a) {
      var b := Shifted(h, a);
      assert Payload(h, b) == Payload(h, a) && b != a;
    } else if ':' in a.session {
      var b := ShiftedSession(h, a);
      assert Payload(h, b) == Payload(h, a) && b != a;
    } else {
      forall b: Bound | ':' !in b.prevHash && Payload(h, b) == Payload(h, a) ensures b == a {
        ColonFreeSpreads(h, a, b);
        PayloadBindsFields(h, a, b);
      }
    }
  }

  /** A row whose session id has a colon shares its payload with a row of another session. */
  lemma {:induction false} ShiftedSession(h: Hasher, a: Bound) returns (b: Bound)
    requires ':' in a.session
    ensures b.session != a.session && b.prevHash == a.prevHash
    ensures Payload(h, b) == Payload(h, a)
  {
    var i :| 0 <= i < |a.session| && a.session[i] == ':';
    b := a.(session := a.session[..i], action := a.session[i + 1..] + ":" + a.action);
    assert a.session == b.session + ":" + a.session[i + 1..];
    assert b.session + ":" + b.action == a.session + ":" + a.action;
  }

  /** A row with a colon in a free-text field shares its payload with another row. */
  lemma {:induction false} Shifted(h: Hasher, a: Bound) returns (b: Bound)
    requires !ColonFree(a)
    ensures b != a && b.session == a.session && b.prevHash == a.prevHash
    ensures Payload(h, b) == Payload(h, a)
  {
    if ':' in a.action || ':' in a.tool {
      var x, y := Reparted(a.action, a.tool);
      b := a.(action := x, tool := y);
      SameActionTool(h, a, b);
    } else {
      var x, y := Reparted(a.left, a.right);
      b := a.(left := x, right := y);
      SameTexts(h, a, b);
    }
  }

  /** Two texts joined by a colon, at least one of them with a colon inside, can be parted elsewhere. */
  lemma {:induction false} Reparted(x: string, y: string) returns (u: string, v: string)
    requires ':' in x || ':' in y
    ensures u != x && u + ":" + v == x + ":" + y
  {
    if ':' in x {
      var i :| 0 <= i < |x| && x[i] == ':';
      u, v := x[..i], x[i + 1..] + ":" + y;
      assert x == u + ":" + x[i + 1..];
    } else {
      var i :| 0 <= i < |y| && y[i] == ':';
      u, v := x + ":" + y[..i], y[i + 1..];
      assert y == y[..i] + ":" + v;
    }
  }

  lemma {:induction false} Regroup(start: string, x: string, y: string)
    ensures start + x + ":" + y == start + (x + ":" + y)
  {
  }

  lemma {:induction false} SameActionTool(h: Hasher, a: Bound, b: Bound)
    requires b == a.(action := b.action, tool := b.tool)
    requires b.action + ":" + b.tool == a.action + ":" + a.tool
    ensures Payload(h, b) == Payload(h, a)
  {
    Regroup(a.session + ":", a.action, a.tool);
    Regroup(a.session + ":", b.action, b.tool);
  }

  lemma {:induction false} SameTexts(h: Hasher, a: Bound, b: Bound)
    requires b == a.(left := b.left, right := b.right)
    requires b.left + ":" + b.right == a.left + ":" + a.right
    ensures Payload(h, b) == Payload(h, a)
  {
    var start := a.session + ":" + a.action + ":" + a.tool + ":" + Decimal(a.cost)
                 + ":" + h.repr(a.timestamp) + ":" + a.prevHash + ":";
    Regroup(start, a.left, a.right);
    Regroup(start, b.left, b.right);
  }

  // ----- the verdict -------------------------------------------------------------------------

  /** Row `i` continues the one before it and hashes to its own recorded hash. */
  predicate LinkedAt(h: Hasher, rows: seq<Row>, i: nat)
    requires i < |rows|
  {
    && rows[i].prevHash == (if i == 0 then "" else rows[i - 1].rowHash)
    && rows[i].rowHash == ExpectedHash(h, rows[i])
  }

  predicate Links(h: Hasher, rows: seq<Row>) {
    forall i :: 0 <= i < |rows| ==> LinkedAt(h, rows, i)
  }

  /** The recorded head, when there is one, counts the rows and names the last of them. */
  predicate HeadFits(rows: seq<Row>, head: Option<Head>) {
    head.Some? ==>
      && |rows| == head.value.count
      && (rows != [] ==>
            && rows[|rows| - 1].rowHash == head.value.lastHash
            && rows[|rows| - 1].id == head.value.lastId)
  }

  predicate ChainOk(h: Hasher, rows: seq<Row>, head: Option<Head>) {
    Links(h, rows) && HeadFits(rows, head)
  }

  /** The walk of `verify_chain` over a session's rows in id order. It keeps going after a
      failure, and its verdict is the conjunction of all the checks. */
  method VerifyRows(h: Hasher, rows: seq<Row>, head: Option<Head>) returns (ok: bool)
    ensures ok <==> ChainOk(h, rows, head)
  {
    ok := true;
    if head.Some? {
      if |rows| != head.value.count {
        ok := false;
      } else if rows != [] && (rows[|rows| - 1].rowHash != head.value.lastHash
                               || rows[|rows| - 1].id != head.value.lastId) {
        ok := false;
      }
    }
    var expectedPrev := "";
    for i := 0 to |rows|
      invariant expectedPrev == if i == 0 then "" else rows[i - 1].rowHash
      invariant ok <==> HeadFits(rows, head) && Links(h, rows[..i])
    {
      var r := rows[i];
      LinksStep(h, rows, i);
      if r.prevHash != expectedPrev {
        ok := false;
      }
      expectedPrev := r.rowHash;
      if ExpectedHash(h, r) != r.rowHash {
        ok := false;
      }
    }
    assert rows[..|rows|] == rows;
  }

  lemma {:induction false} LinksStep(h: Hasher, rows: seq<Row>, i: nat)
    requires i < |rows|
    ensures Links(h, rows[..i + 1]) <==> Links(h, rows[..i]) && LinkedAt(h, rows, i)
  {
    var s, t := rows[..i + 1], rows[..i];
    assert forall k :: 0 <= k < i ==> LinkedAt(h, s, k) == LinkedAt(h, t, k);
    assert LinkedAt(h, s, i) == LinkedAt(h, rows, i);
  }

  // ----- one head, one history ---------------------------------------------------------------

  ghost function Payloads(h: Hasher, rows: seq<Row>): set<string> {
    set i | 0 <= i < |rows| :: Payload(h, BoundOf(rows[i]))
  }

  /** In a linked chain every `prev_hash` is empty or a digest, so it has no colon. */
  lemma {:induction false} LinkTextColonFree(h: Hasher, rows: seq<Row>, i: nat)
    requires h.Valid() && Links(h, rows) && i < |rows|
    ensures ':' !in rows[i].prevHash
  {
    assert LinkedAt(h, rows, i);
    if i > 0 {
      assert LinkedAt(h, rows, i - 1);
    }
  }

  /** `a` and `b` are linked, equally long rows of one session, `a` has no colon in its free
      texts, and no two of their payloads collide. */
  ghost predicate Comparable(h: Hasher, a: seq<Row>, b: seq<Row>) {
    && h.Valid() && Links(h, a) && Links(h, b) && |a| == |b|
    && (forall i :: 0 <= i < |a| ==> a[i].session == b[i].session && ColonFree(BoundOf(a[i])))
    && CollisionFreeOn(h.sha, Payloads(h, a) + Payloads(h, b))
  }

  /** If two rows have one hash, so have the rows before them. */
  predicate StepsBack(a: seq<Row>, b: seq<Row>, k: nat) {
    k + 1 < |a| && k + 1 < |b| && a[k + 1].rowHash == b[k + 1].rowHash ==> a[k].rowHash == b[k].rowHash
  }

  lemma {:induction false} HashesAgreeBackwards(a: seq<Row>, b: seq<Row>, i: nat)
    requires |a| == |b| && i < |a| && a[|a| - 1].rowHash == b[|b| - 1].rowHash
    requires forall k: nat :: StepsBack(a, b, k)
    ensures a[i].rowHash == b[i].rowHash
    decreases |a| - i
  {
    if i < |a| - 1 {
      HashesAgreeBackwards(a, b, i + 1);
      assert StepsBack(a, b, i);
    }
  }

  /** Comparable rows ending in the same hash agree from the end backwards. */
  lemma {:induction false} ChainsAgreeBackwards(h: Hasher, a: seq<Row>, b: seq<Row>, i: nat)
    requires Comparable(h, a, b) && i < |a|
    requires a[|a| - 1].rowHash == b[|b| - 1].rowHash
    ensures a[i].rowHash == b[i].rowHash && BoundOf(a[i]) == BoundOf(b[i])
  {
    forall k: nat ensures StepsBack(a, b, k) {
      if k + 1 < |a| && a[k + 1].rowHash == b[k + 1].rowHash {
        HashStepBack(h, a, b, k);
      }
    }
    HashesAgreeBackwards(a, b, i);
    RowsAgree(h, a, b, i);
  }

  lemma {:induction false} HashStepBack(h: Hasher, a: seq<Row>, b: seq<Row>, k: nat)
    requires Comparable(h, a, b) && k + 1 < |a| && a[k + 1].rowHash == b[k + 1].rowHash
    ensures a[k].rowHash == b[k].rowHash
  {
    RowsAgree(h, a, b, k + 1);
    assert LinkedAt(h, a, k + 1) && LinkedAt(h, b, k + 1);
    assert BoundOf(a[k + 1]).prevHash == BoundOf(b[k + 1]).prevHash;
  }

  lemma {:induction false} RowsAgree(h: Hasher, a: seq<Row>, b: seq<Row>, i: nat)
    requires Comparable(h, a, b) && i < |a|
    requires a[i].rowHash == b[i].rowHash
    ensures BoundOf(a[i]) == BoundOf(b[i])
  {
    LinkTextColonFree(h, a, i);
    LinkTextColonFree(h, b, i);
    assert LinkedAt(h, a, i) && LinkedAt(h, b, i);
    HashBindsFields(h, BoundOf(a[i]), BoundOf(b[i]), Payloads(h, a) + Payloads(h, b));
  }

  /** Equal hashes bind equal fields, collisions aside. */
  lemma {:induction false} HashBindsFields(h: Hasher, x: Bound, y: Bound, hashed: set<string>)
    requires h.Valid() && CollisionFreeOn(h.sha, hashed)
    requires Payload(h, x) in hashed && Payload(h, y) in hashed
    requires h.sha(Payload(h, x)) == h.sha(Payload(h, y))
    requires ':' !in x.prevHash && ':' !in y.prevHash
    requires ColonFree(x) && (ColonFree(y) || x.session == y.session || ':' !in x.session)
    ensures x == y
  {
    if !ColonFree(y) {
      ColonFreeSpreads(h, x, y);
    }
    PayloadBindsFields(h, x, y);
  }

  /** Two chains of a session that pass `verify_chain` against the same head hold the same
      history: as many rows, and row by row the same recorded hash and the same bound fields.
      Only one of the two has to be free of colons, for instance the one that was written. */
  lemma {:induction false} SameHeadSameHistory(h: Hasher, a: seq<Row>, b: seq<Row>, head: Head)
    requires h.Valid()
    requires ChainOk(h, a, Some(head)) && ChainOk(h, b, Some(head))
    requires forall i, j :: 0 <= i < |a| && 0 <= j < |b| ==> a[i].session == b[j].session
    requires forall i :: 0 <= i < |a| ==> ColonFree(BoundOf(a[i]))
    requires CollisionFreeOn(h.sha, Payloads(h, a) + Payloads(h, b))
    ensures |a| == |b|
    ensures forall i :: 0 <= i < |a| ==>
              a[i].rowHash == b[i].rowHash && BoundOf(a[i]) == BoundOf(b[i])
  {
    assert Comparable(h, a, b);
    forall i | 0 <= i < |a|
      ensures a[i].rowHash == b[i].rowHash && BoundOf(a[i]) == BoundOf(b[i])
    {
      ChainsAgreeBackwards(h, a, b, i);
    }
  }

  // ----- redaction ---------------------------------------------------------------------------

  /** `b` is `a` with other JSON texts and errors in its digest-bearing rows. */
  predicate RedactionOf(a: seq<Row>, b: seq<Row>) {
    |a| == |b| && forall i :: 0 <= i < |a| ==>
      b[i] == a[i] || (a[i].inputsDigest.Some? &&
        b[i] == a[i].(inputsJson := b[i].inputsJson, outputsJson := b[i].outputsJson, error := b[i].error))
  }

  /** Rewriting the payload texts or the error of digest-bearing rows never changes the
      verdict, whichever way it went. */
  lemma {:induction false} RedactionKeepsVerdict(h: Hasher, a: seq<Row>, b: seq<Row>, head: Option<Head>)
    requires RedactionOf(a, b)
    ensures ChainOk(h, a, head) <==> ChainOk(h, b, head)
  {
    forall i | 0 <= i < |a| ensures LinkedAt(h, a, i) <==> LinkedAt(h, b, i) {
      assert BoundOf(b[i]) == BoundOf(a[i]);
    }
  }

  // ----- versions ----------------------------------------------------------------------------

  /** The row in the other version with the same bound fields: digests written as JSON texts, or
      JSON texts as digests. */
  function OtherVersion(r: Row): Row {
    if r.inputsDigest.Some? then
      r.(inputsJson := r.inputsDigest.value, outputsJson := PrintedDigest(r.outputsDigest),
         inputsDigest := None, outputsDigest := None)
    else
      r.(inputsDigest := Some(r.inputsJson), outputsDigest := Some(r.outputsJson))
  }

  /** The hash does not bind the version of a row: rewriting any rows of a chain in the other version
      never changes the verdict. */
  lemma {:induction false} VersionsKeepVerdict(h: Hasher, a: seq<Row>, b: seq<Row>, head: Option<Head>)
    requires |a| == |b|
    requires forall i :: 0 <= i < |a| ==> b[i] == a[i] || b[i] == OtherVersion(a[i])
    ensures ChainOk(h, a, head) <==> ChainOk(h, b, head)
    ensures forall i :: 0 <= i < |a| && b[i] == OtherVersion(a[i]) ==>
              b[i].inputsDigest.Some? != a[i].inputsDigest.Some?
  {
    forall i | 0 <= i < |a| ensures LinkedAt(h, a, i) <==> LinkedAt(h, b, i) {
      assert BoundOf(b[i]) == BoundOf(a[i]);
    }
  }

  /** What both formulas write: the inputs of an old row are a JSON object, while a digest never
      starts with a brace. */
  predicate ShowsVersion(r: Row) {
    if r.inputsDigest.None? then r.inputsJson != [] && r.inputsJson[0] == '{'
    else r.inputsDigest.value == [] || r.inputsDigest.value[0] != '{'
  }

  /** Where every row shows its version and one of the chains has no colon in its free texts, one head
      also fixes the version of every row. Such a chain is in effect one of current rows. */
  lemma {:induction false} SameHeadSameVersions(h: Hasher, a: seq<Row>, b: seq<Row>, head: Head)
    requires h.Valid()
    requires ChainOk(h, a, Some(head)) && ChainOk(h, b, Some(head))
    requires forall i, j :: 0 <= i < |a| && 0 <= j < |b| ==> a[i].session == b[j].session
    requires forall i :: 0 <= i < |a| ==> ColonFree(BoundOf(a[i])) && ShowsVersion(a[i])
    requires forall i :: 0 <= i < |b| ==> ShowsVersion(b[i])
    requires CollisionFreeOn(h.sha, Payloads(h, a) + Payloads(h, b))
    ensures |a| == |b|
    ensures forall i :: 0 <= i < |a| ==> (a[i].inputsDigest.Some? <==> b[i].inputsDigest.Some?)
  {
    SameHeadSameHistory(h, a, b, head);
    forall i | 0 <= i < |a| ensures a[i].inputsDigest.Some? <==> b[i].inputsDigest.Some? {
      assert BoundOf(a[i]).left == BoundOf(b[i]).left;
    }
  }

  // ----- chains with old rows -----------------------------------------------------------------

  predicate NamesColonFree(r: Row) {
    ':' !in r.action && ':' !in r.tool
  }

  /** What follows the session id in the payload, read from the left. */
  function AfterSession(h: Hasher, b: Bound): string {
    b.action + ":" + (b.tool + ":" + AfterNames(h, b))
  }

  function AfterNames(h: Hasher, b: Bound): string {
    Decimal(b.cost) + ":" + (h.repr(b.timestamp) + ":" + (b.prevHash + ":" + (b.left + ":" + b.right)))
  }

  lemma {:induction false} MiddleFromLeft(h: Hasher, b: Bound)
    ensures Middle(h, b) == b.session + ":" + AfterSession(h, b)
  {
    var c, t, p := Decimal(b.cost), h.repr(b.timestamp), b.prevHash;
    var start := b.session + ":" + b.action + ":" + b.tool + ":";
    Regroup(start + c + ":" + t + ":" + p + ":", b.left, b.right);
    Regroup(start + c + ":" + t + ":", p, b.left + ":" + b.right);
    Regroup(start + c + ":", t, p + ":" + (b.left + ":" + b.right));
    Regroup(start, c, t + ":" + (p + ":" + (b.left + ":" + b.right)));
    Regroup(b.session + ":" + b.action + ":", b.tool, AfterNames(h, b));
    Regroup(b.session + ":", b.action, b.tool + ":" + AfterNames(h, b));
  }

  /** Read from the left, a payload gives every field but the last two, whatever these contain. */
  lemma {:induction false} PayloadFromLeft(h: Hasher, a: Bound, b: Bound)
    requires h.Valid() && Payload(h, a) == Payload(h, b) && a.session == b.session
    requires ':' !in a.action && ':' !in a.tool && ':' !in a.prevHash
    requires ':' !in b.action && ':' !in b.tool && ':' !in b.prevHash
    ensures a.(left := "", right := "") == b.(left := "", right := "")
    ensures a.left + ":" + a.right == b.left + ":" + b.right
  {
    DecimalColonFree(a.id);
    DecimalColonFree(b.id);
    SplitAtFirstColon(Decimal(a.id), Middle(h, a), Decimal(b.id), Middle(h, b));
    DecimalInjective(a.id, b.id);
    MiddleFromLeft(h, a);
    MiddleFromLeft(h, b);
    assert Middle(h, a)[|a.session| + 1..] == AfterSession(h, a);
    assert Middle(h, b)[|b.session| + 1..] == AfterSession(h, b);
    SplitAtFirstColon(a.action, a.tool + ":" + AfterNames(h, a), b.action, b.tool + ":" + AfterNames(h, b));
    SplitAtFirstColon(a.tool, AfterNames(h, a), b.tool, AfterNames(h, b));
    NumbersFromLeft(h, a, b);
  }

  lemma {:induction false} NumbersFromLeft(h: Hasher, a: Bound, b: Bound)
    requires h.Valid() && AfterNames(h, a) == AfterNames(h, b)
    requires ':' !in a.prevHash && ':' !in b.prevHash
    ensures a.cost == b.cost && a.timestamp == b.timestamp && a.prevHash == b.prevHash
    ensures a.left + ":" + a.right == b.left + ":" + b.right
  {
    var x, y := a.left + ":" + a.right, b.left + ":" + b.right;
    DecimalColonFree(a.cost);
    DecimalColonFree(b.cost);
    SplitAtFirstColon(Decimal(a.cost), h.repr(a.timestamp) + ":" + (a.prevHash + ":" + x),
                      Decimal(b.cost), h.repr(b.timestamp) + ":" + (b.prevHash + ":" + y));
    DecimalInjective(a.cost, b.cost);
    SplitAtFirstColon(h.repr(a.timestamp), a.prevHash + ":" + x, h.repr(b.timestamp), b.prevHash + ":" + y);
    SplitAtFirstColon(a.prevHash, x, b.prevHash, y);
  }

  /** Two rows that cannot be mistaken for each other: same id, names, numbers, link and version; the
      joined texts agree, and so does each of them in a row with digests. */
  predicate SameRecord(a: Row, b: Row) {
    var x, y := BoundOf(a), BoundOf(b);
    && a.rowHash == b.rowHash && x.(left := "", right := "") == y.(left := "", right := "")
    && x.left + ":" + x.right == y.left + ":" + y.right
    && (a.inputsDigest.Some? <==> b.inputsDigest.Some?)
    && (a.inputsDigest.Some? && ':' !in x.left && ':' !in y.left ==> x == y)
  }

  lemma {:induction false} VersionFromText(a: Row, b: Row)
    requires ShowsVersion(a) && ShowsVersion(b)
    requires BoundOf(a).left + ":" + BoundOf(a).right == BoundOf(b).left + ":" + BoundOf(b).right
    ensures a.inputsDigest.Some? <==> b.inputsDigest.Some?
  {
    var x, y := BoundOf(a).left + ":" + BoundOf(a).right, BoundOf(b).left + ":" + BoundOf(b).right;
    assert x[0] == (if BoundOf(a).left == [] then ':' else BoundOf(a).left[0]);
    assert y[0] == (if BoundOf(b).left == [] then ':' else BoundOf(b).left[0]);
  }

  /** Linked rows of one session whose names have no colon and whose texts show their versions. */
  ghost predicate Readable(h: Hasher, session: string, rows: seq<Row>) {
    Links(h, rows) && forall i :: 0 <= i < |rows| ==>
      rows[i].session == session && NamesColonFree(rows[i]) && ShowsVersion(rows[i])
  }

  ghost predicate ReadablePair(h: Hasher, session: string, a: seq<Row>, b: seq<Row>) {
    && h.Valid() && Readable(h, session, a) && Readable(h, session, b) && |a| == |b|
    && CollisionFreeOn(h.sha, Payloads(h, a) + Payloads(h, b))
  }

  lemma {:induction false} ReadableRowsAgree(h: Hasher, session: string, a: seq<Row>, b: seq<Row>, i: nat)
    requires ReadablePair(h, session, a, b) && i < |a| && a[i].rowHash == b[i].rowHash
    ensures SameRecord(a[i], b[i])
  {
    LinkTextColonFree(h, a, i);
    LinkTextColonFree(h, b, i);
    assert LinkedAt(h, a, i) && LinkedAt(h, b, i);
    var x, y := BoundOf(a[i]), BoundOf(b[i]);
    assert Payload(h, x) in Payloads(h, a) && Payload(h, y) in Payloads(h, b);
    PayloadFromLeft(h, x, y);
    VersionFromText(a[i], b[i]);
    if ':' !in x.left && ':' !in y.left {
      SplitAtFirstColon(x.left, x.right, y.left, y.right);
    }
  }

  lemma {:induction false} ReadableStepBack(h: Hasher, session: string, a: seq<Row>, b: seq<Row>, k: nat)
    requires ReadablePair(h, session, a, b) && k + 1 < |a| && a[k + 1].rowHash == b[k + 1].rowHash
    ensures a[k].rowHash == b[k].rowHash
  {
    ReadableRowsAgree(h, session, a, b, k + 1);
    assert LinkedAt(h, a, k + 1) && LinkedAt(h, b, k + 1);
    assert BoundOf(a[k + 1]).prevHash == BoundOf(b[k + 1]).prevHash;
  }

  /** Chains of old rows, current rows or both, whose names have no colon and whose texts show their
      versions: one head fixes the version of every row as well, although an old row with a member in
      its JSON has a colon and its two texts are only fixed as they stand joined. */
  lemma {:induction false} SameHeadSameRecords(h: Hasher, session: string, a: seq<Row>, b: seq<Row>, head: Head)
    requires h.Valid() && Readable(h, session, a) && Readable(h, session, b)
    requires ChainOk(h, a, Some(head)) && ChainOk(h, b, Some(head))
    requires CollisionFreeOn(h.sha, Payloads(h, a) + Payloads(h, b))
    ensures |a| == |b| && forall i :: 0 <= i < |a| ==> SameRecord(a[i], b[i])
  {
    assert ReadablePair(h, session, a, b);
    forall k: nat ensures StepsBack(a, b, k) {
      if k + 1 < |a| && a[k + 1].rowHash == b[k + 1].rowHash {
        ReadableStepBack(h, session, a, b, k);
      }
    }
    forall i | 0 <= i < |a| ensures SameRecord(a[i], b[i]) {
      HashesAgreeBackwards(a, b, i);
      ReadableRowsAgree(h, session, a, b, i);
    }
  }
}
