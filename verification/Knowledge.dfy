/** Permission filter and two-stage deduplication of retrieved rows (knowledge_backbone.py). */
module Knowledge {
  import opened Common

  /** Any shape but a dictionary gives no access; `principals` is absent when it is no collection. */
  datatype Snapshot = NoSnapshot | Snapshot(isPublic: bool, principals: Option<set<string>>)

  /** The members the pipeline reads; `rest` stands for those it passes through. */
  datatype Row = Row(
    drive: Option<string>, file: Option<string>, contentHash: Option<string>, classification: Option<string>,
    score: Option<real>, snapshot: Snapshot, rest: string)

  function Score(r: Row): real {
    OrElse(r.score, 0.0)
  }

  predicate IsCanonical(r: Row) {
    r.classification == Some("canonical")
  }

  // ----- permission filter ----------------------------------------------------------------------

  predicate HasAccess(s: Snapshot, principal: string) {
    s.Snapshot? && (s.isPublic || (s.principals.Some? && principal in s.principals.value))
  }

  predicate Accessible(r: Row, principal: Option<string>) {
    principal.Some? && principal.value != "" && HasAccess(r.snapshot, principal.value)
  }

  function Access(principal: Option<string>): Row -> bool {
    (r: Row) => Accessible(r, principal)
  }

  function FilterByPermission(rows: seq<Row>, principal: Option<string>): (out: seq<Row>)
    ensures forall r :: r in out <==> r in rows && Accessible(r, principal)
    ensures forall r :: r in out <==>
              && r in rows && principal.Some? && principal.value != "" && r.snapshot.Snapshot?
              && (r.snapshot.isPublic
                  || (r.snapshot.principals.Some? && principal.value in r.snapshot.principals.value))
  {
    if principal.None? || principal.value == "" then []
    else Filter(rows, Access(principal))
  }

  lemma {:induction false} PermissionIsFilter(rows: seq<Row>, principal: Option<string>)
    ensures FilterByPermission(rows, principal) == Filter(rows, Access(principal))
  {
    if principal.None? || principal.value == "" {
      FilterNone(rows, Access(principal));
    }
  }

  // ----- the two stages, declaratively -------------------------------------------------------------

  datatype Stage = ByIdentity | ByContent

  datatype Key = IdentityKey(drive: Option<string>, file: Option<string>) | ContentKey(hash: Option<string>)

  function KeyOf(stage: Stage, r: Row): Key {
    match stage
    case ByIdentity => IdentityKey(r.drive, r.file)
    case ByContent => ContentKey(r.contentHash)
  }

  function Keys(stage: Stage, rows: seq<Row>): (ks: seq<Key>)
    ensures |ks| == |rows| && forall i :: 0 <= i < |rows| ==> ks[i] == KeyOf(stage, rows[i])
  {
    if rows == [] then [] else Keys(stage, rows[..|rows| - 1]) + [KeyOf(stage, rows[|rows| - 1])]
  }

  function HasKey(stage: Stage, k: Key): Row -> bool {
    (r: Row) => KeyOf(stage, r) == k
  }

  function Group(stage: Stage, rows: seq<Row>, k: Key): (g: seq<Row>)
    ensures forall r :: r in g <==> r in rows && KeyOf(stage, r) == k
  {
    Filter(rows, HasKey(stage, k))
  }

  /** `b` is the earliest of the rows with the highest score. */
  ghost predicate IsBest(rows: seq<Row>, b: Row) {
    exists i :: 0 <= i < |rows| && IsBestAt(rows, b, i)
  }

  ghost predicate IsBestAt(rows: seq<Row>, b: Row, i: int)
    requires 0 <= i < |rows|
  {
    && rows[i] == b
    && (forall j :: 0 <= j < |rows| ==> Score(rows[j]) <= Score(b))
    && (forall j :: 0 <= j < i ==> Score(rows[j]) < Score(b))
  }

  function Best(rows: seq<Row>): (b: Row)
    requires rows != []
    ensures IsBest(rows, b) && b in rows
  {
    var last := rows[|rows| - 1];
    if |rows| == 1 then
      assert IsBestAt(rows, last, 0);
      last
    else
      var front := rows[..|rows| - 1];
      var b := Best(front);
      ghost var i :| 0 <= i < |front| && IsBestAt(front, b, i);
      assert Score(last) <= Score(b) ==> IsBestAt(rows, b, i);
      assert Score(last) > Score(b) ==> IsBestAt(rows, last, |rows| - 1);
      if Score(last) > Score(b) then last else b
  }

  /** The description has one solution, so it is a full specification. */
  lemma {:induction false} BestUnique(rows: seq<Row>, a: Row, b: Row)
    requires IsBest(rows, a) && IsBest(rows, b)
    ensures a == b
  {
    var i :| 0 <= i < |rows| && IsBestAt(rows, a, i);
    var j :| 0 <= j < |rows| && IsBestAt(rows, b, j);
    assert Score(rows[j]) <= Score(a) && Score(rows[i]) <= Score(b);
  }

  function IsCanonicalTest(): Row -> bool {
    (r: Row) => IsCanonical(r)
  }

  function Canonical(rows: seq<Row>): (c: seq<Row>)
    ensures forall r :: r in c <==> r in rows && IsCanonical(r)
  {
    Filter(rows, IsCanonicalTest())
  }

  /** The row that stands for a group. */
  function Pick(stage: Stage, group: seq<Row>): (r: Row)
    requires group != []
    ensures r in group
  {
    if stage.ByContent? && Canonical(group) != [] then Best(Canonical(group)) else Best(group)
  }

  /** The pick of the rows with a key, if there are any. */
  function PickFor(stage: Stage, rows: seq<Row>, k: Key): Option<Row> {
    var g := Group(stage, rows, k);
    if g == [] then None else Some(Pick(stage, g))
  }

  function PickList(stage: Stage, rows: seq<Row>, ks: seq<Key>): (os: seq<Option<Row>>)
    ensures |os| == |ks| && forall i :: 0 <= i < |ks| ==> os[i] == PickFor(stage, rows, ks[i])
  {
    if ks == [] then [] else PickList(stage, rows, ks[..|ks| - 1]) + [PickFor(stage, rows, ks[|ks| - 1])]
  }

  /** The picks of the listed keys, in that order. */
  function Picks(stage: Stage, rows: seq<Row>, ks: seq<Key>): seq<Row> {
    Somes(PickList(stage, rows, ks))
  }

  /** One pick per key, keys in the order they were first seen. */
  function Dedup(stage: Stage, rows: seq<Row>): seq<Row> {
    Picks(stage, rows, FirstSeen(Keys(stage, rows)))
  }

  function Resolve(rows: seq<Row>, principal: Option<string>): seq<Row> {
    Dedup(ByContent, Dedup(ByIdentity, FilterByPermission(rows, principal)))
  }

  // ----- the dictionary-and-order loops ---------------------------------------------------------------

  lemma {:induction false} KeysStep(stage: Stage, seen: seq<Row>, row: Row)
    ensures Keys(stage, seen + [row]) == Keys(stage, seen) + [KeyOf(stage, row)]
    ensures FirstSeen(Keys(stage, seen + [row])) ==
            var order, k := FirstSeen(Keys(stage, seen)), KeyOf(stage, row);
            if k in order then order else order + [k]
  {
    var ks := Keys(stage, seen + [row]);
    assert (seen + [row])[..|seen|] == seen;
    assert ks[..|ks| - 1] == Keys(stage, seen);
  }

  lemma {:induction false} GroupStep(stage: Stage, seen: seq<Row>, row: Row, k: Key)
    ensures Group(stage, seen + [row], k) ==
            if KeyOf(stage, row) == k then Group(stage, seen, k) + [row] else Group(stage, seen, k)
  {
    FilterAppend(seen, [row], HasKey(stage, k));
    if KeyOf(stage, row) == k {
      FilterAll([row], HasKey(stage, k));
    } else {
      FilterNone([row], HasKey(stage, k));
    }
  }

  lemma {:induction false} GroupEmptyIff(stage: Stage, rows: seq<Row>, k: Key)
    ensures Group(stage, rows, k) == [] <==> k !in Keys(stage, rows)
  {
    var g := Group(stage, rows, k);
    assert g != [] ==> g[0] in rows && KeyOf(stage, g[0]) == k;
    assert forall i :: 0 <= i < |rows| ==> rows[i] in rows;
  }

  /** What the dictionary of the first loop holds for a key. */
  ghost predicate BestSoFar(seen: seq<Row>, k: Key, b: Row) {
    var g := Group(ByIdentity, seen, k);
    g != [] && Best(g) == b
  }

  lemma {:induction false} BestStep(seen: seq<Row>, row: Row, k: Key, b: Row)
    requires BestSoFar(seen, k, b)
    ensures BestSoFar(seen + [row], k, if KeyOf(ByIdentity, row) == k && Score(row) > Score(b) then row else b)
  {
    GroupStep(ByIdentity, seen, row, k);
    var g := Group(ByIdentity, seen, k);
    assert (g + [row])[..|g|] == g;
  }

  lemma {:induction false} BestStart(seen: seq<Row>, row: Row)
    requires KeyOf(ByIdentity, row) !in Keys(ByIdentity, seen)
    ensures BestSoFar(seen + [row], KeyOf(ByIdentity, row), row)
  {
    var k := KeyOf(ByIdentity, row);
    GroupStep(ByIdentity, seen, row, k);
    GroupEmptyIff(ByIdentity, seen, k);
    assert Group(ByIdentity, seen + [row], k) == [row];
  }

  /** The keys listed are those of the dictionary, in the order they were first seen. */
  ghost predicate Ordered<V>(stage: Stage, seen: seq<Row>, dict: map<Key, V>, order: seq<Key>) {
    order == FirstSeen(Keys(stage, seen)) && forall k :: k in dict <==> k in Keys(stage, seen)
  }

  lemma {:induction false} OrderedStep<V>(
      stage: Stage, seen: seq<Row>, dict: map<Key, V>, order: seq<Key>, row: Row, v: V)
    requires Ordered(stage, seen, dict, order)
    ensures var k := KeyOf(stage, row);
            && (k in dict ==> Ordered(stage, seen + [row], dict, order))
            && Ordered(stage, seen + [row], dict[k := v], if k in dict then order else order + [k])
  {
    KeysStep(stage, seen, row);
    FirstSeenProperties(Keys(stage, seen));
  }

  ghost predicate HoldsBest(seen: seq<Row>, best: map<Key, Row>) {
    forall k :: k in best ==> BestSoFar(seen, k, best[k])
  }

  function Noted(best: map<Key, Row>, row: Row): map<Key, Row> {
    var k := KeyOf(ByIdentity, row);
    if k !in best || Score(row) > Score(best[k]) then best[k := row] else best
  }

  lemma {:induction false} NotedStep(seen: seq<Row>, best: map<Key, Row>, row: Row, k: Key)
    requires k in best && BestSoFar(seen, k, best[k])
    ensures k in Noted(best, row) && BestSoFar(seen + [row], k, Noted(best, row)[k])
  {
    BestStep(seen, row, k, best[k]);
  }

  lemma {:induction false} NotedStart(seen: seq<Row>, best: map<Key, Row>, row: Row)
    requires KeyOf(ByIdentity, row) !in best && KeyOf(ByIdentity, row) !in Keys(ByIdentity, seen)
    ensures var k := KeyOf(ByIdentity, row);
            k in Noted(best, row) && BestSoFar(seen + [row], k, Noted(best, row)[k])
  {
    BestStart(seen, row);
  }

  lemma {:induction false} NotedKeys(best: map<Key, Row>, row: Row, k: Key)
    ensures k in Noted(best, row) <==> k in best || k == KeyOf(ByIdentity, row)
  {
  }

  lemma {:induction false} HoldsBestStep(seen: seq<Row>, best: map<Key, Row>, order: seq<Key>, row: Row)
    requires HoldsBest(seen, best) && Ordered(ByIdentity, seen, best, order)
    ensures HoldsBest(seen + [row], Noted(best, row))
  {
    forall k | k in Noted(best, row)
      ensures BestSoFar(seen + [row], k, Noted(best, row)[k])
    {
      NotedKeys(best, row, k);
      if k in best {
        NotedStep(seen, best, row, k);
      } else {
        NotedStart(seen, best, row);
      }
    }
  }

  function Listed<V>(dict: map<Key, V>, order: seq<Key>, k: Key): seq<Key> {
    if k in dict then order else order + [k]
  }

  /** Dictionary and order after the first loop has seen these rows. */
  function BestIndex(rows: seq<Row>): (map<Key, Row>, seq<Key>) {
    if rows == [] then (map[], [])
    else
      var (best, order) := BestIndex(rows[..|rows| - 1]);
      var row := rows[|rows| - 1];
      (Noted(best, row), Listed(best, order, KeyOf(ByIdentity, row)))
  }

  lemma {:induction false} BestIndexHolds(rows: seq<Row>)
    ensures HoldsBest(rows, BestIndex(rows).0)
    ensures Ordered(ByIdentity, rows, BestIndex(rows).0, BestIndex(rows).1)
  {
    if rows != [] {
      var seen, row := rows[..|rows| - 1], rows[|rows| - 1];
      BestIndexHolds(seen);
      var (best, order) := BestIndex(seen);
      assert rows == seen + [row];
      HoldsBestStep(seen, best, order, row);
      OrderedStep(ByIdentity, seen, best, order, row, row);
    }
  }

  method DedupByIdentity(rows: seq<Row>) returns (out: seq<Row>)
    ensures out == Dedup(ByIdentity, rows)
  {
    var best: map<Key, Row> := map[];
    var order: seq<Key> := [];
    for i := 0 to |rows|
      invariant (best, order) == BestIndex(rows[..i])
    {
      assert rows[..i + 1][..i] == rows[..i];
      var row := rows[i];
      var key := KeyOf(ByIdentity, row);
      if key !in best {
        best := best[key := row];
        order := order + [key];
      } else if Score(row) > Score(best[key]) {
        best := best[key := row];
      }
    }
    assert rows[..|rows|] == rows;
    BestIndexHolds(rows);
    FirstSeenProperties(Keys(ByIdentity, rows));
    out := Collect(rows, best, order);
  }

  lemma {:induction false} PicksStep(stage: Stage, rows: seq<Row>, ks: seq<Key>, i: nat, r: Row)
    requires i < |ks| && PickFor(stage, rows, ks[i]) == Some(r)
    ensures Picks(stage, rows, ks[..i + 1]) == Picks(stage, rows, ks[..i]) + [r]
  {
    assert ks[..i + 1][..i] == ks[..i];
    SomesAppend(PickList(stage, rows, ks[..i]), r);
  }

  lemma {:induction false} BestIsPick(rows: seq<Row>, k: Key, b: Row)
    requires BestSoFar(rows, k, b)
    ensures PickFor(ByIdentity, rows, k) == Some(b)
  {
  }

  /** `[best[key] for key in order]`. */
  method Collect(rows: seq<Row>, best: map<Key, Row>, order: seq<Key>) returns (out: seq<Row>)
    requires forall k :: k in order ==> k in best
    requires HoldsBest(rows, best)
    ensures out == Picks(ByIdentity, rows, order)
  {
    out := [];
    for i := 0 to |order|
      invariant out == Picks(ByIdentity, rows, order[..i])
    {
      var row := best[order[i]];
      BestIsPick(rows, order[i], row);
      PicksStep(ByIdentity, rows, order, i, row);
      out := out + [row];
    }
    assert order[..|order|] == order;
  }

  lemma {:induction false} BestOfOne(rows: seq<Row>)
    requires |rows| == 1
    ensures Best(rows) == rows[0]
  {
  }

  lemma {:induction false} BestOfMore(rows: seq<Row>, i: nat)
    requires 1 <= i < |rows|
    ensures Best(rows[..i + 1]) == if Score(rows[i]) > Score(Best(rows[..i])) then rows[i] else Best(rows[..i])
  {
    assert rows[..i + 1][..i] == rows[..i];
  }

  /** Highest score, first seen on a tie: Python's `max` with a key. */
  method MaxByScore(rows: seq<Row>) returns (b: Row)
    requires rows != []
    ensures b == Best(rows)
  {
    b := rows[0];
    BestOfOne(rows[..1]);
    for i := 1 to |rows|
      invariant b == Best(rows[..i])
    {
      BestOfMore(rows, i);
      if Score(rows[i]) > Score(b) { b := rows[i]; }
    }
    assert rows[..|rows|] == rows;
  }

  /** What the dictionary of the second loop holds: all rows with each key. */
  ghost predicate HoldsGroups(seen: seq<Row>, groups: map<Key, seq<Row>>) {
    forall k :: k in groups ==> groups[k] == Group(ByContent, seen, k) && groups[k] != []
  }

  function Filed(groups: map<Key, seq<Row>>, row: Row): map<Key, seq<Row>> {
    var k := KeyOf(ByContent, row);
    groups[k := (if k in groups then groups[k] else []) + [row]]
  }

  lemma {:induction false} HoldsGroupsStep(seen: seq<Row>, groups: map<Key, seq<Row>>, order: seq<Key>, row: Row)
    requires HoldsGroups(seen, groups) && Ordered(ByContent, seen, groups, order)
    ensures HoldsGroups(seen + [row], Filed(groups, row))
  {
    forall k | k in Filed(groups, row)
      ensures Filed(groups, row)[k] == Group(ByContent, seen + [row], k) && Filed(groups, row)[k] != []
    {
      GroupStep(ByContent, seen, row, k);
      GroupEmptyIff(ByContent, seen, k);
    }
  }

  /** Dictionary and order after the second loop has seen these rows. */
  function GroupIndex(rows: seq<Row>): (map<Key, seq<Row>>, seq<Key>) {
    if rows == [] then (map[], [])
    else
      var (groups, order) := GroupIndex(rows[..|rows| - 1]);
      var row := rows[|rows| - 1];
      (Filed(groups, row), Listed(groups, order, KeyOf(ByContent, row)))
  }

  lemma {:induction false} GroupIndexHolds(rows: seq<Row>)
    ensures HoldsGroups(rows, GroupIndex(rows).0)
    ensures Ordered(ByContent, rows, GroupIndex(rows).0, GroupIndex(rows).1)
  {
    if rows != [] {
      var seen, row := rows[..|rows| - 1], rows[|rows| - 1];
      GroupIndexHolds(seen);
      var (groups, order) := GroupIndex(seen);
      assert rows == seen + [row];
      HoldsGroupsStep(seen, groups, order, row);
      OrderedStep(ByContent, seen, groups, order, row, Filed(groups, row)[KeyOf(ByContent, row)]);
    }
  }

  method DedupByContent(rows: seq<Row>) returns (out: seq<Row>)
    ensures out == Dedup(ByContent, rows)
  {
    var groups: map<Key, seq<Row>> := map[];
    var order: seq<Key> := [];
    for i := 0 to |rows|
      invariant (groups, order) == GroupIndex(rows[..i])
    {
      assert rows[..i + 1][..i] == rows[..i];
      var row := rows[i];
      var key := KeyOf(ByContent, row);
      ghost var filed := Filed(groups, row);
      if key !in groups {
        groups := groups[key := []];
        order := order + [key];
      }
      groups := groups[key := groups[key] + [row]];
      assert groups == filed;
    }
    assert rows[..|rows|] == rows;
    GroupIndexHolds(rows);
    FirstSeenProperties(Keys(ByContent, rows));
    out := PickEach(rows, groups, order);
  }

  method PickEach(rows: seq<Row>, groups: map<Key, seq<Row>>, order: seq<Key>) returns (out: seq<Row>)
    requires forall k :: k in order ==> k in groups
    requires HoldsGroups(rows, groups)
    ensures out == Picks(ByContent, rows, order)
  {
    out := [];
    for i := 0 to |order|
      invariant out == Picks(ByContent, rows, order[..i])
    {
      var r := PickGroup(groups[order[i]]);
      PicksStep(ByContent, rows, order, i, r);
      out := out + [r];
    }
    assert order[..|order|] == order;
  }

  method PickGroup(group: seq<Row>) returns (r: Row)
    requires group != []
    ensures r == Pick(ByContent, group)
  {
    var canonical := Canonical(group);
    if |group| == 1 {
      assert canonical != [] ==> canonical[0] in canonical;
      r := group[0];
    } else if canonical != [] {
      r := MaxByScore(canonical);
    } else {
      r := MaxByScore(group);
    }
  }

  method ResolveRows(rows: seq<Row>, principal: Option<string>) returns (out: seq<Row>)
    ensures out == Resolve(rows, principal)
  {
    var unique := DedupByIdentity(FilterByPermission(rows, principal));
    out := DedupByContent(unique);
  }
}
