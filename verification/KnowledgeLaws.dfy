/** What resolving retrieved rows promises (knowledge_backbone.py). */
module KnowledgeLaws {
  import opened Common
  import opened Knowledge

  // ----- one stage -----------------------------------------------------------------------------

  lemma {:induction false} PickForKey(stage: Stage, rows: seq<Row>, k: Key)
    requires k in Keys(stage, rows)
    ensures PickFor(stage, rows, k).Some?
    ensures PickFor(stage, rows, k).value in rows && KeyOf(stage, PickFor(stage, rows, k).value) == k
  {
    GroupEmptyIff(stage, rows, k);
  }

  /** A stage keeps one row per key, taken from the input, with keys in first-seen order. */
  lemma {:induction false} DedupShape(stage: Stage, rows: seq<Row>)
    ensures Keys(stage, Dedup(stage, rows)) == FirstSeen(Keys(stage, rows))
    ensures Distinct(Keys(stage, Dedup(stage, rows)))
    ensures forall r :: r in Dedup(stage, rows) ==> r in rows && PickFor(stage, rows, KeyOf(stage, r)) == Some(r)
  {
    var ks, out := FirstSeen(Keys(stage, rows)), Dedup(stage, rows);
    FirstSeenProperties(Keys(stage, rows));
    forall i | 0 <= i < |ks|
      ensures PickFor(stage, rows, ks[i]).Some?
    {
      assert ks[i] in ks;
      PickForKey(stage, rows, ks[i]);
    }
    SomesAt(PickList(stage, rows, ks));
    forall i | 0 <= i < |ks|
      ensures KeyOf(stage, out[i]) == ks[i] && out[i] in rows && PickFor(stage, rows, ks[i]) == Some(out[i])
    {
      assert ks[i] in ks;
      PickForKey(stage, rows, ks[i]);
    }
    assert Keys(stage, out) == ks;
  }

  lemma {:induction false} FirstSeenOfDistinct<K>(s: seq<K>)
    requires Distinct(s)
    ensures FirstSeen(s) == s
  {
    if s != [] {
      var front := s[..|s| - 1];
      FirstSeenOfDistinct(front);
      assert s == front + [s[|s| - 1]];
    }
  }

  lemma {:induction false} SameKeySameRow(stage: Stage, rows: seq<Row>, r: Row, q: Row)
    requires Distinct(Keys(stage, rows)) && r in rows && q in rows && KeyOf(stage, r) == KeyOf(stage, q)
    ensures r == q
  {
    var i :| 0 <= i < |rows| && rows[i] == r;
    var j :| 0 <= j < |rows| && rows[j] == q;
    var ks := Keys(stage, rows);
    assert ks[i] == ks[j];
  }

  /** A stage leaves rows with distinct keys alone. */
  lemma {:induction false} DedupOfDistinct(stage: Stage, rows: seq<Row>)
    requires Distinct(Keys(stage, rows))
    ensures Dedup(stage, rows) == rows
  {
    var ks, out := Keys(stage, rows), Dedup(stage, rows);
    DedupShape(stage, rows);
    FirstSeenOfDistinct(ks);
    SameKeysSameRows(stage, rows, out);
  }

  lemma {:induction false} SameKeysSameRows(stage: Stage, rows: seq<Row>, out: seq<Row>)
    requires Distinct(Keys(stage, rows)) && Keys(stage, out) == Keys(stage, rows)
    requires forall r :: r in out ==> r in rows
    ensures out == rows
  {
    assert |out| == |Keys(stage, out)| == |rows|;
    forall i | 0 <= i < |rows|
      ensures out[i] == rows[i]
    {
      assert Keys(stage, out)[i] == Keys(stage, rows)[i] && out[i] in out;
      SameKeySameRow(stage, rows, out[i], rows[i]);
    }
  }

  // ----- both stages -----------------------------------------------------------------------------

  /** The rows the principal may see, and those left after the identity stage. */
  function Visible(rows: seq<Row>, principal: Option<string>): seq<Row> {
    FilterByPermission(rows, principal)
  }

  function Winners(rows: seq<Row>, principal: Option<string>): seq<Row> {
    Dedup(ByIdentity, Visible(rows, principal))
  }

  /** Only accessible rows of the input come back, no two with the same identity and no two with
      the same content; both stages list their keys in first-seen order. */
  lemma {:induction false} ResolvedRows(rows: seq<Row>, principal: Option<string>)
    ensures forall r :: r in Resolve(rows, principal) ==>
              && r in rows && principal.Some? && principal.value != "" && r.snapshot.Snapshot?
              && (r.snapshot.isPublic
                  || (r.snapshot.principals.Some? && principal.value in r.snapshot.principals.value))
    ensures forall r, q :: r in Resolve(rows, principal) && q in Resolve(rows, principal) && r != q ==>
              r.contentHash != q.contentHash && (r.drive != q.drive || r.file != q.file)
    ensures Distinct(Keys(ByContent, Resolve(rows, principal)))
    ensures Distinct(Keys(ByIdentity, Resolve(rows, principal)))
    ensures Keys(ByContent, Resolve(rows, principal)) == FirstSeen(Keys(ByContent, Winners(rows, principal)))
    ensures Keys(ByIdentity, Winners(rows, principal)) == FirstSeen(Keys(ByIdentity, Visible(rows, principal)))
  {
    var winners, out := Winners(rows, principal), Resolve(rows, principal);
    DedupShape(ByIdentity, Visible(rows, principal));
    DedupShape(ByContent, winners);
    DistinctWithin(winners, out);
    forall r, q | r in out && q in out && r != q
      ensures r.contentHash != q.contentHash && (r.drive != q.drive || r.file != q.file)
    {
      DistinctRows(out, r, q);
    }
  }

  lemma {:induction false} DistinctRows(rows: seq<Row>, r: Row, q: Row)
    requires Distinct(Keys(ByContent, rows)) && Distinct(Keys(ByIdentity, rows)) && r in rows && q in rows && r != q
    ensures r.contentHash != q.contentHash && (r.drive != q.drive || r.file != q.file)
  {
    if r.contentHash == q.contentHash {
      SameKeySameRow(ByContent, rows, r, q);
    }
    if r.drive == q.drive && r.file == q.file {
      SameKeySameRow(ByIdentity, rows, r, q);
    }
  }

  lemma {:induction false} DistinctWithin(winners: seq<Row>, out: seq<Row>)
    requires Distinct(Keys(ByIdentity, winners)) && Distinct(Keys(ByContent, out))
    requires forall r :: r in out ==> r in winners
    ensures Distinct(Keys(ByIdentity, out))
  {
    var ids, contents := Keys(ByIdentity, out), Keys(ByContent, out);
    forall i, j | 0 <= i < j < |ids|
      ensures ids[i] != ids[j]
    {
      assert contents[i] != contents[j] && out[i] in out && out[j] in out;
      if ids[i] == ids[j] {
        SameKeySameRow(ByIdentity, winners, out[i], out[j]);
      }
    }
  }

  /** Nothing accessible is lost: the best copy of its identity is a winner, and some returned row
      has that winner's content. */
  lemma {:induction false} EveryRowRepresented(rows: seq<Row>, principal: Option<string>, r: Row)
    returns (winner: Row, shown: Row)
    requires r in rows && Accessible(r, principal)
    ensures winner in Winners(rows, principal) && winner.drive == r.drive && winner.file == r.file
    ensures ScoreOf(r) <= ScoreOf(winner)
    ensures IsBest(Group(ByIdentity, Visible(rows, principal), KeyOf(ByIdentity, r)), winner)
    ensures shown in Resolve(rows, principal) && shown.contentHash == winner.contentHash
  {
    var visible, winners := Visible(rows, principal), Winners(rows, principal);
    winner := Survivor(ByIdentity, visible, r);
    BestIsHighest(Group(ByIdentity, visible, KeyOf(ByIdentity, r)), winner, r);
    shown := Survivor(ByContent, winners, winner);
  }

  /** Every input row of a stage has a survivor with its key. */
  lemma {:induction false} Survivor(stage: Stage, rows: seq<Row>, r: Row) returns (s: Row)
    requires r in rows
    ensures s in Dedup(stage, rows) && KeyOf(stage, s) == KeyOf(stage, r)
    ensures PickFor(stage, rows, KeyOf(stage, r)) == Some(s)
  {
    var i :| 0 <= i < |rows| && rows[i] == r;
    var k, ks := KeyOf(stage, r), Keys(stage, rows);
    assert ks[i] == k;
    FirstSeenProperties(ks);
    assert k in ks && k in FirstSeen(ks);
    var n :| 0 <= n < |FirstSeen(ks)| && FirstSeen(ks)[n] == k;
    DedupShape(stage, rows);
    assert Keys(stage, Dedup(stage, rows))[n] == k;
    s := Dedup(stage, rows)[n];
  }

  /** Among winners with the same content a canonical one is shown whenever there is one, else any;
      of those, the highest score, and the earliest on a tie. */
  lemma {:induction false} CanonicalPrecedence(rows: seq<Row>, principal: Option<string>, r: Row)
    requires r in Resolve(rows, principal)
    ensures var copies := Group(ByContent, Winners(rows, principal), KeyOf(ByContent, r));
            && (IsCanonical(r) <==> exists q :: q in copies && IsCanonical(q))
            && IsBest(if IsCanonical(r) then Canonical(copies) else copies, r)
    ensures forall q :: q in Winners(rows, principal) && q.contentHash == r.contentHash ==>
              && (q.classification == Some("canonical") ==> r.classification == Some("canonical"))
              && ((q.classification == Some("canonical") <==> r.classification == Some("canonical")) ==>
                    ScoreOf(q) <= ScoreOf(r))
  {
    var winners := Winners(rows, principal);
    DedupShape(ByContent, winners);
    var copies := Group(ByContent, winners, KeyOf(ByContent, r));
    assert PickFor(ByContent, winners, KeyOf(ByContent, r)) == Some(r);
    PickPrecedence(copies, r);
    forall q | q in winners && q.contentHash == r.contentHash
      ensures q.classification == Some("canonical") ==> r.classification == Some("canonical")
      ensures (q.classification == Some("canonical") <==> r.classification == Some("canonical")) ==>
                ScoreOf(q) <= ScoreOf(r)
    {
      assert q in copies;
      if IsCanonical(q) == IsCanonical(r) {
        BestIsHighest(if IsCanonical(r) then Canonical(copies) else copies, r, q);
      }
    }
  }

  /** A missing score counts as zero. */
  function ScoreOf(r: Row): (x: real)
    ensures r.score.Some? ==> Some(x) == r.score
    ensures r.score.None? ==> x == 0.0
  {
    match r.score
    case Some(x) => x
    case None => 0.0
  }

  lemma {:induction false} BestIsHighest(rows: seq<Row>, best: Row, q: Row)
    requires IsBest(rows, best) && q in rows
    ensures ScoreOf(q) <= ScoreOf(best)
  {
    var i :| 0 <= i < |rows| && IsBestAt(rows, best, i);
    var j :| 0 <= j < |rows| && rows[j] == q;
    assert Score(rows[j]) <= Score(best);
  }

  lemma {:induction false} PickPrecedence(copies: seq<Row>, r: Row)
    requires copies != [] && r == Pick(ByContent, copies)
    ensures IsCanonical(r) <==> exists q :: q in copies && IsCanonical(q)
    ensures IsBest(if IsCanonical(r) then Canonical(copies) else copies, r)
  {
    var c := Canonical(copies);
    assert c != [] ==> c[0] in c;
  }

  /** Resolving again changes nothing. */
  lemma {:induction false} ResolveTwice(rows: seq<Row>, principal: Option<string>)
    ensures Resolve(Resolve(rows, principal), principal) == Resolve(rows, principal)
  {
    var out := Resolve(rows, principal);
    ResolvedRows(rows, principal);
    PermissionIsFilter(out, principal);
    FilterAll(out, Access(principal));
    DedupOfDistinct(ByIdentity, out);
    DedupOfDistinct(ByContent, out);
  }

  /** A row the principal may not see has no influence, wherever it stands. */
  lemma {:induction false} InaccessibleIrrelevant(before: seq<Row>, x: Row, after: seq<Row>, principal: Option<string>)
    requires principal.None? || principal.value == "" || x.snapshot.NoSnapshot? || (!x.snapshot.isPublic
               && (x.snapshot.principals.None? || principal.value !in x.snapshot.principals.value))
    ensures Resolve(before + [x] + after, principal) == Resolve(before + after, principal)
  {
    var p := Access(principal);
    PermissionIsFilter(before + [x] + after, principal);
    PermissionIsFilter(before + after, principal);
    FilterAppend(before + [x], after, p);
    FilterAppend(before, [x], p);
    FilterAppend(before, after, p);
    FilterNone([x], p);
    assert Filter(before, p) + [] == Filter(before, p);
  }

  /** Without a principal nothing is returned. */
  lemma {:induction false} NobodySeesNothing(rows: seq<Row>, principal: Option<string>)
    requires principal.None? || principal.value == ""
    ensures Resolve(rows, principal) == []
  {
    DedupOfDistinct(ByIdentity, []);
    DedupOfDistinct(ByContent, []);
  }
}
