/** Checksums that tolerate line endings (migrations/runner.py): the accepted checksums of a
    file, and which recorded files they accept. */
module LineEndings {
  import opened Common
  import opened Migrations

  const CR: Byte := 13
  const LF: Byte := 10

  /** `raw.replace(b"\r\n", b"\n")`. */
  function ToLf(raw: seq<Byte>): seq<Byte> {
    if raw == [] then []
    else if |raw| >= 2 && raw[0] == CR && raw[1] == LF then [LF] + ToLf(raw[2..])
    else [raw[0]] + ToLf(raw[1..])
  }

  /** `raw.replace(b"\n", b"\r\n")`. */
  function ToCrlf(raw: seq<Byte>): (out: seq<Byte>)
    ensures out != [] ==> out[0] != LF
    ensures out == [] <==> raw == []
  {
    if raw == [] then []
    else (if raw[0] == LF then [CR, LF] else [raw[0]]) + ToCrlf(raw[1..])
  }

  /** The checksums the same content can have. */
  function EquivalentChecksums(sum: seq<Byte> -> string, raw: seq<Byte>): set<string> {
    {sum(raw), sum(ToLf(raw)), sum(ToCrlf(ToLf(raw)))}
  }

  function FromFile(sum: seq<Byte> -> string, decode: seq<Byte> -> string, name: string, raw: seq<Byte>): Migration {
    Migration(name, sum(raw), EquivalentChecksums(sum, raw), decode(raw))
  }

  lemma {:induction false} LfOfPlain(t: seq<Byte>)
    requires CR !in t
    ensures ToLf(t) == t
  {
    if t != [] {
      assert t[0] in t;
      LfOfPlain(t[1..]);
    }
  }

  lemma {:induction false} LfOfCrlf(t: seq<Byte>)
    requires CR !in t
    ensures ToLf(ToCrlf(t)) == t
  {
    if t != [] {
      assert t[0] in t;
      LfOfCrlf(t[1..]);
      var out := ToCrlf(t);
      if t[0] == LF {
        assert out[2..] == ToCrlf(t[1..]);
      } else {
        assert out[1..] == ToCrlf(t[1..]);
      }
    }
  }

  lemma {:induction false} HeadIsLf(raw: seq<Byte>)
    requires raw != []
    ensures raw[0] == LF <==> |ToCrlf(raw)| >= 2 && ToCrlf(raw)[1] == LF
  {
  }

  lemma {:induction false} CrlfInjective(a: seq<Byte>, b: seq<Byte>)
    requires ToCrlf(a) == ToCrlf(b)
    ensures a == b
  {
    if a != [] {
      var out := ToCrlf(a);
      var a', b' := ToCrlf(a[1..]), ToCrlf(b[1..]);
      assert out == (if a[0] == LF then [CR, LF] else [a[0]]) + a';
      assert out == (if b[0] == LF then [CR, LF] else [b[0]]) + b';
      HeadIsLf(a);
      HeadIsLf(b);
      if a[0] == LF {
        assert a' == out[2..] == b';
      } else {
        assert a' == out[1..] == b';
      }
      CrlfInjective(a[1..], b[1..]);
      assert a == [a[0]] + a[1..] && b == [b[0]] + b[1..];
    }
  }

  lemma {:induction false} CrlfOfOneLine(t: seq<Byte>)
    requires LF !in t
    ensures ToCrlf(t) == t
  {
    if t != [] {
      assert t[0] in t;
      CrlfOfOneLine(t[1..]);
    }
  }

  lemma {:induction false} CrlfHasCr(t: seq<Byte>)
    requires LF in t
    ensures CR in ToCrlf(t)
  {
    if t[0] != LF {
      CrlfHasCr(t[1..]);
    }
  }

  /** The LF file and the CRLF file of a text have the same accepted checksums. */
  lemma {:induction false} SameEquivalents(sum: seq<Byte> -> string, t: seq<Byte>)
    requires CR !in t
    ensures EquivalentChecksums(sum, t) == EquivalentChecksums(sum, ToCrlf(t))
  {
    LfOfPlain(t);
    LfOfCrlf(t);
  }

  /** Every CR of the file belongs to a CRLF. */
  predicate PairedCr(raw: seq<Byte>) {
    forall i :: 0 <= i < |raw| && raw[i] == CR ==> i + 1 < |raw| && raw[i + 1] == LF
  }

  lemma {:induction false} PairedCrLeavesNone(raw: seq<Byte>)
    requires PairedCr(raw)
    ensures CR !in ToLf(raw)
  {
    if raw != [] {
      if raw[0] == CR {
        assert PairedCr(raw[2..]);
        PairedCrLeavesNone(raw[2..]);
      } else {
        assert PairedCr(raw[1..]);
        PairedCrLeavesNone(raw[1..]);
      }
    }
  }

  ghost function Compared(recorded: seq<Byte>, raw: seq<Byte>): set<seq<Byte>> {
    {recorded, raw, ToLf(raw), ToCrlf(ToLf(raw))}
  }

  /** A file recorded with LF endings is accepted exactly when its text is unchanged. */
  lemma {:induction false} RecordedLfAccepted(sum: seq<Byte> -> string, t: seq<Byte>, raw: seq<Byte>)
    requires CR !in t && CollisionFreeOn(sum, Compared(t, raw))
    ensures sum(t) in EquivalentChecksums(sum, raw) <==> ToLf(raw) == t
  {
    var lf := ToLf(raw);
    LfOfPlain(t);
    if t == ToCrlf(lf) {
      if LF in lf {
        CrlfHasCr(lf);
      } else {
        CrlfOfOneLine(lf);
      }
    }
  }

  /** A file recorded with CRLF endings is accepted exactly when its text is unchanged, or when
      removing one CR per line leaves the recorded bytes themselves. */
  lemma {:induction false} RecordedCrlfAccepted(sum: seq<Byte> -> string, t: seq<Byte>, raw: seq<Byte>)
    requires CR !in t && CollisionFreeOn(sum, Compared(ToCrlf(t), raw))
    ensures sum(ToCrlf(t)) in EquivalentChecksums(sum, raw) <==> ToLf(raw) == t || ToLf(raw) == ToCrlf(t)
  {
    LfOfCrlf(t);
    if ToCrlf(t) == ToCrlf(ToLf(raw)) {
      CrlfInjective(t, ToLf(raw));
    }
  }

  /** For files whose CRs all belong to CRLFs, `reconcile` accepts a file recorded with LF or with
      CRLF endings exactly when the text is the same up to line endings, and otherwise refuses
      it as edited. */
  lemma {:induction false} ReconcileUpToLineEndings(
      sum: seq<Byte> -> string, decode: seq<Byte> -> string, name: string,
      t: seq<Byte>, crlf: bool, raw: seq<Byte>)
    requires CR !in t && PairedCr(raw)
    requires CollisionFreeOn(sum, Compared(if crlf then ToCrlf(t) else t, raw))
    ensures var recorded := if crlf then ToCrlf(t) else t;
            var verdict := Reconcile([FromFile(sum, decode, name, raw)], map[name := sum(recorded)]);
            && (verdict == Ok([]) <==> ToLf(raw) == t)
            && (ToLf(raw) != t ==> verdict == Err(ChecksumMismatch))
  {
    var recorded := if crlf then ToCrlf(t) else t;
    PairedCrLeavesNone(raw);
    if crlf {
      RecordedCrlfAccepted(sum, t, raw);
      if ToLf(raw) == ToCrlf(t) {
        if LF in t { CrlfHasCr(t); } else { CrlfOfOneLine(t); }
      }
    } else {
      RecordedLfAccepted(sum, t, raw);
    }
    OneFileReconciles(FromFile(sum, decode, name, raw), sum(recorded));
  }

  lemma {:induction false} OneFileReconciles(m: Migration, recorded: string)
    ensures Reconcile([m], map[m.filename := recorded]) ==
            if recorded in m.equivalents then Ok([]) else Err(ChecksumMismatch)
  {
    var applied: Ledger := map[m.filename := recorded];
    assert m in [m];
    FilterNone([m], NotIn(applied));
  }

  /** A stray CR is the exception: a recorded CRLF line break is accepted for the three bytes
      CR CR LF, whose text is not the recorded text. */
  lemma {:induction false} StrayCrAccepted(sum: seq<Byte> -> string)
    ensures sum(ToCrlf([LF])) in EquivalentChecksums(sum, [CR, CR, LF])
    ensures ToLf([CR, CR, LF]) != [LF]
  {
    assert ToCrlf([LF]) == [CR, LF];
    assert [CR, CR, LF][1..] == [CR, LF] && [CR, LF][2..] == [];
    assert ToLf([CR, LF]) == [LF];
    assert ToLf([CR, CR, LF]) == [CR, LF];
  }
}
