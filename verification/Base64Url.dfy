/** The text form of token parts: base64url (section 5 of RFC 4648) with the padding stripped on
    the way out and put back, by length alone, on the way in (section 3.2 of RFC 4648). */
module Base64Url {
  import opened Common

  type Sextet = x: int | 0 <= x < 64

  function Letter(d: Sextet): (c: char)
    ensures IsLetter(c) && Value(c) == d
  {
    if d < 26 then ('A' as int + d) as char
    else if d < 52 then ('a' as int + d - 26) as char
    else if d < 62 then ('0' as int + d - 52) as char
    else if d == 62 then '-'
    else '_'
  }

  predicate IsLetter(c: char) {
    'A' <= c <= 'Z' || 'a' <= c <= 'z' || '0' <= c <= '9' || c == '-' || c == '_'
  }

  function Value(c: char): Sextet
    requires IsLetter(c)
  {
    if 'A' <= c <= 'Z' then c as int - 'A' as int
    else if 'a' <= c <= 'z' then c as int - 'a' as int + 26
    else if '0' <= c <= '9' then c as int - '0' as int + 52
    else if c == '-' then 62
    else 63
  }

  /** `urlsafe_b64encode`: three bytes to four letters, the last group padded. */
  function Encode(b: seq<Byte>): string {
    if |b| == 0 then []
    else if |b| == 1 then Duo(b[0]) + "=="
    else if |b| == 2 then Trio(b[0], b[1]) + "="
    else Quad(b[0], b[1], b[2]) + Encode(b[3..])
  }

  function Duo(x: Byte): string {
    [Letter(x / 4), Letter(x % 4 * 16)]
  }

  function Trio(x: Byte, y: Byte): string {
    [Letter(x / 4), Letter(x % 4 * 16 + y / 16), Letter(y % 16 * 4)]
  }

  function Quad(x: Byte, y: Byte, z: Byte): string {
    [Letter(x / 4), Letter(x % 4 * 16 + y / 16), Letter(y % 16 * 4 + z / 64), Letter(z % 64)]
  }

  /** `rstrip("=")`. */
  function Strip(s: string): string {
    if s != [] && s[|s| - 1] == '=' then Strip(s[..|s| - 1]) else s
  }

  /** `s + "=" * (-len(s) % 4)`. */
  function Repad(s: string): string {
    s + seq(-|s| % 4, i => '=')
  }

  function Text(b: seq<Byte>): string {
    Strip(Encode(b))
  }

  /** The three bytes that four letters carry. */
  function First(c: char, d: char): Byte
    requires IsLetter(c) && IsLetter(d)
  {
    Value(c) * 4 + Value(d) / 16
  }

  function Second(c: char, d: char): Byte
    requires IsLetter(c) && IsLetter(d)
  {
    Value(c) % 16 * 16 + Value(d) / 4
  }

  function Third(c: char, d: char): Byte
    requires IsLetter(c) && IsLetter(d)
  {
    Value(c) % 4 * 64 + Value(d)
  }

  /** `urlsafe_b64decode` of a text of letters: bits left over in the last group are ignored. Any
      other text is refused here. */
  function Decode(s: string): Option<seq<Byte>>
    decreases |s|
  {
    if s == [] then Some([])
    else if |s| < 4 || !IsLetter(s[0]) || !IsLetter(s[1]) then None
    else
      var x := First(s[0], s[1]);
      if s[2..] == "==" then Some([x])
      else if !IsLetter(s[2]) then None
      else
        var y := Second(s[1], s[2]);
        if s[3..] == "=" then Some([x, y])
        else if !IsLetter(s[3]) then None
        else
          var z := Third(s[2], s[3]);
          var rest := Decode(s[4..]);
          if rest.None? then None else Some([x, y, z] + rest.value)
  }

  // ----- round trip ---------------------------------------------------------------------------

  predicate Letters(s: string) {
    forall c :: c in s ==> IsLetter(c)
  }

  /** The letters of the encoding, without padding. */
  function Core(b: seq<Byte>): string {
    if |b| == 0 then []
    else if |b| == 1 then Duo(b[0])
    else if |b| == 2 then Trio(b[0], b[1])
    else Quad(b[0], b[1], b[2]) + Core(b[3..])
  }

  lemma {:induction false} CoreLetters(b: seq<Byte>)
    ensures Letters(Core(b))
    ensures |Core(b)| == (4 * |b| + 2) / 3
    decreases |b|
  {
    if |b| >= 3 {
      CoreLetters(b[3..]);
    }
  }

  lemma {:induction false} RepadAfterQuad(q: string, s: string)
    requires |q| == 4
    ensures Repad(q + s) == q + Repad(s)
  {
    assert -|q + s| % 4 == -|s| % 4;
  }

  lemma {:induction false} EncodeIsPaddedCore(b: seq<Byte>)
    ensures Encode(b) == Repad(Core(b))
    decreases |b|
  {
    if |b| >= 3 {
      EncodeIsPaddedCore(b[3..]);
      RepadAfterQuad(Quad(b[0], b[1], b[2]), Core(b[3..]));
    }
  }

  lemma {:induction false} StripPadding(s: string, n: nat)
    requires Letters(s)
    ensures Strip(s + seq(n, i => '=')) == s
  {
    var padded := s + seq(n, i => '=');
    if n > 0 {
      assert padded[..|padded| - 1] == s + seq(n - 1, i => '=');
      StripPadding(s, n - 1);
    } else {
      assert padded == s;
      assert s != [] ==> s[|s| - 1] in s;
    }
  }

  /** Stripping loses nothing: the length alone restores the padding. */
  lemma {:induction false} TextRepads(b: seq<Byte>)
    ensures Letters(Text(b))
    ensures |Text(b)| == (4 * |b| + 2) / 3
    ensures Repad(Text(b)) == Encode(b)
  {
    CoreLetters(b);
    EncodeIsPaddedCore(b);
    StripPadding(Core(b), -|Core(b)| % 4);
  }

  lemma {:induction false} DecodeDuo(x: Byte)
    ensures Decode(Duo(x) + "==") == Some([x])
  {
    assert (Duo(x) + "==")[2..] == "==";
  }

  lemma {:induction false} DecodeTrio(x: Byte, y: Byte)
    ensures Decode(Trio(x, y) + "=") == Some([x, y])
  {
    TrioValues(x, y);
    DecodeThree(Trio(x, y));
  }

  lemma {:induction false} TrioValues(x: Byte, y: Byte)
    ensures var q := Trio(x, y);
            First(q[0], q[1]) == x && Second(q[1], q[2]) == y
  {
  }

  lemma {:induction false} DecodeThree(q: string)
    requires |q| == 3 && Letters(q)
    ensures IsLetter(q[0]) && IsLetter(q[1]) && IsLetter(q[2])
    ensures Decode(q + "=") == Some([First(q[0], q[1]), Second(q[1], q[2])])
  {
    var s := q + "=";
    assert q[0] in q && q[1] in q && q[2] in q;
    assert s[2..][0] == q[2] && s[3..] == "=";
  }

  lemma {:induction false} QuadValues(x: Byte, y: Byte, z: Byte)
    ensures var q := Quad(x, y, z);
            First(q[0], q[1]) == x && Second(q[1], q[2]) == y && Third(q[2], q[3]) == z
  {
  }

  lemma {:induction false} DecodeQuad(x: Byte, y: Byte, z: Byte, rest: string)
    requires Decode(rest).Some?
    ensures Decode(Quad(x, y, z) + rest) == Some([x, y, z] + Decode(rest).value)
  {
    var q := Quad(x, y, z);
    QuadValues(x, y, z);
    DecodeLetters(q, rest);
  }

  lemma {:induction false} DecodeLetters(q: string, rest: string)
    requires |q| == 4 && Letters(q) && Decode(rest).Some?
    ensures IsLetter(q[0]) && IsLetter(q[1]) && IsLetter(q[2]) && IsLetter(q[3])
    ensures Decode(q + rest) == Some([First(q[0], q[1]), Second(q[1], q[2]), Third(q[2], q[3])] + Decode(rest).value)
  {
    var s := q + rest;
    assert q[0] in q && q[1] in q && q[2] in q && q[3] in q;
    assert s[2..][0] == q[2] && s[3..][0] == q[3];
    assert s[4..] == rest;
  }

  lemma {:induction false} DecodeShort(b: seq<Byte>)
    requires |b| < 3
    ensures Decode(Encode(b)) == Some(b)
  {
    if |b| == 2 {
      DecodeTrio(b[0], b[1]);
      assert b == [b[0], b[1]];
    } else if |b| == 1 {
      DecodeDuo(b[0]);
      assert b == [b[0]];
    }
  }

  lemma {:induction false} DecodeFirstQuad(x: Byte, y: Byte, z: Byte, b: seq<Byte>)
    requires Decode(Encode(b)) == Some(b)
    ensures Decode(Quad(x, y, z) + Encode(b)) == Some([x, y, z] + b)
  {
    DecodeQuad(x, y, z, Encode(b));
  }

  lemma {:induction false} EncodeLong(x: Byte, y: Byte, z: Byte, b: seq<Byte>)
    ensures Encode([x, y, z] + b) == Quad(x, y, z) + Encode(b)
  {
    assert ([x, y, z] + b)[3..] == b;
  }

  lemma {:induction false} DecodeEncode(b: seq<Byte>)
    ensures Decode(Encode(b)) == Some(b)
    decreases |b|
  {
    if |b| >= 3 {
      var rest := b[3..];
      assert b == [b[0], b[1], b[2]] + rest;
      DecodeEncode(rest);
      EncodeLong(b[0], b[1], b[2], rest);
      DecodeFirstQuad(b[0], b[1], b[2], rest);
    } else {
      DecodeShort(b);
    }
  }

  /** The reader recovers the exact bytes from the unpadded text. */
  lemma {:induction false} TextRoundTrip(b: seq<Byte>)
    ensures Decode(Repad(Text(b))) == Some(b)
    ensures '.' !in Text(b) && '=' !in Text(b)
  {
    TextRepads(b);
    DecodeEncode(b);
  }
}
