/** Signed three-part tokens, "prefix.payload.signature", shared by principal tokens
    (runtime/request_auth.py) and action grants (runtime/action_grants.py). */
module Tokens {
  import opened Common
  import opened Base64Url

  /** HMAC-SHA256 is a function of the key and the payload text. */
  datatype Signer = Signer(key: string, mac: (string, string) -> seq<Byte>) {
    predicate Configured() { |key| >= 32 }
    function Sign(encoded: string): string { Text(mac(key, encoded)) }
  }

  datatype TokenError = Malformed | KeyNotConfigured | SignatureInvalid

  predicate Ascii(s: string) {
    forall i :: 0 <= i < |s| ==> s[i] as int < 128
  }

  /** The text before the first dot and the text after it. */
  function Cut(s: string): Option<(string, string)> {
    if s == [] then None
    else if s[0] == '.' then Some(([], s[1..]))
    else
      var r := Cut(s[1..]);
      if r.None? then None else Some(([s[0]] + r.value.0, r.value.1))
  }

  /** `token.split(".", 2)` unpacked into three names: fails unless there are two dots. */
  function Split(token: string): Option<(string, string, string)> {
    var a := Cut(token);
    if a.None? then None
    else
      var b := Cut(a.value.1);
      if b.None? then None else Some((a.value.0, b.value.0, b.value.1))
  }

  function Joined(prefix: string, encoded: string, signature: string): string {
    prefix + "." + encoded + "." + signature
  }

  function Seal(signer: Signer, prefix: string, body: seq<Byte>): Result<string, TokenError> {
    if !signer.Configured() then Err(KeyNotConfigured)
    else Ok(Joined(prefix, Text(body), signer.Sign(Text(body))))
  }

  /** The common first half of verifying. Principal tokens encode the payload text as ASCII, which
      can fail; grants do not. Comparing a signature outside ASCII raises. */
  function Open(signer: Signer, prefix: string, token: string, asciiOnly: bool): Result<seq<Byte>, TokenError> {
    var parts := Split(token);
    if parts.None? || parts.value.0 != prefix then Err(Malformed)
    else
      var encoded, supplied := parts.value.1, parts.value.2;
      if !signer.Configured() then Err(KeyNotConfigured)
      else if (asciiOnly && !Ascii(encoded)) || !Ascii(supplied) then Err(Malformed)
      else if signer.Sign(encoded) != supplied then Err(SignatureInvalid)
      else
        var body := Decode(Repad(encoded));
        if body.None? then Err(Malformed) else Ok(body.value)
  }

  /** `min(max(1, ttl), most)`. */
  function Lifetime(ttl: int, most: nat): (r: int)
    requires most >= 1
    ensures 1 <= r <= most
    ensures 1 <= ttl <= most ==> r == ttl
    ensures ttl < 1 ==> r == 1
    ensures ttl > most ==> r == most
  {
    var atLeast := if ttl > 1 then ttl else 1;
    if atLeast < most then atLeast else most
  }

  // ----- splitting undoes joining -------------------------------------------------------------

  lemma {:induction false} CutJoined(a: string, b: string)
    requires '.' !in a
    ensures Cut(a + "." + b) == Some((a, b))
  {
    if a != [] {
      assert (a + "." + b)[1..] == a[1..] + "." + b;
      CutJoined(a[1..], b);
      assert a == [a[0]] + a[1..];
    } else {
      assert (a + "." + b)[1..] == b;
    }
  }

  lemma {:induction false} CutInverse(s: string)
    requires Cut(s).Some?
    ensures s == Cut(s).value.0 + "." + Cut(s).value.1
    ensures '.' !in Cut(s).value.0
  {
    if s[0] != '.' {
      CutInverse(s[1..]);
    }
  }

  /** The three parts determine the token and are determined by it; only the last may hold dots. */
  lemma {:induction false} SplitIff(token: string, a: string, b: string, c: string)
    ensures Split(token) == Some((a, b, c)) <==> token == Joined(a, b, c) && '.' !in a && '.' !in b
  {
    if token == Joined(a, b, c) && '.' !in a && '.' !in b {
      assert token == a + "." + (b + "." + c);
      CutJoined(a, b + "." + c);
      CutJoined(b, c);
    } else if Split(token) == Some((a, b, c)) {
      CutInverse(token);
      CutInverse(Cut(token).value.1);
    }
  }

  lemma {:induction false} LettersAreAscii(s: string)
    requires Letters(s)
    ensures Ascii(s) && '.' !in s
  {
    assert forall i :: 0 <= i < |s| ==> s[i] in s;
  }

  /** Exactly the tokens of this shape open, and to exactly these bytes. */
  lemma {:induction false} OpenIff(
      signer: Signer, prefix: string, token: string, asciiOnly: bool, encoded: string, body: seq<Byte>)
    requires signer.Configured() && '.' !in prefix && '.' !in encoded
    requires token == Joined(prefix, encoded, signer.Sign(encoded))
    ensures Open(signer, prefix, token, asciiOnly) == Ok(body) <==>
            (asciiOnly ==> Ascii(encoded)) && Decode(Repad(encoded)) == Some(body)
  {
    SplitIff(token, prefix, encoded, signer.Sign(encoded));
    TextRepads(signer.mac(signer.key, encoded));
    LettersAreAscii(signer.Sign(encoded));
  }

  /** Whatever opens was signed over its payload text under this key. */
  lemma {:induction false} OpenedIsSigned(
      signer: Signer, prefix: string, token: string, asciiOnly: bool) returns (encoded: string)
    requires Open(signer, prefix, token, asciiOnly).Ok?
    ensures signer.Configured() && token == Joined(prefix, encoded, signer.Sign(encoded))
    ensures |signer.key| >= 32 && token == prefix + "." + encoded + "." + Text(signer.mac(signer.key, encoded))
    ensures '.' !in encoded
    ensures Decode(Repad(encoded)) == Some(Open(signer, prefix, token, asciiOnly).value)
  {
    var p := Split(token).value;
    encoded := p.1;
    SplitIff(token, p.0, p.1, p.2);
  }

  /** Opening undoes sealing, for every payload. */
  lemma {:induction false} OpenSeal(signer: Signer, prefix: string, body: seq<Byte>, asciiOnly: bool)
    requires '.' !in prefix && signer.Configured()
    ensures Seal(signer, prefix, body).Ok?
    ensures Open(signer, prefix, Seal(signer, prefix, body).value, asciiOnly) == Ok(body)
  {
    var encoded := Text(body);
    TextRoundTrip(body);
    TextRepads(body);
    LettersAreAscii(encoded);
    OpenIff(signer, prefix, Seal(signer, prefix, body).value, asciiOnly, encoded, body);
  }

  /** Whatever does not open is refused for the first of these reasons: it has not three parts or another
      prefix; there is no proper key; it cannot be compared; it is signed otherwise; its payload is no
      text of letters. */
  lemma {:induction false} OpenRefused(
      signer: Signer, token: string, prefix: string, encoded: string, supplied: string, asciiOnly: bool)
    requires '.' !in prefix && '.' !in encoded && token == prefix + "." + encoded + "." + supplied
    ensures forall other | other != prefix && '.' !in other :: Open(signer, other, token, asciiOnly) == Err(Malformed)
    ensures var r := Open(signer, prefix, token, asciiOnly);
            if |signer.key| < 32 then r == Err(KeyNotConfigured)
            else if exists i :: 0 <= i < |supplied| && supplied[i] as int >= 128 then r == Err(Malformed)
            else if asciiOnly && exists i :: 0 <= i < |encoded| && encoded[i] as int >= 128 then r == Err(Malformed)
            else if supplied != Text(signer.mac(signer.key, encoded)) then r == Err(SignatureInvalid)
            else Decode(Repad(encoded)).None? ==> r == Err(Malformed)
  {
    SplitIff(token, prefix, encoded, supplied);
  }

  /** A text without two dots is malformed under any prefix. */
  lemma {:induction false} TwoDotsNeeded(signer: Signer, prefix: string, token: string, asciiOnly: bool)
    requires forall a: string, b: string, c: string :: token == a + "." + b + "." + c ==> '.' in a || '.' in b
    ensures Open(signer, prefix, token, asciiOnly) == Err(Malformed)
  {
    if Split(token).Some? {
      var a, b, c := SplitParts(token);
    }
  }

  lemma {:induction false} SplitParts(token: string) returns (a: string, b: string, c: string)
    requires Split(token).Some?
    ensures token == a + "." + b + "." + c && '.' !in a && '.' !in b
  {
    a, b, c := Split(token).value.0, Split(token).value.1, Split(token).value.2;
    SplitIff(token, a, b, c);
  }
}
