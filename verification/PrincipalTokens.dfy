/** Short-lived continuation tokens that carry a verified principal (runtime/request_auth.py). */
module PrincipalTokens {
  import opened Common
  import opened Base64Url
  import opened Tokens

  const PREFIX := "genesis-principal-v1"
  const AUDIENCE := "genesis-gateway"
  const MAX_TTL := 600
  const EARLY := 60

  datatype Principal = Principal(
    id: string, tenant: string, client: string, scopes: set<string>, authMethod: string, expiresAt: int)

  /** The JSON object inside a token; any member may be absent from a foreign one. */
  datatype Claims = Claims(
    v: Option<int>, aud: Option<string>, sub: Option<string>, tenant: Option<string>, client: Option<string>,
    scopes: Option<seq<string>>, iat: Option<int>, exp: Option<int>)

  /** Canonical JSON printing, and parsing of any bytes. */
  datatype Codec = Codec(dump: Claims -> seq<Byte>, load: seq<Byte> -> Option<Claims>) {
    ghost predicate RoundTrips() {
      forall c :: load(dump(c)) == Some(c)
    }
  }

  datatype AuthError = TokenRefused(why: TokenError) | TokenExpired | IdentityMissing | MissingMember

  // ----- sorted scopes --------------------------------------------------------------------------

  ghost predicate Ascending(s: seq<string>) {
    forall i, j :: 0 <= i < j < |s| ==> LexLess(s[i], s[j])
  }

  ghost predicate Least(m: string, s: set<string>) {
    m in s && forall x :: x in s && x != m ==> LexLess(m, x)
  }

  lemma {:induction false} LeastExists(s: set<string>) returns (m: string)
    requires s != {}
    ensures Least(m, s)
    decreases |s|
  {
    var y :| y in s;
    if s == {y} {
      m := y;
    } else {
      assert s - {y} != {};
      var r := LeastExists(s - {y});
      LexTotal(r, y);
      if LexLess(r, y) {
        m := r;
      } else {
        m := y;
        forall x | x in s && x != m
          ensures LexLess(m, x)
        {
          if x != r { LexTransitive(m, r, x); }
        }
      }
    }
  }

  /** `sorted(scopes)`. */
  ghost function Sorted(s: set<string>): (r: seq<string>)
    ensures Ascending(r)
    ensures forall x :: x in r <==> x in s
    decreases |s|
  {
    if s == {} then []
    else
      var m := LeastOf(s);
      var rest := Sorted(s - {m});
      assert forall k :: 0 <= k < |rest| ==> rest[k] in s - {m};
      [m] + rest
  }

  ghost function LeastOf(s: set<string>): (m: string)
    requires s != {}
    ensures Least(m, s)
  {
    assert exists m :: Least(m, s) by { var m := LeastExists(s); }
    var m :| Least(m, s);
    m
  }

  /** The printed list depends on the set of scopes alone. */
  lemma {:induction false} AscendingUnique(a: seq<string>, b: seq<string>)
    requires Ascending(a) && Ascending(b) && (forall x :: x in a <==> x in b)
    ensures a == b
  {
    assert b != [] ==> b[0] in a;
    if a != [] {
      assert a[0] in b;
      if a[0] != b[0] {
        LexAsymmetric(a[0], b[0]);
      }
      TailMembers(a);
      TailMembers(b);
      AscendingUnique(a[1..], b[1..]);
    }
  }

  lemma {:induction false} LexAsymmetric(a: string, b: string)
    ensures !(LexLess(a, b) && LexLess(b, a))
  {
    if LexLess(a, b) && LexLess(b, a) {
      LexTransitive(a, b, a);
      LexIrreflexive(a);
    }
  }

  lemma {:induction false} TailMembers(a: seq<string>)
    requires Ascending(a) && a != []
    ensures Ascending(a[1..])
    ensures forall x :: x in a[1..] <==> x in a && x != a[0]
  {
    LexIrreflexive(a[0]);
    assert a == [a[0]] + a[1..];
  }

  // ----- issue and verify ---------------------------------------------------------------------

  ghost function ClaimsOf(p: Principal, now: int, ttl: int): Claims {
    Claims(Some(1), Some(AUDIENCE), Some(p.id), Some(p.tenant), Some(p.client), Some(Sorted(p.scopes)),
           Some(now), Some(now + Lifetime(ttl, MAX_TTL)))
  }

  ghost function Issue(signer: Signer, codec: Codec, p: Principal, now: int, ttl: int): Result<string, TokenError> {
    Seal(signer, PREFIX, codec.dump(ClaimsOf(p, now, ttl)))
  }

  function CheckClaims(c: Claims, current: int): Result<Principal, AuthError> {
    if c.v != Some(1) || c.aud != Some(AUDIENCE) || current > OrElse(c.exp, 0) || current < OrElse(c.iat, 0) - EARLY
    then Err(TokenExpired)
    else if OrElse(c.sub, "") == "" || OrElse(c.tenant, "") == "" then Err(IdentityMissing)
    else if c.exp.None? then Err(MissingMember)
    else Ok(Principal(c.sub.value, c.tenant.value, OrElse(c.client, ""),
                      set x | x in OrElse(c.scopes, []), "principal_token", c.exp.value))
  }

  function Verify(signer: Signer, codec: Codec, token: string, current: int): Result<Principal, AuthError> {
    var body := Open(signer, PREFIX, token, true);
    if body.Err? then Err(TokenRefused(body.error))
    else
      var c := codec.load(body.value);
      if c.None? then Err(TokenRefused(Malformed)) else CheckClaims(c.value, current)
  }

  /** Claims give a principal if and only if they are of this version and audience, name subject and tenant
      and an expiry, and the instant is in their time; and it is the principal they name. */
  lemma {:induction false} CheckClaimsIff(c: Claims, current: int, p: Principal)
    ensures CheckClaims(c, current) == Ok(p) <==>
            && c.v == Some(1) && c.aud == Some("genesis-gateway")
            && c.exp == Some(p.expiresAt) && current <= p.expiresAt
            && (c.iat.Some? ==> c.iat.value - 60 <= current) && (c.iat.None? ==> -60 <= current)
            && c.sub == Some(p.id) && p.id != "" && c.tenant == Some(p.tenant) && p.tenant != ""
            && (c.client == Some(p.client) || (c.client.None? && p.client == ""))
            && (forall x :: x in p.scopes <==> c.scopes.Some? && x in c.scopes.value)
            && p.authMethod == "principal_token"
  {
    var scopes := set x | x in OrElse(c.scopes, []);
    if CheckClaims(c, current).Ok? {
      assert CheckClaims(c, current).value.scopes == scopes;
    }
    if forall x :: x in p.scopes <==> c.scopes.Some? && x in c.scopes.value {
      assert p.scopes == scopes;
    }
  }

  // ----- what a token is worth -----------------------------------------------------------------

  lemma {:induction false} IssuedClaimsCheck(p: Principal, now: int, ttl: int, current: int)
    ensures CheckClaims(ClaimsOf(p, now, ttl), current) ==
            if !(now - EARLY <= current <= now + Lifetime(ttl, MAX_TTL)) then Err(TokenExpired)
            else if p.id == "" || p.tenant == "" then Err(IdentityMissing)
            else Ok(p.(authMethod := "principal_token", expiresAt := now + Lifetime(ttl, MAX_TTL)))
  {
    assert (set x | x in Sorted(p.scopes)) == p.scopes;
  }

  lemma {:induction false} IssuedTokenOpens(signer: Signer, codec: Codec, p: Principal, now: int, ttl: int)
    requires signer.Configured()
    ensures Issue(signer, codec, p, now, ttl).Ok?
    ensures Open(signer, PREFIX, Issue(signer, codec, p, now, ttl).value, true) == Ok(codec.dump(ClaimsOf(p, now, ttl)))
  {
    assert '.' !in PREFIX;
    OpenSeal(signer, PREFIX, codec.dump(ClaimsOf(p, now, ttl)), true);
  }

  /** For every principal, lifetime and pair of instants: outside [iat - 60, exp] the token is
      expired; inside, an identity without subject or tenant is refused, and any other comes back
      with the same subject, tenant, client and scopes, good for 1 to 600 seconds. */
  lemma {:induction false} IssuedTokenVerifies(
      signer: Signer, codec: Codec, p: Principal, now: int, ttl: int, current: int)
    requires |signer.key| >= 32 && codec.RoundTrips()
    ensures var exp := now + Lifetime(ttl, MAX_TTL);
            var token := Issue(signer, codec, p, now, ttl);
            && now + 1 <= exp <= now + MAX_TTL
            && token.Ok?
            && Verify(signer, codec, token.value, current) ==
               if !(now - EARLY <= current <= exp) then Err(TokenExpired)
               else if p.id == "" || p.tenant == "" then Err(IdentityMissing)
               else Ok(p.(authMethod := "principal_token", expiresAt := exp))
  {
    IssuedTokenOpens(signer, codec, p, now, ttl);
    IssuedClaimsCheck(p, now, ttl, current);
  }

  /** Issuing needs a key of at least 32 characters, and so does verifying. */
  lemma {:induction false} ShortKeyRefused(
      signer: Signer, codec: Codec, p: Principal, now: int, ttl: int, token: string, current: int)
    requires |signer.key| < 32
    ensures Issue(signer, codec, p, now, ttl) == Err(KeyNotConfigured)
    ensures Verify(signer, codec, token, current).Err?
  {
  }

  datatype Issuance = Issuance(principal: Principal, now: int, ttl: int)

  ghost function Encoding(codec: Codec, i: Issuance): string {
    Text(codec.dump(ClaimsOf(i.principal, i.now, i.ttl)))
  }

  /** Only issued payloads carry a good signature: what an unforgeable MAC gives. */
  ghost predicate Unforged(signer: Signer, codec: Codec, issued: set<Issuance>, token: string) {
    forall encoded :: '.' !in encoded && token == Joined(PREFIX, encoded, signer.Sign(encoded)) ==>
      exists i :: i in issued && Encoding(codec, i) == encoded
  }

  /** A verified token gives back a principal that was issued, within that issuance's lifetime:
      nothing in the token can be altered to gain a scope, a tenant or time. */
  lemma {:induction false} VerifiedWasIssued(
      signer: Signer, codec: Codec, issued: set<Issuance>, token: string, current: int)
    returns (i: Issuance)
    requires codec.RoundTrips() && Unforged(signer, codec, issued, token)
    requires Verify(signer, codec, token, current).Ok?
    ensures i in issued
    ensures i.now - EARLY <= current <= i.now + Lifetime(i.ttl, MAX_TTL)
    ensures Verify(signer, codec, token, current).value ==
            i.principal.(authMethod := "principal_token", expiresAt := i.now + Lifetime(i.ttl, MAX_TTL))
  {
    var encoded := OpenedIsSigned(signer, PREFIX, token, true);
    i :| i in issued && Encoding(codec, i) == encoded;
    var c := ClaimsOf(i.principal, i.now, i.ttl);
    TextRoundTrip(codec.dump(c));
    assert codec.load(codec.dump(c)) == Some(c);
    IssuedTokenVerifies(signer, codec, i.principal, i.now, i.ttl, current);
    assert token == Issue(signer, codec, i.principal, i.now, i.ttl).value;
  }
}
