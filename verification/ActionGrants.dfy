/** Payload-bound, expiring, single-use action grants (runtime/action_grants.py). */
module ActionGrants {
  import opened Common
  import opened Base64Url
  import opened Tokens
  import opened SingleUse

  const PREFIX := "genesis-action-v1"
  const AUDIENCE := "genesis-tool-dispatch"
  const MAX_TTL := 300
  const EARLY := 60

  /** The JSON object inside a grant; any member may be absent from a foreign one. */
  datatype Claims = Claims(
    v: Option<int>, aud: Option<string>, jti: Option<string>, authorization: Option<string>,
    sub: Option<string>, tenant: Option<string>, tool: Option<string>, argsDigest: Option<string>,
    iat: Option<int>, exp: Option<int>)

  /** JSON of the claims and the hex digest of a tool call's arguments. */
  datatype Scheme<!A> = Scheme(
    signer: Signer, dump: Claims -> seq<Byte>, load: seq<Byte> -> Option<Claims>, digest: (string, A) -> string)
  {
    ghost predicate RoundTrips() {
      forall c :: load(dump(c)) == Some(c)
    }
  }

  datatype GrantError =
    | TokenRefused(why: TokenError)
    | AudienceInvalid
    | GrantExpired
    | PrincipalMismatch
    | TenantMismatch
    | ToolMismatch
    | ArgsMismatch
    | NotComparable      // comparing text outside ASCII raises
    | MissingMember
    | AlreadyConsumed
    | StoreUnavailable

  /** One use of a token: what is presented, for which call, and when. */
  datatype Use<A> = Use(
    token: string, principal: string, tenant: string, tool: string, args: A, now: int, storeUp: bool)

  datatype Check = Check(actual: string, required: string, error: GrantError)

  function Checks<A>(s: Scheme<A>, c: Claims, u: Use<A>): seq<Check> {
    [Check(OrElse(c.sub, ""), u.principal, PrincipalMismatch),
     Check(OrElse(c.tenant, ""), u.tenant, TenantMismatch),
     Check(OrElse(c.tool, ""), u.tool, ToolMismatch),
     Check(OrElse(c.argsDigest, ""), s.digest(u.tool, u.args), ArgsMismatch)]
  }

  predicate Comparable(k: Check) {
    Ascii(k.actual) && Ascii(k.required)
  }

  predicate Holds(k: Check) {
    Comparable(k) && k.actual == k.required
  }

  /** The error of the first check that does not hold. */
  function FirstError(ks: seq<Check>): Option<GrantError> {
    if ks == [] then None
    else if !Comparable(ks[0]) then Some(NotComparable)
    else if ks[0].actual != ks[0].required then Some(ks[0].error)
    else FirstError(ks[1..])
  }

  lemma {:induction false} FirstErrorAt(ks: seq<Check>, n: nat)
    requires n < |ks| && (forall i :: 0 <= i < n ==> Holds(ks[i])) && !Holds(ks[n])
    ensures FirstError(ks) == Some(if Comparable(ks[n]) then ks[n].error else NotComparable)
    ensures Comparable(ks[n]) <==> forall c :: c in ks[n].actual || c in ks[n].required ==> c as int < 128
  {
    if n > 0 {
      FirstErrorAt(ks[1..], n - 1);
    }
    assert forall i :: 0 <= i < |ks[n].actual| ==> ks[n].actual[i] in ks[n].actual;
    assert forall i :: 0 <= i < |ks[n].required| ==> ks[n].required[i] in ks[n].required;
  }

  lemma {:induction false} NoErrorIff(ks: seq<Check>)
    ensures FirstError(ks).None? <==> forall i :: 0 <= i < |ks| ==> Holds(ks[i])
  {
    if ks != [] {
      NoErrorIff(ks[1..]);
      assert forall i :: 1 <= i < |ks| ==> ks[i] == ks[1..][i - 1];
      assert forall i :: 0 <= i < |ks[1..]| ==> ks[1..][i] == ks[i + 1];
    }
  }

  method RunChecks(ks: seq<Check>) returns (r: Option<GrantError>)
    ensures r == FirstError(ks)
  {
    for i := 0 to |ks|
      invariant forall j :: 0 <= j < i ==> Holds(ks[j])
    {
      if !Comparable(ks[i]) || ks[i].actual != ks[i].required {
        FirstErrorAt(ks, i);
        return Some(if !Comparable(ks[i]) then NotComparable else ks[i].error);
      }
    }
    NoErrorIff(ks);
    r := None;
  }

  /** Everything before the store is asked. */
  function Examine<A>(s: Scheme<A>, u: Use<A>): Result<Claims, GrantError> {
    var body := Open(s.signer, PREFIX, u.token, false);
    if body.Err? then Err(TokenRefused(body.error))
    else
      var c := s.load(body.value);
      if c.None? then Err(TokenRefused(Malformed)) else ExamineClaims(s, c.value, u)
  }

  function ExamineClaims<A>(s: Scheme<A>, c: Claims, u: Use<A>): Result<Claims, GrantError> {
    if c.v != Some(1) || c.aud != Some(AUDIENCE) then Err(AudienceInvalid)
    else if u.now > OrElse(c.exp, 0) || u.now < OrElse(c.iat, 0) - EARLY then Err(GrantExpired)
    else
      var e := FirstError(Checks(s, c, u));
      if e.Some? then Err(e.value)
      else if c.jti.None? || c.exp.None? then Err(MissingMember)
      else Ok(c)
  }

  /** The store call a use amounts to: one clock reading serves the expiry check and the sweep. */
  function CallOf<A>(s: Scheme<A>, u: Use<A>): Call<string> {
    var e := Examine(s, u);
    if e.Ok? && e.value.jti.Some? && e.value.exp.Some?
    then Call(e.value.jti.value, e.value.exp.value, u.storeUp, Reading(u.now, u.now))
    else Call("", 0, false, Reading(u.now, u.now))
  }

  class GrantDesk<A> {
    const scheme: Scheme<A>
    const spent: SpentStore<string>

    constructor (scheme: Scheme<A>)
      ensures this.scheme == scheme && fresh(spent) && spent.rows == map[]
    {
      this.scheme := scheme;
      spent := new SpentStore<string>();
    }

    /** A grant is honoured, and then spent, exactly when it passes and was not spent before; the
        caller gets its authorization id. A refusal leaves the store as it was. */
    method Consume(u: Use<A>) returns (r: Result<string, GrantError>)
      modifies spent
      ensures spent.rows == Next(old(spent.rows), CallOf(scheme, u))
      ensures r.Ok? <==> Accepted(old(spent.rows), CallOf(scheme, u))
      ensures Examine(scheme, u).Err? ==> r == Err(Examine(scheme, u).error)
      ensures Examine(scheme, u).Ok? ==>
                r == if !u.storeUp then Err(StoreUnavailable)
                     else if Accepted(old(spent.rows), CallOf(scheme, u))
                     then Ok(OrElse(Examine(scheme, u).value.authorization, ""))
                     else Err(AlreadyConsumed)
    {
      var body := Open(scheme.signer, PREFIX, u.token, false);
      if body.Err? { return Err(TokenRefused(body.error)); }
      var loaded := scheme.load(body.value);
      if loaded.None? { return Err(TokenRefused(Malformed)); }
      var c := loaded.value;
      if c.v != Some(1) || c.aud != Some(AUDIENCE) { return Err(AudienceInvalid); }
      if u.now > OrElse(c.exp, 0) || u.now < OrElse(c.iat, 0) - EARLY { return Err(GrantExpired); }
      var e := RunChecks(Checks(scheme, c, u));
      if e.Some? { return Err(e.value); }
      if c.jti.None? || c.exp.None? { return Err(MissingMember); }
      var s := spent.Spend(Call(c.jti.value, c.exp.value, u.storeUp, Reading(u.now, u.now)));
      if s.Ok? { return Ok(OrElse(c.authorization, "")); }
      r := Err(if u.storeUp then AlreadyConsumed else StoreUnavailable);
    }
  }

  // ----- single use -----------------------------------------------------------------------------

  ghost function CallsOf<A>(s: Scheme<A>, uses: seq<Use<A>>): (r: seq<Call<string>>)
    ensures |r| == |uses|
    ensures forall i :: 0 <= i < |uses| ==> r[i] == CallOf(s, uses[i])
  {
    seq(|uses|, i requires 0 <= i < |uses| => CallOf(s, uses[i]))
  }

  /** In a run of uses on a clock that never goes back, from any store, no grant is honoured twice:
      two honoured uses never share a token, nor a grant id and expiry. Expired rows are swept all
      the while. */
  lemma {:induction false} GrantsAreSingleUse<A>(
      s: Scheme<A>, rows: map<string, int>, uses: seq<Use<A>>, i: nat, j: nat)
    requires forall m, n :: 0 <= m < n < |uses| ==> uses[m].now <= uses[n].now
    requires i < j < |uses|
    requires AcceptedAt(rows, CallsOf(s, uses), i) && AcceptedAt(rows, CallsOf(s, uses), j)
    ensures uses[i].token != uses[j].token
    ensures var c, d := Examine(s, uses[i]), Examine(s, uses[j]);
            c.Ok? && d.Ok? && (c.value.jti != d.value.jti || c.value.exp != d.value.exp)
  {
    var calls := CallsOf(s, uses);
    CallsAtMostOnce(s, rows, uses);
    assert calls[i].passes && calls[j].passes && !SameMessage(calls[i], calls[j]);
    HonouredCall(s, uses[i]);
    HonouredCall(s, uses[j]);
    if uses[i].token == uses[j].token {
      SameTokenSameClaims(s, uses[i], uses[j]);
    }
  }

  lemma {:induction false} CallsAtMostOnce<A>(s: Scheme<A>, rows: map<string, int>, uses: seq<Use<A>>)
    requires forall m, n :: 0 <= m < n < |uses| ==> uses[m].now <= uses[n].now
    ensures AtMostOnce(rows, CallsOf(s, uses))
  {
    var calls := CallsOf(s, uses);
    forall i | 0 <= i < |uses|
      ensures calls[i].at == Reading(uses[i].now, uses[i].now)
    {
      assert calls[i] == CallOf(s, uses[i]);
    }
    OneReadingAtMostOnce(rows, calls);
  }

  lemma {:induction false} HonouredCall<A>(s: Scheme<A>, u: Use<A>)
    requires CallOf(s, u).passes
    ensures Examine(s, u).Ok?
    ensures Examine(s, u).value.jti == Some(CallOf(s, u).key) && Examine(s, u).value.exp == Some(CallOf(s, u).exp)
  {
  }

  lemma {:induction false} SameTokenSameClaims<A>(s: Scheme<A>, u: Use<A>, v: Use<A>)
    requires u.token == v.token && Examine(s, u).Ok? && Examine(s, v).Ok?
    ensures Examine(s, u) == Examine(s, v)
  {
  }

  // ----- what a grant allows ----------------------------------------------------------------------

  /** What a grant is issued for; `jti` is the fresh id. */
  datatype Grant<A> = Grant(
    jti: string, authorization: string, principal: string, tenant: string, tool: string, args: A, now: int, ttl: int)

  function ClaimsOf<A>(s: Scheme<A>, g: Grant<A>): Claims {
    Claims(Some(1), Some(AUDIENCE), Some(g.jti), Some(g.authorization), Some(g.principal), Some(g.tenant),
           Some(g.tool), Some(s.digest(g.tool, g.args)), Some(g.now), Some(g.now + Lifetime(g.ttl, MAX_TTL)))
  }

  function Issue<A>(s: Scheme<A>, g: Grant<A>): Result<string, TokenError> {
    Seal(s.signer, PREFIX, s.dump(ClaimsOf(s, g)))
  }

  /** The call a use is for is the call the grant was issued for, up to the digest of the arguments. */
  predicate Matches<A>(s: Scheme<A>, g: Grant<A>, u: Use<A>) {
    && u.principal == g.principal && u.tenant == g.tenant && u.tool == g.tool
    && s.digest(u.tool, u.args) == s.digest(g.tool, g.args)
  }

  predicate AllAscii<A>(s: Scheme<A>, g: Grant<A>) {
    Ascii(g.principal) && Ascii(g.tenant) && Ascii(g.tool) && Ascii(s.digest(g.tool, g.args))
  }

  lemma {:induction false} IssuedGrantOpens<A>(s: Scheme<A>, g: Grant<A>)
    requires s.signer.Configured()
    ensures Issue(s, g).Ok?
    ensures Open(s.signer, PREFIX, Issue(s, g).value, false) == Ok(s.dump(ClaimsOf(s, g)))
  {
    assert '.' !in PREFIX;
    OpenSeal(s.signer, PREFIX, s.dump(ClaimsOf(s, g)), false);
  }

  lemma {:induction false} MatchesIffChecks<A>(s: Scheme<A>, g: Grant<A>, u: Use<A>)
    ensures FirstError(Checks(s, ClaimsOf(s, g), u)).None? <==> Matches(s, g, u) && AllAscii(s, g)
  {
    var ks := Checks(s, ClaimsOf(s, g), u);
    NoErrorIff(ks);
    assert ks[0] == Check(g.principal, u.principal, PrincipalMismatch);
    assert ks[1] == Check(g.tenant, u.tenant, TenantMismatch);
    assert ks[2] == Check(g.tool, u.tool, ToolMismatch);
    assert ks[3] == Check(s.digest(g.tool, g.args), s.digest(u.tool, u.args), ArgsMismatch);
  }

  /** An issued grant passes exactly when it is used for the call it was issued for, between a
      minute before its issue and its expiry. */
  lemma {:induction false} IssuedGrantPassesIff<A>(s: Scheme<A>, g: Grant<A>, u: Use<A>)
    requires s.signer.Configured() && s.RoundTrips()
    requires Issue(s, g) == Ok(u.token)
    ensures Examine(s, u).Ok? <==>
            g.now - EARLY <= u.now <= g.now + Lifetime(g.ttl, MAX_TTL) && Matches(s, g, u) && AllAscii(s, g)
    ensures Examine(s, u).Ok? ==> Examine(s, u).value == ClaimsOf(s, g)
  {
    IssuedGrantOpens(s, g);
    MatchesIffChecks(s, g, u);
  }

  /** Under a digest without collision, that call is the same tool with the same arguments. */
  lemma {:induction false} MatchMeansSameCall<A(!new)>(s: Scheme<A>, g: Grant<A>, u: Use<A>)
    requires CollisionFreeOn((p: (string, A)) => s.digest(p.0, p.1), {(g.tool, g.args), (u.tool, u.args)})
    ensures Matches(s, g, u) <==>
            u.principal == g.principal && u.tenant == g.tenant && u.tool == g.tool && u.args == g.args
  {
    var h := (p: (string, A)) => s.digest(p.0, p.1);
    assert h((g.tool, g.args)) == h((u.tool, u.args)) ==> (g.tool, g.args) == (u.tool, u.args);
  }

  /** Only issued payloads carry a good signature: what an unforgeable MAC gives. */
  ghost predicate Unforged<A(!new)>(s: Scheme<A>, issued: set<Grant<A>>, token: string) {
    forall encoded :: '.' !in encoded && token == Joined(PREFIX, encoded, s.signer.Sign(encoded)) ==>
      exists g :: g in issued && Text(s.dump(ClaimsOf(s, g))) == encoded
  }

  /** A use that passes is of an issued grant, for the call it was issued for and within its time. */
  lemma {:induction false} PassedWasIssued<A(!new)>(
      s: Scheme<A>, issued: set<Grant<A>>, u: Use<A>) returns (g: Grant<A>)
    requires s.RoundTrips() && Unforged(s, issued, u.token) && Examine(s, u).Ok?
    ensures g in issued && Examine(s, u).value == ClaimsOf(s, g) && Matches(s, g, u)
    ensures var c := Examine(s, u).value;
            && c.jti == Some(g.jti) && c.authorization == Some(g.authorization)
            && c.exp == Some(g.now + Lifetime(g.ttl, 300))
    ensures g.now - EARLY <= u.now <= g.now + Lifetime(g.ttl, MAX_TTL)
  {
    var encoded := OpenedIsSigned(s.signer, PREFIX, u.token, false);
    g :| g in issued && Text(s.dump(ClaimsOf(s, g))) == encoded;
    assert Issue(s, g) == Ok(u.token);
    IssuedGrantPassesIff(s, g, u);
  }

  /** Grants are issued under ids of their own. */
  ghost predicate IdsApart<A(!new)>(issued: set<Grant<A>>) {
    forall g, k :: g in issued && k in issued && g.jti == k.jti ==> g == k
  }

  /** So over a run of uses, whatever is presented and although expired rows are swept, two honoured
      uses are of two different issued grants with different ids, each used for its own call. */
  lemma {:induction false} EachGrantHonouredOnce<A(!new)>(
      s: Scheme<A>, issued: set<Grant<A>>, rows: map<string, int>, uses: seq<Use<A>>, i: nat, j: nat)
    returns (g: Grant<A>, k: Grant<A>)
    requires s.RoundTrips() && IdsApart(issued)
    requires forall n :: 0 <= n < |uses| ==> Unforged(s, issued, uses[n].token)
    requires forall m, n :: 0 <= m < n < |uses| ==> uses[m].now <= uses[n].now
    requires i < j < |uses|
    requires AcceptedAt(rows, CallsOf(s, uses), i) && AcceptedAt(rows, CallsOf(s, uses), j)
    ensures g in issued && k in issued && g.jti != k.jti
    ensures Matches(s, g, uses[i]) && Matches(s, k, uses[j])
  {
    GrantsAreSingleUse(s, rows, uses, i, j);
    g := PassedWasIssued(s, issued, uses[i]);
    k := PassedWasIssued(s, issued, uses[j]);
  }

  // ----- uses that reach the store out of order -------------------------------------------------------

  /** A grant is good for at most this long: from a minute before its issue to its expiry. */
  const WINDOW := MAX_TTL + EARLY

  /** A run on this clock of uses of grants that were issued under ids of their own. `clock` lists the
      readings in the order in which the store serves the uses. */
  ghost predicate IssuedRun<A(!new)>(s: Scheme<A>, issued: set<Grant<A>>, clock: seq<Reading>, uses: seq<Use<A>>) {
    && IdsApart(issued) && |uses| == |clock|
    && forall n :: 0 <= n < |uses| ==>
         Unforged(s, issued, uses[n].token) && clock[n] == Reading(uses[n].now, uses[n].now)
  }

  /** No grant id is honoured twice. */
  ghost predicate HonouredOnce<A>(s: Scheme<A>, uses: seq<Use<A>>) {
    forall i: nat, j: nat
      | i < j < |uses| && AcceptedAt(map[], CallsOf(s, uses), i) && AcceptedAt(map[], CallsOf(s, uses), j)
      :: CallOf(s, uses[i]).key != CallOf(s, uses[j]).key
  }

  ghost predicate GrantsSafeOn<A(!new)>(s: Scheme<A>, clock: seq<Reading>) {
    forall issued: set<Grant<A>>, uses: seq<Use<A>> | IssuedRun(s, issued, clock, uses) :: HonouredOnce(s, uses)
  }

  lemma {:induction false} IssuedCalls<A(!new)>(
      s: Scheme<A>, issued: set<Grant<A>>, clock: seq<Reading>, uses: seq<Use<A>>)
    requires s.RoundTrips() && IssuedRun(s, issued, clock, uses)
    ensures OnClock(CallsOf(s, uses), clock) && Windowed(CallsOf(s, uses), WINDOW)
  {
    var calls := CallsOf(s, uses);
    forall n | 0 <= n < |uses|
      ensures calls[n].at == clock[n] && (calls[n].passes ==> calls[n].exp - WINDOW <= calls[n].at.checked)
    {
      if calls[n].passes {
        HonouredCall(s, uses[n]);
        var g := PassedWasIssued(s, issued, uses[n]);
      }
    }
  }

  lemma {:induction false} SafeClockHonoursOnce<A(!new)>(
      s: Scheme<A>, issued: set<Grant<A>>, clock: seq<Reading>, uses: seq<Use<A>>)
    requires s.RoundTrips() && IssuedRun(s, issued, clock, uses) && Safe(clock, WINDOW)
    ensures HonouredOnce(s, uses)
  {
    var calls := CallsOf(s, uses);
    IssuedCalls(s, issued, clock, uses);
    SafeClockSuffices(map[], calls, clock, WINDOW);
    forall i: nat, j: nat | i < j < |uses| && AcceptedAt(map[], calls, i) && AcceptedAt(map[], calls, j)
      ensures CallOf(s, uses[i]).key != CallOf(s, uses[j]).key
    {
      HonouredCall(s, uses[i]);
      HonouredCall(s, uses[j]);
      var g := PassedWasIssued(s, issued, uses[i]);
      var k := PassedWasIssued(s, issued, uses[j]);
      assert !SameMessage(calls[i], calls[j]);
    }
  }

  // The replay: one grant used at `i` and `j`, another one in between on a later reading.

  function Expiring<A>(jti: string, exp: int, args: A): Grant<A> {
    Grant(jti, "", "", "", "", args, exp - MAX_TTL, MAX_TTL)
  }

  function UseAt<A>(s: Scheme<A>, g: Grant<A>, now: int): Use<A> {
    var token := Issue(s, g);
    Use(if token.Ok? then token.value else "", "", "", "", g.args, now, true)
  }

  function Idle<A>(args: A, now: int): Use<A> {
    Use("", "", "", "", args, now, true)
  }

  function ReplayUse<A>(s: Scheme<A>, args: A, clock: seq<Reading>, i: nat, k: nat, j: nat, n: nat): Use<A>
    requires i < k < j < |clock| && n < |clock|
  {
    var now := clock[n].checked;
    if n == i || n == j then UseAt(s, Expiring("a", Later(clock[i].checked, clock[j].checked), args), now)
    else if n == k then UseAt(s, Expiring("b", now, args), now)
    else Idle(args, now)
  }

  ghost function ReplayUses<A>(s: Scheme<A>, args: A, clock: seq<Reading>, i: nat, k: nat, j: nat): (r: seq<Use<A>>)
    requires i < k < j < |clock|
    ensures |r| == |clock| && forall n: nat :: n < |r| ==> r[n] == ReplayUse(s, args, clock, i, k, j, n)
  {
    seq(|clock|, n requires 0 <= n < |clock| => ReplayUse(s, args, clock, i, k, j, n))
  }

  lemma {:induction false} IdleFails<A>(s: Scheme<A>, args: A, now: int)
    ensures !CallOf(s, Idle(args, now)).passes
  {
    assert Split("").None?;
  }

  /** A use of a grant for its own call, within its time, comes to a store call that passes. */
  lemma {:induction false} OwnUsePasses<A>(s: Scheme<A>, jti: string, exp: int, args: A, now: int)
    requires s.RoundTrips() && s.signer.Configured() && Ascii(s.digest("", args))
    requires exp - WINDOW <= now <= exp
    ensures CallOf(s, UseAt(s, Expiring(jti, exp, args), now)) == Call(jti, exp, true, Reading(now, now))
  {
    var g := Expiring(jti, exp, args);
    IssuedGrantOpens(s, g);
    IssuedGrantPassesIff(s, g, UseAt(s, g, now));
  }

  lemma {:induction false} OwnTokenUnforged<A(!new)>(s: Scheme<A>, issued: set<Grant<A>>, g: Grant<A>)
    requires s.signer.Configured() && g in issued
    ensures Unforged(s, issued, Issue(s, g).value)
  {
    var own := Text(s.dump(ClaimsOf(s, g)));
    var token := Issue(s, g).value;
    TextRoundTrip(s.dump(ClaimsOf(s, g)));
    forall encoded | '.' !in encoded && token == Joined(PREFIX, encoded, s.signer.Sign(encoded))
      ensures encoded == own
    {
      SplitIff(token, PREFIX, encoded, s.signer.Sign(encoded));
      SplitIff(token, PREFIX, own, s.signer.Sign(own));
    }
  }

  lemma {:induction false} EmptyTokenUnforged<A(!new)>(s: Scheme<A>, issued: set<Grant<A>>)
    ensures Unforged(s, issued, "")
  {
    forall encoded ensures Joined(PREFIX, encoded, s.signer.Sign(encoded)) != "" {
      assert |Joined(PREFIX, encoded, s.signer.Sign(encoded))| >= |PREFIX| > 0;
    }
  }

  lemma {:induction false} ReplayIsIssuedRun<A(!new)>(
      s: Scheme<A>, args: A, clock: seq<Reading>, i: nat, k: nat, j: nat)
    returns (issued: set<Grant<A>>)
    requires s.signer.Configured() && OneReading(clock) && i < k < j < |clock|
    ensures IssuedRun(s, issued, clock, ReplayUses(s, args, clock, i, k, j))
  {
    var g := Expiring("a", Later(clock[i].checked, clock[j].checked), args);
    var h := Expiring("b", clock[k].checked, args);
    issued := {g, h};
    var uses := ReplayUses(s, args, clock, i, k, j);
    OwnTokenUnforged(s, issued, g);
    OwnTokenUnforged(s, issued, h);
    EmptyTokenUnforged(s, issued);
    assert g.jti != h.jti;
    forall n: nat | n < |uses|
      ensures Unforged(s, issued, uses[n].token) && clock[n] == Reading(uses[n].now, uses[n].now)
    {
      assert uses[n] == ReplayUse(s, args, clock, i, k, j, n);
      assert clock[n] == Reading(clock[n].checked, clock[n].swept);
    }
  }

  /** A call that overtakes two others lets a grant through twice: it sweeps the row of the first use. */
  lemma {:induction false} OvertakenReplays<A(!new)>(s: Scheme<A>, args: A, clock: seq<Reading>, i: nat, k: nat, j: nat)
    requires s.RoundTrips() && s.signer.Configured() && Ascii(s.digest("", args))
    requires OneReading(clock) && Overtaken(clock, WINDOW, i, k, j)
    ensures var calls := CallsOf(s, ReplayUses(s, args, clock, i, k, j));
            AcceptedAt(map[], calls, i) && AcceptedAt(map[], calls, j) && calls[i].key == calls[j].key == "a"
  {
    var uses := ReplayUses(s, args, clock, i, k, j);
    var calls := CallsOf(s, uses);
    ReplayCallsAre(s, args, clock, i, k, j);
    assert Replays(calls, i, k, j);
    ReplayAccepted(calls, i, k, j);
  }

  lemma {:induction false} ReplayCallsAre<A(!new)>(s: Scheme<A>, args: A, clock: seq<Reading>, i: nat, k: nat, j: nat)
    requires s.RoundTrips() && s.signer.Configured() && Ascii(s.digest("", args))
    requires OneReading(clock) && Overtaken(clock, WINDOW, i, k, j)
    ensures var calls := CallsOf(s, ReplayUses(s, args, clock, i, k, j));
            var exp := Later(clock[i].checked, clock[j].checked);
            && calls[i] == Call("a", exp, true, clock[i]) && calls[j] == Call("a", exp, true, clock[j])
            && calls[k] == Call("b", clock[k].checked, true, clock[k])
            && forall n: nat :: n < |calls| && n != i && n != k && n != j ==> !calls[n].passes
  {
    var uses := ReplayUses(s, args, clock, i, k, j);
    var calls, exp := CallsOf(s, uses), Later(clock[i].checked, clock[j].checked);
    OwnUsePasses(s, "a", exp, args, clock[i].checked);
    OwnUsePasses(s, "a", exp, args, clock[j].checked);
    OwnUsePasses(s, "b", clock[k].checked, args, clock[k].checked);
    assert forall n :: 0 <= n < |clock| ==> clock[n] == Reading(clock[n].checked, clock[n].checked);
    assert uses[i] == ReplayUse(s, args, clock, i, k, j, i) && uses[j] == ReplayUse(s, args, clock, i, k, j, j);
    assert uses[k] == ReplayUse(s, args, clock, i, k, j, k);
    forall n: nat | n < |calls| && n != i && n != k && n != j ensures !calls[n].passes {
      IdleFails(s, args, clock[n].checked);
      assert uses[n] == Idle(args, clock[n].checked);
    }
  }

  /** One reading serves the expiry check and the sweep, but uses can reach the store out of the order
      of their readings. In every run on a clock all grants are single-use if and only if no use is
      served, between two others whose readings are within 360 seconds of each other, on a reading later
      than both. `args` are arguments whose digest can be compared, as any digest of hex digits can. */
  lemma {:induction false} GrantsSingleUseIff<A(!new)>(s: Scheme<A>, clock: seq<Reading>, args: A)
    requires s.RoundTrips() && s.signer.Configured() && Ascii(s.digest("", args))
    requires OneReading(clock)
    ensures GrantsSafeOn(s, clock) <==> forall i: nat, k: nat, j: nat :: !Overtaken(clock, WINDOW, i, k, j)
  {
    OneReadingSafeIff(clock, WINDOW);
    if Safe(clock, WINDOW) {
      forall issued: set<Grant<A>>, uses: seq<Use<A>> | IssuedRun(s, issued, clock, uses)
        ensures HonouredOnce(s, uses)
      {
        SafeClockHonoursOnce(s, issued, clock, uses);
      }
    } else {
      var i: nat, k: nat, j: nat :| Overtaken(clock, WINDOW, i, k, j);
      var uses := ReplayUses(s, args, clock, i, k, j);
      var issued := ReplayIsIssuedRun(s, args, clock, i, k, j);
      OvertakenReplays(s, args, clock, i, k, j);
      assert IssuedRun(s, issued, clock, uses) && !HonouredOnce(s, uses);
    }
  }

  /** For instance: a grant that expires at 10, used at 10, then another one at 11, then the first again
      by a call that read the clock at 10. */
  lemma {:induction false} ReplayExample<A(!new)>(s: Scheme<A>, args: A)
    requires s.RoundTrips() && s.signer.Configured() && Ascii(s.digest("", args))
    ensures var clock := [Reading(10, 10), Reading(11, 11), Reading(10, 10)];
            var uses := ReplayUses(s, args, clock, 0, 1, 2);
            && uses[0] == uses[2] == UseAt(s, Expiring("a", 10, args), 10)
            && uses[1] == UseAt(s, Expiring("b", 11, args), 11)
            && AcceptedAt(map[], CallsOf(s, uses), 0) && AcceptedAt(map[], CallsOf(s, uses), 2)
  {
    var clock := [Reading(10, 10), Reading(11, 11), Reading(10, 10)];
    assert Overtaken(clock, WINDOW, 0, 1, 2);
    var uses := ReplayUses(s, args, clock, 0, 1, 2);
    assert uses[0] == ReplayUse(s, args, clock, 0, 1, 2, 0) && uses[1] == ReplayUse(s, args, clock, 0, 1, 2, 1);
    assert uses[2] == ReplayUse(s, args, clock, 0, 1, 2, 2);
    OvertakenReplays(s, args, clock, 0, 1, 2);
  }
}
