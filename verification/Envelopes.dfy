/** Signed AP2 v1 request envelopes and their nonces (`verify_ap2_envelope` of
    runtime/request_auth.py). */
module Envelopes {
  import opened Common
  import opened Tokens
  import opened SingleUse

  const VERSION := 1
  const SKEW := 300

  /** The request body. `payload` is absent when the member is not a JSON object. */
  datatype Envelope<P> = Envelope(
    version: Option<int>, payload: Option<P>, nonce: string, timestamp: string, pubkey: string, signature: string)

  datatype Headers = Headers(version: string, pubkey: string)

  datatype Client = Client(enabled: bool, pubkey: string, clientId: string, capabilities: set<string>)

  /** Timestamp parsing and Ed25519 over the canonical bytes of payload, nonce and timestamp. */
  datatype Scheme<!P> = Scheme(
    parse: string -> Option<int>, signed: (string, string, P, string, string) -> bool)

  datatype EnvelopeError =
    | VersionInvalid
    | EnvelopeInvalid
    | PubkeyHeaderMismatch
    | TimestampInvalid
    | EnvelopeExpired
    | ClientUntrusted
    | ScopeDenied
    | BadSignature
    | NotComparable      // comparing text outside ASCII raises
    | ReplayDetected
    | NonceStoreUnavailable

  predicate NonceChar(c: char) {
    'A' <= c <= 'Z' || 'a' <= c <= 'z' || '0' <= c <= '9' || c == '_' || c == '-'
  }

  /** 16 to 128 characters of the nonce alphabet. */
  predicate NonceOk(n: string) {
    16 <= |n| <= 128 && forall i :: 0 <= i < |n| ==> NonceChar(n[i])
  }

  function Holders(registry: seq<Client>, pubkey: string): seq<Client> {
    Filter(registry, Holds(pubkey))
  }

  function Holds(pubkey: string): Client -> bool {
    (c: Client) => c.enabled && c.pubkey == pubkey
  }

  predicate RegistryAscii(registry: seq<Client>) {
    forall i :: 0 <= i < |registry| && registry[i].enabled ==> Ascii(registry[i].pubkey)
  }

  function Distance(a: int, b: int): nat {
    if a < b then b - a else a - b
  }

  /** One presentation: the message, what the route demands, the registry as this call loads it, and
      the two clock readings. */
  datatype Request<P> = Request(
    env: Envelope<P>, headers: Headers, scope: string, registry: seq<Client>, at: Reading, storeUp: bool)

  datatype Admission = Admission(client: Client, stamped: int)

  /** Every check before the nonce is consumed. */
  function Admit<P>(s: Scheme<P>, r: Request<P>): Result<Admission, EnvelopeError> {
    var e := r.env;
    if e.version != Some(VERSION) || r.headers.version != "1" then Err(VersionInvalid)
    else if e.payload.None? || !NonceOk(e.nonce) then Err(EnvelopeInvalid)
    else if !Ascii(e.pubkey) || !Ascii(r.headers.pubkey) then Err(NotComparable)
    else if e.pubkey != r.headers.pubkey then Err(PubkeyHeaderMismatch)
    else
      var stamped := s.parse(e.timestamp);
      if stamped.None? then Err(TimestampInvalid)
      else if Distance(r.at.checked, stamped.value) > SKEW then Err(EnvelopeExpired)
      else if !RegistryAscii(r.registry) then Err(NotComparable)
      else
        var holders := Holders(r.registry, e.pubkey);
        if |holders| != 1 then Err(ClientUntrusted)
        else if r.scope !in holders[0].capabilities && "*" !in holders[0].capabilities then Err(ScopeDenied)
        else if !s.signed(e.pubkey, e.signature, e.payload.value, e.nonce, e.timestamp) then Err(BadSignature)
        else Ok(Admission(holders[0], stamped.value))
  }

  /** The store call a request amounts to. */
  function CallOf<P>(s: Scheme<P>, r: Request<P>): Call<(string, string)> {
    var a := Admit(s, r);
    if a.Ok? then Call((a.value.client.clientId, r.env.nonce), a.value.stamped + SKEW, r.storeUp, r.at)
    else Call(("", ""), 0, false, r.at)
  }

  /** Who is let in: the sole enabled holder of the key in both the body and the header, with the
      scope the route asks for, having signed this payload, nonce and timestamp, at most five
      minutes from the reading. */
  lemma {:induction false} AdmittedMeans<P>(s: Scheme<P>, r: Request<P>)
    requires Admit(s, r).Ok?
    ensures var a := Admit(s, r).value;
            && a.client in r.registry && a.client.enabled && a.client.pubkey == r.env.pubkey == r.headers.pubkey
            && (forall c :: c in r.registry && c.enabled && c.pubkey == r.env.pubkey ==> c == a.client)
            && (r.scope in a.client.capabilities || "*" in a.client.capabilities)
            && r.env.version == Some(1) && r.headers.version == "1" && r.env.payload.Some?
            && 16 <= |r.env.nonce| <= 128
            && (forall i :: 0 <= i < |r.env.nonce| ==>
                  var c := r.env.nonce[i];
                  'A' <= c <= 'Z' || 'a' <= c <= 'z' || '0' <= c <= '9' || c == '_' || c == '-')
            && s.parse(r.env.timestamp) == Some(a.stamped)
            && s.signed(r.env.pubkey, r.env.signature, r.env.payload.value, r.env.nonce, r.env.timestamp)
            && a.stamped - 300 <= r.at.checked <= a.stamped + 300
  {
    var hs := Holders(r.registry, r.env.pubkey);
    assert hs[0] in hs;
    assert forall c :: c in hs ==> c == hs[0];
  }

  /** The 64 code points of the nonce alphabet. */
  predicate InNonce(c: char) {
    var n := c as int;
    48 <= n <= 57 || 65 <= n <= 90 || 97 <= n <= 122 || n == 95 || n == 45
  }

  predicate InAscii(s: string) {
    forall c :: c in s ==> c as int < 128
  }

  /** Every refusal has its cause. */
  lemma {:induction false} RefusedBy<P>(s: Scheme<P>, r: Request<P>)
    ensures var e := r.env;
            var known := forall c :: c in r.registry && c.enabled ==> InAscii(c.pubkey);
            match Admit(s, r)
            case Err(VersionInvalid) => e.version != Some(1) || r.headers.version != "1"
            case Err(EnvelopeInvalid) =>
              e.payload.None? || |e.nonce| < 16 || |e.nonce| > 128 || exists c :: c in e.nonce && !InNonce(c)
            case Err(PubkeyHeaderMismatch) =>
              InAscii(e.pubkey) && InAscii(r.headers.pubkey) && e.pubkey != r.headers.pubkey
            case Err(TimestampInvalid) => e.pubkey == r.headers.pubkey && s.parse(e.timestamp).None?
            case Err(EnvelopeExpired) =>
              && e.pubkey == r.headers.pubkey && s.parse(e.timestamp).Some?
              && (r.at.checked > s.parse(e.timestamp).value + 300 || r.at.checked < s.parse(e.timestamp).value - 300)
            case Err(NotComparable) => !InAscii(e.pubkey) || !InAscii(r.headers.pubkey) || !known
            case Err(ClientUntrusted) => known && |Holders(r.registry, e.pubkey)| != 1
            case Err(ScopeDenied) => known && |Holders(r.registry, e.pubkey)| == 1
            case Err(BadSignature) =>
              && known && |Holders(r.registry, e.pubkey)| == 1 && e.payload.Some?
              && !s.signed(e.pubkey, e.signature, e.payload.value, e.nonce, e.timestamp)
            case Err(_) => false
            case Ok(_) => InAscii(e.pubkey) && e.pubkey == r.headers.pubkey && known
  {
    AsciiIff(r.env.pubkey);
    AsciiIff(r.headers.pubkey);
    if i :| 0 <= i < |r.env.nonce| && !NonceChar(r.env.nonce[i]) {
      assert !InNonce(r.env.nonce[i]);
      assert r.env.nonce[i] in r.env.nonce;
    }
    forall c ensures Ascii(c) <==> InAscii(c) {
      AsciiIff(c);
    }
    assert forall i :: 0 <= i < |r.registry| ==> r.registry[i] in r.registry;
  }

  lemma {:induction false} AsciiIff(s: string)
    ensures Ascii(s) <==> InAscii(s)
  {
    assert forall i :: 0 <= i < |s| ==> s[i] in s;
  }

  /** Exactly one enabled entry of the registry has the key: the one at `i`. */
  predicate SoleHolder(registry: seq<Client>, pubkey: string, i: nat)
    requires i < |registry|
  {
    forall k :: 0 <= k < |registry| ==> (registry[k].enabled && registry[k].pubkey == pubkey <==> k == i)
  }

  lemma {:induction false} OneHolderIff(registry: seq<Client>, pubkey: string, c: Client)
    ensures Holders(registry, pubkey) == [c] <==>
            exists i: nat :: i < |registry| && registry[i] == c && SoleHolder(registry, pubkey, i)
  {
    var p := Holds(pubkey);
    if Holders(registry, pubkey) == [c] {
      var i := OnlyOne(registry, p, c);
      assert SoleHolder(registry, pubkey, i);
    }
    if i: nat :| i < |registry| && registry[i] == c && SoleHolder(registry, pubkey, i) {
      SoleHolderIsHolders(registry, pubkey, i);
    }
  }

  lemma {:induction false} SoleHolderIsHolders(registry: seq<Client>, pubkey: string, i: nat)
    requires i < |registry| && SoleHolder(registry, pubkey, i)
    ensures Holders(registry, pubkey) == [registry[i]]
  {
    var p := Holds(pubkey);
    var a, b := registry[..i], registry[i + 1..];
    assert registry == a + [registry[i]] + b;
    FilterAppend(a + [registry[i]], b, p);
    FilterOneMore(a, registry[i], p);
    FilterNone(a, p);
    FilterNone(b, p);
  }

  lemma {:induction false} OnlyOne(registry: seq<Client>, p: Client -> bool, c: Client) returns (i: nat)
    requires Filter(registry, p) == [c]
    ensures i < |registry| && registry[i] == c
    ensures forall k :: 0 <= k < |registry| ==> (p(registry[k]) <==> k == i)
  {
    var rest := registry[1..];
    assert forall k :: 1 <= k < |registry| ==> registry[k] == rest[k - 1];
    if p(registry[0]) {
      i := 0;
      assert Filter(rest, p) == [];
      assert forall k :: 0 <= k < |rest| ==> rest[k] in rest;
    } else {
      assert [] + Filter(rest, p) == Filter(rest, p);
      var j := OnlyOne(rest, p, c);
      i := j + 1;
    }
  }

  /** The checks on the message and its headers, without the registry. */
  predicate Presentable<P(!new)>(s: Scheme<P>, r: Request<P>) {
    && r.env.version == Some(VERSION) && r.headers.version == "1"
    && r.env.payload.Some? && NonceOk(r.env.nonce)
    && Ascii(r.env.pubkey) && r.env.pubkey == r.headers.pubkey
    && s.parse(r.env.timestamp).Some?
    && s.parse(r.env.timestamp).value - SKEW <= r.at.checked <= s.parse(r.env.timestamp).value + SKEW
    && s.signed(r.env.pubkey, r.env.signature, r.env.payload.value, r.env.nonce, r.env.timestamp)
  }

  /** An envelope is admitted for a client if and only if it is presentable, the registry holds text
      that can be compared, and that client is the only enabled one with the key and has the scope;
      what is admitted is its own timestamp. */
  lemma {:induction false} AdmittedIff<P(!new)>(s: Scheme<P>, r: Request<P>, a: Admission)
    ensures Admit(s, r) == Ok(a) <==>
            && Presentable(s, r) && s.parse(r.env.timestamp) == Some(a.stamped) && RegistryAscii(r.registry)
            && (exists i: nat ::
                  i < |r.registry| && r.registry[i] == a.client && SoleHolder(r.registry, r.env.pubkey, i))
            && (r.scope in a.client.capabilities || "*" in a.client.capabilities)
  {
    var hs := Holders(r.registry, r.env.pubkey);
    OneHolderIff(r.registry, r.env.pubkey, a.client);
    assert |hs| == 1 ==> hs == [hs[0]];
  }

  class Gateway<P> {
    const scheme: Scheme<P>
    const nonces: SpentStore<(string, string)>

    constructor (scheme: Scheme<P>)
      ensures this.scheme == scheme && fresh(nonces) && nonces.rows == map[]
    {
      this.scheme := scheme;
      nonces := new SpentStore<(string, string)>();
    }

    /** An envelope is accepted, and its nonce consumed, exactly when it is admitted and its nonce
        is not held. A refusal leaves the nonces as they were. */
    method Verify(r: Request<P>) returns (out: Result<Admission, EnvelopeError>)
      modifies nonces
      ensures nonces.rows == Next(old(nonces.rows), CallOf(scheme, r))
      ensures out.Ok? <==> Accepted(old(nonces.rows), CallOf(scheme, r))
      ensures Admit(scheme, r).Err? ==> out == Admit(scheme, r)
      ensures Admit(scheme, r).Ok? ==>
                out == if !r.storeUp then Err(NonceStoreUnavailable)
                       else if Accepted(old(nonces.rows), CallOf(scheme, r)) then Admit(scheme, r)
                       else Err(ReplayDetected)
    {
      out := Admit(scheme, r);
      if out.Err? { return; }
      AdmittedMeans(scheme, r);
      var spent := nonces.Spend(CallOf(scheme, r));
      if spent.Err? {
        out := Err(if r.storeUp then ReplayDetected else NonceStoreUnavailable);
      }
    }
  }

  // ----- replays -----------------------------------------------------------------------------------

  ghost function CallsOf<P>(s: Scheme<P>, rs: seq<Request<P>>): (r: seq<Call<(string, string)>>)
    ensures |r| == |rs|
    ensures forall i :: 0 <= i < |rs| ==> r[i] == CallOf(s, rs[i])
  {
    seq(|rs|, i requires 0 <= i < |rs| => CallOf(s, rs[i]))
  }

  function Readings<P>(rs: seq<Request<P>>): (r: seq<Reading>)
    ensures |r| == |rs| && forall i :: 0 <= i < |rs| ==> r[i] == rs[i].at
  {
    if rs == [] then [] else Readings(rs[..|rs| - 1]) + [rs[|rs| - 1].at]
  }

  /** The same key, nonce and timestamp: a repetition, whatever its payload or signature text. */
  predicate Repeats<P>(q: Request<P>, r: Request<P>) {
    q.env.pubkey == r.env.pubkey && q.env.nonce == r.env.nonce && q.env.timestamp == r.env.timestamp
  }

  lemma {:induction false} CallWindow<P>(s: Scheme<P>, r: Request<P>)
    ensures CallOf(s, r).at == r.at
    ensures CallOf(s, r).passes ==>
              Admit(s, r).Ok? && CallOf(s, r).exp - 2 * SKEW <= r.at.checked
  {
    if Admit(s, r).Ok? {
      AdmittedMeans(s, r);
    }
  }

  lemma {:induction false} EnvelopeCalls<P>(s: Scheme<P>, rs: seq<Request<P>>)
    ensures OnClock(CallsOf(s, rs), Readings(rs))
    ensures Windowed(CallsOf(s, rs), 2 * SKEW)
  {
    var calls := CallsOf(s, rs);
    forall i | 0 <= i < |rs|
      ensures calls[i].at == rs[i].at && (calls[i].passes ==> calls[i].exp - 2 * SKEW <= rs[i].at.checked)
    {
      CallWindow(s, rs[i]);
    }
  }

  lemma {:induction false} RepeatIsSameMessage<P>(s: Scheme<P>, q: Request<P>, r: Request<P>)
    requires Repeats(q, r) && CallOf(s, q).passes && CallOf(s, r).passes
    ensures Admit(s, q).Ok? && Admit(s, r).Ok?
    ensures Admit(s, q).value.client.clientId == Admit(s, r).value.client.clientId ==>
              SameMessage(CallOf(s, q), CallOf(s, r))
  {
  }

  /** On any clock whose sweeps do not run ahead of the skew checks, a key, nonce and timestamp are
      accepted again only for another client id, which takes a change of the registry in between. */
  lemma {:induction false} RepeatedForAnotherClient<P>(
      s: Scheme<P>, rows: map<(string, string), int>, rs: seq<Request<P>>, i: nat, j: nat)
    requires Safe(Readings(rs), 2 * SKEW)
    requires i < j < |rs| && Repeats(rs[i], rs[j])
    requires AcceptedAt(rows, CallsOf(s, rs), i) && AcceptedAt(rows, CallsOf(s, rs), j)
    ensures Admit(s, rs[i]).Ok? && Admit(s, rs[j]).Ok?
    ensures Admit(s, rs[i]).value.client.clientId != Admit(s, rs[j]).value.client.clientId
  {
    var calls := CallsOf(s, rs);
    EnvelopeCalls(s, rs);
    SafeClockSuffices(rows, calls, Readings(rs), 2 * SKEW);
    assert !SameMessage(calls[i], calls[j]);
    RepeatIsSameMessage(s, rs[i], rs[j]);
  }

  /** No key is handed from one client id to another between the registries of the run. */
  ghost predicate KeysKeepClients<P>(rs: seq<Request<P>>) {
    forall i, j, c, d
      | 0 <= i < |rs| && 0 <= j < |rs| && c in rs[i].registry && d in rs[j].registry
      :: c.enabled && d.enabled && c.pubkey == d.pubkey ==> c.clientId == d.clientId
  }

  /** On such a clock, if keys keep their clients, no key, nonce and timestamp are accepted twice. */
  lemma {:induction false} EnvelopesAreSingleUse<P>(
      s: Scheme<P>, rows: map<(string, string), int>, rs: seq<Request<P>>, i: nat, j: nat)
    requires Safe(Readings(rs), 2 * SKEW) && KeysKeepClients(rs)
    requires i < j < |rs|
    requires AcceptedAt(rows, CallsOf(s, rs), i) && AcceptedAt(rows, CallsOf(s, rs), j)
    ensures !Repeats(rs[i], rs[j])
  {
    if Repeats(rs[i], rs[j]) {
      RepeatedForAnotherClient(s, rows, rs, i, j);
      AdmittedMeans(s, rs[i]);
      AdmittedMeans(s, rs[j]);
    }
  }

  /** A repetition straight after the first acceptance. For the same client id it is accepted exactly
      when the last second of the envelope passes between the two clock readings of the second call;
      for another, exactly when that one has not used the nonce itself. */
  lemma {:induction false} RepeatedAtOnceIff<P>(
      s: Scheme<P>, rows: map<(string, string), int>, q: Request<P>, r: Request<P>)
    requires Repeats(q, r) && Admit(s, q).Ok? && Admit(s, r).Ok? && r.storeUp
    requires Accepted(rows, CallOf(s, q))
    ensures var held := Next(rows, CallOf(s, q));
            var id := Admit(s, r).value.client.clientId;
            Accepted(held, CallOf(s, r)) <==>
            if id == Admit(s, q).value.client.clientId
            then r.at.checked <= Admit(s, r).value.stamped + SKEW < r.at.swept
            else (id, r.env.nonce) !in Sweep(Sweep(rows, q.at.swept), r.at.swept)
  {
    AdmittedMeans(s, r);
    AdmittedMeans(s, q);
  }

  // ----- which clocks keep envelopes single-use ---------------------------------------------------

  /** A client that signs what it likes: its entry, a scope it has, and how it writes times and signs. */
  datatype Sender<P> = Sender(
    client: Client, scope: string, payload: P, stamp: int -> string, sign: (string, string) -> string)

  ghost predicate CanSend<P>(s: Scheme<P>, registry: seq<Client>, a: Sender<P>) {
    && Holders(registry, a.client.pubkey) == [a.client] && RegistryAscii(registry) && Ascii(a.client.pubkey)
    && a.scope in a.client.capabilities
    && (forall t :: s.parse(a.stamp(t)) == Some(t))
    && forall nonce, time :: s.signed(a.client.pubkey, a.sign(nonce, time), a.payload, nonce, time)
  }

  /** The request with this nonce whose envelope is good until `exp`. */
  function Sent<P>(registry: seq<Client>, a: Sender<P>, nonce: string, exp: int, at: Reading): Request<P> {
    var time := a.stamp(exp - SKEW);
    Request(Envelope(Some(VERSION), Some(a.payload), nonce, time, a.client.pubkey, a.sign(nonce, time)),
            Headers("1", a.client.pubkey), a.scope, registry, at, true)
  }

  function Malformed<P>(registry: seq<Client>, at: Reading): Request<P> {
    Request(Envelope(None, None, "", "", "", ""), Headers("", ""), "", registry, at, true)
  }

  lemma {:induction false} SentCall<P>(
      s: Scheme<P>, registry: seq<Client>, a: Sender<P>, nonce: string, exp: int, at: Reading)
    requires CanSend(s, registry, a) && NonceOk(nonce) && exp - 2 * SKEW <= at.checked <= exp
    ensures CallOf(s, Sent(registry, a, nonce, exp, at)) == Call((a.client.clientId, nonce), exp, true, at)
  {
    var r := Sent(registry, a, nonce, exp, at);
    assert s.parse(r.env.timestamp) == Some(exp - SKEW);
    assert Admit(s, r) == Ok(Admission(a.client, exp - SKEW));
  }

  const NONCE_A := "aaaaaaaaaaaaaaaa"
  const NONCE_B := "bbbbbbbbbbbbbbbb"

  function ReplayRequest<P>(
      registry: seq<Client>, a: Sender<P>, clock: seq<Reading>, i: nat, k: nat, j: nat, n: nat): Request<P>
    requires i < k <= j < |clock| && n < |clock|
  {
    if n == i || n == j then Sent(registry, a, NONCE_A, Later(clock[i].checked, clock[j].checked), clock[n])
    else if n == k then Sent(registry, a, NONCE_B, clock[k].checked, clock[n])
    else Malformed(registry, clock[n])
  }

  ghost function ReplayRequests<P>(
      registry: seq<Client>, a: Sender<P>, clock: seq<Reading>, i: nat, k: nat, j: nat): (rs: seq<Request<P>>)
    requires i < k <= j < |clock|
    ensures |rs| == |clock|
    ensures forall n: nat :: n < |rs| ==> rs[n] == ReplayRequest(registry, a, clock, i, k, j, n)
  {
    seq(|clock|, n requires 0 <= n < |clock| => ReplayRequest(registry, a, clock, i, k, j, n))
  }

  /** Any clock on which a sweep runs ahead lets the envelope of any client that signs through twice. */
  lemma {:induction false} AheadReplaysEnvelope<P>(
      s: Scheme<P>, registry: seq<Client>, a: Sender<P>, clock: seq<Reading>, i: nat, k: nat, j: nat)
    requires CanSend(s, registry, a) && Ahead(clock, 2 * SKEW, i, k, j)
    ensures var calls := CallsOf(s, ReplayRequests(registry, a, clock, i, k, j));
            AcceptedAt(map[], calls, i) && AcceptedAt(map[], calls, j)
  {
    var rs := ReplayRequests(registry, a, clock, i, k, j);
    var calls, exp := CallsOf(s, rs), Later(clock[i].checked, clock[j].checked);
    SentCall(s, registry, a, NONCE_A, exp, clock[i]);
    SentCall(s, registry, a, NONCE_A, exp, clock[j]);
    SentCall(s, registry, a, NONCE_B, clock[k].checked, clock[k]);
    forall n: nat | n < |calls| && n != i && n != k && n != j ensures !calls[n].passes {
      assert rs[n] == Malformed(registry, clock[n]);
    }
    assert NONCE_A[0] != NONCE_B[0];
    assert Replays(calls, i, k, j);
    ReplayAccepted(calls, i, k, j);
  }

  /** A run of requests on this clock, all under one registry. */
  ghost predicate RunUnder<P>(registry: seq<Client>, clock: seq<Reading>, rs: seq<Request<P>>) {
    |rs| == |clock| && forall n :: 0 <= n < |rs| ==> rs[n].registry == registry && rs[n].at == clock[n]
  }

  /** No key, nonce and timestamp are accepted twice. */
  ghost predicate AcceptedOnce<P>(s: Scheme<P>, rs: seq<Request<P>>) {
    forall i: nat, j: nat
      | i < j < |rs| && AcceptedAt(map[], CallsOf(s, rs), i) && AcceptedAt(map[], CallsOf(s, rs), j)
      :: !Repeats(rs[i], rs[j])
  }

  ghost predicate EnvelopesSafeOn<P(!new)>(s: Scheme<P>, registry: seq<Client>, clock: seq<Reading>) {
    forall rs: seq<Request<P>> | RunUnder(registry, clock, rs) :: AcceptedOnce(s, rs)
  }

  lemma {:induction false} SafeClockAcceptsOnce<P>(
      s: Scheme<P>, registry: seq<Client>, clock: seq<Reading>, rs: seq<Request<P>>)
    requires Safe(clock, 2 * SKEW) && RunUnder(registry, clock, rs)
    ensures AcceptedOnce(s, rs)
  {
    assert Readings(rs) == clock;
    forall i: nat, j: nat
      | i < j < |rs| && AcceptedAt(map[], CallsOf(s, rs), i) && AcceptedAt(map[], CallsOf(s, rs), j)
      ensures !Repeats(rs[i], rs[j])
    {
      if Repeats(rs[i], rs[j]) {
        RepeatedForAnotherClient(s, map[], rs, i, j);
        OneKeyOneClient(s, rs[i], rs[j]);
      }
    }
  }

  lemma {:induction false} OneKeyOneClient<P>(s: Scheme<P>, q: Request<P>, r: Request<P>)
    requires q.registry == r.registry && q.env.pubkey == r.env.pubkey && Admit(s, q).Ok? && Admit(s, r).Ok?
    ensures Admit(s, q).value.client == Admit(s, r).value.client
  {
    AdmittedMeans(s, q);
    AdmittedMeans(s, r);
  }

  /** Under one registry, with some client in it that signs and a parser that reaches every timestamp:
      every run of requests on a clock accepts every key, nonce and timestamp at most once if and only if
      no sweep runs ahead of two skew checks within 600 seconds of each other. */
  lemma {:induction false} EnvelopesSingleUseIff<P(!new)>(
      s: Scheme<P>, registry: seq<Client>, a: Sender<P>, clock: seq<Reading>)
    requires CanSend(s, registry, a)
    ensures EnvelopesSafeOn(s, registry, clock) <==> Safe(clock, 2 * SKEW)
  {
    if Safe(clock, 2 * SKEW) {
      forall rs: seq<Request<P>> | RunUnder(registry, clock, rs) ensures AcceptedOnce(s, rs) {
        SafeClockAcceptsOnce(s, registry, clock, rs);
      }
    } else {
      var i: nat, k: nat, j: nat :| Ahead(clock, 2 * SKEW, i, k, j);
      var rs := AcceptedTwice(s, registry, a, clock, i, k, j);
    }
  }

  lemma {:induction false} AcceptedTwice<P>(
      s: Scheme<P>, registry: seq<Client>, a: Sender<P>, clock: seq<Reading>, i: nat, k: nat, j: nat)
    returns (rs: seq<Request<P>>)
    requires CanSend(s, registry, a) && Ahead(clock, 2 * SKEW, i, k, j)
    ensures RunUnder(registry, clock, rs) && !AcceptedOnce(s, rs)
  {
    rs := ReplayRequests(registry, a, clock, i, k, j);
    AheadReplaysEnvelope(s, registry, a, clock, i, k, j);
    ReplayRepeats(registry, a, clock, i, k, j);
  }

  lemma {:induction false} ReplayRepeats<P>(
      registry: seq<Client>, a: Sender<P>, clock: seq<Reading>, i: nat, k: nat, j: nat)
    requires i < k <= j < |clock|
    ensures var rs := ReplayRequests(registry, a, clock, i, k, j);
            RunUnder(registry, clock, rs) && Repeats(rs[i], rs[j])
  {
    var rs := ReplayRequests(registry, a, clock, i, k, j);
    forall n: nat | n < |rs| ensures rs[n].registry == registry && rs[n].at == clock[n] {
      assert rs[n] == ReplayRequest(registry, a, clock, i, k, j, n);
    }
  }
}
