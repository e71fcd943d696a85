/** Stores that make a signed message single-use and yet forget it once it has expired
    (`_spend_jti` of runtime/action_grants.py, `_consume_nonce` of runtime/request_auth.py). */
module SingleUse {
  import opened Common

  /** The two clock readings of one call: the one compared with the message's expiry, and the
      one that bounds the sweep of the store. */
  datatype Reading = Reading(checked: int, swept: int)

  /** One presentation of a message. `passes` says that every other check succeeded (signature,
      audience, lower time bound, bindings) and that the store could be reached. */
  datatype Call<K> = Call(key: K, exp: int, passes: bool, at: Reading)

  datatype Refusal = CheckFailed | Expired | AlreadySpent

  /** The rows that survive a sweep. */
  function Sweep<K>(rows: map<K, int>, now: int): map<K, int> {
    map k | k in rows && rows[k] >= now :: rows[k]
  }

  predicate Accepted<K>(rows: map<K, int>, c: Call<K>) {
    c.passes && c.at.checked <= c.exp && c.key !in Sweep(rows, c.at.swept)
  }

  /** A refused call rolls its sweep back together with its insert. */
  function Next<K>(rows: map<K, int>, c: Call<K>): map<K, int> {
    if Accepted(rows, c) then Sweep(rows, c.at.swept)[c.key := c.exp] else rows
  }

  class SpentStore<K(==)> {
    var rows: map<K, int>

    constructor ()
      ensures rows == map[]
    {
      rows := map[];
    }

    /** Check, sweep, insert; a conflict undoes the transaction. */
    method Spend(c: Call<K>) returns (r: Result<int, Refusal>)
      modifies this
      ensures rows == Next(old(rows), c)
      ensures r.Ok? <==> Accepted(old(rows), c)
      ensures r.Ok? ==> r.value == c.exp && c.key in rows
      ensures r == Err(AlreadySpent) <==>
              c.passes && c.at.checked <= c.exp && c.key in old(rows) && old(rows)[c.key] >= c.at.swept
      ensures r == Err(Expired) <==> c.passes && c.at.checked > c.exp
    {
      if !c.passes { return Err(CheckFailed); }
      if c.at.checked > c.exp { return Err(Expired); }
      var before := rows;
      rows := Sweep(rows, c.at.swept);
      if c.key in rows {
        rows := before;
        return Err(AlreadySpent);
      }
      rows := rows[c.key := c.exp];
      return Ok(c.exp);
    }
  }

  // ----- runs ------------------------------------------------------------------------------

  /** The store after the first `n` calls. */
  function Exec<K>(rows: map<K, int>, calls: seq<Call<K>>, n: nat): map<K, int>
    requires n <= |calls|
  {
    if n == 0 then rows else Next(Exec(rows, calls, n - 1), calls[n - 1])
  }

  predicate AcceptedAt<K>(rows: map<K, int>, calls: seq<Call<K>>, i: nat) {
    i < |calls| && Accepted(Exec(rows, calls, i), calls[i])
  }

  /** The same signed message: its signature covers the key and the expiry. */
  predicate SameMessage<K(==)>(c: Call<K>, d: Call<K>) {
    c.key == d.key && c.exp == d.exp
  }

  ghost predicate AtMostOnce<K>(rows: map<K, int>, calls: seq<Call<K>>) {
    forall i: nat, j: nat | i < j < |calls| && AcceptedAt(rows, calls, i) && AcceptedAt(rows, calls, j) ::
      !SameMessage(calls[i], calls[j])
  }

  /** Messages are only good for `w` seconds before they expire: their checks demand it. */
  ghost predicate Windowed<K>(calls: seq<Call<K>>, w: nat) {
    forall i :: 0 <= i < |calls| && calls[i].passes ==> calls[i].exp - w <= calls[i].at.checked
  }

  /** Some call strictly between `i` and `n` swept everything that expires at `exp`. */
  ghost predicate SweptBetween<K>(rows: map<K, int>, calls: seq<Call<K>>, exp: int, i: nat, n: nat) {
    exists k: nat :: i < k < n && AcceptedAt(rows, calls, k) && calls[k].at.swept > exp
  }

  /** `i` is the last acceptance of its key before `n`. */
  ghost predicate LastAcceptance<K>(rows: map<K, int>, calls: seq<Call<K>>, i: nat, n: nat) {
    && i < n <= |calls| && AcceptedAt(rows, calls, i)
    && (forall m: nat :: i < m < n && AcceptedAt(rows, calls, m) ==> calls[m].key != calls[i].key)
  }

  /** The store remembers an accepted key exactly until an accepted call sweeps past its expiry. */
  lemma {:induction false} KeptUntilSwept<K>(rows: map<K, int>, calls: seq<Call<K>>, i: nat, n: nat)
    requires LastAcceptance(rows, calls, i, n)
    ensures calls[i].key in Exec(rows, calls, n) <==> !SweptBetween(rows, calls, calls[i].exp, i, n)
    ensures calls[i].key in Exec(rows, calls, n) ==> Exec(rows, calls, n)[calls[i].key] == calls[i].exp
    decreases n
  {
    if n > i + 1 {
      KeptUntilSwept(rows, calls, i, n - 1);
      var exp := calls[i].exp;
      if SweptBetween(rows, calls, exp, i, n - 1) {
        assert SweptBetween(rows, calls, exp, i, n);
      } else if AcceptedAt(rows, calls, n - 1) {
        assert calls[n - 1].at.swept > exp ==> SweptBetween(rows, calls, exp, i, n);
      }
    }
  }

  /** A second presentation is accepted exactly when it passes its own checks and some accepted
      call since, or its own sweep, ran on a clock past the first one's expiry. */
  lemma {:induction false} ReacceptedIff<K>(rows: map<K, int>, calls: seq<Call<K>>, i: nat, j: nat)
    requires LastAcceptance(rows, calls, i, j) && j < |calls| && calls[j].key == calls[i].key
    ensures AcceptedAt(rows, calls, j) <==>
            && calls[j].passes && calls[j].at.checked <= calls[j].exp
            && (calls[j].at.swept > calls[i].exp || SweptBetween(rows, calls, calls[i].exp, i, j))
  {
    KeptUntilSwept(rows, calls, i, j);
  }

  /** The first acceptance of the key of `i` after it, given that there is one at `j`. */
  lemma {:induction false} FindNext<K>(rows: map<K, int>, calls: seq<Call<K>>, i: nat, j: nat) returns (l: nat)
    requires i < j < |calls| && AcceptedAt(rows, calls, i)
    requires AcceptedAt(rows, calls, j) && calls[j].key == calls[i].key
    ensures l <= j && LastAcceptance(rows, calls, i, l)
    ensures AcceptedAt(rows, calls, l) && calls[l].key == calls[i].key
    decreases j
  {
    if m: nat :| i < m < j && AcceptedAt(rows, calls, m) && calls[m].key == calls[i].key {
      l := FindNext(rows, calls, i, m);
    } else {
      l := j;
    }
  }

  // ----- which clocks keep messages single-use ------------------------------------------------

  ghost predicate OnClock<K>(calls: seq<Call<K>>, clock: seq<Reading>) {
    |calls| == |clock| && forall i :: 0 <= i < |clock| ==> calls[i].at == clock[i]
  }

  /** A sweep after call `i`, and no later than call `j`, ran ahead of the readings with which both
      were checked, and these are close enough for one message to be good at both. */
  predicate Ahead(clock: seq<Reading>, w: nat, i: nat, k: nat, j: nat) {
    && i < k <= j < |clock|
    && clock[i].checked <= clock[j].checked + w && clock[j].checked <= clock[i].checked + w
    && clock[k].swept > clock[i].checked && clock[k].swept > clock[j].checked
  }

  ghost predicate Safe(clock: seq<Reading>, w: nat) {
    forall i: nat, k: nat, j: nat :: !Ahead(clock, w, i, k, j)
  }

  lemma {:induction false} SafeClockSuffices<K>(rows: map<K, int>, calls: seq<Call<K>>, clock: seq<Reading>, w: nat)
    requires OnClock(calls, clock) && Safe(clock, w) && Windowed(calls, w)
    ensures AtMostOnce(rows, calls)
  {
    forall i: nat, j: nat | i < j < |calls| && AcceptedAt(rows, calls, i) && AcceptedAt(rows, calls, j)
      ensures !SameMessage(calls[i], calls[j])
    {
      if SameMessage(calls[i], calls[j]) {
        var k := SweepOfReplay(rows, calls, i, j);
        assert Ahead(clock, w, i, k, j);
      }
    }
  }

  /** A message accepted twice exposes a sweep past its expiry. */
  lemma {:induction false} SweepOfReplay<K>(rows: map<K, int>, calls: seq<Call<K>>, i: nat, j: nat) returns (k: nat)
    requires i < j < |calls| && AcceptedAt(rows, calls, i) && AcceptedAt(rows, calls, j)
    requires SameMessage(calls[i], calls[j])
    ensures i < k <= j && calls[k].at.swept > calls[i].exp
  {
    var l := FindNext(rows, calls, i, j);
    ReacceptedIff(rows, calls, i, l);
    var exp := calls[i].exp;
    if calls[l].at.swept > exp {
      k := l;
    } else {
      k :| i < k < l && AcceptedAt(rows, calls, k) && calls[k].at.swept > exp;
    }
  }

  function Later(m: int, n: int): int {
    if m > n then m else n
  }

  /** Message `a` presented at `i` and `j`, message `b` at `k` in between, nothing valid otherwise. */
  function ReplayCall<K(==)>(clock: seq<Reading>, a: K, b: K, i: nat, k: nat, j: nat, n: nat): Call<K>
    requires i < k <= j < |clock| && n < |clock|
  {
    var exp := Later(clock[i].checked, clock[j].checked);
    if n == i || n == j then Call(a, exp, true, clock[n])
    else if n == k then Call(b, clock[k].checked, true, clock[n])
    else Call(a, exp, false, clock[n])
  }

  ghost function ReplayCalls<K>(clock: seq<Reading>, a: K, b: K, i: nat, k: nat, j: nat): (r: seq<Call<K>>)
    requires i < k <= j < |clock|
    ensures |r| == |clock|
    ensures forall n: nat :: n < |r| ==> r[n] == ReplayCall(clock, a, b, i, k, j, n)
  {
    seq(|clock|, n requires 0 <= n < |clock| => ReplayCall(clock, a, b, i, k, j, n))
  }

  /** What the store holds was accepted before. */
  lemma {:induction false} HeldWasAccepted<K>(calls: seq<Call<K>>, n: nat, key: K) returns (m: nat)
    requires n <= |calls| && key in Exec(map[], calls, n)
    ensures m < n && AcceptedAt(map[], calls, m) && calls[m].key == key
    decreases n
  {
    if AcceptedAt(map[], calls, n - 1) && calls[n - 1].key == key {
      m := n - 1;
    } else {
      m := HeldWasAccepted(calls, n - 1, key);
    }
  }

  /** One message is presented at `i` and `j`; in between, or by the second of them, everything up to its
      expiry is swept; and nothing is good otherwise. */
  ghost predicate Replays<K>(calls: seq<Call<K>>, i: nat, k: nat, j: nat) {
    && i < k <= j < |calls| && SameMessage(calls[i], calls[j])
    && (forall n: nat :: n < |calls| ==> (calls[n].passes <==> n == i || n == k || n == j))
    && calls[i].at.checked <= calls[i].exp && calls[j].at.checked <= calls[j].exp
    && (k < j ==> calls[k].key != calls[i].key && calls[k].at.checked <= calls[k].exp)
    && calls[k].at.swept > calls[i].exp
  }

  /** In such a run the message is accepted both times. */
  lemma {:induction false} ReplayAccepted<K>(calls: seq<Call<K>>, i: nat, k: nat, j: nat)
    requires Replays(calls, i, k, j)
    ensures AcceptedAt(map[], calls, i) && AcceptedAt(map[], calls, j)
  {
    if calls[i].key in Exec(map[], calls, i) {
      var m := HeldWasAccepted(calls, i, calls[i].key);
    }
    assert AcceptedAt(map[], calls, i);
    if k < j {
      BetweenAccepted(calls, i, k, j);
      assert SweptBetween(map[], calls, calls[i].exp, i, j);
    }
    assert LastAcceptance(map[], calls, i, j);
    ReacceptedIff(map[], calls, i, j);
  }

  lemma {:induction false} BetweenAccepted<K>(calls: seq<Call<K>>, i: nat, k: nat, j: nat)
    requires Replays(calls, i, k, j) && k < j
    ensures AcceptedAt(map[], calls, k)
  {
    if calls[k].key in Exec(map[], calls, k) {
      var m := HeldWasAccepted(calls, k, calls[k].key);
    }
  }

  /** Any clock on which a sweep runs ahead lets some message through twice. */
  lemma {:induction false} AheadReplays<K>(clock: seq<Reading>, w: nat, a: K, b: K, i: nat, k: nat, j: nat)
    requires a != b && Ahead(clock, w, i, k, j)
    ensures var calls := ReplayCalls(clock, a, b, i, k, j);
            OnClock(calls, clock) && Windowed(calls, w) && !AtMostOnce(map[], calls)
  {
    var calls := ReplayCalls(clock, a, b, i, k, j);
    assert Replays(calls, i, k, j);
    ReplayAccepted(calls, i, k, j);
  }

  /** Every run on this clock accepts every message at most once. */
  ghost predicate SingleUseOn<K(!new)>(clock: seq<Reading>, w: nat) {
    forall calls: seq<Call<K>> | OnClock(calls, clock) && Windowed(calls, w) :: AtMostOnce(map[], calls)
  }

  /** Exactly the clocks on which no sweep runs ahead of both presentations keep every message
      single-use, whatever is presented. */
  lemma {:induction false} SingleUseIff<K(!new)>(clock: seq<Reading>, w: nat, a: K, b: K)
    requires a != b
    ensures SingleUseOn<K>(clock, w) <==> Safe(clock, w)
  {
    if Safe(clock, w) {
      forall calls: seq<Call<K>> | OnClock(calls, clock) && Windowed(calls, w)
        ensures AtMostOnce(map[], calls)
      {
        SafeClockSuffices(map[], calls, clock, w);
      }
    } else {
      var i: nat, k: nat, j: nat :| Ahead(clock, w, i, k, j);
      AheadReplays(clock, w, a, b, i, k, j);
      var calls := ReplayCalls(clock, a, b, i, k, j);
      assert OnClock(calls, clock) && Windowed(calls, w) && !AtMostOnce(map[], calls);
    }
  }

  /** A wall clock read twice by each call, one call after the other. */
  ghost predicate WallClock(clock: seq<Reading>) {
    && (forall i :: 0 <= i < |clock| ==> clock[i].checked <= clock[i].swept)
    && (forall i, j :: 0 <= i < j < |clock| ==> clock[i].swept <= clock[j].checked)
  }

  /** On a wall clock messages are single-use exactly when every call takes both its readings
      within the same second, except where the call before it was longer ago than messages last. */
  lemma {:induction false} WallClockSafeIff(clock: seq<Reading>, w: nat)
    requires WallClock(clock)
    ensures Safe(clock, w) <==> forall j :: 1 <= j < |clock| ==>
              clock[j].swept == clock[j].checked || clock[j].checked - clock[j - 1].checked > w
  {
    if Safe(clock, w) {
      forall j | 1 <= j < |clock|
        ensures clock[j].swept == clock[j].checked || clock[j].checked - clock[j - 1].checked > w
      {
        assert !Ahead(clock, w, j - 1, j, j);
        assert clock[j - 1].swept <= clock[j].checked;
      }
    } else {
      var i: nat, k: nat, j: nat :| Ahead(clock, w, i, k, j);
      assert k == j;
      assert clock[i].checked <= clock[j - 1].checked;
    }
  }

  /** One reading for both purposes and a clock that never goes back: single-use, for messages
      of any lifetime. */
  lemma {:induction false} OneReadingAtMostOnce<K>(rows: map<K, int>, calls: seq<Call<K>>)
    requires forall i :: 0 <= i < |calls| ==> calls[i].at.swept == calls[i].at.checked
    requires forall i, j :: 0 <= i < j < |calls| ==> calls[i].at.checked <= calls[j].at.checked
    ensures AtMostOnce(rows, calls)
  {
    forall i: nat, j: nat | i < j < |calls| && AcceptedAt(rows, calls, i) && AcceptedAt(rows, calls, j)
      ensures !SameMessage(calls[i], calls[j])
    {
      if SameMessage(calls[i], calls[j]) {
        var k := SweepOfReplay(rows, calls, i, j);
      }
    }
  }

  /** One reading for both purposes. */
  ghost predicate OneReading(clock: seq<Reading>) {
    forall i :: 0 <= i < |clock| ==> clock[i].swept == clock[i].checked
  }

  /** Some call between two others was checked on a later reading than both, and theirs are close enough
      for one message to be good at both. */
  predicate Overtaken(clock: seq<Reading>, w: nat, i: nat, k: nat, j: nat) {
    && i < k < j < |clock|
    && clock[i].checked <= clock[j].checked + w && clock[j].checked <= clock[i].checked + w
    && clock[k].checked > clock[i].checked && clock[k].checked > clock[j].checked
  }

  /** With one reading for both purposes, but calls that may reach the store out of the order of their
      readings, the safe clocks are those on which no call overtakes two others. */
  lemma {:induction false} OneReadingSafeIff(clock: seq<Reading>, w: nat)
    requires OneReading(clock)
    ensures Safe(clock, w) <==> forall i: nat, k: nat, j: nat :: !Overtaken(clock, w, i, k, j)
  {
    forall i: nat, k: nat, j: nat ensures Ahead(clock, w, i, k, j) <==> Overtaken(clock, w, i, k, j) {
    }
  }
}
