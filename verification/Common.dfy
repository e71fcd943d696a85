/** Small vocabulary shared by every component: optional values, decimal printing, the
    lexical order of names, and collision-freedom stated over the inputs actually hashed. */
module Common {

  datatype Option<+T> = None | Some(value: T)

  datatype Result<+T, +E> = Ok(value: T) | Err(error: E)

  type Byte = b: int | 0 <= b < 256

  /** `d.get(key, default)` for a value that may be absent. */
  function OrElse<T>(x: Option<T>, default: T): T {
    if x.Some? then x.value else default
  }

  /** `h` has no collision among the given inputs. A digest function has finitely many
      outputs, so collision-freedom on every input would be unsatisfiable; it is therefore
      always asked for a finite set of inputs, namely those a claim hashes. */
  ghost predicate CollisionFreeOn<X(!new), Y>(h: X -> Y, inputs: set<X>) {
    forall x, y :: x in inputs && y in inputs && h(x) == h(y) ==> x == y
  }

  // ----- selecting from a sequence ---------------------------------------------------

  function Filter<T(!new)>(s: seq<T>, p: T -> bool): (r: seq<T>)
    ensures forall x :: x in r <==> x in s && p(x)
  {
    if s == [] then []
    else (if p(s[0]) then [s[0]] else []) + Filter(s[1..], p)
  }

  lemma {:induction false} FilterAppend<T(!new)>(a: seq<T>, b: seq<T>, p: T -> bool)
    ensures Filter(a + b, p) == Filter(a, p) + Filter(b, p)
  {
    if a == [] {
      assert a + b == b;
    } else {
      assert (a + b)[1..] == a[1..] + b;
      FilterAppend(a[1..], b, p);
    }
  }

  lemma {:induction false} FilterAll<T(!new)>(s: seq<T>, p: T -> bool)
    requires forall x :: x in s ==> p(x)
    ensures Filter(s, p) == s
  {
    if s != [] {
      FilterAll(s[1..], p);
    }
  }

  lemma {:induction false} FilterNone<T(!new)>(s: seq<T>, p: T -> bool)
    requires forall x :: x in s ==> !p(x)
    ensures Filter(s, p) == []
  {
    if s != [] {
      FilterNone(s[1..], p);
    }
  }

  lemma {:induction false} FilterOneMore<T(!new)>(s: seq<T>, x: T, p: T -> bool)
    ensures Filter(s + [x], p) == Filter(s, p) + (if p(x) then [x] else [])
  {
    FilterAppend(s, [x], p);
    assert [x][1..] == [];
  }

  lemma {:induction false} FilterDropsPrefix<T(!new)>(a: seq<T>, b: seq<T>, p: T -> bool)
    requires forall x :: x in a ==> !p(x)
    requires forall x :: x in b ==> p(x)
    ensures Filter(a + b, p) == b
  {
    FilterAppend(a, b, p);
    FilterNone(a, p);
    FilterAll(b, p);
  }

  /** The values present, in order. */
  function Somes<T>(os: seq<Option<T>>): seq<T> {
    if os == [] then []
    else Somes(os[..|os| - 1]) + (if os[|os| - 1].Some? then [os[|os| - 1].value] else [])
  }

  lemma {:induction false} SomesAt<T>(os: seq<Option<T>>)
    requires forall i :: 0 <= i < |os| ==> os[i].Some?
    ensures |Somes(os)| == |os| && forall i :: 0 <= i < |os| ==> Somes(os)[i] == os[i].value
  {
    if os != [] {
      SomesAt(os[..|os| - 1]);
    }
  }

  lemma {:induction false} SomesAppend<T>(os: seq<Option<T>>, v: T)
    ensures Somes(os + [Some(v)]) == Somes(os) + [v]
  {
    assert (os + [Some(v)])[..|os|] == os;
  }

  // ----- first occurrences --------------------------------------------------------------

  /** Each value of `s` once, in the order of first occurrence. */
  function FirstSeen<K(==)>(s: seq<K>): seq<K>
  {
    if s == [] then []
    else
      var front := FirstSeen(s[..|s| - 1]);
      if s[|s| - 1] in front then front else front + [s[|s| - 1]]
  }

  predicate Distinct<K(==)>(s: seq<K>) {
    forall i, j :: 0 <= i < j < |s| ==> s[i] != s[j]
  }

  lemma {:induction false} FirstSeenProperties<K(!new)>(s: seq<K>)
    ensures Distinct(FirstSeen(s))
    ensures forall x :: x in FirstSeen(s) <==> x in s
  {
    if s != [] {
      FirstSeenProperties(s[..|s| - 1]);
    }
  }

  // ----- decimal text of an integer ---------------------------------------------------

  function Digits(n: nat): (s: string)
    ensures |s| > 0
    ensures forall c :: c in s ==> '0' <= c <= '9'
  {
    if n < 10 then ["0123456789"[n]] else Digits(n / 10) + ["0123456789"[n % 10]]
  }

  function Decimal(n: int): string {
    if n < 0 then "-" + Digits(-n) else Digits(n)
  }

  lemma {:induction false} DigitsInjective(a: nat, b: nat)
    requires Digits(a) == Digits(b)
    ensures a == b
  {
    var s, t := Digits(a), Digits(b);
    assert s[|s| - 1] == "0123456789"[a % 10];
    assert t[|t| - 1] == "0123456789"[b % 10];
    if a >= 10 && b >= 10 {
      assert s[..|s| - 1] == Digits(a / 10) && t[..|t| - 1] == Digits(b / 10);
      DigitsInjective(a / 10, b / 10);
    }
  }

  lemma {:induction false} DecimalSign(n: int)
    ensures Decimal(n) != [] && (Decimal(n)[0] == '-' <==> n < 0)
  {
    if n >= 0 {
      assert Digits(n)[0] in Digits(n);
    }
  }

  lemma {:induction false} DecimalInjective(a: int, b: int)
    requires Decimal(a) == Decimal(b)
    ensures a == b
  {
    if a < 0 && b < 0 {
      assert Decimal(a)[1..] == Digits(-a) && Decimal(b)[1..] == Digits(-b);
      DigitsInjective(-a, -b);
    } else if a >= 0 && b >= 0 {
      DigitsInjective(a, b);
    } else {
      DecimalSign(a);
      DecimalSign(b);
    }
  }

  lemma {:induction false} DecimalColonFree(n: int)
    ensures ':' !in Decimal(n)
  {
    if n < 0 {
      assert forall c :: c in Decimal(n) ==> c == '-' || c in Digits(-n);
    }
  }

  // ----- lexical order of names ---------------------------------------------------------

  /** Strict code-point order on strings, the order in which Python compares `str`. */
  predicate LexLess(a: string, b: string) {
    if b == [] then false
    else if a == [] then true
    else a[0] < b[0] || (a[0] == b[0] && LexLess(a[1..], b[1..]))
  }

  lemma {:induction false} LexTransitive(a: string, b: string, c: string)
    requires LexLess(a, b) && LexLess(b, c)
    ensures LexLess(a, c)
  {
    if a != [] && b[0] == c[0] && a[0] == b[0] {
      LexTransitive(a[1..], b[1..], c[1..]);
    }
  }

  lemma {:induction false} LexIrreflexive(a: string)
    ensures !LexLess(a, a)
  {
    if a != [] {
      LexIrreflexive(a[1..]);
    }
  }

  lemma {:induction false} LexTotal(a: string, b: string)
    ensures LexLess(a, b) || a == b || LexLess(b, a)
  {
    if a != [] && b != [] && a[0] == b[0] {
      LexTotal(a[1..], b[1..]);
      assert a == [a[0]] + a[1..] && b == [b[0]] + b[1..];
    }
  }
}
