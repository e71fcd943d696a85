/** The daily Merkle tree of anchor_logger.py: the level-by-level loop, a top-down reading of
    the same root, and what equal roots say about the leaves. */
module Merkle {
  import opened Common

  /** The texts hashed to make the level above: neighbours joined, an odd last node with itself. */
  function Pairs(level: seq<string>): (inputs: seq<string>)
    ensures 2 * |inputs| == |level| || 2 * |inputs| == |level| + 1
  {
    if level == [] then []
    else if |level| == 1 then [level[0] + level[0]]
    else [level[0] + level[1]] + Pairs(level[2..])
  }

  /** One pass of the inner loop: the level above `level`. */
  function NextLevel(sha: string -> string, level: seq<string>): (next: seq<string>)
    ensures 2 * |next| == |level| || 2 * |next| == |level| + 1
  {
    if level == [] then []
    else if |level| == 1 then [sha(level[0] + level[0])]
    else [sha(level[0] + level[1])] + NextLevel(sha, level[2..])
  }

  /** All levels above and including `level`, leaves first. */
  function Levels(sha: string -> string, level: seq<string>): (levels: seq<seq<string>>)
    requires level != []
    ensures levels != [] && levels[0] == level && |levels[|levels| - 1]| == 1
    decreases |level|
  {
    if |level| == 1 then [level] else [level] + Levels(sha, NextLevel(sha, level))
  }

  function Root(sha: string -> string, leaves: seq<string>): string
    decreases |leaves|
  {
    if leaves == [] then sha("empty")
    else if |leaves| == 1 then leaves[0]
    else Root(sha, NextLevel(sha, leaves))
  }

  datatype Tree = Tree(root: string, leaves: seq<string>, levels: seq<seq<string>>)

  function Min(a: int, b: int): int {
    if a < b then a else b
  }

  lemma {:induction false} LevelsUnfold(
      sha: string -> string, levels: seq<seq<string>>, current: seq<string>, next: seq<string>)
    requires |current| > 1 && next == NextLevel(sha, current)
    requires levels != [] && levels[|levels| - 1] == current
    ensures (levels + [next])[..|levels|] + Levels(sha, next)
            == levels[..|levels| - 1] + Levels(sha, current)
  {
    assert (levels + [next])[..|levels|] == levels == levels[..|levels| - 1] + [current];
  }

  /** What the loop appends at position `i`. */
  lemma {:induction false} NextParent(sha: string -> string, level: seq<string>, i: nat)
    requires i < |level|
    ensures NextLevel(sha, level[i..]) ==
            [sha(level[i] + (if i + 1 < |level| then level[i + 1] else level[i]))]
            + NextLevel(sha, level[Min(i + 2, |level|)..])
  {
    if i + 1 < |level| {
      assert level[i..][2..] == level[i + 2..];
    }
  }

  // ----- the loop -----------------------------------------------------------------------

  /** `next` are the parents of the nodes before position `i`. */
  ghost predicate HashedTo(sha: string -> string, current: seq<string>, i: nat, next: seq<string>) {
    next + NextLevel(sha, current[Min(i, |current|)..]) == NextLevel(sha, current)
  }

  lemma {:induction false} HashedStep(sha: string -> string, current: seq<string>, i: nat, next: seq<string>)
    requires i < |current| && HashedTo(sha, current, i, next)
    ensures HashedTo(sha, current, i + 2,
                     next + [sha(current[i] + (if i + 1 < |current| then current[i + 1] else current[i]))])
  {
    NextParent(sha, current, i);
  }

  /** The inner loop, stepping over the level two nodes at a time. */
  method HashLevel(sha: string -> string, current: seq<string>) returns (next: seq<string>)
    ensures next == NextLevel(sha, current)
  {
    next := [];
    var i: nat := 0;
    while i < |current|
      invariant HashedTo(sha, current, i, next)
    {
      var left := current[i];
      var right := if i + 1 < |current| then current[i + 1] else left;
      HashedStep(sha, current, i, next);
      next := next + [sha(left + right)];
      i := i + 2;
    }
  }

  method BuildMerkleTree(sha: string -> string, leafHashes: seq<string>) returns (t: Tree)
    ensures t.leaves == leafHashes
    ensures t.root == Root(sha, leafHashes)
    ensures leafHashes == [] ==> t.levels == []
    ensures leafHashes != [] ==> t.levels == Levels(sha, leafHashes)
    ensures leafHashes != [] ==> |t.levels| == CeilLog2(|leafHashes|) + 1
  {
    if leafHashes == [] {
      return Tree(sha("empty"), [], []);
    }
    var levels := [leafHashes];
    var current := leafHashes;
    while |current| > 1
      invariant Built(sha, leafHashes, levels, current)
      decreases |current|
    {
      var next := HashLevel(sha, current);
      BuiltStep(sha, leafHashes, levels, current);
      levels := levels + [next];
      current := next;
    }
    BuiltAll(sha, leafHashes, levels, current);
    return Tree(current[0], leafHashes, levels);
  }

  /** `levels` are the levels over `leaves` so far, `current` the last of them. */
  ghost predicate Built(sha: string -> string, leaves: seq<string>, levels: seq<seq<string>>, current: seq<string>) {
    && leaves != [] && current != [] && levels != [] && levels[|levels| - 1] == current
    && levels[..|levels| - 1] + Levels(sha, current) == Levels(sha, leaves)
    && Root(sha, current) == Root(sha, leaves)
  }

  lemma {:induction false} BuiltStep(
      sha: string -> string, leaves: seq<string>, levels: seq<seq<string>>, current: seq<string>)
    requires Built(sha, leaves, levels, current) && |current| > 1
    ensures Built(sha, leaves, levels + [NextLevel(sha, current)], NextLevel(sha, current))
    ensures |NextLevel(sha, current)| < |current|
  {
    LevelsUnfold(sha, levels, current, NextLevel(sha, current));
  }

  lemma {:induction false} BuiltAll(
      sha: string -> string, leaves: seq<string>, levels: seq<seq<string>>, current: seq<string>)
    requires Built(sha, leaves, levels, current) && |current| == 1
    ensures levels == Levels(sha, leaves) && |levels| == CeilLog2(|leaves|) + 1
    ensures current[0] == Root(sha, leaves)
  {
    assert levels == levels[..|levels| - 1] + [current];
    LevelCount(sha, leaves);
  }

  // ----- shape --------------------------------------------------------------------------

  function Pow2(k: nat): (p: nat)
    ensures p >= 1
  {
    if k == 0 then 1 else 2 * Pow2(k - 1)
  }

  /** The least k with n <= 2^k. */
  function CeilLog2(n: nat): nat
    requires n >= 1
  {
    if n == 1 then 0 else 1 + CeilLog2((n + 1) / 2)
  }

  /** `CeilLog2` is the ceiling of the binary logarithm: 2^(k-1) < n <= 2^k. */
  lemma {:induction false} CeilLog2Bounds(n: nat)
    requires n >= 1
    ensures n <= Pow2(CeilLog2(n))
    ensures n >= 2 ==> CeilLog2(n) >= 1 && Pow2(CeilLog2(n) - 1) < n
  {
    if n >= 2 {
      CeilLog2Bounds((n + 1) / 2);
    }
  }

  /** A day of n rows has ceil(log2 n) + 1 levels, and each level is half the one below. */
  lemma {:induction false} LevelCount(sha: string -> string, leaves: seq<string>)
    requires leaves != []
    ensures |Levels(sha, leaves)| == CeilLog2(|leaves|) + 1
    ensures forall k :: 0 <= k < |Levels(sha, leaves)| - 1 ==>
              |Levels(sha, leaves)[k + 1]| == (|Levels(sha, leaves)[k]| + 1) / 2
    decreases |leaves|
  {
    if |leaves| > 1 {
      LevelCount(sha, NextLevel(sha, leaves));
    }
  }

  // ----- top-down reading ---------------------------------------------------------------

  /** The node of height `d` above a block of at most 2^d leaves: split the block at 2^(d-1);
      a missing right half is a copy of the left. */
  function Node(sha: string -> string, d: nat, block: seq<string>): string
    requires 1 <= |block| <= Pow2(d)
    decreases d
  {
    if d == 0 then block[0]
    else
      var half := Pow2(d - 1);
      if |block| <= half then
        var left := Node(sha, d - 1, block);
        sha(left + left)
      else
        sha(Node(sha, d - 1, block[..half]) + Node(sha, d - 1, block[half..]))
  }

  lemma {:induction false} NextLevelAppend(sha: string -> string, k: nat, a: seq<string>, b: seq<string>)
    requires |a| == 2 * k
    ensures NextLevel(sha, a + b) == NextLevel(sha, a) + NextLevel(sha, b)
  {
    if a == [] {
      assert a + b == b;
    } else {
      assert (a + b)[2..] == a[2..] + b;
      NextLevelAppend(sha, k - 1, a[2..], b);
    }
  }

  /** Hashing one level first and then reading top-down gives the same node. */
  ghost predicate Commutes(sha: string -> string, d: nat, block: seq<string>)
    requires d >= 1
  {
    && 1 <= |block| <= Pow2(d) && |NextLevel(sha, block)| <= Pow2(d - 1)
    && Node(sha, d, block) == Node(sha, d - 1, NextLevel(sha, block))
  }

  lemma {:induction false} NodeOfNextLevel(sha: string -> string, d: nat, block: seq<string>)
    requires d >= 1 && 1 <= |block| <= Pow2(d)
    ensures Commutes(sha, d, block)
    decreases d
  {
    if d == 1 {
      assert Pow2(1) == 2 && Pow2(0) == 1;
    } else if |block| <= Pow2(d - 1) {
      NodeOfNextLevel(sha, d - 1, block);
      CopiedHalf(sha, d, block);
    } else {
      var half := Pow2(d - 1);
      assert block == block[..half] + block[half..];
      NodeOfNextLevel(sha, d - 1, block[..half]);
      NodeOfNextLevel(sha, d - 1, block[half..]);
      JoinNextLevels(sha, d, block[..half], block[half..]);
    }
  }

  lemma {:induction false} CopiedHalf(sha: string -> string, d: nat, block: seq<string>)
    requires d >= 2 && Commutes(sha, d - 1, block)
    ensures Commutes(sha, d, block)
  {
  }

  lemma {:induction false} JoinNextLevels(sha: string -> string, d: nat, l: seq<string>, r: seq<string>)
    requires d >= 2 && |l| == Pow2(d - 1) && 1 <= |r| <= Pow2(d - 1)
    requires Commutes(sha, d - 1, l) && Commutes(sha, d - 1, r)
    ensures Commutes(sha, d, l + r)
  {
    SplitSizes(sha, d, l, r);
    JoinHalves(sha, d, l, r, NextLevel(sha, l), NextLevel(sha, r));
  }

  lemma {:induction false} JoinHalves(
      sha: string -> string, d: nat, l: seq<string>, r: seq<string>, l': seq<string>, r': seq<string>)
    requires d >= 2 && |l| == Pow2(d - 1) && 1 <= |r| <= Pow2(d - 1)
    requires |l'| == Pow2(d - 2) && 1 <= |r'| <= Pow2(d - 2)
    requires Node(sha, d - 1, l) == Node(sha, d - 2, l')
    requires Node(sha, d - 1, r) == Node(sha, d - 2, r')
    ensures Node(sha, d, l + r) == Node(sha, d - 1, l' + r')
  {
    NodeOfHalves(sha, d, l, r);
    NodeOfHalves(sha, d - 1, l', r');
  }

  lemma {:induction false} SplitSizes(sha: string -> string, d: nat, l: seq<string>, r: seq<string>)
    requires d >= 2 && |l| == Pow2(d - 1) && 1 <= |r| <= Pow2(d - 1)
    ensures |l + r| <= Pow2(d)
    ensures |NextLevel(sha, l)| == Pow2(d - 2) && 1 <= |NextLevel(sha, r)| <= Pow2(d - 2)
    ensures NextLevel(sha, l + r) == NextLevel(sha, l) + NextLevel(sha, r)
    ensures |NextLevel(sha, l + r)| <= Pow2(d - 1)
  {
    NextLevelAppend(sha, Pow2(d - 2), l, r);
  }

  /** A full left block beside a non-empty right block. */
  lemma {:induction false} NodeOfHalves(sha: string -> string, d: nat, l: seq<string>, r: seq<string>)
    requires d >= 1 && |l| == Pow2(d - 1) && 1 <= |r| <= Pow2(d - 1)
    ensures Node(sha, d, l + r) == sha(Node(sha, d - 1, l) + Node(sha, d - 1, r))
  {
    assert (l + r)[..|l|] == l && (l + r)[|l|..] == r;
  }

  /** The bottom-up loop and the top-down recursion give the same root. */
  lemma {:induction false} RootIsTopDown(sha: string -> string, leaves: seq<string>)
    requires leaves != []
    ensures |leaves| <= Pow2(CeilLog2(|leaves|))
    ensures Root(sha, leaves) == Node(sha, CeilLog2(|leaves|), leaves)
    decreases |leaves|
  {
    CeilLog2Bounds(|leaves|);
    if |leaves| > 1 {
      var next := NextLevel(sha, leaves);
      assert |next| == (|leaves| + 1) / 2;
      RootIsTopDown(sha, next);
      NodeOfNextLevel(sha, CeilLog2(|leaves|), leaves);
    }
  }

  // ----- equal roots --------------------------------------------------------------------

  /** Every text hashed while the tree over `leaves` is built. */
  ghost function HashedPairs(sha: string -> string, leaves: seq<string>): set<string>
    decreases |leaves|
  {
    if |leaves| <= 1 then {}
    else (set x | x in Pairs(leaves)) + HashedPairs(sha, NextLevel(sha, leaves))
  }

  predicate AllOfLength(level: seq<string>, width: nat) {
    forall i :: 0 <= i < |level| ==> |level[i]| == width
  }

  lemma {:induction false} NextLevelWidth(sha: string -> string, width: nat, level: seq<string>)
    requires forall x :: |sha(x)| == width
    ensures AllOfLength(NextLevel(sha, level), width)
  {
    if |level| >= 2 {
      NextLevelWidth(sha, width, level[2..]);
    }
  }

  /** Equal roots over equally many leaves mean equal leaves, when digests have one width and
      none of the texts hashed for the two trees collide. */
  lemma {:induction false} RootBindsLeaves(sha: string -> string, width: nat, a: seq<string>, b: seq<string>)
    requires |a| == |b|
    requires AllOfLength(a, width) && AllOfLength(b, width)
    requires forall x :: |sha(x)| == width
    requires CollisionFreeOn(sha, HashedPairs(sha, a) + HashedPairs(sha, b))
    requires Root(sha, a) == Root(sha, b)
    ensures a == b
    decreases |a|
  {
    if |a| > 1 {
      NextLevelWidth(sha, width, a);
      NextLevelWidth(sha, width, b);
      RootBindsLeaves(sha, width, NextLevel(sha, a), NextLevel(sha, b));
      var x, y := Pairs(a), Pairs(b);
      forall i | 0 <= i < |x| ensures x[i] == y[i] {
        PairsAreHashed(sha, a, i);
        PairsAreHashed(sha, b, i);
        assert x[i] in HashedPairs(sha, a) && y[i] in HashedPairs(sha, b);
      }
      PairsBindLevel(width, a, b);
    }
  }

  lemma {:induction false} PairsAreHashed(sha: string -> string, level: seq<string>, i: nat)
    requires i < |Pairs(level)|
    ensures |NextLevel(sha, level)| == |Pairs(level)|
    ensures NextLevel(sha, level)[i] == sha(Pairs(level)[i])
  {
    if |level| >= 2 && i > 0 {
      PairsAreHashed(sha, level[2..], i - 1);
    }
  }

  lemma {:induction false} PairsBindLevel(width: nat, a: seq<string>, b: seq<string>)
    requires |a| == |b| && Pairs(a) == Pairs(b)
    requires AllOfLength(a, width) && AllOfLength(b, width)
    ensures a == b
  {
    if |a| == 1 {
      assert a[0] == Pairs(a)[0][..width] && b[0] == Pairs(b)[0][..width];
    } else if |a| >= 2 {
      assert a[0] == Pairs(a)[0][..width] && a[1] == Pairs(a)[0][width..];
      assert b[0] == Pairs(b)[0][..width] && b[1] == Pairs(b)[0][width..];
      assert Pairs(a)[1..] == Pairs(a[2..]) && Pairs(b)[1..] == Pairs(b[2..]);
      PairsBindLevel(width, a[2..], b[2..]);
      assert a == [a[0], a[1]] + a[2..] && b == [b[0], b[1]] + b[2..];
    }
  }

  /** Equal length is needed: an odd level of three or more nodes has the same root with its
      last node repeated, since that is the node the loop pairs it with. */
  lemma {:induction false} OddTailRepeats(sha: string -> string, k: nat, leaves: seq<string>)
    requires |leaves| == 2 * k + 1 && k >= 1
    ensures Root(sha, leaves + [leaves[|leaves| - 1]]) == Root(sha, leaves)
  {
    var last := leaves[|leaves| - 1];
    var front := leaves[..|leaves| - 1];
    assert leaves == front + [last] && leaves + [last] == front + [last, last];
    NextLevelAppend(sha, k, front, [last]);
    NextLevelAppend(sha, k, front, [last, last]);
    assert NextLevel(sha, [last, last]) == NextLevel(sha, [last]) by {
      assert [last, last][2..] == [];
    }
  }

  // ----- distinct leaves ------------------------------------------------------------------

  lemma {:induction false} PairAt(level: seq<string>, i: nat)
    requires i < |Pairs(level)|
    ensures 2 * i < |level|
    ensures Pairs(level)[i] == level[2 * i] + level[Min(2 * i + 1, |level| - 1)]
  {
    if |level| >= 2 && i > 0 {
      PairAt(level[2..], i - 1);
    }
  }

  lemma {:induction false} PairHalves(width: nat, level: seq<string>, i: nat)
    requires AllOfLength(level, width) && i < |Pairs(level)|
    ensures 2 * i < |level| && |Pairs(level)[i]| == 2 * width
    ensures Pairs(level)[i][..width] == level[2 * i]
    ensures Pairs(level)[i][width..] == level[Min(2 * i + 1, |level| - 1)]
  {
    PairAt(level, i);
  }

  /** Equal nodes of two levels are over equal pairs, and so over equal left children. */
  lemma {:induction false} NodeBindsPair(sha: string -> string, a: seq<string>, i: nat, b: seq<string>, j: nat)
    requires |a| > 1 && |b| > 1 && i < |NextLevel(sha, a)| && j < |NextLevel(sha, b)|
    requires CollisionFreeOn(sha, HashedPairs(sha, a) + HashedPairs(sha, b))
    requires NextLevel(sha, a)[i] == NextLevel(sha, b)[j]
    ensures |Pairs(a)| == |NextLevel(sha, a)| && |Pairs(b)| == |NextLevel(sha, b)|
    ensures Pairs(a)[i] == Pairs(b)[j]
  {
    PairsAreHashed(sha, a, i);
    PairsAreHashed(sha, b, j);
    assert Pairs(a)[i] in HashedPairs(sha, a) && Pairs(b)[j] in HashedPairs(sha, b);
  }

  /** So equal nodes have equal left children. */
  lemma {:induction false} NodeBindsLeft(
      sha: string -> string, width: nat, a: seq<string>, i: nat, b: seq<string>, j: nat)
    requires |a| > 1 && |b| > 1 && i < |NextLevel(sha, a)| && j < |NextLevel(sha, b)|
    requires AllOfLength(a, width) && AllOfLength(b, width)
    requires CollisionFreeOn(sha, HashedPairs(sha, a) + HashedPairs(sha, b))
    requires NextLevel(sha, a)[i] == NextLevel(sha, b)[j]
    ensures 2 * i < |a| && 2 * j < |b| && a[2 * i] == b[2 * j]
  {
    NodeBindsPair(sha, a, i, b, j);
    PairHalves(width, a, i);
    PairHalves(width, b, j);
  }

  lemma {:induction false} NextLevelHeight(sha: string -> string, level: seq<string>)
    requires |level| > 1
    ensures NextLevel(sha, level) != [] && |NextLevel(sha, level)| < |level|
    ensures CeilLog2(|NextLevel(sha, level)|) == CeilLog2(|level|) - 1
    ensures Root(sha, NextLevel(sha, level)) == Root(sha, level)
  {
  }

  lemma {:induction false} NextLevelCollisionFree(sha: string -> string, a: seq<string>, b: seq<string>)
    requires |a| > 1 && |b| > 1 && CollisionFreeOn(sha, HashedPairs(sha, a) + HashedPairs(sha, b))
    ensures CollisionFreeOn(sha, HashedPairs(sha, NextLevel(sha, a)) + HashedPairs(sha, NextLevel(sha, b)))
  {
  }

  lemma {:induction false} NextLevelDistinct(sha: string -> string, width: nat, level: seq<string>)
    requires |level| > 1 && Distinct(level) && AllOfLength(level, width)
    requires CollisionFreeOn(sha, HashedPairs(sha, level))
    ensures Distinct(NextLevel(sha, level))
  {
    var next := NextLevel(sha, level);
    assert HashedPairs(sha, level) + HashedPairs(sha, level) == HashedPairs(sha, level);
    forall i, j | 0 <= i < j < |next| ensures next[i] != next[j] {
      if next[i] == next[j] {
        NodeBindsLeft(sha, width, level, i, level, j);
      }
    }
  }

  /** The level `k` steps up. */
  function Climb(sha: string -> string, level: seq<string>, k: nat): seq<string>
    decreases k
  {
    if k == 0 then level else Climb(sha, NextLevel(sha, level), k - 1)
  }

  lemma {:induction false} ClimbHeight(sha: string -> string, level: seq<string>, k: nat)
    requires level != [] && k <= CeilLog2(|level|)
    ensures var c := Climb(sha, level, k);
            c != [] && CeilLog2(|c|) == CeilLog2(|level|) - k && Root(sha, c) == Root(sha, level)
    decreases k
  {
    if k >= 1 {
      NextLevelHeight(sha, level);
      ClimbHeight(sha, NextLevel(sha, level), k - 1);
    }
  }

  ghost predicate PairsWithin(sha: string -> string, level: seq<string>, hashed: set<string>) {
    HashedPairs(sha, level) <= hashed
  }

  lemma {:induction false} NextPairsHashed(sha: string -> string, level: seq<string>, hashed: set<string>)
    requires PairsWithin(sha, level, hashed)
    ensures PairsWithin(sha, NextLevel(sha, level), hashed)
  {
    if |level| <= 1 {
      assert |NextLevel(sha, level)| <= 1;
    }
  }

  lemma {:induction false} ClimbSubset(sha: string -> string, level: seq<string>, k: nat, hashed: set<string>)
    requires PairsWithin(sha, level, hashed)
    ensures PairsWithin(sha, Climb(sha, level, k), hashed)
    decreases k
  {
    if k >= 1 {
      NextPairsHashed(sha, level, hashed);
      ClimbSubset(sha, NextLevel(sha, level), k - 1, hashed);
    }
  }

  lemma {:induction false} ClimbTall(sha: string -> string, level: seq<string>, k: nat)
    requires level != [] && 1 <= k <= CeilLog2(|level|)
    ensures |Climb(sha, level, k - 1)| > 1
  {
    ClimbHeight(sha, level, k - 1);
  }

  lemma {:induction false} ClimbLast(sha: string -> string, level: seq<string>, k: nat)
    requires k >= 1
    ensures Climb(sha, level, k) == NextLevel(sha, Climb(sha, level, k - 1))
    decreases k
  {
    if k > 1 {
      ClimbLast(sha, NextLevel(sha, level), k - 1);
    }
  }

  /** A level made of pairs starts with the digest of a hashed pair. */
  lemma {:induction false} ClimbHashed(sha: string -> string, level: seq<string>, k: nat, hashed: set<string>)
    returns (p: string)
    requires k >= 1 && |Climb(sha, level, k - 1)| > 1 && PairsWithin(sha, level, hashed)
    ensures Climb(sha, level, k) != [] && Climb(sha, level, k)[0] == sha(p)
    ensures p in hashed
  {
    ClimbLast(sha, level, k);
    ClimbSubset(sha, level, k - 1, hashed);
    p := FirstIsHashed(sha, Climb(sha, level, k - 1), hashed);
  }

  lemma {:induction false} FirstIsHashed(
      sha: string -> string, level: seq<string>, hashed: set<string>) returns (p: string)
    requires |level| > 1 && PairsWithin(sha, level, hashed)
    ensures NextLevel(sha, level) != [] && NextLevel(sha, level)[0] == sha(p)
    ensures p in hashed
  {
    p := Pairs(level)[0];
    PairsAreHashed(sha, level, 0);
    assert p in HashedPairs(sha, level);
  }

  lemma {:induction false} ClimbWidth(sha: string -> string, width: nat, level: seq<string>, k: nat)
    requires AllOfLength(level, width) && forall x :: |sha(x)| == width
    ensures AllOfLength(Climb(sha, level, k), width)
    decreases k
  {
    if k >= 1 {
      NextLevelWidth(sha, width, level);
      ClimbWidth(sha, width, NextLevel(sha, level), k - 1);
    }
  }

  /** Trees of one height with one root have one first leaf. */
  lemma {:induction false} FirstLeavesAgree(sha: string -> string, width: nat, a: seq<string>, b: seq<string>)
    requires a != [] && b != [] && CeilLog2(|a|) == CeilLog2(|b|)
    requires AllOfLength(a, width) && AllOfLength(b, width) && forall x :: |sha(x)| == width
    requires CollisionFreeOn(sha, HashedPairs(sha, a) + HashedPairs(sha, b))
    requires Root(sha, a) == Root(sha, b)
    ensures a[0] == b[0]
    decreases |a|
  {
    if |a| > 1 {
      NextLevelWidth(sha, width, a);
      NextLevelWidth(sha, width, b);
      NextLevelHeight(sha, a);
      NextLevelHeight(sha, b);
      NextLevelCollisionFree(sha, a, b);
      FirstLeavesAgree(sha, width, NextLevel(sha, a), NextLevel(sha, b));
      NodeBindsLeft(sha, width, a, 0, b, 0);
    }
  }

  /** No leaf of `a` is a node of the tree over `b`, nor the root of an empty day. */
  ghost predicate LeavesApart(sha: string -> string, a: seq<string>, b: seq<string>) {
    && (forall x, p :: x in a && p in HashedPairs(sha, b) ==> x != sha(p))
    && sha("empty") !in a
  }

  /** The first leaf of the lower of two trees with one root is a node of the higher. */
  lemma {:induction false} FirstLeafIsNode(sha: string -> string, width: nat, a: seq<string>, b: seq<string>)
    requires a != [] && b != [] && CeilLog2(|a|) < CeilLog2(|b|)
    requires AllOfLength(a, width) && AllOfLength(b, width) && forall x :: |sha(x)| == width
    requires CollisionFreeOn(sha, HashedPairs(sha, a) + HashedPairs(sha, b))
    requires Root(sha, a) == Root(sha, b)
    ensures !LeavesApart(sha, a, b)
  {
    var k := CeilLog2(|b|) - CeilLog2(|a|);
    ClimbHeight(sha, b, k);
    ClimbSubset(sha, b, k, HashedPairs(sha, b));
    ClimbTall(sha, b, k);
    var p := ClimbHashed(sha, b, k, HashedPairs(sha, b));
    ClimbWidth(sha, width, b, k);
    FirstLeavesAgree(sha, width, a, Climb(sha, b, k));
    assert a[0] in a;
  }

  /** A tree is not lower than another with its root whose nodes its leaves are no part of. */
  lemma {:induction false} NotLower(sha: string -> string, width: nat, a: seq<string>, b: seq<string>)
    requires a != [] && b != [] && LeavesApart(sha, a, b)
    requires AllOfLength(a, width) && AllOfLength(b, width) && forall x :: |sha(x)| == width
    requires CollisionFreeOn(sha, HashedPairs(sha, a) + HashedPairs(sha, b))
    requires Root(sha, a) == Root(sha, b)
    ensures CeilLog2(|a|) >= CeilLog2(|b|)
  {
    if CeilLog2(|a|) < CeilLog2(|b|) {
      FirstLeafIsNode(sha, width, a, b);
    }
  }

  /** Distinct leaves under trees of one height: one root means one list of leaves. */
  lemma {:induction false} RootBindsDistinctLevels(sha: string -> string, width: nat, a: seq<string>, b: seq<string>)
    requires a != [] && b != [] && CeilLog2(|a|) == CeilLog2(|b|)
    requires Distinct(a) && Distinct(b)
    requires AllOfLength(a, width) && AllOfLength(b, width) && forall x :: |sha(x)| == width
    requires CollisionFreeOn(sha, HashedPairs(sha, a) + HashedPairs(sha, b))
    requires Root(sha, a) == Root(sha, b)
    ensures a == b
    decreases |a|
  {
    if |a| > 1 {
      NextLevelWidth(sha, width, a);
      NextLevelWidth(sha, width, b);
      NextLevelHeight(sha, a);
      NextLevelHeight(sha, b);
      NextLevelCollisionFree(sha, a, b);
      NextLevelDistinct(sha, width, a);
      NextLevelDistinct(sha, width, b);
      RootBindsDistinctLevels(sha, width, NextLevel(sha, a), NextLevel(sha, b));
      LastPairsAgree(sha, width, a, b);
      RootBindsLeaves(sha, width, a, b);
    }
  }

  /** In a level of distinct nodes only a copied last node is paired with itself. */
  lemma {:induction false} SelfPairIff(width: nat, level: seq<string>, last: nat)
    requires Distinct(level) && AllOfLength(level, width) && |Pairs(level)| == last + 1
    ensures |Pairs(level)[last]| == 2 * width
    ensures Pairs(level)[last][..width] == Pairs(level)[last][width..] <==> |level| == 2 * last + 1
  {
    PairHalves(width, level, last);
  }

  /** So distinct levels under one level are equally long. */
  lemma {:induction false} LastPairsAgree(sha: string -> string, width: nat, a: seq<string>, b: seq<string>)
    requires |a| > 1 && |b| > 1 && Distinct(a) && Distinct(b)
    requires AllOfLength(a, width) && AllOfLength(b, width)
    requires CollisionFreeOn(sha, HashedPairs(sha, a) + HashedPairs(sha, b))
    requires NextLevel(sha, a) == NextLevel(sha, b)
    ensures |a| == |b|
  {
    var last := |NextLevel(sha, a)| - 1;
    NodeBindsPair(sha, a, last, b, last);
    SelfPairIff(width, a, last);
    SelfPairIff(width, b, last);
  }

  /** The root of two or more leaves is the digest of a hashed pair. */
  lemma {:induction false} RootIsPair(sha: string -> string, leaves: seq<string>) returns (p: string)
    requires |leaves| > 1
    ensures p in HashedPairs(sha, leaves) && Root(sha, leaves) == sha(p)
  {
    var k := CeilLog2(|leaves|);
    ClimbHeight(sha, leaves, k);
    ClimbTall(sha, leaves, k);
    p := ClimbHashed(sha, leaves, k, HashedPairs(sha, leaves));
    RootOfOne(sha, Climb(sha, leaves, k));
  }

  lemma {:induction false} RootOfOne(sha: string -> string, top: seq<string>)
    requires top != [] && CeilLog2(|top|) == 0
    ensures Root(sha, top) == top[0]
  {
  }

  /** Every hashed pair has an even length, unlike the text hashed for an empty day. */
  lemma {:induction false} HashedPairsWidth(sha: string -> string, width: nat, leaves: seq<string>)
    requires AllOfLength(leaves, width) && forall x :: |sha(x)| == width
    ensures forall p :: p in HashedPairs(sha, leaves) ==> |p| == 2 * width
    decreases |leaves|
  {
    if |leaves| > 1 {
      NextLevelWidth(sha, width, leaves);
      HashedPairsWidth(sha, width, NextLevel(sha, leaves));
      forall p | p in Pairs(leaves) ensures |p| == 2 * width {
        var i :| 0 <= i < |Pairs(leaves)| && Pairs(leaves)[i] == p;
        PairAt(leaves, i);
      }
    }
  }

  lemma {:induction false} EvenText(p: string, width: nat)
    requires |p| == 2 * width
    ensures p != "empty"
  {
    assert |"empty"| == 5;
  }

  /** An empty day's root is that of no tree with a pair. */
  lemma {:induction false} EmptyRootIsOwn(sha: string -> string, width: nat, leaves: seq<string>)
    requires |leaves| > 1 && AllOfLength(leaves, width) && forall x :: |sha(x)| == width
    requires CollisionFreeOn(sha, HashedPairs(sha, leaves) + {"empty"})
    ensures Root(sha, leaves) != sha("empty")
  {
    HashedPairsWidth(sha, width, leaves);
    var p := RootIsPair(sha, leaves);
    EvenText(p, width);
  }

  lemma {:induction false} OnlyEmptyHasItsRoot(sha: string -> string, width: nat, leaves: seq<string>)
    requires sha("empty") !in leaves
    requires AllOfLength(leaves, width) && forall x :: |sha(x)| == width
    requires CollisionFreeOn(sha, HashedPairs(sha, leaves) + {"empty"})
    requires Root(sha, leaves) == sha("empty")
    ensures leaves == []
  {
    if |leaves| > 1 {
      EmptyRootIsOwn(sha, width, leaves);
    }
  }

  /** Equal roots over any two lists of distinct leaves mean equal lists, however long each is, when no
      leaf of one is a node over the other and nothing hashed for the two trees collides. */
  lemma {:induction false} RootBindsDistinctLeaves(sha: string -> string, width: nat, a: seq<string>, b: seq<string>)
    requires Distinct(a) && Distinct(b)
    requires LeavesApart(sha, a, b) && LeavesApart(sha, b, a)
    requires AllOfLength(a, width) && AllOfLength(b, width) && forall x :: |sha(x)| == width
    requires CollisionFreeOn(sha, HashedPairs(sha, a) + HashedPairs(sha, b) + {"empty"})
    requires Root(sha, a) == Root(sha, b)
    ensures a == b
  {
    if a != [] && b != [] {
      NotLower(sha, width, a, b);
      NotLower(sha, width, b, a);
      RootBindsDistinctLevels(sha, width, a, b);
    } else if b == [] {
      OnlyEmptyHasItsRoot(sha, width, a);
    } else {
      OnlyEmptyHasItsRoot(sha, width, b);
    }
  }
}
