// The transaction Merkle root: pairwise hashing in place, level by level,
// computes the recursive tree that splits at the largest power of two.

module Merkle {
  /** Largest power of two strictly below `n`. */
  function SplitPoint(n: nat): (k: nat)
    requires n >= 2
    ensures 1 <= k < n <= 2 * k
  {
    if n == 2 then 1 else 2 * SplitPoint((n + 1) / 2)
  }

  ghost predicate PowerOfTwo(k: nat)
    decreases k
  {
    k == 1 || (k > 0 && k % 2 == 0 && PowerOfTwo(k / 2))
  }

  lemma {:induction false} SplitIsPower(n: nat)
    requires n >= 2
    ensures PowerOfTwo(SplitPoint(n))
    decreases n
  {
    if n > 2 {
      SplitIsPower((n + 1) / 2);
    }
  }

  /** The tree of section 2.1 of RFC 6962, without its prefix bytes. */
  ghost function Tree<D>(leaves: seq<D>, hash: (D, D) -> D): D
    requires leaves != []
    decreases |leaves|
  {
    if |leaves| == 1 then leaves[0]
    else
      var k := SplitPoint(|leaves|);
      hash(Tree(leaves[..k], hash), Tree(leaves[k..], hash))
  }

  /** One level up: neighbours hashed in pairs, an odd last one carried over. */
  ghost function Pairs<D>(s: seq<D>, hash: (D, D) -> D): (r: seq<D>)
    ensures |r| == (|s| + 1) / 2
    decreases |s|
  {
    if |s| < 2 then s else [hash(s[0], s[1])] + Pairs(s[2..], hash)
  }

  lemma {:induction false} PairsAt<D>(s: seq<D>, hash: (D, D) -> D, j: nat)
    requires j < (|s| + 1) / 2
    ensures Pairs(s, hash)[j] == if 2 * j + 1 < |s| then hash(s[2 * j], s[2 * j + 1]) else s[2 * j]
    decreases |s|
  {
    if j > 0 {
      PairsAt(s[2..], hash, j - 1);
    }
  }

  lemma PairsNone<D>(hash: (D, D) -> D)
    ensures Pairs([], hash) == []
  {
  }

  lemma {:induction false} PairsCons<D>(s: seq<D>, hash: (D, D) -> D)
    requires |s| >= 2
    ensures Pairs(s, hash) == [hash(s[0], s[1])] + Pairs(s[2..], hash)
  {
  }

  lemma {:induction false} PairsSplit<D>(s: seq<D>, hash: (D, D) -> D, m: nat)
    requires 2 * m <= |s|
    ensures Pairs(s, hash) == Pairs(s[..2 * m], hash) + Pairs(s[2 * m..], hash)
    decreases m
  {
    hide Pairs;
    if m == 0 {
      assert s[..0] == [] && s[0..] == s;
      PairsNone(hash);
    } else {
      var left, right, tail := s[..2 * m], s[2 * m..], s[2..];
      PairsSplit(tail, hash, m - 1);
      PairsCons(s, hash);
      PairsCons(left, hash);
      assert tail[..2 * (m - 1)] == left[2..] && tail[2 * (m - 1)..] == right;
      var first := [hash(s[0], s[1])];
      var a, b := Pairs(left[2..], hash), Pairs(right, hash);
      assert Pairs(left, hash) == first + a;
      assert first + (a + b) == first + a + b;
    }
  }

  /** Hashing one level in pairs does not change the tree. */
  lemma {:induction false} PairsKeepTree<D>(s: seq<D>, hash: (D, D) -> D)
    requires s != []
    ensures Tree(Pairs(s, hash), hash) == Tree(s, hash)
    decreases |s|
  {
    if |s| == 2 {
      assert s[..1] == [s[0]] && s[1..] == [s[1]];
      assert Pairs(s, hash) == [hash(s[0], s[1])];
    } else if |s| > 2 {
      var n, k := |s|, SplitPoint(|s|);
      var up := Pairs(s, hash);
      PairsSplit(s, hash, k / 2);
      assert SplitPoint(|up|) == k / 2;
      assert up[..k / 2] == Pairs(s[..k], hash);
      assert up[k / 2..] == Pairs(s[k..], hash);
      PairsKeepTree(s[..k], hash);
      PairsKeepTree(s[k..], hash);
    }
  }

  /** One level of the computation, writing over the hashes it has already read. */
  method HashLevel<D>(ids: array<D>, n: nat, hash: (D, D) -> D) returns (k: nat)
    requires 2 <= n <= ids.Length
    modifies ids
    ensures k == (n + 1) / 2 && ids[..k] == Pairs(old(ids[..n]), hash)
    ensures forall j: nat :: n <= j < ids.Length ==> ids[j] == old(ids[j])
  {
    hide Pairs, Level;
    ghost var before := ids[..];
    LevelNone(before, hash);
    var top := n - n % 2;
    k := 0;
    var i := 0;
    while i < top
      invariant 0 <= i <= top && i == 2 * k && Level(ids[..], before, k, hash)
    {
      LevelStep(ids[..], before, k, hash);
      ids[k] := hash(ids[i], ids[i + 1]);
      k := k + 1;
      i := i + 2;
    }
    LevelDone(ids[..], before, n, hash);
    if n % 2 == 1 {
      ids[k] := ids[top];
      k := k + 1;
    }
  }

  lemma LevelDone<D>(now: seq<D>, before: seq<D>, n: nat, hash: (D, D) -> D)
    requires Level(now, before, n / 2, hash) && n <= |now|
    ensures var r := if n % 2 == 1 then now[n / 2 := now[n - 1]] else now;
            r[..(n + 1) / 2] == Pairs(before[..n], hash) && forall j: nat :: n <= j < |now| ==> r[j] == before[j]
  {
    hide Pairs;
    var r := if n % 2 == 1 then now[n / 2 := now[n - 1]] else now;
    PairsFrom(before[..n], r[..(n + 1) / 2], hash);
  }

  /** The first `k` slots hold hashes of pairs; slots from `2 * k` on have not been written yet. */
  ghost predicate Level<D>(now: seq<D>, before: seq<D>, k: nat, hash: (D, D) -> D) {
    && |now| == |before| && 2 * k <= |now|
    && (forall j: nat {:trigger now[j]} :: j < k ==> now[j] == hash(before[2 * j], before[2 * j + 1]))
    && (forall j: nat {:trigger now[j]} :: 2 * k <= j < |now| ==> now[j] == before[j])
  }

  lemma LevelNone<D>(before: seq<D>, hash: (D, D) -> D)
    ensures Level(before, before, 0, hash)
  {
  }

  lemma LevelStep<D>(now: seq<D>, before: seq<D>, k: nat, hash: (D, D) -> D)
    requires Level(now, before, k, hash) && 2 * k + 1 < |now|
    ensures Level(now[k := hash(now[2 * k], now[2 * k + 1])], before, k + 1, hash)
  {
  }

  lemma {:induction false} PairsFrom<D>(s: seq<D>, r: seq<D>, hash: (D, D) -> D)
    requires |r| == (|s| + 1) / 2
    requires forall j: nat {:trigger r[j]} :: j < |s| / 2 ==> r[j] == hash(s[2 * j], s[2 * j + 1])
    requires |s| % 2 == 1 ==> r[|r| - 1] == s[|s| - 1]
    ensures r == Pairs(s, hash)
  {
    hide Pairs;
    forall j: nat | j < |r| ensures r[j] == Pairs(s, hash)[j] {
      PairsAt(s, hash, j);
    }
  }

  /**
   * The whole computation; `default` stands for the digest of no transactions and
   * `seal` for the final hash that turns the top digest into a checksum.
   */
  method MerkleRoot<D, C>(digests: seq<D>, hash: (D, D) -> D, seal: D -> C, default: C) returns (root: C)
    ensures digests == [] ==> root == default
    ensures digests != [] ==> root == seal(Tree(digests, hash))
  {
    if |digests| == 0 {
      return default;
    }
    var ids := new D[|digests|](i requires 0 <= i < |digests| => digests[i]);
    var n := ids.Length;
    assert ids[..n] == digests;
    while n > 1
      invariant 1 <= n <= ids.Length && Tree(ids[..n], hash) == Tree(digests, hash)
    {
      PairsKeepTree(ids[..n], hash);
      n := HashLevel(ids, n, hash);
    }
    assert ids[..n] == [ids[0]];
    return seal(ids[0]);
  }
}
