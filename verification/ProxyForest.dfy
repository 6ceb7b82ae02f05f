// The specification side of proxied governance votes: who is how many proxy
// hops above whom, and what a subtree of the proxy forest weighs level by level.

module ProxyForest {
  import opened Common

  /** `proxy[b]` is the account `b` has designated, if any. Accounts are dense ids. */
  type Forest = seq<Option<nat>>

  ghost predicate InRange(proxy: Forest) {
    forall b: nat :: b < |proxy| && proxy[b].Some? ==> proxy[b].value < |proxy|
  }

  /** The account exactly `n` proxy hops above `b`, if the chain is that long. */
  ghost function Up(proxy: Forest, b: nat, n: nat): Option<nat>
    decreases n
  {
    if n == 0 then Some(b)
    else if b < |proxy| && proxy[b].Some? then Up(proxy, proxy[b].value, n - 1)
    else None
  }

  ghost predicate Acyclic(proxy: Forest) {
    forall b: nat, n: nat {:trigger Up(proxy, b, n)} :: n > 0 ==> Up(proxy, b, n) != Some(b)
  }

  lemma {:induction false} UpAdd(proxy: Forest, b: nat, i: nat, j: nat)
    ensures Up(proxy, b, i + j) == (match Up(proxy, b, i) case Some(x) => Up(proxy, x, j) case None => None)
    decreases i
  {
    if i != 0 && b < |proxy| && proxy[b].Some? {
      UpAdd(proxy, proxy[b].value, i - 1, j);
    }
  }

  lemma {:induction false} UpInRange(proxy: Forest, b: nat, n: nat)
    requires InRange(proxy) && b < |proxy| && Up(proxy, b, n).Some?
    ensures Up(proxy, b, n).value < |proxy|
    decreases n
  {
    if n != 0 {
      UpInRange(proxy, proxy[b].value, n - 1);
    }
  }

  /** In an acyclic forest an ancestor is met at one distance only. */
  lemma {:induction false} DistanceUnique(proxy: Forest, b: nat, p: nat, i: nat, j: nat)
    requires Acyclic(proxy)
    requires Up(proxy, b, i) == Some(p) && Up(proxy, b, j) == Some(p)
    ensures i == j
  {
    var lo, hi := if i < j then i else j, if i < j then j else i;
    UpAdd(proxy, b, lo, hi - lo);
  }

  // ---- cutting one edge ----

  /** Removing the edge above `a` stops every climb that would have passed `a`, and no other. */
  lemma {:induction false} CutUp(proxy: Forest, a: nat, b: nat, n: nat)
    requires a < |proxy|
    ensures (forall i: nat :: i < n ==> Up(proxy, b, i) != Some(a)) ==> Up(proxy[a := None], b, n) == Up(proxy, b, n)
    ensures (exists i: nat :: i < n && Up(proxy, b, i) == Some(a)) ==> Up(proxy[a := None], b, n) == None
    decreases n
  {
    if n != 0 && b < |proxy| {
      if b == a {
        assert Up(proxy, b, 0) == Some(a);
      } else if proxy[b].Some? {
        var c := proxy[b].value;
        CutUp(proxy, a, c, n - 1);
        if exists i: nat :: i < n && Up(proxy, b, i) == Some(a) {
          var i: nat :| i < n && Up(proxy, b, i) == Some(a);
          assert i != 0 && Up(proxy, c, i - 1) == Some(a);
        } else {
          forall i: nat | i < n - 1 ensures Up(proxy, c, i) != Some(a) {
            assert Up(proxy, b, i + 1) == Up(proxy, c, i);
          }
        }
      }
    }
  }

  lemma CutAcyclic(proxy: Forest, a: nat)
    requires a < |proxy| && Acyclic(proxy)
    ensures Acyclic(proxy[a := None])
  {
    var cut := proxy[a := None];
    forall b: nat, n: nat | n > 0 ensures Up(cut, b, n) != Some(b) {
      CutUp(proxy, a, b, n);
    }
  }

  /**
   * Adding an edge from the root `a` to `q` keeps the forest acyclic when the climb
   * from `q` never meets `a`: this is what the loop check of a proxy change establishes.
   */
  lemma LinkAcyclic(proxy: Forest, a: nat, q: nat)
    requires a < |proxy| && proxy[a].None? && Acyclic(proxy)
    requires forall i: nat :: Up(proxy, q, i) != Some(a)
    ensures Acyclic(proxy[a := Some(q)])
  {
    var linked := proxy[a := Some(q)];
    assert linked[a := None] == proxy;
    forall i: nat ensures Up(linked, q, i) == Up(proxy, q, i) {
      LinkAvoids(proxy, a, q, q, i);
    }
    forall b: nat, n: nat | n > 0 ensures Up(linked, b, n) != Some(b) {
      if Up(linked, b, n) == Some(b) {
        CutUp(linked, a, b, n);
        var i: nat :| i < n && Up(linked, b, i) == Some(a);
        // Going once more round the cycle from `a` returns to `a` through `q`.
        UpAdd(linked, b, n, i);
        UpAdd(linked, b, i, n);
      }
    }
  }

  lemma {:induction false} LinkAvoids(proxy: Forest, a: nat, q: nat, b: nat, i: nat)
    requires a < |proxy|
    requires forall k: nat :: k <= i ==> Up(proxy, b, k) != Some(a)
    ensures Up(proxy[a := Some(q)], b, i) == Up(proxy, b, i)
    decreases i
  {
    assert Up(proxy, b, 0) == Some(b);
    if i != 0 && b < |proxy| && proxy[b].Some? {
      forall k: nat | k <= i - 1 ensures Up(proxy, proxy[b].value, k) != Some(a) {
        assert Up(proxy, b, k + 1) == Up(proxy, proxy[b].value, k);
      }
      LinkAvoids(proxy, a, q, proxy[b].value, i - 1);
    }
  }

  // ---- weights of levels ----

  ghost function Share(proxy: Forest, direct: seq<int>, a: nat, n: nat, b: nat): int {
    if b < |direct| && Up(proxy, b, n) == Some(a) then direct[b] else 0
  }

  /** Total direct vote power of the accounts exactly `n` hops below `a`. */
  ghost function LevelSum(proxy: Forest, direct: seq<int>, a: nat, n: nat): int {
    SumTo(|direct|, (b: nat) => Share(proxy, direct, a, n, b))
  }

  lemma LevelZero(proxy: Forest, direct: seq<int>, a: nat)
    requires a < |direct|
    ensures LevelSum(proxy, direct, a, 0) == direct[a]
  {
    var none := (b: nat) => 0;
    var share := (b: nat) => Share(proxy, direct, a, 0, b);
    SumPoint(|direct|, a, none, share);
    SumZero(|direct|, none);
  }

  /**
   * What the edge above `a` is worth to `p`, `j >= 1` hops above `a`: every level of
   * `p` is the level without the edge plus the matching level of `a`.
   */
  lemma {:induction false} CutLevel(proxy: Forest, direct: seq<int>, a: nat, p: nat, j: nat, n: nat)
    requires Acyclic(proxy) && a < |proxy|
    requires j >= 1 && Up(proxy, a, j) == Some(p)
    ensures LevelSum(proxy, direct, p, n)
         == LevelSum(proxy[a := None], direct, p, n) + if n >= j then LevelSum(proxy, direct, a, n - j) else 0
  {
    var cut := proxy[a := None];
    var whole := (b: nat) => Share(proxy, direct, p, n, b);
    var rest := (b: nat) => Share(cut, direct, p, n, b);
    var via := (b: nat) => if n >= j then Share(proxy, direct, a, n - j, b) else 0;
    forall b: nat | b < |direct| ensures whole(b) == rest(b) + via(b) {
      CutShare(proxy, direct, a, p, j, n, b);
    }
    SumAdd(|direct|, rest, via, whole);
    if n >= j {
      SumCong(|direct|, via, (b: nat) => Share(proxy, direct, a, n - j, b));
    } else {
      SumZero(|direct|, via);
    }
  }

  lemma {:induction false} CutShare(proxy: Forest, direct: seq<int>, a: nat, p: nat, j: nat, n: nat, b: nat)
    requires Acyclic(proxy) && a < |proxy| && b < |direct|
    requires j >= 1 && Up(proxy, a, j) == Some(p)
    ensures Share(proxy, direct, p, n, b)
         == Share(proxy[a := None], direct, p, n, b) + if n >= j then Share(proxy, direct, a, n - j, b) else 0
  {
    CutUp(proxy, a, b, n);
    if exists i: nat :: i < n && Up(proxy, b, i) == Some(a) {
      var i: nat :| i < n && Up(proxy, b, i) == Some(a);
      UpAdd(proxy, b, i, n - i);
      if Up(proxy, a, n - i) == Some(p) {
        DistanceUnique(proxy, a, p, n - i, j);
      } else if n >= j && Up(proxy, b, n - j) == Some(a) {
        DistanceUnique(proxy, b, a, i, n - j);
      }
    } else if n >= j {
      assert Up(proxy, b, n - j) != Some(a);
    }
  }

  /** Accounts that are not above `a` do not notice the edge. */
  lemma CutLevelElsewhere(proxy: Forest, direct: seq<int>, a: nat, p: nat, n: nat)
    requires a < |proxy|
    requires forall j: nat :: 1 <= j <= n ==> Up(proxy, a, j) != Some(p)
    ensures LevelSum(proxy, direct, p, n) == LevelSum(proxy[a := None], direct, p, n)
  {
    var cut := proxy[a := None];
    forall b: nat | b < |direct| ensures Share(proxy, direct, p, n, b) == Share(cut, direct, p, n, b) {
      CutUp(proxy, a, b, n);
      if exists i: nat :: i < n && Up(proxy, b, i) == Some(a) {
        var i: nat :| i < n && Up(proxy, b, i) == Some(a);
        UpAdd(proxy, b, i, n - i);
      }
    }
    SumCong(|direct|, (b: nat) => Share(proxy, direct, p, n, b), (b: nat) => Share(cut, direct, p, n, b));
  }

  /** A change of one account's power by `delta` shows at exactly the level it lies on. */
  lemma {:induction false} LevelPoint(proxy: Forest, direct: seq<int>, x: nat, delta: int, p: nat, n: nat)
    requires x < |direct|
    ensures LevelSum(proxy, direct[x := direct[x] + delta], p, n)
         == LevelSum(proxy, direct, p, n) + if Up(proxy, x, n) == Some(p) then delta else 0
  {
    var changed := direct[x := direct[x] + delta];
    SumPoint(|direct|, x, (b: nat) => Share(proxy, direct, p, n, b), (b: nat) => Share(proxy, changed, p, n, b));
  }
}
