// Shared vocabulary: optional values and finite sums over dense object ids.

module Common {
  datatype Option<+T> = None | Some(value: T)

  /** A sequence without its element `i`. */
  function Drop<T>(s: seq<T>, i: nat): seq<T>
    requires i < |s|
  {
    s[..i] + s[i + 1..]
  }

  lemma DropMembers<T>(s: seq<T>, k: nat)
    requires k < |s|
    ensures |Drop(s, k)| == |s| - 1 && forall i: nat :: i < k ==> Drop(s, k)[i] == s[i]
    ensures forall x :: x in Drop(s, k) ==> x in s
    ensures forall x :: x in s && x != s[k] ==> x in Drop(s, k)
  {
    assert s == s[..k] + [s[k]] + s[k + 1..];
  }

  ghost predicate Distinct(s: seq<nat>) {
    forall i: nat, j: nat :: i < j < |s| ==> s[i] != s[j]
  }

  ghost function Members(s: seq<nat>): set<nat> {
    set w | w in s
  }

  lemma SubsetSize(a: set<nat>, b: set<nat>)
    requires a <= b
    ensures |a| <= |b|
  {
    assert b == a + (b - a);
  }

  /** Sum of `f(0) + ... + f(n-1)`; chain objects have dense ids, so a sum over an index is a sum over ids. */
  ghost function SumTo(n: nat, f: nat -> int): int {
    if n == 0 then 0 else SumTo(n - 1, f) + f(n - 1)
  }

  lemma {:induction false} SumCong(n: nat, f: nat -> int, g: nat -> int)
    requires forall i: nat :: i < n ==> f(i) == g(i)
    ensures SumTo(n, f) == SumTo(n, g)
  {
    if n != 0 {
      SumCong(n - 1, f, g);
    }
  }

  lemma {:induction false} SumAdd(n: nat, f: nat -> int, g: nat -> int, h: nat -> int)
    requires forall i: nat :: i < n ==> h(i) == f(i) + g(i)
    ensures SumTo(n, h) == SumTo(n, f) + SumTo(n, g)
  {
    if n != 0 {
      SumAdd(n - 1, f, g, h);
    }
  }

  /** Two summands that agree except at `k` have sums that differ by what they differ by at `k`. */
  lemma {:induction false} SumPoint(n: nat, k: nat, f: nat -> int, g: nat -> int)
    requires k < n
    requires forall i: nat :: i < n && i != k ==> f(i) == g(i)
    ensures SumTo(n, g) == SumTo(n, f) + g(k) - f(k)
  {
    if k == n - 1 {
      SumCong(n - 1, f, g);
    } else {
      SumPoint(n - 1, k, f, g);
    }
  }

  lemma {:induction false} SumZero(n: nat, f: nat -> int)
    requires forall i: nat :: i < n ==> f(i) == 0
    ensures SumTo(n, f) == 0
  {
    if n != 0 {
      SumZero(n - 1, f);
    }
  }

  lemma {:induction false} SumLe(n: nat, f: nat -> int, g: nat -> int)
    requires forall i: nat :: i < n ==> f(i) <= g(i)
    ensures SumTo(n, f) <= SumTo(n, g)
  {
    if n != 0 {
      SumLe(n - 1, f, g);
    }
  }

  ghost function RowSum(n: nat, f: (nat, nat) -> int, i: nat): int {
    SumTo(n, (j: nat) => f(i, j))
  }

  ghost function ColSum(m: nat, f: (nat, nat) -> int, j: nat): int {
    SumTo(m, (i: nat) => f(i, j))
  }

  /** The order of a double sum can be exchanged. */
  lemma {:induction false} SumSwap(m: nat, n: nat, f: (nat, nat) -> int)
    ensures SumTo(m, (i: nat) => RowSum(n, f, i)) == SumTo(n, (j: nat) => ColSum(m, f, j))
  {
    var rows := (i: nat) => RowSum(n, f, i);
    var cols := (j: nat) => ColSum(m, f, j);
    if m == 0 {
      SumZero(n, cols);
    } else {
      SumSwap(m - 1, n, f);
      var last := (j: nat) => f(m - 1, j);
      var init := (j: nat) => ColSum(m - 1, f, j);
      forall j: nat | j < n ensures cols(j) == init(j) + last(j) {
        SumCong(m - 1, (i: nat) => f(i, j), (i: nat) => f(i, j));
      }
      SumAdd(n, init, last, cols);
      SumCong(n, last, (j: nat) => f(m - 1, j));
    }
  }
}
