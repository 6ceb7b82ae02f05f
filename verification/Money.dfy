// Amounts of every token at once, and sums of them over objects.

module Money {
  import opened Common

  /**
   * HIVE, HBD, VESTS of accounts, VESTS of unclaimed rewards, and the HIVE that stands behind
   * unclaimed VESTS rewards.
   */
  datatype Money = Money(hive: int, hbd: int, vests: int, rewardVests: int, rewardVestHive: int)

  const ZERO := Money(0, 0, 0, 0, 0)

  function Plus(a: Money, b: Money): Money {
    Money(a.hive + b.hive, a.hbd + b.hbd, a.vests + b.vests, a.rewardVests + b.rewardVests, a.rewardVestHive +
            b.rewardVestHive)
  }

  function Minus(a: Money, b: Money): Money {
    Money(a.hive - b.hive, a.hbd - b.hbd, a.vests - b.vests, a.rewardVests - b.rewardVests,
          a.rewardVestHive - b.rewardVestHive)
  }

  ghost function Sum<T>(s: seq<T>, f: T -> Money): Money {
    if s == [] then ZERO else Plus(Sum(s[..|s| - 1], f), f(s[|s| - 1]))
  }

  lemma {:induction false} SumSet<T>(s: seq<T>, i: nat, x: T, f: T -> Money)
    requires i < |s|
    ensures Sum(s[i := x], f) == Plus(Minus(Sum(s, f), f(s[i])), f(x))
    decreases |s|
  {
    var n := |s| - 1;
    if i < n {
      assert s[i := x][..n] == s[..n][i := x];
      SumSet(s[..n], i, x, f);
    } else {
      assert s[i := x][..n] == s[..n];
    }
  }

  lemma {:induction false} SumSnoc<T>(s: seq<T>, x: T, f: T -> Money)
    ensures Sum(s + [x], f) == Plus(Sum(s, f), f(x))
  {
    assert (s + [x])[..|s|] == s;
  }

  lemma {:induction false} SumNoVests<T>(s: seq<T>, f: T -> Money)
    requires forall i: nat :: i < |s| ==> f(s[i]).vests == 0
    ensures Sum(s, f).vests == 0
    decreases |s|
  {
    if s != [] {
      SumNoVests(s[..|s| - 1], f);
    }
  }

  lemma {:induction false} SumDrop<T>(s: seq<T>, i: nat, f: T -> Money)
    requires i < |s|
    ensures Sum(Drop(s, i), f) == Minus(Sum(s, f), f(s[i]))
    decreases |s|
  {
    var n := |s| - 1;
    if i == n {
      assert Drop(s, i) == s[..n];
    } else {
      assert Drop(s, i)[..n - 1] == Drop(s[..n], i);
      SumDrop(s[..n], i, f);
    }
  }
}
