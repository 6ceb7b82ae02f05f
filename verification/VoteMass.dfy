// Vote mass: however deep the proxy forest grows past the recursion limit, each
// account's direct power is counted exactly once by the supply check's vote sum.

module VoteMass {
  import opened Common
  import opened ProxyForest
  import opened Governance

  /** Where the power of `b` ends up: its ancestor min(chain length, limit) hops up. */
  ghost function Landing(proxy: Forest, b: nat, limit: nat): nat
    decreases limit
  {
    if limit == 0 || b >= |proxy| || proxy[b].None? then b else Landing(proxy, proxy[b].value, limit - 1)
  }

  lemma {:induction false} LandingInRange(proxy: Forest, b: nat, limit: nat)
    requires InRange(proxy) && b < |proxy|
    ensures Landing(proxy, b, limit) < |proxy|
    decreases limit
  {
    if limit != 0 && proxy[b].Some? {
      LandingInRange(proxy, proxy[b].value, limit - 1);
    }
  }

  /** An account that has a proxy is landed on only from exactly `limit` hops below. */
  lemma {:induction false} LandingInner(proxy: Forest, b: nat, limit: nat, x: nat)
    requires InRange(proxy) && b < |proxy| && x < |proxy| && proxy[x].Some?
    ensures Landing(proxy, b, limit) == x <==> Up(proxy, b, limit) == Some(x)
    decreases limit
  {
    if limit != 0 && proxy[b].Some? {
      LandingInner(proxy, proxy[b].value, limit - 1, x);
    }
  }

  /** A root gains, with each further hop allowed, exactly the accounts that many hops below it. */
  lemma {:induction false} LandingRoot(proxy: Forest, b: nat, limit: nat, x: nat)
    requires InRange(proxy) && b < |proxy| && x < |proxy| && proxy[x].None? && limit > 0
    ensures Landing(proxy, b, limit) == x <==> Landing(proxy, b, limit - 1) == x || Up(proxy, b, limit) == Some(x)
    ensures !(Landing(proxy, b, limit - 1) == x && Up(proxy, b, limit) == Some(x))
    decreases limit
  {
    if proxy[b].Some? {
      var c := proxy[b].value;
      if limit == 1 {
        assert Up(proxy, b, 1) == Up(proxy, c, 0);
      } else {
        LandingRoot(proxy, c, limit - 1, x);
      }
    }
  }

  ghost function Landed(proxy: Forest, direct: seq<int>, limit: nat, x: nat, b: nat): int {
    if b < |direct| && Landing(proxy, b, limit) == x then direct[b] else 0
  }

  ghost function LandedSum(proxy: Forest, direct: seq<int>, limit: nat, x: nat): int {
    SumTo(|direct|, (b: nat) => Landed(proxy, direct, limit, x, b))
  }

  lemma {:induction false} RootLanded(proxy: Forest, direct: seq<int>, levels: seq<int>, x: nat)
    requires InRange(proxy) && |direct| == |proxy| && x < |proxy| && proxy[x].None?
    requires forall m: nat :: m < |levels| ==> levels[m] == LevelSum(proxy, direct, x, m + 1)
    ensures direct[x] + Total(levels) == LandedSum(proxy, direct, |levels|, x)
    decreases |levels|
  {
    var n := |levels|;
    var now := (b: nat) => Landed(proxy, direct, n, x, b);
    if n == 0 {
      LevelZero(proxy, direct, x);
      SumCong(|direct|, (b: nat) => Share(proxy, direct, x, 0, b), now);
    } else {
      RootLanded(proxy, direct, levels[..n - 1], x);
      var before := (b: nat) => Landed(proxy, direct, n - 1, x, b);
      var level := (b: nat) => Share(proxy, direct, x, n, b);
      forall b: nat | b < |direct| ensures now(b) == before(b) + level(b) {
        LandingRoot(proxy, b, n, x);
      }
      SumAdd(|direct|, before, level, now);
    }
  }

  /** One account's term in the vote sum of the supply check. */
  ghost function VoteTerm(proxy: Forest, direct: seq<int>, proxied: seq<seq<int>>, limit: nat, x: nat): int
    requires Shaped(proxy, direct, proxied, limit)
  {
    if x >= |proxy| then 0
    else if proxy[x].None? then Power(direct, proxied, x)
    else if limit > 0 then proxied[x][limit - 1]
    else direct[x]
  }

  lemma TermIsLanded(proxy: Forest, direct: seq<int>, proxied: seq<seq<int>>, limit: nat, x: nat)
    requires BucketsOk(proxy, direct, proxied, limit) && x < |proxy|
    ensures VoteTerm(proxy, direct, proxied, limit, x) == LandedSum(proxy, direct, limit, x)
  {
    if proxy[x].None? {
      RootLanded(proxy, direct, proxied[x], x);
    } else {
      var landed := (b: nat) => Landed(proxy, direct, limit, x, b);
      forall b: nat | b < |direct| ensures landed(b) == Share(proxy, direct, x, limit, b) {
        LandingInner(proxy, b, limit, x);
      }
      SumCong(|direct|, (b: nat) => Share(proxy, direct, x, limit, b), landed);
      if limit == 0 {
        LevelZero(proxy, direct, x);
      }
    }
  }

  ghost function TotalDirect(direct: seq<int>): int {
    SumTo(|direct|, (b: nat) => if b < |direct| then direct[b] else 0)
  }

  /**
   * The vote sum of the supply check equals the total direct power, in every state
   * with exact buckets and for every depth of the forest.
   */
  lemma {:induction false} VoteMassConserved(proxy: Forest, direct: seq<int>, proxied: seq<seq<int>>, limit: nat)
    requires BucketsOk(proxy, direct, proxied, limit)
    ensures SumTo(|proxy|, (x: nat) => VoteTerm(proxy, direct, proxied, limit, x)) == TotalDirect(direct)
  {
    var n := |proxy|;
    var cell := (x: nat, b: nat) => Landed(proxy, direct, limit, x, b);
    var rows := (x: nat) => RowSum(n, cell, x);
    var cols := (b: nat) => ColSum(n, cell, b);
    forall x: nat | x < n ensures VoteTerm(proxy, direct, proxied, limit, x) == rows(x) {
      TermIsLanded(proxy, direct, proxied, limit, x);
      SumCong(n, (b: nat) => cell(x, b), (b: nat) => Landed(proxy, direct, limit, x, b));
    }
    SumCong(n, (x: nat) => VoteTerm(proxy, direct, proxied, limit, x), rows);
    SumSwap(n, n, cell);
    forall b: nat | b < n ensures cols(b) == direct[b] {
      LandingInRange(proxy, b, limit);
      var none := (x: nat) => 0;
      SumZero(n, none);
      SumPoint(n, Landing(proxy, b, limit), none, (x: nat) => cell(x, b));
    }
    SumCong(n, cols, (b: nat) => if b < |direct| then direct[b] else 0);
  }

  /** With delayed votes added back, the vote sum is the total of all vesting shares. */
  lemma {:induction false} VestsEqualVotesAndDelayed(proxy: Forest, direct: seq<int>, proxied: seq<seq<int>>,
                                                     limit: nat, vesting: seq<int>, delayed: seq<int>)
    requires BucketsOk(proxy, direct, proxied, limit)
    requires |vesting| == |delayed| == |direct|
    requires forall b: nat :: b < |direct| ==> direct[b] == vesting[b] - delayed[b]
    ensures TotalDirect(vesting) ==
            SumTo(|proxy|, (x: nat) => VoteTerm(proxy, direct, proxied, limit, x)) + TotalDirect(delayed)
  {
    VoteMassConserved(proxy, direct, proxied, limit);
    SumAdd(|direct|, (b: nat) => if b < |direct| then direct[b] else 0,
           (b: nat) => if b < |delayed| then delayed[b] else 0,
           (b: nat) => if b < |vesting| then vesting[b] else 0);
  }

  lemma LevelNonNegative(proxy: Forest, direct: seq<int>, a: nat, n: nat)
    requires forall b: nat :: b < |direct| ==> direct[b] >= 0
    ensures LevelSum(proxy, direct, a, n) >= 0
  {
    var none := (b: nat) => 0;
    SumZero(|direct|, none);
    SumLe(|direct|, none, (b: nat) => Share(proxy, direct, a, n, b));
  }

  lemma {:induction false} TotalNonNegative(s: seq<int>)
    requires forall i: nat :: i < |s| ==> s[i] >= 0
    ensures Total(s) >= 0
    decreases |s|
  {
    if s != [] {
      TotalNonNegative(s[..|s| - 1]);
    }
  }

  /** No witness can have more votes than there is vote power: the check on every vote change never fires. */
  lemma TallyBounded(proxy: Forest, direct: seq<int>, proxied: seq<seq<int>>, limit: nat,
                     votes: set<(nat, nat)>, tally: seq<int>, w: nat)
    requires BucketsOk(proxy, direct, proxied, limit) && TallyOk(proxy, direct, proxied, votes, tally)
    requires w < |tally| && forall b: nat :: b < |direct| ==> direct[b] >= 0
    ensures 0 <= tally[w] <= TotalDirect(direct)
  {
    forall x: nat, m: nat | x < |proxied| && m < limit ensures proxied[x][m] >= 0 {
      LevelNonNegative(proxy, direct, x, m + 1);
    }
    var share := (x: nat) => VoterShare(proxy, direct, proxied, votes, w, x);
    var term := (x: nat) => VoteTerm(proxy, direct, proxied, limit, x);
    forall x: nat | x < |proxy| ensures 0 <= share(x) <= term(x) {
      TotalNonNegative(proxied[x]);
    }
    var none := (x: nat) => 0;
    SumZero(|proxy|, none);
    SumLe(|proxy|, none, share);
    SumLe(|proxy|, share, term);
    VoteMassConserved(proxy, direct, proxied, limit);
  }
}
