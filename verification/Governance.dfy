// Governance votes: proxied vote power kept in per-depth buckets along proxy
// chains, and witness tallies kept incrementally. The specification is a sum
// over the proxy forest; every operation keeps the incremental data equal to it.

module Governance {
  import opened Common
  import opened ProxyForest

  function Total(s: seq<int>): int {
    if s == [] then 0 else Total(s[..|s| - 1]) + s[|s| - 1]
  }

  ghost predicate Shaped(proxy: Forest, direct: seq<int>, proxied: seq<seq<int>>, depth: nat) {
    && InRange(proxy)
    && |direct| == |proxied| == |proxy|
    && forall a: nat :: a < |proxied| ==> |proxied[a]| == depth
  }

  /** Bucket `m` of every account is the direct power of the accounts exactly `m+1` hops below it. */
  ghost predicate BucketsOk(proxy: Forest, direct: seq<int>, proxied: seq<seq<int>>, depth: nat) {
    && Shaped(proxy, direct, proxied, depth)
    && forall a: nat, m: nat {:trigger proxied[a][m]} ::
         a < |proxied| && m < depth ==> proxied[a][m] == LevelSum(proxy, direct, a, m + 1)
  }

  /** Direct power plus everything proxied to the account. */
  function Power(direct: seq<int>, proxied: seq<seq<int>>, x: nat): int
    requires x < |direct| && x < |proxied|
  {
    direct[x] + Total(proxied[x])
  }

  ghost function VoterShare(proxy: Forest, direct: seq<int>, proxied: seq<seq<int>>,
                            votes: set<(nat, nat)>, w: nat, x: nat): int {
    if x < |proxy| && x < |direct| && x < |proxied| && proxy[x].None? && (x, w) in votes
    then Power(direct, proxied, x) else 0
  }

  /** Each witness's tally is the governance power of the unproxied accounts voting for it. */
  ghost predicate TallyOk(proxy: Forest, direct: seq<int>, proxied: seq<seq<int>>,
                          votes: set<(nat, nat)>, tally: seq<int>) {
    forall w: nat :: w < |tally| ==>
      tally[w] == SumTo(|proxy|, (x: nat) => VoterShare(proxy, direct, proxied, votes, w, x))
  }

  ghost function Without(votes: set<(nat, nat)>, a: nat): set<(nat, nat)> {
    set v | v in votes && v.0 != a
  }

  ghost function VotesOf(votes: set<(nat, nat)>, a: nat): set<(nat, nat)> {
    set v | v in votes && v.0 == a
  }

  // ---- effect of one propagation up a proxy chain ----

  /** What bucket `m` of `p` receives when `delta` is propagated up from `a`, already `depth` hops up. */
  ghost function Gain(proxy: Forest, a: nat, delta: seq<int>, depth: nat, limit: nat, p: nat, m: nat): int
    requires a < |proxy| && InRange(proxy) && |delta| == limit + 1 && m < limit
    decreases limit - depth
  {
    if proxy[a].None? || depth >= limit then 0
    else
      (if proxy[a].value == p && m >= depth then delta[m - depth] else 0)
      + Gain(proxy, proxy[a].value, delta, depth + 1, limit, p, m)
  }

  /** The root of the chain above `a`, when it is within the recursion limit, and what its votes change by. */
  ghost function RootGain(proxy: Forest, a: nat, delta: seq<int>, depth: nat, limit: nat): Option<(nat, int)>
    requires a < |proxy| && InRange(proxy) && |delta| == limit + 1 && depth <= limit
    decreases limit - depth
  {
    if proxy[a].None? then Some((a, Total(delta[..limit - depth + 1])))
    else if depth >= limit then None
    else RootGain(proxy, proxy[a].value, delta, depth + 1, limit)
  }

  lemma {:induction false} GainAt(proxy: Forest, a: nat, delta: seq<int>, depth: nat, limit: nat, p: nat, m: nat,
                                  j: nat)
    requires Acyclic(proxy) && InRange(proxy) && a < |proxy| && |delta| == limit + 1 && m < limit
    requires 1 <= j <= limit - depth && Up(proxy, a, j) == Some(p)
    ensures Gain(proxy, a, delta, depth, limit, p, m) == if m >= depth + j - 1 then delta[m - (depth + j - 1)] else 0
    decreases j
  {
    var q := proxy[a].value;
    if j == 1 {
      GainNone(proxy, q, delta, depth + 1, limit, p, m);
    } else {
      assert Up(proxy, q, j - 1) == Some(p);
      GainAt(proxy, q, delta, depth + 1, limit, p, m, j - 1);
    }
  }

  lemma {:induction false} GainNone(proxy: Forest, a: nat, delta: seq<int>, depth: nat, limit: nat, p: nat, m: nat)
    requires InRange(proxy) && a < |proxy| && |delta| == limit + 1 && m < limit
    requires forall j: nat :: 1 <= j <= limit - depth ==> Up(proxy, a, j) != Some(p)
    ensures Gain(proxy, a, delta, depth, limit, p, m) == 0
    decreases limit - depth
  {
    if proxy[a].Some? && depth < limit {
      var q := proxy[a].value;
      assert Up(proxy, a, 1) == Up(proxy, q, 0);
      forall j: nat | 1 <= j <= limit - depth - 1 ensures Up(proxy, q, j) != Some(p) {
        assert Up(proxy, a, j + 1) == Up(proxy, q, j);
      }
      GainNone(proxy, q, delta, depth + 1, limit, p, m);
    }
  }

  lemma {:induction false} RootGainAt(proxy: Forest, a: nat, delta: seq<int>, depth: nat, limit: nat, j: nat)
    requires InRange(proxy) && a < |proxy| && |delta| == limit + 1 && depth + j <= limit
    requires Up(proxy, a, j).Some? && Up(proxy, a, j).value < |proxy| && proxy[Up(proxy, a, j).value].None?
    ensures RootGain(proxy, a, delta, depth, limit) ==
              Some((Up(proxy, a, j).value, Total(delta[..limit - depth - j + 1])))
    decreases j
  {
    if j != 0 {
      RootGainAt(proxy, proxy[a].value, delta, depth + 1, limit, j - 1);
    }
  }

  lemma {:induction false} RootGainFrom(proxy: Forest, a: nat, delta: seq<int>, depth: nat, limit: nat) returns (j: nat)
    requires InRange(proxy) && a < |proxy| && |delta| == limit + 1 && depth <= limit
    requires RootGain(proxy, a, delta, depth, limit).Some?
    ensures depth + j <= limit && Up(proxy, a, j) == Some(RootGain(proxy, a, delta, depth, limit).value.0)
    ensures RootGain(proxy, a, delta, depth, limit).value.0 < |proxy|
    ensures proxy[RootGain(proxy, a, delta, depth, limit).value.0].None?
    decreases limit - depth
  {
    if proxy[a].None? {
      j := 0;
    } else {
      j := RootGainFrom(proxy, proxy[a].value, delta, depth + 1, limit);
      j := j + 1;
    }
  }

  lemma {:induction false} TotalShift(s: seq<int>, t: seq<int>, delta: seq<int>, k: nat)
    requires |s| == |t| && k <= |s| && |delta| >= |s| - k
    requires forall m: nat :: m < |s| ==> t[m] == s[m] + if m >= k then delta[m - k] else 0
    ensures Total(t) == Total(s) + Total(delta[..|s| - k])
    decreases |s|
  {
    if |s| == k {
      assert s == t;
    } else {
      var n := |s| - 1;
      assert delta[..n + 1 - k][..n - k] == delta[..n - k];
      TotalShift(s[..n], t[..n], delta, k);
    }
  }

  /** Buckets before and after one propagation of `delta` up from `a`. */
  ghost predicate Propagated(proxy: Forest, a: nat, delta: seq<int>, limit: nat, before: seq<seq<int>>,
                             after: seq<seq<int>>)
    requires a < |proxy| && InRange(proxy) && |delta| == limit + 1
  {
    && |before| == |after|
    && (forall p: nat :: p < |after| ==> |after[p]| == |before[p]| == limit)
    && forall p: nat, m: nat {:trigger after[p][m]} :: p < |after| && m < limit ==>
         after[p][m] == before[p][m] + Gain(proxy, a, delta, 0, limit, p, m)
  }

  ghost predicate TallyPropagated(proxy: Forest, a: nat, delta: seq<int>, limit: nat, votes: set<(nat, nat)>,
                                  before: seq<int>, after: seq<int>)
    requires a < |proxy| && InRange(proxy) && |delta| == limit + 1
  {
    && |before| == |after|
    && forall w: nat :: w < |after| ==> after[w] == before[w] + RootShare(RootGain(proxy, a, delta, 0, limit), votes, w)
  }

  ghost function RootShare(root: Option<(nat, int)>, votes: set<(nat, nat)>, w: nat): int {
    if root.Some? && (root.value.0, w) in votes then root.value.1 else 0
  }

  /**
   * Both directions of a proxy change in one statement: with `delta` the levels of `a`,
   * the buckets that are right for the forest without the edge above `a` become right
   * for the forest with it, and with `-delta` the other way round.
   */
  lemma EdgeBuckets(linked: Forest, direct: seq<int>, a: nat, delta: seq<int>, limit: nat, sign: int,
                    before: seq<seq<int>>, after: seq<seq<int>>)
    requires Acyclic(linked) && a < |linked| && InRange(linked) && |delta| == limit + 1
    requires sign == 1 || sign == -1
    requires BucketsOk(if sign == 1 then linked[a := None] else linked, direct, before, limit)
    requires forall i: nat :: i <= limit ==> delta[i] == sign * LevelSum(linked, direct, a, i)
    requires Propagated(linked, a, delta, limit, before, after)
    ensures BucketsOk(if sign == 1 then linked else linked[a := None], direct, after, limit)
  {
    var cut := linked[a := None];
    forall p: nat, m: nat | p < |after| && m < limit
      ensures after[p][m] == LevelSum(if sign == 1 then linked else cut, direct, p, m + 1)
    {
      assert before[p][m] == LevelSum(if sign == 1 then cut else linked, direct, p, m + 1);
      if exists j: nat :: 1 <= j <= limit && Up(linked, a, j) == Some(p) {
        var j: nat :| 1 <= j <= limit && Up(linked, a, j) == Some(p);
        GainAt(linked, a, delta, 0, limit, p, m, j);
        CutLevel(linked, direct, a, p, j, m + 1);
      } else {
        GainNone(linked, a, delta, 0, limit, p, m);
        CutLevelElsewhere(linked, direct, a, p, m + 1);
      }
    }
  }

  /** The levels strictly below `a` do not depend on the edge above `a`. */
  lemma LevelsBelow(linked: Forest, direct: seq<int>, a: nat, n: nat)
    requires Acyclic(linked) && a < |linked|
    ensures LevelSum(linked, direct, a, n) == LevelSum(linked[a := None], direct, a, n)
  {
    CutLevelElsewhere(linked, direct, a, a, n);
  }

  /** Every root other than `a` has its power changed by exactly what its votes were changed by. */
  lemma {:induction false} RootPower(proxy: Forest, direct: seq<int>, a: nat, delta: seq<int>, limit: nat,
                                     before: seq<seq<int>>, after: seq<seq<int>>, x: nat)
    requires Acyclic(proxy) && a < |proxy| && |delta| == limit + 1
    requires Shaped(proxy, direct, before, limit) && Propagated(proxy, a, delta, limit, before, after)
    requires x < |proxy| && proxy[x].None? && x != a
    ensures Power(direct, after, x) == Power(direct, before, x)
         + var r := RootGain(proxy, a, delta, 0, limit); if r.Some? && r.value.0 == x then r.value.1 else 0
  {
    if exists j: nat :: 1 <= j <= limit && Up(proxy, a, j) == Some(x) {
      var j: nat :| 1 <= j <= limit && Up(proxy, a, j) == Some(x);
      forall m: nat | m < limit ensures after[x][m] == before[x][m] + if m >= j - 1 then delta[m - (j - 1)] else 0 {
        GainAt(proxy, a, delta, 0, limit, x, m, j);
      }
      TotalShift(before[x], after[x], delta, j - 1);
      RootGainAt(proxy, a, delta, 0, limit, j);
    } else {
      forall m: nat | m < limit ensures after[x][m] == before[x][m] {
        GainNone(proxy, a, delta, 0, limit, x, m);
      }
      assert after[x] == before[x];
      if RootGain(proxy, a, delta, 0, limit).Some? && RootGain(proxy, a, delta, 0, limit).value.0 == x {
        var j := RootGainFrom(proxy, a, delta, 0, limit);
      }
    }
  }

  /**
   * Tallies stay right through a propagation, when the votes of `a` itself are left out
   * afterwards: `a` either was no voter, or its whole power was taken out of its witnesses.
   */
  lemma {:induction false} EdgeTally(proxy: Forest, direct: seq<int>, a: nat, delta: seq<int>, limit: nat,
                                     votes: set<(nat, nat)>, before: seq<seq<int>>, after: seq<seq<int>>,
                                     tally: seq<int>, tally': seq<int>, proxy': Forest)
    requires Acyclic(proxy) && a < |proxy| && |delta| == limit + 1
    requires Shaped(proxy, direct, before, limit) && Propagated(proxy, a, delta, limit, before, after)
    requires TallyOk(proxy, direct, before, votes, tally)
    requires TallyPropagated(proxy, a, delta, limit, votes, tally, tally')
    requires proxy[a].None? ==> Total(delta) == -Power(direct, before, a)
    requires |proxy'| == |proxy| && forall x: nat :: x < |proxy| && x != a ==> proxy'[x] == proxy[x]
    ensures TallyOk(proxy', direct, after, Without(votes, a), tally')
  {
    forall w: nat | w < |tally'|
      ensures tally'[w] == SumTo(|proxy'|, (x: nat) => VoterShare(proxy', direct, after, Without(votes, a), w, x))
    {
      var old_ := (x: nat) => VoterShare(proxy, direct, before, votes, w, x);
      var new_ := (x: nat) => VoterShare(proxy', direct, after, Without(votes, a), w, x);
      var root := RootGain(proxy, a, delta, 0, limit);
      var moved := (x: nat) => if root.Some? && root.value.0 == x then RootShare(root, votes, w) else 0;
      forall x: nat | x < |proxy| ensures new_(x) == old_(x) + moved(x) {
        if x != a && proxy[x].None? {
          RootPower(proxy, direct, a, delta, limit, before, after, x);
        } else if x == a && proxy[a].None? {
          assert delta[..limit + 1] == delta;
        } else if root.Some? {
          var j := RootGainFrom(proxy, a, delta, 0, limit);
        }
      }
      SumAdd(|proxy|, old_, moved, new_);
      var none := (x: nat) => 0;
      SumZero(|proxy|, none);
      if root.Some? {
        var j := RootGainFrom(proxy, a, delta, 0, limit);
        SumPoint(|proxy|, root.value.0, none, moved);
      } else {
        SumCong(|proxy|, none, moved);
      }
    }
  }

  lemma LevelsOf(proxy: Forest, direct: seq<int>, proxied: seq<seq<int>>, a: nat, limit: nat, delta: seq<int>,
                 sign: int)
    requires BucketsOk(proxy, direct, proxied, limit) && a < |proxy| && |delta| == limit + 1
    requires delta[0] == sign * direct[a]
    requires forall m: nat :: m < limit ==> delta[m + 1] == sign * proxied[a][m]
    ensures forall i: nat :: i <= limit ==> delta[i] == sign * LevelSum(proxy, direct, a, i)
  {
    LevelZero(proxy, direct, a);
    forall i: nat | i <= limit ensures delta[i] == sign * LevelSum(proxy, direct, a, i) {
      if i > 0 {
        assert delta[i - 1 + 1] == sign * proxied[a][i - 1];
      }
    }
  }

  lemma {:induction false} TotalScale(s: seq<int>, t: seq<int>, sign: int)
    requires |s| == |t| && forall i: nat :: i < |s| ==> t[i] == sign * s[i]
    ensures Total(t) == sign * Total(s)
    decreases |s|
  {
    if s != [] {
      TotalScale(s[..|s| - 1], t[..|s| - 1], sign);
    }
  }

  lemma {:induction false} TotalCons(x: int, s: seq<int>)
    ensures Total([x] + s) == x + Total(s)
    decreases |s|
  {
    if s != [] {
      assert ([x] + s)[..|s|] == [x] + s[..|s| - 1];
      TotalCons(x, s[..|s| - 1]);
    }
  }

  /** A single change of direct power is the vector change that is zero past its first entry. */
  function Single(delta: int, limit: nat): (r: seq<int>)
    ensures |r| == limit + 1
    ensures forall i: nat :: i <= limit ==> r[i] == if i == 0 then delta else 0
  {
    [delta] + seq(limit, _ => 0)
  }

  lemma {:induction false} TotalSingle(delta: int, limit: nat, n: nat)
    requires n <= limit
    ensures Total(Single(delta, limit)[..n + 1]) == delta
    decreases n
  {
    var s := Single(delta, limit);
    if n == 0 {
      assert s[..1] == [delta];
      TotalCons(delta, []);
    } else {
      assert s[..n + 1][..n] == s[..n];
      TotalSingle(delta, limit, n - 1);
    }
  }

  lemma VestBuckets(proxy: Forest, direct: seq<int>, x: nat, delta: int, limit: nat,
                    before: seq<seq<int>>, after: seq<seq<int>>)
    requires Acyclic(proxy) && x < |proxy| && BucketsOk(proxy, direct, before, limit)
    requires Propagated(proxy, x, Single(delta, limit), limit, before, after)
    ensures BucketsOk(proxy, direct[x := direct[x] + delta], after, limit)
  {
    var d := Single(delta, limit);
    forall p: nat, m: nat | p < |after| && m < limit
      ensures after[p][m] == LevelSum(proxy, direct[x := direct[x] + delta], p, m + 1)
    {
      assert before[p][m] == LevelSum(proxy, direct, p, m + 1);
      LevelPoint(proxy, direct, x, delta, p, m + 1);
      if exists j: nat :: 1 <= j <= limit && Up(proxy, x, j) == Some(p) {
        var j: nat :| 1 <= j <= limit && Up(proxy, x, j) == Some(p);
        GainAt(proxy, x, d, 0, limit, p, m, j);
        if Up(proxy, x, m + 1) == Some(p) {
          DistanceUnique(proxy, x, p, j, m + 1);
        }
      } else {
        GainNone(proxy, x, d, 0, limit, p, m);
      }
    }
  }

  lemma VestTally(proxy: Forest, direct: seq<int>, a: nat, delta: int, limit: nat, votes: set<(nat, nat)>,
                  before: seq<seq<int>>, after: seq<seq<int>>, tally: seq<int>, tally': seq<int>)
    requires Acyclic(proxy) && a < |proxy|
    requires Shaped(proxy, direct, before, limit)
    requires Propagated(proxy, a, Single(delta, limit), limit, before, after)
    requires TallyOk(proxy, direct, before, votes, tally)
    requires TallyPropagated(proxy, a, Single(delta, limit), limit, votes, tally, tally')
    ensures TallyOk(proxy, direct[a := direct[a] + delta], after, votes, tally')
  {
    var d := Single(delta, limit);
    var direct' := direct[a := direct[a] + delta];
    forall w: nat | w < |tally'|
      ensures tally'[w] == SumTo(|proxy|, (x: nat) => VoterShare(proxy, direct', after, votes, w, x))
    {
      var old_ := (x: nat) => VoterShare(proxy, direct, before, votes, w, x);
      var new_ := (x: nat) => VoterShare(proxy, direct', after, votes, w, x);
      var root := RootGain(proxy, a, d, 0, limit);
      var moved := (x: nat) => if root.Some? && root.value.0 == x then RootShare(root, votes, w) else 0;
      forall x: nat | x < |proxy| ensures new_(x) == old_(x) + moved(x) {
        if x != a && proxy[x].None? {
          RootPower(proxy, direct, a, d, limit, before, after, x);
        } else if x == a && proxy[a].None? {
          TotalSingle(delta, limit, limit);
          forall m: nat | m < limit ensures after[a][m] == before[a][m] {
            GainNone(proxy, a, d, 0, limit, a, m);
          }
          assert after[a] == before[a];
        } else if root.Some? {
          var j := RootGainFrom(proxy, a, d, 0, limit);
        }
      }
      SumAdd(|proxy|, old_, moved, new_);
      var none := (x: nat) => 0;
      SumZero(|proxy|, none);
      if root.Some? {
        var j := RootGainFrom(proxy, a, d, 0, limit);
        SumPoint(|proxy|, root.value.0, none, moved);
      } else {
        SumCong(|proxy|, none, moved);
      }
    }
  }

  /** Changing the proxy of an account that casts no vote leaves every tally as it was. */
  lemma TallyReproxy(proxy: Forest, proxy': Forest, direct: seq<int>, proxied: seq<seq<int>>,
                     votes: set<(nat, nat)>, tally: seq<int>, a: nat)
    requires |proxy| == |proxy'| && forall x: nat :: x < |proxy| && x != a ==> proxy'[x] == proxy[x]
    requires forall v :: v in votes ==> v.0 != a
    requires TallyOk(proxy, direct, proxied, votes, tally)
    ensures TallyOk(proxy', direct, proxied, votes, tally)
  {
    forall w: nat | w < |tally|
      ensures tally[w] == SumTo(|proxy'|, (x: nat) => VoterShare(proxy', direct, proxied, votes, w, x))
    {
      SumCong(|proxy|, (x: nat) => VoterShare(proxy, direct, proxied, votes, w, x),
              (x: nat) => VoterShare(proxy', direct, proxied, votes, w, x));
    }
  }

  /** One more or one less vote of `a` for `w` moves the tally of `w` by the power of `a`. */
  lemma TallyVote(proxy: Forest, direct: seq<int>, proxied: seq<seq<int>>, votes: set<(nat, nat)>,
                  tally: seq<int>, a: nat, w: nat)
    requires a < |proxy| && |direct| == |proxied| == |proxy| && proxy[a].None? && w < |tally|
    requires TallyOk(proxy, direct, proxied, votes, tally)
    ensures (a, w) !in votes ==>
              TallyOk(proxy, direct, proxied, votes + {(a, w)}, tally[w := tally[w] + Power(direct, proxied, a)])
    ensures (a, w) in votes ==>
              TallyOk(proxy, direct, proxied, votes - {(a, w)}, tally[w := tally[w] - Power(direct, proxied, a)])
  {
    var votes' := if (a, w) in votes then votes - {(a, w)} else votes + {(a, w)};
    forall u: nat | u < |tally|
      ensures SumTo(|proxy|, (x: nat) => VoterShare(proxy, direct, proxied, votes', u, x))
           == tally[u] + if u != w then 0 else if (a, w) in votes then -Power(direct, proxied, a)
                                               else Power(direct, proxied, a)
    {
      SumPoint(|proxy|, a, (x: nat) => VoterShare(proxy, direct, proxied, votes, u, x),
               (x: nat) => VoterShare(proxy, direct, proxied, votes', u, x));
    }
  }

  lemma TallyNewWitness(proxy: Forest, direct: seq<int>, proxied: seq<seq<int>>, votes: set<(nat, nat)>,
                        tally: seq<int>)
    requires TallyOk(proxy, direct, proxied, votes, tally)
    requires forall v :: v in votes ==> v.1 < |tally|
    ensures TallyOk(proxy, direct, proxied, votes, tally + [0])
  {
    SumZero(|proxy|, (x: nat) => VoterShare(proxy, direct, proxied, votes, |tally|, x));
  }

  // A new account joins as an unproxied account of no power.

  lemma {:induction false} ExtendUp(proxy: Forest, b: nat, n: nat)
    requires InRange(proxy)
    ensures Up(proxy + [None], b, n) == Up(proxy, b, n)
    decreases n
  {
    if n != 0 && b < |proxy| && proxy[b].Some? {
      ExtendUp(proxy, proxy[b].value, n - 1);
    }
  }

  lemma ExtendOk(proxy: Forest, direct: seq<int>, proxied: seq<seq<int>>, limit: nat,
                 votes: set<(nat, nat)>, tally: seq<int>, bucket: seq<int>)
    requires Acyclic(proxy) && BucketsOk(proxy, direct, proxied, limit) && TallyOk(proxy, direct, proxied, votes, tally)
    requires forall v :: v in votes ==> v.0 < |proxy|
    requires |bucket| == limit && forall m: nat :: m < limit ==> bucket[m] == 0
    ensures Acyclic(proxy + [None])
    ensures BucketsOk(proxy + [None], direct + [0], proxied + [bucket], limit)
    ensures TallyOk(proxy + [None], direct + [0], proxied + [bucket], votes, tally)
  {
    var n := |proxy|;
    var proxy', direct', proxied' := proxy + [None], direct + [0], proxied + [bucket];
    forall b: nat, k: nat | k > 0 ensures Up(proxy', b, k) != Some(b) {
      ExtendUp(proxy, b, k);
    }
    forall a: nat, m: nat | a < n + 1 && m < limit ensures proxied'[a][m] == LevelSum(proxy', direct', a, m + 1) {
      var before := (b: nat) => Share(proxy, direct, a, m + 1, b);
      var after := (b: nat) => Share(proxy', direct', a, m + 1, b);
      forall b: nat | b < n ensures after(b) == before(b) && (a == n ==> before(b) == 0) {
        ExtendUp(proxy, b, m + 1);
        if a == n && Up(proxy, b, m + 1).Some? {
          UpInRange(proxy, b, m + 1);
        }
      }
      SumCong(n, before, after);
      if a == n {
        SumZero(n, before);
      } else {
        assert proxied[a][m] == LevelSum(proxy, direct, a, m + 1);
      }
    }
    forall w: nat | w < |tally|
      ensures tally[w] == SumTo(n + 1, (x: nat) => VoterShare(proxy', direct', proxied', votes, w, x))
    {
      SumCong(n, (x: nat) => VoterShare(proxy, direct, proxied, votes, w, x),
              (x: nat) => VoterShare(proxy', direct', proxied', votes, w, x));
    }
  }

  /** What a proxy change asks of the chain above the new proxy: it avoids the account and is short enough. */
  ghost predicate ChainAllowed(proxy: Forest, a: nat, q: nat, limit: nat)
    requires q < |proxy|
  {
    && (forall i: nat :: Up(proxy, q, i) != Some(a))
    && (proxy[q].Some? ==> limit >= 1 && Up(proxy, q, limit - 1) == None)
  }

  // ---- the state and its operations ----

  datatype Op =
    | NewAccount
    | NewWitness
    | SetProxy(account: nat, proxyTo: nat)
    | ClearProxy(account: nat)
    | Vote(account: nat, candidate: nat, approve: bool)
    | ChangeVests(account: nat, delta: int)
    | DeclineVoting(account: nat)
    | ExpireVotes(account: nat)

  class Electorate {
    const maxDepth: nat          // HIVE_MAX_PROXY_RECURSION_DEPTH
    const maxVotes: nat          // HIVE_MAX_ACCOUNT_WITNESS_VOTES
    var proxy: Forest
    var direct: seq<int>         // vesting shares minus delayed votes
    var proxied: seq<seq<int>>   // proxied_vsf_votes
    var votes: set<(nat, nat)>   // witness_vote objects
    var votedFor: seq<nat>       // witnesses_voted_for
    var canVote: seq<bool>
    var tally: seq<int>          // votes of each witness

    /** Everything but the derived data: sizes agree and ids are in range. */
    ghost predicate WellFormed()
      reads this
    {
      && Shaped(proxy, direct, proxied, maxDepth)
      && |votedFor| == |canVote| == |proxy|
      && (forall v :: v in votes ==> v.0 < |proxy| && v.1 < |tally|)
      && (forall v :: v in votes ==> proxy[v.0].None?)
      && (forall a: nat :: a < |votedFor| ==> votedFor[a] == |VotesOf(votes, a)|)
      && Acyclic(proxy)
    }

    ghost predicate Valid()
      reads this
    {
      && WellFormed()
      && BucketsOk(proxy, direct, proxied, maxDepth)
      && TallyOk(proxy, direct, proxied, votes, tally)
    }

    constructor (maxDepth: nat, maxVotes: nat)
      ensures Valid() && proxy == [] && tally == []
      ensures this.maxDepth == maxDepth && this.maxVotes == maxVotes
    {
      this.maxDepth, this.maxVotes := maxDepth, maxVotes;
      proxy, direct, proxied, votes, votedFor, canVote, tally := [], [], [], {}, [], [], [];
    }

    method AdjustWitnessVotes(a: nat, delta: int)
      modifies this`tally
      ensures |tally| == old(|tally|)
      ensures forall w: nat :: w < |tally| ==> tally[w] == old(tally[w]) + if (a, w) in votes then delta else 0
    {
      for w := 0 to |tally|
        invariant |tally| == old(|tally|)
        invariant forall k: nat :: k < w ==> tally[k] == old(tally[k]) + if (a, k) in votes then delta else 0
        invariant forall k: nat :: w <= k < |tally| ==> tally[k] == old(tally[k])
      {
        if (a, w) in votes {
          tally := tally[w := tally[w] + delta];
        }
      }
    }

    /** The vector overload: moves a whole subtree's levels along the chain above `a`. */
    method AdjustProxied(a: nat, delta: seq<int>, depth: nat)
      requires Shaped(proxy, direct, proxied, maxDepth) && a < |proxy|
      requires |delta| == maxDepth + 1 && depth <= maxDepth
      modifies this`proxied, this`tally
      ensures Shaped(proxy, direct, proxied, maxDepth) && |tally| == old(|tally|)
      ensures forall p: nat, m: nat {:trigger proxied[p][m]} :: p < |proxied| && m < maxDepth ==>
                proxied[p][m] == old(proxied[p][m]) + Gain(proxy, a, delta, depth, maxDepth, p, m)
      ensures forall w: nat :: w < |tally| ==>
                tally[w] == old(tally[w]) + RootShare(RootGain(proxy, a, delta, depth, maxDepth), votes, w)
      decreases maxDepth - depth
    {
      if proxy[a].Some? {
        if depth >= maxDepth {
          return;
        }
        var q := proxy[a].value;
        var bucket := proxied[q];
        var i := maxDepth - depth - 1;
        while i >= 0
          invariant -1 <= i <= maxDepth - depth - 1 && |bucket| == maxDepth
          invariant forall m: nat :: m < maxDepth ==>
                      bucket[m] == proxied[q][m] + if m > i + depth then delta[m - depth] else 0
        {
          bucket := bucket[i + depth := bucket[i + depth] + delta[i]];
          i := i - 1;
        }
        proxied := proxied[q := bucket];
        AdjustProxied(q, delta, depth + 1);
      } else {
        var total := 0;
        var i := maxDepth - depth;
        while i >= 0
          invariant -1 <= i <= maxDepth - depth
          invariant total + Total(delta[..i + 1]) == Total(delta[..maxDepth - depth + 1])
        {
          assert delta[..i + 1][..i] == delta[..i];
          total := total + delta[i];
          i := i - 1;
        }
        AdjustWitnessVotes(a, total);
      }
    }

    /** The scalar overload: one account's own power changes by `delta`. */
    method AdjustProxiedBy(a: nat, delta: int, depth: nat)
      requires Shaped(proxy, direct, proxied, maxDepth) && a < |proxy| && depth <= maxDepth
      modifies this`proxied, this`tally
      ensures Shaped(proxy, direct, proxied, maxDepth) && |tally| == old(|tally|)
      ensures forall p: nat, m: nat {:trigger proxied[p][m]} :: p < |proxied| && m < maxDepth ==>
                proxied[p][m] == old(proxied[p][m]) + Gain(proxy, a, Single(delta, maxDepth), depth, maxDepth, p, m)
      ensures forall w: nat :: w < |tally| ==>
                tally[w] == old(tally[w]) +
                  RootShare(RootGain(proxy, a, Single(delta, maxDepth), depth, maxDepth), votes, w)
      decreases maxDepth - depth
    {
      if proxy[a].Some? {
        if depth >= maxDepth {
          return;
        }
        var q := proxy[a].value;
        proxied := proxied[q := proxied[q][depth := proxied[q][depth] + delta]];
        AdjustProxiedBy(q, delta, depth + 1);
      } else {
        TotalSingle(delta, maxDepth, maxDepth - depth);
        AdjustWitnessVotes(a, delta);
      }
    }

    /** Takes the whole subtree of `a` out of every ancestor, or its power out of its own witnesses. */
    method Nullify(a: nat)
      requires Valid() && a < |proxy|
      modifies this`proxied, this`tally
      ensures |tally| == old(|tally|)
      ensures BucketsOk(proxy[a := None], direct, proxied, maxDepth)
      ensures TallyOk(proxy[a := None], direct, proxied, Without(votes, a), tally)
      ensures Acyclic(proxy[a := None])
    {
      var delta := [-direct[a]] +
            seq(maxDepth, (i: nat) requires i < maxDepth && a < |proxied| &&
                i < |proxied[a]| reads this => -proxied[a][i]);
      LevelsOf(proxy, direct, proxied, a, maxDepth, delta, -1);
      TotalScale(proxied[a], delta[1..], -1);
      TotalCons(delta[0], delta[1..]);
      assert delta == [delta[0]] + delta[1..];
      AdjustProxied(a, delta, 0);
      CutAcyclic(proxy, a);
      EdgeBuckets(proxy, direct, a, delta, maxDepth, -1, old(proxied), proxied);
      EdgeTally(proxy, direct, a, delta, maxDepth, votes, old(proxied), proxied, old(tally), tally, proxy[a := None]);
    }

    /** Loop and length check on the chain above a new proxy `q` of `a`. */
    method CheckChain(a: nat, q: nat) returns (ok: bool)
      requires WellFormed() && a < |proxy| && q < |proxy| && a != q
      ensures ok <==> ChainAllowed(proxy, a, q, maxDepth)
    {
      var chain, c := {a, q}, q;
      ghost var h: nat := 0;
      while proxy[c].Some?
        invariant c < |proxy| && Up(proxy, q, h) == Some(c)
        invariant |chain| == h + 2 && (h == 0 || h + 2 <= maxDepth)
        invariant forall x: nat :: x in chain <==> x == a || exists i: nat :: i <= h && Up(proxy, q, i) == Some(x)
        invariant forall i: nat :: i <= h ==> Up(proxy, q, i) != Some(a)
        decreases maxDepth + 2 - |chain|
      {
        var next := proxy[c].value;
        UpAdd(proxy, q, h, 1);
        assert Up(proxy, q, h + 1) == Some(next);
        if next in chain {
          if next != a {
            ghost var i: nat :| i <= h && Up(proxy, q, i) == Some(next);
            DistanceUnique(proxy, q, next, i, h + 1);
          }
          return false;
        }
        chain, c, h := chain + {next}, next, h + 1;
        if |chain| > maxDepth {
          if maxDepth >= 1 {
            UpAdd(proxy, q, maxDepth - 1, h - (maxDepth - 1));
          }
          return false;
        }
      }
      forall i: nat | i > h ensures Up(proxy, q, i) == None {
        UpAdd(proxy, q, h, i - h);
      }
      ok := true;
    }

    /** Second half of a proxy change: `a` stands alone in the books and is put under `q`. */
    method Relink(a: nat, q: nat)
      requires a < |proxy| && q < |proxy| && a < |votedFor| && InRange(proxy)
      requires BucketsOk(proxy[a := None], direct, proxied, maxDepth)
      requires TallyOk(proxy[a := None], direct, proxied, Without(votes, a), tally)
      requires var cut := proxy[a := None]; Acyclic(cut) && forall i: nat :: Up(cut, q, i) != Some(a)
      modifies this`proxy, this`proxied, this`votes, this`votedFor, this`tally
      ensures proxy == old(proxy)[a := Some(q)] && votes == Without(old(votes), a)
      ensures votedFor == old(votedFor)[a := 0] && |tally| == old(|tally|)
      ensures Acyclic(proxy) && BucketsOk(proxy, direct, proxied, maxDepth)
      ensures TallyOk(proxy, direct, proxied, votes, tally)
    {
      var cut := proxy[a := None];
      LinkAcyclic(cut, a, q);
      votes := set v | v in votes && v.0 != a;
      votedFor := votedFor[a := 0];
      proxy := proxy[a := Some(q)];
      assert proxy == cut[a := Some(q)] && proxy[a := None] == cut;
      assert votes == Without(old(votes), a);
      TallyReproxy(cut, proxy, direct, proxied, votes, tally, a);
      var delta := [direct[a]] + proxied[a];
      LevelsOf(cut, direct, proxied, a, maxDepth, delta, 1);
      forall i: nat | i <= maxDepth ensures delta[i] == LevelSum(proxy, direct, a, i) {
        LevelsBelow(proxy, direct, a, i);
      }
      AdjustProxied(a, delta, 0);
      EdgeBuckets(proxy, direct, a, delta, maxDepth, 1, old(proxied), proxied);
      EdgeTally(proxy, direct, a, delta, maxDepth, votes, old(proxied), proxied, old(tally), tally, proxy);
      assert Without(votes, a) == votes;
    }

    method SetProxy(a: nat, q: nat) returns (ok: bool)
      requires Valid() && a < |proxy| && q < |proxy|
      modifies this
      ensures Valid()
      ensures ok <==> old(canVote[a] && a != q && proxy[a] != Some(q) && ChainAllowed(proxy, a, q, maxDepth))
      ensures ok ==> proxy == old(proxy)[a := Some(q)] && votes == Without(old(votes), a)
      ensures direct == old(direct) && canVote == old(canVote) && |tally| == old(|tally|)
      ensures !ok ==> unchanged(this)
    {
      if a == q || !canVote[a] {
        return false;
      }
      var saved := (proxied, tally);
      Nullify(a);
      ok := proxy[a] != Some(q);
      if ok {
        ok := CheckChain(a, q);
      }
      if !ok {
        proxied, tally := saved.0, saved.1;
        return;
      }
      LinkCut(proxy, a, q);
      Relink(a, q);
      VotesRest(old(votes), a, old(votedFor));
    }

    method ClearProxy(a: nat) returns (ok: bool)
      requires Valid() && a < |proxy|
      modifies this
      ensures Valid()
      ensures ok <==> old(canVote[a] && proxy[a].Some?)
      ensures ok ==> proxy == old(proxy)[a := None]
      ensures votes == old(votes) && direct == old(direct) && canVote == old(canVote) && |tally| == old(|tally|)
      ensures !ok ==> unchanged(this)
    {
      if !canVote[a] {
        return false;
      }
      var saved := (proxied, tally);
      Nullify(a);
      if proxy[a].None? {
        proxied, tally := saved.0, saved.1;
        return false;
      }
      proxy := proxy[a := None];
      assert Without(votes, a) == votes;
      ok := true;
    }

    method Vote(a: nat, w: nat, approve: bool) returns (ok: bool)
      requires Valid() && a < |proxy| && w < |tally|
      modifies this
      ensures Valid()
      ensures ok <==> old(proxy[a].None? && canVote[a] && (approve <==> (a, w) !in votes) &&
                          (approve ==> |VotesOf(votes, a)| < maxVotes))
      ensures ok ==> votes == if approve then old(votes) + {(a, w)} else old(votes) - {(a, w)}
      ensures proxy == old(proxy) && direct == old(direct) && canVote == old(canVote) && |tally| == old(|tally|)
      ensures !ok ==> unchanged(this)
    {
      if proxy[a].Some? || !canVote[a] || approve == ((a, w) in votes) {
        return false;
      }
      if approve && votedFor[a] >= maxVotes {
        return false;
      }
      TallyVote(proxy, direct, proxied, votes, tally, a, w);
      VotesOne(votes, a, w);
      if approve {
        votes := votes + {(a, w)};
        tally := tally[w := tally[w] + Power(direct, proxied, a)];
        votedFor := votedFor[a := votedFor[a] + 1];
      } else {
        tally := tally[w := tally[w] - Power(direct, proxied, a)];
        votedFor := votedFor[a := votedFor[a] - 1];
        votes := votes - {(a, w)};
      }
      ok := true;
    }

    /** The vesting balance of `a`, less its delayed votes, changes by `delta`. */
    method ChangeVests(a: nat, delta: int)
      requires Valid() && a < |proxy|
      modifies this`direct, this`proxied, this`tally
      ensures Valid()
      ensures direct == old(direct)[a := old(direct[a]) + delta] && |tally| == old(|tally|)
    {
      direct := direct[a := direct[a] + delta];
      AdjustProxiedBy(a, delta, 0);
      VestBuckets(proxy, old(direct), a, delta, maxDepth, old(proxied), proxied);
      VestTally(proxy, old(direct), a, delta, maxDepth, votes, old(proxied), proxied, old(tally), tally);
    }

    /** Common part of declining voting rights and of expired governance votes. */
    method Withdraw(a: nat)
      requires Valid() && a < |proxy|
      modifies this
      ensures Valid()
      ensures proxy == old(proxy)[a := None] && votes == Without(old(votes), a)
      ensures direct == old(direct) && canVote == old(canVote) && |tally| == old(|tally|)
    {
      Nullify(a);
      votes := set v | v in votes && v.0 != a;
      votedFor := votedFor[a := 0];
      proxy := proxy[a := None];
      assert votes == Without(old(votes), a);
      VotesRest(old(votes), a, old(votedFor));
    }

    method DeclineVoting(a: nat)
      requires Valid() && a < |proxy|
      modifies this
      ensures Valid()
      ensures proxy == old(proxy)[a := None] && votes == Without(old(votes), a)
      ensures direct == old(direct) && canVote == old(canVote)[a := false] && |tally| == old(|tally|)
    {
      Withdraw(a);
      canVote := canVote[a := false];
    }

    method NewAccount()
      requires Valid()
      modifies this
      ensures Valid()
      ensures proxy == old(proxy) + [None] && direct == old(direct) + [0] && canVote == old(canVote) + [true]
      ensures votes == old(votes) && tally == old(tally)
    {
      var bucket := seq(maxDepth, _ => 0);
      ExtendOk(proxy, direct, proxied, maxDepth, votes, tally, bucket);
      assert VotesOf(votes, |proxy|) == {};
      proxy, direct, proxied := proxy + [None], direct + [0], proxied + [bucket];
      votedFor, canVote := votedFor + [0], canVote + [true];
    }

    method NewWitness()
      requires Valid()
      modifies this`tally
      ensures Valid() && tally == old(tally) + [0]
    {
      TallyNewWitness(proxy, direct, proxied, votes, tally);
      tally := tally + [0];
    }

    /** One operation of the chain; a failed one leaves the state as it was. */
    method Apply(op: Op) returns (ok: bool)
      requires Valid()
      modifies this
      ensures Valid()
      ensures !ok ==> unchanged(this)
    {
      ok := true;
      match op
      case NewAccount => NewAccount();
      case NewWitness => NewWitness();
      case SetProxy(a, q) =>
        if a < |proxy| && q < |proxy| { ok := SetProxy(a, q); } else { ok := false; }
      case ClearProxy(a) =>
        if a < |proxy| { ok := ClearProxy(a); } else { ok := false; }
      case Vote(a, w, approve) =>
        if a < |proxy| && w < |tally| { ok := Vote(a, w, approve); } else { ok := false; }
      case ChangeVests(a, delta) =>
        if a < |proxy| { ChangeVests(a, delta); } else { ok := false; }
      case DeclineVoting(a) =>
        if a < |proxy| { DeclineVoting(a); } else { ok := false; }
      case ExpireVotes(a) =>
        if a < |proxy| { Withdraw(a); } else { ok := false; }
    }
  }

  /** Every state any run of operations can reach has exact buckets and exact tallies. */
  method Run(maxDepth: nat, maxVotes: nat, ops: seq<Op>) returns (electorate: Electorate)
    ensures fresh(electorate) && electorate.maxDepth == maxDepth && electorate.Valid()
  {
    electorate := new Electorate(maxDepth, maxVotes);
    for i := 0 to |ops|
      invariant fresh(electorate) && electorate.maxDepth == maxDepth && electorate.Valid()
    {
      var ok := electorate.Apply(ops[i]);
    }
  }

  lemma LinkCut(proxy: Forest, a: nat, q: nat)
    requires Acyclic(proxy) && a < |proxy| && forall i: nat :: Up(proxy, q, i) != Some(a)
    ensures var cut := proxy[a := None]; Acyclic(cut) && forall i: nat :: Up(cut, q, i) != Some(a)
  {
    CutAcyclic(proxy, a);
    var cut := proxy[a := None];
    forall i: nat ensures Up(cut, q, i) != Some(a) {
      CutUp(proxy, a, q, i);
    }
  }

  lemma VotesRest(votes: set<(nat, nat)>, a: nat, votedFor: seq<nat>)
    requires a < |votedFor| && forall x: nat :: x < |votedFor| ==> votedFor[x] == |VotesOf(votes, x)|
    ensures forall x: nat :: x < |votedFor| ==> votedFor[a := 0][x] == |VotesOf(Without(votes, a), x)|
  {
    forall x: nat | x < |votedFor| ensures votedFor[a := 0][x] == |VotesOf(Without(votes, a), x)| {
      assert VotesOf(Without(votes, a), x) == if x == a then {} else VotesOf(votes, x);
    }
  }

  lemma VotesOne(votes: set<(nat, nat)>, a: nat, w: nat)
    ensures (a, w) !in votes ==> |VotesOf(votes + {(a, w)}, a)| == |VotesOf(votes, a)| + 1
    ensures (a, w) in votes ==> |VotesOf(votes - {(a, w)}, a)| == |VotesOf(votes, a)| - 1
    ensures forall x: nat :: x != a ==> VotesOf(votes + {(a, w)}, x) == VotesOf(votes, x) ==
                                          VotesOf(votes - {(a, w)}, x)
  {
    assert VotesOf(votes + {(a, w)}, a) == VotesOf(votes, a) + {(a, w)};
    assert VotesOf(votes - {(a, w)}, a) == VotesOf(votes, a) - {(a, w)};
  }
}
