// Which block the scheduled witnesses have made irreversible, from the blocks
// they produced and from their fast confirmations.

module Irreversibility {
  import opened Arith
  import opened Common
  import opened Chain

  const ONE_HUNDRED_PERCENT := 10000   // HIVE_100_PERCENT

  /** Approvals needed among `n` scheduled witnesses; the source's threshold is HIVE_IRREVERSIBLE_THRESHOLD. */
  function Required(n: nat, threshold: nat): (r: int)
    requires threshold <= ONE_HUNDRED_PERCENT
  {
    n - (ONE_HUNDRED_PERCENT - threshold) * n / ONE_HUNDRED_PERCENT
  }

  /**
   * The required number is the least that makes up the threshold's share of the scheduled witnesses;
   * so the witnesses it leaves out are the most the threshold allows.
   */
  lemma RequiredIsLeast(n: nat, threshold: nat, m: int)
    requires threshold <= ONE_HUNDRED_PERCENT
    ensures m >= Required(n, threshold) <==> m * ONE_HUNDRED_PERCENT >= threshold * n
    ensures Quotient(n - Required(n, threshold), (ONE_HUNDRED_PERCENT - threshold) * n, ONE_HUNDRED_PERCENT)
    ensures 0 <= Required(n, threshold) <= n
  {
    var share := (ONE_HUNDRED_PERCENT - threshold) * n;
    assert share == ONE_HUNDRED_PERCENT * n - threshold * n;
    QuotientIs(share, ONE_HUNDRED_PERCENT);
    MulMono(0, threshold, 0, n);
    MulMono(0, ONE_HUNDRED_PERCENT - threshold, 0, n);
  }

  lemma RequiredIsMajority(n: nat, threshold: nat)
    requires n >= 1 && ONE_HUNDRED_PERCENT / 2 < threshold <= ONE_HUNDRED_PERCENT
    ensures n < 2 * Required(n, threshold) && Required(n, threshold) <= n
    ensures (Required(n, threshold) - 1) * ONE_HUNDRED_PERCENT < threshold * n
    ensures threshold * n <= Required(n, threshold) * ONE_HUNDRED_PERCENT
  {
    hide Required;
    var m := Required(n, threshold);
    RequiredIsLeast(n, threshold, m);
    RequiredIsLeast(n, threshold, m - 1);
    MulMono(ONE_HUNDRED_PERCENT / 2 + 1, threshold, n, n);
  }

  /** The latest block of each producer: later entries of the index, which are higher or newer, win. */
  ghost function LatestOf(index: seq<Block>): map<nat, Block> {
    if index == [] then map[]
    else
      var last := index[|index| - 1];
      if last.Block? then LatestOf(index[..|index| - 1])[last.producer := last] else LatestOf(index[..|index| - 1])
  }

  method LastByWitness(index: seq<Block>) returns (m: map<nat, Block>)
    ensures m == LatestOf(index)
  {
    m := map[];
    for i := 0 to |index|
      invariant m == LatestOf(index[..i])
    {
      assert index[..i + 1][..i] == index[..i];
      if index[i].Block? {
        m := m[index[i].producer := index[i]];
      }
    }
    assert index[..|index|] == index;
  }

  /** In an index kept in block number order, each producer is credited with its highest block. */
  lemma {:induction false} LatestIsHighest(index: seq<Block>)
    requires forall i: nat, j: nat :: i < j < |index| ==> Num(index[i]) <= Num(index[j])
    ensures forall w: nat :: w in LatestOf(index) ==> Latest(index, w)
    ensures forall x :: x in index && x.Block? ==> x.producer in LatestOf(index)
    decreases |index|
  {
    hide Num;
    if index != [] {
      var init, last := index[..|index| - 1], index[|index| - 1];
      LatestIsHighest(init);
      forall x | x in index && x.Block? ensures x.producer in LatestOf(index) {
        assert x == last || x in init;
      }
      forall w: nat | w in LatestOf(index) ensures Latest(index, w) {
        LatestStep(index, w);
      }
    }
  }

  /** What a producer is credited with: a block of its own, and no lower than any other of its own. */
  ghost predicate Latest(index: seq<Block>, w: nat)
    requires w in LatestOf(index)
  {
    var b := LatestOf(index)[w];
    && b in index && b.Block? && b.producer == w
    && forall x :: x in index && x.Block? && x.producer == w ==> Num(x) <= Num(b)
  }

  lemma LatestStep(index: seq<Block>, w: nat)
    requires index != [] && (forall i: nat, j: nat :: i < j < |index| ==> Num(index[i]) <= Num(index[j]))
    requires w in LatestOf(index)
    requires var init := index[..|index| - 1];
             && (forall v: nat :: v in LatestOf(init) ==> Latest(init, v))
             && (forall x :: x in init && x.Block? ==> x.producer in LatestOf(init))
    ensures Latest(index, w)
  {
    hide Num;
    var init, last := index[..|index| - 1], index[|index| - 1];
    var b := LatestOf(index)[w];
    assert b == last || (w in LatestOf(init) && Latest(init, w));
    forall x | x in index && x.Block? && x.producer == w ensures Num(x) <= Num(b) {
      var i :| 0 <= i < |index| && index[i] == x;
      if i < |index| - 1 {
        assert x == init[i] && x in init;
      }
    }
  }

  /** The block a witness stands behind: its highest vote, cast by confirming or by producing. */
  function BestVote(w: nat, fast: map<nat, Block>, produced: map<nat, Block>): Option<Block> {
    if w in fast then
      if w in produced then
        Some(if Num(fast[w]) > Num(produced[w]) then fast[w] else produced[w])
      else Some(fast[w])
    else if w in produced then Some(produced[w])
    else None
  }

  /** It is one of the witness's two votes, and no lower than either; of two equally high ones the block produced. */
  lemma BestVoteIsHighest(w: nat, fast: map<nat, Block>, produced: map<nat, Block>)
    ensures var best := BestVote(w, fast, produced);
            && (best.None? <==> w !in fast && w !in produced)
            && (best.Some? ==> (w in fast && best.value == fast[w]) || (w in produced && best.value == produced[w]))
            && (w in fast ==> Num(fast[w]) <= Num(best.value))
            && (w in produced ==> Num(produced[w]) <= Num(best.value))
            && (w in produced && Num(best.value) == Num(produced[w]) ==> best.value == produced[w])
  {
  }

  datatype Votes = Votes(scheduled: seq<nat>, fast: map<nat, Block>, produced: map<nat, Block>) {
    function Best(w: nat): Option<Block> {
      BestVote(w, fast, produced)
    }
  }

  /** The scheduled witnesses whose best vote is `x`. */
  ghost function VotersFor(v: Votes, x: Block): set<nat> {
    set w | w in v.scheduled && v.Best(w) == Some(x)
  }

  /** The scheduled witnesses whose best vote is `x` or builds on `x`. */
  ghost function Approvers(v: Votes, x: Block): set<nat> {
    set w | w in v.scheduled && v.Best(w).Some? && Below(x, v.Best(w).value)
  }

  ghost function VotersIn(v: Votes, path: set<Block>): set<nat> {
    set w | w in v.scheduled && v.Best(w).Some? && v.Best(w).value in path
  }

  /** What one block adds to the approvals of a growing path. */
  lemma VotersAdd(v: Votes, path: set<Block>, x: Block)
    requires x !in path
    ensures |VotersIn(v, path + {x})| == |VotersIn(v, path)| + |VotersFor(v, x)|
  {
    assert VotersIn(v, path + {x}) == VotersIn(v, path) + VotersFor(v, x);
    assert VotersIn(v, path) * VotersFor(v, x) == {};
  }

  lemma {:induction false} MembersSize(s: seq<nat>)
    ensures |Members(s)| <= |s|
  {
    if s != [] {
      var init := s[..|s| - 1];
      MembersSize(init);
      assert Members(s) == Members(init) + {s[|s| - 1]};
    }
  }

  /** Two blocks with a majority behind each of them, by the same votes, lie on one chain. */
  lemma {:induction false} QuorumIntersection(v: Votes, x: Block, y: Block, threshold: nat)
    requires v.scheduled != [] && ONE_HUNDRED_PERCENT / 2 < threshold <= ONE_HUNDRED_PERCENT
    requires |Approvers(v, x)| >= Required(|v.scheduled|, threshold)
    requires |Approvers(v, y)| >= Required(|v.scheduled|, threshold)
    ensures Below(x, y) || Below(y, x)
  {
    RequiredIsMajority(|v.scheduled|, threshold);
    MembersSize(v.scheduled);
    var a, b := Approvers(v, x), Approvers(v, y);
    SubsetSize(a + b, Members(v.scheduled));
    assert |a| + |b| == |a + b| + |a * b|;
    assert |a * b| > 0;
    var w :| w in a * b;
    var best := v.Best(w).value;
    if Num(x) <= Num(y) {
      OneChain(x, y, best);
    } else {
      OneChain(y, x, best);
    }
  }

  method CountVotes(v: Votes) returns (approvals: map<Block, nat>)
    requires Distinct(v.scheduled)
    ensures forall x :: Tally(approvals, x) == |VotersFor(v, x)|
  {
    hide VotersFor, Tally;
    approvals := map[];
    CountNone(v);
    for i := 0 to |v.scheduled|
      invariant forall x :: Tally(approvals, x) == |VotersFor(v.(scheduled := v.scheduled[..i]), x)|
    {
      ghost var before := approvals;
      var best := v.Best(v.scheduled[i]);
      if best.Some? {
        approvals := approvals[best.value := 1 + Tally(approvals, best.value)];
      }
      CountStep(v, i, before, approvals);
    }
    assert v.(scheduled := v.scheduled[..|v.scheduled|]) == v;
  }

  function Tally(m: map<Block, nat>, x: Block): nat {
    if x in m then m[x] else 0
  }

  lemma CountNone(v: Votes)
    ensures forall x :: Tally(map[], x) == |VotersFor(v.(scheduled := v.scheduled[..0]), x)|
  {
    forall x ensures VotersFor(v.(scheduled := v.scheduled[..0]), x) == {} {
    }
  }

  lemma CountStep(v: Votes, i: nat, before: map<Block, nat>, after: map<Block, nat>)
    requires Distinct(v.scheduled) && i < |v.scheduled|
    requires forall x :: Tally(before, x) == |VotersFor(v.(scheduled := v.scheduled[..i]), x)|
    requires var best := v.Best(v.scheduled[i]);
             after == if best.Some? then before[best.value := 1 + Tally(before, best.value)] else before
    ensures forall x :: Tally(after, x) == |VotersFor(v.(scheduled := v.scheduled[..i + 1]), x)|
  {
    forall x ensures Tally(after, x) == |VotersFor(v.(scheduled := v.scheduled[..i + 1]), x)| {
      VotersGrow(v, i, x);
      assert v.scheduled[i] !in v.scheduled[..i];
      assert v.scheduled[i] !in VotersFor(v.(scheduled := v.scheduled[..i]), x);
    }
  }

  lemma VotersGrow(v: Votes, i: nat, x: Block)
    requires i < |v.scheduled|
    ensures VotersFor(v.(scheduled := v.scheduled[..i + 1]), x)
         == VotersFor(v.(scheduled := v.scheduled[..i]), x) + if v.Best(v.scheduled[i]) ==
           Some(x) then {v.scheduled[i]} else {}
  {
    assert v.scheduled[..i + 1] == v.scheduled[..i] + [v.scheduled[i]];
  }

  /** The blocks met on the way down from `h` to `x`, both included. */
  ghost function Between(h: Block, x: Block): set<Block>
    requires Below(x, h)
    decreases h
  {
    if h == x then {h} else {h} + Between(h.prev, x)
  }

  /** `x` can be walked to from `h` over linked blocks. */
  ghost predicate Reaches(index: seq<Block>, h: Block, x: Block) {
    x == h || (h.Block? && h.prev in index && Reaches(index, h.prev, x))
  }

  lemma {:induction false} BetweenAbove(h: Block, x: Block, y: Block)
    requires Below(x, h) && y in Between(h, x)
    ensures Below(x, y)
    decreases h
  {
    if y != h {
      BetweenAbove(h.prev, x, y);
    }
  }

  lemma {:induction false} BetweenStep(h: Block, x: Block)
    requires x.Block? && Below(x, h)
    ensures Below(x.prev, h) && Between(h, x.prev) == Between(h, x) + {x.prev} && x.prev !in Between(h, x)
    decreases h
  {
    assert Below(x.prev, x.prev) && Below(x.prev, x);
    BelowTransitive(x.prev, x, h);
    assert x.prev != x by { assert Num(x.prev) < Num(x); }
    if h != x {
      BetweenStep(h.prev, x);
      if h == x.prev {
        BelowNum(x, h.prev);
      }
    } else {
      assert Between(h, x.prev) == {h} + Between(h.prev, x.prev);
    }
  }

  /** Approvals collected on the way from `h` down to `x` all stand behind `x`. */
  lemma {:induction false} PathApproves(v: Votes, h: Block, x: Block)
    requires Below(x, h)
    ensures |VotersIn(v, Between(h, x))| <= |Approvers(v, x)|
  {
    forall w | w in VotersIn(v, Between(h, x)) ensures w in Approvers(v, x) {
      BetweenAbove(h, x, v.Best(w).value);
    }
    SubsetSize(VotersIn(v, Between(h, x)), Approvers(v, x));
  }

  /** A block above the old irreversible one, on a linked walk from tip `h`, with enough approvals on that walk. */
  ghost predicate Confirmed(index: seq<Block>, v: Votes, required: int, old_: nat, h: Block, x: Block) {
    && Reaches(index, h, x) && Below(x, h) && Num(x) > old_
    && |VotersIn(v, Between(h, x))| >= required
  }

  /** Block `x` is the highest one confirmed on the fork ending in `h`, and no higher fork confirms a higher one. */
  ghost predicate Foremost(index: seq<Block>, tips: seq<Block>, v: Votes, required: int, old_: nat, h: Block,
                           x: Block) {
    && (forall y :: Confirmed(index, v, required, old_, h, y) ==> Num(y) <= Num(x))
    && (forall k: nat, y :: k < |tips| && Num(tips[k]) > Num(h) && Confirmed(index, v, required, old_, tips[k], y) ==>
                              Num(y) <= Num(x))
  }

  /**
   * The search over all tips. A block is found exactly when some tip confirms one; what is found has
   * the required number of scheduled witnesses standing behind it, is the highest such block of its
   * fork, and no higher fork has a higher one.
   */
  method FindNewLib(index: seq<Block>, tips: seq<Block>, v: Votes, required: int, old_: nat)
    returns (r: Option<(Block, Block)>)
    requires Distinct(v.scheduled) && forall i: nat :: i < |tips| ==> tips[i] in index
    ensures r.Some? ==> r.value.0 in tips && Confirmed(index, v, required, old_, r.value.0, r.value.1)
    ensures r.Some? ==> |Approvers(v, r.value.1)| >= required && Num(r.value.1) > old_ && r.value.1 in index
    ensures r.Some? ==> Foremost(index, tips, v, required, old_, r.value.0, r.value.1)
    ensures r.None? ==> forall h, x :: h in tips ==> !Confirmed(index, v, required, old_, h, x)
  {
    hide Confirmed, Foremost, Approvers, Num;
    var approvals := CountVotes(v);
    r := None;
    for i := 0 to |tips|
      invariant r.Some? ==> r.value.0 in tips && r.value.1 in index &&
                            Confirmed(index, v, required, old_, r.value.0, r.value.1)
      invariant r.Some? ==> Foremost(index, tips[..i], v, required, old_, r.value.0, r.value.1)
      invariant r.None? ==> forall k: nat, x :: k < i ==> !Confirmed(index, v, required, old_, tips[k], x)
    {
      ghost var before := r;
      var best := WalkTip(index, tips[i], v, approvals, required, old_, if r.Some? then Some(r.value.1) else None);
      if best.Some? && (r.None? || Num(tips[i]) > Num(r.value.0)) {
        r := Some((tips[i], best.value));
      }
      if r.Some? {
        ForemostOn(index, tips, i, v, required, old_, before, best, r.value);
      }
    }
    assert tips[..|tips|] == tips;
    if r.Some? {
      FoundIs(index, v, required, old_, r.value.0, r.value.1);
      PathApproves(v, r.value.0, r.value.1);
    }
  }

  lemma {:induction false} FoundIs(index: seq<Block>, v: Votes, required: int, old_: nat, h: Block, x: Block)
    requires Confirmed(index, v, required, old_, h, x)
    ensures Below(x, h) && Num(x) > old_ && |VotersIn(v, Between(h, x))| >= required
  {
  }

  lemma ForemostOn(index: seq<Block>, tips: seq<Block>, i: nat, v: Votes, required: int, old_: nat,
                   before: Option<(Block, Block)>, best: Option<Block>, now: (Block, Block))
    requires i < |tips| && (before.Some? ==>
                              Foremost(index, tips[..i], v, required, old_, before.value.0, before.value.1))
    requires before.None? ==> forall k: nat, x :: k < i ==> !Confirmed(index, v, required, old_, tips[k], x)
    requires best.Some? ==> forall y :: Confirmed(index, v, required, old_, tips[i], y) ==> Num(y) <= Num(best.value)
    requires best.Some? && before.Some? ==> Num(best.value) >= Num(before.value.1)
    requires best.None? && before.Some? ==>
               forall y :: Confirmed(index, v, required, old_, tips[i], y) ==> Num(y) <= Num(before.value.1)
    requires if best.Some? && (before.None? || Num(tips[i]) > Num(before.value.0)) then now == (tips[i], best.value)
             else before == Some(now)
    ensures Foremost(index, tips[..i + 1], v, required, old_, now.0, now.1)
  {
    hide Confirmed, Num;
    forall k: nat, y | k < i + 1 && Num(tips[k]) > Num(now.0) && Confirmed(index, v, required, old_, tips[k], y)
      ensures Num(y) <= Num(now.1)
    {
      if k < i && before.Some? {
        assert tips[..i][k] == tips[k];
      }
    }
  }

  /** Walks down from one tip, not past a candidate already found on another. */
  method WalkTip(index: seq<Block>, h: Block, v: Votes, approvals: map<Block, nat>, required: int, old_: nat,
                 candidate: Option<Block>) returns (r: Option<Block>)
    requires h in index
    requires forall x :: (if x in approvals then approvals[x] else 0) == |VotersFor(v, x)|
    ensures r.Some? ==> r.value in index && Confirmed(index, v, required, old_, h, r.value)
    ensures r.Some? ==> forall y :: Confirmed(index, v, required, old_, h, y) ==> Num(y) <= Num(r.value)
    ensures r.Some? && candidate.Some? ==> Num(r.value) >= Num(candidate.value)
    ensures r.None? && candidate.None? ==> forall x :: !Confirmed(index, v, required, old_, h, x)
    ensures r.None? && candidate.Some? ==>
              forall y :: Confirmed(index, v, required, old_, h, y) ==> Num(y) <= Num(candidate.value)
  {
    var count := 0;
    var here := Some(h);
    ghost var above: set<Block> := {};
    assert VotersIn(v, {}) == {};
    while here.Some? && Num(here.value) > old_
          && (candidate.None? || here == candidate || Num(here.value) > Num(candidate.value))
      invariant here.Some? ==> here.value in index && Below(here.value, h) && Reaches(index, h, here.value)
      invariant here.Some? ==> here.value !in above && Between(h, here.value) == above + {here.value}
      invariant count == |VotersIn(v, above)|
      invariant forall x :: Confirmed(index, v, required, old_, h, x) ==> here.Some? && Below(x, here.value)
      decreases if here.None? then 0 else 1 + Num(here.value)
    {
      var x := here.value;
      VotersAdd(v, above, x);
      count := count + if x in approvals then approvals[x] else 0;
      if count >= required {
        forall y | Confirmed(index, v, required, old_, h, y) ensures Num(y) <= Num(x) {
          BelowNum(y, x);
        }
        return Some(x);
      }
      above := above + {x};
      forall y | Confirmed(index, v, required, old_, h, y)
        ensures y != x && x.Block? && x.prev in index && Below(y, x.prev)
      {
        ReachesOn(index, h, x, y);
      }
      if x.Block? && x.prev in index {
        BetweenStep(h, x);
        ReachesNext(index, h, x);
        here := Some(x.prev);
      } else {
        here := None;
      }
    }
    if here.Some? {
      forall x | Confirmed(index, v, required, old_, h, x) ensures Num(x) <= Num(here.value) {
        BelowNum(x, here.value);
      }
    }
    return None;
  }

  lemma {:induction false} ReachesNext(index: seq<Block>, h: Block, x: Block)
    requires Reaches(index, h, x) && x.Block? && x.prev in index
    ensures Reaches(index, h, x.prev)
    decreases h
  {
    if h != x {
      ReachesNext(index, h.prev, x);
    } else {
      assert Reaches(index, x.prev, x.prev);
    }
  }

  lemma {:induction false} ReachesBelow(index: seq<Block>, h: Block, x: Block)
    requires Reaches(index, h, x)
    ensures Below(x, h)
    decreases h
  {
    if h != x {
      ReachesBelow(index, h.prev, x);
    }
  }

  /** A linked walk to `y` below `x` goes on from `x` over a linked block. */
  lemma {:induction false} ReachesOn(index: seq<Block>, h: Block, x: Block, y: Block)
    requires Reaches(index, h, x) && Reaches(index, h, y) && Below(y, x) && y != x
    ensures x.Block? && x.prev in index && Below(y, x.prev)
    decreases h
  {
    if h != x {
      ReachesBelow(index, h.prev, x);
      BelowNum(y, x);
      BelowNum(x, h.prev);
      assert y != h;
      ReachesOn(index, h.prev, x, y);
    }
  }
}
