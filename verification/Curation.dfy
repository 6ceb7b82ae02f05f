// Votes on a comment and the curation rewards paid for them.

module Curation {
  import opened Arith
  import opened Common

  const WORD := 0x1_0000_0000_0000_0000   // vote weights are unsigned 64-bit numbers

  datatype Vote = Vote(voter: nat, rshares: int, weight: nat)

  /** Voting windows in seconds, and whether curation is rewarded at all. */
  datatype Rules = Rules(reverseAuction: nat, early: nat, mid: nat, rewarded: bool)

  function Positive(rshares: int): nat {
    if rshares > 0 then rshares else 0
  }

  ghost function Weights(votes: seq<Vote>): nat {
    if votes == [] then 0 else Weights(votes[..|votes| - 1]) + votes[|votes| - 1].weight
  }

  ghost function Shares(votes: seq<Vote>): nat {
    if votes == [] then 0 else Shares(votes[..|votes| - 1]) + Positive(votes[|votes| - 1].rshares)
  }

  ghost predicate OnePerVoter(votes: seq<Vote>) {
    forall i: nat, j: nat :: i < j < |votes| ==> votes[i].voter != votes[j].voter
  }

  // ---- curves ----

  ghost function Gain(curve: nat -> nat, x: nat, d: nat): int {
    curve(x + d) - curve(x)
  }

  /** A curation curve rises, and never faster than before. */
  ghost predicate Curve(curve: nat -> nat) {
    && (forall x: nat, d: nat :: Gain(curve, x, d) >= 0)
    && (forall x: nat, y: nat, d: nat :: x <= y ==> Gain(curve, y, d) <= Gain(curve, x, d))
  }

  /** The curve in use: weight grows in proportion to shares. */
  lemma LinearIsCurve()
    ensures Curve((r: nat) => r)
  {
    var linear := (r: nat) => r;
    forall x: nat, d: nat ensures Gain(linear, x, d) == d {
    }
  }

  /** Every vote weighs at most what its shares add on top of the votes before it. */
  ghost predicate Stacked(votes: seq<Vote>, curve: nat -> nat) {
    forall j: nat :: j < |votes| ==> votes[j].weight <= Gain(curve, Shares(votes[..j]), Positive(votes[j].rshares))
  }

  lemma {:induction false} StackedSum(votes: seq<Vote>, curve: nat -> nat)
    requires Stacked(votes, curve)
    ensures Weights(votes) <= curve(Shares(votes))
    decreases |votes|
  {
    if votes != [] {
      var n := |votes| - 1;
      var init := votes[..n];
      assert Stacked(init, curve) by {
        forall j: nat | j < n ensures init[j].weight <= Gain(curve, Shares(init[..j]), Positive(init[j].rshares)) {
          assert init[..j] == votes[..j];
        }
      }
      StackedSum(init, curve);
      assert votes[n].weight <= Gain(curve, Shares(votes[..n]), Positive(votes[n].rshares));
    }
  }

  lemma {:induction false} StackedSnoc(votes: seq<Vote>, v: Vote, curve: nat -> nat)
    requires Stacked(votes, curve) && v.weight <= Gain(curve, Shares(votes), Positive(v.rshares))
    ensures Stacked(votes + [v], curve)
  {
    var all := votes + [v];
    forall j: nat | j < |all| ensures all[j].weight <= Gain(curve, Shares(all[..j]), Positive(all[j].rshares)) {
      if j < |votes| {
        assert all[..j] == votes[..j];
      } else {
        assert all[..j] == votes;
      }
    }
  }

  lemma {:induction false} DroppedSums(votes: seq<Vote>, i: nat)
    requires i < |votes|
    ensures Shares(Drop(votes, i)) == Shares(votes) - Positive(votes[i].rshares)
    ensures Weights(Drop(votes, i)) == Weights(votes) - votes[i].weight
    decreases |votes|
  {
    var n := |votes| - 1;
    var init := votes[..n];
    if i == n {
      assert Drop(votes, i) == init;
    } else {
      DroppedSums(init, i);
      assert Drop(votes, i) == Drop(init, i) + [votes[n]];
      assert Drop(votes, i)[..n - 1] == Drop(init, i);
    }
  }

  /** Taking a vote away leaves the later ones on less, where a share is worth no less. */
  lemma StackedDrop(votes: seq<Vote>, i: nat, curve: nat -> nat)
    requires Curve(curve) && Stacked(votes, curve) && i < |votes|
    ensures Stacked(Drop(votes, i), curve)
  {
    hide Shares, Weights, Gain, Positive;
    var rest := Drop(votes, i);
    forall j: nat | j < |rest| ensures rest[j].weight <= Gain(curve, Shares(rest[..j]), Positive(rest[j].rshares)) {
      if j < i {
        assert rest[..j] == votes[..j];
      } else {
        var before := votes[..j + 1];
        assert rest[..j] == Drop(before, i) && rest[j] == votes[j + 1];
        DroppedSums(before, i);
        assert Gain(curve, Shares(before),
                    Positive(rest[j].rshares)) <= Gain(curve, Shares(rest[..j]), Positive(rest[j].rshares));
      }
    }
  }

  lemma {:induction false} SumsSnoc(votes: seq<Vote>, v: Vote)
    ensures Shares(votes + [v]) == Shares(votes) + Positive(v.rshares) && Weights(votes + [v]) == Weights(votes) +
              v.weight
  {
    assert (votes + [v])[..|votes|] == votes;
  }

  // ---- casting votes ----

  /** The weight stored for a vote that adds `gain`, and the weight counted in the total. */
  function Weigh(gain: nat, seconds: nat, rules: Rules): (r: (nat, nat))
    ensures r.0 <= r.1 <= gain && (rules.reverseAuction == 0 ==> r.0 == r.1)
  {
    if seconds < rules.reverseAuction then
      DiscountSmall(gain, seconds, rules.reverseAuction);
      (gain * seconds / rules.reverseAuction, gain)
    else if seconds >= rules.early && rules.early > 0 then
      var w := if seconds < rules.early + rules.mid then gain / 2 else gain / 8;
      (w, w)
    else (gain, gain)
  }

  /**
   * The weight of a vote cast after `seconds` that adds `gain`: in the reverse auction as much of
   * it as has passed of the auction, then all of it up to the end of the early window, half of it
   * in the window after that, and an eighth from then on; each rounded down.
   */
  ghost predicate WeightAt(w: nat, gain: nat, seconds: nat, rules: Rules) {
    if seconds < rules.reverseAuction then Quotient(w, gain * seconds, rules.reverseAuction)
    else if rules.early == 0 || seconds < rules.early then w == gain
    else if seconds < rules.early + rules.mid then Quotient(w, gain, 2)
    else Quotient(w, gain, 8)
  }

  /** The weight counted is the whole gain during the reverse auction, and the weight stored after it. */
  ghost predicate CountedAt(counted: nat, w: nat, gain: nat, seconds: nat, rules: Rules) {
    counted == if seconds < rules.reverseAuction then gain else w
  }

  lemma WeighIs(gain: nat, seconds: nat, rules: Rules)
    ensures var r := Weigh(gain, seconds, rules);
            WeightAt(r.0, gain, seconds, rules) && CountedAt(r.1, r.0, gain, seconds, rules)
  {
    if seconds < rules.reverseAuction {
      QuotientIs(gain * seconds, rules.reverseAuction);
    }
  }

  /** Once the reverse auction is over, a later vote never weighs more; during it, never less. */
  lemma LaterWeighsLess(gain: nat, s: nat, t: nat, rules: Rules)
    requires s <= t
    ensures rules.reverseAuction <= s ==> Weigh(gain, t, rules).0 <= Weigh(gain, s, rules).0
    ensures t < rules.reverseAuction ==> Weigh(gain, s, rules).0 <= Weigh(gain, t, rules).0
  {
    if t < rules.reverseAuction {
      MulMono(gain, gain, s, t);
      DivMono(gain * s, gain * t, rules.reverseAuction);
    }
  }

  lemma DiscountSmall(gain: nat, seconds: nat, window: nat)
    requires seconds < window
    ensures 0 <= gain * seconds / window <= gain
  {
    MulMono(gain, gain, seconds, window);
    DivBound(gain * seconds, window, gain + 1);
    DivBound(gain * seconds, window, 0);
    assert (gain + 1) * window == gain * window + window;
  }

  /** The weight stored and the weight counted for a vote on top of `shares`: by what the curve gains, if anything. */
  function Weighed(curve: nat -> nat, rules: Rules, allowsCuration: bool, shares: nat, rshares: int, seconds: nat)
    : (r: (nat, nat))
    ensures r.0 <= r.1 && (rules.reverseAuction == 0 ==> r.0 == r.1)
    ensures r.1 > 0 ==> rshares > 0 && allowsCuration && rules.rewarded &&
                        r.1 <= curve(shares + rshares) - curve(shares)
  {
    if rshares > 0 && allowsCuration && rules.rewarded && curve(shares) < curve(shares + rshares)
    then Weigh(curve(shares + rshares) - curve(shares), seconds, rules) else (0, 0)
  }

  /**
   * Stored and counted weight of a vote on top of `shares`; none where it is not rewarded or the
   * curve does not rise.
   */
  ghost predicate WellWeighed(curve: nat -> nat, rules: Rules, allowsCuration: bool, shares: nat, rshares: int,
                              seconds: nat, w: nat, counted: nat) {
    if rshares > 0 && allowsCuration && rules.rewarded && curve(shares) < curve(shares + rshares)
    then var gain := curve(shares + rshares) - curve(shares);
         WeightAt(w, gain, seconds, rules) && CountedAt(counted, w, gain, seconds, rules)
    else w == 0 && counted == 0
  }

  lemma WeighedIs(curve: nat -> nat, rules: Rules, allowsCuration: bool, shares: nat, rshares: int, seconds: nat)
    ensures var r := Weighed(curve, rules, allowsCuration, shares, rshares, seconds);
            WellWeighed(curve, rules, allowsCuration, shares, rshares, seconds, r.0, r.1)
  {
    hide WeightAt, CountedAt, Weigh;
    if rshares > 0 && curve(shares) < curve(shares + rshares) {
      WeighIs(curve(shares + rshares) - curve(shares), seconds, rules);
    }
  }

  /** The weight stored for a voter's vote, or none. */
  ghost predicate Stored(votes: seq<Vote>, voter: nat, weight: nat) {
    && (forall i: nat :: i < |votes| && votes[i].voter == voter ==> weight == votes[i].weight)
    && ((forall i: nat :: i < |votes| ==> votes[i].voter != voter) ==> weight == 0)
  }

  lemma StoredIs(votes: seq<Vote>, at: Option<nat>, voter: nat, weight: nat)
    requires OnePerVoter(votes)
    requires if at.Some? then at.value < |votes| && votes[at.value].voter == voter && weight == votes[at.value].weight
             else weight == 0 && forall i: nat :: i < |votes| ==> votes[i].voter != voter
    ensures Stored(votes, voter, weight)
  {
  }

  class Cashout {
    const curve: nat -> nat
    const rules: Rules
    const allowsCuration: bool
    var voteRshares: int            // positive shares of all votes
    var totalWeight: nat
    var votes: seq<Vote>            // one per voter, the one cast last at the end

    ghost predicate Valid()
      reads this
    {
      && OnePerVoter(votes) && voteRshares == Shares(votes) && totalWeight < WORD && Weights(votes) <= totalWeight
    }

    /** With no reverse auction the total is exact, and the curve bounds it. */
    ghost predicate Exact()
      reads this
    {
      Valid() && Curve(curve) && rules.reverseAuction == 0 && totalWeight == Weights(votes) && Stacked(votes, curve)
    }

    constructor (curve: nat -> nat, rules: Rules, allowsCuration: bool)
      ensures Valid() && votes == [] && this.curve == curve && this.rules == rules && this.allowsCuration ==
                allowsCuration
      ensures Curve(curve) && rules.reverseAuction == 0 ==> Exact()
    {
      this.curve, this.rules, this.allowsCuration := curve, rules, allowsCuration;
      voteRshares, totalWeight, votes := 0, 0, [];
    }

    method Find(voter: nat) returns (r: Option<nat>)
      ensures r.Some? ==> r.value < |votes| && votes[r.value].voter == voter
      ensures r.None? ==> forall i: nat :: i < |votes| ==> votes[i].voter != voter
    {
      for i := 0 to |votes|
        invariant forall j: nat :: j < i ==> votes[j].voter != voter
      {
        if votes[i].voter == voter {
          return Some(i);
        }
      }
      return None;
    }

    method WeighVote(oldShares: nat, rshares: int, seconds: nat) returns (weight: nat, counted: nat)
      ensures (weight, counted) == Weighed(curve, rules, allowsCuration, oldShares, rshares, seconds)
      ensures Curve(curve) ==> counted <= Gain(curve, oldShares, Positive(rshares))
    {
      weight, counted := 0, 0;
      if rshares > 0 && allowsCuration && rules.rewarded {
        var oldWeight, newWeight := curve(oldShares), curve(oldShares + rshares);
        if oldWeight < newWeight {
          var weighed := Weigh(newWeight - oldWeight, seconds, rules);
          weight, counted := weighed.0, weighed.1;
        }
      }
    }

    /** The votes of all others, their shares, and the weight of the voter's earlier vote. */
    method SetAside(voter: nat) returns (others: seq<Vote>, shares: nat, weight: nat)
      requires Valid()
      ensures Stored(votes, voter, weight) && Apart(votes, others, voter)
      ensures shares == Shares(others) && Weights(others) + weight == Weights(votes)
      ensures Curve(curve) && Stacked(votes, curve) ==> Stacked(others, curve)
    {
      hide Curve, Stacked, Shares, Weights, Stored, Apart, OnePerVoter;
      var at := Find(voter);
      others, weight := votes, 0;
      var previous := 0;
      if at.Some? {
        previous, weight := Positive(votes[at.value].rshares), votes[at.value].weight;
        DroppedSums(votes, at.value);
        others := Drop(votes, at.value);
        if Curve(curve) && Stacked(votes, curve) {
          StackedDrop(votes, at.value, curve);
        }
      }
      WithoutVoter(votes, at, voter);
      StoredIs(votes, at, voter, weight);
      shares := voteRshares - previous;
    }

    /**
     * Casts or changes a vote. It is weighed on top of the shares of all other votes, and takes the
     * place of the voter's earlier one, if there was one, in the sums. The total stays at or above
     * the weights stored as long as it fits in 64 bits; without a reverse auction it does whenever
     * the curve's value does.
     */
    method Cast(voter: nat, rshares: int, seconds: nat) returns (ghost prev: nat, ghost max: nat)
      requires Valid()
      modifies this
      ensures voteRshares == Shares(votes) && OnePerVoter(votes) && votes != []
      ensures var last := votes[|votes| - 1]; last.voter == voter && last.rshares == rshares && last.weight <= max
      ensures Shares(votes) >= Positive(rshares) &&
              (votes[|votes| - 1].weight, max) ==
                Weighed(curve, rules, allowsCuration, Shares(votes) - Positive(rshares), rshares, seconds)
      ensures WellWeighed(curve, rules, allowsCuration, Shares(votes) - Positive(rshares), rshares, seconds,
                          votes[|votes| - 1].weight, max)
      ensures Others(old(votes), votes, voter) && Stored(old(votes), voter, prev)
      ensures totalWeight == (old(totalWeight) - prev + max) % WORD && 0 <= old(totalWeight) - prev
      ensures old(totalWeight) - prev + max < WORD ==> Valid()
      ensures old(Exact()) && curve(Shares(votes)) < WORD ==> Exact()
    {
      hide Curve, Stacked, Gain, Shares, Weights, Others, OnePerVoter, Weighed, WellWeighed, Stored,
           Apart;
      var others, shares, weightBefore := SetAside(voter);
      prev := weightBefore;
      voteRshares := shares + Positive(rshares);
      var weight, counted := WeighVote(shares, rshares, seconds);
      max := counted;
      WeighedIs(curve, rules, allowsCuration, shares, rshares, seconds);
      var cast := Vote(voter, rshares, weight);
      AddVoter(votes, others, cast);
      SumsSnoc(others, cast);
      if old(Exact()) {
        CastStacks(others, cast, curve);
      }
      WordSmall(totalWeight + counted - weightBefore);
      totalWeight := (totalWeight + counted - weightBefore) % WORD;
      votes := others + [cast];
    }

    /**
     * Pays the curators their floor-divided parts of the budget. Claims and the remainder that
     * goes back add up to the budget; a comment without curation rewards forfeits it.
     */
    method PayCurators(budget: nat) returns (claims: seq<nat>, unclaimed: int, paid: int)
      requires Valid()
      ensures |claims| == |votes| && unclaimed >= 0 && paid >= 0 && paid == Total(claims)
      ensures allowsCuration ==> paid + unclaimed == budget
      ensures !allowsCuration ==> paid == 0 && unclaimed == 0
      ensures allowsCuration && totalWeight > 0 ==>
                forall i: nat :: i < |claims| ==> IsPart(claims[i], budget, votes[i].weight, totalWeight)
      ensures !allowsCuration || totalWeight == 0 ==> forall i: nat :: i < |claims| ==> claims[i] == 0
    {
      unclaimed, paid := budget, budget;
      claims := seq(|votes|, (i: nat) => 0);
      TotalZero(claims);
      if !allowsCuration {
        unclaimed, paid := 0, 0;
      } else if totalWeight > 0 {
        claims, unclaimed := Claim(votes, budget, totalWeight);
      }
      paid := paid - unclaimed;
    }
  }

  /** Everyone's part of the budget, rounded down, and what is left of it. */
  method Claim(votes: seq<Vote>, budget: nat, total: nat) returns (claims: seq<nat>, left: int)
    requires total > 0 && Weights(votes) <= total
    ensures |claims| == |votes| && left == budget - Total(claims) && left >= 0
    ensures forall i: nat :: i < |claims| ==> IsPart(claims[i], budget, votes[i].weight, total)
  {
    hide IsPart, Total, Weights;
    claims, left := [], budget;
    NothingYet(votes, budget, total);
    for i := 0 to |votes|
      invariant |claims| == i && left == budget - Total(claims)
      invariant forall j: nat :: j < i ==> IsPart(claims[j], budget, votes[j].weight, total)
      invariant Total(claims) * total <= budget * Weights(votes[..i])
    {
      var claim := budget * votes[i].weight / total;
      ClaimStep(votes, i, claims, claim, budget, total);
      left := left - claim;
      claims := claims + [claim];
    }
    assert votes[..|votes|] == votes;
    MulMono(budget, budget, Weights(votes), total);
    MulLe(Total(claims), budget, total);
  }

  /** `claim` is `budget * weight / total`, rounded down. */
  ghost predicate IsPart(claim: nat, budget: nat, weight: nat, total: nat) {
    claim * total <= budget * weight < (claim + 1) * total
  }

  lemma NothingYet(votes: seq<Vote>, budget: nat, total: nat)
    ensures Total([]) == 0 && Total([]) * total <= budget * Weights(votes[..0])
  {
  }

  ghost function Total(s: seq<nat>): nat {
    if s == [] then 0 else Total(s[..|s| - 1]) + s[|s| - 1]
  }

  lemma {:induction false} TotalZero(s: seq<nat>)
    requires forall i: nat :: i < |s| ==> s[i] == 0
    ensures Total(s) == 0
    decreases |s|
  {
    if s != [] {
      TotalZero(s[..|s| - 1]);
    }
  }

  lemma {:induction false} ClaimStep(votes: seq<Vote>, i: nat, claims: seq<nat>, claim: nat, budget: nat, total: nat)
    requires i < |votes| && total > 0 && claim == budget * votes[i].weight / total
    requires Total(claims) * total <= budget * Weights(votes[..i])
    ensures IsPart(claim, budget, votes[i].weight, total)
    ensures Total(claims + [claim]) == Total(claims) + claim
    ensures Total(claims + [claim]) * total <= budget * Weights(votes[..i + 1])
  {
    hide IsPart;
    assert (claims + [claim])[..|claims|] == claims;
    assert votes[..i + 1][..i] == votes[..i];
    assert Weights(votes[..i + 1]) == Weights(votes[..i]) + votes[i].weight;
    PartsAdd(Total(claims), claim, budget, Weights(votes[..i]), votes[i].weight, total);
  }

  lemma PartsAdd(sum: nat, claim: nat, budget: nat, weights: nat, weight: nat, total: nat)
    requires total > 0 && claim == budget * weight / total && sum * total <= budget * weights
    ensures IsPart(claim, budget, weight, total) && (sum + claim) * total <= budget * (weights + weight)
  {
    DivBound(budget * weight, total, claim);
    assert (claim + 1) * total == claim * total + total;
    assert budget * (weights + weight) == budget * weights + budget * weight;
    assert (sum + claim) * total == sum * total + claim * total;
  }

  /** Nobody else's vote changes. */
  ghost predicate Others(before: seq<Vote>, after: seq<Vote>, voter: nat) {
    forall v: Vote :: v.voter != voter ==> (v in before <==> v in after)
  }

  /** All votes but the voter's. */
  ghost predicate Apart(votes: seq<Vote>, others: seq<Vote>, voter: nat) {
    && OnePerVoter(others) && (forall i: nat :: i < |others| ==> others[i].voter != voter)
    && Others(votes, others, voter)
  }

  lemma WordSmall(x: int)
    requires 0 <= x
    ensures x < WORD ==> x % WORD == x
  {
  }

  lemma AddVoter(votes: seq<Vote>, others: seq<Vote>, cast: Vote)
    requires Apart(votes, others, cast.voter)
    ensures OnePerVoter(others + [cast]) && Others(votes, others + [cast], cast.voter)
  {
  }

  lemma WithoutVoter(votes: seq<Vote>, at: Option<nat>, voter: nat)
    requires OnePerVoter(votes) && (at.Some? ==> at.value < |votes| && votes[at.value].voter == voter)
    requires at.None? ==> forall i: nat :: i < |votes| ==> votes[i].voter != voter
    ensures Apart(votes, if at.Some? then Drop(votes, at.value) else votes, voter)
  {
    hide Drop;
    if at.Some? {
      var i, others := at.value, Drop(votes, at.value);
      DropAt(votes, i, 0);
      forall k: nat | k < |others| ensures others[k] == votes[if k < i then k else k + 1] {
        DropAt(votes, i, k);
      }
      forall v: Vote | v.voter != voter ensures v in votes <==> v in others {
        DropKeeps(votes, i, v);
      }
    }
  }

  lemma DropAt(votes: seq<Vote>, i: nat, k: nat)
    requires i < |votes|
    ensures |Drop(votes, i)| == |votes| - 1
    ensures k < |Drop(votes, i)| ==> Drop(votes, i)[k] == votes[if k < i then k else k + 1]
  {
  }

  lemma DropKeeps(votes: seq<Vote>, i: nat, v: Vote)
    requires i < |votes| && v != votes[i]
    ensures v in votes <==> v in Drop(votes, i)
  {
    assert votes == votes[..i] + [votes[i]] + votes[i + 1..];
  }

  /** A vote cast on top of all others stacks, so the curve bounds its weight and theirs together. */
  lemma {:induction false} CastStacks(others: seq<Vote>, cast: Vote, curve: nat -> nat)
    requires Curve(curve) && Stacked(others, curve)
    requires cast.weight <= Gain(curve, Shares(others), Positive(cast.rshares))
    ensures Stacked(others + [cast], curve) && Weights(others + [cast]) <= curve(Shares(others + [cast]))
  {
    StackedSnoc(others, cast, curve);
    StackedSum(others + [cast], curve);
  }
}
