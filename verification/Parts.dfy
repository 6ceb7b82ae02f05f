// The parts of the power-downs that are due, in the order in which they are due.

module Parts {
  import opened Common
  import opened OrderBook
  import opened Vesting
  import opened Tokens

  /** The next part of `j` is due before that of `k`; accounts are numbered in the order of their names. */
  predicate Sooner(accs: seq<Account>, j: nat, k: nat) {
    && j < |accs| && k < |accs| && accs[j].power.Active? && accs[k].power.Active?
    && (accs[j].power.next < accs[k].power.next || (accs[j].power.next == accs[k].power.next && j < k))
  }

  /** Account `k` powers down and comes after the one served last. */
  predicate Ahead(accs: seq<Account>, last: Option<nat>, k: nat) {
    k < |accs| && accs[k].power.Active? && (last.Some? ==> Sooner(accs, last.value, k))
  }

  /** Who is served after `last`: the first one ahead, as long as that one is due. */
  ghost predicate ComesNext(accs: seq<Account>, last: Option<nat>, next: Option<nat>, now: nat) {
    if next.Some?
    then && Ahead(accs, last, next.value) && DuePower(accs[next.value].power, now)
         && (forall j: nat :: Ahead(accs, last, j) ==> !Sooner(accs, j, next.value))
    else forall j: nat :: Ahead(accs, last, j) ==> !DuePower(accs[j].power, now)
  }

  /** One part of the power-down of `who` is paid, and nothing else happens. */
  ghost predicate Pays(s: Snapshot, s': Snapshot, who: nat) {
    && PartPaid(s.accounts, s.purses, s.g, s'.accounts, s'.purses, s'.g, s.routes, who)
    && s' == s.(accounts := s'.accounts, purses := s'.purses, g := s'.g)
  }

  function LastOf(who: seq<nat>): Option<nat> {
    if who == [] then None else Some(who[|who| - 1])
  }

  /**
   * The parts paid so far, to the accounts `who`, with the state before each of them and after the
   * last, and who is to come next. Who comes next is looked up before the part is paid.
   */
  ghost predicate Served(now: nat, who: seq<nat>, states: seq<Snapshot>, next: Option<nat>) {
    && |states| == |who| + 1
    && (forall i: nat :: i < |who| ==> Pays(states[i], states[i + 1], who[i]))
    && (forall i: nat :: i < |who| ==> ComesNext(Before(states, i).accounts, LastOf(who[..i]), Some(who[i]), now))
    && ComesNext(Before(states, |who|).accounts, LastOf(who), next, now)
  }

  /** The state in which the successor of the first `i` was looked up. */
  ghost function Before(states: seq<Snapshot>, i: nat): Snapshot
    requires i < |states|
  {
    if i == 0 then states[0] else states[i - 1]
  }

  lemma ServedNone(now: nat, s: Snapshot, next: Option<nat>)
    requires ComesNext(s.accounts, None, next, now)
    ensures Served(now, [], [s], next)
  {
  }

  lemma ServedMore(now: nat, who: seq<nat>, states: seq<Snapshot>, k: nat, s: Snapshot, next: Option<nat>)
    requires Served(now, who, states, Some(k)) && Pays(states[|who|], s, k)
    requires ComesNext(states[|who|].accounts, Some(k), next, now)
    ensures Served(now, who + [k], states + [s], next)
  {
    hide Pays, ComesNext;
    var who', states' := who + [k], states + [s];
    forall i: nat | i < |who'|
      ensures Pays(states'[i], states'[i + 1], who'[i])
      ensures ComesNext(Before(states', i).accounts, LastOf(who'[..i]), Some(who'[i]), now)
    {
      if i < |who| {
        assert Pays(states[i], states[i + 1], who[i]);
        assert ComesNext(Before(states, i).accounts, LastOf(who[..i]), Some(who[i]), now);
        assert who'[..i] == who[..i];
      } else {
        assert who'[..i] == who;
      }
    }
  }

  lemma {:induction false} ServedSizes(now: nat, who: seq<nat>, states: seq<Snapshot>, next: Option<nat>, i: nat)
    requires Served(now, who, states, next) && i < |states|
    ensures |states[i].accounts| == |states[0].accounts| && states[i].routes == states[0].routes
    decreases i
  {
    if i > 0 {
      ServedSizes(now, who, states, next, i - 1);
      assert Pays(states[i - 1], states[i], who[i - 1]);
    }
  }

  /** Paying a part moves the power-down of the one paid and of nobody else. */
  lemma OthersWait(s: Snapshot, s': Snapshot, who: nat, j: nat)
    requires Pays(s, s', who) && j < |s.accounts| && j != who
    ensures |s'.accounts| == |s.accounts| && s'.accounts[j].power == s.accounts[j].power
  {
  }

  /** After `i` parts: who was served was due, and who was due and has not been served is still ahead. */
  ghost predicate Halfway(now: nat, who: seq<nat>, states: seq<Snapshot>, i: nat, j: nat)
    requires i <= |who| && |states| == |who| + 1
  {
    var start := states[0].accounts;
    && j < |start| && |states[i].accounts| == |start| && |Before(states, i).accounts| == |start|
    && (j in who[..i] ==> DuePower(start[j].power, now))
    && (j !in who[..i] ==> states[i].accounts[j].power == Before(states, i).accounts[j].power == start[j].power)
    && (j !in who[..i] && DuePower(start[j].power, now) ==> Ahead(Before(states, i).accounts, LastOf(who[..i]), j))
  }

  lemma ServedLength(now: nat, who: seq<nat>, states: seq<Snapshot>, next: Option<nat>)
    requires Served(now, who, states, next)
    ensures |states| == |who| + 1
  {
  }

  lemma HalfwayStart(now: nat, who: seq<nat>, states: seq<Snapshot>, j: nat)
    requires |states| == |who| + 1 && j < |states[0].accounts|
    ensures Halfway(now, who, states, 0, j)
  {
  }

  lemma {:induction false} HalfwayThere(now: nat, who: seq<nat>, states: seq<Snapshot>, next: Option<nat>, i: nat,
                                        j: nat)
    requires Served(now, who, states, next) && i <= |who| && j < |states[0].accounts|
    ensures Halfway(now, who, states, i, j)
    decreases i
  {
    hide Served, Halfway;
    ServedLength(now, who, states, next);
    if i == 0 {
      HalfwayStart(now, who, states, j);
    } else {
      HalfwayThere(now, who, states, next, i - 1, j);
      HalfwayStep(now, who, states, next, i - 1, j);
    }
  }

  lemma StillAhead(here: seq<Account>, there: seq<Account>, last: Option<nat>, k: nat, j: nat, now: nat)
    requires |there| == |here| && ComesNext(here, last, Some(k), now) && Ahead(here, last, j) && j != k
    requires there[k].power == here[k].power && there[j].power == here[j].power
    ensures Ahead(there, Some(k), j)
  {
    assert !Sooner(here, j, k);
  }

  /** The one who comes next was not moved by the part paid after it was looked up. */
  lemma LookedUp(now: nat, who: seq<nat>, states: seq<Snapshot>, next: Option<nat>, i: nat)
    requires Served(now, who, states, next) && i < |who|
    ensures var here, there := Before(states, i).accounts, states[i].accounts;
            && |states| == |who| + 1 && |there| == |here| == |states[i + 1].accounts| == |states[0].accounts|
            && who[i] < |here| && there[who[i]].power == here[who[i]].power && DuePower(here[who[i]].power, now)
            && ComesNext(here, LastOf(who[..i]), Some(who[i]), now) && Pays(states[i], states[i + 1], who[i])
  {
    hide PartPaid;
    var k, here := who[i], Before(states, i).accounts;
    ServedSizes(now, who, states, next, i);
    ServedSizes(now, who, states, next, i + 1);
    assert ComesNext(here, LastOf(who[..i]), Some(k), now);
    if i > 0 {
      ServedSizes(now, who, states, next, i - 1);
      assert who[..i][i - 1] == who[i - 1] && Pays(states[i - 1], states[i], who[i - 1]);
      OthersWait(states[i - 1], states[i], who[i - 1], k);
    }
  }

  lemma OneServed(who: seq<nat>, i: nat, j: nat)
    requires i < |who|
    ensures j in who[..i + 1] <==> j in who[..i] || j == who[i]
    ensures LastOf(who[..i + 1]) == Some(who[i])
  {
    assert who[..i + 1] == who[..i] + [who[i]];
  }

  lemma HalfwayStep(now: nat, who: seq<nat>, states: seq<Snapshot>, next: Option<nat>, i: nat, j: nat)
    requires Served(now, who, states, next) && i < |who| && Halfway(now, who, states, i, j)
    ensures Halfway(now, who, states, i + 1, j)
  {
    hide Pays, Served, ComesNext, Ahead, Sooner, LastOf, DuePower;
    var k := who[i];
    LookedUp(now, who, states, next, i);
    OneServed(who, i, j);
    if j != k {
      OthersWait(states[i], states[i + 1], k, j);
      if j !in who[..i] && DuePower(states[0].accounts[j].power, now) {
        StillAhead(Before(states, i).accounts, states[i].accounts, LastOf(who[..i]), k, j, now);
      }
    }
  }

  /** Exactly those whose part was due at the start are served. */
  lemma AllServed(now: nat, who: seq<nat>, states: seq<Snapshot>, j: nat)
    requires Served(now, who, states, None) && j < |states[0].accounts|
    ensures j in who <==> DuePower(states[0].accounts[j].power, now)
  {
    HalfwayThere(now, who, states, None, |who|, j);
    assert who[..|who|] == who;
  }

  /** What all the parts together do to the fund. */
  ghost predicate FundKept(g: Globals, g': Globals) {
    && (Backed(g.fund, g.shares) ==> Backed(g'.fund, g'.shares) && NoCheaper(g.fund, g.shares, g'.fund, g'.shares) &&
                                     (g.shares == 0 ==> PoolOf(g') == PoolOf(g)))
    && g' == g.(fund := g'.fund, shares := g'.shares)
  }

  /** A backed fund stays backed by one more part, and a VEST in it is worth no less. */
  lemma FundKeptMore(g: Globals, s: Snapshot, s': Snapshot, who: nat)
    requires FundKept(g, s.g) && Pays(s, s', who) && RoutesIn(s.routes, |s.accounts|)
    requires who < |s.accounts| && s.accounts[who].vests <= s.g.shares
    ensures FundKept(g, s'.g)
  {
    hide PartPaid, NoCheaper, RoutesIn;
    PartFrame(s.accounts, s.purses, s.g, s'.accounts, s'.purses, s'.g, s.routes, who);
    if Backed(g.fund, g.shares) {
      PartExact(s.accounts, s.purses, s.g, s'.accounts, s'.purses, s'.g, s.routes, who);
      PartStill(s.accounts, s.purses, s.g, s'.accounts, s'.purses, s'.g, s.routes, who);
      KeepGoing(g.fund, g.shares, s.g.fund, s.g.shares, s'.g.fund, s'.g.shares);
    }
  }

  lemma PartFrame(accs: seq<Account>, p: seq<Purse>, g: Globals, accs': seq<Account>, p': seq<Purse>, g': Globals,
                  routes: seq<Route>, who: nat)
    requires PartPaid(accs, p, g, accs', p', g', routes, who)
    ensures |accs'| == |accs| && g' == g.(fund := g'.fund, shares := g'.shares)
  {
  }

  lemma FundSame(g: Globals)
    ensures FundKept(g, g)
  {
  }

  lemma FundBacked(g: Globals, g': Globals)
    requires FundKept(g, g') && Backed(g.fund, g.shares)
    ensures Backed(g'.fund, g'.shares)
  {
  }

  lemma NextIs(accs: seq<Account>, last: Option<nat>, next: Option<nat>, now: nat)
    requires ComesNext(accs, last, next, now)
    ensures next.Some? ==> next.value < |accs| && DuePower(accs[next.value].power, now) &&
                           (last.Some? ==> Sooner(accs, last.value, next.value))
  {
  }

  lemma PaysOne(s: Snapshot, s': Snapshot, who: nat)
    requires PartPaid(s.accounts, s.purses, s.g, s'.accounts, s'.purses, s'.g, s.routes, who)
    requires s' == s.(accounts := s'.accounts, purses := s'.purses, g := s'.g)
    ensures Pays(s, s', who)
  {
  }
}
