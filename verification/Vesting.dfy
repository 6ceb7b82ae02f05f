// The price of VESTS, and the routes and rates of a power-down.

module Vesting {
  import opened Arith
  import opened Common

  const HUNDRED_PERCENT := 10000
  const MAX_ROUTES := 10                  // HIVE_MAX_WITHDRAW_ROUTES
  const INTERVALS := 13                   // HIVE_VESTING_WITHDRAW_INTERVALS
  const LEAST_PAID := 1000                // the least amount of VESTS the fixed price pays anything for

  // ---- the price ----

  /** The price is a fixed one while the fund or the shares are empty, and there is none with a negative amount. */
  predicate Priced(fund: int, shares: int) {
    fund == 0 || shares == 0 || (fund > 0 && shares > 0)
  }

  /** Nothing is owed: where there are shares there is something in the fund. */
  predicate Backed(fund: int, shares: int) {
    fund >= 0 && shares >= 0 && (shares > 0 ==> fund > 0)
  }

  /** VESTS and HIVE of the share price. */
  function SharePrice(fund: int, shares: int): (r: (nat, nat))
    requires Priced(fund, shares)
    ensures r.0 > 0 && r.1 > 0
  {
    if fund == 0 || shares == 0 then (1000000, 1000) else (shares, fund)
  }

  function ToVests(hive: nat, fund: int, shares: int): nat
    requires Priced(fund, shares)
  {
    var (v, h) := SharePrice(fund, shares);
    hive * v / h
  }

  function ToHive(vests: nat, fund: int, shares: int): nat
    requires Priced(fund, shares)
  {
    var (v, h) := SharePrice(fund, shares);
    vests * h / v
  }

  /**
   * `hive` is what `vests` are worth, rounded down: their part of the fund, or at the fixed price
   * one of HIVE for every 1000 VESTS.
   */
  ghost predicate Worth(hive: int, vests: nat, fund: int, shares: int) {
    if fund > 0 && shares > 0 then Quotient(hive, vests * fund, shares) else Quotient(hive, vests, LEAST_PAID)
  }

  /**
   * `vests` is what `hive` buys, rounded down: the same part of the shares as it is of the fund, or
   * 1000 VESTS each.
   */
  ghost predicate Buys(vests: int, hive: nat, fund: int, shares: int) {
    if fund > 0 && shares > 0 then Quotient(vests, hive * shares, fund) else vests == hive * LEAST_PAID
  }

  lemma ToHiveIs(vests: nat, fund: int, shares: int)
    requires Priced(fund, shares)
    ensures Worth(ToHive(vests, fund, shares), vests, fund, shares)
  {
    var (v, h) := SharePrice(fund, shares);
    QuotientIs(vests * h, v);
  }

  lemma ToVestsIs(hive: nat, fund: int, shares: int)
    requires Priced(fund, shares)
    ensures Buys(ToVests(hive, fund, shares), hive, fund, shares)
  {
    var (v, h) := SharePrice(fund, shares);
    QuotientIs(hive * v, h);
  }

  /** One VEST is backed by no less HIVE than before. */
  ghost predicate NoCheaper(fund: int, shares: int, fund': int, shares': int) {
    fund * shares' <= fund' * shares
  }

  /** Buying VESTS at their price never lowers what one is worth. */
  lemma VestingKeepsPrice(hive: nat, fund: nat, shares: nat)
    requires fund > 0 && shares > 0
    ensures NoCheaper(fund, shares, fund + hive, shares + ToVests(hive, fund, shares))
    ensures Buys(ToVests(hive, fund, shares), hive, fund, shares)
  {
    var v := ToVests(hive, fund, shares);
    ToVestsIs(hive, fund, shares);
    assert fund * (shares + v) == fund * shares + v * fund;
    assert (fund + hive) * shares == fund * shares + hive * shares;
  }

  /** Cashing in VESTS for what they are worth never makes one worth less, and never takes more than the fund. */
  lemma WithdrawingKeepsPrice(vests: nat, fund: nat, shares: nat)
    requires fund > 0 && shares > 0 && vests <= shares
    ensures NoCheaper(fund, shares, fund - ToHive(vests, fund, shares), shares - vests)
    ensures ToHive(vests, fund, shares) <= fund && (vests < shares ==> ToHive(vests, fund, shares) < fund)
    ensures Worth(ToHive(vests, fund, shares), vests, fund, shares)
  {
    var h := ToHive(vests, fund, shares);
    ToHiveIs(vests, fund, shares);
    assert fund * (shares - vests) == fund * shares - vests * fund;
    assert (fund - h) * shares == fund * shares - h * shares;
    MulMono(vests, shares, fund, fund);
    assert shares * fund == fund * shares;
    MulLe(h, fund, shares);
    if vests < shares {
      MulMono(vests + 1, shares, fund, fund);
      assert (vests + 1) * fund == vests * fund + fund;
      MulLe(fund, h, shares);
    }
  }

  lemma NoCheaperTransitive(f0: nat, s0: nat, f1: nat, s1: nat, f2: int, s2: nat)
    requires s1 > 0 && NoCheaper(f0, s0, f1, s1) && NoCheaper(f1, s1, f2, s2)
    ensures NoCheaper(f0, s0, f2, s2)
  {
    // f0 * s1 <= f1 * s0 and f1 * s2 <= f2 * s1
    if s2 > 0 {
      MulLe(f0 * s1, f1 * s0, s2);
    }
    assert f0 * s1 * s2 <= f1 * s0 * s2;
    if s0 > 0 {
      MulLe(f1 * s2, f2 * s1, s0);
    }
    assert f1 * s2 * s0 <= f2 * s1 * s0;
    assert f1 * s0 * s2 == f1 * s2 * s0;
    assert f0 * s1 * s2 == f0 * s2 * s1 && f2 * s1 * s0 == f2 * s0 * s1;
    MulLe(f0 * s2, f2 * s0, s1);
  }

  // ---- the rate ----

  /** The weekly rate of a power-down: never zero, and the number of weeks always suffices. */
  function Rate(vests: nat): (r: nat)
    ensures r > 0 && r * INTERVALS >= vests && (vests > 0 ==> (r - 1) * INTERVALS < vests) && (vests == 0 ==> r == 1)
  {
    var base := if vests / INTERVALS == 0 then 1 else vests / INTERVALS;
    if base * INTERVALS < vests then base + 1 else base
  }

  // ---- routes ----

  datatype Route = Route(from: nat, dest: nat, percent: nat, autoVest: bool)

  /** Percent allocated by an account, in hundredths. */
  ghost function Allocated(routes: seq<Route>, from: nat): nat {
    if routes == [] then 0
    else Allocated(routes[..|routes| - 1], from) + Share(routes[|routes| - 1], from)
  }

  ghost function Share(r: Route, from: nat): nat {
    if r.from == from then r.percent else 0
  }

  ghost function Count(routes: seq<Route>, from: nat): nat {
    if routes == [] then 0
    else Count(routes[..|routes| - 1], from) + if routes[|routes| - 1].from == from then 1 else 0
  }

  lemma {:induction false} AllocatedUpdate(routes: seq<Route>, i: nat, r: Route, from: nat)
    requires i < |routes| && r.from == routes[i].from
    ensures Allocated(routes[i := r], from) == Allocated(routes, from) - Share(routes[i], from) + Share(r, from)
    ensures Count(routes[i := r], from) == Count(routes, from)
    decreases |routes|
  {
    var n := |routes| - 1;
    if i < n {
      assert routes[i := r][..n] == routes[..n][i := r];
      AllocatedUpdate(routes[..n], i, r, from);
    } else {
      assert routes[i := r][..n] == routes[..n];
    }
  }

  lemma {:induction false} AllocatedSnoc(routes: seq<Route>, r: Route, from: nat)
    ensures Allocated(routes + [r], from) == Allocated(routes, from) + Share(r, from)
    ensures Count(routes + [r], from) == Count(routes, from) + if r.from == from then 1 else 0
  {
    assert (routes + [r])[..|routes|] == routes;
  }

  lemma {:induction false} AllocatedWithout(routes: seq<Route>, i: nat, from: nat)
    requires i < |routes|
    ensures Allocated(Drop(routes, i), from) == Allocated(routes, from) - Share(routes[i], from)
    ensures Count(Drop(routes, i), from) == Count(routes, from) - if routes[i].from == from then 1 else 0
    decreases |routes|
  {
    var n := |routes| - 1;
    if i == n {
      assert Drop(routes, i) == routes[..n];
    } else {
      assert Drop(routes, i)[..n - 1] == Drop(routes[..n], i);
      AllocatedWithout(routes[..n], i, from);
    }
  }

  /** Every account allocates at most 100%, over at most ten routes, each to another place and of at least 0.01%. */
  ghost predicate RoutesOk(routes: seq<Route>) {
    && (forall from: nat :: Allocated(routes, from) <= HUNDRED_PERCENT && Count(routes, from) <= MAX_ROUTES)
    && (forall i: nat :: i < |routes| ==> 0 < routes[i].percent <= HUNDRED_PERCENT)
    && OnePerPair(routes)
  }

  ghost predicate Has(routes: seq<Route>, from: nat, dest: nat) {
    exists i: nat :: i < |routes| && routes[i].from == from && routes[i].dest == dest
  }

  /** What is allocated from one account to one place. */
  ghost function Present(routes: seq<Route>, from: nat, dest: nat): nat {
    if routes == [] then 0
    else
      var r := routes[|routes| - 1];
      if r.from == from && r.dest == dest then r.percent else Present(routes[..|routes| - 1], from, dest)
  }

  ghost predicate OnePerPair(routes: seq<Route>) {
    forall i: nat, j: nat :: i < j < |routes| ==> routes[i].from != routes[j].from || routes[i].dest != routes[j].dest
  }

  lemma {:induction false} PresentAt(routes: seq<Route>, k: nat, from: nat, dest: nat)
    requires OnePerPair(routes) && k < |routes| && routes[k].from == from && routes[k].dest == dest
    ensures Present(routes, from, dest) == routes[k].percent
    decreases |routes|
  {
    if k < |routes| - 1 {
      PresentAt(routes[..|routes| - 1], k, from, dest);
    }
  }

  lemma {:induction false} PresentNot(routes: seq<Route>, from: nat, dest: nat)
    requires !Has(routes, from, dest)
    ensures Present(routes, from, dest) == 0
    decreases |routes|
  {
    if routes != [] {
      var n := |routes| - 1;
      assert !(routes[n].from == from && routes[n].dest == dest);
      PresentNot(routes[..n], from, dest);
    }
  }

  method Find(routes: seq<Route>, from: nat, dest: nat) returns (r: Option<nat>)
    ensures r.Some? ==> r.value < |routes| && routes[r.value].from == from && routes[r.value].dest == dest
    ensures r.None? <==> !Has(routes, from, dest)
  {
    for i := 0 to |routes|
      invariant forall j: nat :: j < i ==> routes[j].from != from || routes[j].dest != dest
    {
      if routes[i].from == from && routes[i].dest == dest {
        return Some(i);
      }
    }
    return None;
  }

  method CountRoutes(routes: seq<Route>, from: nat) returns (n: nat)
    ensures n == Count(routes, from)
  {
    n := 0;
    for i := 0 to |routes|
      invariant n == Count(routes[..i], from)
    {
      assert routes[..i + 1][..i] == routes[..i];
      if routes[i].from == from {
        n := n + 1;
      }
    }
    assert routes[..|routes|] == routes;
  }

  lemma {:induction false} AllocatedPart(routes: seq<Route>, n: nat, from: nat)
    requires n <= |routes|
    ensures Allocated(routes[..n], from) <= Allocated(routes, from)
    decreases |routes|
  {
    if n < |routes| {
      var init := routes[..|routes| - 1];
      assert init[..n] == routes[..n];
      AllocatedPart(init, n, from);
    } else {
      assert routes[..n] == routes;
    }
  }

  const WORD16 := 0x1_0000

  /** Adds up an account's percentages in 16 bits; below the word size that is the true sum. */
  method AddUp(routes: seq<Route>, from: nat) returns (total: nat)
    requires Allocated(routes, from) < WORD16
    ensures total == Allocated(routes, from)
  {
    total := 0;
    for i := 0 to |routes|
      invariant total == Allocated(routes[..i], from)
    {
      assert routes[..i + 1][..i] == routes[..i];
      AllocatedPart(routes, i + 1, from);
      if routes[i].from == from {
        total := (total + routes[i].percent) % WORD16;
      }
    }
    assert routes[..|routes|] == routes;
  }

  /** The routes an operation asks for, before the total is checked; none when it is refused outright. */
  function Proposed(routes: seq<Route>, at: Option<nat>, r: Route): seq<Route>
    requires at.Some? ==> at.value < |routes|
  {
    if at.None? then routes + [r] else if r.percent == 0 then Drop(routes, at.value) else routes[at.value := r]
  }

  lemma {:induction false} ProposedTotals(routes: seq<Route>, at: Option<nat>, r: Route, from: nat)
    requires OnePerPair(routes) &&
             (at.Some? ==> at.value < |routes| && routes[at.value].from == r.from && routes[at.value].dest == r.dest)
    requires at.None? ==> !Has(routes, r.from, r.dest) && r.percent > 0
    ensures Allocated(Proposed(routes, at, r), from) ==
              Allocated(routes, from) + if from == r.from then r.percent - Present(routes, from, r.dest) else 0
    ensures Count(Proposed(routes, at, r), from) ==
              Count(routes, from) + if from != r.from || (at.Some? && r.percent > 0) then 0
                                    else if at.None? then 1 else -1
  {
    if at.None? {
      AllocatedSnoc(routes, r, from);
      PresentNot(routes, r.from, r.dest);
    } else {
      PresentAt(routes, at.value, r.from, r.dest);
      if r.percent == 0 {
        AllocatedWithout(routes, at.value, from);
      } else {
        AllocatedUpdate(routes, at.value, r, from);
      }
    }
  }

  lemma {:induction false} ProposedOk(routes: seq<Route>, at: Option<nat>, r: Route)
    requires RoutesOk(routes) && r.percent <= HUNDRED_PERCENT
    requires at.Some? ==> at.value < |routes| && routes[at.value].from == r.from && routes[at.value].dest == r.dest
    requires at.None? ==> !Has(routes, r.from, r.dest) && r.percent > 0 && Count(routes, r.from) < MAX_ROUTES
    ensures var p := Proposed(routes, at, r);
            && (forall i: nat :: i < |p| ==> 0 < p[i].percent <= HUNDRED_PERCENT) && OnePerPair(p)
            && (Allocated(p, r.from) <= HUNDRED_PERCENT ==> RoutesOk(p))
  {
    hide Allocated, Count, Present;
    var p := Proposed(routes, at, r);
    forall from: nat ensures Allocated(p, from) <= HUNDRED_PERCENT || from == r.from {
      ProposedTotals(routes, at, r, from);
    }
    forall from: nat ensures Count(p, from) <= MAX_ROUTES {
      ProposedTotals(routes, at, r, from);
    }
  }

  /** Every other route is as before, and this one is as asked for. */
  ghost predicate RouteSet(before: seq<Route>, after: seq<Route>, r: Route) {
    && (forall x: Route :: x.from != r.from || x.dest != r.dest ==> (x in after <==> x in before))
    && (if r.percent > 0 then r in after else !Has(after, r.from, r.dest))
  }

  lemma ProposedSets(routes: seq<Route>, at: Option<nat>, r: Route)
    requires OnePerPair(routes) &&
             (at.Some? ==> at.value < |routes| && routes[at.value].from == r.from && routes[at.value].dest == r.dest)
    requires at.None? ==> !Has(routes, r.from, r.dest) && r.percent > 0
    ensures RouteSet(routes, Proposed(routes, at, r), r)
  {
    var p := Proposed(routes, at, r);
    if at.Some? {
      var k := at.value;
      assert routes == routes[..k] + [routes[k]] + routes[k + 1..];
      if r.percent > 0 {
        assert p == routes[..k] + [r] + routes[k + 1..];
      }
    }
  }

  /** Within 100% with the change, and one route too many neither to be removed nor to be added. */
  ghost predicate MayRoute(routes: seq<Route>, r: Route) {
    && Allocated(routes, r.from) - Present(routes, r.from, r.dest) + r.percent <= HUNDRED_PERCENT
    && (Has(routes, r.from, r.dest) || (r.percent > 0 && Count(routes, r.from) < MAX_ROUTES))
  }

  /**
   * Sets, changes or, at zero percent, removes a route; refused when that would allocate more
   * than 100%, name a route that is not there to be removed, or be one route too many.
   */
  method SetRoute(routes: seq<Route>, r: Route) returns (ok: bool, after: seq<Route>)
    requires RoutesOk(routes) && r.percent <= HUNDRED_PERCENT          // what the operation's own validation demands
    ensures RoutesOk(after) && (!ok ==> after == routes) && (ok ==> RouteSet(routes, after, r))
    ensures ok <==> MayRoute(routes, r)
  {
    hide Allocated, Count, Present, RouteSet;
    var at := Find(routes, r.from, r.dest);
    if at.None? {
      var count := CountRoutes(routes, r.from);
      if r.percent == 0 || count >= MAX_ROUTES {
        return false, routes;
      }
    }
    ProposedTotals(routes, at, r, r.from);
    ProposedOk(routes, at, r);
    ProposedSets(routes, at, r);
    after := Proposed(routes, at, r);
    var total := AddUp(after, r.from);
    if total > HUNDRED_PERCENT {
      return false, routes;
    }
    ok := true;
  }

  // ---- what a round deposits along the routes ----

  /** Deposits of the first `n` routes of an account, for the VESTS `amount` withdrawn. */
  ghost function Deposits(routes: seq<Route>, from: nat, amount: nat): nat {
    if routes == [] then 0
    else Deposits(routes[..|routes| - 1], from, amount) + Deposit(routes[|routes| - 1], from, amount)
  }

  function Deposit(r: Route, from: nat, amount: nat): nat {
    if r.from == from then amount * r.percent / HUNDRED_PERCENT else 0
  }

  /** The part of `amount` that a route of this account takes, rounded down. */
  ghost predicate Takes(d: int, r: Route, from: nat, amount: nat) {
    if r.from == from then Quotient(d, amount * r.percent, HUNDRED_PERCENT) else d == 0
  }

  lemma DepositIs(r: Route, from: nat, amount: nat)
    ensures Takes(Deposit(r, from, amount), r, from, amount)
  {
    QuotientIs(amount * r.percent, HUNDRED_PERCENT);
  }

  /** Deposits never exceed what is withdrawn. */
  lemma {:induction false} DepositsBounded(routes: seq<Route>, from: nat, amount: nat)
    ensures Deposits(routes, from, amount) * HUNDRED_PERCENT <= amount * Allocated(routes, from)
    decreases |routes|
  {
    if routes != [] {
      var n := |routes| - 1;
      DepositsBounded(routes[..n], from, amount);
      var r := routes[n];
      if r.from == from {
        DivBound(amount * r.percent, HUNDRED_PERCENT, amount * r.percent / HUNDRED_PERCENT);
        assert amount * (Allocated(routes[..n], from) + r.percent) == amount * Allocated(routes[..n], from) +
                 amount * r.percent;
      }
    }
  }

  lemma {:induction false} DepositsWithin(routes: seq<Route>, from: nat, amount: nat)
    requires RoutesOk(routes)
    ensures Deposits(routes, from, amount) <= amount
  {
    DepositsBounded(routes, from, amount);
    MulMono(amount, amount, Allocated(routes, from), HUNDRED_PERCENT);
    MulLe(Deposits(routes, from, amount), amount, HUNDRED_PERCENT);
  }

  /** Deposits along the routes of one kind. */
  ghost function DepositsBy(routes: seq<Route>, from: nat, amount: nat, autoVest: bool): nat {
    if routes == [] then 0
    else DepositsBy(routes[..|routes| - 1], from, amount, autoVest) +
           DepositBy(routes[|routes| - 1], from, amount, autoVest)
  }

  function DepositBy(r: Route, from: nat, amount: nat, autoVest: bool): nat {
    if r.autoVest == autoVest then Deposit(r, from, amount) else 0
  }

  lemma {:induction false} DepositsByKind(routes: seq<Route>, from: nat, amount: nat)
    ensures DepositsBy(routes, from, amount, true) + DepositsBy(routes, from, amount, false) ==
              Deposits(routes, from, amount)
    decreases |routes|
  {
    if routes != [] {
      DepositsByKind(routes[..|routes| - 1], from, amount);
    }
  }

  /** What the first routes deposit, and the next one on top of them, is within what all do. */
  lemma {:induction false} DepositsStep(routes: seq<Route>, i: nat, from: nat, amount: nat, autoVest: bool)
    requires i < |routes|
    ensures DepositsBy(routes[..i + 1], from, amount, autoVest) ==
              DepositsBy(routes[..i], from, amount, autoVest) + DepositBy(routes[i], from, amount, autoVest)
    ensures DepositsBy(routes[..i + 1], from, amount, autoVest) <= DepositsBy(routes, from, amount, autoVest)
    decreases |routes|
  {
    var init := routes[..|routes| - 1];
    assert routes[..i + 1][..i] == routes[..i];
    if i + 1 < |routes| {
      assert init[..i + 1] == routes[..i + 1] && init[..i] == routes[..i];
      DepositsStep(init, i, from, amount, autoVest);
    } else {
      assert routes[..i + 1] == routes;
    }
  }

  /** What one destination is deposited along the routes of one kind. */
  ghost function DepositsTo(routes: seq<Route>, from: nat, amount: nat, autoVest: bool, dest: nat): nat {
    if routes == [] then 0
    else DepositsTo(routes[..|routes| - 1], from, amount, autoVest, dest) +
         if routes[|routes| - 1].dest == dest then DepositBy(routes[|routes| - 1], from, amount, autoVest) else 0
  }

  lemma {:induction false} DepositsToStep(routes: seq<Route>, i: nat, from: nat, amount: nat, autoVest: bool, dest: nat)
    requires i < |routes|
    ensures DepositsTo(routes[..i + 1], from, amount, autoVest, dest) ==
              DepositsTo(routes[..i], from, amount, autoVest, dest) + if routes[i].dest ==
                dest then DepositBy(routes[i], from, amount, autoVest) else 0
  {
    assert routes[..i + 1][..i] == routes[..i];
  }

  // ---- cashing in along the routes ----

  datatype Pool = Pool(fund: int, shares: int)

  function Cash(p: Pool, vests: nat): Pool
    requires Priced(p.fund, p.shares)
  {
    Pool(p.fund - ToHive(vests, p.fund, p.shares), p.shares - vests)
  }

  /** The pool after one deposit in HIVE, at the price of the moment; nothing when there is no price. */
  ghost function CashOne(p: Pool, d: nat): Option<Pool> {
    if d == 0 then Some(p) else if Priced(p.fund, p.shares) then Some(Cash(p, d)) else None
  }

  /** The pool after the deposits in HIVE along all routes, one after the other. */
  ghost function CashAlong(routes: seq<Route>, from: nat, amount: nat, p: Pool): Option<Pool> {
    if routes == [] then Some(p)
    else
      var before := CashAlong(routes[..|routes| - 1], from, amount, p);
      if before.None? then None else CashOne(before.value, DepositBy(routes[|routes| - 1], from, amount, false))
  }

  /** What one deposit in HIVE pays. */
  ghost function HiveFor(p: Option<Pool>, d: nat): nat {
    if p.Some? && d > 0 && Priced(p.value.fund, p.value.shares) then ToHive(d, p.value.fund, p.value.shares) else 0
  }

  /** What one destination is paid in HIVE along all routes, each at the price of its moment. */
  ghost function HiveTo(routes: seq<Route>, from: nat, amount: nat, p: Pool, dest: nat): nat {
    if routes == [] then 0
    else
      var init, last := routes[..|routes| - 1], routes[|routes| - 1];
      HiveTo(init, from, amount, p, dest) +
      if last.dest == dest then HiveFor(CashAlong(init, from, amount, p), DepositBy(last, from, amount, false)) else 0
  }

  lemma {:induction false} CashAlongStep(routes: seq<Route>, i: nat, from: nat, amount: nat, p: Pool)
    requires i < |routes|
    ensures var before, d := CashAlong(routes[..i], from, amount, p), DepositBy(routes[i], from, amount, false);
            CashAlong(routes[..i + 1], from, amount, p) == if before.None? then None else CashOne(before.value, d)
  {
    assert routes[..i + 1][..i] == routes[..i];
  }

  lemma {:induction false} HiveToStep(routes: seq<Route>, i: nat, from: nat, amount: nat, p: Pool, dest: nat)
    requires i < |routes|
    ensures HiveTo(routes[..i + 1], from, amount, p, dest) == HiveTo(routes[..i], from, amount, p, dest) +
              if routes[i].dest == dest then HiveFor(CashAlong(routes[..i], from, amount, p),
                                                     DepositBy(routes[i], from, amount, false)) else 0
  {
    assert routes[..i + 1][..i] == routes[..i];
  }

  /** Once there is no price, there is none for what follows. */
  lemma {:induction false} CashStuck(routes: seq<Route>, i: nat, from: nat, amount: nat, p: Pool)
    requires i <= |routes| && CashAlong(routes[..i], from, amount, p).None?
    ensures CashAlong(routes, from, amount, p).None?
    decreases |routes|
  {
    if i < |routes| {
      assert routes[..|routes| - 1][..i] == routes[..i];
      CashStuck(routes[..|routes| - 1], i, from, amount, p);
    } else {
      assert routes[..i] == routes;
    }
  }

  /** Deposits only take from the fund, and take their VESTS out of the shares. */
  lemma {:induction false} CashTakes(routes: seq<Route>, from: nat, amount: nat, p: Pool)
    requires CashAlong(routes, from, amount, p).Some?
    ensures var q := CashAlong(routes, from, amount, p).value;
            q.fund <= p.fund && q.shares == p.shares - DepositsBy(routes, from, amount, false)
    decreases |routes|
  {
    if routes != [] {
      CashTakes(routes[..|routes| - 1], from, amount, p);
    }
  }

  /** In a backed pool there is always a price, no deposit makes a VEST cheaper, and the pool stays backed. */
  lemma {:induction false} CashBacked(routes: seq<Route>, from: nat, amount: nat, p: Pool)
    requires Backed(p.fund, p.shares) && DepositsBy(routes, from, amount, false) <= p.shares
    ensures CashAlong(routes, from, amount, p).Some?
    ensures var q := CashAlong(routes, from, amount, p).value; Backed(q.fund, q.shares) &&
                                                               NoCheaper(p.fund, p.shares, q.fund, q.shares)
    decreases |routes|
  {
    hide DepositBy;
    if routes != [] {
      var init := routes[..|routes| - 1];
      CashBacked(init, from, amount, p);
      CashTakes(init, from, amount, p);
      var q := CashAlong(init, from, amount, p).value;
      CashKeeps(p, q, DepositBy(routes[|routes| - 1], from, amount, false));
    }
  }

  /** Out of an empty fund deposits are paid at the fixed price: nothing is, exactly when each is too small for it. */
  lemma {:induction false} CashEmpty(routes: seq<Route>, from: nat, amount: nat, p: Pool)
    requires p.fund == 0 && CashAlong(routes, from, amount, p).Some?
    ensures CashAlong(routes, from, amount, p).value.fund == 0 <==>
            forall i: nat :: i < |routes| ==> DepositBy(routes[i], from, amount, false) < LEAST_PAID
    decreases |routes|
  {
    hide DepositBy;
    if routes != [] {
      var init := routes[..|routes| - 1];
      var q, d := CashAlong(init, from, amount, p).value, DepositBy(routes[|routes| - 1], from, amount, false);
      CashEmpty(init, from, amount, p);
      CashTakes(init, from, amount, p);
      if d > 0 {
        CashEmptyOne(q, d);
      }
      forall i: nat | i < |init| ensures routes[i] == init[i] {
      }
      if q.fund != 0 {
        var i: nat :| i < |init| && DepositBy(init[i], from, amount, false) >= LEAST_PAID;
        assert DepositBy(routes[i], from, amount, false) >= LEAST_PAID;
      }
    }
  }

  lemma CashEmptyOne(q: Pool, d: nat)
    requires q.fund <= 0 && Priced(q.fund, q.shares)
    ensures Cash(q, d).fund <= q.fund && (q.fund == 0 ==> (Cash(q, d).fund == 0 <==> d < LEAST_PAID))
  {
  }

  lemma CashKeeps(p: Pool, q: Pool, d: nat)
    requires Backed(p.fund, p.shares) && Backed(q.fund, q.shares) && NoCheaper(p.fund, p.shares, q.fund, q.shares) &&
             d <= q.shares
    ensures var r := Cash(q, d); Backed(r.fund, r.shares) && NoCheaper(p.fund, p.shares, r.fund, r.shares) &&
                                 (q.shares == 0 ==> r == q)
  {
    if q.shares > 0 {
      WithdrawingKeepsPrice(d, q.fund, q.shares);
      NoCheaperTransitive(p.fund, p.shares, q.fund, q.shares, Cash(q, d).fund, q.shares - d);
    }
  }

  /**
   * Out of an empty fund that is not backed, VESTS are cashed in at the fixed price, into the
   * negative: then a VEST is worth less than nothing, and there is no price any more.
   */
  lemma EmptyFundPays()
    ensures var p := Pool(0, 2000);
            && Priced(p.fund, p.shares) && Cash(p, 1000) == Pool(-1, 1000)
            && !NoCheaper(p.fund, p.shares, -1, 1000) && !Priced(-1, 1000)
  {
  }
}
