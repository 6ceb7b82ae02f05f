// What one part of a power-down pays, amount by amount: every deposit and every
// payment is pinned down by what it is worth, not by how it is computed.

module Payouts {
  import opened Arith
  import opened Common
  import opened OrderBook
  import opened Vesting
  import opened Tokens

  /**
   * One part: what every route takes, as VESTS or to be cashed in, what the latter pays, and the
   * pool before each route; then what is not routed and what that pays.
   */
  datatype Payout = Payout(part: nat, vests: seq<nat>, cashed: seq<nat>, hive: seq<nat>, pools: seq<Pool>, rest: nat,
                           last: nat)

  /** What the first `n` routes bring to one destination. */
  ghost function Got(routes: seq<Route>, xs: seq<nat>, k: nat, n: nat): nat
    requires n <= |routes| && n <= |xs|
  {
    if n == 0 then 0 else Got(routes, xs, k, n - 1) + if routes[n - 1].dest == k then xs[n - 1] else 0
  }

  ghost function AddUp(xs: seq<nat>, n: nat): nat
    requires n <= |xs|
  {
    if n == 0 then 0 else AddUp(xs, n - 1) + xs[n - 1]
  }

  /** The part that is due: no more than the weekly rate, what is left of the plan, or the VESTS, but one of these. */
  ghost predicate PartDue(a: Account, part: nat) {
    if a.power.Idle? || a.power.total <= a.power.done then part == 0
    else var left := a.power.total - a.power.done;
         && part <= a.power.rate && part <= left && part <= a.vests
         && (part == a.power.rate || part == left || part == a.vests)
  }

  lemma NextPartIs(a: Account)
    ensures PartDue(a, NextPart(a))
  {
  }

  /** Route `i` takes its percentage, rounded down: in VESTS, or in what those are worth at that moment. */
  ghost predicate RouteServed(r: Route, who: nat, part: nat, vests: nat, cashed: nat, hive: nat, p: Pool, p': Pool) {
    && Takes(vests + cashed, r, who, part) && (if r.autoVest then cashed == 0 else vests == 0)
    && if cashed == 0 then hive == 0 && p' == p
       else && Priced(p.fund, p.shares) && Worth(hive, cashed, p.fund, p.shares)
            && p' == Pool(p.fund - hive, p.shares - cashed)
  }

  ghost predicate RoutesServed(routes: seq<Route>, who: nat, o: Payout) {
    && |o.vests| == |o.cashed| == |o.hive| == |routes| && |o.pools| == |routes| + 1
    && forall i: nat :: i < |routes| ==>
         RouteServed(routes[i], who, o.part, o.vests[i], o.cashed[i], o.hive[i], o.pools[i], o.pools[i + 1])
  }

  /** Everybody has what was paid to them, and the pool has paid for it. */
  ghost predicate PaidOff(accs: seq<Account>, p: seq<Purse>, g: Globals, accs': seq<Account>, p': seq<Purse>,
                          g': Globals, routes: seq<Route>, who: nat, o: Payout) {
    var n := |routes|;
    && |accs'| == |accs| == |p| == |p'| && who < |accs| && PartDue(accs[who], o.part) && RoutesServed(routes, who, o)
    && o.pools[0] == PoolOf(g) && o.rest + AddUp(o.vests, n) + AddUp(o.cashed, n) == o.part
    && Priced(o.pools[n].fund, o.pools[n].shares) && Worth(o.last, o.rest, o.pools[n].fund, o.pools[n].shares)
    && PoolOf(g') == Pool(o.pools[n].fund - o.last, o.pools[n].shares - o.rest)
    && (forall k: nat :: k < |accs| ==>
          && accs'[k].vests == accs[k].vests + Got(routes, o.vests, k, n) - (if k == who then o.part else 0)
          && p'[k] == Purse(p[k].hive + Got(routes, o.hive, k, n) + (if k == who then o.last else 0), p[k].hbd))
  }

  /** The payout along the first routes, as the functions compute it. */
  ghost predicate Computes(routes: seq<Route>, who: nat, w: nat, p: Pool, o: Payout) {
    && o.part == w && |o.vests| == |o.cashed| == |o.hive| == |routes| && |o.pools| == |routes| + 1
    && (forall i: nat :: i < |routes| ==>
          && o.vests[i] == DepositBy(routes[i], who, w, true) && o.cashed[i] == DepositBy(routes[i], who, w, false)
          && o.hive[i] == HiveFor(CashAlong(routes[..i], who, w, p), DepositBy(routes[i], who, w, false)))
    && (forall i: nat :: i <= |routes| ==> Some(o.pools[i]) == CashAlong(routes[..i], who, w, p))
  }

  /** A part that has been paid is paid off by such amounts. */
  lemma PartPaysOff(accs: seq<Account>, p: seq<Purse>, g: Globals, accs': seq<Account>, p': seq<Purse>, g': Globals,
                    routes: seq<Route>, who: nat) returns (o: Payout)
    requires PartPaid(accs, p, g, accs', p', g', routes, who)
    ensures PaidOff(accs, p, g, accs', p', g', routes, who, o)
  {
    hide DepositsTo, DepositsBy, HiveTo, CashAlong, ToHive, Worth, DepositBy, HiveFor, NextPart, PartDue, RoutesServed,
         Got, AddUp, Computes;
    var w := NextPart(accs[who]);
    var mid, rest := CashAlong(routes, who, w, PoolOf(g)).value, Rest(routes, who, w);
    NextPartIs(accs[who]);
    o := Compute(routes, who, w, PoolOf(g), rest, ToHive(rest, mid.fund, mid.shares));
    ComputedServes(routes, who, w, PoolOf(g), o);
    ComputedEnds(routes, who, w, PoolOf(g), o);
    ToHiveIs(rest, mid.fund, mid.shares);
    ComputedRest(routes, who, w, PoolOf(g), o);
    forall k: nat
      ensures Got(routes, o.vests, k, |routes|) == DepositsTo(routes, who, w, true, k)
      ensures Got(routes, o.hive, k, |routes|) == HiveTo(routes, who, w, PoolOf(g), k)
    {
      ComputedGot(routes, who, w, PoolOf(g), o, k);
    }
  }

  lemma Compute(routes: seq<Route>, who: nat, w: nat, p: Pool, rest: nat, last: nat) returns (o: Payout)
    requires CashAlong(routes, who, w, p).Some?
    ensures Computes(routes, who, w, p, o) && o.rest == rest && o.last == last
  {
    hide CashAlong, DepositBy, HiveFor;
    var n := |routes|;
    forall i: nat | i <= n ensures CashAlong(routes[..i], who, w, p).Some? {
      if CashAlong(routes[..i], who, w, p).None? {
        CashStuck(routes, i, who, w, p);
      }
    }
    var vests := seq(n, (i: nat) requires i < n => DepositBy(routes[i], who, w, true));
    var cashed := seq(n, (i: nat) requires i < n => DepositBy(routes[i], who, w, false));
    var hive := seq(n, (i: nat) requires i < n =>
                         HiveFor(CashAlong(routes[..i], who, w, p), DepositBy(routes[i], who, w, false)));
    var pools := seq(n + 1, (i: nat) requires i < n + 1 => CashAlong(routes[..i], who, w, p).value);
    o := Payout(w, vests, cashed, hive, pools, rest, last);
  }

  lemma {:induction false} ComputedEnds(routes: seq<Route>, who: nat, w: nat, p: Pool, o: Payout)
    requires Computes(routes, who, w, p, o)
    ensures |o.vests| == |o.cashed| == |o.hive| == |routes| && |o.pools| == |routes| + 1 && o.part == w
    ensures o.pools[0] == p && Some(o.pools[|routes|]) == CashAlong(routes, who, w, p)
  {
    assert routes[..|routes|] == routes && routes[..0] == [];
  }

  lemma ComputedServes(routes: seq<Route>, who: nat, w: nat, p: Pool, o: Payout)
    requires Computes(routes, who, w, p, o)
    ensures RoutesServed(routes, who, o)
  {
    hide CashAlong, DepositBy, HiveFor, RouteServed;
    forall i: nat | i < |routes|
      ensures RouteServed(routes[i], who, w, o.vests[i], o.cashed[i], o.hive[i], o.pools[i], o.pools[i + 1])
    {
      CashAlongStep(routes, i, who, w, p);
      OneServed(routes[i], who, w, o.pools[i], o.pools[i + 1]);
    }
  }

  lemma OneServed(r: Route, who: nat, w: nat, p: Pool, p': Pool)
    requires CashOne(p, DepositBy(r, who, w, false)) == Some(p')
    ensures RouteServed(r, who, w, DepositBy(r, who, w, true), DepositBy(r, who, w, false),
                        HiveFor(Some(p), DepositBy(r, who, w, false)), p, p')
  {
    hide ToHive, Worth, Takes, Deposit;
    DepositIs(r, who, w);
    NothingTaken(r, who, w);
    if DepositBy(r, who, w, false) > 0 {
      ToHiveIs(DepositBy(r, who, w, false), p.fund, p.shares);
    }
  }

  lemma NothingTaken(r: Route, who: nat, w: nat)
    ensures DepositBy(r, who, w, true) + DepositBy(r, who, w, false) == Deposit(r, who, w)
  {
  }

  lemma {:induction false} ComputedRest(routes: seq<Route>, who: nat, w: nat, p: Pool, o: Payout)
    requires Computes(routes, who, w, p, o)
    ensures AddUp(o.vests, |routes|) == DepositsBy(routes, who, w, true)
    ensures AddUp(o.cashed, |routes|) == DepositsBy(routes, who, w, false)
  {
    AddUpIs(routes, who, w, true, o.vests, |routes|);
    AddUpIs(routes, who, w, false, o.cashed, |routes|);
    assert routes[..|routes|] == routes;
  }

  lemma {:induction false} AddUpIs(routes: seq<Route>, who: nat, w: nat, autoVest: bool, xs: seq<nat>, n: nat)
    requires n <= |routes| == |xs| && forall i: nat :: i < |routes| ==> xs[i] == DepositBy(routes[i], who, w, autoVest)
    ensures AddUp(xs, n) == DepositsBy(routes[..n], who, w, autoVest)
    decreases n
  {
    hide DepositBy;
    if n > 0 {
      AddUpIs(routes, who, w, autoVest, xs, n - 1);
      DepositsStep(routes, n - 1, who, w, autoVest);
    }
  }

  lemma {:induction false} ComputedGot(routes: seq<Route>, who: nat, w: nat, p: Pool, o: Payout, k: nat)
    requires Computes(routes, who, w, p, o)
    ensures |o.vests| == |o.hive| == |routes|
    ensures Got(routes, o.vests, k, |routes|) == DepositsTo(routes, who, w, true, k)
    ensures Got(routes, o.hive, k, |routes|) == HiveTo(routes, who, w, p, k)
  {
    GotIs(routes, who, w, p, o, k, |routes|);
    assert routes[..|routes|] == routes;
  }

  lemma {:induction false} GotIs(routes: seq<Route>, who: nat, w: nat, p: Pool, o: Payout, k: nat, n: nat)
    requires Computes(routes, who, w, p, o) && n <= |routes|
    ensures Got(routes, o.vests, k, n) == DepositsTo(routes[..n], who, w, true, k)
    ensures Got(routes, o.hive, k, n) == HiveTo(routes[..n], who, w, p, k)
    decreases n
  {
    hide DepositBy, HiveFor, CashAlong;
    if n > 0 {
      GotIs(routes, who, w, p, o, k, n - 1);
      DepositsToStep(routes, n - 1, who, w, true, k);
      HiveToStep(routes, n - 1, who, w, p, k);
    }
  }

  // ---- a whole power-down ----

  /** An account after one part, as far as it goes out and does not come back. */
  ghost function AfterPart(a: Account): Account {
    var part := NextPart(a);
    if part > a.vests then a else a.(vests := a.vests - part, power := Moved(a.power, part, a.vests - part))
  }

  ghost function AfterParts(a: Account, n: nat): Account {
    if n == 0 then a else AfterPart(AfterParts(a, n - 1))
  }

  ghost function Least(x: nat, y: nat): nat {
    if x < y then x else y
  }

  /**
   * A power-down goes on at its weekly rate, one week after the other, until all that was asked for
   * or all there is has been withdrawn, and is over at that very part.
   */
  lemma {:induction false} PowerDownRuns(a: Account, x: nat, now: nat, n: nat)
    requires x > 0 && a.vests > 0 && a.power == Planned(x, now)
    ensures var r, all := AfterParts(a, n), Least(x, a.vests);
            && r == a.(vests := a.vests - Least(n * Rate(x), all), power := r.power)
            && r.power == if n * Rate(x) < all
                          then Active(Rate(x), now + WITHDRAW_INTERVAL + n * WITHDRAW_INTERVAL, x, n * Rate(x))
                          else Idle
    decreases n
  {
    hide Rate;
    if n > 0 {
      PowerDownRuns(a, x, now, n - 1);
      var rate := Rate(x);
      assert n * rate == (n - 1) * rate + rate;
      assert n * WITHDRAW_INTERVAL == (n - 1) * WITHDRAW_INTERVAL + WITHDRAW_INTERVAL;
      RatePositive(x);
    }
  }

  lemma RatePositive(x: nat)
    ensures Rate(x) > 0
  {
  }

  /** So it is over after at most thirteen weeks, with exactly what was asked for withdrawn if it was there. */
  lemma {:induction false} PowerDownEnds(a: Account, x: nat, now: nat)
    requires 0 < x <= a.vests && a.power == Planned(x, now)
    ensures AfterParts(a, INTERVALS) == a.(vests := a.vests - x, power := Idle)
  {
    hide AfterParts;
    PowerDownRuns(a, x, now, INTERVALS);
  }
}
