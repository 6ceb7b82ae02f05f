// What each operation does to the ledger, from one snapshot to the next, and
// when it is refused and does nothing.

module Deeds {
  import opened Common
  import opened Money
  import opened OrderBook
  import opened Matching
  import opened Vesting
  import opened HbdLimit
  import opened Tokens
  import opened Parts

  /** What the ledger is set up with. */
  datatype Setup = Setup(treasury: nat, maxExpiration: nat)

  ghost predicate Sends(u: Setup, feed: Feed, from: nat, dest: nat, a: Asset, x: nat, s: Snapshot, s': Snapshot) {
    var median := if dest == u.treasury then feed.median else None;
    if from < |s.accounts| && dest < |s.accounts|
    then && s' == s.(purses := s'.purses, g := s'.g)
         && (Transferred(s.purses, s.g, s'.purses, s'.g, from, dest, a, x, median, dest == u.treasury, true) ||
             Transferred(s.purses, s.g, s'.purses, s'.g, from, dest, a, x, median, dest == u.treasury, false))
    else s' == s
  }

  /** A limit order: when it is accepted, and that it is then matched as far as it goes. */
  ghost predicate Trades(u: Setup, now: nat, owner: nat, a: Asset, amount: int, base: int, quote: int, number: nat,
                         expiration: nat, fillOrKill: bool, s: Snapshot, s': Snapshot) {
    var o := Order(s.nextId, owner, number, amount, base, quote, expiration);
    if && owner < |s.accounts| == |s.purses| && base > 0 && quote > 0 && amount > 0 && amount * quote / base > 0
       && now < expiration <= now + u.maxExpiration && s.purses[owner].Get(a) >= amount
       && !HasKey(s.book, owner, number) && (fillOrKill ==> Fills(o, s.book.Get(Other(a))))
    then && s' == s.(purses := s'.purses, book := s'.book, nextId := s.nextId + 1)
         && exists k: nat, stages :: Rests(owner, a, o, k, stages, s, s')
    else s' == s
  }

  /** The order is listed at place `k` and matched, one match after the other. */
  ghost predicate Rests(owner: nat, a: Asset, o: Order, k: nat, stages: seq<Stage>, s: Snapshot, s': Snapshot) {
    && k <= |s.book.Get(a)| && owner < |s.purses| && MatchRun(stages, a, k, o.id)
    && stages[0] == Stage(Bump(s.purses, owner, a, -o.forSale), Listed(s.book, a, k, o))
    && stages[|stages| - 1] == Stage(s'.purses, s'.book)
    && Progress(Bump(s.purses, owner, a, -o.forSale), Listed(s.book, a, k, o), s'.purses, s'.book, s'.nextId, a, k,
                Fills(o, s.book.Get(Other(a))))
  }

  ghost predicate Cancels(owner: nat, number: nat, s: Snapshot, s': Snapshot) {
    if HasKey(s.book, owner, number)
    then s' == s.(purses := s'.purses, book := s'.book) && exists a, k: nat :: Cancelled(owner, number, a, k, s, s')
    else s' == s
  }

  ghost predicate Cancelled(owner: nat, number: nat, a: Asset, k: nat, s: Snapshot, s': Snapshot) {
    && k < |s.book.Get(a)| && owner < |s.purses|
    && s.book.Get(a)[k].seller == owner && s.book.Get(a)[k].number == number
    && s'.book == s.book.Put(a, Drop(s.book.Get(a), k))
    && s'.purses == Bump(s.purses, owner, a, s.book.Get(a)[k].forSale)
  }

  ghost predicate Saves(u: Setup, op: SavingOp, now: nat, s: Snapshot, s': Snapshot) {
    match op
    case Save(from, dest, a, x, interest) =>
      if from < |s.accounts| && dest < |s.accounts| && dest != u.treasury && Covers(s.purses, from, a, x)
      then && s' == s.(accounts := s'.accounts, g := s'.g, purses := s'.purses)
           && Debited(s.purses, s'.purses, from, a, x)
           && Saved(s.accounts, s.g, s'.accounts, s'.g, dest, a, x, if a == HBD then interest else 0)
      else s' == s
    case Ask(from, number, dest, a, x, interest) =>
      if && from < |s.accounts| && dest < |s.accounts| && MayAsk(s.withdrawals, s.accounts, from, number, a, x)
         && (a == HIVE ==> dest != u.treasury)
      then && s' == s.(accounts := s'.accounts, g := s'.g,
                       withdrawals := s.withdrawals +
                                      [Withdrawal(from, number, dest, a, x, now + SAVINGS_WITHDRAW_TIME)])
           && Saved(s.accounts, s.g, s'.accounts, s'.g, from, a, 0 - x, if a == HBD then interest else 0)
      else s' == s
    case TakeBack(from, number, interest) =>
      if from < |s.accounts| && !NoRequest(s.withdrawals, from, number)
      then && s' == s.(accounts := s'.accounts, g := s'.g, withdrawals := s'.withdrawals)
           && exists i: nat :: TakesBack(from, number, interest, i, s, s')
      else s' == s
  }

  ghost predicate TakesBack(from: nat, number: nat, interest: nat, i: nat, s: Snapshot, s': Snapshot) {
    && i < |s.withdrawals| && s.withdrawals[i].from == from && s.withdrawals[i].number == number
    && s'.withdrawals == Drop(s.withdrawals, i)
    && SavedBack(s.accounts, s.g, s'.accounts, s'.g, s.withdrawals[i], interest)
  }

  ghost predicate Entrusts(op: EscrowOp, now: nat, s: Snapshot, s': Snapshot) {
    && s' == s.(escrows := s'.escrows, purses := s'.purses)
    && match op
       case Begin(asked) =>
         var e := asked.(destApproved := false, agentApproved := false, disputed := false);
         if && e.from < |s.accounts| && e.dest < |s.accounts| && e.agent < |s.accounts|
            && MayEscrow(s.purses, s.escrows, e, now)
         then s'.escrows == s.escrows + [e] && Spent(s.purses, s'.purses, e.from, Spends(e, HIVE), Spends(e, HBD))
         else s' == s
       case Approve(from, number, dest, agent, who, approve) =>
         if who == dest || who == agent
         then ApproveDone(from, number, dest, agent, who, approve, now, s, s') else s' == s
       case Dispute(from, number, dest, agent) =>
         || (s' == s && forall j: nat :: j < |s.escrows| ==> !MayDispute(s.escrows[j], from, number, dest, agent, now))
         || exists i: nat :: i < |s.escrows| && MayDispute(s.escrows[i], from, number, dest, agent, now) &&
                             s' == s.(escrows := s.escrows[i := s.escrows[i].(disputed := true)])
       case Release(from, number, dest, agent, who, receiver, hive, hbd) =>
         || (s' == s && forall j: nat :: j < |s.escrows| ==>
                                           !MayRelease(s.escrows[j], from, number, dest, agent, who, receiver, hive,
                                                       hbd, now))
         || exists i: nat :: i < |s.escrows| &&
                             MayRelease(s.escrows[i], from, number, dest, agent, who, receiver, hive, hbd, now) &&
                             Released(s.escrows, s'.escrows, i, hive, hbd) &&
                             Spent(s.purses, s'.purses, receiver, 0 - hive, 0 - hbd)
  }

  ghost predicate ApproveDone(from: nat, number: nat, dest: nat, agent: nat, who: nat, approve: bool, now: nat,
                              s: Snapshot, s': Snapshot) {
    || (s' == s && forall j: nat :: j < |s.escrows| ==> !Approves(s.escrows[j], from, number, dest, agent, who, now))
    || exists i: nat :: i < |s.escrows| && Approves(s.escrows[i], from, number, dest, agent, who, now) &&
                        if approve then s'.escrows == s.escrows[i := Approved(s.escrows[i], who)] &&
                                        FeePaid(s.purses, s'.purses, s.escrows[i], who)
                        else s'.escrows == Drop(s.escrows, i) && Refunded(s.purses, s'.purses, s.escrows[i])
  }

  ghost predicate Converts(u: Setup, op: ConversionOp, now: nat, feed: Feed, s: Snapshot, s': Snapshot)
    requires FeedOk(feed)
  {
    match op
    case FromHbd(owner, number, x) =>
      if && owner < |s.accounts| && feed.median.Some? && Covers(s.purses, owner, HBD, x)
         && NoConversion(s.conversions, owner, number)
      then && s' == s.(purses := s'.purses,
                       conversions := s.conversions + [Conversion(owner, number, x, now + CONVERSION_DELAY)])
           && Debited(s.purses, s'.purses, owner, HBD, x)
      else s' == s
    case FromHive(owner, number, x) =>
      if && owner < |s.accounts| && feed.low.Some?
         && MayLock(s.purses, s.collaterals, s.g, u.treasury, owner, number, x, feed.median, feed.low.value,
                    feed.printRate > 0, feed.stop)
      then var hbd := Immediate(x, feed.low.value);
           && s' == s.(purses := s'.purses, g := s'.g,
                       collaterals := s.collaterals + [Collateral(owner, number, x, hbd, now + CONVERSION_DELAY)])
           && Supplies(s.g, s'.g, 0, hbd) && Spent(s.purses, s'.purses, owner, x, 0 - hbd)
      else s' == s
  }

  ghost predicate Powers(u: Setup, op: VestingOp, now: nat, s: Snapshot, s': Snapshot) {
    match op
    case PowerUp(from, dest, x) =>
      if && from < |s.accounts| && dest < |s.accounts| && dest != u.treasury && Covers(s.purses, from, HIVE, x)
         && Priced(s.g.fund, s.g.shares)
      then && s' == s.(accounts := s'.accounts, g := s'.g, purses := s'.purses)
           && Debited(s.purses, s'.purses, from, HIVE, x) && Vested(s.accounts, s.g, s'.accounts, s'.g, dest, x)
      else s' == s
    case Down(who, x) =>
      if who < |s.accounts| && MayPowerDown(s.accounts[who], x)
      then s' == s.(accounts := s.accounts[who := s.accounts[who].(power := Planned(x, now))]) else s' == s
    case Routing(r) =>
      if && r.from < |s.accounts| && r.dest < |s.accounts| && r.percent <= HUNDRED_PERCENT && r.dest != u.treasury
         && MayRoute(s.routes, r)
      then s' == s.(routes := s'.routes) && RouteSet(s.routes, s'.routes, r) else s' == s
  }

  ghost predicate Rewards(u: Setup, op: RewardOp, feed: Feed, s: Snapshot, s': Snapshot)
    requires FeedOk(feed)
  {
    match op
    case Mint(newHive, c, producer) =>
      if producer < |s.accounts| && Balances(c) && MayPrint(s.g, Inflated(newHive, c), feed.median)
      then && s' == s.(accounts := s'.accounts, g := s'.g, purses := s'.purses)
           && Printed(s.g, s'.g, Inflated(newHive, c), feed.median)
           && Debited(s.purses, s'.purses, u.treasury, HBD, s.g.hbdSupply - s'.g.hbdSupply)
           && s'.accounts == s.accounts[producer := s.accounts[producer].(vests := s.accounts[producer].vests +
                                                                                   s'.g.shares - s.g.shares)]
      else s' == s
    case GiveVests(who, x) =>
      if who < |s.accounts| && RewardPriced(s.g)
      then && s' == s.(accounts := s'.accounts, g := s'.g) && Rewarded(s.accounts, s.g, s'.accounts, s'.g, who, x)
      else s' == s
    case GiveHbd(who, x) =>
      if who >= |s.accounts| then s' == s
      else if feed.median.None?
           then && s' == s.(purses := s'.purses, g := s.g.(rewardFund := s.g.rewardFund - x))
                && Debited(s.purses, s'.purses, who, HIVE, 0 - x)
           else && s' == s.(accounts := s'.accounts, g := s'.g)
                && HbdRewarded(s.accounts, s.g, s'.accounts, s'.g, who, x, feed.printRate, feed.median.value)
    case Claim(who, hive, hbd, vests) =>
      if who < |s.accounts| && Claimable(s.accounts[who], hive, hbd, vests)
      then && s' == s.(accounts := s'.accounts, g := s'.g, purses := s'.purses)
           && Spent(s.purses, s'.purses, who, 0 - hive, 0 - hbd)
           && Claimed(s.accounts, s.g, s'.accounts, s'.g, who, hive, hbd, vests)
      else s' == s
  }

  /** The stages of the end of a block: the states after each of them, and who was served in between. */
  datatype Stages = Stages(orders: Snapshot, conversions: Snapshot, collaterals: Snapshot, who: seq<nat>,
                           states: seq<Snapshot>, stuck: Option<nat>, savings: Snapshot)

  /** Orders whose time is over are cancelled, and no others. */
  ghost predicate OrdersExpire(now: nat, s: Snapshot, s': Snapshot) {
    && s' == s.(purses := s'.purses, book := s'.book) && Owned(s.purses, s.book, s'.purses, s'.book)
    && (forall o :: o in s'.book.sellHive <==> o in s.book.sellHive && o.expiration >= now)
    && (forall o :: o in s'.book.sellHbd <==> o in s.book.sellHbd && o.expiration >= now)
  }

  ghost predicate ConversionsPaid(now: nat, median: Option<Price>, s: Snapshot, s': Snapshot)
    requires median.Some? ==> Proper(median.value)
  {
    if median.None? then s' == s
    else && s' == s.(purses := s'.purses, conversions := s'.conversions, g := s'.g)
         && AllSettled(s.purses, s.conversions, s'.purses, s'.conversions, ConversionPay(now, median.value),
                       DueConversion(now))
         && Supplies(s.g, s'.g, s'.g.supply - s.g.supply, s'.g.hbdSupply - s.g.hbdSupply)
  }

  ghost predicate CollateralsPaid(now: nat, price: Option<Price>, s: Snapshot, s': Snapshot)
    requires price.Some? ==> Proper(price.value)
  {
    if price.None? then s' == s
    else && s' == s.(purses := s'.purses, collaterals := s'.collaterals, g := s'.g)
         && AllSettled(s.purses, s.collaterals, s'.purses, s'.collaterals, CollateralPay(now, price.value),
                       DueCollateral(now))
         && Supplies(s.g, s'.g, s'.g.supply - s.g.supply, 0)
  }

  ghost predicate SavingsPaid(now: nat, s: Snapshot, s': Snapshot) {
    && s' == s.(purses := s'.purses, withdrawals := s'.withdrawals)
    && AllSettled(s.purses, s.withdrawals, s'.purses, s'.withdrawals, WithdrawalPay(now), DueWithdrawal(now))
  }

  ghost predicate EscrowsExpire(now: nat, s: Snapshot, s': Snapshot) {
    && s' == s.(purses := s'.purses, escrows := s'.escrows)
    && AllSettled(s.purses, s.escrows, s'.purses, s'.escrows, EscrowPay(now), DueEscrow(now))
  }

  /** The stages up to and including the power-downs. */
  ghost predicate Reached(now: nat, feed: Feed, s: Snapshot, t: Stages)
    requires FeedOk(feed)
  {
    && OrdersExpire(now, s, t.orders) && ConversionsPaid(now, feed.median, t.orders, t.conversions)
    && CollateralsPaid(now, feed.market, t.conversions, t.collaterals)
    && Served(now, t.who, t.states, t.stuck) && t.states[0] == t.collaterals
    && var last := t.states[|t.who|];
       t.stuck.Some? ==> t.stuck.value < |last.accounts| &&
                         !PartPriced(last.g, last.routes, t.stuck.value, NextPart(last.accounts[t.stuck.value]))
  }

  /** The end of a block, which fails as a whole exactly when a part of a power-down has no price. */
  ghost predicate Ends(now: nat, feed: Feed, s: Snapshot, s': Snapshot, t: Stages)
    requires FeedOk(feed)
  {
    && Reached(now, feed, s, t)
    && if t.stuck.Some? then s' == s
       else SavingsPaid(now, t.states[|t.who|], t.savings) && EscrowsExpire(now, t.savings, s')
  }

  lemma EndsThen(now: nat, feed: Feed, s: Snapshot, after: Snapshot, s': Snapshot, t: Stages, ok: bool)
    requires FeedOk(feed) && Reached(now, feed, s, t) && (ok <==> t.stuck.None?)
    requires s' == if ok then after else s
    requires ok ==> SavingsPaid(now, t.states[|t.who|], t.savings) && EscrowsExpire(now, t.savings, after)
    ensures Ends(now, feed, s, s', t)
  {
    hide OrdersExpire, ConversionsPaid, CollateralsPaid, Served, SavingsPaid, EscrowsExpire, PartPriced, NextPart;
  }

  lemma FeedParts(feed: Feed)
    requires FeedOk(feed)
    ensures feed.median.Some? ==> Proper(feed.median.value)
    ensures feed.market.Some? ==> Proper(feed.market.value)
  {
  }

  /** What an operation does. */
  ghost predicate Does(u: Setup, op: Op, now: nat, feed: Feed, s: Snapshot, s': Snapshot)
    requires FeedOk(feed)
  {
    match op
    case Send(from, dest, a, x) => Sends(u, feed, from, dest, a, x, s, s')
    case Trade(owner, a, amount, base, quote, number, expiration, fillOrKill) =>
      Trades(u, now, owner, a, amount, base, quote, number, expiration, fillOrKill, s, s')
    case Withdraw(owner, number) => Cancels(owner, number, s, s')
    case Saving(o) => Saves(u, o, now, s, s')
    case Escrowed(o) => Entrusts(o, now, s, s')
    case Converting(o) => Converts(u, o, now, feed, s, s')
    case Powering(o) => Powers(u, o, now, s, s')
    case Paying(o) => Rewards(u, o, feed, s, s')
    case EndOfBlock => exists t :: Ends(now, feed, s, s', t)
  }

  /** What a run is like: every operation has done to the ledger what it does. */
  ghost predicate Chronicled(u: Setup, ops: seq<(nat, Op, Feed)>, seen: seq<Snapshot>) {
    && 1 <= |seen| <= |ops| + 1
    && forall i: nat :: i + 1 < |seen| ==>
                          FeedOk(ops[i].2) && Does(u, ops[i].1, ops[i].0, ops[i].2, seen[i], seen[i + 1])
  }

  lemma ChronicleBegins(u: Setup, ops: seq<(nat, Op, Feed)>, s: Snapshot)
    ensures Chronicled(u, ops, [s])
  {
  }

  lemma ChronicleGoesOn(u: Setup, ops: seq<(nat, Op, Feed)>, seen: seq<Snapshot>, s: Snapshot)
    requires Chronicled(u, ops, seen) && |seen| <= |ops|
    requires var (now, op, feed) := ops[|seen| - 1]; FeedOk(feed) && Does(u, op, now, feed, seen[|seen| - 1], s)
    ensures Chronicled(u, ops, seen + [s])
  {
    hide Does, FeedOk;
  }
}
