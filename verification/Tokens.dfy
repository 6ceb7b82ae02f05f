// Every place tokens can be, how much each holds, and what the operations that
// move them do.

module Tokens {
  import opened Arith
  import opened Common
  import opened Money
  import opened OrderBook
  import opened Matching
  import opened Vesting
  import opened HbdLimit

  /** A pending power-down: weekly rate, time of the next part, and how much in all and so far. */
  datatype PowerDown = Idle | Active(rate: nat, next: nat, total: nat, done: nat)

  /** What an account has besides its liquid balances. */
  datatype Account = Account(savingsHive: nat, savingsHbd: nat, rewardHive: nat, rewardHbd: nat, rewardVests: nat,
                             rewardVestHive: nat,
                             vests: nat, delegated: nat, power: PowerDown)

  datatype Escrow = Escrow(from: nat, number: nat, dest: nat, agent: nat, hive: nat, hbd: nat, feeAsset: Asset,
                           fee: nat,
                           destApproved: bool, agentApproved: bool, disputed: bool, deadline: nat, expiration: nat)

  datatype Withdrawal = Withdrawal(from: nat, number: nat, dest: nat, asset: Asset, amount: nat, complete: nat)

  datatype Conversion = Conversion(owner: nat, number: nat, hbd: nat, date: nat)

  datatype Collateral = Collateral(owner: nat, number: nat, collateral: nat, converted: nat, date: nat)

  /** Supplies, the vesting fund and shares, rewards not yet claimed, and the content reward fund. */
  datatype Globals = Globals(supply: int, hbdSupply: int, fund: int, shares: int, pendingShares: int, pendingHive: int,
                             rewardFund: int)

  // ---- what everything holds ----

  function Amount(a: Asset, x: int): Money {
    if a == HIVE then Money(x, 0, 0, 0, 0) else Money(0, x, 0, 0, 0)
  }

  function AccountMoney(a: Account): Money {
    Money(a.savingsHive + a.rewardHive, a.savingsHbd + a.rewardHbd, a.vests, a.rewardVests, a.rewardVestHive)
  }

  function EscrowMoney(e: Escrow): Money {
    Plus(Money(e.hive, e.hbd, 0, 0, 0), Amount(e.feeAsset, e.fee))
  }

  function WithdrawalMoney(w: Withdrawal): Money {
    Amount(w.asset, w.amount)
  }

  function ConversionMoney(c: Conversion): Money {
    Money(0, c.hbd, 0, 0, 0)
  }

  function CollateralMoney(c: Collateral): Money {
    Money(c.collateral, 0, 0, 0, 0)
  }

  ghost function Liquid(purses: seq<Purse>, book: Book): Money {
    Money(Supply(purses, book, HIVE), Supply(purses, book, HBD), 0, 0, 0)
  }

  /** All tokens outside the common pools, wherever they are. */
  ghost function Holdings(purses: seq<Purse>, book: Book, accounts: seq<Account>, escrows: seq<Escrow>,
                          withdrawals: seq<Withdrawal>,
                          conversions: seq<Conversion>, collaterals: seq<Collateral>): Money
  {
    Plus(Plus(Liquid(purses, book), Sum(accounts, AccountMoney)),
         Pending(escrows, withdrawals, conversions, collaterals))
  }

  ghost function Pending(escrows: seq<Escrow>, withdrawals: seq<Withdrawal>, conversions: seq<Conversion>,
                         collaterals: seq<Collateral>): Money {
    Plus(Plus(Sum(escrows, EscrowMoney), Sum(withdrawals, WithdrawalMoney)),
         Plus(Sum(conversions, ConversionMoney), Sum(collaterals, CollateralMoney)))
  }

  /** What the supplies say there should be outside the common pools. */
  function Supplied(g: Globals): Money {
    Money(g.supply - g.fund - g.pendingHive - g.rewardFund, g.hbdSupply, g.shares, g.pendingShares, g.pendingHive)
  }

  /** What the supplies say, with `lost` HIVE held that they count as standing behind unclaimed VESTS. */
  function Owed(g: Globals, lost: int): Money {
    Plus(Supplied(g), Money(lost, 0, 0, 0, 0 - lost))
  }

  /** An approved escrow has paid its fee. */
  ghost predicate EscrowOk(e: Escrow, n: nat) {
    e.from < n && e.dest < n && e.agent < n && (e.destApproved && e.agentApproved ==> e.fee == 0)
  }

  ghost predicate EscrowsOk(es: seq<Escrow>, n: nat) {
    (forall i: nat :: i < |es| ==> EscrowOk(es[i], n)) && OneEach(es)
  }

  /** A sender uses a number for one escrow at a time. */
  ghost predicate OneEach(es: seq<Escrow>) {
    forall i: nat, j: nat :: i < j < |es| ==> es[i].from != es[j].from || es[i].number != es[j].number
  }

  ghost predicate WithdrawalsOk(ws: seq<Withdrawal>, n: nat) {
    forall i: nat :: i < |ws| ==> ws[i].from < n && ws[i].dest < n
  }

  ghost predicate ConversionsOk(cs: seq<Conversion>, n: nat) {
    forall i: nat :: i < |cs| ==> cs[i].owner < n
  }

  ghost predicate CollateralsOk(cs: seq<Collateral>, n: nat) {
    forall i: nat :: i < |cs| ==> cs[i].owner < n
  }

  ghost predicate RoutesIn(rs: seq<Route>, n: nat) {
    RoutesOk(rs) && forall i: nat :: i < |rs| ==> rs[i].from < n && rs[i].dest < n
  }

  // ---- what the operations do ----

  /** The effect of a transfer, which goes through exactly when it is covered. */
  ghost predicate Transferred(p: seq<Purse>, g: Globals, p': seq<Purse>, g': Globals, from: nat, dest: nat, a: Asset,
                              x: nat,
                              median: Option<Price>, exchanged: bool, ok: bool)
  {
    && from < |p| && dest < |p| && (median.Some? ==> Proper(median.value))
    && (ok <==> p[from].Get(a) >= x && (a == HIVE && exchanged ==> median.Some?))
    && (!ok ==> p' == p && g' == g)
    && (ok && !(a == HIVE && exchanged) ==> g' == g && p' == Bump(Bump(p, from, a, 0 - x), dest, a, x))
    && (ok && a == HIVE && exchanged ==>
          var hbd := InHbd(x, median.value);
          && p' == Bump(Bump(p, from, HIVE, 0 - x), dest, HBD, hbd)
          && g' == g.(supply := g.supply - x, hbdSupply := g.hbdSupply + hbd))
  }

  const SAVINGS_REQUEST_LIMIT := 100

  function Savings(acc: Account, a: Asset): nat {
    if a == HIVE then acc.savingsHive else acc.savingsHbd
  }

  function Requests(ws: seq<Withdrawal>, from: nat): nat {
    if ws == [] then 0 else Requests(ws[..|ws| - 1], from) + if ws[|ws| - 1].from == from then 1 else 0
  }

  ghost function RequestsOf(ws: seq<Withdrawal>, from: nat): set<nat> {
    set i: nat | i < |ws| && ws[i].from == from
  }

  lemma {:induction false} RequestsCount(ws: seq<Withdrawal>, from: nat)
    ensures Requests(ws, from) == |RequestsOf(ws, from)|
    decreases |ws|
  {
    if ws == [] {
      assert RequestsOf(ws, from) == {};
    } else {
      var n := |ws| - 1;
      RequestsCount(ws[..n], from);
      assert RequestsOf(ws, from) == RequestsOf(ws[..n], from) + if ws[n].from == from then {n} else {};
    }
  }

  /** Room for one more request, an unused number, and enough savings. */
  ghost predicate MayAsk(ws: seq<Withdrawal>, accs: seq<Account>, from: nat, number: nat, a: Asset, x: nat) {
    && from < |accs| && Savings(accs[from], a) >= x && Requests(ws, from) < SAVINGS_REQUEST_LIMIT
    && NoRequest(ws, from, number)
  }

  ghost predicate NoRequest(ws: seq<Withdrawal>, from: nat, number: nat) {
    forall i: nat :: i < |ws| ==> ws[i].from != from || ws[i].number != number
  }

  ghost predicate SavedBack(accs: seq<Account>, g: Globals, accs': seq<Account>, g': Globals, w: Withdrawal,
                            interest: nat) {
    Saved(accs, g, accs', g', w.from, w.asset, w.amount, if w.asset == HBD then interest else 0)
  }

  ghost predicate Covers(p: seq<Purse>, who: nat, a: Asset, x: int) {
    who < |p| && p[who].Get(a) >= x
  }

  ghost predicate Debited(p: seq<Purse>, p': seq<Purse>, who: nat, a: Asset, x: int) {
    who < |p| && p' == Bump(p, who, a, 0 - x)
  }

  /** One account's savings change by `x` and interest, and the HBD supply by the interest. */
  ghost predicate Saved(accs: seq<Account>, g: Globals, accs': seq<Account>, g': Globals, who: nat, a: Asset, x: int,
                        interest: nat) {
    && who < |accs| && |accs'| == |accs| && Savings(accs'[who], a) == Savings(accs[who], a) + interest + x
    && accs' == accs[who := if a == HIVE then accs[who].(savingsHive := accs'[who].savingsHive)
                            else accs[who].(savingsHbd := accs'[who].savingsHbd)]
    && g' == g.(hbdSupply := g.hbdSupply + interest)
  }

  lemma WithdrawalIn(ws: seq<Withdrawal>, i: nat, n: nat)
    requires WithdrawalsOk(ws, n) && i < |ws|
    ensures ws[i].from < n && ws[i].dest < n
  {
  }

  const MAX_PENDING := 255                // HIVE_MAX_PENDING_TRANSFERS

  ghost predicate NoEscrow(es: seq<Escrow>, from: nat, number: nat) {
    forall i: nat :: i < |es| ==> es[i].from != from || es[i].number != number
  }

  function Escrows(es: seq<Escrow>, from: nat): nat {
    if es == [] then 0 else Escrows(es[..|es| - 1], from) + if es[|es| - 1].from == from then 1 else 0
  }

  ghost function EscrowsOf(es: seq<Escrow>, from: nat): set<nat> {
    set i: nat | i < |es| && es[i].from == from
  }

  lemma {:induction false} EscrowsCount(es: seq<Escrow>, from: nat)
    ensures Escrows(es, from) == |EscrowsOf(es, from)|
    decreases |es|
  {
    if es == [] {
      assert EscrowsOf(es, from) == {};
    } else {
      var n := |es| - 1;
      EscrowsCount(es[..n], from);
      assert EscrowsOf(es, from) == EscrowsOf(es[..n], from) + if es[n].from == from then {n} else {};
    }
  }

  /** What setting up an escrow takes of one asset. */
  function Spends(e: Escrow, a: Asset): nat {
    (if a == HIVE then e.hive else e.hbd) + if e.feeAsset == a then e.fee else 0
  }

  ghost predicate MayEscrow(p: seq<Purse>, es: seq<Escrow>, e: Escrow, now: nat) {
    && e.deadline > now && e.expiration > now && Escrows(es, e.from) < MAX_PENDING && NoEscrow(es, e.from, e.number)
    && e.from < |p| && p[e.from].hive >= Spends(e, HIVE) && p[e.from].hbd >= Spends(e, HBD)
  }

  /** An account has paid two amounts. */
  ghost predicate Spent(p: seq<Purse>, p': seq<Purse>, who: nat, hive: int, hbd: int) {
    who < |p| && p' == p[who := Purse(p[who].hive - hive, p[who].hbd - hbd)]
  }

  ghost predicate Refunded(p: seq<Purse>, p': seq<Purse>, e: Escrow) {
    Spent(p, p', e.from, 0 - Spends(e, HIVE), 0 - Spends(e, HBD))
  }

  ghost predicate Matches(e: Escrow, from: nat, number: nat, dest: nat, agent: nat) {
    e.from == from && e.number == number && e.dest == dest && e.agent == agent
  }

  ghost predicate Approves(e: Escrow, from: nat, number: nat, dest: nat, agent: nat, who: nat, now: nat) {
    Matches(e, from, number, dest, agent) && e.deadline >= now && (who == dest ==> !e.destApproved) &&
    (who == agent ==> !e.agentApproved)
  }

  /** The escrow with one more approval; the second one settles the fee. */
  ghost function Approved(e: Escrow, who: nat): Escrow {
    var f := e.(destApproved := e.destApproved || who == e.dest, agentApproved := e.agentApproved || who == e.agent);
    if f.destApproved && f.agentApproved then f.(fee := 0) else f
  }

  ghost predicate FeePaid(p: seq<Purse>, p': seq<Purse>, e: Escrow, who: nat) {
    var f := Approved(e, who);
    e.agent < |p| && p' == if f.destApproved && f.agentApproved then Bump(p, e.agent, e.feeAsset, e.fee) else p
  }

  ghost predicate MayDispute(e: Escrow, from: nat, number: nat, dest: nat, agent: nat, now: nat) {
    Matches(e, from, number, dest, agent) && now < e.expiration && e.destApproved && e.agentApproved && !e.disputed
  }

  /** Who may release to whom: the agent in a dispute, else either party to the other, or to anyone after expiration. */
  ghost predicate MayRelease(e: Escrow, from: nat, number: nat, dest: nat, agent: nat, who: nat, receiver: nat,
                             hive: nat,
                       hbd: nat, now: nat) {
    && e.hive >= hive && e.hbd >= hbd && Matches(e, from, number, dest, agent) &&
       (receiver == e.from || receiver == e.dest)
    && e.destApproved && e.agentApproved
    && (if e.disputed then who == e.agent
        else (who == e.from || who == e.dest)
             && (e.expiration > now ==> if who == e.from then receiver == e.dest else receiver == e.from))
  }

  ghost predicate Released(es: seq<Escrow>, es': seq<Escrow>, i: nat, hive: nat, hbd: nat) {
    && i < |es| && es[i].hive >= hive && es[i].hbd >= hbd
    && es' == if es[i].hive == hive && es[i].hbd == hbd then Drop(es, i)
              else es[i := es[i].(hive := es[i].hive - hive, hbd := es[i].hbd - hbd)]
  }

  ghost predicate Overdue(e: Escrow, now: nat) {
    !(e.destApproved && e.agentApproved) && e.deadline <= now
  }

  lemma TwoBumps(p: seq<Purse>, who: nat, x: int, y: int)
    requires who < |p|
    ensures Bump(Bump(p, who, HIVE, x), who, HBD, y) == p[who := Purse(p[who].hive + x, p[who].hbd + y)]
  {
  }

  lemma EscrowSpends(e: Escrow)
    ensures EscrowMoney(e) == Money(Spends(e, HIVE), Spends(e, HBD), 0, 0, 0)
  {
  }

  lemma EscrowIn(es: seq<Escrow>, i: nat, n: nat)
    requires EscrowsOk(es, n) && i < |es|
    ensures EscrowOk(es[i], n)
    ensures forall j: nat :: j < |es| && es[j].from == es[i].from && es[j].number == es[i].number ==> j == i
  {
  }

  lemma EscrowDropped(es: seq<Escrow>, k: nat, n: nat)
    requires EscrowsOk(es, n) && k < |es|
    ensures EscrowsOk(Drop(es, k), n)
  {
    var rest := Drop(es, k);
    forall i: nat, j: nat | i < j < |rest| ensures rest[i].from != rest[j].from || rest[i].number != rest[j].number {
      assert rest[i] == es[if i < k then i else i + 1] && rest[j] == es[if j < k then j else j + 1];
    }
  }

  lemma EscrowAdded(es: seq<Escrow>, e: Escrow, n: nat)
    requires EscrowsOk(es, n) && EscrowOk(e, n) && NoEscrow(es, e.from, e.number)
    ensures EscrowsOk(es + [e], n)
  {
  }

  lemma EscrowReplaced(es: seq<Escrow>, k: nat, e: Escrow, n: nat)
    requires EscrowsOk(es, n) && k < |es| && EscrowOk(e, n) && e.from == es[k].from && e.number == es[k].number
    ensures EscrowsOk(es[k := e], n)
  {
  }

  const COLLATERAL_RATIO := 20000         // HIVE_CONVERSION_COLLATERAL_RATIO
  const CONVERSION_FEE := 500             // HIVE_COLLATERALIZED_CONVERSION_FEE

  /** HBD issued at once for locked HIVE. */
  function Immediate(x: nat, low: Price): nat
    requires Proper(low)
  {
    var half := x * HUNDRED_PERCENT / COLLATERAL_RATIO;
    var dividend, divisor := half * low.base * HUNDRED_PERCENT, low.quote * (HUNDRED_PERCENT + CONVERSION_FEE);
    DivBound(dividend, divisor, 0);
    dividend / divisor
  }

  /** HIVE burned in the end: what the HBD is worth with the fee, but never more than was locked. */
  function Burned(c: Collateral, price: Price): (r: nat)
    requires Proper(price)
    ensures r <= c.collateral
  {
    var dividend, divisor := c.converted * price.quote * (HUNDRED_PERCENT + CONVERSION_FEE),
        price.base * HUNDRED_PERCENT;
    DivBound(dividend, divisor, 0);
    var required := dividend / divisor;
    if required > c.collateral then c.collateral else required
  }

  /** What half of the HIVE, rounded down, buys in HBD at a price that is higher by the fee, rounded down. */
  lemma ImmediateIs(x: nat, low: Price, half: int)
    requires Proper(low) && Quotient(half, x, 2)
    ensures Quotient(Immediate(x, low), half * low.base * HUNDRED_PERCENT,
                     low.quote * (HUNDRED_PERCENT + CONVERSION_FEE))
  {
    QuotientIs(x * HUNDRED_PERCENT, COLLATERAL_RATIO);
    QuotientOnly(half, x * HUNDRED_PERCENT / COLLATERAL_RATIO, x, 2);
    QuotientIs(half * low.base * HUNDRED_PERCENT, low.quote * (HUNDRED_PERCENT + CONVERSION_FEE));
  }

  /** What the issued HBD are worth, raised by the fee and rounded down, or all that was locked if that is less. */
  lemma BurnedIs(c: Collateral, price: Price, worth: int)
    requires Proper(price)
    requires Quotient(worth, c.converted * price.quote * (HUNDRED_PERCENT + CONVERSION_FEE),
                      price.base * HUNDRED_PERCENT)
    ensures Burned(c, price) == if worth > c.collateral then c.collateral else worth
  {
    var dividend, divisor := c.converted * price.quote * (HUNDRED_PERCENT + CONVERSION_FEE),
        price.base * HUNDRED_PERCENT;
    QuotientIs(dividend, divisor);
    QuotientOnly(worth, dividend / divisor, dividend, divisor);
  }

  /** At an unchanged price at most half of what was locked is burned: the rest comes back. */
  lemma HalfComesBack(c: Collateral, price: Price)
    requires Proper(price) && c.converted == Immediate(c.collateral, price)
    ensures 2 * Burned(c, price) <= c.collateral
  {
    var half := c.collateral / 2;
    QuotientIs(c.collateral, 2);
    ImmediateIs(c.collateral, price, half);
    var dividend, divisor := c.converted * price.quote * (HUNDRED_PERCENT + CONVERSION_FEE),
        price.base * HUNDRED_PERCENT;
    QuotientIs(dividend, divisor);
    BurnedIs(c, price, dividend / divisor);
    Associate(c.converted, price.quote, HUNDRED_PERCENT + CONVERSION_FEE);
    Associate(half, price.base, HUNDRED_PERCENT);
    assert dividend / divisor * divisor <= half * divisor;
    MulLe(dividend / divisor, half, divisor);
  }

  ghost predicate NoConversion(cs: seq<Conversion>, owner: nat, number: nat) {
    forall i: nat :: i < |cs| ==> cs[i].owner != owner || cs[i].number != number
  }

  ghost predicate NoCollateral(cs: seq<Collateral>, owner: nat, number: nat) {
    forall i: nat :: i < |cs| ==> cs[i].owner != owner || cs[i].number != number
  }

  /**
   * Locking HIVE is possible with a price feed, while HBD is being printed, with the HIVE at hand
   * and an unused number, when it gives any HBD, and when that does not carry the debt over the limit.
   */
  ghost predicate MayLock(p: seq<Purse>, cs: seq<Collateral>, g: Globals, treasury: nat, owner: nat, number: nat,
                          x: nat,
                          median: Option<Price>, low: Price, printing: bool, stop: nat)
  {
    && treasury < |p| && Proper(low) && median.Some? && Proper(median.value) && printing && Covers(p, owner, HIVE, x)
    && NoCollateral(cs, owner, number) && Immediate(x, low) > 0 && g.supply > 0
    && (var hbd := Immediate(x, low);
        var balance := p[treasury].hbd + if owner == treasury then hbd else 0;
        HbdPercent(g.hbdSupply + hbd, balance, g.supply, median) <= stop)
  }

  /** Only the supplies change, by these amounts. */
  ghost predicate Supplies(g: Globals, g': Globals, hive: int, hbd: int) {
    g' == g.(supply := g.supply + hive, hbdSupply := g.hbdSupply + hbd)
  }

  lemma ConversionIn(cs: seq<Conversion>, i: nat, n: nat)
    requires ConversionsOk(cs, n) && i < |cs|
    ensures cs[i].owner < n
  {
  }

  lemma CollateralIn(cs: seq<Collateral>, i: nat, n: nat)
    requires CollateralsOk(cs, n) && i < |cs|
    ensures cs[i].owner < n
  {
  }

  /** HIVE becomes VESTS at the share price, and the price does not fall. */
  ghost predicate Vested(accs: seq<Account>, g: Globals, accs': seq<Account>, g': Globals, who: nat, x: nat) {
    && who < |accs| && Priced(g.fund, g.shares)
    && (var vests := ToVests(x, g.fund, g.shares);
        && accs' == accs[who := accs[who].(vests := accs[who].vests + vests)]
        && g' == g.(fund := g.fund + x, shares := g.shares + vests))
  }

  lemma VestedNoCheaper(accs: seq<Account>, g: Globals, accs': seq<Account>, g': Globals, who: nat, x: nat)
    requires Vested(accs, g, accs', g', who, x) && g.fund > 0 && g.shares > 0
    ensures NoCheaper(g.fund, g.shares, g'.fund, g'.shares)
  {
    VestingKeepsPrice(x, g.fund, g.shares);
  }

  /** Buying VESTS keeps a backed fund backed. */
  lemma VestedBacked(accs: seq<Account>, g: Globals, accs': seq<Account>, g': Globals, who: nat, x: nat)
    requires Vested(accs, g, accs', g', who, x) && Backed(g.fund, g.shares)
    ensures Backed(g'.fund, g'.shares)
  {
    if x == 0 {
      assert ToVests(0, g.fund, g.shares) == 0;
    }
  }

  /** What a block's new HIVE is split into; the treasury's part is issued as HBD. */
  datatype Inflation = Inflation(content: nat, vesting: nat, producer: nat, treasury: nat)

  /** The shares grow by exactly what the HIVE buys. */
  lemma VestedBuys(accs: seq<Account>, g: Globals, accs': seq<Account>, g': Globals, who: nat, x: nat)
    requires Vested(accs, g, accs', g', who, x)
    ensures Buys(g'.shares - g.shares, x, g.fund, g.shares)
  {
    hide ToVests, Buys;
    ToVestsIs(x, g.fund, g.shares);
  }

  const MAX_WITNESSES := 21

  /** The shares of the split, in hundredths of a percent, and the producer's weight in the round. */
  datatype Split = Split(content: nat, vesting: nat, treasury: nat, fund: nat, weight: nat, norm: nat)

  predicate Balances(c: Split) {
    c.content + c.vesting + c.treasury <= HUNDRED_PERCENT && c.fund <= HUNDRED_PERCENT && c.norm > 0
  }

  /** The producer's part, by its weight in the round. */
  function ProducerPart(part: nat, c: Split): nat
    requires c.norm > 0
  {
    MulMono(0, part, 0, MAX_WITNESSES);
    MulMono(0, part * MAX_WITNESSES, 0, c.weight);
    DivBound(part * MAX_WITNESSES * c.weight, c.norm, 0);
    part * MAX_WITNESSES * c.weight / c.norm
  }

  function Inflated(newHive: nat, c: Split): Inflation
    requires Balances(c)
  {
    var content := newHive * c.content / HUNDRED_PERCENT;
    var used := content * c.fund / HUNDRED_PERCENT;
    var vesting := newHive * c.vesting / HUNDRED_PERCENT;
    var treasury := newHive * c.treasury / HUNDRED_PERCENT;
    SplitWithin(newHive, c);
    Inflation(used, vesting, ProducerPart(newHive - used - vesting - treasury, c), treasury)
  }

  /** The parts never add up to more than the whole, so the producer's part is not negative. */
  lemma SplitWithin(newHive: nat, c: Split)
    requires Balances(c)
    ensures var content := newHive * c.content / HUNDRED_PERCENT;
            0 <= content * c.fund / HUNDRED_PERCENT <= content
            && content + newHive * c.vesting / HUNDRED_PERCENT + newHive * c.treasury / HUNDRED_PERCENT <= newHive
  {
    var content, vesting, treasury := newHive * c.content / HUNDRED_PERCENT, newHive * c.vesting / HUNDRED_PERCENT,
        newHive * c.treasury / HUNDRED_PERCENT;
    DivBound(newHive * c.content, HUNDRED_PERCENT, 0);
    MulMono(newHive, newHive, c.content + c.vesting + c.treasury, HUNDRED_PERCENT);
    assert newHive * (c.content + c.vesting + c.treasury) == newHive * c.content + newHive * c.vesting +
             newHive * c.treasury;
    MulMono(content, content, c.fund, HUNDRED_PERCENT);
  }

  /** The producer's part, and the parts of a block's new HIVE, each rounded down; the producer's is of what is left. */
  lemma InflatedIs(newHive: nat, c: Split, content: int)
    requires Balances(c) && Quotient(content, newHive * c.content, HUNDRED_PERCENT)
    ensures var n := Inflated(newHive, c);
            && Quotient(n.content, content * c.fund, HUNDRED_PERCENT)
            && Quotient(n.vesting, newHive * c.vesting, HUNDRED_PERCENT)
            && Quotient(n.treasury, newHive * c.treasury, HUNDRED_PERCENT)
            && Quotient(n.producer, (newHive - n.content - n.vesting - n.treasury) * MAX_WITNESSES * c.weight, c.norm)
  {
    QuotientIs(newHive * c.content, HUNDRED_PERCENT);
    QuotientOnly(content, newHive * c.content / HUNDRED_PERCENT, newHive * c.content, HUNDRED_PERCENT);
    var n := Inflated(newHive, c);
    QuotientIs(content * c.fund, HUNDRED_PERCENT);
    QuotientIs(newHive * c.vesting, HUNDRED_PERCENT);
    QuotientIs(newHive * c.treasury, HUNDRED_PERCENT);
    QuotientIs((newHive - n.content - n.vesting - n.treasury) * MAX_WITNESSES * c.weight, c.norm);
  }

  /** New tokens can be made when there is a price for the treasury's part, if it has one, and one for VESTS. */
  ghost predicate MayPrint(g: Globals, n: Inflation, median: Option<Price>) {
    (n.treasury > 0 ==> median.Some?) && Priced(g.fund + n.vesting, g.shares)
  }

  /** The supplies grow by what the pools, the producer and the treasury get. */
  ghost predicate Printed(g: Globals, g': Globals, n: Inflation, median: Option<Price>) {
    && (n.treasury > 0 ==> median.Some? && Proper(median.value))
    && g'.supply == g.supply + n.content + n.vesting + n.producer
    && g'.hbdSupply == g.hbdSupply + (if n.treasury > 0 then InHbd(n.treasury, median.value) else 0)
    && g'.rewardFund == g.rewardFund + n.content && g'.fund == g.fund + n.vesting + n.producer
    && Priced(g.fund + n.vesting, g.shares) && g'.shares == g.shares + ToVests(n.producer, g.fund + n.vesting, g.shares)
    && g'.pendingShares == g.pendingShares && g'.pendingHive == g.pendingHive
  }

  lemma HbdPrinted(g: Globals, g': Globals, n: Inflation, median: Option<Price>)
    requires Printed(g, g', n, median)
    ensures g'.hbdSupply - g.hbdSupply == if n.treasury > 0 then InHbd(n.treasury, median.value) else 0
  {
  }

  lemma PrintedThenVested(g: Globals, mid: Globals, g': Globals, accs: seq<Account>, accs': seq<Account>, who: nat,
                          n: Inflation, median: Option<Price>)
    requires n.treasury > 0 ==> median.Some? && Proper(median.value)
    requires var hbd := if n.treasury > 0 then InHbd(n.treasury, median.value) else 0;
             mid == g.(rewardFund := g.rewardFund + n.content, fund := g.fund + n.vesting,
                       supply := g.supply + n.content + n.vesting + n.producer, hbdSupply := g.hbdSupply + hbd)
    requires Vested(accs, mid, accs', g', who, n.producer)
    ensures Printed(g, g', n, median) && accs' ==
              accs[who := accs[who].(vests := accs[who].vests + g'.shares - g.shares)]
  {
    hide InHbd, ToVests;
  }

  /** The price of reward VESTS counts what is pending; it must be positive. */
  ghost predicate RewardPriced(g: Globals) {
    g.shares + g.pendingShares > 0 && g.fund + g.pendingHive > 0
  }

  function RewardVestsFor(g: Globals, x: nat): nat
    requires RewardPriced(g)
  {
    DivBound(x * (g.shares + g.pendingShares), g.fund + g.pendingHive, 0);
    x * (g.shares + g.pendingShares) / (g.fund + g.pendingHive)
  }

  /** A reward buys the part of all VESTS, pending ones included, that it is of all the HIVE behind them. */
  lemma RewardVestsIs(g: Globals, x: nat)
    requires RewardPriced(g)
    ensures Quotient(RewardVestsFor(g, x), x * (g.shares + g.pendingShares), g.fund + g.pendingHive)
  {
    QuotientIs(x * (g.shares + g.pendingShares), g.fund + g.pendingHive);
  }

  ghost predicate Rewarded(accs: seq<Account>, g: Globals, accs': seq<Account>, g': Globals, who: nat, x: nat) {
    && who < |accs| && RewardPriced(g)
    && (var vests, a := RewardVestsFor(g, x), accs[who];
        && accs' == accs[who := if vests == 0 then a.(rewardHive := a.rewardHive + x)
                                else a.(rewardVestHive := a.rewardVestHive + x, rewardVests := a.rewardVests + vests)]
        && g' == g.(rewardFund := g.rewardFund - x, pendingShares := g.pendingShares + vests,
                    pendingHive := g.pendingHive + x))
  }

  /** A reward of 5 HIVE where a VEST costs 10: it buys nothing, and stands in the books twice. */
  lemma RewardTooSmall(a: Account)
    ensures var g := Globals(10, 0, 10, 1, 0, 0, 5);
            var b, h := a.(rewardHive := a.rewardHive + 5), g.(rewardFund := 0, pendingHive := 5);
            && RewardPriced(g) && RewardVestsFor(g, 5) == 0 && Rewarded([a], g, [b], h, 0, 5)
            && Minus(AccountMoney(b), Supplied(h)) == Plus(Minus(AccountMoney(a), Supplied(g)), Money(5, 0, 0, 0, -5))
  {
  }

  function Printable(x: nat, printRate: nat): (r: nat)
    requires printRate <= HUNDRED_PERCENT
    ensures r <= x
  {
    MulMono(x, x, printRate, HUNDRED_PERCENT);
    DivBound(printRate * x, HUNDRED_PERCENT, 0);
    DivBound(printRate * x, HUNDRED_PERCENT, x + 1);
    printRate * x / HUNDRED_PERCENT
  }

  lemma PrintableIs(x: nat, printRate: nat)
    requires printRate <= HUNDRED_PERCENT
    ensures Quotient(Printable(x, printRate), x * printRate, HUNDRED_PERCENT)
  {
    QuotientIs(printRate * x, HUNDRED_PERCENT);
  }

  ghost predicate HbdRewarded(accs: seq<Account>, g: Globals, accs': seq<Account>, g': Globals, who: nat, x: nat,
                              printRate: nat, median: Price) {
    && who < |accs| && printRate <= HUNDRED_PERCENT && Proper(median)
    && (var part := Printable(x, printRate);
        var hbd := InHbd(part, median);
        && accs' == accs[who := accs[who].(rewardHbd := accs[who].rewardHbd + hbd, rewardHive := accs[who].rewardHive +
                                             (x - part))]
        && g' == g.(rewardFund := g.rewardFund - x, supply := g.supply - part, hbdSupply := g.hbdSupply + hbd))
  }

  ghost predicate Claimable(a: Account, hive: nat, hbd: nat, vests: nat) {
    hive <= a.rewardHive && hbd <= a.rewardHbd && vests <= a.rewardVests
  }

  /** The HIVE behind part of the unclaimed VESTS; all of it when all are claimed. */
  function Behind(a: Account, vests: nat): (r: nat)
    requires vests <= a.rewardVests
    ensures r <= a.rewardVestHive
  {
    if vests == a.rewardVests then a.rewardVestHive
    else
      MulMono(vests, a.rewardVests, a.rewardVestHive, a.rewardVestHive);
      DivBound(vests * a.rewardVestHive, a.rewardVests, 0);
      DivBound(vests * a.rewardVestHive, a.rewardVests, a.rewardVestHive + 1);
      assert (a.rewardVestHive + 1) * a.rewardVests == a.rewardVests * a.rewardVestHive + a.rewardVests;
      vests * a.rewardVestHive / a.rewardVests
  }

  /** The part of the HIVE that the claimed VESTS are of all unclaimed ones; the last claim leaves none behind. */
  lemma BehindIs(a: Account, vests: nat)
    requires vests <= a.rewardVests
    ensures a.rewardVests > 0 ==> Quotient(Behind(a, vests), vests * a.rewardVestHive, a.rewardVests)
    ensures vests == a.rewardVests ==> Behind(a, vests) == a.rewardVestHive
  {
    if vests < a.rewardVests {
      QuotientIs(vests * a.rewardVestHive, a.rewardVests);
    } else {
      assert (a.rewardVestHive + 1) * vests == vests * a.rewardVestHive + vests;
    }
  }

  ghost predicate Claimed(accs: seq<Account>, g: Globals, accs': seq<Account>, g': Globals, who: nat, hive: nat,
                          hbd: nat, vests: nat) {
    && who < |accs| && Claimable(accs[who], hive, hbd, vests)
    && (var a, moved := accs[who], Behind(accs[who], vests);
        && accs' == accs[who := a.(rewardHive := a.rewardHive - hive, rewardHbd := a.rewardHbd - hbd,
                                   vests := a.vests + vests,
                                   rewardVests := a.rewardVests - vests, rewardVestHive := a.rewardVestHive - moved)]
        && g' == g.(shares := g.shares + vests, fund := g.fund + moved, pendingShares := g.pendingShares - vests,
                    pendingHive := g.pendingHive - moved))
  }

  const WITHDRAW_INTERVAL := 604800       // one week, in seconds

  ghost predicate MayPowerDown(a: Account, x: nat) {
    && a.vests >= a.delegated && a.vests - a.delegated >= x
    && (if x == 0 then a.power.Active? else a.power.Idle? || a.power.rate != Rate(x))
  }

  function Planned(x: nat, now: nat): PowerDown {
    if x == 0 then Idle else Active(Rate(x), now + WITHDRAW_INTERVAL, x, 0)
  }

  /** The next part of a power-down: the weekly rate, or what is left of the total or of the VESTS. */
  function NextPart(a: Account): nat {
    var due := if a.power.Idle? then 0
               else if a.power.total <= a.power.done then 0
               else if a.power.rate < a.power.total - a.power.done then a.power.rate else a.power.total - a.power.done;
    if due > a.vests then a.vests else due
  }

  /** The power-down after a part: over when all has been withdrawn or no VESTS are left. */
  function Moved(p: PowerDown, part: nat, vests: nat): PowerDown {
    if p.Idle? || p.total <= p.done + part || vests == 0 then Idle
    else p.(done := p.done + part, next := p.next + WITHDRAW_INTERVAL)
  }

  function PoolOf(g: Globals): Pool {
    Pool(g.fund, g.shares)
  }

  /** One deposit along a route: VESTS as they are, or HIVE cashed in for them. */
  ghost predicate Deposited(accs: seq<Account>, p: seq<Purse>, g: Globals, accs': seq<Account>, p': seq<Purse>,
                            g': Globals,
                            dest: nat, d: nat, autoVest: bool)
  {
    && dest < |accs| && dest < |p|
    && if autoVest then p' == p && g' == g && accs' == accs[dest := accs[dest].(vests := accs[dest].vests + d)]
       else Priced(g.fund, g.shares) &&
            var hive := ToHive(d, g.fund, g.shares);
            accs' == accs && p' == Bump(p, dest, HIVE, hive) && g' == g.(fund := g.fund - hive, shares := g.shares - d)
  }

  /** The first pass: every destination has got exactly its VESTS. */
  ghost predicate VestsPassed(accs: seq<Account>, accs': seq<Account>, routes: seq<Route>, who: nat, amount: nat) {
    |accs'| == |accs| &&
    forall k: nat :: k < |accs| ==> accs'[k] ==
                                      accs[k].(vests := accs[k].vests + DepositsTo(routes, who, amount, true, k))
  }

  /** The second pass: every destination has got exactly the HIVE its VESTS were worth, each at its moment. */
  ghost predicate HivePassed(p: seq<Purse>, g: Globals, p': seq<Purse>, g': Globals, routes: seq<Route>, who: nat,
                             amount: nat) {
    && CashAlong(routes, who, amount, PoolOf(g)) == Some(PoolOf(g')) && g' ==
         g.(fund := g'.fund, shares := g'.shares) && |p'| == |p|
    && forall k: nat :: k < |p| ==> p'[k] == Purse(p[k].hive + HiveTo(routes, who, amount, PoolOf(g), k), p[k].hbd)
  }

  /** What a pass over the routes of one kind does. */
  ghost predicate Passed(accs: seq<Account>, p: seq<Purse>, g: Globals, accs': seq<Account>, p': seq<Purse>,
                         g': Globals,
                         routes: seq<Route>, who: nat, amount: nat, autoVest: bool)
  {
    if autoVest then p' == p && g' == g && VestsPassed(accs, accs', routes, who, amount)
    else accs' == accs && HivePassed(p, g, p', g', routes, who, amount)
  }

  lemma PassedNone(accs: seq<Account>, p: seq<Purse>, g: Globals, routes: seq<Route>, who: nat, amount: nat,
                   autoVest: bool)
    ensures Passed(accs, p, g, accs, p, g, routes[..0], who, amount, autoVest)
  {
  }

  lemma VestsPassedOne(accs: seq<Account>, accs1: seq<Account>, accs2: seq<Account>, routes: seq<Route>, i: nat,
                       who: nat, amount: nat)
    requires i < |routes| && VestsPassed(accs, accs1, routes[..i], who, amount) && routes[i].dest < |accs|
    requires var d, dest := DepositBy(routes[i], who, amount, true), routes[i].dest;
             accs2 == if d > 0 then accs1[dest := accs1[dest].(vests := accs1[dest].vests + d)] else accs1
    ensures VestsPassed(accs, accs2, routes[..i + 1], who, amount)
  {
    hide DepositBy, DepositsTo;
    forall k: nat | k < |accs| ensures accs2[k] ==
      accs[k].(vests := accs[k].vests + DepositsTo(routes[..i + 1], who, amount, true, k)) {
      DepositsToStep(routes, i, who, amount, true, k);
    }
  }

  lemma HivePassedOne(p: seq<Purse>, g: Globals, p1: seq<Purse>, g1: Globals, p2: seq<Purse>, g2: Globals,
                      routes: seq<Route>, i: nat, who: nat, amount: nat)
    requires i < |routes| && HivePassed(p, g, p1, g1, routes[..i], who, amount) && routes[i].dest < |p|
    requires var d := DepositBy(routes[i], who, amount, false);
             if d == 0 then p2 == p1 && g2 == g1
             else Priced(g1.fund, g1.shares) && p2 == Bump(p1, routes[i].dest, HIVE, ToHive(d, g1.fund, g1.shares)) &&
                  g2 == g1.(fund := g1.fund - ToHive(d, g1.fund, g1.shares), shares := g1.shares - d)
    ensures HivePassed(p, g, p2, g2, routes[..i + 1], who, amount)
  {
    hide DepositBy, CashAlong, HiveTo, ToHive;
    CashAlongStep(routes, i, who, amount, PoolOf(g));
    forall k: nat | k < |p| ensures p2[k] ==
      Purse(p[k].hive + HiveTo(routes[..i + 1], who, amount, PoolOf(g), k), p[k].hbd) {
      HiveToStep(routes, i, who, amount, PoolOf(g), k);
    }
  }

  /** One more route; a deposit of nothing is no deposit. */
  lemma PassedOne(accs: seq<Account>, p: seq<Purse>, g: Globals, accs1: seq<Account>, p1: seq<Purse>, g1: Globals,
                  accs2: seq<Account>, p2: seq<Purse>, g2: Globals, routes: seq<Route>, i: nat, who: nat, amount: nat,
                  autoVest: bool)
    requires i < |routes| && Passed(accs, p, g, accs1, p1, g1, routes[..i], who, amount, autoVest) &&
             routes[i].dest < |accs| == |p|
    requires var d := DepositBy(routes[i], who, amount, autoVest);
             if d > 0 then Deposited(accs1, p1, g1, accs2, p2, g2, routes[i].dest, d, autoVest)
             else accs2 == accs1 && p2 == p1 && g2 == g1
    ensures Passed(accs, p, g, accs2, p2, g2, routes[..i + 1], who, amount, autoVest)
  {
    hide DepositBy, CashAlong, HiveTo, ToHive, DepositsTo, VestsPassed, HivePassed;
    if autoVest {
      VestsPassedOne(accs, accs1, accs2, routes, i, who, amount);
    } else {
      HivePassedOne(p, g, p1, g1, p2, g2, routes, i, who, amount);
    }
  }

  /** The pass can go on as far as the next deposit has a price. */
  lemma {:induction false} PassStuck(p: seq<Purse>, g: Globals, p1: seq<Purse>, g1: Globals, routes: seq<Route>, i: nat,
                                     who: nat, amount: nat)
    requires i < |routes| && HivePassed(p, g, p1, g1, routes[..i], who, amount)
    requires DepositBy(routes[i], who, amount, false) > 0 && !Priced(g1.fund, g1.shares)
    ensures CashAlong(routes, who, amount, PoolOf(g)).None?
  {
    CashAlongStep(routes, i, who, amount, PoolOf(g));
    CashStuck(routes, i + 1, who, amount, PoolOf(g));
  }

  lemma {:induction false} PassedStuck(accs: seq<Account>, p: seq<Purse>, g: Globals, accs1: seq<Account>,
                                       p1: seq<Purse>, g1: Globals, routes: seq<Route>, i: nat, who: nat, amount: nat)
    requires i < |routes| && Passed(accs, p, g, accs1, p1, g1, routes[..i], who, amount, false)
    requires DepositBy(routes[i], who, amount, false) > 0 && !Priced(g1.fund, g1.shares)
    ensures CashAlong(routes, who, amount, PoolOf(g)).None?
  {
    PassStuck(p, g, p1, g1, routes, i, who, amount);
  }

  lemma {:induction false} PassedWhole(accs: seq<Account>, p: seq<Purse>, g: Globals, accs': seq<Account>,
                                       p': seq<Purse>, g': Globals, routes: seq<Route>, who: nat, amount: nat,
                                       autoVest: bool)
    requires Passed(accs, p, g, accs', p', g', routes, who, amount, autoVest)
    ensures autoVest || CashAlong(routes, who, amount, PoolOf(g)).Some?
  {
  }

  lemma {:induction false} HivePool(p: seq<Purse>, g: Globals, p': seq<Purse>, g': Globals, routes: seq<Route>,
                                    who: nat, amount: nat)
    requires HivePassed(p, g, p', g', routes, who, amount)
    ensures CashAlong(routes, who, amount, PoolOf(g)) == Some(PoolOf(g'))
  {
  }

  lemma VestsKept(accs: seq<Account>, accs': seq<Account>, routes: seq<Route>, who: nat, amount: nat)
    requires VestsPassed(accs, accs', routes, who, amount) && who < |accs|
    ensures |accs'| == |accs| && accs'[who].vests >= accs[who].vests
  {
    assert accs'[who].vests == accs[who].vests + DepositsTo(routes, who, amount, true, who);
  }

  /** There is a price for every deposit in HIVE and for what is left. */
  ghost predicate PartPriced(g: Globals, routes: seq<Route>, who: nat, w: nat) {
    var mid := CashAlong(routes, who, w, PoolOf(g));
    mid.Some? && Priced(mid.value.fund, mid.value.shares)
  }

  /** What is not routed of a part. */
  ghost function Rest(routes: seq<Route>, who: nat, w: nat): int {
    w - DepositsBy(routes, who, w, true) - DepositsBy(routes, who, w, false)
  }

  /**
   * One part of the power-down of `who`, to the last unit: the part leaves its VESTS, every
   * destination of its routes gets exactly its VESTS or the HIVE they are worth at their moment,
   * `who` gets the HIVE the rest is worth, and the power-down moves on.
   */
  ghost predicate PartPaid(accs: seq<Account>, p: seq<Purse>, g: Globals, accs': seq<Account>, p': seq<Purse>,
                           g': Globals, routes: seq<Route>, who: nat) {
    && who < |accs| == |p| && |accs'| == |accs| && |p'| == |p|
    && (var w := NextPart(accs[who]);
        && PartPriced(g, routes, who, w) && Rest(routes, who, w) >= 0
        && (var mid, rest := CashAlong(routes, who, w, PoolOf(g)).value, Rest(routes, who, w);
            && accs'[who].vests == accs[who].vests + DepositsTo(routes, who, w, true, who) - w
            && accs'[who] == accs[who].(vests := accs'[who].vests, power := Moved(accs[who].power, w, accs'[who].vests))
            && (forall k: nat :: k < |accs| && k != who ==>
                  accs'[k] == accs[k].(vests := accs[k].vests + DepositsTo(routes, who, w, true, k)))
            && (forall k: nat :: k < |p| ==>
                  p'[k] == Purse(p[k].hive + HiveTo(routes, who, w, PoolOf(g), k) +
                                   (if k == who then ToHive(rest, mid.fund, mid.shares) else 0), p[k].hbd))
            && PoolOf(g') == Cash(mid, rest) && g' == g.(fund := g'.fund, shares := g'.shares)))
  }

  /** Each amount a part is cashed in by, along the routes and at its end, is less than the fixed price pays for. */
  ghost predicate TooLittle(routes: seq<Route>, who: nat, w: nat) {
    (forall i: nat :: i < |routes| ==> DepositBy(routes[i], who, w, false) < LEAST_PAID) &&
    Rest(routes, who, w) < LEAST_PAID
  }

  /**
   * Where the fund is not negative before a part, it is not afterwards and a VEST is worth no less
   * exactly when there was something in the fund or everything the part is cashed in by is too
   * little for the fixed price. A backed fund stays backed, and has a price for every part.
   */
  lemma PartExact(accs: seq<Account>, p: seq<Purse>, g: Globals, accs': seq<Account>, p': seq<Purse>, g': Globals,
                  routes: seq<Route>, who: nat)
    requires PartPaid(accs, p, g, accs', p', g', routes, who) && RoutesIn(routes, |accs|) &&
             accs[who].vests <= g.shares && g.fund >= 0
    ensures g'.fund >= 0 && NoCheaper(g.fund, g.shares, g'.fund, g'.shares) <==>
            g.fund > 0 || TooLittle(routes, who, NextPart(accs[who]))
    ensures g'.fund <= g.fund && (Backed(g.fund, g.shares) ==> Backed(g'.fund, g'.shares))
  {
    hide DepositsTo, DepositsBy, DepositBy, Moved, NextPart, HiveTo, CashAlong, RoutesIn, Cash;
    var w := NextPart(accs[who]);
    PartWithin(accs[who]);
    RoutesWithin(routes, |accs|, who, w);
    CashTakes(routes, who, w, PoolOf(g));
    var mid := CashAlong(routes, who, w, PoolOf(g)).value;
    CashLess(mid, Rest(routes, who, w));
    if g.fund == 0 {
      CashEmpty(routes, who, w, PoolOf(g));
      CashEmptyOne(mid, Rest(routes, who, w));
    }
    if Backed(g.fund, g.shares) {
      CashBacked(routes, who, w, PoolOf(g));
      CashKeeps(PoolOf(g), mid, Rest(routes, who, w));
    } else {
      EmptyFund(g.shares, g'.fund, g'.shares);
    }
  }

  lemma CashLess(p: Pool, d: nat)
    requires Priced(p.fund, p.shares)
    ensures Cash(p, d).fund <= p.fund
  {
  }

  lemma EmptyFund(shares: int, fund': int, shares': int)
    requires shares > 0 && fund' <= 0
    ensures NoCheaper(0, shares, fund', shares') <==> fund' == 0
  {
    if fund' < 0 {
      MulLe(1, shares, 1);
      assert fund' * shares <= -1 * shares;
    }
  }

  /** In a backed fund every part has its prices. */
  lemma PartHasPrices(accs: seq<Account>, g: Globals, routes: seq<Route>, who: nat)
    requires RoutesIn(routes, |accs|) && who < |accs| && accs[who].vests <= g.shares && Backed(g.fund, g.shares)
    ensures PartPriced(g, routes, who, NextPart(accs[who]))
  {
    hide DepositsBy, NextPart, CashAlong, RoutesIn;
    PartWithin(accs[who]);
    RoutesWithin(routes, |accs|, who, NextPart(accs[who]));
    CashBacked(routes, who, NextPart(accs[who]), PoolOf(g));
  }

  /** The part leaves the VESTS of `who`, and what was not routed is cashed in. */
  ghost predicate Cashed(accs: seq<Account>, p: seq<Purse>, g: Globals, accs': seq<Account>, p': seq<Purse>,
                         g': Globals, who: nat, w: nat, rest: nat) {
    && who < |accs| && who < |p| && Priced(g.fund, g.shares) && accs[who].vests >= w
    && (var hive, left := ToHive(rest, g.fund, g.shares), accs[who].vests - w;
        && accs' == accs[who := accs[who].(vests := left, power := Moved(accs[who].power, w, left))]
        && Debited(p, p', who, HIVE, 0 - hive)
        && g' == g.(fund := g.fund - hive, shares := g.shares - rest))
  }

  lemma PartDone(accs: seq<Account>, p: seq<Purse>, g: Globals, accs1: seq<Account>, p1: seq<Purse>, g1: Globals,
                 accs2: seq<Account>, p2: seq<Purse>, g2: Globals, routes: seq<Route>, who: nat, w: nat)
    requires who < |accs| == |p| && w == NextPart(accs[who]) && Rest(routes, who, w) >= 0
    requires VestsPassed(accs, accs1, routes, who, w) && HivePassed(p, g, p1, g1, routes, who, w)
    requires Cashed(accs1, p1, g1, accs2, p2, g2, who, w, Rest(routes, who, w))
    ensures PartPaid(accs, p, g, accs2, p2, g2, routes, who)
  {
    hide DepositsTo, DepositsBy, Moved, NextPart, ToHive, HiveTo, CashAlong, Rest;
  }

  /** Everything the ledger holds at one moment. */
  datatype Snapshot = Snapshot(accounts: seq<Account>, g: Globals, purses: seq<Purse>, book: Book, nextId: nat,
                               escrows: seq<Escrow>, withdrawals: seq<Withdrawal>, conversions: seq<Conversion>,
                               collaterals: seq<Collateral>, routes: seq<Route>)

  ghost predicate DuePower(p: PowerDown, now: nat) {
    p.Active? && p.next <= now
  }

  /** Without shares there is nothing to cash in. */
  lemma PartStill(accs: seq<Account>, p: seq<Purse>, g: Globals, accs': seq<Account>, p': seq<Purse>, g': Globals,
                  routes: seq<Route>, who: nat)
    requires PartPaid(accs, p, g, accs', p', g', routes, who) && RoutesIn(routes, |accs|) &&
             accs[who].vests <= g.shares && Backed(g.fund, g.shares)
    ensures NoCheaper(g.fund, g.shares, g'.fund, g'.shares) && (g.shares == 0 ==> PoolOf(g') == PoolOf(g))
  {
    hide DepositsTo, DepositsBy, NextPart, HiveTo, CashAlong, RoutesIn, Cash;
    var w := NextPart(accs[who]);
    PartWithin(accs[who]);
    RoutesWithin(routes, |accs|, who, w);
    CashBacked(routes, who, w, PoolOf(g));
    CashTakes(routes, who, w, PoolOf(g));
    var mid := CashAlong(routes, who, w, PoolOf(g)).value;
    CashKeeps(PoolOf(g), mid, Rest(routes, who, w));
    if g.shares == 0 {
      NothingAlong(routes, who, PoolOf(g));
    }
  }

  lemma {:induction false} NothingAlong(routes: seq<Route>, who: nat, p: Pool)
    ensures CashAlong(routes, who, 0, p) == Some(p)
    decreases |routes|
  {
    if routes != [] {
      NothingAlong(routes[..|routes| - 1], who, p);
    }
  }

  lemma PartWithin(a: Account)
    ensures NextPart(a) <= a.vests
  {
  }

  /** VESTS are held by accounts and nowhere else, so the shares cover what any one of them has. */
  lemma SharesCover(purses: seq<Purse>, book: Book, accounts: seq<Account>, escrows: seq<Escrow>,
                    withdrawals: seq<Withdrawal>,
                    conversions: seq<Conversion>, collaterals: seq<Collateral>, g: Globals, who: nat)
    requires Holdings(purses, book, accounts, escrows, withdrawals, conversions, collaterals).vests == g.shares &&
             who < |accounts|
    ensures accounts[who].vests <= g.shares
  {
    hide Sum, Supply;
    SumNoVests(escrows, EscrowMoney);
    SumNoVests(withdrawals, WithdrawalMoney);
    SumNoVests(conversions, ConversionMoney);
    SumNoVests(collaterals, CollateralMoney);
    SumCovers(accounts, who);
  }

  lemma {:induction false} SumCovers(accs: seq<Account>, who: nat)
    requires who < |accs|
    ensures accs[who].vests <= Sum(accs, AccountMoney).vests
    decreases |accs|
  {
    var n := |accs| - 1;
    if who < n {
      SumCovers(accs[..n], who);
    } else {
      SumNonNegative(accs[..n]);
    }
  }

  lemma {:induction false} SumNonNegative(accs: seq<Account>)
    ensures Sum(accs, AccountMoney).vests >= 0
    decreases |accs|
  {
    if accs != [] {
      SumNonNegative(accs[..|accs| - 1]);
    }
  }

  lemma {:induction false} RoutesWithin(routes: seq<Route>, n: nat, who: nat, w: nat)
    requires RoutesIn(routes, n)
    ensures DepositsBy(routes, who, w, true) + DepositsBy(routes, who, w, false) == Deposits(routes, who, w) <= w
  {
    DepositsWithin(routes, who, w);
    DepositsByKind(routes, who, w);
  }

  lemma {:induction false} NoRoutesYet(routes: seq<Route>, who: nat, w: nat, autoVest: bool)
    ensures DepositsBy(routes[..0], who, w, autoVest) == 0
  {
  }

  lemma KeepGoing(f0: nat, s0: nat, f1: nat, s1: nat, f2: nat, s2: nat)
    requires NoCheaper(f0, s0, f1, s1) && NoCheaper(f1, s1, f2, s2) && (s1 > 0 || (f1 == f2 && s1 == s2))
    ensures NoCheaper(f0, s0, f2, s2)
  {
    if s1 > 0 {
      NoCheaperTransitive(f0, s0, f1, s1, f2, s2);
    }
  }

  lemma RouteIn(routes: seq<Route>, i: nat, n: nat)
    requires RoutesIn(routes, n) && i < |routes|
    ensures routes[i].from < n && routes[i].dest < n
  {
  }

  lemma RoutesStayIn(before: seq<Route>, after: seq<Route>, r: Route, n: nat)
    requires RoutesIn(before, n) && RoutesOk(after) && RouteSet(before, after, r) && r.from < n && r.dest < n
    ensures RoutesIn(after, n)
  {
    forall i: nat | i < |after| ensures after[i].from < n && after[i].dest < n {
      var x := after[i];
      if x.from != r.from || x.dest != r.dest {
        assert x in after && x in before;
      }
    }
  }

  // ---- settling everything that is due ----

  /** What `x` is paid out of everything in `s`, where `pay` says what anyone is paid out of one of them. */
  ghost function PaidOut<T>(s: seq<T>, x: nat, pay: (nat, T) -> Money): Money {
    if s == [] then ZERO else Plus(PaidOut(s[..|s| - 1], x, pay), pay(x, s[|s| - 1]))
  }

  lemma {:induction false} PaidOutDrop<T>(s: seq<T>, k: nat, x: nat, pay: (nat, T) -> Money)
    requires k < |s|
    ensures PaidOut(Drop(s, k), x, pay) == Minus(PaidOut(s, x, pay), pay(x, s[k]))
    decreases |s|
  {
    var n := |s| - 1;
    if k < n {
      assert Drop(s, k)[..n - 1] == Drop(s[..n], k);
      PaidOutDrop(s[..n], k, x, pay);
    } else {
      assert Drop(s, k) == s[..n];
    }
  }

  lemma {:induction false} PaidOutNone<T>(s: seq<T>, x: nat, pay: (nat, T) -> Money)
    requires forall i: nat :: i < |s| ==> pay(x, s[i]) == ZERO
    ensures PaidOut(s, x, pay) == ZERO
    decreases |s|
  {
    if s != [] {
      var init := s[..|s| - 1];
      forall i: nat | i < |init| ensures pay(x, init[i]) == ZERO {
        assert init[i] == s[i];
      }
      PaidOutNone(init, x, pay);
      assert pay(x, s[|s| - 1]) == ZERO;
    }
  }

  /** Everybody has been paid the difference between what was to be paid out of `s` and out of `s'`. */
  ghost predicate PaidDown<T>(p: seq<Purse>, s: seq<T>, p': seq<Purse>, s': seq<T>, pay: (nat, T) -> Money) {
    && |p'| == |p|
    && forall x: nat :: x < |p| ==>
         && p'[x].hive + PaidOut(s', x, pay).hive == p[x].hive + PaidOut(s, x, pay).hive
         && p'[x].hbd + PaidOut(s', x, pay).hbd == p[x].hbd + PaidOut(s, x, pay).hbd
  }

  lemma PaidDownStep<T>(p: seq<Purse>, s: seq<T>, p1: seq<Purse>, s1: seq<T>, k: nat, p2: seq<Purse>,
                        pay: (nat, T) -> Money,
                        who: nat, hive: int, hbd: int)
    requires PaidDown(p, s, p1, s1, pay) && k < |s1| && Spent(p1, p2, who, 0 - hive, 0 - hbd)
    requires forall x: nat :: pay(x, s1[k]) == if x == who then Money(hive, hbd, 0, 0, 0) else ZERO
    ensures PaidDown(p, s, p2, Drop(s1, k), pay)
  {
    forall x: nat | x < |p|
      ensures p2[x].hive + PaidOut(Drop(s1, k), x, pay).hive == p[x].hive + PaidOut(s, x, pay).hive
      ensures p2[x].hbd + PaidOut(Drop(s1, k), x, pay).hbd == p[x].hbd + PaidOut(s, x, pay).hbd
    {
      PaidOutDrop(s1, k, x, pay);
    }
  }

  /** Settling everything due has come to position `k`. */
  ghost predicate Settling<T(!new)>(p: seq<Purse>, s: seq<T>, p': seq<Purse>, s': seq<T>, k: nat,
                                    pay: (nat, T) -> Money, due: T -> bool) {
    && k <= |s'| && (forall i: nat :: i < k ==> !due(s'[i]))
    && (forall t :: t in s' ==> t in s) && (forall t :: t in s && !due(t) ==> t in s')
    && PaidDown(p, s, p', s', pay)
  }

  /** Exactly what is not due is left, and everybody has been paid exactly what was due to them. */
  ghost predicate AllSettled<T(!new)>(p: seq<Purse>, s: seq<T>, p': seq<Purse>, s': seq<T>, pay: (nat, T) -> Money,
                                      due: T -> bool) {
    && (forall t :: t in s' <==> t in s && !due(t))
    && |p'| == |p| && forall x: nat :: x < |p| ==> p'[x] ==
                                                     Purse(p[x].hive + PaidOut(s, x, pay).hive, p[x].hbd +
                                                             PaidOut(s, x, pay).hbd)
  }

  lemma SettleNone<T(!new)>(p: seq<Purse>, s: seq<T>, pay: (nat, T) -> Money, due: T -> bool)
    ensures Settling(p, s, p, s, 0, pay, due)
  {
  }

  lemma SettleSkip<T(!new)>(p: seq<Purse>, s: seq<T>, p1: seq<Purse>, s1: seq<T>, k: nat, pay: (nat, T) -> Money,
                            due: T -> bool)
    requires Settling(p, s, p1, s1, k, pay, due) && k < |s1| && !due(s1[k])
    ensures Settling(p, s, p1, s1, k + 1, pay, due)
  {
  }

  lemma SettlePay<T(!new)>(p: seq<Purse>, s: seq<T>, p1: seq<Purse>, s1: seq<T>, k: nat, p2: seq<Purse>, s2: seq<T>,
                           pay: (nat, T) -> Money, due: T -> bool,
                           who: nat, hive: int, hbd: int)
    requires Settling(p, s, p1, s1, k, pay, due) && k < |s1| && due(s1[k]) && s2 == Drop(s1, k) &&
             Spent(p1, p2, who, 0 - hive, 0 - hbd)
    requires forall x: nat :: pay(x, s1[k]) == if x == who then Money(hive, hbd, 0, 0, 0) else ZERO
    ensures Settling(p, s, p2, s2, k, pay, due) && |s2| == |s1| - 1
  {
    hide PaidDown;
    PaidDownStep(p, s, p1, s1, k, p2, pay, who, hive, hbd);
    DropMembers(s1, k);
  }

  lemma SettleDone<T(!new)>(p: seq<Purse>, s: seq<T>, p': seq<Purse>, s': seq<T>, pay: (nat, T) -> Money,
                            due: T -> bool)
    requires Settling(p, s, p', s', |s'|, pay, due) && forall x: nat, t: T :: !due(t) ==> pay(x, t) == ZERO
    ensures AllSettled(p, s, p', s', pay, due)
  {
    hide PaidOut;
    forall x: nat | x < |p| ensures PaidOut(s', x, pay) == ZERO {
      forall i: nat | i < |s'| ensures pay(x, s'[i]) == ZERO {
        assert !due(s'[i]);
      }
      PaidOutNone(s', x, pay);
    }
    forall t | t in s' ensures !due(t) {
      var i: nat :| i < |s'| && s'[i] == t;
    }
  }

  lemma DebitedSpent(p: seq<Purse>, p': seq<Purse>, who: nat, a: Asset, x: int)
    requires Debited(p, p', who, a, x)
    ensures Spent(p, p', who, if a == HIVE then x else 0, if a == HBD then x else 0)
  {
  }

  ghost function DueWithdrawal(now: nat): Withdrawal -> bool {
    (w: Withdrawal) => w.complete <= now
  }

  /** A withdrawal from savings that is due goes to its destination. */
  ghost function WithdrawalPay(now: nat): (nat, Withdrawal) -> Money {
    (x: nat, w: Withdrawal) => if w.complete <= now && w.dest == x then WithdrawalMoney(w) else ZERO
  }

  lemma WithdrawalPays(now: nat, w: Withdrawal)
    requires w.complete <= now
    ensures forall x: nat :: WithdrawalPay(now)(x, w) ==
              if x == w.dest then Money(if w.asset == HIVE then w.amount
                                        else 0, if w.asset == HBD then w.amount else 0, 0, 0, 0) else ZERO
  {
    assert w.asset == HIVE || w.asset == HBD;
    assert WithdrawalMoney(w) ==
             Money(if w.asset == HIVE then w.amount else 0, if w.asset == HBD then w.amount else 0, 0, 0, 0);
  }

  ghost function DueEscrow(now: nat): Escrow -> bool {
    (e: Escrow) => Overdue(e, now)
  }

  /** An escrow not approved in time goes back, fee included. */
  ghost function EscrowPay(now: nat): (nat, Escrow) -> Money {
    (x: nat, e: Escrow) => if Overdue(e, now) && e.from == x then EscrowMoney(e) else ZERO
  }

  lemma EscrowPays(now: nat, e: Escrow)
    requires Overdue(e, now)
    ensures forall x: nat :: EscrowPay(now)(x, e) == if x ==
                               e.from then Money(Spends(e, HIVE), Spends(e, HBD), 0, 0, 0) else ZERO
  {
    EscrowSpends(e);
  }

  ghost function DueConversion(now: nat): Conversion -> bool {
    (c: Conversion) => c.date <= now
  }

  /** A conversion that is due pays what its HBD is worth. */
  ghost function ConversionPay(now: nat, median: Price): (nat, Conversion) -> Money
    requires Proper(median)
  {
    (x: nat, c: Conversion) => if c.date <= now && c.owner == x then Amount(HIVE, InHive(c.hbd, median)) else ZERO
  }

  lemma ConversionPays(now: nat, median: Price, c: Conversion)
    requires Proper(median) && c.date <= now
    ensures forall x: nat :: ConversionPay(now, median)(x, c) == if x ==
                               c.owner then Money(InHive(c.hbd, median), 0, 0, 0, 0) else ZERO
  {
    assert Amount(HIVE, InHive(c.hbd, median)) == Money(InHive(c.hbd, median), 0, 0, 0, 0);
  }

  ghost function DueCollateral(now: nat): Collateral -> bool {
    (c: Collateral) => c.date <= now
  }

  /** A collateralized conversion that is due gives back what is left of the collateral. */
  ghost function CollateralPay(now: nat, price: Price): (nat, Collateral) -> Money
    requires Proper(price)
  {
    (x: nat, c: Collateral) => if c.date <= now && c.owner == x then Amount(HIVE, c.collateral - Burned(c, price))
                               else ZERO
  }

  lemma CollateralPays(now: nat, price: Price, c: Collateral)
    requires Proper(price) && c.date <= now
    ensures forall x: nat :: CollateralPay(now, price)(x, c) == if x ==
                               c.owner then Money(c.collateral - Burned(c, price), 0, 0, 0, 0) else ZERO
  {
    assert Amount(HIVE, c.collateral - Burned(c, price)) == Money(c.collateral - Burned(c, price), 0, 0, 0, 0);
  }

  // ---- operations as data ----

  const SAVINGS_WITHDRAW_TIME := 259200   // three days, in seconds
  const CONVERSION_DELAY := 302400        // three and a half days, in seconds

  /** The prices of a block, each absent until there is one, and what they imply for printing HBD. */
  datatype Feed = Feed(median: Option<Price>, market: Option<Price>, low: Option<Price>, printRate: nat, stop: nat)

  ghost predicate FeedOk(f: Feed) {
    && (f.median.Some? ==> Proper(f.median.value)) && (f.market.Some? ==> Proper(f.market.value)) &&
       (f.low.Some? ==> Proper(f.low.value))
    && f.printRate <= HUNDRED_PERCENT
  }

  datatype SavingOp =
    | Save(from: nat, dest: nat, asset: Asset, amount: nat, interest: nat)
    | Ask(from: nat, number: nat, dest: nat, asset: Asset, amount: nat, interest: nat)
    | TakeBack(from: nat, number: nat, interest: nat)

  datatype EscrowOp =
    | Begin(escrow: Escrow)
    | Approve(from: nat, number: nat, dest: nat, agent: nat, who: nat, approve: bool)
    | Dispute(from: nat, number: nat, dest: nat, agent: nat)
    | Release(from: nat, number: nat, dest: nat, agent: nat, who: nat, receiver: nat, hive: nat, hbd: nat)

  datatype ConversionOp = FromHbd(owner: nat, number: nat, amount: nat) | FromHive(owner: nat, number: nat, amount: nat)

  datatype VestingOp = PowerUp(from: nat, dest: nat, amount: nat) | Down(who: nat, vests: nat) | Routing(route: Route)

  datatype RewardOp =
    | Mint(newHive: nat, split: Split, producer: nat)
    | GiveVests(who: nat, amount: nat)
    | GiveHbd(who: nat, amount: nat)
    | Claim(who: nat, hive: nat, hbd: nat, vests: nat)

  datatype Op =
    | Send(from: nat, dest: nat, asset: Asset, amount: nat)
    | Trade(owner: nat, asset: Asset, forSale: int, base: int, quote: int, number: nat, expiration: nat,
            fillOrKill: bool)
    | Withdraw(owner: nat, number: nat)
    | Saving(saving: SavingOp)
    | Escrowed(escrow: EscrowOp)
    | Converting(conversion: ConversionOp)
    | Powering(vesting: VestingOp)
    | Paying(reward: RewardOp)
    | EndOfBlock

  /** HIVE an operation puts into the books twice: a reward in VESTS that buys none. */
  ghost function LostBy(op: Op, n: nat, g: Globals): nat {
    if op.Paying? && op.reward.GiveVests? && op.reward.who < n && RewardPriced(g) &&
       RewardVestsFor(g, op.reward.amount) == 0
    then op.reward.amount else 0
  }

  /** The operation claims VESTS, with nothing in the vesting fund and nothing coming into it. */
  ghost predicate Hollow(op: Op, accs: seq<Account>, g: Globals) {
    && op.Paying? && op.reward.Claim? && op.reward.who < |accs|
    && (var a, c := accs[op.reward.who], op.reward;
        Claimable(a, c.hive, c.hbd, c.vests) && c.vests > 0 && g.fund + Behind(a, c.vests) == 0)
  }

  /** Claiming VESTS keeps a backed fund backed unless the claim is hollow. */
  lemma ClaimedBacked(accs: seq<Account>, g: Globals, accs': seq<Account>, g': Globals, who: nat, hive: nat, hbd: nat,
                      vests: nat)
    requires Claimed(accs, g, accs', g', who, hive, hbd, vests) && Backed(g.fund, g.shares)
    ensures Backed(g'.fund, g'.shares) <==> vests == 0 || g.fund + Behind(accs[who], vests) > 0
  {
    hide Behind;
  }

  /** Printing keeps a backed fund backed. */
  lemma PrintedBacked(g: Globals, g': Globals, n: Inflation, median: Option<Price>)
    requires Printed(g, g', n, median) && Backed(g.fund, g.shares)
    ensures Backed(g'.fund, g'.shares)
  {
    if n.producer == 0 {
      assert ToVests(0, g.fund + n.vesting, g.shares) == 0;
    }
  }

  /** Only a hollow claim leaves a backed fund without backing. */
  ghost predicate StaysBacked(ops: seq<(nat, Op, Feed)>, seen: seq<Snapshot>) {
    |seen| <= |ops| + 1 &&
    forall i: nat :: i + 1 < |seen| && Backed(seen[i].g.fund, seen[i].g.shares) ==>
      (Backed(seen[i + 1].g.fund, seen[i + 1].g.shares) <==> !Hollow(ops[i].1, seen[i].accounts, seen[i].g))
  }

  lemma BackedOnce(ops: seq<(nat, Op, Feed)>, s: Snapshot)
    ensures StaysBacked(ops, [s])
  {
  }

  lemma BackedOn(ops: seq<(nat, Op, Feed)>, seen: seq<Snapshot>, next: Snapshot)
    requires StaysBacked(ops, seen) && 1 <= |seen| <= |ops|
    requires var last, op := seen[|seen| - 1], ops[|seen| - 1].1;
             Backed(last.g.fund, last.g.shares) ==>
               (Backed(next.g.fund, next.g.shares) <==> !Hollow(op, last.accounts, last.g))
    ensures StaysBacked(ops, seen + [next])
  {
    hide Backed, Hollow;
  }

  /** So without one it is backed at the end, if it was at the start. */
  lemma {:induction false} BackedToTheEnd(ops: seq<(nat, Op, Feed)>, seen: seq<Snapshot>, n: nat)
    requires StaysBacked(ops, seen) && n < |seen| && Backed(seen[0].g.fund, seen[0].g.shares)
    requires forall i: nat :: i < n ==> !Hollow(ops[i].1, seen[i].accounts, seen[i].g)
    ensures Backed(seen[n].g.fund, seen[n].g.shares)
    decreases n
  {
    hide Backed, Hollow;
    if n > 0 {
      BackedToTheEnd(ops, seen, n - 1);
    }
  }

  /** What the first `n` operations put into the books twice. */
  ghost function LostIn(ops: seq<(nat, Op, Feed)>, seen: seq<Snapshot>, n: nat): nat
    requires n <= |ops| && n <= |seen|
  {
    if n == 0 then 0 else LostIn(ops, seen, n - 1) + LostBy(ops[n - 1].1, |seen[n - 1].accounts|, seen[n - 1].g)
  }

  lemma {:induction false} LostNone(ops: seq<(nat, Op, Feed)>, seen: seq<Snapshot>)
    ensures LostIn(ops, seen, 0) == 0
  {
  }

  lemma LostMore(ops: seq<(nat, Op, Feed)>, seen: seq<Snapshot>, next: Snapshot)
    requires 1 <= |seen| <= |ops|
    ensures var n := |seen|;
            LostIn(ops, seen + [next], n) == LostIn(ops, seen, n - 1) +
              LostBy(ops[n - 1].1, |seen[n - 1].accounts|, seen[n - 1].g)
  {
    hide LostBy;
    LostSame(ops, seen, next, |seen| - 1);
  }

  lemma {:induction false} LostSame(ops: seq<(nat, Op, Feed)>, seen: seq<Snapshot>, next: Snapshot, n: nat)
    requires n <= |ops| && n <= |seen|
    ensures LostIn(ops, seen + [next], n) == LostIn(ops, seen, n)
    decreases n
  {
    if n > 0 {
      LostSame(ops, seen, next, n - 1);
    }
  }

  lemma NothingPending(n: nat)
    ensures EscrowsOk([], n) && WithdrawalsOk([], n) && ConversionsOk([], n) && CollateralsOk([], n) && RoutesIn([], n)
  {
  }

  lemma {:induction false} Opening(purses: seq<Purse>, accounts: seq<Account>)
    ensures Holdings(purses, Book([], []), accounts, [], [], [], []) ==
              Plus(Liquid(purses, Book([], [])), Sum(accounts, AccountMoney))
  {
    hide Sum, Liquid, Pending;
    NothingHeld();
  }

  lemma NothingHeld()
    ensures Pending([], [], [], []) == ZERO
  {
  }

  /** What an amount of HIVE is worth in HBD. */
  function InHbd(hive: nat, p: Price): nat
    requires Proper(p)
  {
    DivBound(hive * p.base, p.quote, 0);
    hive * p.base / p.quote
  }

  lemma InHbdIs(hive: nat, p: Price)
    requires Proper(p)
    ensures Quotient(InHbd(hive, p), hive * p.base, p.quote)
  {
    QuotientIs(hive * p.base, p.quote);
  }

  lemma PurseIn(purses: seq<Purse>, who: nat)
    requires Solvent(purses) && who < |purses|
    ensures purses[who].hive >= 0 && purses[who].hbd >= 0
  {
  }
}
