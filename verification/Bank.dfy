// The ledger: the operations that move tokens, each of which keeps supplies and
// holdings equal. Liquid balances and open orders live in the market.

module Bank {
  import opened Common
  import opened Money
  import opened OrderBook
  import opened Matching
  import opened Market
  import opened Vesting
  import opened HbdLimit
  import opened Tokens
  import opened Payouts
  import opened Parts
  import opened Deeds

  class Ledger {
    const market: Exchange
    const treasury: nat
    var accounts: seq<Account>
    var escrows: seq<Escrow>
    var withdrawals: seq<Withdrawal>
    var conversions: seq<Conversion>
    var collaterals: seq<Collateral>
    var routes: seq<Route>
    var g: Globals
    ghost var lost: nat                   // HIVE paid twice over by rewards too small for a single VEST

    ghost function Held(): Money
      reads this, market
    {
      Holdings(market.purses, market.book, accounts, escrows, withdrawals, conversions, collaterals)
    }

    /** Everything but the totals. */
    ghost predicate Sound()
      reads this, market
    {
      && market.Valid() && |market.purses| == |accounts| && treasury < |accounts|
      && EscrowsOk(escrows, |accounts|) && WithdrawalsOk(withdrawals, |accounts|)
      && ConversionsOk(conversions, |accounts|) && CollateralsOk(collaterals, |accounts|) &&
         RoutesIn(routes, |accounts|)
    }

    /** Supplies and totals equal the sum of all holdings, but for what has been paid twice. */
    ghost predicate Valid()
      reads this, market
    {
      Sound() && Held() == Owed(g, lost)
    }

    function Now(): Snapshot
      reads this, market
    {
      Snapshot(accounts, g, market.purses, market.book, market.nextId, escrows, withdrawals, conversions, collaterals,
               routes)
    }

    function Placed(): Setup {
      Setup(treasury, market.maxExpiration)
    }

    /** Starts from any balances that the supplies account for, with nothing pending. */
    constructor (purses: seq<Purse>, accounts: seq<Account>, g: Globals, treasury: nat, maxExpiration: nat)
      requires Solvent(purses) && |accounts| == |purses| && treasury < |purses|
      requires Supplied(g) == Plus(Liquid(purses, Book([], [])), Sum(accounts, AccountMoney))
      ensures Valid() && fresh(market) && lost == 0 && Placed() == Setup(treasury, maxExpiration)
      ensures Now() == FirstSnapshot(purses, accounts, g)
    {
      hide Sum, Holdings, EscrowsOk, WithdrawalsOk, ConversionsOk, CollateralsOk, RoutesIn, HeldBy, SidesOk, Solvent,
           Uncrossed;
      this.treasury, this.accounts, this.g, lost := treasury, accounts, g, 0;
      market := new Exchange(purses, maxExpiration);
      escrows, withdrawals, conversions, collaterals, routes := [], [], [], [], [];
      NothingPending(|purses|);
      Opening(purses, accounts);
    }

    // ---- moving single amounts ----

    method Pay(who: nat, a: Asset, x: nat)
      requires Sound() && who < |accounts|
      modifies market`purses
      ensures Sound() && Held() == Plus(old(Held()), Amount(a, x)) &&
              Debited(old(market.purses), market.purses, who, a, 0 - x)
    {
      hide Supply, Sum, Pending;
      PurseIn(market.purses, who);
      var ok := market.Adjust(who, a, x);
    }

    method Take(who: nat, a: Asset, x: nat)
      requires Sound() && who < |accounts| && market.purses[who].Get(a) >= x
      modifies market`purses
      ensures Sound() && Held() == Minus(old(Held()), Amount(a, x)) &&
              Debited(old(market.purses), market.purses, who, a, x)
    {
      hide Supply, Sum, Pending;
      var ok := market.Adjust(who, a, 0 - x);
    }

    method PayBoth(who: nat, hive: nat, hbd: nat)
      requires Sound() && who < |accounts|
      modifies market`purses
      ensures Sound() && Held() == Plus(old(Held()), Money(hive, hbd, 0, 0, 0)) &&
              Spent(old(market.purses), market.purses, who, 0 - hive, 0 - hbd)
    {
      hide Holdings, InHbd, Solvent, SidesOk, Uncrossed, EscrowsOk, WithdrawalsOk, ConversionsOk, CollateralsOk,
           RoutesIn;
      TwoBumps(market.purses, who, hive, hbd);
      Pay(who, HIVE, hive);
      Pay(who, HBD, hbd);
    }

    method TakeBoth(who: nat, hive: nat, hbd: nat)
      requires Sound() && who < |accounts| && market.purses[who].hive >= hive && market.purses[who].hbd >= hbd
      modifies market`purses
      ensures Sound() && Held() == Minus(old(Held()), Money(hive, hbd, 0, 0, 0)) &&
              Spent(old(market.purses), market.purses, who, hive, hbd)
    {
      hide Holdings, InHbd, Solvent, SidesOk, Uncrossed, EscrowsOk, WithdrawalsOk, ConversionsOk, CollateralsOk,
           RoutesIn;
      TwoBumps(market.purses, who, 0 - hive, 0 - hbd);
      Take(who, HIVE, hive);
      Take(who, HBD, hbd);
    }

    method SetAccount(who: nat, acc: Account)
      requires Sound() && who < |accounts|
      modifies this`accounts
      ensures Sound() && accounts == old(accounts)[who := acc]
      ensures Held() == Plus(Minus(old(Held()), AccountMoney(old(accounts)[who])), AccountMoney(acc))
    {
      hide Liquid, Sum, Pending;
      SumSet(accounts, who, acc, AccountMoney);
      accounts := accounts[who := acc];
    }

    method AddEscrow(e: Escrow)
      requires Sound() && EscrowOk(e, |accounts|) && NoEscrow(escrows, e.from, e.number)
      modifies this`escrows
      ensures Sound() && escrows == old(escrows) + [e] && Held() == Plus(old(Held()), EscrowMoney(e))
    {
      hide Liquid, Sum, EscrowMoney, RoutesIn, EscrowsOk;
      EscrowAdded(escrows, e, |accounts|);
      SumSnoc(escrows, e, EscrowMoney);
      escrows := escrows + [e];
    }

    method SetEscrow(i: nat, e: Escrow)
      requires Sound() && i < |escrows| && EscrowOk(e, |accounts|) && e.from == escrows[i].from && e.number ==
                 escrows[i].number
      modifies this`escrows
      ensures Sound() && escrows == old(escrows)[i := e] && Held() ==
                Plus(Minus(old(Held()), EscrowMoney(old(escrows)[i])), EscrowMoney(e))
    {
      hide Liquid, Sum, EscrowMoney, RoutesIn, EscrowsOk;
      EscrowReplaced(escrows, i, e, |accounts|);
      SumSet(escrows, i, e, EscrowMoney);
      escrows := escrows[i := e];
    }

    method DropEscrow(i: nat)
      requires Sound() && i < |escrows|
      modifies this`escrows
      ensures Sound() && escrows == Drop(old(escrows), i) && Held() == Minus(old(Held()), EscrowMoney(old(escrows)[i]))
    {
      hide Liquid, Sum, EscrowMoney, RoutesIn, EscrowsOk;
      EscrowDropped(escrows, i, |accounts|);
      SumDrop(escrows, i, EscrowMoney);
      escrows := Drop(escrows, i);
    }

    method AddWithdrawal(w: Withdrawal)
      requires Sound() && w.from < |accounts| && w.dest < |accounts|
      modifies this`withdrawals
      ensures Sound() && withdrawals == old(withdrawals) + [w] && Held() == Plus(old(Held()), WithdrawalMoney(w))
    {
      hide Liquid, Sum, WithdrawalMoney, RoutesIn;
      SumSnoc(withdrawals, w, WithdrawalMoney);
      withdrawals := withdrawals + [w];
    }

    method DropWithdrawal(i: nat)
      requires Sound() && i < |withdrawals|
      modifies this`withdrawals
      ensures Sound() && withdrawals == Drop(old(withdrawals), i) && Held() ==
                Minus(old(Held()), WithdrawalMoney(old(withdrawals)[i]))
    {
      hide Liquid, Sum, WithdrawalMoney, RoutesIn;
      SumDrop(withdrawals, i, WithdrawalMoney);
      withdrawals := Drop(withdrawals, i);
    }

    method AddConversion(c: Conversion)
      requires Sound() && c.owner < |accounts|
      modifies this`conversions
      ensures Sound() && conversions == old(conversions) + [c] && Held() == Plus(old(Held()), ConversionMoney(c))
    {
      hide Liquid, Sum, ConversionMoney, RoutesIn;
      SumSnoc(conversions, c, ConversionMoney);
      conversions := conversions + [c];
    }

    method DropConversion(i: nat)
      requires Sound() && i < |conversions|
      modifies this`conversions
      ensures Sound() && conversions == Drop(old(conversions), i) && Held() ==
                Minus(old(Held()), ConversionMoney(old(conversions)[i]))
    {
      hide Liquid, Sum, ConversionMoney, RoutesIn;
      SumDrop(conversions, i, ConversionMoney);
      conversions := Drop(conversions, i);
    }

    method AddCollateral(c: Collateral)
      requires Sound() && c.owner < |accounts|
      modifies this`collaterals
      ensures Sound() && collaterals == old(collaterals) + [c] && Held() == Plus(old(Held()), CollateralMoney(c))
    {
      hide Liquid, Sum, CollateralMoney, RoutesIn;
      SumSnoc(collaterals, c, CollateralMoney);
      collaterals := collaterals + [c];
    }

    method DropCollateral(i: nat)
      requires Sound() && i < |collaterals|
      modifies this`collaterals
      ensures Sound() && collaterals == Drop(old(collaterals), i) && Held() ==
                Minus(old(Held()), CollateralMoney(old(collaterals)[i]))
    {
      hide Liquid, Sum, CollateralMoney, RoutesIn;
      SumDrop(collaterals, i, CollateralMoney);
      collaterals := Drop(collaterals, i);
    }

    // ---- transfers and savings ----

    /**
     * Moves liquid tokens. HIVE sent to the treasury is turned into HBD at the median price, and
     * both supplies follow.
     */
    method Transfer(from: nat, dest: nat, a: Asset, x: nat, median: Option<Price>) returns (ok: bool)
      requires Valid() && from < |accounts| && dest < |accounts| && (median.Some? ==> Proper(median.value))
      modifies this`g, market`purses
      ensures Valid() && Transferred(old(market.purses), old(g), market.purses, g, from, dest, a, x, if dest ==
                                       treasury then median else None, dest == treasury, ok)
    {
      hide Holdings, InHbd, Solvent, SidesOk, Uncrossed, EscrowsOk, WithdrawalsOk, ConversionsOk, CollateralsOk,
           RoutesIn;
      if market.purses[from].Get(a) < x || (a == HIVE && dest == treasury && median.None?) {
        return false;
      }
      if a == HIVE && dest == treasury {
        var hbd := InHbd(x, median.value);
        Take(from, HIVE, x);
        Pay(dest, HBD, hbd);
        g := g.(supply := g.supply - x, hbdSupply := g.hbdSupply + hbd);
      } else {
        Take(from, a, x);
        Pay(dest, a, x);
      }
      return true;
    }

    /** Adds to or takes from savings; HBD savings are first credited the interest that is due. */
    method AdjustSavings(who: nat, a: Asset, x: int, interest: nat) returns (ok: bool)
      requires Sound() && who < |accounts|
      modifies this`accounts, this`g
      ensures Sound() && |accounts| == old(|accounts|)
      ensures ok <==> Savings(old(accounts)[who], a) + (if a == HBD then interest else 0) + x >= 0
      ensures !ok ==> accounts == old(accounts) && g == old(g)
      ensures ok ==> Minus(Held(), Supplied(g)) == Plus(old(Minus(Held(), Supplied(g))), Amount(a, x))
      ensures ok ==> Saved(old(accounts), old(g), accounts, g, who, a, x, if a == HBD then interest else 0)
    {
      hide Holdings, InHbd, Solvent, SidesOk, Uncrossed, EscrowsOk, WithdrawalsOk, ConversionsOk, CollateralsOk,
           RoutesIn;
      var acc := accounts[who];
      var paid := if a == HBD then interest else 0;
      if Savings(acc, a) + paid + x < 0 {
        return false;
      }
      g := g.(hbdSupply := g.hbdSupply + paid);
      SetAccount(who, if a == HIVE then acc.(savingsHive := acc.savingsHive + x)
                      else acc.(savingsHbd := acc.savingsHbd + paid + x));
      return true;
    }

    method ToSavings(from: nat, dest: nat, a: Asset, x: nat, interest: nat) returns (ok: bool)
      requires Valid() && from < |accounts| && dest < |accounts|
      modifies this`accounts, this`g, market`purses
      ensures Valid() && |accounts| == old(|accounts|)
      ensures ok <==> dest != treasury && Covers(old(market.purses), from, a, x)
      ensures !ok ==> accounts == old(accounts) && g == old(g) && market.purses == old(market.purses)
      ensures ok ==> Debited(old(market.purses), market.purses, from, a, x) &&
                     Saved(old(accounts), old(g), accounts, g, dest, a, x, if a == HBD then interest else 0)
    {
      hide Holdings, InHbd, Solvent, SidesOk, Uncrossed, EscrowsOk, WithdrawalsOk, ConversionsOk, CollateralsOk,
           RoutesIn, Saved;
      if dest == treasury || market.purses[from].Get(a) < x {
        return false;
      }
      Take(from, a, x);
      ok := AdjustSavings(dest, a, x, interest);
    }

    /** Asks for savings back: they wait three days before they are liquid. */
    method FromSavings(from: nat, number: nat, dest: nat, a: Asset, x: nat, interest: nat, complete: nat)
      returns (ok: bool)
      requires Valid() && from < |accounts| && dest < |accounts|
      modifies this`accounts, this`g, this`withdrawals
      ensures Valid() && |accounts| == old(|accounts|)
      ensures !ok ==> accounts == old(accounts) && g == old(g) && withdrawals == old(withdrawals)
      ensures ok <==> MayAsk(old(withdrawals), old(accounts), from, number, a, x) && (a == HIVE ==> dest != treasury)
      ensures ok ==> withdrawals == old(withdrawals) + [Withdrawal(from, number, dest, a, x, complete)]
      ensures ok ==> Saved(old(accounts), old(g), accounts, g, from, a, 0 - x, if a == HBD then interest else 0)
    {
      hide Holdings, InHbd, Solvent, SidesOk, Uncrossed, EscrowsOk, WithdrawalsOk, ConversionsOk, CollateralsOk,
           RoutesIn, Saved, Requests, NoRequest;
      var taken := FindWithdrawal(from, number);
      if Requests(withdrawals, from) >= SAVINGS_REQUEST_LIMIT || taken.Some? || (a == HIVE && dest == treasury) ||
         Savings(accounts[from], a) < x {
        return false;
      }
      ok := AdjustSavings(from, a, 0 - x, interest);
      AddWithdrawal(Withdrawal(from, number, dest, a, x, complete));
    }

    method CancelFromSavings(from: nat, number: nat, interest: nat) returns (ok: bool, ghost i: nat)
      requires Valid() && from < |accounts|
      modifies this`accounts, this`g, this`withdrawals
      ensures Valid() && |accounts| == old(|accounts|)
      ensures !ok ==> accounts == old(accounts) && g == old(g) && withdrawals == old(withdrawals)
      ensures ok <==> !NoRequest(old(withdrawals), from, number)
      ensures ok ==> i < |old(withdrawals)| && withdrawals == Drop(old(withdrawals), i) && old(withdrawals)[i].from ==
                       from && old(withdrawals)[i].number == number
      ensures ok ==> SavedBack(old(accounts), old(g), accounts, g, old(withdrawals)[i], interest)
    {
      hide Holdings, InHbd, Solvent, SidesOk, Uncrossed, EscrowsOk, WithdrawalsOk, ConversionsOk, CollateralsOk,
           RoutesIn, Saved, NoRequest;
      var at := FindWithdrawal(from, number);
      if at.None? {
        return false, 0;
      }
      var w := withdrawals[at.value];
      i := at.value;
      ok := AdjustSavings(from, w.asset, w.amount, interest);
      DropWithdrawal(at.value);
    }

    /** Pays out every withdrawal from savings whose time has come. */
    method PayWithdrawals(now: nat)
      requires Valid()
      modifies this`withdrawals, market`purses
      ensures Valid() && AllSettled(old(market.purses), old(withdrawals), market.purses, withdrawals,
                                    WithdrawalPay(now), DueWithdrawal(now))
    {
      hide Holdings, InHbd, InHive, Solvent, SidesOk, Uncrossed, EscrowsOk, WithdrawalsOk, ConversionsOk,
           CollateralsOk, RoutesIn, Settling, AllSettled, Debited, Spent, Drop, Burned;
      SettleNone(market.purses, withdrawals, WithdrawalPay(now), DueWithdrawal(now));
      var k := 0;
      while k < |withdrawals|
        invariant Valid() && k <= |withdrawals|
        invariant Settling(old(market.purses), old(withdrawals), market.purses, withdrawals, k, WithdrawalPay(now),
                           DueWithdrawal(now))
        decreases |withdrawals| - k
      {
        ghost var p, s, w := market.purses, withdrawals, withdrawals[k];
        if withdrawals[k].complete <= now {
          PayWithdrawal(k);
          WithdrawalPays(now, w);
          DebitedSpent(p, market.purses, w.dest, w.asset, 0 - w.amount);
          SettlePay(old(market.purses), old(withdrawals), p, s, k, market.purses, withdrawals, WithdrawalPay(now),
                    DueWithdrawal(now), w.dest,
                    if w.asset == HIVE then w.amount else 0, if w.asset == HBD then w.amount else 0);
        } else {
          SettleSkip(old(market.purses), old(withdrawals), p, s, k, WithdrawalPay(now), DueWithdrawal(now));
          k := k + 1;
        }
      }
      SettleDone(old(market.purses), old(withdrawals), market.purses, withdrawals, WithdrawalPay(now),
                 DueWithdrawal(now));
    }

    method PayWithdrawal(k: nat)
      requires Valid() && k < |withdrawals|
      modifies this`withdrawals, market`purses
      ensures Valid() && withdrawals == Drop(old(withdrawals), k)
      ensures var w := old(withdrawals)[k]; Debited(old(market.purses), market.purses, w.dest, w.asset, 0 - w.amount)
    {
      hide Holdings, Solvent, SidesOk, Uncrossed, EscrowsOk, WithdrawalsOk, ConversionsOk, CollateralsOk, RoutesIn,
           Debited, Drop;
      WithdrawalIn(withdrawals, k, |accounts|);
      var w := withdrawals[k];
      Pay(w.dest, w.asset, w.amount);
      DropWithdrawal(k);
    }

    method FindWithdrawal(from: nat, number: nat) returns (r: Option<nat>)
      ensures r.Some? ==> r.value < |withdrawals| && withdrawals[r.value].from == from &&
                          withdrawals[r.value].number == number
      ensures r.None? <==> NoRequest(withdrawals, from, number)
    {
      for i := 0 to |withdrawals|
        invariant forall j: nat :: j < i ==> withdrawals[j].from != from || withdrawals[j].number != number
      {
        if withdrawals[i].from == from && withdrawals[i].number == number {
          return Some(i);
        }
      }
      return None;
    }

    // ---- escrow ----

    method FindEscrow(from: nat, number: nat) returns (r: Option<nat>)
      ensures r.Some? ==> r.value < |escrows| && escrows[r.value].from == from && escrows[r.value].number == number
      ensures r.None? <==> NoEscrow(escrows, from, number)
    {
      for i := 0 to |escrows|
        invariant forall j: nat :: j < i ==> escrows[j].from != from || escrows[j].number != number
      {
        if escrows[i].from == from && escrows[i].number == number {
          return Some(i);
        }
      }
      return None;
    }

    /** Puts tokens and the agent's fee aside. */
    method EscrowTransfer(e: Escrow, now: nat) returns (ok: bool)
      requires Valid() && e.from < |accounts| && e.dest < |accounts| && e.agent < |accounts| && !e.destApproved &&
               !e.agentApproved && !e.disputed
      modifies this`escrows, market`purses
      ensures Valid() && (ok <==> MayEscrow(old(market.purses), old(escrows), e, now))
      ensures !ok ==> escrows == old(escrows) && market.purses == old(market.purses)
      ensures ok ==> escrows == old(escrows) + [e] &&
                     Spent(old(market.purses), market.purses, e.from, Spends(e, HIVE), Spends(e, HBD))
    {
      hide Holdings, InHbd, Solvent, SidesOk, Uncrossed, EscrowsOk, WithdrawalsOk, ConversionsOk, CollateralsOk,
           RoutesIn, NoEscrow, Escrows, Spent, Spends,
           EscrowMoney;
      EscrowSpends(e);
      var taken := FindEscrow(e.from, e.number);
      if e.deadline <= now || e.expiration <= now || Escrows(escrows, e.from) >= MAX_PENDING || taken.Some? ||
         market.purses[e.from].hive < Spends(e, HIVE) || market.purses[e.from].hbd < Spends(e, HBD) {
        return false;
      }
      TakeBoth(e.from, Spends(e, HIVE), Spends(e, HBD));
      AddEscrow(e);
      return true;
    }

    /** Gives everything in an escrow, fee included, back to where it came from. */
    method Refund(i: nat)
      requires Valid() && i < |escrows|
      modifies this`escrows, market`purses
      ensures Valid() && escrows == Drop(old(escrows), i)
      ensures Refunded(old(market.purses), market.purses, old(escrows)[i])
    {
      hide Holdings, InHbd, Solvent, SidesOk, Uncrossed, EscrowsOk, WithdrawalsOk, ConversionsOk, CollateralsOk,
           RoutesIn, Spent, Drop, EscrowMoney, Spends;
      EscrowIn(escrows, i, |accounts|);
      var e := escrows[i];
      EscrowSpends(e);
      PayBoth(e.from, Spends(e, HIVE), Spends(e, HBD));
      DropEscrow(i);
    }

    /** The receiver or the agent approves or rejects; with both approvals the agent has the fee. */
    method EscrowApprove(from: nat, number: nat, dest: nat, agent: nat, who: nat, approve: bool, now: nat)
      returns (ok: bool, ghost i: nat)
      requires Valid() && (who == dest || who == agent)            // what the operation's own validation demands
      modifies this`escrows, market`purses
      ensures Valid() && (!ok ==> escrows == old(escrows) && market.purses == old(market.purses))
      ensures ok <==> exists j: nat :: j < |old(escrows)| &&
                                       Approves(old(escrows)[j], from, number, dest, agent, who, now)
      ensures ok ==> i < |old(escrows)| && Approves(old(escrows)[i], from, number, dest, agent, who, now)
      ensures ok && !approve ==> escrows == Drop(old(escrows), i) &&
                                 Refunded(old(market.purses), market.purses, old(escrows)[i])
      ensures ok && approve ==> escrows == old(escrows)[i := Approved(old(escrows)[i], who)]
      ensures ok && approve ==> FeePaid(old(market.purses), market.purses, old(escrows)[i], who)
    {
      hide Holdings, InHbd, Solvent, SidesOk, Uncrossed, EscrowsOk, WithdrawalsOk, ConversionsOk, CollateralsOk,
           RoutesIn, Refunded;
      var at := FindEscrow(from, number);
      if at.None? {
        return false, 0;
      }
      i := at.value;
      var e := escrows[at.value];
      EscrowIn(escrows, at.value, |accounts|);
      if e.dest != dest || e.agent != agent || e.deadline < now {
        return false, i;
      }
      var f := e;
      if who == dest {
        if e.destApproved {
          return false, i;
        }
        f := f.(destApproved := true);
      }
      if who == agent {
        if e.agentApproved {
          return false, i;
        }
        f := f.(agentApproved := true);
      }
      if !approve {
        Refund(at.value);
        return true, i;
      }
      if f.destApproved && f.agentApproved {
        Pay(e.agent, e.feeAsset, e.fee);
        f := f.(fee := 0);
      }
      SetEscrow(at.value, f);
      return true, i;
    }

    method EscrowDispute(from: nat, number: nat, dest: nat, agent: nat, now: nat) returns (ok: bool, ghost i: nat)
      requires Valid()
      modifies this`escrows
      ensures Valid() && (!ok ==> escrows == old(escrows))
      ensures ok ==> i < |old(escrows)| && escrows == old(escrows)[i := old(escrows)[i].(disputed := true)]
      ensures ok <==> exists j: nat :: j < |old(escrows)| && MayDispute(old(escrows)[j], from, number, dest, agent, now)
      ensures ok ==> MayDispute(old(escrows)[i], from, number, dest, agent, now)
    {
      hide Holdings, InHbd, Solvent, SidesOk, Uncrossed, EscrowsOk, WithdrawalsOk, ConversionsOk, CollateralsOk,
           RoutesIn;
      var at := FindEscrow(from, number);
      if at.None? {
        return false, 0;
      }
      i := at.value;
      EscrowIn(escrows, at.value, |accounts|);
      var e := escrows[at.value];
      if now >= e.expiration || !e.destApproved || !e.agentApproved || e.disputed || e.dest != dest ||
         e.agent != agent {
        return false, i;
      }
      SetEscrow(at.value, e.(disputed := true));
      return true, i;
    }

    /** Takes from an escrow that owes no fee, and removes it when nothing is left. */
    method Lower(i: nat, hive: nat, hbd: nat)
      requires Sound() && i < |escrows| && EscrowOk(escrows[i], |accounts|) && escrows[i].fee == 0 &&
               escrows[i].hive >= hive && escrows[i].hbd >= hbd
      modifies this`escrows
      ensures Sound() && Released(old(escrows), escrows, i, hive, hbd) && Held() ==
                Minus(old(Held()), Money(hive, hbd, 0, 0, 0))
    {
      hide Holdings, InHbd, Solvent, SidesOk, Uncrossed, EscrowsOk, WithdrawalsOk, ConversionsOk, CollateralsOk,
           RoutesIn, Drop;
      var e := escrows[i];
      if e.hive == hive && e.hbd == hbd {
        DropEscrow(i);
      } else {
        SetEscrow(i, e.(hive := e.hive - hive, hbd := e.hbd - hbd));
      }
    }

    /** Releases part of an approved escrow; an empty one is removed, and nothing is lost with it. */
    method EscrowRelease(from: nat, number: nat, dest: nat, agent: nat, who: nat, receiver: nat, hive: nat, hbd: nat,
                         now: nat)
      returns (ok: bool, ghost i: nat)
      requires Valid()
      modifies this`escrows, market`purses
      ensures Valid() && (!ok ==> escrows == old(escrows) && market.purses == old(market.purses))
      ensures ok <==> exists j: nat :: j < |old(escrows)| &&
                                       MayRelease(old(escrows)[j], from, number, dest, agent, who, receiver, hive, hbd,
                                                  now)
      ensures ok ==> i < |old(escrows)| &&
                     MayRelease(old(escrows)[i], from, number, dest, agent, who, receiver, hive, hbd, now)
      ensures ok ==> Released(old(escrows), escrows, i, hive, hbd) &&
                     Spent(old(market.purses), market.purses, receiver, 0 - hive, 0 - hbd)
    {
      hide Holdings, InHbd, Solvent, SidesOk, Uncrossed, EscrowsOk, WithdrawalsOk, ConversionsOk, CollateralsOk,
           RoutesIn, Drop, Released, Spent;
      var at := FindEscrow(from, number);
      if at.None? {
        return false, 0;
      }
      i := at.value;
      var e := escrows[at.value];
      EscrowIn(escrows, at.value, |accounts|);
      if e.hive < hive || e.hbd < hbd || e.dest != dest || e.agent != agent ||
         (receiver != e.from && receiver != e.dest) || !e.destApproved || !e.agentApproved {
        return false, i;
      }
      if e.disputed {
        if who != e.agent {
          return false, i;
        }
      } else if who != e.from && who != e.dest {
        return false, i;
      } else if e.expiration > now && (if who == e.from then receiver != e.dest else receiver != e.from) {
        return false, i;
      }
      PayBoth(receiver, hive, hbd);
      Lower(at.value, hive, hbd);
      return true, i;
    }

    /** Refunds every escrow that was not approved in time. */
    method ExpireEscrows(now: nat)
      requires Valid()
      modifies this`escrows, market`purses
      ensures Valid() && AllSettled(old(market.purses), old(escrows), market.purses, escrows, EscrowPay(now),
                                    DueEscrow(now))
    {
      hide Holdings, InHbd, InHive, Solvent, SidesOk, Uncrossed, EscrowsOk, WithdrawalsOk, ConversionsOk,
           CollateralsOk, RoutesIn, Settling, AllSettled, Debited, Spent, Drop, Burned, Spends;
      SettleNone(market.purses, escrows, EscrowPay(now), DueEscrow(now));
      var k := 0;
      while k < |escrows|
        invariant Valid() && k <= |escrows|
        invariant Settling(old(market.purses), old(escrows), market.purses, escrows, k, EscrowPay(now), DueEscrow(now))
        decreases |escrows| - k
      {
        ghost var p, s, e := market.purses, escrows, escrows[k];
        if !(escrows[k].destApproved && escrows[k].agentApproved) && escrows[k].deadline <= now {
          Refund(k);
          EscrowPays(now, e);
          SettlePay(old(market.purses), old(escrows), p, s, k, market.purses, escrows, EscrowPay(now), DueEscrow(now),
                    e.from, Spends(e, HIVE), Spends(e, HBD));
        } else {
          SettleSkip(old(market.purses), old(escrows), p, s, k, EscrowPay(now), DueEscrow(now));
          k := k + 1;
        }
      }
      SettleDone(old(market.purses), old(escrows), market.purses, escrows, EscrowPay(now), DueEscrow(now));
    }

    // ---- conversions ----

    /** Puts HBD aside to be converted at the median price of a later time. */
    method Convert(owner: nat, number: nat, x: nat, date: nat, haveFeed: bool) returns (ok: bool)
      requires Valid() && owner < |accounts|
      modifies this`conversions, market`purses
      ensures Valid() && (ok <==> haveFeed && Covers(old(market.purses), owner, HBD, x) &&
                                  NoConversion(old(conversions), owner, number))
      ensures !ok ==> conversions == old(conversions) && market.purses == old(market.purses)
      ensures ok ==> conversions == old(conversions) + [Conversion(owner, number, x, date)] &&
                     Debited(old(market.purses), market.purses, owner, HBD, x)
    {
      hide Holdings, InHbd, InHive, Solvent, SidesOk, Uncrossed, EscrowsOk, WithdrawalsOk, ConversionsOk,
           CollateralsOk, RoutesIn, NoConversion;
      var taken := FindConversion(owner, number);
      if !haveFeed || market.purses[owner].hbd < x || taken {
        return false;
      }
      Take(owner, HBD, x);
      AddConversion(Conversion(owner, number, x, date));
      return true;
    }

    method FindConversion(owner: nat, number: nat) returns (found: bool)
      ensures found <==> !NoConversion(conversions, owner, number)
    {
      for i := 0 to |conversions|
        invariant forall j: nat :: j < i ==> conversions[j].owner != owner || conversions[j].number != number
      {
        if conversions[i].owner == owner && conversions[i].number == number {
          return true;
        }
      }
      return false;
    }

    /** Issues HIVE for one conversion and burns its HBD. */
    method PayConversion(i: nat, median: Price)
      requires Valid() && i < |conversions| && Proper(median)
      modifies this`conversions, this`g, market`purses
      ensures Valid() && conversions == Drop(old(conversions), i)
      ensures Debited(old(market.purses), market.purses, old(conversions)[i].owner, HIVE,
                      0 - InHive(old(conversions)[i].hbd, median))
      ensures Supplies(old(g), g, InHive(old(conversions)[i].hbd, median), 0 - old(conversions)[i].hbd)
    {
      hide Holdings, InHbd, InHive, Solvent, SidesOk, Uncrossed, EscrowsOk, WithdrawalsOk, ConversionsOk,
           CollateralsOk, RoutesIn, Drop;
      ConversionIn(conversions, i, |accounts|);
      var c := conversions[i];
      var hive := InHive(c.hbd, median);
      Pay(c.owner, HIVE, hive);
      DropConversion(i);
      g := g.(supply := g.supply + hive, hbdSupply := g.hbdSupply - c.hbd);
    }

    /** Carries out every conversion that is due; none happens without a price feed. */
    method PayConversions(now: nat, median: Option<Price>)
      requires Valid() && (median.Some? ==> Proper(median.value))
      modifies this`conversions, this`g, market`purses
      ensures Valid() && (median.None? ==> conversions == old(conversions) && g == old(g) && market.purses ==
                                             old(market.purses))
      ensures median.Some? ==>
                AllSettled(old(market.purses), old(conversions), market.purses, conversions,
                           ConversionPay(now, median.value), DueConversion(now))
      ensures Supplies(old(g), g, g.supply - old(g).supply, g.hbdSupply - old(g).hbdSupply)
    {
      hide Holdings, InHbd, InHive, Solvent, SidesOk, Uncrossed, EscrowsOk, WithdrawalsOk, ConversionsOk,
           CollateralsOk, RoutesIn, Settling, AllSettled, Debited, Spent, Drop, Burned;
      if median.None? {
        return;
      }
      var price := median.value;
      SettleNone(market.purses, conversions, ConversionPay(now, price), DueConversion(now));
      var k := 0;
      while k < |conversions|
        invariant Valid() && k <= |conversions|
        invariant Settling(old(market.purses), old(conversions), market.purses, conversions, k,
                           ConversionPay(now, price), DueConversion(now))
        invariant Supplies(old(g), g, g.supply - old(g).supply, g.hbdSupply - old(g).hbdSupply)
        decreases |conversions| - k
      {
        ghost var p, s, c := market.purses, conversions, conversions[k];
        if conversions[k].date <= now {
          PayConversion(k, price);
          ConversionPays(now, price, c);
          DebitedSpent(p, market.purses, c.owner, HIVE, 0 - InHive(c.hbd, price));
          SettlePay(old(market.purses), old(conversions), p, s, k, market.purses, conversions,
                    ConversionPay(now, price), DueConversion(now), c.owner, InHive(c.hbd, price), 0);
        } else {
          SettleSkip(old(market.purses), old(conversions), p, s, k, ConversionPay(now, price), DueConversion(now));
          k := k + 1;
        }
      }
      SettleDone(old(market.purses), old(conversions), market.purses, conversions, ConversionPay(now, price),
                 DueConversion(now));
    }

    /**
     * Locks HIVE and at once issues HBD worth half of it, at the lowest recent price less a fee,
     * unless that would carry the debt ratio over the limit.
     */
    method ConvertCollateral(owner: nat, number: nat, x: nat, date: nat, median: Option<Price>, low: Price,
                             printing: bool, stop: nat) returns (ok: bool)
      requires Valid() && owner < |accounts| && (median.Some? ==> Proper(median.value)) && Proper(low)
      modifies this`collaterals, this`g, market`purses
      ensures Valid() && (!ok ==> collaterals == old(collaterals) && g == old(g) && market.purses == old(market.purses))
      ensures ok <==> MayLock(old(market.purses), old(collaterals), old(g), treasury, owner, number, x, median, low,
                              printing, stop)
      ensures ok ==> g.supply > 0 && HbdPercent(g.hbdSupply, market.purses[treasury].hbd, g.supply, median) <= stop
      ensures ok ==> collaterals == old(collaterals) + [Collateral(owner, number, x, Immediate(x, low), date)] &&
                     Supplies(old(g), g, 0, Immediate(x, low))
      ensures ok ==> Spent(old(market.purses), market.purses, owner, x, 0 - Immediate(x, low))
    {
      hide Holdings, InHbd, InHive, Solvent, SidesOk, Uncrossed, EscrowsOk, WithdrawalsOk, ConversionsOk,
           CollateralsOk, RoutesIn, NoCollateral, HbdPercent, Immediate;
      var taken := FindCollateral(owner, number);
      var hbd := Immediate(x, low);
      if median.None? || !printing || market.purses[owner].hive < x || taken || hbd == 0 || g.supply <= 0 {
        return false;
      }
      var balance := market.purses[treasury].hbd + if owner == treasury then hbd else 0;
      if HbdPercent(g.hbdSupply + hbd, balance, g.supply, median) > stop {
        return false;
      }
      TwoBumps(market.purses, owner, 0 - x, hbd);
      Take(owner, HIVE, x);
      Pay(owner, HBD, hbd);
      AddCollateral(Collateral(owner, number, x, hbd, date));
      g := g.(hbdSupply := g.hbdSupply + hbd);
      return true;
    }

    method FindCollateral(owner: nat, number: nat) returns (found: bool)
      ensures found <==> !NoCollateral(collaterals, owner, number)
    {
      for i := 0 to |collaterals|
        invariant forall j: nat :: j < i ==> collaterals[j].owner != owner || collaterals[j].number != number
      {
        if collaterals[i].owner == owner && collaterals[i].number == number {
          return true;
        }
      }
      return false;
    }

    /** Burns what the issued HBD is worth now, at most the collateral, and gives back the rest. */
    method PayCollateral(i: nat, price: Price)
      requires Valid() && i < |collaterals| && Proper(price)
      modifies this`collaterals, this`g, market`purses
      ensures Valid() && collaterals == Drop(old(collaterals), i)
      ensures Supplies(old(g), g, 0 - Burned(old(collaterals)[i], price), 0)
      ensures Debited(old(market.purses), market.purses, old(collaterals)[i].owner, HIVE,
                      Burned(old(collaterals)[i], price) - old(collaterals)[i].collateral)
    {
      hide Holdings, InHbd, InHive, Solvent, SidesOk, Uncrossed, EscrowsOk, WithdrawalsOk, ConversionsOk,
           CollateralsOk, RoutesIn, Drop, Burned;
      CollateralIn(collaterals, i, |accounts|);
      var c := collaterals[i];
      var burned := Burned(c, price);
      Pay(c.owner, HIVE, c.collateral - burned);
      DropCollateral(i);
      g := g.(supply := g.supply - burned);
    }

    method PayCollaterals(now: nat, price: Option<Price>)
      requires Valid() && (price.Some? ==> Proper(price.value))
      modifies this`collaterals, this`g, market`purses
      ensures Valid() && (price.None? ==> collaterals == old(collaterals) && g == old(g) && market.purses ==
                                            old(market.purses))
      ensures price.Some? ==>
                AllSettled(old(market.purses), old(collaterals), market.purses, collaterals,
                           CollateralPay(now, price.value), DueCollateral(now))
      ensures Supplies(old(g), g, g.supply - old(g).supply, 0)
    {
      hide Holdings, InHbd, InHive, Solvent, SidesOk, Uncrossed, EscrowsOk, WithdrawalsOk, ConversionsOk,
           CollateralsOk, RoutesIn, Settling, AllSettled, Debited, Spent, Drop, Burned;
      if price.None? {
        return;
      }
      var at := price.value;
      SettleNone(market.purses, collaterals, CollateralPay(now, at), DueCollateral(now));
      var k := 0;
      while k < |collaterals|
        invariant Valid() && k <= |collaterals|
        invariant Settling(old(market.purses), old(collaterals), market.purses, collaterals, k, CollateralPay(now, at),
                           DueCollateral(now))
        invariant Supplies(old(g), g, g.supply - old(g).supply, 0)
        decreases |collaterals| - k
      {
        ghost var p, s, c := market.purses, collaterals, collaterals[k];
        if collaterals[k].date <= now {
          PayCollateral(k, at);
          CollateralPays(now, at, c);
          DebitedSpent(p, market.purses, c.owner, HIVE, Burned(c, at) - c.collateral);
          SettlePay(old(market.purses), old(collaterals), p, s, k, market.purses, collaterals, CollateralPay(now, at),
                    DueCollateral(now), c.owner, c.collateral - Burned(c, at), 0);
        } else {
          SettleSkip(old(market.purses), old(collaterals), p, s, k, CollateralPay(now, at), DueCollateral(now));
          k := k + 1;
        }
      }
      SettleDone(old(market.purses), old(collaterals), market.purses, collaterals, CollateralPay(now, at),
                 DueCollateral(now));
    }

    // ---- vesting and rewards ----

    /** Turns HIVE that has just been taken from somewhere into VESTS of an account. */
    method Vest(who: nat, x: nat)
      requires Sound() && who < |accounts| && Priced(g.fund, g.shares)
      modifies this`accounts, this`g
      ensures Sound() && |accounts| == old(|accounts|) && Vested(old(accounts), old(g), accounts, g, who, x)
      ensures Minus(Held(), Supplied(g)) == Plus(old(Minus(Held(), Supplied(g))), Amount(HIVE, x))
    {
      hide Holdings, InHbd, InHive, ToVests, ToHive, Solvent, SidesOk, Uncrossed, EscrowsOk, WithdrawalsOk,
           ConversionsOk, CollateralsOk, RoutesIn;
      var vests := ToVests(x, g.fund, g.shares);
      SetAccount(who, accounts[who].(vests := accounts[who].vests + vests));
      g := g.(fund := g.fund + x, shares := g.shares + vests);
    }

    method TransferToVesting(from: nat, dest: nat, x: nat) returns (ok: bool)
      requires Valid() && from < |accounts| && dest < |accounts|
      modifies this`accounts, this`g, market`purses
      ensures Valid() && |accounts| == old(|accounts|)
      ensures ok <==> dest != treasury && Covers(old(market.purses), from, HIVE, x) && old(Priced(g.fund, g.shares))
      ensures !ok ==> accounts == old(accounts) && g == old(g) && market.purses == old(market.purses)
      ensures ok ==> Debited(old(market.purses), market.purses, from, HIVE, x) &&
                     Vested(old(accounts), old(g), accounts, g, dest, x) &&
                     Buys(g.shares - old(g).shares, x, old(g).fund, old(g).shares)
    {
      hide Buys, Holdings, InHbd, InHive, ToVests, ToHive, Solvent, SidesOk, Uncrossed, EscrowsOk, WithdrawalsOk,
           ConversionsOk, CollateralsOk, RoutesIn, Vested, Debited;
      if dest == treasury || market.purses[from].hive < x || !Priced(g.fund, g.shares) {
        return false;
      }
      Take(from, HIVE, x);
      Vest(dest, x);
      VestedBuys(old(accounts), old(g), accounts, g, dest, x);
      return true;
    }

    /** New tokens of one block: content rewards, vesting, the producer, and HBD for the treasury. */
    method Inflate(amounts: Inflation, producer: nat, median: Option<Price>) returns (ok: bool)
      requires Valid() && producer < |accounts| && (median.Some? ==> Proper(median.value))
      modifies this`accounts, this`g, market`purses
      ensures Valid() && |accounts| == old(|accounts|)
      ensures ok <==> MayPrint(old(g), amounts, median)
      ensures !ok ==> accounts == old(accounts) && g == old(g) && market.purses == old(market.purses)
      ensures ok ==> Printed(old(g), g, amounts, median) &&
                     Debited(old(market.purses), market.purses, treasury, HBD, old(g).hbdSupply - g.hbdSupply)
      ensures ok ==> var acc := old(accounts)[producer];
                     accounts == old(accounts)[producer := acc.(vests := acc.vests + g.shares - old(g).shares)]
    {
      hide Holdings, InHbd, InHive, ToVests, ToHive, Solvent, SidesOk, Uncrossed, EscrowsOk, WithdrawalsOk,
           ConversionsOk, CollateralsOk, RoutesIn, Debited, Vested, Printed;
      if (amounts.treasury > 0 && median.None?) || !Priced(g.fund + amounts.vesting, g.shares) {
        return false;
      }
      var hbd := if amounts.treasury > 0 then InHbd(amounts.treasury, median.value) else 0;
      Pay(treasury, HBD, hbd);
      g := g.(rewardFund := g.rewardFund + amounts.content, fund := g.fund + amounts.vesting,
              supply := g.supply + amounts.content + amounts.vesting + amounts.producer, hbdSupply := g.hbdSupply +
                hbd);
      ghost var accs, mid := accounts, g;
      Vest(producer, amounts.producer);
      PrintedThenVested(old(g), mid, g, accs, accounts, producer, amounts, median);
      HbdPrinted(old(g), g, amounts, median);
      return true;
    }

    /**
     * Pays a reward in unclaimed VESTS. A reward too small for a single VEST is credited as HIVE,
     * and counted again as HIVE behind unclaimed VESTS: by so much the books are off from then on.
     */
    method RewardVests(who: nat, x: nat) returns (ok: bool)
      requires Valid() && who < |accounts|
      modifies this`accounts, this`g, this`lost
      ensures Valid() && |accounts| == old(|accounts|) && (ok <==> old(RewardPriced(g)))
      ensures !ok ==> accounts == old(accounts) && g == old(g) && lost == old(lost)
      ensures ok ==> Rewarded(old(accounts), old(g), accounts, g, who, x)
      ensures ok ==> lost == old(lost) + if RewardVestsFor(old(g), x) == 0 then x else 0
    {
      hide Holdings, InHbd, InHive, ToVests, ToHive, Solvent, SidesOk, Uncrossed, EscrowsOk, WithdrawalsOk,
           ConversionsOk, CollateralsOk, RoutesIn, RewardVestsFor;
      if g.shares + g.pendingShares <= 0 || g.fund + g.pendingHive <= 0 {
        return false;
      }
      var vests := RewardVestsFor(g, x);
      var acc := accounts[who];
      SetAccount(who, if vests == 0 then acc.(rewardHive := acc.rewardHive + x)
                      else acc.(rewardVestHive := acc.rewardVestHive + x, rewardVests := acc.rewardVests + vests));
      g := g.(rewardFund := g.rewardFund - x, pendingShares := g.pendingShares + vests, pendingHive := g.pendingHive +
                x);
      lost := lost + if vests == 0 then x else 0;
      return true;
    }

    /** Pays a reward in unclaimed HBD as far as HBD is being printed, the rest in unclaimed HIVE. */
    method RewardHbd(who: nat, x: nat, printRate: nat, median: Option<Price>)
      requires Valid() && who < |accounts| && printRate <= HUNDRED_PERCENT && (median.Some? ==> Proper(median.value))
      modifies this`accounts, this`g, market`purses
      ensures Valid() && |accounts| == old(|accounts|) && g.rewardFund == old(g).rewardFund - x
      ensures median.None? ==> Debited(old(market.purses), market.purses, who, HIVE, 0 - x) && accounts == old(accounts)
      ensures PoolOf(g) == old(PoolOf(g)) && (median.None? ==> g == old(g).(rewardFund := old(g).rewardFund - x))
      ensures median.Some? ==> market.purses == old(market.purses) &&
                               HbdRewarded(old(accounts), old(g), accounts, g, who, x, printRate, median.value)
    {
      hide Holdings, InHbd, InHive, ToVests, ToHive, Solvent, SidesOk, Uncrossed, EscrowsOk, WithdrawalsOk,
           ConversionsOk, CollateralsOk, RoutesIn;
      if median.None? {
        Pay(who, HIVE, x);
        g := g.(rewardFund := g.rewardFund - x);
        return;
      }
      var part := Printable(x, printRate);
      var hbd := InHbd(part, median.value);
      var acc := accounts[who];
      SetAccount(who, acc.(rewardHbd := acc.rewardHbd + hbd, rewardHive := acc.rewardHive + (x - part)));
      g := g.(rewardFund := g.rewardFund - x, supply := g.supply - part, hbdSupply := g.hbdSupply + hbd);
    }

    /** Claims part of the rewards; claimed VESTS take their part of the HIVE behind them into the fund. */
    method ClaimRewards(who: nat, hive: nat, hbd: nat, vests: nat) returns (ok: bool)
      requires Valid() && who < |accounts|
      modifies this`accounts, this`g, market`purses
      ensures Valid() && |accounts| == old(|accounts|)
      ensures ok <==> Claimable(old(accounts)[who], hive, hbd, vests)
      ensures !ok ==> accounts == old(accounts) && g == old(g) && market.purses == old(market.purses)
      ensures ok ==> Spent(old(market.purses), market.purses, who, 0 - hive, 0 - hbd) &&
                     Claimed(old(accounts), old(g), accounts, g, who, hive, hbd, vests)
    {
      hide Holdings, InHbd, InHive, ToVests, ToHive, Solvent, SidesOk, Uncrossed, EscrowsOk, WithdrawalsOk,
           ConversionsOk, CollateralsOk, RoutesIn, Behind, Spent;
      var acc := accounts[who];
      if acc.rewardHive < hive || acc.rewardHbd < hbd || acc.rewardVests < vests {
        return false;
      }
      var moved := Behind(acc, vests);
      PayBoth(who, hive, hbd);
      SetAccount(who, acc.(rewardHive := acc.rewardHive - hive, rewardHbd := acc.rewardHbd - hbd, vests := acc.vests +
                             vests,
                           rewardVests := acc.rewardVests - vests, rewardVestHive := acc.rewardVestHive - moved));
      g := g.(shares := g.shares + vests, fund := g.fund + moved, pendingShares := g.pendingShares - vests,
              pendingHive := g.pendingHive - moved);
      return true;
    }

    // ---- the market ----

    method PlaceOrder(owner: nat, a: Asset, amount: int, base: int, quote: int, number: nat, expiration: nat, now: nat,
                      fillOrKill: bool)
      returns (ok: bool, filled: bool, k: nat)
      requires Valid() && owner < |accounts| && base > 0 && quote > 0 && amount > 0 && amount * quote / base > 0
      modifies market
      ensures Valid()
      ensures Trades(Placed(), now, owner, a, amount, base, quote, number, expiration, fillOrKill, old(Now()), Now())
    {
      hide Sum, Pending, Supply, HeldBy, Solvent, SidesOk, Uncrossed, EscrowsOk, WithdrawalsOk, ConversionsOk,
           CollateralsOk, RoutesIn, Progress, Listed, HasKey, Fills, MatchRun;
      ghost var stages;
      ok, filled, k, stages := market.CreateOrder(owner, a, amount, base, quote, number, expiration, now, fillOrKill);
      if ok {
        assert Rests(owner, a, Order(old(market.nextId), owner, number, amount, base, quote, expiration), k, stages,
                     old(Now()), Now());
      }
    }

    method CancelOrder(owner: nat, number: nat) returns (ok: bool, ghost a: Asset, ghost k: nat)
      requires Valid()
      modifies market
      ensures Valid() && Cancels(owner, number, old(Now()), Now())
    {
      hide Sum, Pending, Supply, HeldBy, Solvent, SidesOk, Uncrossed, EscrowsOk, WithdrawalsOk, ConversionsOk,
           CollateralsOk, RoutesIn, HasKey, Drop;
      ok, a, k := market.CancelOrder(owner, number);
      if ok {
        assert Cancelled(owner, number, a, k, old(Now()), Now());
      }
    }

    method ExpireOrders(now: nat)
      requires Valid()
      modifies market`purses, market`book
      ensures Valid() && OrdersExpire(now, old(Now()), Now())
    {
      hide Sum, Pending, Supply, HeldBy, Solvent, SidesOk, Uncrossed, EscrowsOk, WithdrawalsOk, ConversionsOk,
           CollateralsOk, RoutesIn, Owned;
      market.ClearExpired(now);
    }

    // ---- power-down ----

    /** Starts, changes or, at zero, cancels a power-down. */
    method StartPowerDown(who: nat, x: nat, now: nat) returns (ok: bool)
      requires Valid() && who < |accounts|
      modifies this`accounts
      ensures Valid() && |accounts| == old(|accounts|) && (ok <==> MayPowerDown(old(accounts)[who], x))
      ensures accounts == if ok then old(accounts)[who := old(accounts)[who].(power := Planned(x, now))]
                          else old(accounts)
    {
      hide Holdings, InHbd, InHive, ToVests, ToHive, Solvent, SidesOk, Uncrossed, EscrowsOk, WithdrawalsOk,
           ConversionsOk, CollateralsOk, RoutesIn, Debited;
      var acc := accounts[who];
      if acc.vests < acc.delegated || acc.vests - acc.delegated < x {
        return false;
      }
      if x == 0 {
        if acc.power.Idle? {
          return false;
        }
      } else if acc.power.Active? && acc.power.rate == Rate(x) {
        return false;
      }
      SetAccount(who, acc.(power := Planned(x, now)));
      return true;
    }

    method SetWithdrawRoute(r: Route) returns (ok: bool)
      requires Valid() && r.from < |accounts| && r.dest < |accounts| && r.percent <= HUNDRED_PERCENT
      modifies this`routes
      ensures Valid() && (!ok ==> routes == old(routes)) && (ok ==> RouteSet(old(routes), routes, r))
      ensures ok <==> r.dest != treasury && MayRoute(old(routes), r)
    {
      hide Holdings, Solvent, SidesOk, Uncrossed, EscrowsOk, WithdrawalsOk, ConversionsOk, CollateralsOk, RoutesOk,
           RouteSet, MayRoute;
      if r.dest == treasury {
        return false;
      }
      ghost var before := routes;
      ok, routes := SetRoute(routes, r);
      if ok {
        RoutesStayIn(before, routes, r, |accounts|);
      }
    }

    /** Deposits along the routes of one kind: VESTS, or HIVE cashed in for them as long as there is a price. */
    method RoutePass(who: nat, amount: nat, autoVest: bool) returns (ok: bool, deposited: nat)
      requires Sound() && who < |accounts|
      modifies this`accounts, this`g, market`purses
      ensures ok <==> autoVest || CashAlong(routes, who, amount, PoolOf(old(g))).Some?
      ensures ok ==> Sound() && |accounts| == old(|accounts|) && deposited == DepositsBy(routes, who, amount, autoVest)
      ensures ok ==> Minus(Held(), Supplied(g)) == Plus(old(Minus(Held(), Supplied(g))), Money(0, 0, deposited, 0, 0))
      ensures ok ==> Passed(old(accounts), old(market.purses), old(g), accounts, market.purses, g, routes, who, amount,
                            autoVest)
    {
      hide Holdings, InHbd, InHive, ToVests, ToHive, Solvent, SidesOk, Uncrossed, EscrowsOk, WithdrawalsOk,
           ConversionsOk, CollateralsOk, RoutesIn, Debited, DepositsBy, DepositBy, Passed, Deposited, CashAlong;
      deposited := 0;
      NoRoutesYet(routes, who, amount, autoVest);
      PassedNone(accounts, market.purses, g, routes, who, amount, autoVest);
      ghost var excess := Minus(Held(), Supplied(g));
      for i := 0 to |routes|
        invariant Sound() && |accounts| == old(|accounts|) && deposited ==
                    DepositsBy(routes[..i], who, amount, autoVest)
        invariant Minus(Held(), Supplied(g)) == Plus(excess, Money(0, 0, deposited, 0, 0))
        invariant Passed(old(accounts), old(market.purses), old(g), accounts, market.purses, g, routes[..i], who,
                         amount, autoVest)
      {
        DepositsStep(routes, i, who, amount, autoVest);
        RouteIn(routes, i, |accounts|);
        ghost var a1, p1, g1 := accounts, market.purses, g;
        var d := DepositBy(routes[i], who, amount, autoVest);
        if d > 0 {
          if !autoVest && !Priced(g.fund, g.shares) {
            PassedStuck(old(accounts), old(market.purses), old(g), accounts, market.purses, g, routes, i, who, amount);
            return false, deposited;
          }
          DepositOne(routes[i].dest, d, autoVest);
        }
        deposited := deposited + d;
        PassedOne(old(accounts), old(market.purses), old(g), a1, p1, g1, accounts, market.purses, g, routes, i, who,
                  amount, autoVest);
      }
      assert routes[..|routes|] == routes;
      PassedWhole(old(accounts), old(market.purses), old(g), accounts, market.purses, g, routes, who, amount, autoVest);
      ok := true;
    }

    method DepositOne(dest: nat, d: nat, autoVest: bool)
      requires Sound() && dest < |accounts| && 0 < d && (autoVest || Priced(g.fund, g.shares))
      modifies this`accounts, this`g, market`purses
      ensures Sound() && |accounts| == old(|accounts|)
      ensures Minus(Held(), Supplied(g)) == Plus(old(Minus(Held(), Supplied(g))), Money(0, 0, d, 0, 0))
      ensures Deposited(old(accounts), old(market.purses), old(g), accounts, market.purses, g, dest, d, autoVest)
    {
      hide Holdings, InHbd, InHive, ToVests, ToHive, Solvent, SidesOk, Uncrossed, EscrowsOk, WithdrawalsOk,
           ConversionsOk, CollateralsOk, RoutesIn;
      if autoVest {
        SetAccount(dest, accounts[dest].(vests := accounts[dest].vests + d));
      } else {
        var hive := ToHive(d, g.fund, g.shares);
        Pay(dest, HIVE, hive);
        g := g.(fund := g.fund - hive, shares := g.shares - d);
      }
    }

    /**
     * One part of a power-down, refused as a whole when some VESTS in it have no price. `PartPaid`
     * and, amount by amount, `PaidOff` say who gets what; `PartExact` and `PartHasPrices` say what
     * that does to the price.
     */
    method WithdrawPart(who: nat) returns (ok: bool, ghost o: Payout)
      requires Valid() && who < |accounts|
      modifies this`accounts, this`g, market`purses
      ensures Valid() && |accounts| == old(|accounts|) &&
              (ok <==> PartPriced(old(g), routes, who, NextPart(old(accounts)[who])))
      ensures !ok ==> accounts == old(accounts) && g == old(g) && market.purses == old(market.purses)
      ensures ok ==> PartPaid(old(accounts), old(market.purses), old(g), accounts, market.purses, g, routes, who)
      ensures ok ==> PaidOff(old(accounts), old(market.purses), old(g), accounts, market.purses, g, routes, who, o)
    {
      hide PaidOff, PartPaid, PartPriced, NextPart, Holdings, SidesOk, Solvent, Uncrossed, EscrowsOk, WithdrawalsOk,
           ConversionsOk, CollateralsOk, RoutesIn;
      var saved := (accounts, g, market.purses);
      o := Payout(0, [], [], [], [], 0, 0);
      ok := PayPart(who);
      if !ok {
        accounts, g, market.purses := saved.0, saved.1, saved.2;
      } else {
        o := PartPaysOff(old(accounts), old(market.purses), old(g), accounts, market.purses, g, routes, who);
      }
    }

    method PayPart(who: nat) returns (ok: bool)
      requires Valid() && who < |accounts|
      modifies this`accounts, this`g, market`purses
      ensures ok <==> PartPriced(old(g), routes, who, NextPart(old(accounts)[who]))
      ensures ok ==> Valid() && |accounts| == old(|accounts|)
      ensures ok ==> PartPaid(old(accounts), old(market.purses), old(g), accounts, market.purses, g, routes, who)
    {
      hide Holdings, Sound, NextPart, Moved, DepositsBy, VestsPassed, HivePassed, Cashed, PartPaid, CashAlong;
      var w := NextPart(accounts[who]);
      PartWithin(accounts[who]);
      SoundSizes();
      var routed;
      ok, routed := RouteAll(who, w);
      if !ok {
        return;
      }
      ghost var a1, p1, g1 := accounts, market.purses, g;
      HivePool(old(market.purses), old(g), p1, g1, routes, who, w);
      if !Priced(g.fund, g.shares) {
        return false;
      }
      VestsKept(old(accounts), accounts, routes, who, w);
      RoutesWithin(routes, |accounts|, who, w);
      Settle(who, w, w - routed);
      PartDone(old(accounts), old(market.purses), old(g), a1, p1, g1, accounts, market.purses, g, routes, who, w);
    }

    lemma SoundSizes()
      requires Sound()
      ensures |market.purses| == |accounts| && RoutesIn(routes, |accounts|)
    {
    }

    /** Both passes over the routes, VESTS first. */
    method RouteAll(who: nat, w: nat) returns (ok: bool, routed: nat)
      requires Sound() && who < |accounts|
      modifies this`accounts, this`g, market`purses
      ensures ok <==> CashAlong(routes, who, w, PoolOf(old(g))).Some?
      ensures ok ==> Sound() && |accounts| == old(|accounts|) && routed == w - Rest(routes, who, w)
      ensures ok ==> Minus(Held(), Supplied(g)) == Plus(old(Minus(Held(), Supplied(g))), Money(0, 0, routed, 0, 0))
      ensures ok ==> VestsPassed(old(accounts), accounts, routes, who, w) &&
                     HivePassed(old(market.purses), old(g), market.purses, g, routes, who, w)
    {
      hide Holdings, InHbd, InHive, ToVests, ToHive, Solvent, SidesOk, Uncrossed, EscrowsOk, WithdrawalsOk,
           ConversionsOk, CollateralsOk, RoutesIn, DepositsBy, VestsPassed, HivePassed, CashAlong;
      RoutesWithin(routes, |accounts|, who, w);
      var a, b;
      ok, a := RoutePass(who, w, true);
      ok, b := RoutePass(who, w, false);
      routed := a + b;
    }

    /** Takes the part from the account and cashes in what was not routed. */
    method Settle(who: nat, w: nat, rest: nat)
      requires Sound() && who < |accounts| && accounts[who].vests >= w && Priced(g.fund, g.shares)
      modifies this`accounts, this`g, market`purses
      ensures Sound() && |accounts| == old(|accounts|)
      ensures Minus(Held(), Supplied(g)) == Plus(old(Minus(Held(), Supplied(g))), Money(0, 0, rest - w, 0, 0))
      ensures Cashed(old(accounts), old(market.purses), old(g), accounts, market.purses, g, who, w, rest)
    {
      hide Holdings, InHbd, InHive, ToVests, ToHive, Solvent, SidesOk, Uncrossed, EscrowsOk, WithdrawalsOk,
           ConversionsOk, CollateralsOk, RoutesIn, Debited, Moved;
      var hive := ToHive(rest, g.fund, g.shares);
      Pay(who, HIVE, hive);
      var acc := accounts[who];
      SetAccount(who, acc.(vests := acc.vests - w, power := Moved(acc.power, w, acc.vests - w)));
      g := g.(fund := g.fund - hive, shares := g.shares - rest);
    }

    /** The account whose part is due next after `last`. */
    method NextDue(last: Option<nat>, now: nat) returns (r: Option<nat>)
      ensures ComesNext(accounts, last, r, now)
    {
      var best: Option<nat> := None;
      for k := 0 to |accounts|
        invariant best.None? ==> forall j: nat :: j < k ==> !Ahead(accounts, last, j)
        invariant best.Some? ==> best.value < k && Ahead(accounts, last, best.value) &&
                                 forall j: nat :: j < k && Ahead(accounts, last, j) ==> !Sooner(accounts, j, best.value)
      {
        if Ahead(accounts, last, k) && (best.None? || Sooner(accounts, k, best.value)) {
          best := Some(k);
        }
      }
      if best.Some? && accounts[best.value].power.next > now {
        forall j: nat | Ahead(accounts, last, j) ensures !DuePower(accounts[j].power, now) {
          assert !Sooner(accounts, j, best.value);
        }
        return None;
      }
      r := best;
    }

    /**
     * The parts that are due, one account after the other, in the order in which they are due;
     * stops where one has no price. `who` are those served, `states` what there was before each.
     */
    method PowerDowns(now: nat) returns (ok: bool, ghost who: seq<nat>, ghost states: seq<Snapshot>,
                                         ghost stuck: Option<nat>)
      requires Valid()
      modifies this`accounts, this`g, market`purses
      ensures Valid() && |accounts| == old(|accounts|) && FundKept(old(g), g)
      ensures Served(now, who, states, stuck) && states[0] == old(Now()) && states[|who|] == Now()
      ensures ok <==> stuck.None?
      ensures stuck.Some? ==> stuck.value < |accounts| &&
                              !PartPriced(g, routes, stuck.value, NextPart(accounts[stuck.value]))
      ensures old(Backed(g.fund, g.shares)) ==> ok
    {
      hide Valid, Served, Pays, PartPaid, PartPriced, Backed, NextPart, RoutesIn, ComesNext, FundKept;
      var cur: Option<nat> := NextDue(None, now);
      NextIs(accounts, None, cur, now);
      who, states, stuck := [], [Now()], None;
      ServedNone(now, Now(), cur);
      FundSame(g);
      while cur.Some?
        invariant Valid() && |accounts| == old(|accounts|) && FundKept(old(g), g)
        invariant Served(now, who, states, cur) && |states| == |who| + 1
        invariant states[0] == old(Now()) && states[|who|] == Now()
        invariant cur.Some? ==> cur.value < |accounts| && DuePower(accounts[cur.value].power, now)
        decreases if cur.Some? then 1 + now - accounts[cur.value].power.next else 0,
                  if cur.Some? then |accounts| - cur.value else 0
      {
        var k: nat := cur.value;
        var next: Option<nat> := NextDue(Some(k), now);
        NextIs(accounts, Some(k), next, now);
        SharesThere(k);
        ghost var before := Now();
        if old(Backed(g.fund, g.shares)) {
          FundBacked(old(g), g);
          PartHasPrices(accounts, g, routes, k);
        }
        ghost var o;
        ok, o := WithdrawPart(k);
        if !ok {
          stuck := Some(k);
          return;
        }
        PaysOne(before, Now(), k);
        FundKeptMore(old(g), before, Now(), k);
        ServedMore(now, who, states, k, Now(), next);
        if next.Some? {
          OthersWait(before, Now(), k, next.value);
        }
        who, states, cur := who + [k], states + [Now()], next;
      }
      ok := true;
    }

    lemma SharesThere(k: nat)
      requires Valid() && k < |accounts|
      ensures accounts[k].vests <= g.shares && RoutesIn(routes, |accounts|)
    {
      SharesCover(market.purses, market.book, accounts, escrows, withdrawals, conversions, collaterals, g, k);
    }

    /** What happens after the operations of a block; it fails as a whole when the power-downs do. */
    method EndBlock(now: nat, feed: Feed) returns (ok: bool, ghost t: Stages)
      requires Valid() && FeedOk(feed)
      modifies this`accounts, this`escrows, this`withdrawals, this`conversions, this`collaterals, this`g,
               market`purses, market`book
      ensures Valid() && |accounts| == old(|accounts|) && Ends(now, feed, old(Now()), Now(), t)
      ensures old(Backed(g.fund, g.shares)) ==> ok && Backed(g.fund, g.shares)
    {
      hide Holdings, Solvent, SidesOk, Uncrossed, EscrowsOk, WithdrawalsOk, ConversionsOk, CollateralsOk, RoutesIn,
           Backed, FeedOk, Reached, Ends;
      var saved := (accounts, escrows, withdrawals, conversions, collaterals, g, market.purses, market.book);
      ghost var before := Now();
      ok, t := Steps(now, feed);
      ghost var after := Now();
      if !ok {
        accounts, escrows, withdrawals, conversions := saved.0, saved.1, saved.2, saved.3;
        collaterals, g, market.purses, market.book := saved.4, saved.5, saved.6, saved.7;
      }
      EndsThen(now, feed, before, after, Now(), t, ok);
    }

    /** What is over or due of orders and conversions. */
    method Settlements(now: nat, feed: Feed) returns (ghost orders: Snapshot, ghost conversions: Snapshot)
      requires Valid() && FeedOk(feed)
      modifies this`conversions, this`collaterals, this`g, market`purses, market`book
      ensures Valid() && PoolOf(g) == old(PoolOf(g)) && OrdersExpire(now, old(Now()), orders)
      ensures ConversionsPaid(now, feed.median, orders, conversions)
      ensures CollateralsPaid(now, feed.market, conversions, Now())
    {
      hide Valid, AllSettled, Owned, OrdersExpire, Proper;
      ExpireOrders(now);
      orders := Now();
      PayConversions(now, feed.median);
      conversions := Now();
      PayCollaterals(now, feed.market);
    }

    method Steps(now: nat, feed: Feed) returns (ok: bool, ghost t: Stages)
      requires Valid() && FeedOk(feed)
      modifies this`accounts, this`escrows, this`withdrawals, this`conversions, this`collaterals, this`g,
               market`purses, market`book
      ensures |accounts| == old(|accounts|) && (ok ==> Valid()) && (ok <==> t.stuck.None?)
      ensures Reached(now, feed, old(Now()), t)
      ensures ok ==> SavingsPaid(now, t.states[|t.who|], t.savings) && EscrowsExpire(now, t.savings, Now())
      ensures old(Backed(g.fund, g.shares)) ==> ok && Backed(g.fund, g.shares)
    {
      hide Valid, AllSettled, Owned, FundKept, Backed, Served, PartPriced, NextPart, OrdersExpire, ConversionsPaid,
           CollateralsPaid, FeedOk;
      FeedParts(feed);
      ghost var t1, t2 := Settlements(now, feed);
      ghost var t3 := Now();
      ghost var who, states, stuck;
      ok, who, states, stuck := PowerDowns(now);
      t := Stages(t1, t2, t3, who, states, stuck, t3);
      if old(Backed(g.fund, g.shares)) {
        FundBacked(t3.g, g);
      }
      if ok {
        PayWithdrawals(now);
        t := t.(savings := Now());
        ExpireEscrows(now);
      }
    }

    // ---- any operation ----

    lemma Balance()
      requires Valid()
      ensures Held() == Owed(g, lost) && (Held() == Supplied(g) <==> lost == 0)
    {
    }

    /** Carries out one operation; one that names an unknown account fails like any other that is refused. */
    method Apply(op: Op, now: nat, feed: Feed)
      requires Valid() && FeedOk(feed)
      modifies this, market
      ensures Valid() && |accounts| == old(|accounts|)
      ensures Does(Placed(), op, now, feed, old(Now()), Now())
      ensures lost == old(lost) + LostBy(op, |accounts|, old(g))
      ensures old(Backed(g.fund, g.shares)) ==> (Backed(g.fund, g.shares) <==> !Hollow(op, old(accounts), old(g)))
    {
      hide Valid, Held, Sound, Backed, Behind, RewardVestsFor, Sends, Trades, Cancels, Saves, Entrusts, Converts,
           Powers, Rewards, Ends, FeedOk;
      match op {
        case Send(from, dest, a, x) =>
          ApplySend(from, dest, a, x, feed);
        case Trade(owner, a, amount, base, quote, number, expiration, fillOrKill) =>
          ApplyTrade(owner, a, amount, base, quote, number, expiration, now, fillOrKill);
        case Withdraw(owner, number) =>
          var ok, a, k := CancelOrder(owner, number);
        case Saving(s) =>
          ApplySaving(s, now);
        case Escrowed(e) =>
          ApplyEscrow(e, now);
        case Converting(c) =>
          ApplyConversion(c, now, feed);
        case Powering(v) =>
          ApplyVesting(v, now);
        case Paying(r) =>
          ApplyReward(r, feed);
        case EndOfBlock =>
          var ok;
          ghost var t;
          ok, t := EndBlock(now, feed);
      }
    }

    method ApplySend(from: nat, dest: nat, a: Asset, x: nat, feed: Feed)
      requires Valid() && FeedOk(feed)
      modifies this`g, market`purses
      ensures Valid() && PoolOf(g) == old(PoolOf(g)) && Sends(Placed(), feed, from, dest, a, x, old(Now()), Now())
    {
      hide Valid, Held, Sound;
      if from < |accounts| && dest < |accounts| {
        var ok := Transfer(from, dest, a, x, feed.median);
      }
    }

    method ApplyTrade(owner: nat, a: Asset, amount: int, base: int, quote: int, number: nat, expiration: nat, now: nat,
                      fillOrKill: bool)
      requires Valid()
      modifies market
      ensures Valid()
      ensures Trades(Placed(), now, owner, a, amount, base, quote, number, expiration, fillOrKill, old(Now()), Now())
    {
      hide Valid, Held, Sound, Fills, HasKey, Rests;
      if owner < |accounts| && base > 0 && quote > 0 && amount > 0 && amount * quote / base > 0 {
        var ok, filled, k := PlaceOrder(owner, a, amount, base, quote, number, expiration, now, fillOrKill);
      }
    }

    method ApplySaving(op: SavingOp, now: nat)
      requires Valid()
      modifies this`accounts, this`g, this`withdrawals, market`purses
      ensures Valid() && |accounts| == old(|accounts|) && PoolOf(g) == old(PoolOf(g))
      ensures Saves(Placed(), op, now, old(Now()), Now())
    {
      hide Valid, Held, Sound, Debited, Covers, MayAsk, NoRequest;
      match op {
        case Save(from, dest, a, x, interest) =>
          if from < |accounts| && dest < |accounts| {
            var ok := ToSavings(from, dest, a, x, interest);
          }
        case Ask(from, number, dest, a, x, interest) =>
          if from < |accounts| && dest < |accounts| {
            var ok := FromSavings(from, number, dest, a, x, interest, now + SAVINGS_WITHDRAW_TIME);
          }
        case TakeBack(from, number, interest) =>
          if from < |accounts| {
            var ok, i := CancelFromSavings(from, number, interest);
            if ok {
              assert TakesBack(from, number, interest, i, old(Now()), Now());
            }
          }
      }
    }

    method ApplyEscrow(op: EscrowOp, now: nat)
      requires Valid()
      modifies this`escrows, market`purses
      ensures Valid() && Entrusts(op, now, old(Now()), Now())
    {
      hide Valid, Held, Sound, MayEscrow, Approves, MayDispute, MayRelease, Released, Spent, Refunded, FeePaid;
      match op {
        case Begin(e) =>
          if e.from < |accounts| && e.dest < |accounts| && e.agent < |accounts| {
            var ok := EscrowTransfer(e.(destApproved := false, agentApproved := false, disputed := false), now);
          }
        case Approve(from, number, dest, agent, who, approve) =>
          if who == dest || who == agent {
            var ok, i := EscrowApprove(from, number, dest, agent, who, approve, now);
          }
        case Dispute(from, number, dest, agent) =>
          var ok, i := EscrowDispute(from, number, dest, agent, now);
        case Release(from, number, dest, agent, who, receiver, hive, hbd) =>
          var ok, i := EscrowRelease(from, number, dest, agent, who, receiver, hive, hbd, now);
      }
    }

    method ApplyConversion(op: ConversionOp, now: nat, feed: Feed)
      requires Valid() && FeedOk(feed)
      modifies this`conversions, this`collaterals, this`g, market`purses
      ensures Valid() && PoolOf(g) == old(PoolOf(g)) && Converts(Placed(), op, now, feed, old(Now()), Now())
    {
      hide Valid, Held, Sound, Covers, NoConversion, MayLock, Debited, Spent;
      match op {
        case FromHbd(owner, number, x) =>
          if owner < |accounts| {
            var ok := Convert(owner, number, x, now + CONVERSION_DELAY, feed.median.Some?);
          }
        case FromHive(owner, number, x) =>
          if owner < |accounts| && feed.low.Some? {
            var ok := ConvertCollateral(owner, number, x, now + CONVERSION_DELAY, feed.median, feed.low.value,
                                        feed.printRate > 0, feed.stop);
          }
      }
    }

    method ApplyVesting(op: VestingOp, now: nat)
      requires Valid()
      modifies this`accounts, this`g, this`routes, market`purses
      ensures Valid() && |accounts| == old(|accounts|)
      ensures old(Backed(g.fund, g.shares)) ==> Backed(g.fund, g.shares)
      ensures Powers(Placed(), op, now, old(Now()), Now())
    {
      hide Valid, Held, Sound, Backed, Vested, Covers, Debited, MayPowerDown, MayRoute, RouteSet;
      match op {
        case PowerUp(from, dest, x) =>
          if from < |accounts| && dest < |accounts| {
            var ok := TransferToVesting(from, dest, x);
            if ok && old(Backed(g.fund, g.shares)) {
              VestedBacked(old(accounts), old(g), accounts, g, dest, x);
            }
          }
        case Down(who, x) =>
          if who < |accounts| {
            var ok := StartPowerDown(who, x, now);
          }
        case Routing(r) =>
          if r.from < |accounts| && r.dest < |accounts| && r.percent <= HUNDRED_PERCENT {
            var ok := SetWithdrawRoute(r);
          }
      }
    }

    method ApplyReward(op: RewardOp, feed: Feed)
      requires Valid() && FeedOk(feed)
      modifies this`accounts, this`g, this`lost, market`purses
      ensures Valid() && |accounts| == old(|accounts|)
      ensures lost == old(lost) + LostBy(Paying(op), |accounts|, old(g))
      ensures old(Backed(g.fund, g.shares)) ==>
                (Backed(g.fund, g.shares) <==> !Hollow(Paying(op), old(accounts), old(g)))
      ensures Rewards(Placed(), op, feed, old(Now()), Now())
    {
      hide Valid, Held, Sound, RewardVestsFor, Inflated, Printed, Behind, Balances, MayPrint, Claimed, Spent,
           Debited;
      match op {
        case Mint(newHive, c, producer) =>
          if producer < |accounts| && Balances(c) {
            var amounts := Inflated(newHive, c);
            var ok := Inflate(amounts, producer, feed.median);
            if ok && old(Backed(g.fund, g.shares)) {
              PrintedBacked(old(g), g, amounts, feed.median);
            }
          }
        case GiveVests(who, x) =>
          if who < |accounts| {
            var ok := RewardVests(who, x);
          }
        case GiveHbd(who, x) =>
          if who < |accounts| {
            RewardHbd(who, x, feed.printRate, feed.median);
          }
        case Claim(who, hive, hbd, vests) =>
          if who < |accounts| {
            var ok := ClaimRewards(who, hive, hbd, vests);
            if ok && old(Backed(g.fund, g.shares)) {
              ClaimedBacked(old(accounts), old(g), accounts, g, who, hive, hbd, vests);
            }
          }
      }
    }
  }

  ghost function FirstSnapshot(purses: seq<Purse>, accounts: seq<Account>, g: Globals): Snapshot {
    Snapshot(accounts, g, purses, Book([], []), 0, [], [], [], [], [])
  }

  /**
   * Over any run of operations, each of which does to the ledger what it does, the supplies equal
   * the sum of all holdings, token by token, but for exactly the HIVE of rewards too small for a
   * VEST; without such a reward they are equal. And a backed vesting fund stays backed, so that it
   * is never negative and VESTS always have a price, as long as nobody claims VESTS with nothing
   * behind them while the fund is empty. `seen` is what there was before each operation and at
   * the end.
   */
  method RunLedger(purses: seq<Purse>, accounts: seq<Account>, g: Globals, treasury: nat, maxExpiration: nat,
                   ops: seq<(nat, Op, Feed)>)
    returns (ledger: Ledger, ghost seen: seq<Snapshot>)
    requires Solvent(purses) && |accounts| == |purses| && treasury < |purses|
    requires Supplied(g) == Plus(Liquid(purses, Book([], [])), Sum(accounts, AccountMoney))
    requires forall i: nat :: i < |ops| ==> FeedOk(ops[i].2)
    ensures |seen| == |ops| + 1 && seen[0] == FirstSnapshot(purses, accounts, g) && seen[|ops|] == ledger.Now()
    ensures Chronicled(Setup(treasury, maxExpiration), ops, seen)
    ensures fresh(ledger) && ledger.Valid() && ledger.Held() == Owed(ledger.g, LostIn(ops, seen, |ops|))
    ensures ledger.Held() == Supplied(ledger.g) <==> LostIn(ops, seen, |ops|) == 0
    ensures StaysBacked(ops, seen)
  {
    hide Ledger.Valid, Ledger.Held, Ledger.Sound, Backed, Hollow, LostBy, LostIn, StaysBacked, Supplied, Owed, Liquid,
         Sum, Solvent, FeedOk, Does, Chronicled;
    ledger := new Ledger(purses, accounts, g, treasury, maxExpiration);
    seen := [ledger.Now()];
    BackedOnce(ops, seen[0]);
    LostNone(ops, seen);
    ChronicleBegins(ledger.Placed(), ops, seen[0]);
    for i := 0 to |ops|
      invariant fresh(ledger) && fresh(ledger.market) && ledger.Valid() && |seen| == i + 1
      invariant seen[0] == FirstSnapshot(purses, accounts, g) && seen[i] == ledger.Now()
      invariant ledger.lost == LostIn(ops, seen, i) && StaysBacked(ops, seen)
      invariant ledger.Placed() == Setup(treasury, maxExpiration) && Chronicled(ledger.Placed(), ops, seen)
    {
      ledger.Apply(ops[i].1, ops[i].0, ops[i].2);
      ghost var next := ledger.Now();
      LostMore(ops, seen, next);
      BackedOn(ops, seen, next);
      ChronicleGoesOn(ledger.Placed(), ops, seen, next);
      seen := seen + [next];
    }
    ledger.Balance();
  }
}
