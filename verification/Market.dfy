// The market as a machine: creating, matching, cancelling and expiring limit orders.

module Market {
  import opened Common
  import opened OrderBook
  import opened Matching

  class Exchange {
    const maxExpiration: nat      // HIVE_MAX_LIMIT_ORDER_EXPIRATION
    var purses: seq<Purse>
    var book: Book
    var nextId: nat

    /** Everything a state between two matches satisfies. */
    ghost predicate Sound()
      reads this
    {
      && Solvent(purses)
      && SidesOk(book.sellHive, book.sellHbd, |purses|, nextId)
    }

    ghost predicate Valid()
      reads this
    {
      Sound() && Uncrossed(book.sellHive, book.sellHbd)
    }

    constructor (purses: seq<Purse>, maxExpiration: nat)
      requires Solvent(purses)
      ensures Valid() && this.purses == purses && this.maxExpiration == maxExpiration && book == Book([], []) &&
              nextId == 0
    {
      this.purses, this.maxExpiration := purses, maxExpiration;
      book, nextId := Book([], []), 0;
    }

    /** Changes a liquid balance, which must not go below zero. */
    method Adjust(owner: nat, a: Asset, x: int) returns (ok: bool)
      requires Valid() && owner < |purses|
      modifies this`purses
      ensures Valid() && (ok <==> old(purses[owner].Get(a)) + x >= 0)
      ensures purses == if ok then old(Bump(purses, owner, a, x)) else old(purses)
      ensures Supply(purses, book, a) == old(Supply(purses, book, a)) + if ok then x else 0
      ensures Supply(purses, book, Other(a)) == old(Supply(purses, book, Other(a)))
    {
      if purses[owner].Get(a) + x < 0 {
        return false;
      }
      HeldUpdate(purses, owner, a, x, a);
      HeldUpdate(purses, owner, a, x, Other(a));
      purses := Bump(purses, owner, a, x);
      return true;
    }

    /** Pays one order of a match; true when the order is gone, filled or too small to go on. */
    method FillOrder(a: Asset, k: nat, pays: int, receives: int) returns (gone: bool)
      requires k < |book.Get(a)| && Live(book.Get(a)[k]) && book.Get(a)[k].seller < |purses|
      requires 0 < pays <= book.Get(a)[k].forSale && receives > 0
      modifies this`purses, this`book
      ensures book == old(book.Put(a, Taken(book.Get(a), k, pays)))
      ensures purses == old(Paid(purses, a, book.Get(a)[k], pays, receives))
      ensures gone <==> old(pays == book.Get(a)[k].forSale || Dust(book.Get(a)[k], pays) > 0)
    {
      var side := book.Get(a);
      var o := side[k];
      purses := Bump(purses, o.seller, Other(a), receives);
      if pays == o.forSale {
        book := book.Put(a, Drop(side, k));
        assert purses == Bump(purses, o.seller, a, 0);
        return true;
      }
      var left := o.forSale - pays;
      book := book.Put(a, side[k := o.(forSale := left)]);
      if Limit(o, left) == 0 {
        purses := Bump(purses, o.seller, a, left);
        book := book.Put(a, Drop(book.Get(a), k));
        assert book.Get(a) == Drop(side, k);
        return true;
      }
      assert purses == Bump(purses, o.seller, a, 0);
      return false;
    }

    /** Matches order `k` of side `a` with the best order of the other side, at the latter's price. */
    method Match(a: Asset, k: nat) returns (newGone: bool, oldGone: bool, ghost amounts: (int, int))
      requires Ready(purses, book, nextId, a, k)
      modifies this`purses, this`book
      ensures old(Matchable(purses, book, a, k))
      ensures Exchanged(old(Stage(purses, book)), Stage(purses, book), a, k, amounts.0, amounts.1)
      ensures book == old(BookAfter(purses, book, a, k)) && purses == old(PursesAfter(purses, book, a, k))
      ensures newGone == old(TakerGone(book.Get(a)[k], book.Get(Other(a))[0]))
      ensures oldGone == old(MakerGone(book.Get(a)[k], book.Get(Other(a))[0]))
      ensures newGone || oldGone
    {
      ReadyMatchable(purses, book, nextId, a, k);
      hide Crosses, Limit, SidesOk, Solvent, Exchanged, AtOldPrice;
      ExchangedIs(Stage(purses, book), a, k);
      var n, o := book.Get(a)[k], book.Get(Other(a))[0];
      MatchFair(n, o);
      var (pays, receives) := MatchAmounts(n, o);
      amounts := (pays, receives);
      newGone := FillOrder(a, k, pays, receives);
      oldGone := FillOrder(Other(a), 0, receives, pays);
    }

    /**
     * Matches the new order `k` of side `a` until it is gone or nothing crosses it any more.
     * A book that was uncrossed without the new order is uncrossed afterwards.
     */
    method ApplyOrder(a: Asset, k: nat) returns (filled: bool, ghost stages: seq<Stage>)
      requires Sound() && k < |book.Get(a)|
      requires Uncrossed(Drop(book.Get(a), k), book.Get(Other(a)))
      modifies this`purses, this`book
      ensures Valid() && Progress(old(purses), old(book), purses, book, nextId, a, k, filled)
      ensures filled <==> old(Fills(book.Get(a)[k], book.Get(Other(a))))
      ensures MatchRun(stages, a, k, old(book.Get(a)[k].id)) && stages[0] == old(Stage(purses, book)) &&
              stages[|stages| - 1] == Stage(purses, book)
    {
      hide SidesOk, Uncrossed, Supply, Crosses, PursesAfter, BookAfter, TakerGone, MakerGone, Fills, MatchRun,
           Exchanged;
      stages := [Stage(purses, book)];
      ghost var id := book.Get(a)[k].id;
      MatchRunNone(stages[0], a, k, id);
      ghost var fills := Fills(book.Get(a)[k], book.Get(Other(a)));
      var finished := false;
      while !finished && |book.Get(Other(a))| > 0 && Crosses(book.Get(a)[k], book.Get(Other(a))[0])
        invariant Progress(old(purses), old(book), purses, book, nextId, a, k, finished)
        invariant stages != [] && MatchRun(stages, a, k, id) && stages[0] == old(Stage(purses, book)) &&
                  stages[|stages| - 1] == Stage(purses, book)
        invariant if finished then fills else fills <==> Fills(book.Get(a)[k], book.Get(Other(a)))
        decreases |book.Get(Other(a))| + if finished then 0 else 1
      {
        ReadyMatchable(purses, book, nextId, a, k);
        ProgressStep(old(purses), old(book), purses, book, nextId, a, k);
        FillsStep(purses, book, nextId, a, k);
        ghost var before := Stage(purses, book);
        var newGone, oldGone, amounts := Match(a, k);
        assert MatchMade(before, Stage(purses, book), a, k, id);
        MatchRunOn(stages, Stage(purses, book), a, k, id);
        stages := stages + [Stage(purses, book)];
        finished := newGone;
      }
      filled := finished;
      if !finished {
        FillsNot(book.Get(a)[k], book.Get(Other(a)));
      }
      Settled(old(book), book, a, k, |purses|, nextId, finished);
    }

    /** Places a limit order; `k` is the place its price earns it. */
    method CreateOrder(owner: nat, a: Asset, amount: int, base: int, quote: int, number: nat,
                       expiration: nat, now: nat, fillOrKill: bool)
      returns (ok: bool, filled: bool, k: nat, ghost stages: seq<Stage>)
      requires Valid() && owner < |purses|
      requires base > 0 && quote > 0 && amount > 0 &&
               amount * quote / base > 0   // what the operation's own validation demands
      modifies this
      ensures Valid() && |purses| == old(|purses|)
      ensures Conserved(old(purses), old(book), purses, book)
      ensures ok <==> old(now < expiration <= now + maxExpiration && purses[owner].Get(a) >= amount &&
                          !HasKey(book, owner, number) &&
                          (fillOrKill ==> Fills(Order(nextId, owner, number, amount, base, quote, expiration),
                                                book.Get(Other(a)))))
      ensures !ok ==> unchanged(this)
      ensures ok ==> (filled <==> old(Fills(Order(nextId, owner, number, amount, base, quote, expiration),
                                            book.Get(Other(a)))))
      ensures ok ==> nextId == old(nextId) + 1 && k <= old(|book.Get(a)|) &&
                     Progress(old(Bump(purses, owner, a, -amount)),
                              old(Listed(book, a, k, Order(nextId, owner, number, amount, base, quote, expiration))),
                              purses, book, nextId, a, k, filled)
      ensures ok ==> MatchRun(stages, a, k, old(nextId)) && stages[|stages| - 1] == Stage(purses, book) && stages[0] ==
                       old(Stage(Bump(purses, owner, a, -amount),
                                 Listed(book, a, k, Order(nextId, owner, number, amount, base, quote, expiration))))
    {
      hide HeldBy, OnOffer, Supply, SidesOk, Uncrossed, Fills, HasKey, Progress, Listed, Conserved, Solvent,
           MatchRun;
      k, filled, stages := 0, false, [];
      ConservedSame(purses, book);
      if !(now < expiration <= now + maxExpiration) || purses[owner].Get(a) < amount || HasKey(book, owner, number) {
        return false, false, 0, [];
      }
      var saved := (purses, book, nextId);
      var o := Order(nextId, owner, number, amount, base, quote, expiration);
      filled, k, stages := Enter(a, o);
      if fillOrKill && !filled {
        purses, book, nextId := saved.0, saved.1, saved.2;
        return false, false, 0, [];
      }
      ok := true;
    }

    /** Takes the amount from the seller, lists the order at the place its price earns it, and matches it. */
    method Enter(a: Asset, o: Order) returns (filled: bool, k: nat, ghost stages: seq<Stage>)
      requires Valid() && o.id == nextId && o.seller < |purses| && purses[o.seller].Get(a) >= o.forSale && Live(o)
      requires !HasKey(book, o.seller, o.number)
      modifies this`purses, this`book, this`nextId
      ensures Valid() && |purses| == old(|purses|) && nextId == old(nextId) + 1 && k <= old(|book.Get(a)|)
      ensures Conserved(old(purses), old(book), purses, book)
      ensures filled <==> old(Fills(o, book.Get(Other(a))))
      ensures Progress(old(Bump(purses, o.seller, a, -o.forSale)), old(Listed(book, a, k, o)), purses, book, nextId, a,
                       k, filled)
      ensures MatchRun(stages, a, k, o.id) && stages[|stages| - 1] == Stage(purses, book) &&
              stages[0] == old(Stage(Bump(purses, o.seller, a, -o.forSale), Listed(book, a, k, o)))
    {
      hide HeldBy, OnOffer, Supply, Sorted, SideOk, SidesOk, KeysApart, AllLive, Crosses, Uncrossed, Fills, HasKey,
           Before, MatchRun;
      k := PlaceFor(book.Get(a), o);
      ListOk(purses, book, nextId, a, k, o);
      purses := Bump(purses, o.seller, a, -o.forSale);
      book := Listed(book, a, k, o);
      nextId := nextId + 1;
      filled, stages := ApplyOrder(a, k);
    }

    method CancelAt(a: Asset, k: nat)
      requires Valid() && k < |book.Get(a)|
      modifies this`purses, this`book
      ensures Valid() && |purses| == old(|purses|)
      ensures book == old(book.Put(a, Drop(book.Get(a), k)))
      ensures purses == old(Bump(purses, book.Get(a)[k].seller, a, book.Get(a)[k].forSale))
      ensures Conserved(old(purses), old(book), purses, book) && Owned(old(purses), old(book), purses, book)
    {
      hide Owned, Sorted, Uncrossed, HeldBy, OnOffer, Supply, SideOk, KeysApart, AllLive;
      CancelOk(purses, book, nextId, a, k);
      CancelOwned(purses, book, a, k);
      purses := Bump(purses, book.Get(a)[k].seller, a, book.Get(a)[k].forSale);
      book := book.Put(a, Drop(book.Get(a), k));
    }

    method CancelOrder(owner: nat, number: nat) returns (ok: bool, ghost a: Asset, ghost k: nat)
      requires Valid()
      modifies this`purses, this`book
      ensures Valid() && |purses| == old(|purses|)
      ensures Conserved(old(purses), old(book), purses, book)
      ensures ok <==> old(HasKey(book, owner, number))
      ensures !ok ==> unchanged(this)
      ensures !HasKey(book, owner, number)
      ensures ok ==> k < old(|book.Get(a)|) && owner < |purses| && old(book.Get(a)[k].seller) == owner &&
                     old(book.Get(a)[k].number) == number
      ensures ok ==> book == old(book.Put(a, Drop(book.Get(a), k))) && purses ==
                       old(Bump(purses, owner, a, book.Get(a)[k].forSale))
    {
      a, k := HIVE, 0;
      for i := 0 to |book.sellHive|
        invariant unchanged(this) && forall j: nat :: j < i ==>
                                                        !(book.sellHive[j].seller == owner &&
                                                          book.sellHive[j].number == number)
      {
        if book.sellHive[i].seller == owner && book.sellHive[i].number == number {
          KeyRemoved(book, HIVE, i, |purses|, nextId);
          CancelAt(HIVE, i);
          return true, HIVE, i;
        }
      }
      for i := 0 to |book.sellHbd|
        invariant unchanged(this) && forall j: nat :: j < i ==>
                                                        !(book.sellHbd[j].seller == owner && book.sellHbd[j].number ==
                                                            number)
      {
        if book.sellHbd[i].seller == owner && book.sellHbd[i].number == number {
          KeyRemoved(book, HBD, i, |purses|, nextId);
          CancelAt(HBD, i);
          return true, HBD, i;
        }
      }
      ok := false;
    }

    /** Cancels every order whose time is over. */
    method ClearExpired(now: nat)
      requires Valid()
      modifies this`purses, this`book
      ensures Valid() && |purses| == old(|purses|)
      ensures Conserved(old(purses), old(book), purses, book)
      ensures Owned(old(purses), old(book), purses, book)
      ensures forall o :: o in book.sellHive || o in book.sellHbd ==> o.expiration >= now
      ensures forall o :: o in book.sellHive ==> o in old(book.sellHive)
      ensures forall o :: o in old(book.sellHive) && o.expiration >= now ==> o in book.sellHive
      ensures forall o :: o in book.sellHbd ==> o in old(book.sellHbd)
      ensures forall o :: o in old(book.sellHbd) && o.expiration >= now ==> o in book.sellHbd
    {
      hide Owned, Sorted, Uncrossed, HeldBy, OnOffer, Supply, SidesOk, Solvent;
      ClearSide(HIVE, now);
      ghost var p, b := purses, book;
      ClearSide(HBD, now);
      OwnedTransitive(old(purses), old(book), p, b, purses, book);
    }

    method ClearSide(a: Asset, now: nat)
      requires Valid()
      modifies this`purses, this`book
      ensures Valid() && |purses| == old(|purses|)
      ensures Conserved(old(purses), old(book), purses, book)
      ensures book.Get(Other(a)) == old(book.Get(Other(a))) && Owned(old(purses), old(book), purses, book)
      ensures forall o :: o in book.Get(a) ==> o in old(book.Get(a)) && o.expiration >= now
      ensures forall o :: o in old(book.Get(a)) && o.expiration >= now ==> o in book.Get(a)
    {
      hide Owned, Sorted, Uncrossed, HeldBy, OnOffer, Supply, SidesOk, Solvent;
      OwnedSame(purses, book);
      var k := 0;
      while k < |book.Get(a)|
        invariant k <= |book.Get(a)| && Valid() && |purses| == old(|purses|)
        invariant Conserved(old(purses), old(book), purses, book)
        invariant book.Get(Other(a)) == old(book.Get(Other(a))) && Owned(old(purses), old(book), purses, book)
        invariant forall i: nat :: i < k ==> book.Get(a)[i].expiration >= now
        invariant forall o :: o in book.Get(a) ==> o in old(book.Get(a))
        invariant forall o :: o in old(book.Get(a)) && o.expiration >= now ==> o in book.Get(a)
        decreases |book.Get(a)| - k
      {
        if book.Get(a)[k].expiration < now {
          DropMembers(book.Get(a), k);
          ghost var p, b := purses, book;
          CancelAt(a, k);
          OwnedTransitive(old(purses), old(book), p, b, purses, book);
        } else {
          k := k + 1;
        }
      }
    }
  }

  lemma MatchRunNone(s: Stage, a: Asset, k: nat, id: nat)
    ensures MatchRun([s], a, k, id)
  {
  }

  lemma ConservedSame(p: seq<Purse>, b: Book)
    ensures Conserved(p, b, p, b)
  {
  }

  lemma {:induction false} FillsNot(n: Order, others: seq<Order>)
    requires others == [] || !Crosses(n, others[0])
    ensures !Fills(n, others)
  {
  }

  /** The place an order's price earns it among the orders of its side. */
  method PlaceFor(side: seq<Order>, o: Order) returns (k: nat)
    ensures k <= |side| && (forall i: nat :: i < k ==> Before(side[i], o)) && (k == |side| || !Before(side[k], o))
  {
    hide Before;
    k := 0;
    while k < |side| && Before(side[k], o)
      invariant k <= |side| && forall i: nat :: i < k ==> Before(side[i], o)
    {
      k := k + 1;
    }
  }

  datatype MarketOp =
    | Create(owner: nat, asset: Asset, amount: int, base: int, quote: int, number: nat, expiration: nat,
             fillOrKill: bool)
    | Cancel(owner: nat, number: nat)
    | Expire

  /** Over any run of market operations both assets are conserved and the book never crosses. */
  method RunMarket(purses: seq<Purse>, maxExpiration: nat, ops: seq<(nat, MarketOp)>) returns (market: Exchange)
    requires Solvent(purses)
    ensures fresh(market) && market.Valid()
    ensures HeldBy(market.purses, HIVE) + OnOffer(market.book.sellHive) == HeldBy(purses, HIVE)
    ensures HeldBy(market.purses, HBD) + OnOffer(market.book.sellHbd) == HeldBy(purses, HBD)
  {
    market := new Exchange(purses, maxExpiration);
    for i := 0 to |ops|
      invariant fresh(market) && market.Valid()
      invariant Conserved(purses, Book([], []), market.purses, market.book)
    {
      var (now, op) := ops[i];
      match op
      case Create(owner, a, amount, base, quote, number, expiration, fillOrKill) =>
        if owner < |market.purses| && base > 0 && quote > 0 && amount > 0 && amount * quote / base > 0 {
          var ok, filled, k, stages := market.CreateOrder(owner, a, amount, base, quote, number, expiration, now,
                                                          fillOrKill);
        }
      case Cancel(owner, number) =>
        var ok, a, k := market.CancelOrder(owner, number);
      case Expire =>
        market.ClearExpired(now);
    }
  }
}
