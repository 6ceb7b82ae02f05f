// What matching does to a book and to balances, as functions and lemmas.

module Matching {
  import opened Arith
  import opened Common
  import opened OrderBook

  function Bump(purses: seq<Purse>, k: nat, a: Asset, x: int): (r: seq<Purse>)
    requires k < |purses|
  {
    purses[k := purses[k].Add(a, x)]
  }

  ghost predicate SideOk(side: seq<Order>, accounts: nat, nextId: nat) {
    && Sorted(side) && AllLive(side)
    && (forall i: nat :: i < |side| ==> side[i].seller < accounts && side[i].id < nextId)
    && (forall i: nat, j: nat :: i < j < |side| ==> !SameKey(side[i], side[j]))
  }

  predicate SameKey(o: Order, p: Order) {
    o.seller == p.seller && o.number == p.number
  }

  ghost predicate KeysApart(xs: seq<Order>, ys: seq<Order>) {
    forall i: nat, j: nat {:trigger xs[i], ys[j]} :: i < |xs| && j < |ys| ==> !SameKey(xs[i], ys[j])
  }

  ghost predicate SidesOk(xs: seq<Order>, ys: seq<Order>, accounts: nat, nextId: nat) {
    SideOk(xs, accounts, nextId) && SideOk(ys, accounts, nextId) && KeysApart(xs, ys)
  }

  lemma RemoveOk(xs: seq<Order>, ys: seq<Order>, k: nat, accounts: nat, nextId: nat)
    requires SidesOk(xs, ys, accounts, nextId) && k < |xs|
    ensures SidesOk(Drop(xs, k), ys, accounts, nextId)
    ensures Uncrossed(xs, ys) ==> Uncrossed(Drop(xs, k), ys)
  {
    var rest := Drop(xs, k);
    assert forall i: nat :: i < |rest| ==> rest[i] == xs[if i < k then i else i + 1];
  }

  /** Same order with less for sale: same place in the index, same crossings. */
  lemma ReduceOk(xs: seq<Order>, ys: seq<Order>, k: nat, left: int, accounts: nat, nextId: nat)
    requires SidesOk(xs, ys, accounts, nextId) && k < |xs|
    requires left > 0 && Limit(xs[k], left) > 0
    ensures SidesOk(xs[k := xs[k].(forSale := left)], ys, accounts, nextId)
    ensures Uncrossed(xs, ys) ==> Uncrossed(xs[k := xs[k].(forSale := left)], ys)
  {
    var o := xs[k].(forSale := left);
    var after := xs[k := o];
    assert Live(o);
    forall i: nat, j: nat | i < j < |after| ensures Before(after[i], after[j]) {
      assert Before(xs[i], xs[j]);
    }
    forall i: nat, j: nat | i < j < |after| ensures !SameKey(after[i], after[j]) {
      assert !SameKey(xs[i], xs[j]);
    }
    forall i: nat, j: nat | i < |after| && j < |ys| ensures !SameKey(after[i], ys[j]) {
      assert !SameKey(xs[i], ys[j]);
    }
    if Uncrossed(xs, ys) {
      forall i: nat, j: nat | i < |after| && j < |ys| ensures !Crosses(after[i], ys[j]) {
        assert !Crosses(xs[i], ys[j]);
      }
    }
  }

  lemma UncrossedSymmetric(xs: seq<Order>, ys: seq<Order>)
    requires Uncrossed(xs, ys)
    ensures Uncrossed(ys, xs)
  {
    forall i: nat, j: nat | i < |ys| && j < |xs| ensures !Crosses(ys[i], xs[j]) {
      assert !Crosses(xs[j], ys[i]);
    }
  }

  ghost predicate Solvent(purses: seq<Purse>) {
    forall k: nat :: k < |purses| ==> purses[k].hive >= 0 && purses[k].hbd >= 0
  }

  /** Both assets add up as before: value has only been moved between balances and orders. */
  ghost predicate Conserved(p0: seq<Purse>, b0: Book, p: seq<Purse>, b: Book) {
    Supply(p, b, HIVE) == Supply(p0, b0, HIVE) && Supply(p, b, HBD) == Supply(p0, b0, HBD)
  }

  /** No balance has fallen. */
  ghost predicate Grown(before: seq<Purse>, after: seq<Purse>) {
    |before| == |after| &&
    forall k: nat :: k < |before| ==> before[k].hive <= after[k].hive && before[k].hbd <= after[k].hbd
  }

  /** What is returned to the seller when the remainder is too small to be sold at its price. */
  function Dust(o: Order, pays: int): int
    requires o.base > 0
  {
    if pays < o.forSale && Limit(o, o.forSale - pays) == 0 then o.forSale - pays else 0
  }

  /** Something is returned exactly when something is left and it would not fetch a single unit at its price. */
  lemma DustIs(o: Order, pays: int)
    requires o.base > 0 && o.quote > 0 && pays <= o.forSale
    ensures var left := o.forSale - pays; Dust(o, pays) == if 0 < left && left * o.quote < o.base then left else 0
  {
    DivBound((o.forSale - pays) * o.quote, o.base, 1);
    DivBound((o.forSale - pays) * o.quote, o.base, 0);
    if pays < o.forSale {
      MulMono(1, o.forSale - pays, 0, o.quote);
    }
  }

  /** Balances after one side of a match has been paid `receives` for `pays`. */
  function Paid(purses: seq<Purse>, a: Asset, o: Order, pays: int, receives: int): (r: seq<Purse>)
    requires o.seller < |purses| && o.base > 0
  {
    Bump(Bump(purses, o.seller, Other(a), receives), o.seller, a, Dust(o, pays))
  }

  /** A side of the book after `pays` has been taken from its order `k`. */
  function Taken(side: seq<Order>, k: nat, pays: int): (r: seq<Order>)
    requires k < |side| && side[k].base > 0
  {
    if pays == side[k].forSale || Dust(side[k], pays) > 0 then Drop(side, k)
    else side[k := side[k].(forSale := side[k].forSale - pays)]
  }

  lemma {:induction false} PaidHeld(purses: seq<Purse>, a: Asset, o: Order, pays: int, receives: int, b: Asset)
    requires o.seller < |purses| && o.base > 0
    ensures HeldBy(Paid(purses, a, o, pays, receives), b) == HeldBy(purses, b) + if b ==
              a then Dust(o, pays) else receives
  {
    var once := Bump(purses, o.seller, Other(a), receives);
    HeldUpdate(purses, o.seller, Other(a), receives, b);
    HeldUpdate(once, o.seller, a, Dust(o, pays), b);
  }

  lemma {:induction false} TakenOffer(side: seq<Order>, k: nat, pays: int)
    requires k < |side| && side[k].base > 0 && pays <= side[k].forSale
    ensures OnOffer(Taken(side, k, pays)) == OnOffer(side) - pays - Dust(side[k], pays)
  {
    if pays == side[k].forSale || Dust(side[k], pays) > 0 {
      OfferRemove(side, k);
    } else {
      OfferUpdate(side, k, side[k].(forSale := side[k].forSale - pays));
    }
  }

  /** One paid side moves `pays` out of its own asset and `receives` into the other. */
  lemma PaidSupply(purses: seq<Purse>, book: Book, a: Asset, k: nat, pays: int, receives: int, b: Asset)
    requires k < |book.Get(a)| && book.Get(a)[k].base > 0 && book.Get(a)[k].seller < |purses|
    requires pays <= book.Get(a)[k].forSale
    ensures Supply(Paid(purses, a, book.Get(a)[k], pays, receives), book.Put(a, Taken(book.Get(a), k, pays)), b)
         == Supply(purses, book, b) + if b == a then -pays else receives
  {
    PaidHeld(purses, a, book.Get(a)[k], pays, receives, b);
    TakenOffer(book.Get(a), k, pays);
  }

  lemma TakenOk(xs: seq<Order>, ys: seq<Order>, k: nat, pays: int, accounts: nat, nextId: nat)
    requires SidesOk(xs, ys, accounts, nextId) && k < |xs| && 0 < pays <= xs[k].forSale
    ensures SidesOk(Taken(xs, k, pays), ys, accounts, nextId)
    ensures Uncrossed(xs, ys) ==> Uncrossed(Taken(xs, k, pays), ys)
  {
    assert Live(xs[k]);
    RemoveOk(xs, ys, k, accounts, nextId);
    if pays < xs[k].forSale {
      LimitSign(xs[k], xs[k].forSale - pays);
      if Limit(xs[k], xs[k].forSale - pays) > 0 {
        ReduceOk(xs, ys, k, xs[k].forSale - pays, accounts, nextId);
      }
    }
  }

  lemma PaidGrown(purses: seq<Purse>, a: Asset, o: Order, pays: int, receives: int)
    requires o.seller < |purses| && o.base > 0 && receives > 0
    ensures Grown(purses, Paid(purses, a, o, pays, receives))
    ensures forall x: nat :: x < |purses| && x != o.seller ==> Paid(purses, a, o, pays, receives)[x] == purses[x]
  {
  }

  // ---- one match of a new order with the best order of the other side ----

  predicate TakerGone(n: Order, o: Order)
    requires n.base > 0 && o.base > 0 && o.quote > 0
  {
    var (pays, receives) := MatchAmounts(n, o);
    pays == n.forSale || Dust(n, pays) > 0
  }

  predicate MakerGone(n: Order, o: Order)
    requires n.base > 0 && o.base > 0 && o.quote > 0
  {
    var (pays, receives) := MatchAmounts(n, o);
    receives == o.forSale || Dust(o, receives) > 0
  }

  /** Order `k` of side `a` and the best order of the other side are well formed. */
  predicate Matchable(p: seq<Purse>, b: Book, a: Asset, k: nat) {
    && k < |b.Get(a)| && |b.Get(Other(a))| > 0
    && b.Get(a)[k].base > 0 && b.Get(a)[k].seller < |p|
    && b.Get(Other(a))[0].base > 0 && b.Get(Other(a))[0].quote > 0 && b.Get(Other(a))[0].seller < |p|
  }

  /** All balances after the match. */
  function PursesAfter(p: seq<Purse>, b: Book, a: Asset, k: nat): (r: seq<Purse>)
    requires Matchable(p, b, a, k)
  {
    var n, o := b.Get(a)[k], b.Get(Other(a))[0];
    var (pays, receives) := MatchAmounts(n, o);
    Paid(Paid(p, a, n, pays, receives), Other(a), o, receives, pays)
  }

  /** The book after the match. */
  function BookAfter(p: seq<Purse>, b: Book, a: Asset, k: nat): (r: Book)
    requires Matchable(p, b, a, k)
  {
    var (pays, receives) := MatchAmounts(b.Get(a)[k], b.Get(Other(a))[0]);
    b.Put(a, Taken(b.Get(a), k, pays)).Put(Other(a), Taken(b.Get(Other(a)), 0, receives))
  }

  /** Balances and orders at one moment of the matching. */
  datatype Stage = Stage(purses: seq<Purse>, book: Book)

  /**
   * Order `k` of side `a` and the best order of the other side exchange `pays` for `receives`, at
   * the latter's price.
   */
  ghost predicate Exchanged(s: Stage, t: Stage, a: Asset, k: nat, pays: int, receives: int) {
    && Matchable(s.purses, s.book, a, k)
    && (var n, o := s.book.Get(a)[k], s.book.Get(Other(a))[0];
        && AtOldPrice(n, o, pays, receives)
        && t.purses == Paid(Paid(s.purses, a, n, pays, receives), Other(a), o, receives, pays)
        && t.book == s.book.Put(a, Taken(s.book.Get(a), k, pays)).Put(Other(a),
                                                                      Taken(s.book.Get(Other(a)), 0, receives)))
  }

  lemma ExchangedIs(s: Stage, a: Asset, k: nat)
    requires Matchable(s.purses, s.book, a, k)
    ensures var (pays, receives) := MatchAmounts(s.book.Get(a)[k], s.book.Get(Other(a))[0]);
            Exchanged(s, Stage(PursesAfter(s.purses, s.book, a, k), BookAfter(s.purses, s.book, a, k)), a, k, pays,
                      receives)
  {
    var n, o := s.book.Get(a)[k], s.book.Get(Other(a))[0];
    MatchIsAtOldPrice(n, o, MatchAmounts(n, o).0, MatchAmounts(n, o).1);
  }

  /** The order numbered `id` crosses the best order of the other side and is matched with it. */
  ghost predicate MatchMade(s: Stage, t: Stage, a: Asset, k: nat, id: nat) {
    && k < |s.book.Get(a)| && s.book.Get(a)[k].id == id && |s.book.Get(Other(a))| > 0
    && Crosses(s.book.Get(a)[k], s.book.Get(Other(a))[0])
    && exists pays: int, receives: int :: Exchanged(s, t, a, k, pays, receives)
  }

  /** One match of the order after the other. */
  ghost predicate MatchRun(stages: seq<Stage>, a: Asset, k: nat, id: nat) {
    stages != [] && forall i: nat :: i + 1 < |stages| ==> MatchMade(stages[i], stages[i + 1], a, k, id)
  }

  lemma MatchRunOn(stages: seq<Stage>, t: Stage, a: Asset, k: nat, id: nat)
    requires MatchRun(stages, a, k, id) && MatchMade(stages[|stages| - 1], t, a, k, id)
    ensures MatchRun(stages + [t], a, k, id)
  {
    hide MatchMade;
  }

  ghost predicate Ready(p: seq<Purse>, b: Book, nextId: nat, a: Asset, k: nat) {
    && Solvent(p) && SidesOk(b.sellHive, b.sellHbd, |p|, nextId)
    && k < |b.Get(a)| && |b.Get(Other(a))| > 0 && Crosses(b.Get(a)[k], b.Get(Other(a))[0])
  }

  lemma ReadyMatchable(p: seq<Purse>, b: Book, nextId: nat, a: Asset, k: nat)
    requires Ready(p, b, nextId, a, k)
    ensures Matchable(p, b, a, k) && Live(b.Get(a)[k]) && Live(b.Get(Other(a))[0])
  {
    assert Live(b.Get(a)[k]) && Live(b.Get(Other(a))[0]);
  }

  lemma MatchSupply(p: seq<Purse>, b: Book, nextId: nat, a: Asset, k: nat, x: Asset)
    requires Ready(p, b, nextId, a, k) && Matchable(p, b, a, k)
    ensures Supply(PursesAfter(p, b, a, k), BookAfter(p, b, a, k), x) == Supply(p, b, x)
  {
    ReadyMatchable(p, b, nextId, a, k);
    hide HeldBy, OnOffer, Supply, SidesOk, Solvent, Limit, Crosses;
    var n, o := b.Get(a)[k], b.Get(Other(a))[0];
    MatchFair(n, o);
    var (pays, receives) := MatchAmounts(n, o);
    PaidSupply(p, b, a, k, pays, receives, x);
    PaidSupply(Paid(p, a, n, pays, receives), b.Put(a, Taken(b.Get(a), k, pays)), Other(a), 0, receives, pays, x);
  }

  lemma MatchSides(p: seq<Purse>, b: Book, nextId: nat, a: Asset, k: nat)
    requires Ready(p, b, nextId, a, k) && Matchable(p, b, a, k)
    ensures var after := BookAfter(p, b, a, k); SidesOk(after.sellHive, after.sellHbd, |p|, nextId)
  {
    ReadyMatchable(p, b, nextId, a, k);
    KeysApartSymmetric(b.sellHive, b.sellHbd);
    hide HeldBy, OnOffer, Supply, SideOk, Solvent, Limit, Crosses, KeysApart, Dust, Taken;
    MatchFair(b.Get(a)[k], b.Get(Other(a))[0]);
    var (pays, receives) := MatchAmounts(b.Get(a)[k], b.Get(Other(a))[0]);
    var mine, theirs := Taken(b.Get(a), k, pays), Taken(b.Get(Other(a)), 0, receives);
    TakenOk(b.Get(a), b.Get(Other(a)), k, pays, |p|, nextId);
    KeysApartSymmetric(mine, b.Get(Other(a)));
    TakenOk(b.Get(Other(a)), mine, 0, receives, |p|, nextId);
    KeysApartSymmetric(theirs, mine);
  }

  lemma MatchPurses(p: seq<Purse>, b: Book, nextId: nat, a: Asset, k: nat)
    requires Ready(p, b, nextId, a, k) && Matchable(p, b, a, k)
    ensures Grown(p, PursesAfter(p, b, a, k)) && Solvent(PursesAfter(p, b, a, k))
    ensures forall x: nat :: x < |p| && x != b.Get(a)[k].seller && x !in Sellers(b.Get(Other(a))) ==>
                               PursesAfter(p, b, a, k)[x] == p[x]
  {
    ReadyMatchable(p, b, nextId, a, k);
    hide HeldBy, OnOffer, Supply, SidesOk, Limit, Crosses, Dust;
    var n, o := b.Get(a)[k], b.Get(Other(a))[0];
    MatchFair(n, o);
    var (pays, receives) := MatchAmounts(n, o);
    var half := Paid(p, a, n, pays, receives);
    assert o.seller in Sellers(b.Get(Other(a)));
    PaidGrown(p, a, n, pays, receives);
    PaidGrown(half, Other(a), o, receives, pays);
    hide Paid, MatchAmounts;
    GrownTransitive(p, half, PursesAfter(p, b, a, k));
  }

  /** A match keeps the book in order, moves value and creates none, and touches its two sellers only. */
  lemma MatchOk(p: seq<Purse>, b: Book, nextId: nat, a: Asset, k: nat)
    requires Ready(p, b, nextId, a, k) && Matchable(p, b, a, k)
    ensures var after := BookAfter(p, b, a, k); SidesOk(after.sellHive, after.sellHbd, |p|, nextId)
    ensures Grown(p, PursesAfter(p, b, a, k)) && Solvent(PursesAfter(p, b, a, k))
    ensures Conserved(p, b, PursesAfter(p, b, a, k), BookAfter(p, b, a, k))
  {
    hide Supply, SidesOk, Solvent, Grown, PursesAfter, BookAfter, Ready, Matchable;
    MatchSides(p, b, nextId, a, k);
    MatchPurses(p, b, nextId, a, k);
    MatchSupply(p, b, nextId, a, k, HIVE);
    MatchSupply(p, b, nextId, a, k, HBD);
  }

  /** At least one of the two orders leaves the book, and of the rest only amounts change. */
  lemma MatchBook(p: seq<Purse>, b: Book, nextId: nat, a: Asset, k: nat)
    requires Ready(p, b, nextId, a, k) && Matchable(p, b, a, k)
    ensures var n, o, after := b.Get(a)[k], b.Get(Other(a))[0], BookAfter(p, b, a, k);
            && (TakerGone(n, o) || MakerGone(n, o))
            && (TakerGone(n, o) ==> after.Get(a) == Drop(b.Get(a), k))
            && (!TakerGone(n, o) ==> k < |after.Get(a)| && Drop(after.Get(a), k) == Drop(b.Get(a), k)
                                     && after.Get(a)[k] == n.(forSale := after.Get(a)[k].forSale))
            && |after.Get(Other(a))| == |b.Get(Other(a))| - (if MakerGone(n, o) then 1 else 0)
            && Sellers(after.Get(Other(a))) <= Sellers(b.Get(Other(a)))
  {
    ReadyMatchable(p, b, nextId, a, k);
    hide HeldBy, OnOffer, Supply, SidesOk, Solvent, Limit, Crosses;
    var n, o := b.Get(a)[k], b.Get(Other(a))[0];
    MatchFair(n, o);
    TakenHead([], b.Get(Other(a)), MatchAmounts(n, o).1);
  }

  /**
   * Whether a new order is used up by the orders of the other side, best first: as long as it
   * crosses the best one, either it is gone after that match, or that one is and the rest of the
   * new order meets the next.
   */
  ghost predicate Fills(n: Order, others: seq<Order>)
    decreases |others|
  {
    && others != [] && Live(n) && Live(others[0]) && Crosses(n, others[0])
    && (TakerGone(n, others[0]) || Fills(n.(forSale := n.forSale - MatchAmounts(n, others[0]).0), others[1..]))
  }

  lemma FillsStep(p: seq<Purse>, b: Book, nextId: nat, a: Asset, k: nat)
    requires Ready(p, b, nextId, a, k) && Matchable(p, b, a, k)
    ensures var n, o, after := b.Get(a)[k], b.Get(Other(a))[0], BookAfter(p, b, a, k);
            && (TakerGone(n, o) ==> Fills(n, b.Get(Other(a))))
            && (!TakerGone(n, o) ==> k < |after.Get(a)| &&
                                     (Fills(n, b.Get(Other(a))) <==> Fills(after.Get(a)[k], after.Get(Other(a)))))
  {
    ReadyMatchable(p, b, nextId, a, k);
    hide HeldBy, OnOffer, Supply, SidesOk, Solvent, Limit, Crosses;
    var n, o, after := b.Get(a)[k], b.Get(Other(a))[0], BookAfter(p, b, a, k);
    MatchFair(n, o);
    if !TakerGone(n, o) {
      assert after.Get(Other(a)) == Drop(b.Get(Other(a)), 0) == b.Get(Other(a))[1..];
      assert after.Get(a)[k] == n.(forSale := n.forSale - MatchAmounts(n, o).0);
    }
  }

  lemma MatchRest(p: seq<Purse>, b: Book, nextId: nat, a: Asset, k: nat, rest: seq<Order>)
    requires Ready(p, b, nextId, a, k) && Matchable(p, b, a, k) && Uncrossed(rest, b.Get(Other(a)))
    ensures Uncrossed(rest, BookAfter(p, b, a, k).Get(Other(a)))
  {
    TakenHead(rest, b.Get(Other(a)), MatchAmounts(b.Get(a)[k], b.Get(Other(a))[0]).1);
  }

  ghost function Sellers(side: seq<Order>): set<nat> {
    set i | 0 <= i < |side| :: side[i].seller
  }

  lemma TakenHead(rest: seq<Order>, other: seq<Order>, taken: int)
    requires |other| > 0 && other[0].base > 0 && Uncrossed(rest, other)
    ensures Uncrossed(rest, Taken(other, 0, taken)) && Sellers(Taken(other, 0, taken)) <= Sellers(other)
  {
    hide Limit;
    var theirs := Taken(other, 0, taken);
    forall i: nat, j: nat | i < |rest| && j < |theirs| ensures !Crosses(rest[i], theirs[j]) {
      var at := if |theirs| < |other| then j + 1 else j;
      assert !Crosses(rest[i], other[at]);
    }
    forall j: nat | j < |theirs| ensures theirs[j].seller in Sellers(other) {
      var at := if |theirs| < |other| then j + 1 else j;
      assert theirs[j].seller == other[at].seller;
    }
  }

  /**
   * Orders are consumed from the front: the rest is untouched, and only the first of it may have
   * been filled in part.
   */
  ghost predicate Consumed(before: seq<Order>, after: seq<Order>) {
    && |after| <= |before|
    && (forall i: nat :: 1 <= i < |after| ==> after[i] == before[|before| - |after| + i])
    && (|after| > 0 ==>
          var first := before[|before| - |after|];
          after[0] == first.(forSale := after[0].forSale) && after[0].forSale <= first.forSale)
  }

  lemma ConsumedMore(before: seq<Order>, other: seq<Order>, taken: int)
    requires Consumed(before, other) && |other| > 0 && other[0].base > 0 && taken >= 0
    ensures Consumed(before, Taken(other, 0, taken))
  {
    hide Limit;
    var after := Taken(other, 0, taken);
    if |after| == |other| {
      forall i: nat | 1 <= i < |after| ensures after[i] == before[|before| - |after| + i] {
        assert after[i] == other[i];
      }
    } else {
      forall i: nat | i < |after| ensures after[i] == before[|before| - |after| + i] {
        assert after[i] == other[i + 1];
      }
    }
  }

  lemma MatchConsumes(p: seq<Purse>, b: Book, nextId: nat, a: Asset, k: nat, before: seq<Order>)
    requires Ready(p, b, nextId, a, k) && Matchable(p, b, a, k) && Consumed(before, b.Get(Other(a)))
    ensures Consumed(before, BookAfter(p, b, a, k).Get(Other(a)))
  {
    ReadyMatchable(p, b, nextId, a, k);
    MatchFair(b.Get(a)[k], b.Get(Other(a))[0]);
    ConsumedMore(before, b.Get(Other(a)), MatchAmounts(b.Get(a)[k], b.Get(Other(a))[0]).1);
  }

  /** How far matching has come, from the book `b0` with the new order at `k` of side `a` to the book `b`. */
  ghost predicate Progress(p0: seq<Purse>, b0: Book, p: seq<Purse>, b: Book, nextId: nat, a: Asset, k: nat,
                           finished: bool) {
    && k < |b0.Get(a)|
    && Solvent(p) && Grown(p0, p)
    && SidesOk(b.sellHive, b.sellHbd, |p|, nextId)
    // value is only moved
    && Conserved(p0, b0, p, b)
    // the rest of the new order's side is as it was; the new order itself is gone or only has less for sale
    && (finished ==> b.Get(a) == Drop(b0.Get(a), k))
    && (!finished ==>
          k < |b.Get(a)| && Drop(b.Get(a), k) == Drop(b0.Get(a), k)
          && b.Get(a)[k] == b0.Get(a)[k].(forSale := b.Get(a)[k].forSale))
    // the other side is consumed best price first, earliest first at a price
    && Consumed(b0.Get(Other(a)), b.Get(Other(a)))
    // the rest of its side still crosses nothing, and nobody outside the matches is touched
    && Uncrossed(Drop(b0.Get(a), k), b.Get(Other(a)))
    && Sellers(b.Get(Other(a))) <= Sellers(b0.Get(Other(a)))
    && (forall x: nat :: x < |p| && x != b0.Get(a)[k].seller && x !in Sellers(b0.Get(Other(a))) ==> p[x] == p0[x])
    // an order that crosses nothing rests unchanged
    && ((|b0.Get(Other(a))| > 0 && Crosses(b0.Get(a)[k], b0.Get(Other(a))[0])) || (p == p0 && b == b0 && !finished))
  }

  lemma ProgressStep(p0: seq<Purse>, b0: Book, p: seq<Purse>, b: Book, nextId: nat, a: Asset, k: nat)
    requires Progress(p0, b0, p, b, nextId, a, k, false) && Ready(p, b, nextId, a, k) && Matchable(p, b, a, k)
    ensures Progress(p0, b0, PursesAfter(p, b, a, k), BookAfter(p, b, a, k), nextId, a, k,
                     TakerGone(b.Get(a)[k], b.Get(Other(a))[0]))
    ensures |BookAfter(p, b, a, k).Get(Other(a))| <= |b.Get(Other(a))|
    ensures !TakerGone(b.Get(a)[k], b.Get(Other(a))[0]) ==> |BookAfter(p, b, a, k).Get(Other(a))| < |b.Get(Other(a))|
  {
    hide Supply, SidesOk, Solvent, PursesAfter, BookAfter, Uncrossed, Crosses, Sellers, Drop, Consumed;
    MatchConsumes(p, b, nextId, a, k, b0.Get(Other(a)));
    MatchOk(p, b, nextId, a, k);
    MatchPurses(p, b, nextId, a, k);
    MatchBook(p, b, nextId, a, k);
    MatchRest(p, b, nextId, a, k, Drop(b0.Get(a), k));
    GrownTransitive(p0, p, PursesAfter(p, b, a, k));
  }

  lemma GrownTransitive(p: seq<Purse>, q: seq<Purse>, r: seq<Purse>)
    requires Grown(p, q) && Grown(q, r)
    ensures Grown(p, r)
  {
    forall k: nat | k < |p| ensures p[k].hive <= r[k].hive && p[k].hbd <= r[k].hbd {
      assert q[k].hive <= r[k].hive;
    }
  }

  lemma Settled(b0: Book, b: Book, a: Asset, k: nat, accounts: nat, nextId: nat, finished: bool)
    requires SidesOk(b.sellHive, b.sellHbd, accounts, nextId)
    requires k < |b0.Get(a)| && Uncrossed(Drop(b0.Get(a), k), b.Get(Other(a)))
    requires finished ==> b.Get(a) == Drop(b0.Get(a), k)
    requires !finished ==> k < |b.Get(a)| && Drop(b.Get(a), k) == Drop(b0.Get(a), k)
    requires !finished ==> |b.Get(Other(a))| == 0 || !Crosses(b.Get(a)[k], b.Get(Other(a))[0])
    ensures Uncrossed(b.sellHive, b.sellHbd)
  {
    KeysApartSymmetric(b.sellHive, b.sellHbd);
    if !finished {
      NothingCrosses(b.Get(a), b.Get(Other(a)), k, accounts, nextId);
    }
    UncrossedSymmetric(b.Get(a), b.Get(Other(a)));
  }

  /** When the best order of the other side does not cross the new order, no order does. */
  lemma NothingCrosses(xs: seq<Order>, ys: seq<Order>, k: nat, accounts: nat, nextId: nat)
    requires SidesOk(xs, ys, accounts, nextId) && k < |xs|
    requires Uncrossed(Drop(xs, k), ys)
    requires |ys| == 0 || !Crosses(xs[k], ys[0])
    ensures Uncrossed(xs, ys)
  {
    forall i: nat, j: nat | i < |xs| && j < |ys| ensures !Crosses(xs[i], ys[j]) {
      assert Live(xs[k]) && Live(ys[0]) && Live(ys[j]);
      if i == k {
        if j > 0 {
          BehindDoesNotCross(xs[k], ys[0], ys[j]);
        }
      } else {
        assert Drop(xs, k)[if i < k then i else i - 1] == xs[i];
      }
    }
  }

  lemma KeysApartSymmetric(xs: seq<Order>, ys: seq<Order>)
    requires KeysApart(xs, ys)
    ensures KeysApart(ys, xs)
  {
    forall i: nat, j: nat | i < |ys| && j < |xs| ensures !SameKey(ys[i], xs[j]) {
      assert !SameKey(xs[j], ys[i]);
    }
  }

  lemma LimitSign(o: Order, x: int)
    requires o.base > 0 && o.quote > 0 && x >= 0
    ensures Limit(o, x) >= 0
  {
    DivBound(x * o.quote, o.base, 0);
  }

  // ---- listing and cancelling ----

  /** Everybody owns what they did, in hand and on offer together. */
  ghost predicate Owned(p0: seq<Purse>, b0: Book, p: seq<Purse>, b: Book) {
    && |p| == |p0|
    && forall x: nat, a: Asset :: x < |p| ==> p[x].Get(a) + OfferedBy(b.Get(a), x) == p0[x].Get(a) +
                                                OfferedBy(b0.Get(a), x)
  }

  lemma CancelOwned(p: seq<Purse>, b: Book, a: Asset, k: nat)
    requires k < |b.Get(a)| && b.Get(a)[k].seller < |p|
    ensures Owned(p, b, Bump(p, b.Get(a)[k].seller, a, b.Get(a)[k].forSale), b.Put(a, Drop(b.Get(a), k)))
  {
    var o, after := b.Get(a)[k], b.Put(a, Drop(b.Get(a), k));
    var q := Bump(p, o.seller, a, o.forSale);
    forall x: nat, y: Asset | x < |p| ensures q[x].Get(y) + OfferedBy(after.Get(y), x) == p[x].Get(y) +
      OfferedBy(b.Get(y), x) {
      OfferedRemove(b.Get(a), k, x);
    }
  }

  lemma OwnedSame(p: seq<Purse>, b: Book)
    ensures Owned(p, b, p, b)
  {
  }

  lemma OwnedTransitive(p0: seq<Purse>, b0: Book, p1: seq<Purse>, b1: Book, p2: seq<Purse>, b2: Book)
    requires Owned(p0, b0, p1, b1) && Owned(p1, b1, p2, b2)
    ensures Owned(p0, b0, p2, b2)
  {
  }

  predicate HasKey(book: Book, owner: nat, number: nat) {
    || (exists i: nat :: i < |book.sellHive| && book.sellHive[i].seller == owner && book.sellHive[i].number == number)
    || (exists i: nat :: i < |book.sellHbd| && book.sellHbd[i].seller == owner && book.sellHbd[i].number == number)
  }

  function Listed(book: Book, a: Asset, k: nat, o: Order): Book
    requires k <= |book.Get(a)|
  {
    book.Put(a, Insert(book.Get(a), k, o))
  }

  /** A new order in its place: everything but the uncrossedness with the other side is kept. */
  lemma ListOk(purses: seq<Purse>, book: Book, nextId: nat, a: Asset, k: nat, o: Order)
    requires Solvent(purses) && SidesOk(book.sellHive, book.sellHbd, |purses|, nextId)
    requires Uncrossed(book.sellHive, book.sellHbd)
    requires k <= |book.Get(a)| && Live(o) && o.id == nextId && o.seller < |purses| &&
             purses[o.seller].Get(a) >= o.forSale
    requires !HasKey(book, o.seller, o.number)
    requires forall i: nat :: i < k ==> Before(book.Get(a)[i], o)
    requires k == |book.Get(a)| || !Before(book.Get(a)[k], o)
    ensures Solvent(Bump(purses, o.seller, a, -o.forSale))
    ensures var b := Listed(book, a, k, o); SidesOk(b.sellHive, b.sellHbd, |purses|, nextId + 1)
    ensures var b := Listed(book, a, k, o); Uncrossed(Drop(b.Get(a), k), b.Get(Other(a)))
    ensures Conserved(purses, book, Bump(purses, o.seller, a, -o.forSale), Listed(book, a, k, o))
  {
    hide HeldBy, OnOffer, Supply, Sorted, Crosses, Limit;
    var side := book.Get(a);
    RemoveInsert(side, k, o);
    KeysApartSymmetric(book.sellHive, book.sellHbd);
    UncrossedSymmetric(book.sellHive, book.sellHbd);
    InsertSorted(side, k, o);
    InsertSide(side, book.Get(Other(a)), k, o, |purses|, nextId);
    KeysApartSymmetric(Insert(side, k, o), book.Get(Other(a)));
    ListSupply(purses, book, a, k, o, HIVE);
    ListSupply(purses, book, a, k, o, HBD);
  }

  lemma ListSupply(purses: seq<Purse>, book: Book, a: Asset, k: nat, o: Order, x: Asset)
    requires k <= |book.Get(a)| && o.seller < |purses|
    ensures Supply(Bump(purses, o.seller, a, -o.forSale), Listed(book, a, k, o), x) == Supply(purses, book, x)
  {
    hide HeldBy, OnOffer, Insert;
    HeldUpdate(purses, o.seller, a, -o.forSale, x);
    OfferInsert(book.Get(a), k, o);
  }

  lemma CancelSupply(purses: seq<Purse>, book: Book, a: Asset, k: nat, x: Asset)
    requires k < |book.Get(a)| && book.Get(a)[k].seller < |purses|
    ensures Supply(Bump(purses, book.Get(a)[k].seller, a, book.Get(a)[k].forSale), book.Put(a, Drop(book.Get(a), k)), x)
         == Supply(purses, book, x)
  {
    hide HeldBy, OnOffer, Drop;
    HeldUpdate(purses, book.Get(a)[k].seller, a, book.Get(a)[k].forSale, x);
    OfferRemove(book.Get(a), k);
  }

  lemma InsertSorted(side: seq<Order>, k: nat, o: Order)
    requires Sorted(side) && AllLive(side) && Live(o) && k <= |side|
    requires forall i: nat :: i < |side| ==> side[i].id < o.id
    requires forall i: nat :: i < k ==> Before(side[i], o)
    requires k == |side| || !Before(side[k], o)
    ensures Sorted(Insert(side, k, o))
  {
    var more := Insert(side, k, o);
    forall i: nat, j: nat | i < j < |more| ensures Before(more[i], more[j]) {
      if i == k {
        assert Live(side[k]) && Live(side[j - 1]);
        if j > k + 1 {
          BeforeTransitive(o, side[k], side[j - 1]);
        }
      } else if j != k {
        assert Before(side[if i < k then i else i - 1], side[if j < k then j else j - 1]);
      }
    }
  }

  lemma InsertSide(side: seq<Order>, other: seq<Order>, k: nat, o: Order, accounts: nat, nextId: nat)
    requires SidesOk(side, other, accounts, nextId) && k <= |side| && Live(o) && o.id == nextId && o.seller < accounts
    requires Sorted(Insert(side, k, o))
    requires forall i: nat :: i < |side| ==> !SameKey(side[i], o)
    requires forall i: nat :: i < |other| ==> !SameKey(other[i], o)
    ensures SidesOk(Insert(side, k, o), other, accounts, nextId + 1)
  {
    var more := Insert(side, k, o);
    assert forall i: nat :: i < |more| ==> more[i] == if i < k then side[i] else if i == k then o else side[i - 1];
    forall i: nat, j: nat | i < j < |more| ensures !SameKey(more[i], more[j]) {
      if i != k && j != k {
        assert !SameKey(side[if i < k then i else i - 1], side[if j < k then j else j - 1]);
      }
    }
  }

  lemma CancelOk(purses: seq<Purse>, book: Book, nextId: nat, a: Asset, k: nat)
    requires Solvent(purses) && SidesOk(book.sellHive, book.sellHbd, |purses|, nextId)
    requires Uncrossed(book.sellHive, book.sellHbd) && k < |book.Get(a)|
    ensures book.Get(a)[k].seller < |purses|
    ensures Solvent(Bump(purses, book.Get(a)[k].seller, a, book.Get(a)[k].forSale))
    ensures var b := book.Put(a, Drop(book.Get(a), k));
            SidesOk(b.sellHive, b.sellHbd, |purses|, nextId) && Uncrossed(b.sellHive, b.sellHbd)
    ensures Conserved(purses, book, Bump(purses, book.Get(a)[k].seller, a, book.Get(a)[k].forSale),
                      book.Put(a, Drop(book.Get(a), k)))
  {
    hide HeldBy, OnOffer, Supply, Sorted, Crosses, Limit, Before;
    var o := book.Get(a)[k];
    assert Live(o);
    KeysApartSymmetric(book.sellHive, book.sellHbd);
    UncrossedSymmetric(book.sellHive, book.sellHbd);
    RemoveOk(book.Get(a), book.Get(Other(a)), k, |purses|, nextId);
    KeysApartSymmetric(Drop(book.Get(a), k), book.Get(Other(a)));
    UncrossedSymmetric(Drop(book.Get(a), k), book.Get(Other(a)));
    CancelSupply(purses, book, a, k, HIVE);
    CancelSupply(purses, book, a, k, HBD);
  }

  lemma KeyRemoved(book: Book, a: Asset, k: nat, accounts: nat, nextId: nat)
    requires SidesOk(book.sellHive, book.sellHbd, accounts, nextId) && k < |book.Get(a)|
    ensures HasKey(book, book.Get(a)[k].seller, book.Get(a)[k].number)
    ensures !HasKey(book.Put(a, Drop(book.Get(a), k)), book.Get(a)[k].seller, book.Get(a)[k].number)
  {
    var o := book.Get(a)[k];
    var rest := Drop(book.Get(a), k);
    KeysApartSymmetric(book.sellHive, book.sellHbd);
    forall i: nat | i < |rest| ensures !(rest[i].seller == o.seller && rest[i].number == o.number) {
      var at := if i < k then i else i + 1;
      assert rest[i] == book.Get(a)[at];
      assert !SameKey(book.Get(a)[if at < k then at else k], book.Get(a)[if at < k then k else at]);
    }
    forall i: nat | i < |book.Get(Other(a))|
      ensures !(book.Get(Other(a))[i].seller == o.seller && book.Get(Other(a))[i].number == o.number)
    {
      assert !SameKey(book.Get(a)[k], book.Get(Other(a))[i]);
    }
  }

}
