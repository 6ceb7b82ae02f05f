// The internal HIVE/HBD market: limit orders kept best price first, matched
// against each new order with floor arithmetic.

module OrderBook {
  import opened Arith
  import opened Common

  datatype Asset = HIVE | HBD

  function Other(a: Asset): Asset {
    if a == HIVE then HBD else HIVE
  }

  /** Sells `forSale` at `quote` of the other asset per `base`; `id` is the object id, `number` the owner's own. */
  datatype Order = Order(id: nat, seller: nat, number: nat, forSale: int, base: int, quote: int, expiration: nat)

  datatype Purse = Purse(hive: int, hbd: int) {
    function Get(a: Asset): int { if a == HIVE then hive else hbd }
    function Add(a: Asset, x: int): Purse { if a == HIVE then this.(hive := hive + x) else this.(hbd := hbd + x) }
  }

  datatype Book = Book(sellHive: seq<Order>, sellHbd: seq<Order>) {
    function Get(a: Asset): seq<Order> { if a == HIVE then sellHive else sellHbd }
    function Put(a: Asset, side: seq<Order>): Book {
      if a == HIVE then this.(sellHive := side) else this.(sellHbd := side)
    }
  }

  // ---- prices ----

  /** What `pays` of the sold asset is worth at the order's own price, rounded down. */
  function Limit(o: Order, pays: int): int
    requires o.base > 0
  {
    pays * o.quote / o.base
  }

  /** A taker's amount converted at the maker's price, rounded down. */
  function AtMakerPrice(o: Order, x: int): int
    requires o.quote > 0
  {
    x * o.base / o.quote
  }

  /** An open order: positive price and amount, and worth at least one unit of what it asks for. */
  ghost predicate Live(o: Order) {
    o.base > 0 && o.quote > 0 && o.forSale > 0 && Limit(o, o.forSale) > 0
  }

  /** Two orders of opposite sides cross when one sells at least as cheaply as the other will buy. */
  predicate Crosses(n: Order, o: Order) {
    o.base * n.base >= n.quote * o.quote
  }

  /** Precedence in the price index: cheaper first, then older. */
  predicate Before(a: Order, b: Order) {
    a.base * b.quote > b.base * a.quote || (a.base * b.quote == b.base * a.quote && a.id < b.id)
  }

  ghost predicate Sorted(side: seq<Order>) {
    forall i: nat, j: nat :: i < j < |side| ==> Before(side[i], side[j])
  }

  ghost predicate AllLive(side: seq<Order>) {
    forall i: nat :: i < |side| ==> Live(side[i])
  }

  ghost predicate Uncrossed(xs: seq<Order>, ys: seq<Order>) {
    forall i: nat, j: nat {:trigger xs[i], ys[j]} :: i < |xs| && j < |ys| ==> !Crosses(xs[i], ys[j])
  }

  /** If an order does not cross `n`, no order behind it on its side does. */
  lemma BehindDoesNotCross(n: Order, o: Order, o': Order)
    requires o.base > 0 && o.quote > 0 && o'.base > 0 && o'.quote > 0 && n.base > 0 && n.quote > 0
    requires Before(o, o') && !Crosses(n, o)
    ensures !Crosses(n, o')
  {
    // o'.base * o.quote <= o.base * o'.quote, and o.base * n.base < n.quote * o.quote
    MulLe(o'.base * o.quote, o.base * o'.quote, n.base);
    MulLe(n.quote * o.quote, o.base * n.base, o'.quote);
    assert o'.base * n.base * o.quote == o'.base * o.quote * n.base;
    assert o.base * o'.quote * n.base == o.base * n.base * o'.quote;
    assert n.quote * o.quote * o'.quote == n.quote * o'.quote * o.quote;
    MulLe(n.quote * o'.quote, o'.base * n.base, o.quote);
  }

  lemma BeforeTransitive(a: Order, b: Order, c: Order)
    requires a.base > 0 && a.quote > 0 && b.base > 0 && b.quote > 0 && c.base > 0 && c.quote > 0
    requires Before(a, b) && Before(b, c)
    ensures Before(a, c)
  {
    MulLe(b.base * a.quote, a.base * b.quote, c.quote);
    MulLe(a.base * b.quote, b.base * a.quote, c.quote);
    MulLe(c.base * b.quote, b.base * c.quote, a.quote);
    MulLe(b.base * c.quote, c.base * b.quote, a.quote);
    assert b.base * a.quote * c.quote == b.base * c.quote * a.quote;
    assert a.base * b.quote * c.quote == a.base * c.quote * b.quote;
    assert c.base * b.quote * a.quote == c.base * a.quote * b.quote;
    MulLe(c.base * a.quote, a.base * c.quote, b.quote);
    MulLe(a.base * c.quote, c.base * a.quote, b.quote);
  }

  // ---- what the comparisons mean ----

  ghost predicate HasPrice(o: Order) {
    o.base > 0 && o.quote > 0
  }

  /** Giving `pays` for `receives` is no worse for the seller than the order's price. */
  ghost predicate Accepts(o: Order, pays: int, receives: int) {
    receives * o.base >= pays * o.quote
  }

  /** `pays` of the one for `receives` of the other suits both orders. */
  ghost predicate Suits(n: Order, o: Order, pays: int, receives: int) {
    pays > 0 && receives > 0 && Accepts(n, pays, receives) && Accepts(o, receives, pays)
  }

  /** Two orders cross exactly when there is an exchange that suits both. */
  lemma CrossesIs(n: Order, o: Order)
    requires HasPrice(n) && HasPrice(o)
    ensures Crosses(n, o) <==> exists pays: int, receives: int :: Suits(n, o, pays, receives)
  {
    if Crosses(n, o) {
      assert Suits(n, o, n.base, n.quote);
    }
    forall pays: int, receives: int | Suits(n, o, pays, receives) ensures Crosses(n, o) {
      // receives * n.base >= pays * n.quote and pays * o.base >= receives * o.quote
      MulLe(receives * o.quote, pays * o.base, n.base);
      MulLe(pays * n.quote, receives * n.base, o.quote);
      assert receives * n.base * o.quote == receives * o.quote * n.base;
      assert pays * n.quote * o.quote == n.quote * o.quote * pays;
      assert pays * o.base * n.base == o.base * n.base * pays;
      MulLe(n.quote * o.quote, o.base * n.base, pays);
    }
  }

  /** A buyer that crosses `a` and not `b`. */
  ghost predicate Prefers(n: Order, a: Order, b: Order) {
    HasPrice(n) && Crosses(n, a) && !Crosses(n, b)
  }

  /**
   * One order comes before another exactly when some buyer takes it that does not take the other,
   * or when every buyer takes both or neither and it is the older one.
   */
  lemma BeforeIs(a: Order, b: Order)
    requires HasPrice(a) && HasPrice(b)
    ensures Before(a, b) <==> (exists n :: Prefers(n, a, b)) || ((forall n :: !Prefers(n, b, a)) && a.id < b.id)
  {
    var x, y := a.(base := a.quote, quote := a.base), b.(base := b.quote, quote := b.base);
    forall n | Prefers(n, a, b) ensures a.base * b.quote > b.base * a.quote {
      PrefersCheaper(n, a, b);
    }
    forall n | Prefers(n, b, a) ensures b.base * a.quote > a.base * b.quote {
      PrefersCheaper(n, b, a);
    }
    if a.base * b.quote > b.base * a.quote {
      assert Prefers(x, a, b);
    }
    if b.base * a.quote > a.base * b.quote {
      assert Prefers(y, b, a);
    }
  }

  lemma PrefersCheaper(n: Order, a: Order, b: Order)
    requires HasPrice(a) && HasPrice(b) && Prefers(n, a, b)
    ensures a.base * b.quote > b.base * a.quote
  {
    // a.base * n.base >= n.quote * a.quote and b.base * n.base < n.quote * b.quote
    MulLe(n.quote * a.quote, a.base * n.base, b.quote);
    MulLe(n.quote * b.quote, b.base * n.base, a.quote);
    assert n.quote * a.quote * b.quote == n.quote * b.quote * a.quote;
    assert a.base * n.base * b.quote == a.base * b.quote * n.base;
    assert b.base * n.base * a.quote == b.base * a.quote * n.base;
    MulLe(a.base * b.quote, b.base * a.quote, n.base);
  }

  /** What an amount fetches at the order's price, and what it costs to get it, both rounded down. */
  lemma LimitIs(o: Order, x: int)
    requires HasPrice(o)
    ensures Quotient(Limit(o, x), x * o.quote, o.base) && Quotient(AtMakerPrice(o, x), x * o.base, o.quote)
  {
    QuotientIs(x * o.quote, o.base);
    QuotientIs(x * o.base, o.quote);
  }

  // ---- one match ----

  /** The amounts one match moves: what the new order pays, and what it receives from the old one. */
  function MatchAmounts(n: Order, o: Order): (r: (int, int))
    requires n.base > 0 && o.base > 0 && o.quote > 0
  {
    if n.forSale <= Limit(o, o.forSale)
    then (n.forSale, AtMakerPrice(o, n.forSale))
    else (Limit(o, o.forSale), o.forSale)
  }

  /**
   * `pays` of the new order for `receives` of the old one, at the old order's price: all the new
   * order sells when that is no more than the old order asks for all it sells, and otherwise what
   * the old order asks for all it sells; what is not all is rounded down.
   */
  ghost predicate AtOldPrice(n: Order, o: Order, pays: int, receives: int) {
    if n.forSale * o.base <= o.forSale * o.quote
    then pays == n.forSale && Quotient(receives, pays * o.base, o.quote)
    else receives == o.forSale && Quotient(pays, receives * o.quote, o.base)
  }

  /** The amounts of a match are those, and no others are. */
  lemma MatchIsAtOldPrice(n: Order, o: Order, pays: int, receives: int)
    requires n.base > 0 && HasPrice(o)
    ensures AtOldPrice(n, o, pays, receives) <==> (pays, receives) == MatchAmounts(n, o)
  {
    DivBound(o.forSale * o.quote, o.base, n.forSale);
    LimitIs(o, o.forSale);
    LimitIs(o, n.forSale);
    if AtOldPrice(n, o, pays, receives) {
      if n.forSale * o.base <= o.forSale * o.quote {
        QuotientOnly(receives, AtMakerPrice(o, n.forSale), n.forSale * o.base, o.quote);
      } else {
        QuotientOnly(pays, Limit(o, o.forSale), o.forSale * o.quote, o.base);
      }
    }
  }

  /**
   * A match fills one side completely, takes from neither side more than it has for sale,
   * gives each side at least its own limit price rounded down, and never moves zero:
   * the assertions made while matching and filling cannot fail.
   */
  lemma MatchFair(n: Order, o: Order)
    requires Live(n) && Live(o) && Crosses(n, o)
    ensures var (pays, receives) := MatchAmounts(n, o);
      && 0 < pays <= n.forSale && 0 < receives <= o.forSale
      && (pays == n.forSale || receives == o.forSale)
      && receives >= Limit(n, pays) && pays >= Limit(o, receives)
      && AtOldPrice(n, o, pays, receives)
  {
    MatchIsAtOldPrice(n, o, MatchAmounts(n, o).0, MatchAmounts(n, o).1);
    hide AtOldPrice;
    if n.forSale <= Limit(o, o.forSale) {
      TakerFilled(n.forSale, o.forSale, o.base, o.quote);
      BetterThanLimit(n, o, n.forSale);
    } else {
      MakerFilled(o.forSale, o.base, o.quote);
      BetterThanLimit(n, o, Limit(o, o.forSale));
    }
  }

  lemma TakerFilled(taken: int, offered: int, base: int, quote: int)
    requires base > 0 && quote > 0 && taken <= offered * quote / base
    ensures taken * base / quote <= offered
    ensures taken * base / quote * quote / base <= taken
  {
    var moved := taken * base / quote;
    DivBound(offered * quote, base, taken);
    DivBound(taken * base, quote, moved);
    assert moved * quote <= offered * quote;
    MulLe(moved, offered, quote);
    DivBound(moved * quote, base, taken);
    DivBound(moved * quote, base, moved * quote / base);
    MulLe(moved * quote / base, taken, base);
  }

  lemma MakerFilled(offered: int, base: int, quote: int)
    requires base > 0 && quote > 0
    ensures offered * quote / base * base / quote <= offered
  {
    var paid := offered * quote / base;
    DivBound(offered * quote, base, paid);
    DivBound(paid * base, quote, paid * base / quote);
    MulLe(paid * base / quote, offered, quote);
  }

  /** Across crossing prices the maker's price gives the taker at least the taker's limit. */
  lemma BetterThanLimit(n: Order, o: Order, pays: int)
    requires n.base > 0 && n.quote > 0 && o.base > 0 && o.quote > 0 && pays >= 0 && Crosses(n, o)
    ensures Limit(n, pays) <= AtMakerPrice(o, pays)
  {
    var least := Limit(n, pays);
    DivBound(pays * n.quote, n.base, least);
    if pays > 0 {
      MulLe(n.quote * o.quote, o.base * n.base, pays);
    }
    MulLe(least * n.base, pays * n.quote, o.quote);
    assert pays * n.quote * o.quote == n.quote * o.quote * pays;
    assert o.base * n.base * pays == pays * o.base * n.base;
    assert least * n.base * o.quote == least * o.quote * n.base;
    MulLe(least * o.quote, pays * o.base, n.base);
    DivBound(pays * o.base, o.quote, least);
  }

  // ---- totals ----

  ghost function HeldBy(purses: seq<Purse>, a: Asset): int {
    if purses == [] then 0 else HeldBy(purses[..|purses| - 1], a) + purses[|purses| - 1].Get(a)
  }

  ghost function OnOffer(side: seq<Order>): int {
    if side == [] then 0 else OnOffer(side[..|side| - 1]) + side[|side| - 1].forSale
  }

  /** What one account has on offer on a side of the book. */
  ghost function OfferedBy(side: seq<Order>, who: nat): int {
    if side == [] then 0
    else OfferedBy(side[..|side| - 1], who) + if side[|side| - 1].seller == who then side[|side| - 1].forSale else 0
  }

  /** All of an asset: what accounts hold plus what open orders hold. */
  ghost function Supply(purses: seq<Purse>, book: Book, a: Asset): int {
    HeldBy(purses, a) + OnOffer(book.Get(a))
  }

  lemma {:induction false} HeldUpdate(purses: seq<Purse>, k: nat, a: Asset, x: int, b: Asset)
    requires k < |purses|
    ensures HeldBy(purses[k := purses[k].Add(a, x)], b) == HeldBy(purses, b) + if a == b then x else 0
    decreases |purses|
  {
    var n := |purses| - 1;
    var after := purses[k := purses[k].Add(a, x)];
    if k < n {
      assert after[..n] == purses[..n][k := purses[k].Add(a, x)];
      HeldUpdate(purses[..n], k, a, x, b);
    } else {
      assert after[..n] == purses[..n];
    }
  }

  lemma {:induction false} OfferUpdate(side: seq<Order>, k: nat, o: Order)
    requires k < |side|
    ensures OnOffer(side[k := o]) == OnOffer(side) + o.forSale - side[k].forSale
    decreases |side|
  {
    var n := |side| - 1;
    if k < n {
      assert side[k := o][..n] == side[..n][k := o];
      OfferUpdate(side[..n], k, o);
    } else {
      assert side[k := o][..n] == side[..n];
    }
  }

  function Insert(side: seq<Order>, k: nat, o: Order): seq<Order>
    requires k <= |side|
  {
    side[..k] + [o] + side[k..]
  }

  lemma {:induction false} OfferRemove(side: seq<Order>, k: nat)
    requires k < |side|
    ensures OnOffer(Drop(side, k)) == OnOffer(side) - side[k].forSale
    decreases |side|
  {
    var n := |side| - 1;
    if k == n {
      assert Drop(side, k) == side[..n];
    } else {
      assert Drop(side, k)[..n - 1] == Drop(side[..n], k);
      OfferRemove(side[..n], k);
    }
  }

  lemma {:induction false} OfferedRemove(side: seq<Order>, k: nat, who: nat)
    requires k < |side|
    ensures OfferedBy(Drop(side, k), who) == OfferedBy(side, who) - if side[k].seller == who then side[k].forSale else 0
    decreases |side|
  {
    var n := |side| - 1;
    if k == n {
      assert Drop(side, k) == side[..n];
    } else {
      assert Drop(side, k)[..n - 1] == Drop(side[..n], k);
      OfferedRemove(side[..n], k, who);
    }
  }

  lemma RemoveInsert(side: seq<Order>, k: nat, o: Order)
    requires k <= |side|
    ensures |Insert(side, k, o)| == |side| + 1 && Insert(side, k, o)[k] == o
    ensures Drop(Insert(side, k, o), k) == side
  {
  }

  lemma {:induction false} OfferInsert(side: seq<Order>, k: nat, o: Order)
    requires k <= |side|
    ensures OnOffer(Insert(side, k, o)) == OnOffer(side) + o.forSale
  {
    RemoveInsert(side, k, o);
    OfferRemove(Insert(side, k, o), k);
  }
}
