// The price feed, and the cap that keeps HBD below a fixed part of the combined
// market value of HIVE and HBD.

module HbdLimit {
  import opened Arith
  import opened Common

  const ONE_PERCENT := 100
  const MIN_FEEDS := 7
  const HARD_LIMIT := 30                 // percent, HIVE_HBD_HARD_LIMIT

  /** HBD per HIVE; both amounts are positive. */
  datatype Price = Price(base: nat, quote: nat)

  predicate Proper(p: Price) {
    p.base > 0 && p.quote > 0
  }

  predicate AtMost(a: Price, b: Price) {
    a.base * b.quote <= b.base * a.quote
  }

  lemma AtMostTransitive(a: Price, b: Price, c: Price)
    requires Proper(a) && Proper(b) && Proper(c) && AtMost(a, b) && AtMost(b, c)
    ensures AtMost(a, c)
  {
    MulLe(a.base * b.quote, b.base * a.quote, c.quote);
    MulLe(b.base * c.quote, c.base * b.quote, a.quote);
    assert a.base * b.quote * c.quote == a.base * c.quote * b.quote;
    assert b.base * a.quote * c.quote == b.base * c.quote * a.quote;
    assert c.base * b.quote * a.quote == c.base * a.quote * b.quote;
    MulLe(a.base * c.quote, c.base * a.quote, b.quote);
  }

  // ---- medians ----

  ghost predicate Sorted(s: seq<Price>) {
    forall i: nat, j: nat :: i < j < |s| ==> AtMost(s[i], s[j])
  }

  ghost predicate AllProper(s: seq<Price>) {
    forall i: nat :: i < |s| ==> Proper(s[i])
  }

  method Sort(s: seq<Price>) returns (r: seq<Price>)
    requires AllProper(s)
    ensures Sorted(r) && multiset(r) == multiset(s) && |r| == |s| && AllProper(r)
  {
    r := [];
    for n := 0 to |s|
      invariant Sorted(r) && multiset(r) == multiset(s[..n]) && |r| == n && AllProper(r)
    {
      hide AtMost;
      var k := n;
      while k > 0 && !AtMost(r[k - 1], s[n])
        invariant 0 <= k <= n && forall i: nat :: k <= i < n ==> !AtMost(r[i], s[n])
      {
        k := k - 1;
      }
      Insert(r, k, s[n]);
      assert s[..n + 1] == s[..n] + [s[n]];
      r := r[..k] + [s[n]] + r[k..];
    }
    assert s[..|s|] == s;
  }

  lemma Total(a: Price, b: Price)
    ensures AtMost(a, b) || AtMost(b, a)
  {
  }

  lemma Insert(r: seq<Price>, k: nat, p: Price)
    requires Sorted(r) && AllProper(r) && Proper(p) && k <= |r| && (k > 0 ==> AtMost(r[k - 1], p))
    requires forall i: nat :: k <= i < |r| ==> !AtMost(r[i], p)
    ensures var s := r[..k] + [p] + r[k..]; Sorted(s) && AllProper(s) && multiset(s) == multiset(r) + multiset{p}
  {
    hide AtMost, Proper;
    var s := r[..k] + [p] + r[k..];
    forall i: nat, j: nat | i < j < |s| ensures AtMost(s[i], s[j]) {
      InsertPair(r, k, p, i, j);
    }
    InsertMembers(r, k, p);
  }

  lemma InsertMembers(r: seq<Price>, k: nat, p: Price)
    requires k <= |r|
    ensures multiset(r[..k] + [p] + r[k..]) == multiset(r) + multiset{p}
  {
    assert r == r[..k] + r[k..];
  }

  lemma InsertPair(r: seq<Price>, k: nat, p: Price, i: nat, j: nat)
    requires Sorted(r) && AllProper(r) && Proper(p) && k <= |r| && (k > 0 ==> AtMost(r[k - 1], p))
    requires forall i: nat :: k <= i < |r| ==> !AtMost(r[i], p)
    requires i < j <= |r|
    ensures var s := r[..k] + [p] + r[k..]; AtMost(s[i], s[j])
  {
    hide AtMost, Proper;
    if i == k {
      Total(p, r[j - 1]);
    } else if j == k {
      if i < k - 1 {
        AtMostTransitive(r[i], r[k - 1], p);
      }
    } else {
      var a, b := if i < k then i else i - 1, if j < k then j else j - 1;
      assert AtMost(r[a], r[b]);
    }
  }

  method MedianOf(s: seq<Price>) returns (m: Price, least: Price, most: Price)
    requires AllProper(s) && s != []
    ensures Median(m, s) && Proper(m) && Proper(least) && Proper(most) && Spans(s, least, most)
  {
    hide AtMost, Proper;
    var t := Sort(s);
    m, least, most := t[|t| / 2], t[0], t[|t| - 1];
    SortedSpans(s, t);
  }

  /** `least` and `most` are among the prices, and all lie between them. */
  ghost predicate Spans(s: seq<Price>, least: Price, most: Price) {
    least in s && most in s && forall p :: p in s ==> AtMost(least, p) && AtMost(p, most)
  }

  lemma SortedSpans(s: seq<Price>, t: seq<Price>)
    requires Sorted(t) && multiset(t) == multiset(s) && t != []
    ensures Spans(s, t[0], t[|t| - 1])
  {
    assert t[0] in multiset(s) && t[|t| - 1] in multiset(s);
    forall p | p in s ensures AtMost(t[0], p) && AtMost(p, t[|t| - 1]) {
      assert p in multiset(t);
      var i: nat :| i < |t| && t[i] == p;
    }
  }

  /** The upper median: the middle element once sorted. */
  ghost predicate Median(m: Price, s: seq<Price>) {
    s != [] && exists t: seq<Price> :: Sorted(t) && multiset(t) == multiset(s) && |t| == |s| && t[|t| / 2] == m
  }

  // ---- the cap ----

  /** The least price at which `hbd` is no more than `limit` percent of the combined value. */
  function MinPrice(hbd: nat, hive: nat, limit: nat): Price
    requires limit <= 100
  {
    Price((100 - limit) * hbd, limit * hive)
  }

  /** What an amount of HBD is worth in HIVE. */
  function InHive(hbd: nat, p: Price): nat
    requires Proper(p)
  {
    hbd * p.quote / p.base
  }

  /** The debt ratio in hundredths of a percent, rounded to nearest. */
  function HbdPercent(hbdSupply: int, treasury: int, hive: nat, median: Option<Price>): nat
    requires hive > 0 && (median.Some? ==> Proper(median.value))
  {
    if median.None? then 0
    else
      var hbd := if hbdSupply - treasury < 0 then 0 else hbdSupply - treasury;
      var asHive := InHive(hbd, median.value);
      var virtual := asHive + hive;
      (asHive * 100 * ONE_PERCENT + virtual / 2) / virtual
  }

  /** At price `p` the HBD are worth at most `limit` percent of themselves and the HIVE together. */
  ghost predicate WithinLimit(hbd: nat, hive: nat, limit: nat, p: Price) {
    100 * (hbd * p.quote) <= limit * (hbd * p.quote + hive * p.base)
  }

  /** They are worth exactly that. */
  ghost predicate OnLimit(hbd: nat, hive: nat, limit: nat, p: Price) {
    100 * (hbd * p.quote) == limit * (hbd * p.quote + hive * p.base)
  }

  /** The least price is the least: exactly the prices from it on keep to the limit, and it is on the limit itself. */
  lemma MinPriceIsLeast(hbd: nat, hive: nat, limit: nat, p: Price)
    requires limit <= 100
    ensures AtMost(MinPrice(hbd, hive, limit), p) <==> WithinLimit(hbd, hive, limit, p)
    ensures WithinLimit(hbd, hive, limit, p) <==> (100 - limit) * hbd * p.quote <= limit * hive * p.base
    ensures OnLimit(hbd, hive, limit, MinPrice(hbd, hive, limit))
  {
    LimitForms(hbd, hive, limit, p);
    LimitForms(hbd, hive, limit, MinPrice(hbd, hive, limit));
  }

  lemma LimitForms(hbd: nat, hive: nat, limit: nat, p: Price)
    requires limit <= 100
    ensures 100 * (hbd * p.quote) - limit * (hbd * p.quote + hive * p.base) ==
            (100 - limit) * hbd * p.quote - limit * hive * p.base
    ensures p.base * (limit * hive) == limit * hive * p.base
  {
    var x, y := hbd * p.quote, hive * p.base;
    Associate(100 - limit, hbd, p.quote);
    Associate(limit, hive, p.base);
    assert limit * (x + y) == limit * x + limit * y;
    assert (100 - limit) * x == 100 * x - limit * x;
  }

  lemma InHiveIs(hbd: nat, p: Price)
    requires Proper(p)
    ensures Quotient(InHive(hbd, p), hbd * p.quote, p.base)
  {
    QuotientIs(hbd * p.quote, p.base);
  }

  /** The ratio is the whole number of hundredths of a percent nearest to the exact one; none without a price. */
  lemma HbdPercentIsNearest(hbdSupply: int, treasury: int, hive: nat, median: Option<Price>)
    requires hive > 0 && (median.Some? ==> Proper(median.value))
    ensures var r := HbdPercent(hbdSupply, treasury, hive, median);
            && (median.None? || hbdSupply <= treasury ==> r == 0)
            && (median.Some? && hbdSupply > treasury ==>
                  var asHive := InHive(hbdSupply - treasury, median.value);
                  var exact, whole := asHive * 100 * ONE_PERCENT, asHive + hive;
                  2 * exact - whole <= 2 * (r * whole) <= 2 * exact + whole)
  {
    if median.Some? {
      var hbd := if hbdSupply - treasury < 0 then 0 else hbdSupply - treasury;
      var asHive := InHive(hbd, median.value);
      if hbd == 0 {
        InHiveIs(0, median.value);
        MulLe(0, asHive, median.value.base);
        MulLe(asHive, 0, median.value.base);
      }
      var whole := asHive + hive;
      QuotientIs(asHive * 100 * ONE_PERCENT + whole / 2, whole);
      var r := (asHive * 100 * ONE_PERCENT + whole / 2) / whole;
      assert (r + 1) * whole == r * whole + whole;
      if hbd == 0 {
        MulLe(1, r, whole);
      }
    }
  }

  /** At the least price or any higher one, the part of HBD is at most `limit` percent, exactly. */
  lemma WorthCapped(hbd: nat, hive: nat, limit: nat, p: Price)
    requires limit <= 100 && Proper(p) && AtMost(MinPrice(hbd, hive, limit), p)
    ensures (100 - limit) * InHive(hbd, p) <= limit * hive
  {
    var h := InHive(hbd, p);
    DivBound(hbd * p.quote, p.base, h);
    DivBound(hbd * p.quote, p.base, 0);
    CapStep(100 - limit, h, p.base, hbd, p.quote, limit * hive);
  }

  lemma CapStep(c: nat, h: nat, base: nat, hbd: nat, quote: nat, bound: int)
    requires base > 0 && h * base <= hbd * quote && c * hbd * quote <= base * bound
    ensures c * h <= bound
  {
    Associate(c, h, base);
    Associate(c, hbd, quote);
    MulMono(c, c, h * base, hbd * quote);
    MulLe(c * h, bound, base);
  }

  /** Rounding does not carry the ratio over the limit. */
  lemma RatioCapped(asHive: nat, hive: nat, limit: nat)
    requires hive > 0 && limit <= 100 && (100 - limit) * asHive <= limit * hive
    ensures var virtual := asHive + hive; (asHive * 100 * ONE_PERCENT + virtual / 2) / virtual <= limit * ONE_PERCENT
  {
    var v := asHive + hive;
    assert limit * v == limit * asHive + limit * hive;
    assert (100 - limit) * asHive == 100 * asHive - limit * asHive;
    var a, top := asHive * 100 * ONE_PERCENT + v / 2, limit * ONE_PERCENT;
    assert asHive * 100 * ONE_PERCENT <= top * v;
    assert (top + 1) * v == top * v + v;
    DivBound(a, v, top + 1);
  }

  /** The median after the cap. */
  function Capped(median: Price, hbdSupply: int, treasury: int, hive: nat): Price {
    if hbdSupply <= treasury then median
    else
      var least := MinPrice(hbdSupply - treasury, hive, HARD_LIMIT);
      if AtMost(least, median) then median else least
  }

  /** The price is left alone exactly when it keeps to the limit; otherwise it is put on the limit. */
  ghost predicate PutRight(median: Price, hbdSupply: int, treasury: int, hive: nat, p: Price) {
    if hbdSupply <= treasury then p == median
    else
      var hbd := hbdSupply - treasury;
      && (p == median <==> WithinLimit(hbd, hive, HARD_LIMIT, median))
      && (p != median ==> OnLimit(hbd, hive, HARD_LIMIT, p) && p == MinPrice(hbd, hive, HARD_LIMIT))
  }

  lemma CappedIs(median: Price, hbdSupply: int, treasury: int, hive: nat)
    ensures PutRight(median, hbdSupply, treasury, hive, Capped(median, hbdSupply, treasury, hive))
  {
    hide WithinLimit, OnLimit;
    if hbdSupply > treasury {
      MinPriceIsLeast(hbdSupply - treasury, hive, HARD_LIMIT, median);
    }
  }

  /** The history with one more price, at most `window` long. */
  function Pushed(history: seq<Price>, p: Price, window: nat): seq<Price> {
    var all := history + [p];
    if |all| > window then all[1..] else all
  }

  /** The newest prices, in order, as many as there are and have room. */
  lemma PushedIs(history: seq<Price>, p: Price, window: nat)
    requires window >= 1 && |history| <= window
    ensures var r, all := Pushed(history, p, window), history + [p];
            && |r| == (if |history| == window then window else |history| + 1)
            && forall i: nat :: i < |r| ==> r[i] == all[i + (|all| - |r|)]
  {
  }

  lemma CapHolds(median: Price, hbdSupply: int, treasury: int, hive: nat)
    requires Proper(median) && hive > 0
    ensures var p := Capped(median, hbdSupply, treasury, hive);
            Proper(p) && AtMost(median, p) && HbdPercent(hbdSupply, treasury, hive, Some(p)) <= HARD_LIMIT * ONE_PERCENT
  {
    var p := Capped(median, hbdSupply, treasury, hive);
    if hbdSupply > treasury {
      var hbd := hbdSupply - treasury;
      Total(MinPrice(hbd, hive, HARD_LIMIT), median);
      WorthCapped(hbd, hive, HARD_LIMIT, p);
      RatioCapped(InHive(hbd, p), hive, HARD_LIMIT);
    } else {
      assert InHive(0, p) == 0;
      RatioCapped(0, hive, HARD_LIMIT);
    }
  }

  class FeedHistory {
    const window: nat                    // HIVE_FEED_HISTORY_WINDOW
    var history: seq<Price>
    var current: Option<Price>           // current_median_history
    var market: Option<Price>            // market_median_history
    var min: Option<Price>
    var max: Option<Price>

    ghost predicate Valid()
      reads this
    {
      AllProper(history) && window >= 1 && |history| <= window && (current.Some? ==> Proper(current.value))
    }

    constructor (window: nat)
      requires window >= 1
      ensures Valid() && history == [] && current.None? && this.window == window
    {
      this.window := window;
      history, current, market, min, max := [], None, None, None, None;
    }

    /**
     * A new round of feeds. Afterwards, for every supply, treasury balance and market median, the
     * debt ratio as the node computes it is at most the hard limit; and the price is the market
     * median exactly when that keeps to the limit, and otherwise on the limit.
     */
    method Update(feeds: seq<Price>, hbdSupply: int, treasury: int, hive: nat) returns (updated: bool)
      requires Valid() && AllProper(feeds) && hive > 0
      modifies this
      ensures Valid() && (updated <==> |feeds| >= MIN_FEEDS)
      ensures !updated ==> unchanged(this)
      ensures updated ==> HbdPercent(hbdSupply, treasury, hive, current) <= HARD_LIMIT * ONE_PERCENT
      ensures updated ==> exists m: Price :: Median(m, feeds) && history == Pushed(old(history), m, window)
      ensures updated ==> market.Some? && Median(market.value, history) && current.Some? &&
                          AtMost(market.value, current.value)
      ensures updated ==> PutRight(market.value, hbdSupply, treasury, hive, current.value)
      ensures updated ==> min.Some? && max.Some? && exists high: Price ::
                            Spans(history, min.value, high) && PutRight(high, hbdSupply, treasury, hive, max.value)
    {
      if |feeds| < MIN_FEEDS {
        return false;
      }
      hide Median, Capped, HbdPercent, AtMost, MinPrice, Spans, PutRight;
      var median, a, b := MedianOf(feeds);
      history := Pushed(history, median, window);
      var middle, low, high := MedianOf(history);
      CapHolds(middle, hbdSupply, treasury, hive);
      CappedIs(middle, hbdSupply, treasury, hive);
      CappedIs(high, hbdSupply, treasury, hive);
      current, market, min := Some(Capped(middle, hbdSupply, treasury, hive)), Some(middle), Some(low);
      max := Some(Capped(high, hbdSupply, treasury, hive));
      return true;
    }
  }
}
