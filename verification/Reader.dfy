// Reading the one chain back: reversible blocks live in the fork database,
// irreversible ones in the block log, and readers see a single contiguous chain.

module Reader {
  import opened Arith
  import opened Common
  import opened Chain
  import opened ForkDatabase
  import opened Irreversibility
  import opened BlockWriter

  const MAX_RANGE := 1000
  const DEFAULT_MAX_SIZE := 1024          // of the fork database

  /**
   * The fork database holds the chain of its head from the last block of the log upwards and
   * nothing older, and the log is the beginning of that chain.
   */
  ghost predicate Serves(index: seq<Block>, h: Block, log: seq<Block>) {
    Based(index, h, log) && Floor(index, |log|)
  }

  /** The log is the beginning of the chain of `h`, and the fork database holds the rest, and perhaps other things. */
  ghost predicate Based(index: seq<Block>, h: Block, log: seq<Block>) {
    h in index && 1 <= |log| <= Num(h) && log == History(h)[..|log|] && Linked(index, h, |log|)
  }

  ghost predicate Serving(db: ForkDb, log: seq<Block>)
    reads db
  {
    db.Valid() && db.head.Some? && Serves(db.index, db.head.value, log)
  }

  /** A node whose fork database is at its own head serves its chain exactly when nothing older is held. */
  lemma NodeServes(node: Node)
    requires node.Valid() && node.db.head == Some(node.head)
    ensures Serving(node.db, node.log) <==> Floor(node.db.index, node.lib)
  {
    AnchoredLib(node.db.index, node.head, node.lib, node.log, node.valid);
  }

  /**
   * After any run the node serves the chain its state is on, unless it has gone down, has given up
   * a fork switch, or has taken in a block without predecessor since the last block it applied.
   * Such a block is then among the inputs, and came when the chain was past its start and nothing
   * was too old for the fork database.
   */
  method RunServing(base: Block, valid: Block -> bool, schedule: Block -> seq<nat>, threshold: nat, votingStart: nat,
                    maxWitnesses: nat, maxSize: nat, inputs: seq<Input>)
    returns (node: Node, trace: seq<Record>, ghost grounds: seq<Ground>, ghost stray: bool)
    requires base.Block? && ONE_HUNDRED_PERCENT / 2 < threshold <= ONE_HUNDRED_PERCENT
    requires forall b: Block :: Distinct(schedule(b))
    ensures fresh(node) && (!node.halted ==> node.Valid())
    ensures !node.halted && !stray && node.db.head == Some(node.head) ==> Serving(node.db, node.log)
    ensures Story(node, base, maxSize, inputs, trace, grounds) && trace[|trace| - 1] == node.Now()
    ensures stray ==> exists k: nat :: CameIn(inputs, trace, k)
  {
    hide Node.Valid, Node.Safe, Floor, Story, CameIn;
    node, trace, grounds,
    stray := RunNode(base, valid, schedule, threshold, votingStart, maxWitnesses, maxSize, inputs);
    if !node.halted && node.db.head == Some(node.head) {
      NodeServes(node);
    }
  }

  lemma {:induction false} LogAt(index: seq<Block>, h: Block, log: seq<Block>, n: nat)
    requires Serves(index, h, log) && 1 <= n <= |log|
    ensures log[n - 1] == At(h, n)
  {
    HistoryAt(h, n);
  }

  /** What the fork database answers for one number: the chain's block, or nothing below the log's end. */
  lemma {:induction false} HeldAt(index: seq<Block>, h: Block, log: seq<Block>, n: nat)
    requires Serves(index, h, log)
    ensures Fetched(index, Some(h), n) == if |log| <= n <= Num(h) then Some(At(h, n)) else None
  {
    if |log| <= n <= Num(h) {
      LinkedHere(index, h, |log|, n);
      FetchedIs(index, h, n);
    } else if n <= Num(h) {
      NoneNumbered(index, n);
    }
  }

  method LogBlock(log: seq<Block>, n: nat) returns (r: Option<Block>)
    ensures r == if 1 <= n <= |log| then Some(log[n - 1]) else None
  {
    r := if 1 <= n <= |log| then Some(log[n - 1]) else None;
  }

  /** What is found for a number: in the fork database, or else in the log. */
  ghost function Looked(index: seq<Block>, head: Option<Block>, log: seq<Block>, n: nat): Option<Block> {
    if Fetched(index, head, n).Some? then Fetched(index, head, n)
    else if 1 <= n <= |log| then Some(log[n - 1]) else None
  }

  /**
   * Looking up block `n` gives the chain's block exactly when the fork database does not hold,
   * below the end of the log, a single block of that number which is a different one.
   */
  lemma {:induction false} LookedExact(index: seq<Block>, h: Block, log: seq<Block>, n: nat)
    requires AllReal(index) && Based(index, h, log)
    ensures Looked(index, Some(h), log, n) == (if 1 <= n <= Num(h) then Some(At(h, n)) else None)
       <==> (1 <= n < |log| && |ByNumber(index, n)| == 1 ==> ByNumber(index, n)[0] == At(h, n))
  {
    if 1 <= n <= |log| {
      HistoryAt(h, n);
    }
    if |log| <= n <= Num(h) {
      LinkedHere(index, h, |log|, n);
      FetchedIs(index, h, n);
    } else if 1 <= n <= Num(h) {
      WalkedIs(index, h, n);
    } else if n == 0 {
      NoneNumbered(index, 0);
    }
  }

  /** Serving a chain is enough for every number. */
  lemma {:induction false} LookedServing(index: seq<Block>, h: Block, log: seq<Block>, n: nat)
    requires AllReal(index) && Serves(index, h, log)
    ensures Looked(index, Some(h), log, n) == if 1 <= n <= Num(h) then Some(At(h, n)) else None
  {
    LookedExact(index, h, log, n);
    if n < |log| {
      NoneNumbered(index, n);
    }
  }

  /** Block `n` of the chain, wherever it is kept. */
  method GetBlockByNumber(db: ForkDb, log: seq<Block>, n: nat) returns (r: Option<Block>)
    requires db.Valid()
    ensures r == Looked(db.index, db.head, log, n)
    ensures Serving(db, log) ==> r == if 1 <= n <= Num(db.head.value) then Some(At(db.head.value, n)) else None
  {
    r := db.FetchOnMainBranch(n);
    if r.None? {
      r := LogBlock(log, n);
    }
    if Serving(db, log) {
      LookedServing(db.index, db.head.value, log, n);
    }
  }

  /**
   * A node at block 2 is given another block 1: it is accepted, and from then on block 1 of the
   * chain reads as that other block.
   */
  method StrayFirstBlock(first: Block, base: Block, stray: Block) returns (found: Option<Block>)
    requires base.Block? && base.prev == first && first.Block? && first.prev == Genesis
    requires stray.Block? && stray.prev == Genesis && stray != first
    ensures At(base, 1) == first && found == Some(stray)
  {
    var db := new ForkDb(base, DEFAULT_MAX_SIZE);
    var outcome := db.PushBlock(stray);
    found := GetBlockByNumber(db, [first, base], 1);
    OneNumbered(db.index, 1, stray);
  }

  lemma {:induction false} OneNumbered(index: seq<Block>, n: nat, x: Block)
    requires NoDuplicates(index) && x in index && Num(x) == n && forall y :: y in index && Num(y) == n ==> y == x
    ensures ByNumber(index, n) == [x]
    decreases |index|
  {
    var init, last := index[..|index| - 1], index[|index| - 1];
    if last == x {
      assert x !in init;
      NoneNumbered(init, n);
    } else {
      assert Num(last) != n;
      OneNumbered(init, n, x);
    }
  }

  /** The block is found at its number. */
  ghost predicate Included(index: seq<Block>, head: Option<Block>, log: seq<Block>, b: Block) {
    if Num(b) == 0 then b == Genesis else Looked(index, head, log, Num(b)) == Some(b)
  }

  lemma {:induction false} IncludedServing(index: seq<Block>, h: Block, log: seq<Block>, b: Block)
    requires AllReal(index) && Serves(index, h, log)
    ensures Included(index, Some(h), log, b) <==> Below(b, h)
  {
    OnChain(h, b);
    LookedServing(index, h, log, Num(b));
  }

  /** A block is part of the chain exactly when it is found at its number. */
  method IsIncluded(db: ForkDb, log: seq<Block>, b: Block) returns (r: bool)
    requires db.Valid()
    ensures r <==> Included(db.index, db.head, log, b)
    ensures Serving(db, log) ==> (r <==> Below(b, db.head.value))
  {
    hide Below, Serves, Fetched, InNumberOrder, NoDuplicates, AllReal;
    if Serving(db, log) {
      IncludedServing(db.index, db.head.value, log, b);
    }
    if Num(b) == 0 {
      return b == Genesis;
    }
    var item := db.FetchOnMainBranch(Num(b));
    if item.Some? {
      return b == item.value;
    }
    var read := LogBlock(log, Num(b));
    return Some(b) == read;
  }

  lemma {:induction false} OnChain(h: Block, b: Block)
    ensures Below(b, h) <==> Num(b) <= Num(h) && At(h, Num(b)) == b
  {
    if Below(b, h) {
      AtUnique(b, h);
    }
  }

  // ---- ranges ----

  lemma {:induction false} SliceLength(h: Block, from: nat, until: nat)
    requires until <= Num(h)
    ensures |Slice(h, from, until)| == if from > until then 0 else until - from + 1
    ensures forall k: nat :: k < |Slice(h, from, until)| ==> Slice(h, from, until)[k] == At(h, from + k)
    decreases until
  {
    if from <= until && until > 0 {
      SliceLength(h, from, until - 1);
    }
  }

  /** A slice of the log is a slice of the chain, and it joins up with the reversible part. */
  lemma LogSlice(h: Block, log: seq<Block>, first: nat, last: nat, end: nat)
    requires |log| <= Num(h) && log == History(h)[..|log|]
    requires 1 <= first <= last + 1 && last <= |log| && last <= end <= Num(h)
    ensures log[first - 1..last] + Slice(h, last + 1, end) == Slice(h, first, end)
  {
    hide Num, Below, At, Linked, Floor, History, Slice;
    SliceLength(h, first, end);
    SliceLength(h, last + 1, end);
    var low, high, all := log[first - 1..last], Slice(h, last + 1, end), Slice(h, first, end);
    forall k: nat | k < |low| ensures low[k] == At(h, first + k) {
      HistoryAt(h, first + k);
    }
    assert low + high == all;
  }

  lemma {:induction false} CollectedFrom(index: seq<Block>, b: Block, first: nat)
    requires Num(b) >= first
    ensures var all := Collected(index, b, first); all != [] && all[|all| - 1] == b && first <= Num(all[0]) <= Num(b)
    decreases b
  {
    if b.Block? && b.prev in index && Num(b.prev) >= first {
      CollectedFrom(index, b.prev, first);
    }
  }

  /** Walking down from a block of a chain gives the stretch of the chain down to where the walk stops. */
  lemma {:induction false} CollectedSlice(index: seq<Block>, h: Block, b: Block, first: nat)
    requires Below(b, h) && Num(b) >= first
    ensures Num(b) <= Num(h) && Collected(index, b, first) != [] &&
            Collected(index, b, first) == Slice(h, Num(Collected(index, b, first)[0]), Num(b))
    ensures var low := Num(Collected(index, b, first)[0]);
            low == first || low == 0 || (1 <= low <= Num(h) && At(h, low).prev !in index)
    decreases b
  {
    AtUnique(b, h);
    if b.Block? {
      PrevBelow(b);
      BelowTransitive(b.prev, b, h);
      if b.prev in index && Num(b.prev) >= first {
        CollectedSlice(index, h, b.prev, first);
        CollectedFrom(index, b.prev, first);
      }
    }
  }

  /** What the fork database holds of a range ends in the block of its last number, and starts in the range. */
  lemma {:induction false} RangeBounds(index: seq<Block>, head: Option<Block>, first: nat, count: nat)
    requires AllReal(index) && count >= 1 && (head.Some? ==> head.value in index)
    ensures Ranged(index, head, first, count) != [] ==>
              && head.Some? && Num(head.value) >= first
              && var items := Ranged(index, head, first, count);
                 var last := if first + count - 1 < Num(head.value) then first + count - 1 else Num(head.value);
                 && Fetched(index, head, last) == Some(items[|items| - 1]) && first <= Num(items[0])
                 && items == Collected(index, items[|items| - 1], first)
  {
    if head.Some? && Num(head.value) >= first {
      var last := if first + count - 1 < Num(head.value) then first + count - 1 else Num(head.value);
      FetchedNumber(index, head.value, last);
      if Fetched(index, head, last).Some? {
        CollectedFrom(index, Fetched(index, head, last).value, first);
      }
    }
  }

  lemma FetchedNumber(index: seq<Block>, h: Block, n: nat)
    requires AllReal(index) && h in index
    ensures var x := Fetched(index, Some(h), n); x.Some? ==> Num(x.value) == n && x.value in index
  {
    if n <= Num(h) {
      WalkedIs(index, h, n);
      if |ByNumber(index, n)| >= 1 {
        assert ByNumber(index, n)[0] in ByNumber(index, n);
      }
    }
  }

  /** Of a range whose last block is the chain's, what the fork database holds joins up with the log. */
  lemma {:induction false} RangeJoins(index: seq<Block>, h: Block, log: seq<Block>, first: nat, count: nat,
                                      items: seq<Block>)
    requires AllReal(index) && Based(index, h, log) && 1 <= first <= Num(h) && count >= 1
    requires items == Ranged(index, Some(h), first, count) && items != []
    requires Below(items[|items| - 1], h)
    ensures var last := if first + count - 1 < Num(h) then first + count - 1 else Num(h);
            && first <= Num(items[0]) && (Num(items[0]) > first ==> Num(items[0]) - 1 <= |log|)
            && Slice(h, first, last) ==
                 (if Num(items[0]) > first then log[first - 1..Num(items[0]) - 1] else []) + items
  {
    hide At, Linked, History, Floor, Ranged, Collected, Fetched, Slice, Below, Num;
    var last := if first + count - 1 < Num(h) then first + count - 1 else Num(h);
    FetchedNumber(index, h, last);
    RangeBounds(index, Some(h), first, count);
    var b := items[|items| - 1];
    CollectedFrom(index, b, first);
    CollectedSlice(index, h, b, first);
    var low := Num(items[0]);
    if low > first {
      if low - 1 >= |log| {
        LinkedHere(index, h, |log|, low - 1);
        AtStep(h, low - 1);
      }
      LogSlice(h, log, first, low - 1, last);
    } else {
      assert [] + items == items;
    }
  }

  /** The block log's own range read; it fails when the range runs past its last block. */
  method LogRange(log: seq<Block>, first: nat, count: nat) returns (r: Option<seq<Block>>)
    requires first >= 1 && count >= 1
    ensures first > |log| ==> r == Some([])
    ensures first <= |log| < first + count - 1 ==> r.None?
    ensures first + count - 1 <= |log| ==> r == Some(log[first - 1..first + count - 1])
  {
    var last := first + count - 1;
    if first > |log| {
      return Some([]);
    }
    if last > |log| {
      return None;
    }
    r := Some(log[first - 1..last]);
  }

  /** What the fork database and the log together give for a range. */
  ghost predicate RangeRead(index: seq<Block>, head: Option<Block>, log: seq<Block>, first: nat, count: nat,
                            r: Option<seq<Block>>)
    requires first >= 1 && count >= 1
  {
    var items := Ranged(index, head, first, count);
    var remaining := if items == [] then count else Num(items[0]) - first;
    if remaining <= 0 then r == Some(items)
    else if first > |log| then r == Some(items)
    else if first + remaining - 1 > |log| then r.None?
    else r == Some(log[first - 1..first + remaining - 1] + items)
  }

  /**
   * A range read over a chain gives the stretch of it exactly when looking up its last block gives
   * the chain's.
   */
  lemma {:induction false} RangeExact(index: seq<Block>, h: Block, log: seq<Block>, first: nat, count: nat,
                                      r: Option<seq<Block>>)
    requires AllReal(index) && Based(index, h, log) && first >= 1 && count >= 1
    requires RangeRead(index, Some(h), log, first, count, r)
    ensures var last := if first + count - 1 < Num(h) then first + count - 1 else Num(h);
            r == Some(Slice(h, first, last)) <==> first > last || Looked(index, Some(h), log, last) == Some(At(h, last))
  {
    hide Linked, History, Floor, Slice, Ranged, Fetched, RangeRead, Looked, Below, Num, At;
    var last := if first + count - 1 < Num(h) then first + count - 1 else Num(h);
    var items := Ranged(index, Some(h), first, count);
    if first > last {
      RangePast(index, h, log, first, count, r);
    } else if items == [] {
      RangeFromLog(index, h, log, first, count, r);
    } else {
      RangeAcross(index, h, log, first, count, r);
    }
  }

  lemma {:induction false} SliceEnds(h: Block, first: nat, last: nat)
    requires first <= last <= Num(h)
    ensures Slice(h, first, last) != [] && Slice(h, first, last)[|Slice(h, first, last)| - 1] == At(h, last)
  {
    SliceLength(h, first, last);
  }

  lemma {:induction false} RangePast(index: seq<Block>, h: Block, log: seq<Block>, first: nat, count: nat,
                                     r: Option<seq<Block>>)
    requires Based(index, h, log) && first > Num(h) && count >= 1
    requires RangeRead(index, Some(h), log, first, count, r)
    ensures r == Some(Slice(h, first, Num(h)))
  {
    SliceLength(h, first, Num(h));
  }

  lemma {:induction false} RangeAcross(index: seq<Block>, h: Block, log: seq<Block>, first: nat, count: nat,
                                       r: Option<seq<Block>>)
    requires AllReal(index) && Based(index, h, log) && 1 <= first <= Num(h) && count >= 1
    requires RangeRead(index, Some(h), log, first, count, r) && Ranged(index, Some(h), first, count) != []
    ensures var last := if first + count - 1 < Num(h) then first + count - 1 else Num(h);
            r == Some(Slice(h, first, last)) <==> Looked(index, Some(h), log, last) == Some(At(h, last))
  {
    hide Linked, History, Floor, Slice, Ranged, Fetched, Below, Num, At, RangeRead, Collected;
    var last := if first + count - 1 < Num(h) then first + count - 1 else Num(h);
    var items := Ranged(index, Some(h), first, count);
    SliceEnds(h, first, last);
    RangeBounds(index, Some(h), first, count);
    RangeEnds(index, h, log, first, count, r);
    var b := items[|items| - 1];
    if b == At(h, last) {
      RangeJoins(index, h, log, first, count, items);
      RangeJoined(index, h, log, first, count, r);
    }
  }

  lemma RangeEnds(index: seq<Block>, h: Block, log: seq<Block>, first: nat, count: nat, r: Option<seq<Block>>)
    requires first >= 1 && count >= 1 && RangeRead(index, Some(h), log, first, count, r)
    requires Ranged(index, Some(h), first, count) != []
    ensures var items := Ranged(index, Some(h), first, count);
            r.Some? ==> r.value != [] && r.value[|r.value| - 1] == items[|items| - 1]
  {
    hide Ranged, Num;
  }

  lemma RangeJoined(index: seq<Block>, h: Block, log: seq<Block>, first: nat, count: nat, r: Option<seq<Block>>)
    requires first >= 1 && count >= 1 && RangeRead(index, Some(h), log, first, count, r)
    requires Ranged(index, Some(h), first, count) != []
    requires var low := Num(Ranged(index, Some(h), first, count)[0]); first <= low && (low > first ==> low - 1 <= |log|)
    ensures var items := Ranged(index, Some(h), first, count);
            r == Some((if Num(items[0]) > first then log[first - 1..Num(items[0]) - 1] else []) + items)
  {
    hide Ranged, Num;
    var items := Ranged(index, Some(h), first, count);
    assert [] + items == items;
  }

  lemma {:induction false} RangeFromLog(index: seq<Block>, h: Block, log: seq<Block>, first: nat, count: nat,
                                        r: Option<seq<Block>>)
    requires AllReal(index) && Based(index, h, log) && 1 <= first <= Num(h) && count >= 1
    requires RangeRead(index, Some(h), log, first, count, r) && Ranged(index, Some(h), first, count) == []
    ensures var last := if first + count - 1 < Num(h) then first + count - 1 else Num(h);
            r == Some(Slice(h, first, last)) && Looked(index, Some(h), log, last) == Some(At(h, last))
  {
    hide Linked, History, Floor, Slice, Collected;
    var last := if first + count - 1 < Num(h) then first + count - 1 else Num(h);
    if Fetched(index, Some(h), last).Some? {
      FetchedNumber(index, h, last);
      CollectedFrom(index, Fetched(index, Some(h), last).value, first);
    }
    if last >= |log| {
      LinkedHere(index, h, |log|, last);
      FetchedIs(index, h, last);
    }
    HistoryAt(h, last);
    LogSlice(h, log, first, last, last);
    SliceLength(h, last + 1, last);
  }

  lemma {:induction false} RangeServing(index: seq<Block>, h: Block, log: seq<Block>, first: nat, count: nat,
                                        r: Option<seq<Block>>)
    requires AllReal(index) && Serves(index, h, log) && first >= 1 && count >= 1
    requires RangeRead(index, Some(h), log, first, count, r)
    ensures r == Some(Slice(h, first, if first + count - 1 < Num(h) then first + count - 1 else Num(h)))
  {
    hide RangeRead, Looked, Slice, Linked, History, Floor;
    RangeExact(index, h, log, first, count, r);
    LookedServing(index, h, log, if first + count - 1 < Num(h) then first + count - 1 else Num(h));
  }

  /**
   * Blocks `first` to `first + count - 1`, as far as the chain reaches: a contiguous stretch of
   * the one chain, whether it lies in the log, in the fork database or across both.
   */
  method FetchBlockRange(db: ForkDb, log: seq<Block>, first: nat, count: nat) returns (r: Option<seq<Block>>)
    requires db.Valid()
    ensures first == 0 || count == 0 || count > MAX_RANGE ==> r.None?
    ensures 1 <= first && 1 <= count <= MAX_RANGE ==> RangeRead(db.index, db.head, log, first, count, r)
    ensures Serving(db, log) ==> (r.None? <==> first == 0 || count == 0 || count > MAX_RANGE)
    ensures Serving(db, log) && r.Some? ==>
              var h := db.head.value;
              r.value == Slice(h, first, if first + count - 1 < Num(h) then first + count - 1 else Num(h))
  {
    hide Num, Below, At, Slice, Linked, Floor, History, Ranged, InNumberOrder, NoDuplicates, AllReal, Looked, Serves,
         Fetched;
    if first == 0 || count == 0 || count > MAX_RANGE {
      return None;
    }
    var items := db.FetchRange(first, count);
    RangeBounds(db.index, db.head, first, count);
    var remaining := if items == [] then count else Num(items[0]) - first;
    if remaining == 0 {
      r := Some(items);
    } else {
      var low := LogRange(log, first, remaining);
      r := if low.Some? then Some(low.value + items) else None;
      assert [] + items == items;
    }
    if Serving(db, log) {
      RangeServing(db.index, db.head.value, log, first, count, r);
    }
  }

  // ---- peers ----

  /** What a peer gets: ids, or a failure: nothing shared, a block found nowhere, or the process down. */
  datatype Answer = Reply(ids: seq<Block>, remaining: nat) | Unreachable | NotFound | Down

  /** The block log holds block number `k + 1` at position `k`. */
  ghost predicate Numbered(log: seq<Block>) {
    forall k: nat :: k < |log| ==> Num(log[k]) == k + 1
  }

  lemma {:induction false} LookedNumber(index: seq<Block>, h: Block, log: seq<Block>, n: nat)
    requires AllReal(index) && h in index && Numbered(log)
    ensures var x := Looked(index, Some(h), log, n); x.Some? ==> Num(x.value) == n && (n <= Num(h) || n <= |log|)
  {
    FetchedNumber(index, h, n);
  }

  /** Position of the last member of the synopsis that is on our chain. */
  method LastKnown(db: ForkDb, log: seq<Block>, synopsis: seq<Block>) returns (r: Option<nat>)
    requires db.Valid()
    ensures r.None? ==> forall x :: x in synopsis ==> !Included(db.index, db.head, log, x)
    ensures r.Some? ==> SharedAt(db.index, db.head, log, synopsis, r.value)
  {
    hide Included, InNumberOrder, NoDuplicates, AllReal;
    var i := |synopsis|;
    while i > 0
      invariant 0 <= i <= |synopsis|
      invariant forall j: nat :: i <= j < |synopsis| ==> !Included(db.index, db.head, log, synopsis[j])
    {
      i := i - 1;
      var known := IsIncluded(db, log, synopsis[i]);
      if known {
        return Some(i);
      }
    }
    return None;
  }

  /** Positions `from` to `until` of the reply hold the blocks found for their numbers. */
  ghost predicate Filled(ids: seq<Block>, index: seq<Block>, h: Block, log: seq<Block>, first: nat, from: int,
                         until: int) {
    forall k: nat {:trigger ids[k]} :: from <= k < until && k < |ids| ==>
                                         Some(ids[k]) == Looked(index, Some(h), log, first + k)
  }

  lemma FilledNext(ids: seq<Block>, index: seq<Block>, h: Block, log: seq<Block>, first: nat, from: int, k: nat,
                   b: Block)
    requires Filled(ids, index, h, log, first, from, k) && k < |ids|
    requires Looked(index, Some(h), log, first + k) == Some(b)
    ensures Filled(ids[k := b], index, h, log, first, from, k + 1)
  {
    hide Looked;
  }

  /** Writing a block where it belongs disturbs nothing. */
  lemma FilledStays(ids: seq<Block>, index: seq<Block>, h: Block, log: seq<Block>, first: nat, from: int, until: int,
                    k: nat, b: Block)
    requires Filled(ids, index, h, log, first, from, until) && k < |ids|
    requires Looked(index, Some(h), log, first + k) == Some(b)
    ensures Filled(ids[k := b], index, h, log, first, from, until)
  {
    hide Looked;
  }

  lemma FilledVoid(ids: seq<Block>, index: seq<Block>, h: Block, log: seq<Block>, first: nat, from: int, until: int)
    requires until <= from
    ensures Filled(ids, index, h, log, first, from, until)
  {
  }

  /** Two stretches that leave nothing between them. */
  lemma FilledAll(ids: seq<Block>, index: seq<Block>, h: Block, log: seq<Block>, first: nat, m: int, n: int)
    requires Filled(ids, index, h, log, first, 0, n) && Filled(ids, index, h, log, first, m, |ids|)
    requires m <= n || n >= |ids| || m <= 0
    ensures Filled(ids, index, h, log, first, 0, |ids|)
  {
    hide Looked;
  }

  /** A number the reply takes from the fork database and that is not found there. */
  ghost predicate Gone(index: seq<Block>, h: Block, from: nat, last: nat, n: nat) {
    from <= n <= last && Fetched(index, Some(h), n).None?
  }

  ghost predicate AnyGone(index: seq<Block>, h: Block, from: nat, last: nat) {
    exists n: nat :: Gone(index, h, from, last, n)
  }

  /** The part of the reply from number `from` on; a number that is not found takes the process down. */
  method FillFromDb(db: ForkDb, log: seq<Block>, result: array<Block>, first: nat, last: nat, from: nat)
    returns (ok: bool)
    requires db.Valid() && db.head.Some? && first <= from && result.Length == last + 1 - first
    modifies result
    ensures ok ==> Filled(result[..], db.index, db.head.value, log, first, from - first, last + 1 - first)
    ensures ok <==> !AnyGone(db.index, db.head.value, from, last)
  {
    hide Num, Fetched, InNumberOrder, NoDuplicates, AllReal, Filled;
    ghost var h := db.head.value;
    FilledVoid(result[..], db.index, h, log, first, from - first, from - first);
    var n := from;
    while n <= last
      invariant from <= n && (n <= last + 1 || n == from)
      invariant Filled(result[..], db.index, h, log, first, from - first, n - first)
      invariant forall m: nat :: m < n ==> !Gone(db.index, h, from, last, m)
    {
      var item := db.FetchOnMainBranch(n);
      if item.None? {
        assert Gone(db.index, h, from, last, n);
        return false;
      }
      FilledNext(result[..], db.index, h, log, first, from - first, n - first, item.value);
      result[n - first] := item.value;
      n := n + 1;
    }
    if n > last + 1 {
      FilledVoid(result[..], db.index, h, log, first, from - first, last + 1 - first);
    }
    ok := true;
  }

  /** The part below everything the fork database holds; a number past the end of the log is found nowhere. */
  method FillFromLog(db: ForkDb, log: seq<Block>, result: array<Block>, first: nat, last: nat, ghost m: int,
                     ghost z: int) returns (ok: bool)
    requires db.Valid() && db.head.Some? && 1 <= first && last + 1 - first <= result.Length
    requires forall n: nat :: n <= last ==> Fetched(db.index, db.head, n).None?
    requires Filled(result[..], db.index, db.head.value, log, first, m, z)
    modifies result
    ensures Filled(result[..], db.index, db.head.value, log, first, m, z)
    ensures ok ==> Filled(result[..], db.index, db.head.value, log, first, 0, last + 1 - first)
    ensures ok <==> first > last || last <= |log|
  {
    hide Num, Fetched, InNumberOrder, NoDuplicates, AllReal, Filled;
    ghost var h := db.head.value;
    FilledVoid(result[..], db.index, h, log, first, 0, 0);
    var n := first;
    while n <= last
      invariant first <= n && (n <= last + 1 || n == first) && (n > first ==> n - 1 <= |log|)
      invariant Filled(result[..], db.index, h, log, first, 0, n - first)
      invariant Filled(result[..], db.index, h, log, first, m, z)
    {
      var read := LogBlock(log, n);
      if read.None? {
        return false;
      }
      FilledNext(result[..], db.index, h, log, first, 0, n - first, read.value);
      FilledStays(result[..], db.index, h, log, first, m, z, n - first, read.value);
      result[n - first] := read.value;
      n := n + 1;
    }
    if n > last + 1 {
      FilledVoid(result[..], db.index, h, log, first, 0, last + 1 - first);
    }
    ok := true;
  }

  /** Nothing is held below the oldest block. */
  lemma NoneOlder(index: seq<Block>, head: Option<Block>, n: nat)
    requires InNumberOrder(index) && index != [] && n < Num(index[0])
    ensures Fetched(index, head, n).None?
  {
    forall x | x in index ensures Num(x) != n {
      var i :| 0 <= i < |index| && index[i] == x;
    }
    NoneNumbered(index, n);
  }

  /** The blocks found for `first..last`, filled in from the fork database and from the log. */
  method FillIds(db: ForkDb, log: seq<Block>, first: nat, last: nat) returns (r: Answer)
    requires db.Valid() && db.head.Some? && 1 <= first <= last + 1
    ensures !r.Unreachable?
    ensures r.Reply? ==> |r.ids| == last + 1 - first && r.remaining == 0 &&
                         Filled(r.ids, db.index, db.head.value, log, first, 0, last + 1 - first)
    ensures r == Down <==> AnyGone(db.index, db.head.value, Later(Num(db.index[0]), first), last)
    ensures r == NotFound <==> r != Down && Later(|log| + 1, first) <= last &&
                               Later(|log| + 1, first) < Num(db.index[0])
  {
    hide Num, NoDuplicates, AllReal, Filled, Fetched, AnyGone, InNumberOrder;
    var oldest := Num(db.index[0]);
    Positive(db.index);
    forall n: nat | n < oldest ensures Fetched(db.index, db.head, n).None? {
      NoneOlder(db.index, db.head, n);
    }
    var result := new Block[last + 1 - first](i => Genesis);
    var lastFromLog := Sooner(oldest - 1, last);
    var firstFromDb := Later(oldest, first);
    var ok := FillFromDb(db, log, result, first, last, firstFromDb);
    if !ok {
      return Down;
    }
    ok := FillFromLog(db, log, result, first, lastFromLog, firstFromDb - first, last + 1 - first);
    if !ok {
      return NotFound;
    }
    var ids := result[..];
    FilledAll(ids, db.index, db.head.value, log, first, firstFromDb - first, lastFromLog + 1 - first);
    r := Reply(ids, 0);
  }

  function Later(a: nat, b: nat): (r: nat)
    ensures r == a || r == b
    ensures r >= a && r >= b
  {
    if a > b then a else b
  }

  function Sooner(a: nat, b: nat): (r: nat)
    ensures r == a || r == b
    ensures r <= a && r <= b
  {
    if a < b then a else b
  }

  lemma Positive(index: seq<Block>)
    requires AllReal(index) && index != []
    ensures Num(index[0]) >= 1
  {
  }

  /** The last block of the synopsis on our chain, or the very beginning for a peer that names none. */
  method FindShared(db: ForkDb, log: seq<Block>, synopsis: seq<Block>) returns (r: Option<Block>)
    requires db.Valid() && db.head.Some?
    ensures r.None? <==> synopsis != [] && forall x :: x in synopsis ==> !Included(db.index, db.head, log, x)
    ensures r.Some? ==> Shared(db.index, db.head, log, synopsis, r.value) &&
                        Included(db.index, db.head, log, r.value)
  {
    hide Looked, InNumberOrder, NoDuplicates, AllReal;
    if synopsis == [] {
      return Some(Genesis);
    }
    if synopsis == [Genesis] {
      assert SharedAt(db.index, db.head, log, synopsis, 0) && Genesis in synopsis;
      return Some(Genesis);
    }
    var at := LastKnown(db, log, synopsis);
    if at.None? {
      return None;
    }
    assert synopsis[at.value] in synopsis;
    return Some(synopsis[at.value]);
  }

  /** The numbers a reply runs over, from the shared block on, at most `limit` of them. */
  ghost predicate Span(h: Block, known: Block, limit: nat, first: nat, last: nat) {
    && first == (if Num(known) == 0 then 1 else Num(known))
    && last == if first + limit - 1 < Num(h) then first + limit - 1 else Num(h)
  }

  /**
   * The blocks found for the numbers from the shared block on, and how many come after those. The
   * process goes down when the fork database does not find a number above the oldest it holds; a
   * number below that and past the log is found nowhere.
   */
  ghost predicate Answers(index: seq<Block>, h: Block, log: seq<Block>, known: Block, limit: nat, first: nat, last: nat,
                          r: Answer)
    requires index != []
  {
    && Span(h, known, limit, first, last)
    && (r == Down <==> AnyGone(index, h, Later(Num(index[0]), first), last))
    && (r == NotFound <==> r != Down && Later(|log| + 1, first) <= last && Later(|log| + 1, first) < Num(index[0]))
    && (r.Reply? ==> |r.ids| == last + 1 - first && Filled(r.ids, index, h, log, first, 0, |r.ids|) &&
                     r.remaining == if limit == 0 then 0 else Num(h) - last)
  }

  /** Over a served chain the reply is the stretch of that chain. */
  lemma {:induction false} AnswersServing(index: seq<Block>, h: Block, log: seq<Block>, known: Block, limit: nat,
                                          first: nat, last: nat, r: Answer)
    requires AllReal(index) && InNumberOrder(index) && Serves(index, h, log) && Below(known, h) && r != Unreachable
    requires index != [] && Answers(index, h, log, known, limit, first, last, r)
    ensures r.Reply? && r.ids == Slice(h, first, last)
  {
    hide Linked, History, Floor, Slice, Fetched, Looked;
    BelowNum(known, h);
    OldestIs(index, h, log);
    SliceLength(h, first, last);
    forall n: nat ensures !Gone(index, h, Later(Num(index[0]), first), last, n) {
      HeldAt(index, h, log, n);
    }
    forall n: nat | first <= n <= last ensures Looked(index, Some(h), log, n) == Some(At(h, n)) {
      LookedServing(index, h, log, n);
    }
    forall k: nat | k < |r.ids| ensures r.ids[k] == Slice(h, first, last)[k] {
      assert Some(r.ids[k]) == Looked(index, Some(h), log, first + k);
    }
  }

  lemma {:induction false} OldestIs(index: seq<Block>, h: Block, log: seq<Block>)
    requires Serves(index, h, log) && InNumberOrder(index)
    ensures index != [] && Num(index[0]) == |log| && 1 <= |log| <= Num(h)
  {
    LinkedHere(index, h, |log|, |log|);
    var i :| 0 <= i < |index| && index[i] == At(h, |log|);
    assert index[0] in index;
  }

  /**
   * Answers a peer's synopsis with the blocks from the last one the peer shares with us on, at
   * most `limit` of them, and the number of blocks still to come after those. Fails when the peer
   * names blocks and none of them is on our chain; on a served chain, only then.
   */
  method GetBlockIds(db: ForkDb, log: seq<Block>, synopsis: seq<Block>, limit: nat)
    returns (r: Answer, ghost shared: Block, ghost first: nat, ghost last: nat)
    requires db.Valid() && Numbered(log) && (db.head.Some? ==> |log| <= Num(db.head.value))
    ensures db.head.None? ==> r == Reply([], 0)
    ensures db.head.Some? ==> (r == Unreachable <==> synopsis != [] && forall x :: x in synopsis ==>
                                                       !Included(db.index, db.head, log, x))
    ensures db.head.Some? && r != Unreachable ==>
              Shared(db.index, db.head, log, synopsis, shared) && Included(db.index, db.head, log, shared) &&
              Answers(db.index, db.head.value, log, shared, limit, first, last, r)
    ensures Serving(db, log) && r != Unreachable ==>
              Below(shared, db.head.value) && r.Reply? && r.ids == Slice(db.head.value, first, last)
  {
    hide Slice, Serves, Shared, Included, Filled, AnyGone, Fetched, Looked, NoDuplicates, Later, Numbered,
         InNumberOrder, AllReal, Below, Num;
    shared, first, last := Genesis, 1, 0;
    if db.head.None? {
      return Reply([], 0), shared, first, last;
    }
    var h := db.head.value;
    var found := FindShared(db, log, synopsis);
    if found.None? {
      return Unreachable, shared, first, last;
    }
    var known := found.value;
    shared := known;
    IncludedLow(db.index, h, log, known);
    var from := if Num(known) == 0 then 1 else Num(known);
    var until := if from + limit - 1 < Num(h) then from + limit - 1 else Num(h);
    first, last := from, until;
    r := FillIds(db, log, from, until);
    if r.Reply? && r.ids != [] {
      LastFilled(r.ids, db.index, h, log, from);
      if Num(r.ids[|r.ids| - 1]) < Num(h) {
        r := r.(remaining := Num(h) - until);
      }
    }
    if Serving(db, log) {
      IncludedServing(db.index, h, log, known);
      AnswersServing(db.index, h, log, known, limit, from, until, r);
    }
  }

  lemma LastFilled(ids: seq<Block>, index: seq<Block>, h: Block, log: seq<Block>, first: nat)
    requires AllReal(index) && h in index && Numbered(log) && ids != []
    requires Filled(ids, index, h, log, first, 0, |ids|)
    ensures Num(ids[|ids| - 1]) == first + |ids| - 1
  {
    LookedNumber(index, h, log, first + |ids| - 1);
    assert Some(ids[|ids| - 1]) == Looked(index, Some(h), log, first + (|ids| - 1));
  }

  lemma {:induction false} IncludedLow(index: seq<Block>, h: Block, log: seq<Block>, b: Block)
    requires AllReal(index) && h in index && Numbered(log) && |log| <= Num(h) && Included(index, Some(h), log, b)
    ensures Num(b) <= Num(h) && Num(h) >= 1
  {
    LookedNumber(index, h, log, Num(b));
  }

  ghost predicate SharedAt(index: seq<Block>, head: Option<Block>, log: seq<Block>, synopsis: seq<Block>, i: nat) {
    && i < |synopsis| && Included(index, head, log, synopsis[i])
    && forall j: nat :: i < j < |synopsis| ==> !Included(index, head, log, synopsis[j])
  }

  /** `known` is the last block of the synopsis on our chain; the empty synopsis shares the genesis. */
  ghost predicate Shared(index: seq<Block>, head: Option<Block>, log: seq<Block>, synopsis: seq<Block>, known: Block) {
    if synopsis == [] then known == Genesis
    else exists i: nat :: SharedAt(index, head, log, synopsis, i) && synopsis[i] == known
  }

  // ---- the synopsis sent to a peer ----

  datatype Synopsis = Ids(ids: seq<Block>) | NoSynopsis | OutOfRange

  function Pow2(n: nat): (r: nat)
    ensures r >= 1
  {
    if n == 0 then 1 else 2 * Pow2(n - 1)
  }

  /** The links below `b` reach down to number `d` and no further. */
  ghost predicate Reaches(index: seq<Block>, b: Block, d: nat) {
    1 <= d <= Num(b) && Linked(index, b, d) && At(b, d - 1) !in index
  }

  /** The linked ancestors of `b`, highest first. */
  method AncestorsHeld(db: ForkDb, b: Block) returns (ids: seq<Block>, ghost d: nat)
    requires db.Valid() && b in db.index
    ensures Reaches(db.index, b, d) && |ids| == Num(b) - d + 1 && forall i: nat :: i < |ids| ==>
                                                                     ids[i] == At(b, Num(b) - i)
  {
    hide InNumberOrder, NoDuplicates, Linked, Num, Below;
    Roots(db.index, b);
    ids := [];
    var next := Some(b);
    while next.Some?
      invariant next.Some? ==> next.value in db.index && next.value.Block? && |ids| < Num(b) && next.value ==
                                 At(b, Num(b) - |ids|)
      invariant next.None? ==> 1 <= |ids| <= Num(b) && At(b, Num(b) - |ids|) !in db.index
      invariant |ids| <= Num(b) && (|ids| > 0 ==> Linked(db.index, b, Num(b) - |ids| + 1))
      invariant forall i: nat :: i < |ids| ==> ids[i] == At(b, Num(b) - i)
      decreases Num(b) - |ids| + if next.Some? then 1 else 0
    {
      LinkedDown(db.index, b, Num(b) - |ids|);
      ids := ids + [next.value];
      AtStep(b, Num(b) - |ids|);
      next := db.PrevLock(next.value);
    }
    d := Num(b) - |ids| + 1;
  }

  lemma {:induction false} Roots(index: seq<Block>, b: Block)
    requires AllReal(index) && b in index
    ensures b.Block? && Num(b) >= 1 && At(b, Num(b)) == b && At(b, 0) == Genesis && Genesis !in index
  {
    var g := At(b, 0);
    assert Num(g) == 0;
  }

  lemma LinkedDown(index: seq<Block>, b: Block, n: nat)
    requires n <= Num(b) && At(b, n) in index && (n < Num(b) ==> Linked(index, b, n + 1))
    ensures Linked(index, b, n)
  {
  }

  lemma AtStep(b: Block, n: nat)
    requires n < Num(b)
    ensures At(b, n + 1).Block? && At(b, n + 1).prev == At(b, n)
  {
    var x := At(b, n + 1);
    PrevBelow(x);
    BelowTransitive(x.prev, x, b);
    AtUnique(x.prev, b);
  }

  /** Each step goes at least half of what is left, and does not jump over `high` from below. */
  lemma Halving(low: nat, high: nat, next: nat)
    requires low <= high && next == low + (high - low + 2) / 2
    ensures low < next <= high + 1 && 2 * (high + 1 - next) <= high + 1 - low && (low < high ==> next <= high)
  {
  }

  /** A synopsis of the chain ending in `reference`: from block `low` up, in ever smaller steps. */
  ghost predicate Summarizes(ids: seq<Block>, reference: Block, low: nat, after: nat) {
    && low <= Num(reference) && ids != [] && ids[0] == At(reference, low)
    && (forall i: nat :: i < |ids| ==> Below(ids[i], reference))
    && (forall i: nat, j: nat :: i < j < |ids| ==> Num(ids[i]) < Num(ids[j]))
    && Pow2(|ids| - 1) <= Num(reference) + after + 1 - low
    && (after == 0 ==> ids[|ids| - 1] == reference)
  }

  /** The numbers of a synopsis, from `low` up to `top`, each step at least half the way to `high`. */
  ghost function Steps(low: nat, high: nat, top: nat): seq<nat>
    requires top <= high
    decreases top + 1 - low
  {
    if low > top then [] else [low] + Steps(low + (high - low + 2) / 2, high, top)
  }

  /** From `low` the next number is half the way to just past `high`, rounded up. */
  ghost predicate HalfWay(low: nat, next: nat, high: nat) {
    high + 1 <= 2 * next - low <= high + 2
  }

  /** No further number is named: half the way leads past `top`. */
  ghost predicate TooFar(low: nat, top: nat, high: nat) {
    forall next: nat :: HalfWay(low, next, high) ==> next > top
  }

  ghost predicate Ascending(s: seq<nat>) {
    forall i: nat, j: nat :: i < j < |s| ==> s[i] < s[j]
  }

  lemma {:induction false} StepsOk(low: nat, high: nat, top: nat)
    requires low <= top <= high
    ensures var s := Steps(low, high, top);
            && s != [] && s[0] == low && low <= s[|s| - 1] <= top && Pow2(|s| - 1) <= high + 1 - low
            && Ascending(s) && (high == top ==> s[|s| - 1] == top)
            && (forall i: nat :: i + 1 < |s| ==> HalfWay(s[i], s[i + 1], high)) && TooFar(s[|s| - 1], top, high)
    decreases top - low
  {
    var next := low + (high - low + 2) / 2;
    Halving(low, high, next);
    PowZero();
    if next <= top {
      StepsOk(next, high, top);
      var s, rest := Steps(low, high, top), Steps(next, high, top);
      assert s == [low] + rest;
      assert Pow2(|s| - 1) == 2 * Pow2(|rest| - 1);
      forall i: nat, j: nat | i < j < |s| ensures s[i] < s[j] {
        if i == 0 {
          assert rest[0] <= rest[j - 1];
        } else {
          assert rest[i - 1] < rest[j - 1];
        }
      }
    }
  }

  /** The ids are the blocks of the given numbers, each moved up by `shift`. */
  ghost predicate Named(ids: seq<Block>, reference: Block, numbers: seq<nat>, shift: nat) {
    |ids| <= |numbers| && forall k: nat :: k < |ids| ==> numbers[k] + shift <= Num(reference) &&
                                                         ids[k] == At(reference, numbers[k] + shift)
  }

  /**
   * The synopsis, when the links below the reference point reach down to number `d`: the blocks of
   * the numbers to be named, counted from `d` instead of from the oldest block held; reading past
   * the end when the highest of these is above the reference point.
   */
  ghost predicate Synopsized(r: Synopsis, reference: Block, oldest: nat, d: nat, after: nat) {
    var steps := Steps(oldest, Num(reference) + after, Num(reference));
    && 1 <= oldest <= d <= Num(reference) && steps != []
    && (r == OutOfRange <==> steps[|steps| - 1] + (d - oldest) > Num(reference)) && r != NoSynopsis
    && (r.Ids? ==> |r.ids| == |steps| && Named(r.ids, reference, steps, d - oldest))
  }

  /** It is a synopsis of the chain of the reference point exactly when the links reach the oldest block held. */
  lemma WholeSynopsis(index: seq<Block>, r: Synopsis, reference: Block, oldest: nat, d: nat, after: nat)
    requires Synopsized(r, reference, oldest, d, after) && Reaches(index, reference, d) && Floor(index, oldest)
    ensures (r.Ids? && Summarizes(r.ids, reference, oldest, after)) <==> Linked(index, reference, oldest)
  {
    hide Synopsized, Summarizes, Below, Num, At, Floor;
    LowestHeld(index, reference, oldest, d);
    if d == oldest {
      SynopsisWhole(r, reference, oldest, after);
    } else {
      SynopsisShort(r, reference, oldest, d, after);
      assert At(reference, d - 1) !in index;
    }
  }

  lemma {:induction false} AtTop(b: Block)
    ensures At(b, Num(b)) == b
  {
  }

  lemma SynopsisWhole(r: Synopsis, reference: Block, oldest: nat, after: nat)
    requires Synopsized(r, reference, oldest, oldest, after)
    ensures r.Ids? && Summarizes(r.ids, reference, oldest, after)
  {
    hide Below, Num, At, Steps, Pow2, Named, Ascending;
    AtTop(reference);
    var steps := Steps(oldest, Num(reference) + after, Num(reference));
    StepsOk(oldest, Num(reference) + after, Num(reference));
    NamedClimbs(r.ids, reference, steps);
  }

  lemma NamedFew(ids: seq<Block>, reference: Block, numbers: seq<nat>, shift: nat)
    ensures Named(ids, reference, numbers, shift) ==> |ids| <= |numbers|
  {
  }

  lemma {:induction false} NamedClimbs(ids: seq<Block>, reference: Block, numbers: seq<nat>)
    requires Named(ids, reference, numbers, 0) && |ids| == |numbers| > 0
    requires Ascending(numbers)
    ensures numbers[0] <= Num(reference) && ids[0] == At(reference, numbers[0])
    ensures numbers[|ids| - 1] <= Num(reference) && ids[|ids| - 1] == At(reference, numbers[|ids| - 1])
    ensures forall i: nat :: i < |ids| ==> Below(ids[i], reference)
    ensures forall i: nat, j: nat :: i < j < |ids| ==> Num(ids[i]) < Num(ids[j])
  {
    hide Below, Num, At, Named;
    NamedAt(ids, reference, numbers, 0, 0);
    NamedAt(ids, reference, numbers, 0, |ids| - 1);
    forall i: nat | i < |ids| ensures Below(ids[i], reference) && Num(ids[i]) == numbers[i] {
      NamedAt(ids, reference, numbers, 0, i);
    }
  }

  lemma {:induction false} NamedAt(ids: seq<Block>, reference: Block, numbers: seq<nat>, shift: nat, k: nat)
    requires Named(ids, reference, numbers, shift) && k < |ids|
    ensures k < |numbers| && numbers[k] + shift <= Num(reference) && ids[k] == At(reference, numbers[k] + shift)
    ensures Num(ids[k]) == numbers[k] + shift && Below(ids[k], reference)
  {
  }

  lemma {:induction false} NamedEnds(ids: seq<Block>, reference: Block, numbers: seq<nat>, shift: nat)
    requires Named(ids, reference, numbers, shift) && |ids| == |numbers| > 0
    ensures numbers[|numbers| - 1] + shift <= Num(reference)
    ensures numbers[0] + shift <= Num(reference) && ids[0] == At(reference, numbers[0] + shift)
  {
    hide Below, Num, At, Named;
    NamedAt(ids, reference, numbers, shift, 0);
    NamedAt(ids, reference, numbers, shift, |ids| - 1);
  }

  lemma SynopsisShort(r: Synopsis, reference: Block, oldest: nat, d: nat, after: nat)
    requires Synopsized(r, reference, oldest, d, after) && d > oldest
    ensures !(r.Ids? && Summarizes(r.ids, reference, oldest, after))
  {
    hide Below, Num, At, Steps, Pow2, Named, Ascending;
    StepsOk(oldest, Num(reference) + after, Num(reference));
    if r.Ids? {
      NamedEnds(r.ids, reference, Steps(oldest, Num(reference) + after, Num(reference)), d - oldest);
      assert Num(r.ids[0]) == d;
    }
  }

  /** The numbers named so far, and those still to be named from `low` on. */
  ghost predicate Naming(ids: seq<Block>, reference: Block, oldest: nat, d: nat, low: nat, high: nat) {
    && 1 <= oldest <= d <= Num(reference) <= high && oldest <= low
    && var steps := Steps(oldest, high, Num(reference));
       Named(ids, reference, steps, d - oldest) && Steps(low, high, Num(reference)) == steps[|ids|..]
  }

  lemma {:induction false} NamingStep(ids: seq<Block>, reference: Block, oldest: nat, d: nat, low: nat, high: nat,
                                      b: Block)
    requires Naming(ids, reference, oldest, d, low, high) && low + (d - oldest) <= Num(reference)
    requires b == At(reference, low + (d - oldest))
    ensures Naming(ids + [b], reference, oldest, d, low + (high - low + 2) / 2, high)
  {
    hide Below, Num, At;
    var steps, rest := Steps(oldest, high, Num(reference)), Steps(low, high, Num(reference));
    assert rest[0] == low && rest[1..] == Steps(low + (high - low + 2) / 2, high, Num(reference));
    assert steps[|ids|] == low && steps[|ids| + 1..] == rest[1..];
  }

  lemma {:induction false} StepsFirst(low: nat, high: nat, top: nat)
    requires top <= high
    ensures if low > top then Steps(low, high, top) == [] else Steps(low, high, top) != [] &&
                                                               Steps(low, high, top)[0] == low
  {
  }

  lemma {:induction false} NamingFails(ids: seq<Block>, reference: Block, oldest: nat, d: nat, low: nat, after: nat)
    requires Naming(ids, reference, oldest, d, low, Num(reference) + after) && low <= Num(reference)
    requires low + (d - oldest) > Num(reference)
    ensures Synopsized(OutOfRange, reference, oldest, d, after)
  {
    hide Below, Num, At, Steps, Pow2;
    var high := Num(reference) + after;
    var steps := Steps(oldest, high, Num(reference));
    StepsFirst(low, high, Num(reference));
    assert steps[|ids|] == steps[|ids|..][0] == low;
    StepsOk(oldest, high, Num(reference));
    assert |ids| < |steps| - 1 ==> steps[|ids|] < steps[|steps| - 1];
  }

  lemma {:induction false} NamingDone(ids: seq<Block>, reference: Block, oldest: nat, d: nat, low: nat, after: nat)
    requires Naming(ids, reference, oldest, d, low, Num(reference) + after) && low > Num(reference)
    ensures Synopsized(Ids(ids), reference, oldest, d, after)
  {
    hide Below, Num, At, Steps, Pow2, Named, Naming;
    var high := Num(reference) + after;
    var steps := Steps(oldest, high, Num(reference));
    NamingOver(ids, reference, oldest, d, low, high);
    StepsFirst(oldest, high, Num(reference));
    NamedEnds(ids, reference, steps, d - oldest);
  }

  /** Past the reference point every number has been named. */
  lemma {:induction false} NamingOver(ids: seq<Block>, reference: Block, oldest: nat, d: nat, low: nat, high: nat)
    requires Naming(ids, reference, oldest, d, low, high) && low > Num(reference)
    ensures 1 <= oldest <= d <= Num(reference) <= high
    ensures var steps := Steps(oldest, high, Num(reference));
            |ids| == |steps| && Named(ids, reference, steps, d - oldest)
  {
    hide Below, Num, At, Steps, Named;
    var steps := Steps(oldest, high, Num(reference));
    StepsFirst(low, high, Num(reference));
    NamedFew(ids, reference, steps, d - oldest);
    NothingLeft(steps, |ids|);
  }

  lemma NothingLeft(s: seq<nat>, n: nat)
    requires n <= |s| && s[n..] == []
    ensures n == |s|
  {
    assert |s[n..]| == |s| - n;
  }

  method Summarize(db: ForkDb, reference: Block, oldest: nat, after: nat) returns (r: Synopsis, ghost d: nat)
    requires db.Valid() && reference in db.index && 1 <= oldest <= Num(reference) && Floor(db.index, oldest)
    ensures Reaches(db.index, reference, d) && Synopsized(r, reference, oldest, d, after)
    ensures (r.Ids? && Summarizes(r.ids, reference, oldest, after)) <==> Linked(db.index, reference, oldest)
  {
    hide Num, Below, At, Linked, Floor, Summarizes, InNumberOrder, NoDuplicates, AllReal, Naming, Synopsized, Steps;
    var onFork;
    onFork, d := AncestorsHeld(db, reference);
    LowestHeld(db.index, reference, oldest, d);
    var high := Num(reference) + after;
    var low := oldest;
    var synopsis := [];
    NamingNone(reference, oldest, d, high);
    while low <= Num(reference)
      invariant oldest <= low && Naming(synopsis, reference, oldest, d, low, high)
      decreases Num(reference) + 1 - low
    {
      if low - oldest + 1 > |onFork| {
        NamingFails(synopsis, reference, oldest, d, low, after);
        WholeSynopsis(db.index, OutOfRange, reference, oldest, d, after);
        return OutOfRange, d;
      }
      var block := onFork[|onFork| - (low - oldest) - 1];
      NamingStep(synopsis, reference, oldest, d, low, high, block);
      synopsis := synopsis + [block];
      low := low + (high - low + 2) / 2;
    }
    NamingDone(synopsis, reference, oldest, d, low, after);
    r := Ids(synopsis);
    WholeSynopsis(db.index, r, reference, oldest, d, after);
  }

  lemma {:induction false} NamingNone(reference: Block, oldest: nat, d: nat, high: nat)
    requires 1 <= oldest <= d <= Num(reference) <= high
    ensures Naming([], reference, oldest, d, oldest, high)
  {
  }

  lemma LowestHeld(index: seq<Block>, reference: Block, oldest: nat, d: nat)
    requires Reaches(index, reference, d) && Floor(index, oldest)
    ensures oldest <= d
  {
    assert At(reference, d) in index;
  }

  /**
   * What a peer is told of our chain up to a reference point, our head when none is given. A point
   * older than everything held is acknowledged exactly when the log has it. Where the chain of
   * the point is held back to the oldest block, and only there, the synopsis starts with that
   * block, ascends, has logarithmic length, and ends in the point when nothing is to follow it.
   */
  method GetSynopsis(db: ForkDb, log: seq<Block>, point: Block, after: nat) returns (r: Synopsis, ghost d: nat)
    requires db.Valid()
    ensures db.head.None? ==> r == Ids([])
    ensures db.head.Some? ==>
              var reference := if point == Genesis then db.head.value else point;
              var n, oldest := Num(reference), Num(db.index[0]);
              if n < oldest
              then r == if 1 <= n <= |log| && log[n - 1] == reference then Ids([reference]) else NoSynopsis
              else if reference !in db.index then r == NoSynopsis
              else && Reaches(db.index, reference, d) && Synopsized(r, reference, oldest, d, after)
                   && ((r.Ids? && Summarizes(r.ids, reference, oldest, after)) <==>
                         Linked(db.index, reference, oldest))
    ensures Serving(db, log) ==>
              var reference := if point == Genesis then db.head.value else point;
              && Num(db.index[0]) == |log|
              && (Num(reference) < |log| ==> r == if Below(reference, db.head.value) then Ids([reference])
                                                  else NoSynopsis)
  {
    hide Num, Below, At, Linked, Floor, Summarizes, Synopsized, Reaches, Serves, NoDuplicates;
    d := 0;
    if db.head.None? {
      return Ids([]), 0;
    }
    var h := db.head.value;
    var oldest := Num(db.index[0]);
    OldestFloor(db.index);
    var reference := if point == Genesis then h else point;
    if Serving(db, log) {
      OldestIs(db.index, h, log);
      if Num(reference) < |log| {
        AcknowledgedIs(db.index, h, log, reference);
      }
    }
    if Num(reference) < oldest {
      PositiveIsReal(reference);
      var read := LogBlock(log, Num(reference));
      return if read == Some(reference) then Ids([reference]) else NoSynopsis, 0;
    }
    if reference !in db.index {
      return NoSynopsis, 0;
    }
    r, d := Summarize(db, reference, oldest, after);
  }

  lemma OldestFloor(index: seq<Block>)
    requires AllReal(index) && InNumberOrder(index) && index != []
    ensures Num(index[0]) >= 1 && Floor(index, Num(index[0]))
  {
    forall x | x in index ensures Num(x) >= Num(index[0]) {
      var i :| 0 <= i < |index| && index[i] == x;
    }
  }

  lemma {:induction false} AcknowledgedIs(index: seq<Block>, h: Block, log: seq<Block>, reference: Block)
    requires Serves(index, h, log) && Num(reference) < |log| && reference != Genesis
    ensures 1 <= Num(reference) && (log[Num(reference) - 1] == reference <==> Below(reference, h))
  {
    OnChain(h, reference);
    LogAt(index, h, log, Num(reference));
  }

  lemma PowZero()
    ensures Pow2(0) == 1
  {
  }

  /** A chain of three blocks, and another first block. */
  ghost predicate Stray(first: Block, second: Block, base: Block, stray: Block) {
    && first.Block? && first.prev == Genesis && second.Block? && second.prev == first
    && base.Block? && base.prev == second && stray.Block? && stray.prev == Genesis && stray != first
  }

  lemma {:induction false} StrayNumbers(first: Block, second: Block, base: Block, stray: Block)
    requires Stray(first, second, base, stray)
    ensures Num(Genesis) == 0 && Num(first) == 1 && Num(second) == 2 && Num(base) == 3 && Num(stray) == 1
    ensures At(base, 2) == second && Numbered([first, second, base])
  {
    assert Num(first) == 1;
    assert Num(second) == 2;
  }

  lemma StraySteps()
    ensures Steps(1, 3, 3) == [1, 3]
  {
    assert Steps(4, 3, 3) == [];
    assert Steps(3, 3, 3) == [3] + Steps(4, 3, 3);
    assert Steps(1, 3, 3) == [1] + Steps(3, 3, 3);
  }

  /** What is held when a node at block 3 has been given another block 1. */
  lemma StrayHeld(index: seq<Block>, first: Block, second: Block, base: Block, stray: Block)
    requires Stray(first, second, base, stray)
    requires InNumberOrder(index) && stray in index && base in index && forall x :: x in index ==> x in {base, stray}
    ensures index != [] && Num(index[0]) == 1 && Gone(index, base, 1, 2, 2)
    ensures forall d: nat :: Reaches(index, base, d) ==> d == 3
  {
    StrayNumbers(first, second, base, stray);
    hide Num, At, Below, Stray;
    var k :| 0 <= k < |index| && index[k] == stray;
    assert index[0] in index;
    assert forall x :: x in index ==> Num(x) != 2;
    NoneNumbered(index, 2);
    forall d: nat | Reaches(index, base, d) ensures d == 3 {
      ReachesTop(index, base, d);
    }
  }

  lemma {:induction false} ReachesTop(index: seq<Block>, b: Block, d: nat)
    requires Reaches(index, b, d) && Num(b) >= 1 && At(b, Num(b) - 1) !in index
    ensures d == Num(b)
  {
    LinkedFrom(index, b, d, Num(b) - 1);
  }

  lemma {:induction false} LinkedFrom(index: seq<Block>, b: Block, d: nat, n: nat)
    requires Linked(index, b, d) && n <= Num(b)
    ensures d <= n ==> At(b, n) in index
  {
  }

  /**
   * A node at block 3 is given another block 1, which is then the oldest block held. Asked for the
   * first two blocks it goes down, block 2 being held nowhere above it; and its own synopsis reads
   * past the end.
   */
  method StrayAnswers(first: Block, second: Block, base: Block, stray: Block)
    returns (answer: Answer, synopsis: Synopsis)
    requires Stray(first, second, base, stray)
    ensures answer == Down && synopsis == OutOfRange
  {
    hide Gone, Reaches, Steps, Numbered, Linked, Included, Num, At, Below, Filled, NoDuplicates, Kept, Gathered,
         Summarizes, Named, AnyGone;
    StrayNumbers(first, second, base, stray);
    StraySteps();
    var db := new ForkDb(base, DEFAULT_MAX_SIZE);
    var outcome := db.PushBlock(stray);
    assert outcome == Accepted && db.head == Some(base);
    StrayHeld(db.index, first, second, base, stray);
    AnyGoneHere(db.index, base);
    ghost var shared, from, until, d;
    answer, shared, from, until := GetBlockIds(db, [first, second, base], [], 2);
    synopsis, d := GetSynopsis(db, [first, second, base], Genesis, 0);
  }

  lemma AnyGoneHere(index: seq<Block>, h: Block)
    requires Gone(index, h, 1, 2, 2)
    ensures AnyGone(index, h, 1, 2)
  {
  }
}
