// Fork choice: pushing blocks, switching forks, advancing the irreversible
// block and persisting what has become irreversible.

module BlockWriter {
  import opened Common
  import opened Chain
  import opened ForkDatabase
  import opened Irreversibility

  datatype PushResult = Refused | Ignored | Applied | Rejected | Forked(outcome: Switch) | Crashed
  datatype Switch = Switched | Reverted | Stayed | Aborted | Broken

  /** What made the last persisted block irreversible. */
  datatype Ground = Start | Early(head: Block) | Majority(at: Block, votes: Votes)

  /** Votes that were cast: blocks heard of from their producers, and confirmations heard of from their witnesses. */
  ghost predicate Genuine(v: Votes, heard: set<Block>, confirmed: set<(nat, Block)>) {
    && (forall w: nat :: w in v.produced ==> v.produced[w] in heard && v.produced[w].Block? &&
                                             v.produced[w].producer == w)
    && (forall w: nat :: w in v.fast ==> (w, v.fast[w]) in confirmed)
  }

  /** The node knows nothing but what it has heard. */
  ghost predicate KnownFrom(index: seq<Block>, unlinked: set<Block>, fast: map<nat, Block>, heard: set<Block>,
                            confirmed: set<(nat, Block)>) {
    && (forall x :: x in index ==> x in heard) && unlinked <= heard
    && (forall w: nat :: w in fast ==> (w, fast[w]) in confirmed)
  }

  lemma KnownLess(index: seq<Block>, unlinked: set<Block>, fast: map<nat, Block>, index': seq<Block>,
                  unlinked': set<Block>, fast': map<nat, Block>,
                  heard: set<Block>, confirmed: set<(nat, Block)>, lib: nat)
    requires KnownFrom(index, unlinked, fast, heard, confirmed) && Overtaken(fast, fast', lib)
    requires unlinked' <= unlinked && forall x :: x in index' ==> x in index
    ensures KnownFrom(index', unlinked', fast', heard, confirmed)
  {
  }

  lemma KnownMore(index: seq<Block>, unlinked: set<Block>, index': seq<Block>, unlinked': set<Block>, fast: map<nat,
                  Block>,
                  heard: set<Block>, confirmed: set<(nat, Block)>, b: Block)
    requires KnownFrom(index, unlinked, fast, heard, confirmed) && unlinked' <= unlinked + {b}
    requires forall x :: x in index' ==> x in index || x in unlinked + {b}
    ensures KnownFrom(index', unlinked', fast, heard + {b}, confirmed)
  {
  }

  lemma KnownConfirmed(index: seq<Block>, unlinked: set<Block>, fast: map<nat, Block>, heard: set<Block>,
                       confirmed: set<(nat, Block)>, w: nat, b: Block)
    requires KnownFrom(index, unlinked, fast, heard, confirmed)
    ensures KnownFrom(index, unlinked, fast, heard, confirmed + {(w, b)})
    ensures KnownFrom(index, unlinked, fast[w := b], heard, confirmed + {(w, b)})
  {
  }

  lemma {:induction false} VotesGenuine(index: seq<Block>, unlinked: set<Block>, fast: map<nat, Block>,
                                        heard: set<Block>, confirmed: set<(nat, Block)>, scheduled: seq<nat>)
    requires KnownFrom(index, unlinked, fast, heard, confirmed) && InNumberOrder(index)
    ensures Genuine(Votes(scheduled, fast, LatestOf(index)), heard, confirmed)
  {
    LatestIsHighest(index);
  }

  /** A head above the irreversible block is one that was heard of and that applied. */
  lemma {:induction false} KnownHead(index: seq<Block>, unlinked: set<Block>, fast: map<nat, Block>, heard: set<Block>,
                                     confirmed: set<(nat, Block)>, head: Block, lib: nat, log: seq<Block>,
                                     valid: Block -> bool)
    requires KnownFrom(index, unlinked, fast, heard, confirmed) && Anchored(index, head, lib, log, valid)
    ensures head in heard && (lib < Num(head) ==> valid(head))
  {
    LinkedHere(index, head, lib, Num(head));
    assert valid(At(head, Num(head))) || lib == Num(head);
  }

  /**
   * The chain ending in `head`, with its first `lib` blocks irreversible: those are persisted in
   * `log`, and the rest together with block `lib` is linked in the fork database and applies.
   */
  ghost predicate Anchored(index: seq<Block>, head: Block, lib: nat, log: seq<Block>, valid: Block -> bool) {
    && 1 <= lib <= Num(head)
    && log == History(head)[..lib]
    && Linked(index, head, lib)
    && Applies(head, lib, valid)
  }

  ghost predicate Applies(head: Block, lib: nat, valid: Block -> bool) {
    forall m: nat {:trigger At(head, m)} :: lib < m <= Num(head) ==> valid(At(head, m))
  }

  lemma {:induction false} LinkedHere(index: seq<Block>, head: Block, lib: nat, m: nat)
    requires Linked(index, head, lib) && lib <= m <= Num(head)
    ensures At(head, m) in index && Linked(index, head, m)
  {
    assert At(head, m) in index;
  }

  lemma {:induction false} AnchoredLib(index: seq<Block>, head: Block, lib: nat, log: seq<Block>, valid: Block -> bool)
    requires Anchored(index, head, lib, log, valid)
    ensures 1 <= lib <= Num(head) && |log| == lib && head in index
  {
    LinkedHere(index, head, lib, Num(head));
  }

  lemma {:induction false} AnchoredPop(index: seq<Block>, head: Block, lib: nat, log: seq<Block>, valid: Block -> bool)
    requires Anchored(index, head, lib, log, valid) && Num(head) > lib
    ensures head.Block?
    ensures Anchored(index, head.prev, lib, log, valid) && head.prev in index
  {
    var p := head.prev;
    assert History(head)[..lib] == History(p)[..lib];
    forall m: nat | lib <= m <= Num(p) ensures At(p, m) in index && (m > lib ==> valid(At(p, m))) {
      assert At(head, m) == At(p, m);
    }
    assert At(p, Num(p)) == p;
  }

  lemma AnchoredPush(index: seq<Block>, b: Block, lib: nat, log: seq<Block>, valid: Block -> bool)
    requires b.Block? && Anchored(index, b.prev, lib, log, valid) && b in index && valid(b)
    ensures Anchored(index, b, lib, log, valid)
  {
    var p := b.prev;
    assert History(b)[..lib] == History(p)[..lib];
    forall m: nat | lib <= m <= Num(b) ensures At(b, m) in index && (m > lib ==> valid(At(b, m))) {
      if m < Num(b) {
        assert At(b, m) == At(p, m);
      }
    }
  }

  lemma {:induction false} AnchoredRaise(index: seq<Block>, index': seq<Block>, head: Block, lib: nat, lib': nat,
                                         log: seq<Block>, log': seq<Block>, valid: Block -> bool)
    requires Anchored(index, head, lib, log, valid) && lib <= lib' <= Num(head) && log' == History(head)[..lib']
    requires forall x :: x in index && Num(x) >= lib' ==> x in index'
    ensures Anchored(index', head, lib', log', valid) && log <= log'
  {
    forall m: nat | lib' <= m <= Num(head) ensures At(head, m) in index' && (m > lib' ==> valid(At(head, m))) {
      assert At(head, m) in index;
    }
  }

  /** Blocks off the chain can leave the index. */
  lemma {:induction false} AnchoredForget(index: seq<Block>, index': seq<Block>, head: Block, lib: nat, log: seq<Block>,
                                          valid: Block -> bool)
    requires Anchored(index, head, lib, log, valid)
    requires forall x :: x in index && x !in index' ==> !Below(x, head)
    ensures Anchored(index', head, lib, log, valid)
  {
    forall m: nat | lib <= m <= Num(head) ensures At(head, m) in index' {
      assert At(head, m) in index && Below(At(head, m), head);
    }
  }

  lemma {:induction false} PositiveIsReal(b: Block)
    ensures Num(b) >= 1 <==> b.Block?
  {
  }

  lemma {:induction false} LinkedMore(index: seq<Block>, d: Block, dh: Block)
    requires Below(dh, d) && dh.Block? && Linked(index, d, Num(dh)) && dh.prev in index
    ensures Linked(index, d, Num(dh.prev))
  {
    PrevBelow(dh);
    BelowTransitive(dh.prev, dh, d);
    AtUnique(dh.prev, d);
  }

  /** A missing block below `dh` is a gap in every stretch of `d` that passes it. */
  lemma {:induction false} Gap(index: seq<Block>, d: Block, dh: Block, k: nat)
    requires Below(dh, d) && dh.Block? && dh.prev !in index && k < Num(dh)
    ensures k <= Num(d) && !Linked(index, d, k)
  {
    PrevBelow(dh);
    BelowTransitive(dh.prev, dh, d);
    AtUnique(dh.prev, d);
    assert At(d, Num(dh.prev)) !in index;
  }

  /** Popping from `h`, with the fork database at `d`, has reached `head` and `dh`. */
  ghost predicate Popping(index: seq<Block>, h: Block, d: Block, head: Block, dh: Block, lib: nat, end: Block) {
    && Below(head, h) && Below(dh, d) && Num(head) >= lib && Linked(index, d, Num(dh))
    && (Num(d) - Num(dh) == Num(h) - Num(head) || (Num(head) == lib && head != end))
    && (lib <= Num(end) && Below(end, h) ==> Below(end, head) && Num(d) - Num(dh) == Num(h) - Num(head))
  }

  lemma {:induction false} PoppingNone(index: seq<Block>, h: Block, d: Block, lib: nat, end: Block)
    requires Num(h) >= lib && d in index
    ensures Popping(index, h, d, h, d, lib, end)
  {
    BelowRefl(h);
    BelowRefl(d);
  }

  lemma {:induction false} PoppingStep(index: seq<Block>, h: Block, d: Block, head: Block, dh: Block, lib: nat,
                                       end: Block)
    requires Popping(index, h, d, head, dh, lib, end) && head != end && dh.Block? && Num(head) >= lib >= 1
    requires dh.prev in index
    ensures Popping(index, h, d, if Num(head) > lib then head.prev else head, dh.prev, lib, end)
  {
    hide Num, At, Linked;
    PrevBelow(dh);
    BelowTransitive(dh.prev, dh, d);
    LinkedMore(index, d, dh);
    PositiveIsReal(head);
    if lib <= Num(end) && Below(end, h) {
      BelowNum(end, head);
    }
    if Num(head) > lib {
      PrevBelow(head);
      BelowTransitive(head.prev, head, h);
    }
  }

  ghost predicate AlignedWith(dh: Block, head: Block, lib: nat) {
    dh == head || Num(dh) > Num(head) || Num(head) == lib
  }

  lemma PoppingAligned(index: seq<Block>, h: Block, d: Block, head: Block, dh: Block, lib: nat, end: Block)
    requires Popping(index, h, d, head, dh, lib, end) && AlignedWith(d, h, lib)
    ensures AlignedWith(dh, head, lib)
  {
    BelowNum(head, h);
    if d == h {
      AtUnique(head, h);
      AtUnique(dh, h);
    }
  }

  /** The target is reversible, and the fork database reaches as far down as the state has to go. */
  ghost predicate CanPop(index: seq<Block>, h: Block, d: Block, lib: nat, end: Block) {
    && lib <= Num(end) <= Num(h) && Below(end, h) && Num(h) - Num(end) <= Num(d)
    && Linked(index, d, Num(d) - (Num(h) - Num(end)))
  }

  lemma {:induction false} PoppingStuck(index: seq<Block>, h: Block, d: Block, head: Block, dh: Block, lib: nat,
                                        end: Block)
    requires Popping(index, h, d, head, dh, lib, end) && head != end && dh.Block? && dh.prev !in index
    ensures !CanPop(index, h, d, lib, end) && Below(head, h) && Num(head) >= lib
  {
    if lib <= Num(end) && Below(end, h) {
      BelowNum(end, head);
      if Num(h) - Num(end) <= Num(d) {
        Gap(index, d, dh, Num(d) - (Num(h) - Num(end)));
      }
    }
  }

  lemma {:induction false} PoppingDone(index: seq<Block>, h: Block, d: Block, head: Block, dh: Block, lib: nat)
    requires Popping(index, h, d, head, dh, lib, head)
    ensures CanPop(index, h, d, lib, head) && dh == At(d, Num(d) - (Num(h) - Num(head)))
    ensures Below(head, h) && Num(head) >= lib
  {
    hide Num, At, Below, Linked;
    BelowNum(head, h);
    AtUnique(dh, d);
  }

  lemma {:induction false} PoppingNothing(index: seq<Block>, h: Block, d: Block, lib: nat)
    requires lib <= Num(h) && d in index
    ensures CanPop(index, h, d, lib, h)
  {
    BelowRefl(h);
  }

  /** A switch from `h`, with the fork database at `d`, can be carried out: what it takes to get to the fork point. */
  ghost predicate CanSwitch(index: seq<Block>, newHead: Block, h: Block, d: Block, lib: nat) {
    && newHead in index && BranchesHeld(index, newHead, h) && !Below(newHead, h)
    && CanPop(index, h, d, lib, Fork(newHead, h))
  }

  /** A switch back to a block of the chain itself, which leaves the process without a branch to follow. */
  ghost predicate BreaksOn(index: seq<Block>, newHead: Block, h: Block) {
    newHead in index && BranchesHeld(index, newHead, h) && Below(newHead, h)
  }

  lemma {:induction false} ForkIsSelf(a: Block, b: Block)
    ensures Fork(a, b) == a <==> Below(a, b)
    ensures Path(a, Fork(a, b)) == [] <==> Below(a, b)
  {
    if Below(a, b) {
      BelowRefl(a);
      ForkIsMostRecent(a, b, a);
      BelowNum(a, Fork(a, b));
      BelowNum(Fork(a, b), a);
    }
    PathLast(a, Fork(a, b));
  }

  /** Some blocks below number `lib`, and no others, have left the index. */
  ghost predicate Trimmed(i0: seq<Block>, i1: seq<Block>, lib: nat) {
    (forall x :: x in i1 ==> x in i0) && (forall x :: x in i0 && Num(x) >= lib ==> x in i1)
  }

  ghost predicate Floor(index: seq<Block>, lib: nat) {
    forall x :: x in index ==> Num(x) >= lib
  }

  /** Linking blocks keeps to what is not below `lib`, unless one without predecessor comes in. */
  lemma FloorGrows(i0: seq<Block>, h0: Option<Block>, i1: seq<Block>, h1: Option<Block>, aside: set<Block>, b: Block,
                   lib: nat)
    requires Grown(i0, h0, i1, h1, aside + {b}) && h0.Some? && Floor(i0, lib) &&
             (forall x :: x in aside ==> x.Block? && x.prev != Genesis)
    requires b.Block?
    ensures !(b.prev == Genesis && b in i1 && lib > 1) ==> Floor(i1, lib)
    ensures b.prev == Genesis && b in i1 && lib > 1 ==> !Floor(i1, lib)
  {
    assert b.prev == Genesis ==> Num(b) == 1;
    if !(b.prev == Genesis && b in i1 && lib > 1) {
      forall x | x in i1 ensures Num(x) >= lib {
        NotBelow(i0, h0, i1, h1, aside, b, lib, x);
      }
    }
  }

  lemma {:induction false} FirstIsOne(b: Block)
    requires b.Block?
    ensures b.prev == Genesis <==> Num(b) == 1
  {
  }

  lemma {:induction false} NotBelow(i0: seq<Block>, h0: Option<Block>, i1: seq<Block>, h1: Option<Block>,
                                    aside: set<Block>, b: Block, lib: nat, x: Block)
    requires Grown(i0, h0, i1, h1, aside + {b}) && h0.Some? && Floor(i0, lib) &&
             (forall y :: y in aside ==> y.Block? && y.prev != Genesis)
    requires b.Block? && !(b.prev == Genesis && b in i1 && lib > 1) && x in i1
    ensures Num(x) >= lib
    decreases x
  {
    if x !in i0 && x.prev != Genesis {
      NotBelow(i0, h0, i1, h1, aside, b, lib, x.prev);
    }
  }

  lemma TrimmedSame(index: seq<Block>, lib: nat)
    ensures Trimmed(index, index, lib)
  {
  }

  lemma TrimmedTransitive(i0: seq<Block>, i1: seq<Block>, i2: seq<Block>, l1: nat, l2: nat)
    requires Trimmed(i0, i1, l1) && Trimmed(i1, i2, l2) && l1 <= l2
    ensures Trimmed(i0, i2, l2)
  {
  }

  /** Of the confirmations, only some at or below number `lib` have been forgotten. */
  ghost predicate Overtaken(f0: map<nat, Block>, f1: map<nat, Block>, lib: nat) {
    (forall w: nat :: w in f1 ==> w in f0 && f1[w] == f0[w]) &&
    (forall w: nat :: w in f0 && Num(f0[w]) > lib ==> w in f1)
  }

  lemma OvertakenNone(f: map<nat, Block>, lib: nat)
    ensures Overtaken(f, f, lib)
  {
  }

  lemma OvertakenTransitive(f0: map<nat, Block>, f1: map<nat, Block>, f2: map<nat, Block>, l1: nat, l2: nat)
    requires Overtaken(f0, f1, l1) && Overtaken(f1, f2, l2) && l1 <= l2
    ensures Overtaken(f0, f2, l2)
  {
  }

  /** The fork ending in `h` has the votes to make `x` irreversible. */
  ghost predicate Elects(index: seq<Block>, v: Votes, required: int, lib: nat, h: Block, x: Block) {
    h in index && IsTip(index, h) && Confirmed(index, v, required, lib, h, x)
  }

  /** Block `x` is the highest one that some fork has the votes for. */
  ghost predicate Topmost(index: seq<Block>, v: Votes, required: int, lib: nat, h: Block, x: Block) {
    && Elects(index, v, required, lib, h, x)
    && (forall y :: Elects(index, v, required, lib, h, y) ==> Num(y) <= Num(x))
    && (forall k, y :: Elects(index, v, required, lib, k, y) && Num(k) > Num(h) ==> Num(y) <= Num(x))
  }

  lemma ForemostIsTopmost(index: seq<Block>, tips: seq<Block>, v: Votes, required: int, lib: nat, h: Block, x: Block)
    requires Foremost(index, tips, v, required, lib, h, x) && Elects(index, v, required, lib, h, x)
    requires forall y :: y in tips <==> y in index && IsTip(index, y)
    ensures Topmost(index, v, required, lib, h, x)
  {
    hide Confirmed, Num, IsTip;
    forall k, y | Elects(index, v, required, lib, k, y) && Num(k) > Num(h) ensures Num(y) <= Num(x) {
      assert k in tips;
    }
  }

  /** Some block has the votes to become irreversible, and every block that has lies on the chain. */
  ghost predicate Ripe(index: seq<Block>, v: Votes, required: int, lib: nat, head: Block) {
    && (exists h, x :: Elects(index, v, required, lib, h, x))
    && (forall h, x :: Elects(index, v, required, lib, h, x) ==> Below(x, head))
  }

  lemma {:induction false} NotRipe(index: seq<Block>, v: Votes, required: int, head: Block)
    ensures !Ripe(index, v, required, Num(head), head)
  {
    forall h, x | Elects(index, v, required, Num(head), h, x) ensures !Below(x, head) {
      if Below(x, head) {
        BelowNum(x, head);
      }
    }
  }

  lemma {:induction false} StartAnchored(base: Block, valid: Block -> bool)
    requires base.Block?
    ensures Anchored([base], base, Num(base), History(base), valid)
    ensures History(base) != [] && History(base)[|History(base)| - 1] == base
  {
    assert History(base)[..Num(base)] == History(base);
    HistoryAt(base, Num(base));
  }

  /** The blocks of a chain, block 1 first. */
  method Chronicle(base: Block) returns (chain: seq<Block>)
    ensures chain == History(base)
  {
    var b := base;
    chain := [];
    while b.Block?
      invariant History(base) == History(b) + chain
      decreases b
    {
      chain := [b] + chain;
      b := b.prev;
    }
    assert History(b) + chain == chain;
  }

  /** What there is to see of a node at one moment. */
  datatype Record = Record(head: Block, lib: nat, log: seq<Block>, fast: map<nat, Block>, halted: bool,
                           index: seq<Block>, top: Option<Block>, unlinked: set<Block>, maxSize: nat)

  /**
   * How a switch to `newHead` ends, and when it ends that way: it breaks the process, it is given
   * up before anything is applied, it succeeds, or a block of the new branch does not apply.
   */
  ghost predicate Switching(valid: Block -> bool, newHead: Block, s: Record, s': Record, r: Switch, n: nat, low: nat) {
    && s.top.Some?
    && (r == Broken <==> BreaksOn(s.index, newHead, s.head))
    && (r in {Switched, Reverted, Stayed} <==> CanSwitch(s.index, newHead, s.head, s.top.value, s.lib))
    && (r in {Broken, Aborted} ==>
          s'.lib == s.lib && s'.log == s.log && s'.index == s.index && Below(s'.head, s.head))
    && (r == Broken ==> s'.head == s.head)
    && (r == Switched ==> s'.head == newHead && s'.top == Some(newHead) &&
                          forall x :: x in Path(newHead, Fork(newHead, s.head)) ==> valid(x))
    && (r in {Reverted, Stayed} ==> Failing(valid, newHead, s, s', r == Reverted, n, low))
  }

  /**
   * Block `n` of the new branch does not apply, and it and everything above it is dropped, when
   * number `low` is the irreversible one. The state goes back to exactly where it was, unless the
   * fork point has become irreversible or the new branch is no shorter even so.
   */
  ghost predicate Failing(valid: Block -> bool, newHead: Block, s: Record, s': Record, back: bool, n: nat, low: nat) {
    var c := Fork(newHead, s.head);
    var run := Reversed(Path(newHead, c));
    && n < |run| && (forall i: nat :: i < n ==> valid(run[i])) && !valid(run[n])
    && Dropped(s.index, s'.index, run[n..], s'.lib) && s'.top == Some(s'.head) && s.lib <= low <= s'.lib
    && s'.head == (if back then s.head else Tip(c, run, n))
    && (back ==> Num(Tip(c, run, n)) < Num(s.head) && low <= Num(c) && (Floor(s.index, s.lib) ==> low < Num(c)))
    && (!back ==> s'.lib == low && (Num(c) <= low || Num(s.head) <= Num(s'.head)))
  }

  ghost function FirstRecord(base: Block, maxSize: nat): Record {
    Record(base, Num(base), History(base), map[], false, [base], Some(base), {}, maxSize)
  }

  /** A turn to another fork after a confirmation: where to and for which block's votes, and what came of it. */
  datatype Turn = Turn(to: Block, elected: Block, outcome: Switch, applied: nat, low: nat, after: Record)

  /** The best block once a block has been put into the fork database, what it then holds, and what came of it. */
  datatype Course = Course(best: Block, held: seq<Block>, applied: nat, low: nat)

  /**
   * What becomes of a block that arrives, and when: it is refused, it makes no difference, the
   * process goes down for a link missing on the way to the best block, or the state advances.
   */
  ghost predicate Pushing(valid: Block -> bool, b: Block, s: Record, s': Record, r: PushResult, c: Course)
    requires b.Block?
  {
    && s.top.Some? && Grown(s.index, s.top, c.held, Some(c.best), s.unlinked + {b})
    && (r == Refused <==> Num(b) <= HorizonOf(s.top, s.maxSize) || (b.prev != Genesis && b.prev !in s.index))
    && (if r == Refused then c.held == s.index && Some(c.best) == s.top else b in c.held)
    && (r == Refused ==> s'.unlinked == s.unlinked + if Num(b) <= HorizonOf(s.top, s.maxSize) then {} else {b})
    && Gathered(s.unlinked, c.held, HorizonOf(Some(c.best), s.maxSize)) && c.best in c.held
    && (r == Ignored <==> r != Refused && Num(c.best) <= Num(s.head))
    && (r in {Refused, Ignored, Crashed} ==>
          s' == s.(index := c.held, top := Some(c.best), unlinked := s'.unlinked, halted := r == Crashed))
    && (r !in {Refused, Ignored} ==>
          Advancing(valid, c.best, s.(index := c.held, top := Some(c.best)), s', r, c.applied, c.low))
    && (s'.halted <==> r == Crashed)
  }

  /** Putting a block into the fork database: it may be too old, or not link. */
  ghost predicate Admitting(b: Block, s: Record, s': Record, accepted: bool)
    requires b.Block?
  {
    && s.top.Some? && s'.top.Some? && Grown(s.index, s.top, s'.index, s'.top, s.unlinked + {b})
    && (!accepted <==> Num(b) <= HorizonOf(s.top, s.maxSize) || (b.prev != Genesis && b.prev !in s.index))
    && (if accepted then b in s'.index else s'.index == s.index && s'.top == s.top)
    && (!accepted ==> s'.unlinked == s.unlinked + if Num(b) <= HorizonOf(s.top, s.maxSize) then {} else {b})
    && Gathered(s.unlinked, s'.index, HorizonOf(s'.top, s.maxSize)) && s'.top.value in s'.index
    && s' == s.(index := s'.index, top := s'.top, unlinked := s'.unlinked)
  }

  lemma PushingStops(valid: Block -> bool, b: Block, s: Record, mid: Record, accepted: bool)
    requires b.Block? && Admitting(b, s, mid, accepted) && (accepted ==> Num(mid.top.value) <= Num(s.head)) && !s.halted
    ensures Pushing(valid, b, s, mid, if accepted then Ignored else Refused,
                    Course(mid.top.value, mid.index, 0, s.lib))
  {
  }

  lemma PushingGoesOn(valid: Block -> bool, b: Block, s: Record, mid: Record, s': Record, r: PushResult, n: nat,
                      low: nat)
    requires b.Block? && Admitting(b, s, mid, true) && Num(mid.top.value) > Num(s.head)
    requires Advancing(valid, mid.top.value, mid, s', r, n, low) && (s'.halted <==> r == Crashed)
    requires r == Crashed ==> s' == mid.(halted := true)
    ensures Pushing(valid, b, s, s', r, Course(mid.top.value, mid.index, n, low)) && r !in {Refused, Ignored}
  {
    hide Linked, Fork, Path, Num, Below;
  }

  /**
   * How the state gets to a best block higher than its head: not at all when a link is missing on
   * the way down to the height of the head; otherwise by applying what lies between, when the
   * block builds on the head, and by a fork switch when it does not. The switch is given up
   * exactly when the fork point is below the irreversible block or not reached by links.
   */
  ghost predicate Advancing(valid: Block -> bool, newHead: Block, s: Record, s': Record, r: PushResult, n: nat,
                            low: nat) {
    var ahead := Linked(s.index, newHead, Num(s.head));
    && (r == Crashed <==> !ahead)
    && (r in {Applied, Rejected} <==> ahead && Below(s.head, newHead))
    && (r.Forked? <==> ahead && !Below(s.head, newHead))
    && (r in {Applied, Rejected} ==> Following(valid, newHead, s, s', r == Applied, n))
    && (r.Forked? ==>
          var c := Fork(newHead, s.head);
          && Switching(valid, newHead, s, s', r.outcome, n, low) && r != Forked(Broken)
          && (r == Forked(Aborted) <==> !(s.lib <= Num(c) && Linked(s.index, newHead, Num(c)))))
  }

  /** The blocks on the way to `newHead` are applied up to the first that fails; from there on they are dropped. */
  ghost predicate Following(valid: Block -> bool, newHead: Block, s: Record, s': Record, ok: bool, n: nat)
    requires Below(s.head, newHead)
  {
    var run := Reversed(Path(newHead, s.head));
    && n <= |run| && (ok <==> n == |run|) && (forall i: nat :: i < n ==> valid(run[i])) && (!ok ==> !valid(run[n]))
    && Dropped(s.index, s'.index, run[n..], s'.lib) && s'.head == Tip(s.head, run, n) && s'.top == Some(s'.head)
  }

  class Node {
    const db: ForkDb
    const valid: Block -> bool            // whether a block applies on top of its own history
    const schedule: Block -> seq<nat>     // the witnesses whose votes count, by head block
    const threshold: nat                  // HIVE_IRREVERSIBLE_THRESHOLD
    const votingStart: nat                // HIVE_START_MINER_VOTING_BLOCK
    const maxWitnesses: nat               // HIVE_MAX_WITNESSES
    var head: Block                       // the block the state is at
    var committed: nat                    // state at and below this block number can no longer be undone
    var lib: nat                          // last irreversible block number
    var log: seq<Block>                   // the block log, block 1 first
    var fast: map<nat, Block>             // fast confirmations by witness
    var halted: bool                      // the process is going down
    ghost const start: Block              // the block the node started from
    ghost var ground: Ground              // why the last block of the log is irreversible
    ghost var heard: set<Block>           // every block delivered so far, and the one started from
    ghost var confirmed: set<(nat, Block)>   // every confirmation delivered so far

    ghost predicate Configured()
      reads db
    {
      && db.Valid() && db.Aside({}) && db.head.Some?
      && ONE_HUNDRED_PERCENT / 2 < threshold <= ONE_HUNDRED_PERCENT
      && forall b: Block :: Distinct(schedule(b))
    }

    ghost predicate Valid()
      reads this, db
    {
      && Configured() && !halted
      && Anchored(db.index, head, lib, log, valid) && committed == lib
      && Aligned() && Grounded() && Known()
    }

    ghost predicate Known()
      reads this, db
    {
      KnownFrom(db.index, db.unlinked, fast, heard, confirmed)
    }

    /**
     * A block is irreversible because the node started from it, because in the early days it lay
     * a full round of witnesses behind the head, or because the required number of the witnesses
     * scheduled at the head stood behind it, by blocks and confirmations of theirs. The head was
     * in both cases a block that had been heard of and that applied.
     */
    ghost predicate Justified(x: Block, g: Ground, heard: set<Block>, confirmed: set<(nat, Block)>) {
      match g
      case Start => x == start
      case Early(h) =>
        && h in heard && valid(h)
        && Below(x, h) && Num(h) < votingStart && Num(x) + maxWitnesses == Num(h)
      case Majority(at, votes) =>
        && at in heard && valid(at)
        && votes.scheduled == schedule(at) && threshold <= ONE_HUNDRED_PERCENT
        && |Approvers(votes, x)| * ONE_HUNDRED_PERCENT >= threshold * |votes.scheduled|
        && Genuine(votes, heard, confirmed)
    }

    lemma JustifiedMore(x: Block, g: Ground, heard0: set<Block>, confirmed0: set<(nat, Block)>, heard1: set<Block>,
                        confirmed1: set<(nat, Block)>)
      requires Justified(x, g, heard0, confirmed0) && heard0 <= heard1 && confirmed0 <= confirmed1
      ensures Justified(x, g, heard1, confirmed1)
    {
    }

    lemma ValidSafe()
      requires Valid()
      ensures Safe()
    {
      AnchoredSafe(db.index, head, lib, log, valid);
    }

    lemma LogIsLib()
      requires Valid()
      ensures |log| == lib
    {
      AnchoredLib(db.index, head, lib, log, valid);
    }

    lemma SafeSound()
      requires Safe() && (!halted ==> Valid())
      ensures Sound(Now())
    {
      if !halted {
        LogIsLib();
      }
    }

    lemma SafeStands()
      requires Safe()
      ensures Stands(this, log, ground, heard, confirmed)
    {
      HistoryAt(head, |log|);
    }

    lemma Elected(x: Block, at: Block, v: Votes)
      requires v.scheduled == schedule(at) && threshold <= ONE_HUNDRED_PERCENT &&
               |Approvers(v, x)| >= Required(|v.scheduled|, threshold)
      requires Genuine(v, heard, confirmed) && at in heard && valid(at)
      ensures Justified(x, Majority(at, v), heard, confirmed)
    {
      RequiredIsLeast(|v.scheduled|, threshold, |Approvers(v, x)|);
    }

    function Now(): Record
      reads this, db
    {
      Record(head, lib, log, fast, halted, db.index, db.head, db.unlinked, db.maxSize)
    }

    ghost predicate Grounded()
      reads this
    {
      log != [] && Justified(log[|log| - 1], ground, heard, confirmed)
    }

    /** The fork database's head is the state's head, unless a fork switch was given up. */
    ghost predicate Aligned()
      reads this, db
    {
      db.head.Some? && AlignedWith(db.head.value, head, lib)
    }

    /** What holds even when the process is going down. */
    ghost predicate Safe()
      reads this
    {
      |log| <= lib <= Num(head) && log == History(head)[..|log|] && Grounded()
    }

    constructor (base: Block, valid: Block -> bool, schedule: Block -> seq<nat>, threshold: nat, votingStart: nat,
                 maxWitnesses: nat, maxSize: nat)
      requires base.Block? && ONE_HUNDRED_PERCENT / 2 < threshold <= ONE_HUNDRED_PERCENT
      requires forall b: Block :: Distinct(schedule(b))
      ensures Valid() && fresh(db) && head == base && lib == Num(base) && log == History(base) && fast == map[]
      ensures start == base && heard == {base} && confirmed == {} && ground == Start && Floor(db.index, lib)
      ensures Now() == FirstRecord(base, maxSize)
      ensures this.valid == valid && this.schedule == schedule && this.threshold == threshold &&
              this.votingStart == votingStart && this.maxWitnesses == maxWitnesses
    {
      hide Anchored, Linked, Applies, Distinct, InNumberOrder, NoDuplicates, AllReal, At, Below, History;
      StartAnchored(base, valid);
      this.valid, this.schedule, this.threshold, this.votingStart, this.maxWitnesses := valid, schedule, threshold,
      votingStart, maxWitnesses;
      db := new ForkDb(base, maxSize);
      head, committed, lib, fast, halted := base, Num(base), Num(base), map[], false;
      var chain := Chronicle(base);
      log := chain;
      start, ground, heard, confirmed := base, Start, {base}, {};
      new;
    }

    /**
     * Pops blocks until the state is at `end`. The fork database's head goes down with the state;
     * committed state does not move, so no irreversible block is ever popped.
     */
    method PopTo(end: Block) returns (ok: bool)
      requires Valid()
      modifies this`head, db`head
      ensures Valid() && ok == (head == end)
      ensures Below(head, old(head)) && Num(head) >= lib
      ensures ok <==> CanPop(db.index, old(head), old(db.head.value), lib, end)
      ensures ok ==> db.head.value == At(old(db.head.value), Num(old(db.head.value)) - (Num(old(head)) - Num(end)))
    {
      hide Justified, KnownFrom, Num, Below, Linked, History, Popping, CanPop, AlignedWith, Anchored, InNumberOrder,
           NoDuplicates, Distinct;
      ghost var h, d := head, db.head.value;
      AnchoredLib(db.index, head, lib, log, valid);
      PoppingNone(db.index, h, d, lib, end);
      while head != end
        invariant Valid() && Popping(db.index, h, d, head, db.head.value, lib, end) && 1 <= lib <= Num(head)
        decreases Num(db.head.value)
      {
        ghost var above := db.head.value;
        var popped := db.PopBlock();
        if !popped {
          PoppingStuck(db.index, h, d, head, above, lib, end);
          return false;
        }
        PrevBelow(above);
        PoppingStep(db.index, h, d, head, above, lib, end);
        if Num(head) > committed {
          AnchoredPop(db.index, head, lib, log, valid);
          head := head.prev;
          AnchoredLib(db.index, head, lib, log, valid);
        }
        PoppingAligned(db.index, h, d, head, db.head.value, lib, end);
      }
      PoppingDone(db.index, h, d, head, db.head.value, lib);
      ok := true;
    }

    ghost function CurrentVotes(): Votes
      reads this, db
    {
      Votes(schedule(head), fast, LatestOf(db.index))
    }

    /** Looks for a new irreversible block over all forks. */
    method Search() returns (r: Option<(Block, Block)>)
      requires Configured()
      ensures r.Some? ==> r.value.0 in db.index && r.value.1 in db.index && Below(r.value.1, r.value.0) &&
                          Num(r.value.1) > lib
      ensures r.Some? ==> |Approvers(CurrentVotes(), r.value.1)| >= Required(|schedule(head)|, threshold)
      ensures r.Some? ==> Elects(db.index, CurrentVotes(), Required(|schedule(head)|, threshold), lib, r.value.0,
                                 r.value.1)
      ensures r.Some? ==> Topmost(db.index, CurrentVotes(), Required(|schedule(head)|, threshold), lib, r.value.0,
                                  r.value.1)
      ensures r.None? ==> !Ripe(db.index, CurrentVotes(), Required(|schedule(head)|, threshold), lib, head)
      ensures r.None? ==> forall h, x ::
                            !Elects(db.index, CurrentVotes(), Required(|schedule(head)|, threshold), lib, h, x)
    {
      var produced := LastByWitness(db.index);
      var v := Votes(schedule(head), fast, produced);
      var tips := db.FetchHeads();
      r := FindNewLib(db.index, tips, v, Required(|v.scheduled|, threshold), lib);
      if r.Some? {
        ForemostIsTopmost(db.index, tips, v, Required(|v.scheduled|, threshold), lib, r.value.0, r.value.1);
      }
    }

    /** Moves the irreversible block number forward and forgets confirmations it overtakes. */
    method RaiseLib(n: nat)
      requires lib <= n <= Num(head)
      modifies this`lib, this`fast
      ensures lib == n
      ensures forall w: nat :: w in fast <==> w in old(fast) && Num(old(fast)[w]) > n
      ensures forall w: nat :: w in fast ==> fast[w] == old(fast)[w]
      ensures Overtaken(old(fast), fast, n)
    {
      lib := n;
      fast := map w | w in fast && Num(fast[w]) > n :: fast[w];
    }

    /** Re-evaluates irreversibility after a block, without leaving the current fork. */
    method SettleLib() returns (ghost g: Ground)
      requires Configured() && Anchored(db.index, head, lib, log, valid) && Known()
      modifies this`lib, this`fast
      ensures Known()
      ensures old(lib) <= lib <= Num(head)
      ensures lib > old(lib) && db.head == Some(head) ==> Justified(At(head, lib), g, heard, confirmed)
      ensures lib > old(lib) ==> g == if Num(head) < votingStart then Early(head)
                                      else Majority(head, old(CurrentVotes()))
      ensures lib > old(lib) && Num(head) >= votingStart && db.head == Some(head) ==>
                && |Approvers(old(CurrentVotes()), At(head, lib))| * ONE_HUNDRED_PERCENT >= threshold * |schedule(head)|
                && exists h :: Topmost(db.index, old(CurrentVotes()), Required(|schedule(head)|, threshold), old(lib),
                                       h,
                                       At(head, lib))
      ensures Num(head) >= votingStart && db.head == Some(head) &&
              Ripe(db.index, old(CurrentVotes()), Required(|schedule(head)|, threshold), old(lib), head) ==>
                lib > old(lib)
      ensures Num(head) < votingStart ==>
                lib == if Num(head) > old(lib) + maxWitnesses then Num(head) - maxWitnesses else old(lib)
      ensures Overtaken(old(fast), fast, lib)
    {
      hide Anchored, History, Linked, Applies, InNumberOrder, NoDuplicates, AllReal, LatestOf, Required, Approvers,
           Confirmed, KnownFrom, Genuine, Elects, Topmost;
      OvertakenNone(fast, lib);
      VotesGenuine(db.index, db.unlinked, fast, heard, confirmed, schedule(head));
      KnownHead(db.index, db.unlinked, fast, heard, confirmed, head, lib, log, valid);
      AnchoredLib(db.index, head, lib, log, valid);
      g := if Num(head) < votingStart then Early(head) else Majority(head, CurrentVotes());
      if Num(head) < votingStart {
        if Num(head) > maxWitnesses && Num(head) - maxWitnesses > lib {
          lib := Num(head) - maxWitnesses;
        }
        return;
      }
      if lib == Num(head) {
        NotRipe(db.index, CurrentVotes(), Required(|schedule(head)|, threshold), head);
        return;
      }
      var found := Search();
      if found.None? {
        return;
      }
      var (newHead, newLib) := found.value;
      var main := db.FetchOnMainBranch(Num(newLib));
      if db.head == Some(head) && Below(newLib, head) {
        FoundOnly(db.index, head, lib, log, valid, newLib);
      }
      if main != Some(newLib) {
        return;
      }
      if db.head == Some(head) {
        FoundHere(db.index, head, lib, log, valid, newLib);
        Elected(newLib, head, CurrentVotes());
        RequiredIsLeast(|schedule(head)|, threshold, |Approvers(CurrentVotes(), newLib)|);
      }
      RaiseLib(if Num(newLib) < Num(head) then Num(newLib) else Num(head));
      KnownLess(db.index, db.unlinked, old(fast), db.index, db.unlinked, fast, heard, confirmed, lib);
    }

    /** The blocks still to be written; none is missing from the fork database. */
    method Collect() returns (pending: seq<Block>)
      requires Configured() && 1 <= |log| <= lib <= Num(head) && Anchored(db.index, head, |log|, log, valid)
      requires db.head == Some(head) || lib == |log|
      ensures log + pending == History(head)[..lib]
    {
      HistoryLength(head);
      pending := [];
      var n := |log|;
      while n < lib
        invariant |log| <= n <= lib && log + pending == History(head)[..n]
      {
        var block := db.FetchOnMainBranch(n + 1);
        LinkedHere(db.index, head, |log|, n + 1);
        LinkedHere(db.index, head, |log|, Num(head));
        FetchedIs(db.index, head, n + 1);
        HistoryAt(head, n + 1);
        pending := pending + [block.value];
        n := n + 1;
      }
    }

    /** Writes them to the block log. */
    method WriteOut(ghost g: Ground)
      requires Configured() && 1 <= |log| <= lib <= Num(head) && Anchored(db.index, head, |log|, log, valid)
      requires db.head == Some(head) || lib == |log|
      requires Grounded() && (lib > |log| ==> Justified(At(head, lib), g, heard, confirmed))
      modifies this`log, this`ground
      ensures Anchored(db.index, head, lib, log, valid) && Grounded() && old(log) <= log
      ensures ground == if lib > old(|log|) then g else old(ground)
    {
      hide Justified, KnownFrom, Anchored, History, Linked, Applies, InNumberOrder, NoDuplicates, AllReal, Distinct,
           Below, At, Num;
      var pending := Collect();
      AnchoredRaise(db.index, db.index, head, |log|, lib, log, log + pending, valid);
      LastLogged(head, log, lib, log + pending);
      ground := if lib > |log| then g else ground;
      log := log + pending;
    }

    /** Persists blocks that have become irreversible, prunes the fork database, and commits the state. */
    method Migrate(ghost g: Ground)
      requires Configured() && !halted && 1 <= |log| <= lib <= Num(head)
      requires Anchored(db.index, head, |log|, log, valid)
      requires db.head == Some(head) || Num(db.head.value) != Num(head) || lib == |log|
      requires Grounded() && (db.head == Some(head) && lib > |log| ==>
                                Justified(At(head, lib), g, heard, confirmed)) && Known()
      modifies this`log, this`committed, this`halted, this`ground, db`index, db`unlinked, db`maxSize
      ensures Configured() && Safe() && old(log) <= log && Known()
      ensures halted <==> Num(db.head.value) != Num(head)
      ensures halted ==> log == old(log) && db.index == old(db.index)
      ensures ground == if !halted && lib > old(|log|) then g else old(ground)
      ensures !halted ==> committed == lib && Anchored(db.index, head, lib, log, valid)
      ensures !halted ==> forall x :: x in db.index <==> x in old(db.index) && Num(x) >= lib
      ensures !halted ==> Floor(db.index, lib)
    {
      hide Justified, KnownFrom, Anchored, History, Linked, Applies, InNumberOrder, NoDuplicates, AllReal, Distinct,
           Below, At, Num;
      AnchoredSafe(db.index, head, |log|, log, valid);
      if Num(db.head.value) != Num(head) {
        halted := true;
        return;
      }
      WriteOut(g);
      AnchoredLib(db.index, head, lib, log, valid);
      AnchoredSafe(db.index, head, lib, log, valid);
      ghost var before, aside := db.index, db.unlinked;
      db.SetMaxSize(Num(head) - lib + 1);
      AnchoredRaise(before, db.index, head, lib, lib, log, log, valid);
      AnchoredSafe(db.index, head, lib, log, valid);
      OvertakenNone(fast, lib);
      KnownLess(before, aside, fast, db.index, db.unlinked, fast, heard, confirmed, lib);
      committed := lib;
    }

    /** Everything but the fork database's head, which moves while blocks are being applied. */
    ghost predicate Steady()
      reads this, db
    {
      Configured() && !halted && Anchored(db.index, head, lib, log, valid) && committed == lib && Grounded() && Known()
    }

    lemma SteadyParts()
      requires Steady()
      ensures Configured() && !halted && Anchored(db.index, head, lib, log, valid)
    {
    }

    /**
     * Applies a block on top of the head. If it applies, irreversibility is re-evaluated and what
     * became irreversible is persisted; if it does not, nothing has changed.
     */
    method ApplyBlock(b: Block) returns (ok: bool)
      requires Steady() && b.Block? && b.prev == head && b in db.index && db.head == Some(b)
      modifies this`head, this`committed, this`lib, this`log, this`fast, this`halted, this`ground, db`index,
               db`unlinked, db`maxSize
      ensures ok == valid(b)
      ensures !ok ==> unchanged(this) && unchanged(db)
      ensures ok ==> Valid() && head == b && old(lib) <= lib && old(log) <= log
      ensures ok ==> Trimmed(old(db.index), db.index, lib) && Floor(db.index, lib)
      ensures Overtaken(old(fast), fast, lib)
      ensures ok && lib > old(lib) ==>
                ground == if Num(b) < votingStart then Early(b)
                          else Majority(b, Votes(schedule(b), old(fast), LatestOf(old(db.index))))
    {
      hide Anchored, Justified, KnownFrom, History, Linked, Applies, InNumberOrder, NoDuplicates, AllReal, Distinct,
           LatestOf, Required, Approvers, Elects, Ripe, Below, At;
      OvertakenNone(fast, lib);
      if !valid(b) {
        return false;
      }
      AnchoredPush(db.index, b, lib, log, valid);
      AnchoredLib(db.index, b, lib, log, valid);
      head := b;
      ghost var g := SettleLib();
      Migrate(g);
      return true;
    }

    /** Makes `b` the fork database's head and applies it. */
    method StepOn(b: Block) returns (ok: bool)
      requires Steady() && b.Block? && b.prev == head && b in db.index
      modifies this`head, this`committed, this`lib, this`log, this`fast, this`halted, this`ground, db`index,
               db`unlinked, db`maxSize, db`head
      ensures Steady() && db.head == Some(b) && ok == valid(b) && head == if ok then b else old(head)
      ensures old(lib) <= lib && old(log) <= log && b in db.index
      ensures Trimmed(old(db.index), db.index, lib) && (ok ==> Floor(db.index, lib))
      ensures !ok ==> lib == old(lib) && db.index == old(db.index)
      ensures Overtaken(old(fast), fast, lib)
    {
      db.SetHead(b);
      ok := ApplyBlock(b);
      if ok {
        AnchoredLib(db.index, b, lib, log, valid);
      }
    }

    /** Applies a run of blocks on top of the head, up to the first that does not apply. */
    method Extend(blocks: seq<Block>) returns (n: nat)
      requires Steady() && Chained(head, blocks) && forall x :: x in blocks ==> x in db.index
      modifies this`head, this`committed, this`lib, this`log, this`fast, this`halted, this`ground, db`index,
               db`unlinked, db`maxSize, db`head
      ensures Steady() && n <= |blocks| && head == Tip(old(head), blocks, n)
      ensures forall i: nat :: i < n ==> valid(blocks[i])
      ensures n < |blocks| ==> !valid(blocks[n]) && db.head == Some(blocks[n]) && blocks[n] in db.index
      ensures n == |blocks| > 0 ==> db.head == Some(head)
      ensures |blocks| == 0 ==> db.head == old(db.head)
      ensures old(lib) <= lib && old(log) <= log
      ensures Trimmed(old(db.index), db.index, lib) && (n > 0 ==> Floor(db.index, lib))
      ensures n == 0 ==> lib == old(lib) && db.index == old(db.index)
      ensures Overtaken(old(fast), fast, lib) && (old(Floor(db.index, lib)) ==> Floor(db.index, lib))
    {
      hide Overtaken, Steady, Configured, Grounded, Justified, KnownFrom, Anchored, Trimmed, Floor, InNumberOrder,
           NoDuplicates, AllReal, Distinct, Num, Below, Chained;
      TrimmedSame(db.index, lib);
      OvertakenNone(fast, lib);
      n := 0;
      ghost var base := head;
      while n < |blocks|
        invariant n <= |blocks| && Steady() && head == Tip(base, blocks, n)
        invariant forall i: nat :: i < n ==> valid(blocks[i])
        invariant db.head == if n > 0 then Some(head) else old(db.head)
        invariant n == 0 ==> lib == old(lib) && db.index == old(db.index)
        invariant old(lib) <= lib && old(log) <= log
        invariant Trimmed(old(db.index), db.index, lib) && (n > 0 ==> Floor(db.index, lib))
        invariant Overtaken(old(fast), fast, lib)
      {
        SteadyParts();
        RunStep(old(db.index), db.index, base, blocks, n, lib, log, valid);
        ghost var before, l1, f1 := db.index, lib, fast;
        var ok := StepOn(blocks[n]);
        OvertakenTransitive(old(fast), f1, fast, l1, lib);
        if !ok {
          return;
        }
        TrimmedTransitive(old(db.index), before, db.index, l1, lib);
        n := n + 1;
      }
    }

    /** Drops a run of blocks that starts with the fork database's head and builds on the state's head. */
    method Discard(bad: seq<Block>)
      requires Steady() && bad != [] && Chained(head, bad) && db.head == Some(bad[0])
      modifies db`index, db`head
      ensures Steady() && db.head == Some(head)
      ensures forall x :: x in db.index <==> x in old(db.index) && x !in bad
      ensures old(Floor(db.index, lib)) ==> Floor(db.index, lib)
    {
      hide Anchored, Justified, KnownFrom, Linked, History, Chained, Below, Num, InNumberOrder, AllReal, Distinct;
      AnchoredLib(db.index, head, lib, log, valid);
      FirstLink(head, bad);
      for i := 0 to |bad|
        invariant db.Valid() && db.Aside({}) && db.head == if i == 0 then Some(bad[0]) else Some(head)
        invariant forall x :: x in db.index <==> x in old(db.index) && x !in bad[..i]
        invariant head in db.index
      {
        NotOnChain(head, bad, i);
        db.Remove(bad[i]);
      }
      assert bad[..|bad|] == bad;
      OvertakenNone(fast, lib);
      KnownLess(old(db.index), db.unlinked, fast, db.index, db.unlinked, fast, heard, confirmed, lib);
      DiscardOk(old(db.index), db.index, head, bad, lib, log, valid);
    }

    /** Moves the state to the point where `newHead` forks off; gives both branches, lowest block first. */
    method Unwind(newHead: Block) returns (ok: bool, up: seq<Block>, down: seq<Block>, c: Block)
      requires Valid()
      modifies this`head, this`halted, db`head
      ensures !halted ==> Valid()
      ensures halted ==> !ok && head == old(head) && db.head == old(db.head)
      ensures Below(head, old(head)) && Num(head) >= lib
      ensures ok ==> c == Fork(newHead, old(head)) && head == c && up != []
      ensures ok ==> up == Reversed(Path(newHead, c)) && down == Reversed(Path(old(head), c))
      ensures ok ==> forall x :: x in up || x in down ==> x in db.index
      ensures ok && down == [] ==> db.head == old(db.head)
      ensures halted <==> BreaksOn(db.index, newHead, old(head))
      ensures ok <==> CanSwitch(db.index, newHead, old(head), old(db.head.value), lib)
    {
      hide Justified, KnownFrom, Anchored, Num, Below, Linked, CanPop, History, InNumberOrder, NoDuplicates, AllReal,
           Distinct, Path, Fork, Reversed, Chained, Tip, AlignedWith;
      c := Genesis;
      BelowRefl(head);
      AnchoredLib(db.index, head, lib, log, valid);
      ForkIsSelf(newHead, head);
      var branches := db.FetchBranchFrom(newHead, head);
      if branches.None? {
        return false, [], [], c;
      }
      var (high, low) := branches.value;
      if high == [] {
        halted := true;
        return false, [], [], c;
      }
      PathLast(newHead, Fork(newHead, head));
      PathLast(head, Fork(newHead, head));
      PoppingNothing(db.index, head, db.head.value, lib);
      BranchChained(newHead, Fork(newHead, head));
      BranchChained(head, Fork(newHead, head));
      c := high[|high| - 1].prev;
      up, down := Reversed(high), Reversed(low);
      ReversedNonEmpty(high);
      ReversedNonEmpty(low);
      ok := true;
      if low != [] {
        ok := PopTo(low[|low| - 1].prev);
      }
    }

    /** Returns from a failed fork to the branch `down` that was left at `c`. */
    method GoBack(c: Block, down: seq<Block>)
      requires Valid() && db.head == Some(head) && Below(c, head) && lib <= Num(c)
      requires Chained(c, down) && (forall x :: x in down ==> x in db.index && valid(x))
      modifies this`head, this`committed, this`lib, this`log, this`fast, this`halted, this`ground, db`index,
               db`unlinked, db`maxSize, db`head
      ensures Valid() && head == Tip(c, down, |down|) && db.head == Some(head)
      ensures old(lib) <= lib && old(log) <= log && Trimmed(old(db.index), db.index, lib) &&
              Overtaken(old(fast), fast, lib)
      ensures old(Floor(db.index, lib)) ==> Floor(db.index, lib)
    {
      hide Justified, KnownFrom, Anchored, Num, Below, Linked, History, Applies, InNumberOrder, NoDuplicates, AllReal,
           Distinct, Chained, Floor;
      CanGoBack(db.index, head, lib, log, valid, c);
      var popped := PopTo(c);
      assert forall i: nat :: i < |down| ==> valid(down[i]);
      var n := Extend(down);
    }

    /**
     * Leaves the current fork for the one ending in `newHead`. `n` is the number of its blocks
     * that applied. Either the switch succeeds; or a block fails and everything from it on is
     * dropped, after which the state goes back to exactly where it was, or stays where it got to
     * when the fork point is no longer above the irreversible block or the new fork is still no
     * shorter; or the switch is given up before anything is applied.
     */
    method SwitchForks(newHead: Block) returns (r: Switch, ghost n: nat, ghost low: nat)
      requires Valid()
      modifies this`head, this`committed, this`lib, this`log, this`fast, this`halted, this`ground, db
      ensures (r == Broken <==> halted) && (!halted ==> Valid()) && Safe() && Configured()
      ensures old(lib) <= lib && old(log) <= log && Overtaken(old(fast), fast, lib)
      ensures (!halted ==> (old(Floor(db.index, lib)) ==> Floor(db.index, lib))) &&
              (r == Switched ==> Floor(db.index, lib))
      ensures Switching(valid, newHead, old(Now()), Now(), r, n, low)
    {
      hide Overtaken, Justified, KnownFrom, Anchored, Num, Below, Linked, Trimmed, Floor, Dropped, Path, Fork,
           Reversed, Chained, History, Applies, CanSwitch, BreaksOn, Switching, Failing,
           InNumberOrder, NoDuplicates, AllReal, Distinct, Tip;
      n, low := 0, lib;
      ghost var before := Now();
      AnchoredSafe(db.index, head, lib, log, valid);
      OvertakenNone(fast, lib);
      BelowRefl(head);
      var original := head;
      var ok, up, down, c := Unwind(newHead);
      if !ok {
        SwitchingStops(valid, newHead, before, Now(), lib);
        if halted {
          return Broken, 0, lib;
        }
        AnchoredSafe(db.index, head, lib, log, valid);
        return Aborted, 0, lib;
      }
      BranchChained(newHead, c);
      BranchChained(original, c);
      ghost var i0, lib0 := db.index, lib;
      var m := Extend(up);
      n := m;
      AnchoredSafe(db.index, head, lib, log, valid);
      if m == |up| {
        SwitchingSucceeds(valid, newHead, before, Now(), m, lib);
        return Switched, m, lib;
      }
      ghost var f1 := fast;
      low := lib;
      var back := Retreat(original, newHead, c, up, down, m, i0, lib0);
      OvertakenTransitive(old(fast), f1, fast, low, lib);
      FailingThen(valid, newHead, before, Now(), c, up, back, m, low);
      SwitchingFails(valid, newHead, before, Now(), back, m, low);
      return if back then Reverted else Stayed, m, low;
    }

    /**
     * After block `m` of the new branch has failed: drops the rest of it, and goes back to the old
     * branch when that is better.
     */
    method Retreat(original: Block, ghost newHead: Block, c: Block, up: seq<Block>, down: seq<Block>, m: nat,
                   ghost i0: seq<Block>, ghost lib0: nat)
      returns (back: bool)
      requires c == Fork(newHead, original) && up == Reversed(Path(newHead, c)) && down == Reversed(Path(original, c))
      requires Steady() && m < |up| && head == Tip(c, up, m) && db.head == Some(up[m]) && Trimmed(i0, db.index, lib)
      requires lib0 <= Num(c) && (if m > 0 then Floor(db.index, lib) else lib == lib0)
      requires Applies(original, lib0, valid) && forall x :: x in down ==> x in i0
      modifies this`head, this`committed, this`lib, this`log, this`fast, this`halted, this`ground, db`index,
               db`unlinked, db`maxSize, db`head
      ensures Valid() && Safe() && old(lib) <= lib && old(log) <= log && Overtaken(old(fast), fast, lib)
      ensures old(Floor(db.index, lib)) ==> Floor(db.index, lib)
      ensures db.head == Some(head) && head == (if back then original else Tip(c, up, m)) &&
              Dropped(i0, db.index, up[m..], lib)
      ensures back ==> Num(Tip(c, up, m)) < Num(original) && old(lib) <= Num(c) &&
                       (Floor(i0, lib0) ==> old(lib) < Num(c))
      ensures !back ==> lib == old(lib) && (Num(c) <= lib || Num(original) <= Num(head))
    {
      hide Overtaken, Justified, KnownFrom, Anchored, Num, Below, Linked, Trimmed, Floor, Dropped, Path, Fork,
           Reversed, Chained, History, Applies,
           InNumberOrder, NoDuplicates, AllReal, Distinct, Tip;
      BranchChained(newHead, c);
      BranchChained(original, c);
      OvertakenNone(fast, lib);
      ghost var i1 := db.index;
      RunTail(c, up, m);
      Discard(up[m..]);
      ghost var i2 := db.index;
      DroppedFrom(i0, i1, i2, up[m..], lib);
      AnchoredLib(db.index, head, lib, log, valid);
      AnchoredSafe(db.index, head, lib, log, valid);
      back := Num(db.index[0]) < Num(c) && Num(db.head.value) < Num(original);
      OldestHeld(i0, i1, db.index, head, lib0, lib, log, valid, m);
      if back {
        StillReversible(i1, i2, lib0, lib, m, c);
        BranchSurvives(i0, i2, newHead, original, lib0, lib, up[m..], valid);
        ChainedNum(c, up, m);
        GoBack(c, down);
        AnchoredSafe(db.index, head, lib, log, valid);
        DroppedAgain(i0, i2, db.index, up[m..], lib);
      }
    }

    /** The blocks from `top` down to the height of the state's head; false when a link is missing. */
    method WalkDown(top: Block) returns (ok: bool, blocks: seq<Block>)
      requires Steady() && top in db.index && Num(top) > Num(head)
      ensures ok ==> blocks == Path(top, At(top, Num(head))) && blocks != [] && forall x ::
                       x in blocks ==> x in db.index
      ensures ok <==> Linked(db.index, top, Num(head))
    {
      BelowRefl(top);
      AnchoredLib(db.index, head, lib, log, valid);
      blocks := [];
      var x := top;
      while Num(x) > Num(head)
        invariant Num(x) >= Num(head) && x in db.index && Below(x, top) && blocks == Path(top, x)
        invariant Linked(db.index, top, Num(x)) && forall y :: y in blocks ==> y in db.index
        decreases Num(x)
      {
        PathSnoc(top, x);
        blocks := blocks + [x];
        if Num(x) == 1 {
          break;
        }
        var prev := db.PrevLock(x);
        if prev.None? {
          Gap(db.index, top, x, Num(head));
          return false, blocks;
        }
        LinkedMore(db.index, top, x);
        x := prev.value;
      }
      AtUnique(x, top);
      PathLast(top, x);
      ok := true;
    }

    /** Brings the state to the fork database's new head, directly or by switching forks. */
    method Advance(newHead: Block) returns (r: PushResult, ghost n: nat, ghost low: nat)
      requires Valid() && db.head == Some(newHead) && Num(newHead) > Num(head)
      modifies this`head, this`committed, this`lib, this`log, this`fast, this`halted, this`ground, db
      ensures (r == Crashed <==> halted) && (!halted ==> Valid()) && Safe()
      ensures old(lib) <= lib && old(log) <= log
      ensures Advancing(valid, newHead, old(Now()), Now(), r, n, low)
      ensures r == Crashed ==> Now() == old(Now()).(halted := true)
      ensures (!halted ==> (old(Floor(db.index, lib)) ==> Floor(db.index, lib))) &&
              (r in {Applied, Forked(Switched)} ==> Floor(db.index, lib))
    {
      hide Justified, KnownFrom, Anchored, Num, Below, Linked, Trimmed, Floor, Dropped, Path, At, Fork, Reversed,
           Chained, History, Applies, InNumberOrder, NoDuplicates, AllReal, Distinct, Tip, Switching, Following,
           CanSwitch, BreaksOn;
      AnchoredSafe(db.index, head, lib, log, valid);
      n, low := 0, lib;
      var ok, blocks := WalkDown(newHead);
      if !ok {
        halted := true;
        return Crashed, 0, lib;
      }
      AtBelow(newHead, head);
      PathLast(newHead, At(newHead, Num(head)));
      if blocks[|blocks| - 1].prev != head {
        SwitchAhead(db.index, newHead, head, lib, log, valid);
        ghost var before := Now();
        var outcome;
        outcome, n, low := SwitchForks(newHead);
        SwitchingEnds(valid, newHead, before, Now(), outcome, n, low);
        return Forked(outcome), n, low;
      }
      ok, n := FollowRun(newHead, blocks);
      r := if ok then Applied else Rejected;
    }

    /**
     * A block arrives; keeps account of whether a block without predecessor may have come in below
     * the irreversible one.
     */
    method Deliver(b: Block, ghost stray: bool) returns (r: PushResult, ghost c: Course, ghost stray': bool)
      requires Valid() && b.Block? && (!stray ==> Floor(db.index, lib))
      modifies this, db
      ensures heard == old(heard) + {b} && confirmed == old(confirmed)
      ensures (!halted ==> Valid()) && Safe() && old(lib) <= lib && old(log) <= log
      ensures stray' == (r !in {Applied, Forked(Switched)} &&
                         (stray || (b.prev == Genesis && old(db.Horizon() == 0 && lib > 1))))
      ensures !halted && !stray' ==> Floor(db.index, lib)
      ensures Pushing(valid, b, old(Now()), Now(), r, c)
    {
      hide Justified, KnownFrom, Anchored, Num, Below, Linked, Floor, Path, History, InNumberOrder, NoDuplicates,
           AllReal, Distinct, Pushing;
      ghost var comesIn := b.prev == Genesis && db.Horizon() == 0 && lib > 1;
      r, c := PushBlock(b);
      stray' := r !in {Applied, Forked(Switched)} && (stray || comesIn);
    }

    /** A block is put into the fork database. */
    method Admit(b: Block) returns (accepted: bool)
      requires Valid() && b.Block?
      modifies this`heard, db
      ensures Valid() && heard == old(heard) + {b}
      ensures Admitting(b, old(Now()), Now(), accepted)
      ensures old(Floor(db.index, lib)) && !(b.prev == Genesis && old(db.Horizon() == 0 && lib > 1)) ==>
                Floor(db.index, lib)
      ensures accepted && old(Floor(db.index, lib)) && b.prev == Genesis && lib > 1 ==> !Floor(db.index, lib)
    {
      hide Justified, KnownFrom, Anchored, Below, Linked, Floor, At, History, Applies, InNumberOrder, NoDuplicates,
           AllReal, Distinct, AlignedWith, Gathered;
      AnchoredSafe(db.index, head, lib, log, valid);
      ghost var i0, d0 := db.index, db.head.value;
      JustifiedMore(log[|log| - 1], ground, heard, confirmed, heard + {b}, confirmed);
      ghost var aside := db.unlinked;
      var pushed := db.PushBlock(b);
      KnownMore(i0, aside, db.index, db.unlinked, fast, heard, confirmed, b);
      heard := heard + {b};
      PushAligned(i0, d0, db.index, db.head, head, lib, log, valid);
      FirstIsOne(b);
      if Floor(i0, lib) {
        FloorGrows(i0, Some(d0), db.index, db.head, aside, b, lib);
      }
      accepted := pushed == Accepted;
    }

    /** A block arrives: it is put into the fork database and, if it is the best now, followed. */
    method PushBlock(b: Block) returns (r: PushResult, ghost c: Course)
      requires Valid() && b.Block?
      modifies this, db
      ensures heard == old(heard) + {b} && confirmed == old(confirmed)
      ensures Pushing(valid, b, old(Now()), Now(), r, c)
      ensures (!halted ==> Valid()) && Safe() && old(lib) <= lib && old(log) <= log
      ensures r in {Applied, Forked(Switched)} ==> Floor(db.index, lib)
      ensures !halted && old(Floor(db.index, lib)) && !(b.prev == Genesis && old(db.Horizon() == 0 && lib > 1)) ==>
                Floor(db.index, lib)
      ensures r == Ignored && old(Floor(db.index, lib)) && b.prev == Genesis && lib > 1 ==> !Floor(db.index, lib)
    {
      hide Justified, KnownFrom, Anchored, Num, Below, Linked, Floor, At, Fork, History, Applies, InNumberOrder,
           NoDuplicates, AllReal, Distinct, Advancing, Admitting, Pushing;
      ghost var before := Now();
      var accepted := Admit(b);
      ValidSafe();
      c := Course(db.head.value, db.index, 0, lib);
      ghost var mid := Now();
      var newHead := db.head.value;
      if !accepted || Num(newHead) <= Num(head) {
        r := if accepted then Ignored else Refused;
        PushingStops(valid, b, before, mid, accepted);
        return;
      }
      ghost var n, low;
      r, n, low := Advance(newHead);
      c := c.(applied := n, low := low);
      PushingGoesOn(valid, b, before, mid, Now(), r, n, low);
    }

    /** Applies the blocks leading to `newHead`, dropping them from the first that fails on. */
    method FollowRun(newHead: Block, blocks: seq<Block>) returns (ok: bool, ghost n: nat)
      requires Steady() && Below(head, newHead) && newHead != head && blocks == Path(newHead, head) && forall x ::
                 x in blocks ==> x in db.index
      modifies this`head, this`committed, this`lib, this`log, this`fast, this`halted, this`ground, db`index,
               db`unlinked, db`maxSize, db`head
      ensures Valid() && Safe() && db.head == Some(head)
      ensures old(lib) <= lib && old(log) <= log
      ensures (old(Floor(db.index, lib)) ==> Floor(db.index, lib)) && (ok ==> Floor(db.index, lib))
      ensures Following(valid, newHead, old(Now()), Now(), ok, n)
    {
      hide Justified, KnownFrom, Anchored, Num, Below, Linked, Trimmed, Floor, Path, Reversed, Chained, History,
           Applies, InNumberOrder, NoDuplicates, AllReal, Distinct, Dropped;
      BranchChained(newHead, head);
      PathLast(newHead, head);
      ReversedNonEmpty(blocks);
      var run := Reversed(blocks);
      ghost var base := head;
      var m := Extend(run);
      n := m;
      ok := m == |run|;
      ghost var i1 := db.index;
      if !ok {
        RunTail(base, run, m);
        Discard(run[m..]);
      }
      DroppedFrom(old(db.index), i1, db.index, run[m..], lib);
      AnchoredSafe(db.index, head, lib, log, valid);
    }

    /** The fork ending in `h` has the votes to make `x` irreversible. */
    ghost predicate Chosen(s: Record, h: Block, x: Block) {
      threshold <= ONE_HUNDRED_PERCENT &&
      Elects(s.index, Votes(schedule(s.head), s.fast, LatestOf(s.index)), Required(|schedule(s.head)|, threshold),
             s.lib, h, x)
    }

    /** Some block has the votes, and any that has lies on the chain or on a fork that can be joined. */
    ghost predicate Winning(s: Record) {
      && s.lib < Num(s.head) && (exists h, x :: Chosen(s, h, x))
      && (forall h, x :: Chosen(s, h, x) ==> Below(x, s.head) || Joinable(s, h))
    }

    /** A fork no shorter than the chain that can be switched to and applies. */
    ghost predicate Joinable(s: Record, h: Block) {
      && Num(h) >= Num(s.head) && CanSwitch(s.index, h, s.head, s.head, s.lib)
      && (forall y :: y in Path(h, Fork(h, s.head)) ==> valid(y))
    }

    /** The node has turned from `s` to a fork that has the votes. */
    ghost predicate Turning(s: Record, t: Turn) {
      && Chosen(s, t.to, t.elected) && Num(t.to) >= Num(s.head)
      && Switching(valid, t.to, s, t.after, t.outcome, t.applied, t.low)
    }

    /**
     * What re-evaluating irreversibility after a confirmation does to the node. It goes down when
     * the switch breaks it, or when the fork database is then not as high as the state.
     */
    ghost predicate Reconsidering(s: Record, s': Record, way: Option<Turn>) {
      && s.top.Some? && s'.top.Some? && Overtaken(s.fast, s'.fast, s'.lib)
      && (way.None? ==> s'.head == s.head && s'.top == s.top)
      && (way.Some? ==> Turning(s, way.value) && s'.head == way.value.after.head && s'.top == way.value.after.top)
      && (s'.halted <==> (way.Some? && way.value.outcome == Broken) || Num(s'.top.value) != Num(s'.head))
      && (Num(s.head) < votingStart ==> way.None?)
      && (Num(s.head) < votingStart ==>
            s'.lib == if Num(s.head) > s.lib + maxWitnesses then Num(s.head) - maxWitnesses else s.lib)
      && (Num(s.head) >= votingStart && s.top == Some(s.head) && Winning(s) ==> s'.lib > s.lib)
    }

    /** What a confirmation does: nothing when it does not count or is no news. */
    ghost predicate Confirming(w: nat, target: Block, s: Record, s': Record, way: Option<Turn>) {
      if w !in schedule(s.head) || (w in s.fast && Num(target) <= Num(s.fast[w])) then s' == s
      else Reconsidering(s.(fast := s.fast[w := target]), s', way)
    }

    /** A scheduled witness confirms a block; the fork it makes irreversible is switched to when needed. */
    method FastConfirm(w: nat, target: Block) returns (ghost way: Option<Turn>)
      requires Valid()
      modifies this, db
      ensures (!halted ==> Valid()) && Safe()
      ensures old(lib) <= lib && old(log) <= log
      ensures Confirming(w, target, old(Now()), Now(), way)
      ensures heard == old(heard) && confirmed == old(confirmed) + {(w, target)}
      ensures !halted ==> (old(Floor(db.index, lib)) ==> Floor(db.index, lib))
    {
      hide Justified, KnownFrom, Anchored, Below, Linked, Path, History, Applies, InNumberOrder, NoDuplicates, AllReal,
           Distinct, LatestOf, Approvers, Overtaken, Floor, Reconsidering;
      way := None;
      AnchoredSafe(db.index, head, lib, log, valid);
      JustifiedMore(log[|log| - 1], ground, heard, confirmed, heard, confirmed + {(w, target)});
      KnownConfirmed(db.index, db.unlinked, fast, heard, confirmed, w, target);
      confirmed := confirmed + {(w, target)};
      if w !in schedule(head) || (w in fast && Num(target) <= Num(fast[w])) {
        return;
      }
      fast := fast[w := target];
      way := Reconsider();
    }

    /** Re-evaluates irreversibility after a confirmation, and persists what has become irreversible. */
    method Reconsider() returns (ghost way: Option<Turn>)
      requires Valid()
      modifies this`head, this`committed, this`lib, this`log, this`fast, this`halted, this`ground, db
      ensures (!halted ==> Valid()) && Safe()
      ensures old(lib) <= lib && old(log) <= log && Reconsidering(old(Now()), Now(), way)
      ensures !halted ==> (old(Floor(db.index, lib)) ==> Floor(db.index, lib))
    {
      hide Justified, KnownFrom, Anchored, Below, Linked, Path, History, Applies, InNumberOrder, NoDuplicates, AllReal,
           Distinct, LatestOf, Approvers, Overtaken, Turning, Chosen, Joinable, Winning, Floor, Num, Elects, Ripe;
      AnchoredSafe(db.index, head, lib, log, valid);
      AnchoredLib(db.index, head, lib, log, valid);
      way := None;
      WinningAbove(Now());
      ghost var g;
      if Num(head) < votingStart || lib == Num(head) {
        g := SettleLib();
      } else {
        var go;
        go, g, way := SettleLibSwitching();
        if !go {
          return;
        }
      }
      Migrate(g);
    }

    /** Leaves for another fork; true when it has been joined. */
    method JoinFork(newHead: Block) returns (joined: bool, ghost r: Switch, ghost n: nat, ghost low: nat)
      requires Valid()
      modifies this`head, this`committed, this`lib, this`log, this`fast, this`halted, this`ground, db
      ensures (!halted ==> Valid()) && Safe() && Configured()
      ensures old(lib) <= lib && old(log) <= log && Overtaken(old(fast), fast, lib)
      ensures joined ==> !halted && head == newHead && db.head == Some(newHead)
      ensures !halted ==> (old(Floor(db.index, lib)) ==> Floor(db.index, lib))
      ensures Switching(valid, newHead, old(Now()), Now(), r, n, low)
      ensures (joined <==> r == Switched) && (halted <==> r == Broken)
      ensures old(db.head == Some(head) && Joinable(Now(), newHead)) ==> joined
      ensures !joined && !halted && r != Aborted ==> db.head == Some(head)
    {
      hide Floor, Overtaken, Justified, KnownFrom, Anchored, Num, Below, Linked, Dropped, Path, At, Fork, Reversed,
           History, Tip;
      ghost var before := Now();
      var outcome;
      outcome, n, low := SwitchForks(newHead);
      joined, r := outcome == Switched, outcome;
      if before.top == Some(before.head) && Joinable(before, newHead) {
        JoinsIt(before, Now(), newHead, r, n, low);
      }
    }

    lemma WinningAbove(s: Record)
      ensures Winning(s) ==> s.lib < Num(s.head)
    {
    }

    lemma {:induction false} JoinableHigher(s: Record, h: Block)
      ensures Joinable(s, h) ==> Num(h) >= Num(s.head)
    {
    }

    /** A switch to a fork that can be joined succeeds. */
    lemma JoinsIt(s: Record, s': Record, newHead: Block, r: Switch, n: nat, low: nat)
      requires s.top == Some(s.head) && Joinable(s, newHead) && Switching(valid, newHead, s, s', r, n, low)
      ensures r == Switched
    {
      var run := Reversed(Path(newHead, Fork(newHead, s.head)));
      BranchChained(newHead, Fork(newHead, s.head));
      forall i: nat | i < |run| ensures valid(run[i]) {
        assert run[i] in run;
      }
    }

    /** The number up to which the chain becomes irreversible by the votes, after joining another fork if need be. */
    method Locate() returns (n: Option<nat>, ghost g: Ground, ghost way: Option<Turn>)
      requires Valid() && lib < Num(head)
      modifies this`head, this`committed, this`lib, this`log, this`fast, this`halted, this`ground, db
      ensures (!halted ==> Valid()) && Safe() && Configured()
      ensures old(lib) <= lib && old(log) <= log && Overtaken(old(fast), fast, lib)
      ensures !halted ==> (old(Floor(db.index, lib)) ==> Floor(db.index, lib))
      ensures g == Majority(old(head), old(CurrentVotes())) && (n.Some? ==> !halted && n.value <= Num(head))
      ensures n.Some? && db.head == Some(head) ==> Justified(At(head, n.value), g, heard, confirmed)
      ensures way.None? ==> Now() == old(Now())
      ensures way.Some? ==> Turning(old(Now()), way.value) && way.value.after == Now()
      ensures halted <==> way.Some? && way.value.outcome == Broken
      ensures old(db.head == Some(head) && Winning(Now())) ==> n.Some? && n.value > old(lib)
      ensures n.Some? ==> n.value > old(lib) && (way.Some? ==> db.head == Some(head))
    {
      hide Justified, KnownFrom, Anchored, Num, Below, Linked, Trimmed, Floor, Dropped, Path, At, Fork, Reversed,
           Chained, History, Applies, InNumberOrder, NoDuplicates, AllReal, Distinct, Tip, LatestOf, Approvers,
           Overtaken, Joinable, Switching, Elects, Ripe, Genuine, Required, Topmost;
      way := None;
      ghost var before := Now();
      KnownHead(db.index, db.unlinked, fast, heard, confirmed, head, lib, log, valid);
      AnchoredSafe(db.index, head, lib, log, valid);
      g := Majority(head, CurrentVotes());
      OvertakenNone(fast, lib);
      n := None;
      var found := Search();
      if found.None? {
        assert forall h, x :: !Chosen(before, h, x);
        return;
      }
      var (newHead, newLib) := found.value;
      BelowNum(newLib, newHead);
      VotesGenuine(db.index, db.unlinked, fast, heard, confirmed, schedule(head));
      Elected(newLib, head, CurrentVotes());
      assert Chosen(before, newHead, newLib);
      if db.head == Some(head) && Below(newLib, head) {
        BelowNum(newLib, head);
        FoundOnly(db.index, head, lib, log, valid, newLib);
      }
      var main := db.FetchOnMainBranch(Num(newLib));
      if main != Some(newLib) {
        if Num(newHead) < Num(head) {
          JoinableHigher(before, newHead);
          return;
        }
        var joined;
        ghost var r, applied, low;
        joined, r, applied, low := JoinFork(newHead);
        way := Some(Turn(newHead, newLib, r, applied, low, Now()));
        if !joined {
          return;
        }
        AtUnique(newLib, newHead);
      } else if db.head == Some(head) {
        FoundHere(db.index, head, lib, log, valid, newLib);
      }
      n := Some(if Num(newLib) < Num(head) then Num(newLib) else Num(head));
    }

    /** Irreversibility after a confirmation; false when processing stops with an error. */
    method SettleLibSwitching() returns (go: bool, ghost g: Ground, ghost way: Option<Turn>)
      requires Valid() && lib < Num(head)
      modifies this`head, this`committed, this`lib, this`log, this`fast, this`halted, this`ground, db
      ensures !go ==> (!halted ==> Valid() && (old(Floor(db.index, lib)) ==> Floor(db.index, lib))) && Safe()
      ensures Configured()
      ensures go ==> !halted && 1 <= |log| <= lib <= Num(head) && Anchored(db.index, head, |log|, log, valid)
      ensures go ==> db.head == Some(head) || Num(db.head.value) != Num(head) ||
                     (lib == |log| && AlignedWith(db.head.value, head, lib))
      ensures go ==> Grounded() &&
                     (db.head == Some(head) && lib > |log| ==> Justified(At(head, lib), g, heard, confirmed)) && Known()
      ensures g == Majority(old(head), old(CurrentVotes()))
      ensures old(lib) <= lib && old(log) <= log && Overtaken(old(fast), fast, lib)
      ensures way.None? ==> head == old(head) && db.head == old(db.head)
      ensures way.Some? ==> Turning(old(Now()), way.value) && head == way.value.after.head &&
                            db.head == way.value.after.top
      ensures halted <==> way.Some? && way.value.outcome == Broken
      ensures !go && !halted ==> db.head == Some(head)
      ensures old(db.head == Some(head) && Winning(Now())) ==> lib > old(lib)
    {
      hide Floor, Justified, KnownFrom, Anchored, Num, At, InNumberOrder, NoDuplicates, AllReal, Distinct, LatestOf,
           Overtaken, Winning, Turning;
      var n;
      n, g, way := Locate();
      go := !halted && (n.Some? ==> n.value >= lib);
      if !go {
        return;
      }
      AnchoredLib(db.index, head, lib, log, valid);
      if n.Some? {
        ghost var f1, l1 := fast, lib;
        RaiseLib(n.value);
        OvertakenTransitive(old(fast), f1, fast, l1, lib);
        KnownLess(db.index, db.unlinked, f1, db.index, db.unlinked, fast, heard, confirmed, lib);
      }
    }
  }

  // ---- runs of consecutive blocks ----

  /** The tip of `blocks[..n]` on top of `base`. */
  function Tip(base: Block, blocks: seq<Block>, n: nat): Block
    requires n <= |blocks|
  {
    if n == 0 then base else blocks[n - 1]
  }

  ghost predicate Link(base: Block, blocks: seq<Block>, i: nat)
    requires i < |blocks|
  {
    blocks[i].Block? && blocks[i].prev == Tip(base, blocks, i)
  }

  /** `blocks` builds on `base`, each block on the one before. */
  ghost predicate Chained(base: Block, blocks: seq<Block>) {
    forall i: nat {:trigger Link(base, blocks, i)} :: i < |blocks| ==> Link(base, blocks, i)
  }

  /** A block found at its number on the main branch is the one of the state's chain. */
  lemma {:induction false} FoundHere(index: seq<Block>, head: Block, lib: nat, log: seq<Block>, valid: Block -> bool,
                                     x: Block)
    requires Anchored(index, head, lib, log, valid) && Fetched(index, Some(head), Num(x)) == Some(x) && Num(x) > lib
    ensures Num(x) <= Num(head) && At(head, Num(x)) == x
  {
    if Num(x) <= Num(head) {
      LinkedHere(index, head, lib, Num(x));
      LinkedHere(index, head, lib, Num(head));
      FetchedIs(index, head, Num(x));
    }
  }

  lemma {:induction false} FoundOnly(index: seq<Block>, head: Block, lib: nat, log: seq<Block>, valid: Block -> bool,
                                     x: Block)
    requires Anchored(index, head, lib, log, valid) && Num(x) > lib && Below(x, head)
    ensures Fetched(index, Some(head), Num(x)) == Some(x)
  {
    AtUnique(x, head);
    LinkedHere(index, head, lib, Num(x));
    LinkedHere(index, head, lib, Num(head));
    FetchedIs(index, head, Num(x));
  }

  lemma {:induction false} LastLogged(head: Block, before: seq<Block>, lib: nat, log: seq<Block>)
    requires 1 <= |before| <= lib <= Num(head) && log == History(head)[..lib] && before <= log
    ensures |log| == lib && log[lib - 1] == At(head, lib)
    ensures lib == |before| ==> log == before
  {
    HistoryAt(head, lib);
  }

  lemma {:induction false} ReversedCons(b: Block, s: seq<Block>)
    ensures Reversed([b] + s) == Reversed(s) + [b]
    decreases |s|
  {
    var t := [b] + s;
    if s == [] {
      assert t[..0] == [];
    } else {
      var init := s[..|s| - 1];
      assert t[..|t| - 1] == [b] + init;
      ReversedCons(b, init);
    }
  }

  /** A branch, lowest block first, is a run of consecutive blocks from the fork point to its top. */
  lemma {:induction false} BranchChained(b: Block, c: Block)
    requires Below(c, b)
    ensures var run := Reversed(Path(b, c)); Chained(c, run) && Tip(c, run, |run|) == b
    ensures var run := Reversed(Path(b, c)); forall x :: x in run <==> x in Path(b, c)
    decreases b
  {
    hide Path, Reversed, Chained;
    PathCons(b, c);
    if b != c {
      BranchChained(b.prev, c);
      ReversedCons(b, Path(b.prev, c));
      ChainedSnoc(c, Reversed(Path(b.prev, c)), b);
    } else {
      ChainedNone(c);
    }
  }

  lemma {:induction false} PathCons(b: Block, c: Block)
    requires Below(c, b)
    ensures if b == c then Path(b, c) == [] else b.Block? && Below(c, b.prev) && Path(b, c) == [b] + Path(b.prev, c)
  {
  }

  lemma ChainedNone(c: Block)
    ensures Reversed([]) == [] && Chained(c, [])
  {
  }

  lemma ChainedSnoc(c: Block, low: seq<Block>, b: Block)
    requires Chained(c, low) && b.Block? && b.prev == Tip(c, low, |low|)
    ensures Chained(c, low + [b])
  {
    var run := low + [b];
    forall i: nat | i < |run| ensures Link(c, run, i) {
      if i < |low| {
        assert Link(c, low, i);
      }
    }
  }

  lemma {:induction false} ChainedNum(base: Block, blocks: seq<Block>, i: nat)
    requires Chained(base, blocks) && i <= |blocks|
    ensures Num(Tip(base, blocks, i)) == Num(base) + i && Below(base, Tip(base, blocks, i))
    decreases i
  {
    if i > 0 {
      ChainedNum(base, blocks, i - 1);
      assert Link(base, blocks, i - 1);
      PrevBelow(blocks[i - 1]);
      BelowTransitive(base, Tip(base, blocks, i - 1), blocks[i - 1]);
    } else {
      BelowRefl(base);
    }
  }

  /** The next block of a run is still in the index and builds on the current tip. */
  lemma RunStep(i0: seq<Block>, i1: seq<Block>, base: Block, blocks: seq<Block>, n: nat, lib: nat, log: seq<Block>,
                valid: Block -> bool)
    requires Chained(base, blocks) && n < |blocks| && (forall x :: x in blocks ==> x in i0)
    requires Trimmed(i0, i1, lib) && Anchored(i1, Tip(base, blocks, n), lib, log, valid)
    ensures blocks[n] in i1 && blocks[n].Block? && blocks[n].prev == Tip(base, blocks, n)
  {
    assert blocks[n] in blocks && Link(base, blocks, n);
    PrevBelow(blocks[n]);
  }

  lemma FirstLink(head: Block, bad: seq<Block>)
    requires Chained(head, bad) && bad != []
    ensures bad[0].Block? && bad[0].prev == head
  {
    assert Link(head, bad, 0);
  }

  lemma {:induction false} NotOnChain(head: Block, bad: seq<Block>, i: nat)
    requires Chained(head, bad) && i < |bad|
    ensures !Below(bad[i], head) && bad[i] != head
  {
    ChainedNum(head, bad, i + 1);
    if Below(bad[i], head) {
      BelowNum(bad[i], head);
    }
  }

  lemma DiscardOk(i0: seq<Block>, i1: seq<Block>, head: Block, bad: seq<Block>, lib: nat, log: seq<Block>,
                  valid: Block -> bool)
    requires Anchored(i0, head, lib, log, valid) && Chained(head, bad)
    requires forall x :: x in i1 <==> x in i0 && x !in bad
    ensures Anchored(i1, head, lib, log, valid)
  {
    forall x | x in i0 && x !in i1 ensures !Below(x, head) {
      var i :| 0 <= i < |bad| && bad[i] == x;
      NotOnChain(head, bad, i);
    }
    AnchoredForget(i0, i1, head, lib, log, valid);
  }

  lemma {:induction false} PathLast(b: Block, c: Block)
    requires Below(c, b)
    ensures Path(b, c) == [] <==> b == c
    ensures b != c ==> Path(b, c)[|Path(b, c)| - 1].Block? && Path(b, c)[|Path(b, c)| - 1].prev == c
    decreases b
  {
    if b != c {
      PathLast(b.prev, c);
    }
  }

  lemma {:induction false} ReversedNonEmpty(s: seq<Block>)
    ensures Reversed(s) == [] <==> s == []
  {
  }

  /** The blocks of `bad` are gone; of the others only some below number `lib` may be. */
  ghost predicate Dropped(i0: seq<Block>, i1: seq<Block>, bad: seq<Block>, lib: nat) {
    && (forall x :: x in i1 ==> x in i0 && x !in bad)
    && (forall x :: x in i0 && x !in bad && Num(x) >= lib ==> x in i1)
  }

  lemma DroppedFrom(i0: seq<Block>, i1: seq<Block>, i2: seq<Block>, bad: seq<Block>, lib: nat)
    requires Trimmed(i0, i1, lib) && forall x :: x in i2 <==> x in i1 && x !in bad
    ensures Dropped(i0, i2, bad, lib)
  {
  }

  lemma DroppedAgain(i0: seq<Block>, i1: seq<Block>, i2: seq<Block>, bad: seq<Block>, lib: nat)
    requires exists l: nat :: l <= lib && Dropped(i0, i1, bad, l)
    requires Trimmed(i1, i2, lib)
    ensures Dropped(i0, i2, bad, lib)
  {
  }

  lemma RunTail(c: Block, run: seq<Block>, m: nat)
    requires Chained(c, run) && m < |run|
    ensures Chained(Tip(c, run, m), run[m..])
  {
    var tail := run[m..];
    forall i: nat | i < |tail| ensures Link(Tip(c, run, m), tail, i) {
      assert Link(c, run, m + i);
    }
  }

  lemma {:induction false} AnchoredSafe(index: seq<Block>, head: Block, lib: nat, log: seq<Block>, valid: Block -> bool)
    requires Anchored(index, head, lib, log, valid)
    ensures |log| <= lib <= Num(head) && log == History(head)[..|log|] && Applies(head, lib, valid)
  {
    HistoryLength(head);
  }

  /** A block left in the index below the fork point means nothing at or above it became irreversible. */
  lemma {:induction false} StillReversible(i1: seq<Block>, i2: seq<Block>, lib0: nat, lib: nat, applied: nat, c: Block)
    requires i2 != [] && (forall x :: x in i2 ==> x in i1) && Num(i2[0]) < Num(c)
    requires applied > 0 ==> Floor(i1, lib)
    requires applied == 0 ==> lib == lib0
    requires lib0 <= Num(c)
    ensures lib <= Num(c)
  {
    assert i2[0] in i2;
  }

  /** The oldest block of the index is no higher than the irreversible one, and no lower where nothing older is held. */
  lemma OldestHeld(i0: seq<Block>, i1: seq<Block>, i2: seq<Block>, head: Block, lib0: nat, lib: nat, log: seq<Block>,
                   valid: Block -> bool, applied: nat)
    requires Anchored(i2, head, lib, log, valid) && InNumberOrder(i2)
    requires Trimmed(i0, i1, lib) && (forall x :: x in i2 ==> x in i1)
    requires if applied > 0 then Floor(i1, lib) else lib == lib0
    ensures i2 != [] && Num(i2[0]) <= lib
    ensures Floor(i0, lib0) ==> Num(i2[0]) >= lib
  {
    var x := At(head, lib);
    assert x in i2;
    var k :| 0 <= k < |i2| && i2[k] == x;
    assert i2[0] in i2;
  }

  /**
   * With the fork database at a higher block, linked down to the height of the head, a switch to
   * that block can be carried out exactly when the fork point is not below the irreversible block
   * and reached by links; and it does not break.
   */
  lemma {:induction false} SwitchAhead(index: seq<Block>, newHead: Block, head: Block, lib: nat, log: seq<Block>,
                                       valid: Block -> bool)
    requires Anchored(index, head, lib, log, valid) && Num(newHead) > Num(head) && !Below(head, newHead)
    requires Linked(index, newHead, Num(head))
    ensures !BreaksOn(index, newHead, head)
    ensures var c := Fork(newHead, head);
            CanSwitch(index, newHead, head, newHead, lib) <==> lib <= Num(c) && Linked(index, newHead, Num(c))
  {
    var c := Fork(newHead, head);
    if Below(newHead, head) {
      BelowNum(newHead, head);
    }
    BelowNum(c, head);
    AtUnique(c, head);
    AtUnique(c, newHead);
    BelowRefl(newHead);
    if CanSwitch(index, newHead, head, newHead, lib) {
      HeldIsLinked(index, newHead, head, lib);
    }
    if lib <= Num(c) && Linked(index, newHead, Num(c)) {
      LinkedIsHeld(index, newHead, head, lib);
      assert At(newHead, Num(newHead)) in index;
    }
  }

  lemma {:induction false} HeldIsLinked(index: seq<Block>, newHead: Block, head: Block, lib: nat)
    requires BranchesHeld(index, newHead, head) && Linked(index, head, lib) && lib <= Num(Fork(newHead, head))
    ensures Num(Fork(newHead, head)) <= Num(newHead) && Linked(index, newHead, Num(Fork(newHead, head)))
  {
    var c := Fork(newHead, head);
    BelowNum(c, head);
    AtUnique(c, head);
    AtUnique(c, newHead);
    forall m: nat | Num(c) <= m <= Num(newHead) ensures At(newHead, m) in index {
      var x := At(newHead, m);
      OneChain(c, x, newHead);
      PathMembers(newHead, c, x);
      assert At(head, Num(c)) in index;
    }
  }

  lemma {:induction false} LinkedIsHeld(index: seq<Block>, newHead: Block, head: Block, lib: nat)
    requires Num(Fork(newHead, head)) <= Num(newHead) && Linked(index, newHead, Num(Fork(newHead, head)))
    requires Linked(index, head, lib) && lib <= Num(Fork(newHead, head))
    ensures BranchesHeld(index, newHead, head)
  {
    var c := Fork(newHead, head);
    forall x | x in Path(newHead, c) ensures x in index {
      PathMembers(newHead, c, x);
      AtUnique(x, newHead);
      BelowNum(c, x);
    }
    forall x | x in Path(head, c) ensures x in index {
      PathMembers(head, c, x);
      AtUnique(x, head);
      BelowNum(c, x);
    }
  }

  lemma SwitchingStops(valid: Block -> bool, newHead: Block, s: Record, s': Record, low: nat)
    requires s.top.Some? && s'.lib == s.lib && s'.log == s.log && s'.index == s.index && Below(s'.head, s.head)
    requires BreaksOn(s.index, newHead, s.head) ==> s'.head == s.head
    requires !CanSwitch(s.index, newHead, s.head, s.top.value, s.lib)
    ensures Switching(valid, newHead, s, s', if BreaksOn(s.index, newHead, s.head) then Broken else Aborted, 0, low)
  {
  }

  lemma {:induction false} SwitchingSucceeds(valid: Block -> bool, newHead: Block, s: Record, s': Record, n: nat,
                                             low: nat)
    requires s.top.Some? && CanSwitch(s.index, newHead, s.head, s.top.value, s.lib)
    requires s'.head == newHead && s'.top == Some(newHead)
    requires var run := Reversed(Path(newHead, Fork(newHead, s.head))); forall i: nat :: i < |run| ==> valid(run[i])
    ensures Switching(valid, newHead, s, s', Switched, n, low)
  {
    BranchChained(newHead, Fork(newHead, s.head));
  }

  lemma SwitchingFails(valid: Block -> bool, newHead: Block, s: Record, s': Record, back: bool, n: nat, low: nat)
    requires s.top.Some? && CanSwitch(s.index, newHead, s.head, s.top.value, s.lib)
    requires Failing(valid, newHead, s, s', back, n, low)
    ensures Switching(valid, newHead, s, s', if back then Reverted else Stayed, n, low)
  {
  }

  lemma {:induction false} FailingThen(valid: Block -> bool, newHead: Block, s: Record, s': Record, c: Block,
                                       run: seq<Block>, back: bool, n: nat, low: nat)
    requires c == Fork(newHead, s.head) && run == Reversed(Path(newHead, c))
    requires n < |run| && (forall i: nat :: i < n ==> valid(run[i])) && !valid(run[n])
    requires Dropped(s.index, s'.index, run[n..], s'.lib) && s'.top == Some(s'.head) && s.lib <= low <= s'.lib
    requires s'.head == if back then s.head else Tip(c, run, n)
    requires back ==> Num(Tip(c, run, n)) < Num(s.head) && low <= Num(c) && (Floor(s.index, s.lib) ==> low < Num(c))
    requires !back ==> s'.lib == low && (Num(c) <= low || Num(s.head) <= Num(s'.head))
    ensures Failing(valid, newHead, s, s', back, n, low)
  {
  }

  /** The part of a switch that the caller goes by. */
  lemma SwitchingEnds(valid: Block -> bool, newHead: Block, s: Record, s': Record, r: Switch, n: nat, low: nat)
    requires Switching(valid, newHead, s, s', r, n, low)
    ensures r == Broken <==> BreaksOn(s.index, newHead, s.head)
    ensures r in {Switched, Reverted, Stayed} <==> CanSwitch(s.index, newHead, s.head, s.top.value, s.lib)
  {
  }

  lemma {:induction false} CanGoBack(index: seq<Block>, head: Block, lib: nat, log: seq<Block>, valid: Block -> bool,
                                     c: Block)
    requires Anchored(index, head, lib, log, valid) && Below(c, head) && lib <= Num(c)
    ensures CanPop(index, head, head, lib, c) && At(head, Num(head) - (Num(head) - Num(c))) == c
  {
    AtUnique(c, head);
    LinkedHere(index, head, lib, Num(c));
  }

  /** The branch that was left is untouched by what happened on the other one, and applies again. */
  lemma {:induction false} BranchSurvives(i0: seq<Block>, i2: seq<Block>, newHead: Block, original: Block, lib0: nat,
                                          lib: nat, bad: seq<Block>, valid: Block -> bool)
    requires var c := Fork(newHead, original);
             && lib0 <= Num(c) && lib <= Num(c)
             && (forall x :: x in bad ==> x in Path(newHead, c))
             && (forall x :: x in Path(original, c) ==> x in i0)
    requires Dropped(i0, i2, bad, lib) && Applies(original, lib0, valid)
    ensures forall x :: x in Path(original, Fork(newHead, original)) ==> x in i2 && valid(x)
  {
    var c := Fork(newHead, original);
    forall x | x in Path(original, c) ensures x in i2 && valid(x) {
      PathMembers(original, c, x);
      BelowNum(c, x);
      AtUnique(x, original);
      if x in bad {
        PathMembers(newHead, c, x);
        ForkIsMostRecent(newHead, original, x);
        BelowNum(x, c);
      }
    }
  }

  /** More linked blocks do not disturb the chain, and the fork database's head can only have risen. */
  lemma {:induction false} PushAligned(i0: seq<Block>, d0: Block, i1: seq<Block>, d1: Option<Block>, head: Block,
                                       lib: nat, log: seq<Block>, valid: Block -> bool)
    requires Anchored(i0, head, lib, log, valid) && AlignedWith(d0, head, lib)
    requires forall x :: x in i0 ==> x in i1
    requires d1 == Some(d0) || (d1.Some? && Num(d1.value) > Num(d0))
    ensures Anchored(i1, head, lib, log, valid) && AlignedWith(d1.value, head, lib)
  {
    forall m: nat | lib <= m <= Num(head) ensures At(head, m) in i1 {
      assert At(head, m) in i0;
    }
  }

  lemma {:induction false} AtBelow(b: Block, a: Block)
    requires Num(a) < Num(b)
    ensures var x := At(b, Num(a)); Below(x, b) && x != b && (x == a <==> Below(a, b))
  {
    if Below(a, b) {
      AtUnique(a, b);
    }
  }

  lemma {:induction false} HistoryLength(b: Block)
    ensures |History(b)| == Num(b)
  {
  }

  // ---- whole runs ----

  datatype Input = NewBlock(block: Block) | Confirmation(from: nat, block: Block)

  /** The blocks a node has been given: the one it started from, and every one delivered. */
  ghost function HeardIn(start: Block, inputs: seq<Input>): set<Block> {
    if inputs == [] then {start}
    else
      var rest, last := HeardIn(start, inputs[..|inputs| - 1]), inputs[|inputs| - 1];
      if last.NewBlock? && last.block.Block? then rest + {last.block} else rest
  }

  ghost function ConfirmedIn(inputs: seq<Input>): set<(nat, Block)> {
    if inputs == [] then {}
    else
      var rest, last := ConfirmedIn(inputs[..|inputs| - 1]), inputs[|inputs| - 1];
      if last.Confirmation? then rest + {(last.from, last.block)} else rest
  }

  lemma {:induction false} HeardMembers(start: Block, inputs: seq<Input>, x: Block)
    requires x.Block?
    ensures x in HeardIn(start, inputs) <==> x == start || NewBlock(x) in inputs
    decreases |inputs|
  {
    if inputs != [] {
      HeardMembers(start, inputs[..|inputs| - 1], x);
      assert inputs == inputs[..|inputs| - 1] + [inputs[|inputs| - 1]];
    }
  }

  lemma {:induction false} ConfirmedMembers(inputs: seq<Input>, w: nat, x: Block)
    ensures (w, x) in ConfirmedIn(inputs) <==> Confirmation(w, x) in inputs
    decreases |inputs|
  {
    if inputs != [] {
      ConfirmedMembers(inputs[..|inputs| - 1], w, x);
      assert inputs == inputs[..|inputs| - 1] + [inputs[|inputs| - 1]];
    }
  }

  lemma {:induction false} InputsGrow(start: Block, inputs: seq<Input>, k: nat)
    requires k < |inputs|
    ensures var before := HeardIn(start, inputs[..k]);
            HeardIn(start, inputs[..k + 1]) == if inputs[k].NewBlock? &&
            inputs[k].block.Block? then before + {inputs[k].block} else before
    ensures var before := ConfirmedIn(inputs[..k]);
            ConfirmedIn(inputs[..k + 1]) ==
              if inputs[k].Confirmation? then before + {(inputs[k].from, inputs[k].block)} else before
  {
    assert inputs[..k + 1][..k] == inputs[..k];
  }

  /** The last block of a log is irreversible for a reason among what had been heard by then. */
  ghost predicate Stands(node: Node, log: seq<Block>, g: Ground, heard: set<Block>, confirmed: set<(nat, Block)>) {
    log != [] && Num(log[|log| - 1]) == |log| && node.Justified(log[|log| - 1], g, heard, confirmed)
  }

  /** Where the chain of the state stands at one moment, and what is persisted of it. */
  ghost predicate Sound(s: Record) {
    |s.log| <= s.lib <= Num(s.head) && s.log == History(s.head)[..|s.log|] && (!s.halted ==> |s.log| == s.lib)
  }

  /** What one input does to the node. */
  ghost predicate Stepping(node: Node, input: Input, s: Record, s': Record) {
    match input
    case NewBlock(b) => if b.Block? then exists r, c :: Pushing(node.valid, b, s, s', r, c) else s' == s
    case Confirmation(w, b) => exists way :: node.Confirming(w, b, s, s', way)
  }

  /** The irreversible number never decreases and the block log only grows. */
  ghost predicate Rising(trace: seq<Record>) {
    forall i: nat, j: nat :: i < j < |trace| ==> trace[i].lib <= trace[j].lib && trace[i].log <= trace[j].log
  }

  lemma RisingOn(trace: seq<Record>, r: Record)
    requires trace != [] && Rising(trace)
    requires trace[|trace| - 1].lib <= r.lib && trace[|trace| - 1].log <= r.log
    ensures Rising(trace + [r]) && |trace[0].log| <= |r.log|
  {
    var more := trace + [r];
    forall i: nat, j: nat | i < j < |more| ensures more[i].lib <= more[j].lib && more[i].log <= more[j].log {
      if j == |trace| && i < |trace| - 1 {
        assert trace[i].log <= trace[|trace| - 1].log;
      }
    }
  }

  /**
   * What a run is like. Every input does to the node what it does. The irreversible number never
   * decreases and the block log only grows, in step with each other. At every moment the last
   * block of the log stands, by what had been heard up to then; and once the log has grown, not
   * for being the start.
   */
  ghost predicate Story(node: Node, base: Block, maxSize: nat, inputs: seq<Input>, trace: seq<Record>,
                        grounds: seq<Ground>) {
    && 1 <= |trace| <= |inputs| + 1 && |grounds| == |trace| && trace[0] == FirstRecord(base, maxSize)
    && (forall i: nat :: i < |trace| - 1 ==> !trace[i].halted && Stepping(node, inputs[i], trace[i], trace[i + 1]))
    && Rising(trace) && (forall i: nat :: i < |trace| ==> Sound(trace[i]))
    && (forall i: nat :: i < |trace| ==>
                           Stands(node, trace[i].log, grounds[i], HeardIn(base, inputs[..i]), ConfirmedIn(inputs[..i])))
    && (forall i: nat :: 0 < i < |trace| && |trace[i].log| > |trace[i - 1].log| ==> !grounds[i].Start?)
  }

  lemma {:induction false} StoryBegins(node: Node, base: Block, maxSize: nat, inputs: seq<Input>, g: Ground)
    requires Stands(node, History(base), g, {base}, {})
    ensures Story(node, base, maxSize, inputs, [FirstRecord(base, maxSize)], [g])
    ensures HeardIn(base, inputs[..0]) == {base} && ConfirmedIn(inputs[..0]) == {}
  {
    assert History(base)[..Num(base)] == History(base);
  }

  lemma {:induction false} StoryGoesOn(node: Node, base: Block, maxSize: nat, inputs: seq<Input>, trace: seq<Record>,
                                       grounds: seq<Ground>, r: Record, g: Ground)
    requires Story(node, base, maxSize, inputs, trace, grounds) && |trace| <= |inputs| && node.start == base
    requires var last := trace[|trace| - 1]; !last.halted && last.lib <= r.lib && last.log <= r.log
    requires Stepping(node, inputs[|trace| - 1], trace[|trace| - 1], r) && Sound(r)
    requires Stands(node, r.log, g, HeardIn(base, inputs[..|trace|]), ConfirmedIn(inputs[..|trace|]))
    ensures Story(node, base, maxSize, inputs, trace + [r], grounds + [g])
  {
    hide HeardIn, ConfirmedIn, Stands, History, Num, Stepping, Sound, Rising;
    StartShort(node, base, r.log, g, HeardIn(base, inputs[..|trace|]), ConfirmedIn(inputs[..|trace|]));
    RisingOn(trace, r);
  }

  lemma {:induction false} StartShort(node: Node, base: Block, log: seq<Block>, g: Ground, heard: set<Block>,
                                      confirmed: set<(nat, Block)>)
    requires Stands(node, log, g, heard, confirmed) && node.start == base
    ensures |log| > |History(base)| ==> !g.Start?
  {
  }

  predicate Uprooted(input: Input) {
    input.NewBlock? && input.block.Block? && input.block.prev == Genesis
  }

  /** Input `k` is a block without predecessor that comes when the chain is past its start and nothing is too old. */
  ghost predicate CameIn(inputs: seq<Input>, trace: seq<Record>, k: nat) {
    && k + 1 < |trace| <= |inputs| + 1 && Uprooted(inputs[k])
    && trace[k].lib > 1 && HorizonOf(trace[k].top, trace[k].maxSize) == 0
  }

  lemma CameBefore(inputs: seq<Input>, trace: seq<Record>, r: Record)
    requires |trace| <= |inputs| && exists k: nat :: CameIn(inputs, trace, k)
    ensures exists k: nat :: CameIn(inputs, trace + [r], k)
  {
    var k: nat :| CameIn(inputs, trace, k);
    assert CameIn(inputs, trace + [r], k);
  }

  /**
   * Over any run of blocks and confirmations, from any starting point, the node tells the story
   * above, and its log is a prefix of the chain the state is on. A run ends early only when the
   * node goes down. `stray` says that a block without predecessor came in past the start and
   * nothing has been applied since; without one the fork database holds nothing below the
   * irreversible block.
   */
  method RunNode(base: Block, valid: Block -> bool, schedule: Block -> seq<nat>, threshold: nat, votingStart: nat,
                 maxWitnesses: nat, maxSize: nat, inputs: seq<Input>)
    returns (node: Node, trace: seq<Record>, ghost grounds: seq<Ground>, ghost stray: bool)
    requires base.Block? && ONE_HUNDRED_PERCENT / 2 < threshold <= ONE_HUNDRED_PERCENT
    requires forall b: Block :: Distinct(schedule(b))
    ensures fresh(node) && fresh(node.db) && node.Safe() && (!node.halted ==> node.Valid()) && node.start == base
    ensures Story(node, base, maxSize, inputs, trace, grounds) && trace[|trace| - 1] == node.Now()
    ensures !node.halted ==> |trace| == |inputs| + 1 && |node.log| == node.lib
    ensures !node.halted && !stray ==> Floor(node.db.index, node.lib)
    ensures stray ==> exists k: nat :: CameIn(inputs, trace, k)
    ensures node.valid == valid && node.schedule == schedule && node.threshold == threshold &&
            node.votingStart == votingStart && node.maxWitnesses == maxWitnesses
  {
    hide Node.Valid, Node.Safe, Node.Configured, Node.Justified, Node.Grounded, Anchored, History, Num, Stands,
         HeardIn, ConfirmedIn, Floor, Story, Stepping, Sound, FirstRecord;
    node := new Node(base, valid, schedule, threshold, votingStart, maxWitnesses, maxSize);
    trace, grounds, stray := [node.Now()], [node.ground], false;
    node.ValidSafe();
    node.SafeStands();
    StoryBegins(node, base, maxSize, inputs, node.ground);
    for k := 0 to |inputs|
      invariant fresh(node) && fresh(node.db) && node.Safe() && node.start == base
      invariant !node.halted ==> node.Valid() && (!stray ==> Floor(node.db.index, node.lib))
      invariant |trace| == k + 1 && Story(node, base, maxSize, inputs, trace, grounds) && trace[k] == node.Now()
      invariant node.heard == HeardIn(base, inputs[..k]) && node.confirmed == ConfirmedIn(inputs[..k])
      invariant stray ==> exists j: nat :: CameIn(inputs, trace, j)
    {
      if node.halted {
        break;
      }
      InputsGrow(base, inputs, k);
      ghost var was := stray;
      stray := Take(node, inputs[k], stray);
      if was {
        CameBefore(inputs, trace, node.Now());
      } else if stray {
        assert CameIn(inputs, trace + [node.Now()], k);
      }
      node.SafeStands();
      node.SafeSound();
      StoryGoesOn(node, base, maxSize, inputs, trace, grounds, node.Now(), node.ground);
      trace, grounds := trace + [node.Now()], grounds + [node.ground];
    }
    if !node.halted {
      node.LogIsLib();
    }
  }

  /** One input. */
  method Take(node: Node, input: Input, ghost stray: bool) returns (ghost stray': bool)
    requires node.Valid() && (!stray ==> Floor(node.db.index, node.lib))
    modifies node, node.db
    ensures node.Safe() && (!node.halted ==> node.Valid() && (!stray' ==> Floor(node.db.index, node.lib)))
    ensures Stepping(node, input, old(node.Now()), node.Now())
    ensures old(node.lib) <= node.lib && old(node.log) <= node.log
    ensures node.heard == if input.NewBlock? && input.block.Block? then old(node.heard) + {input.block}
                          else old(node.heard)
    ensures node.confirmed == if input.Confirmation? then old(node.confirmed) + {(input.from, input.block)}
                              else old(node.confirmed)
    ensures stray' && !stray ==> Uprooted(input) && old(node.lib > 1 && node.db.Horizon() == 0)
  {
    hide Node.Valid, Node.Safe, Floor, Pushing, Node.Confirming;
    stray' := stray;
    match input {
      case NewBlock(b) =>
        node.ValidSafe();
        if b.Block? {
          var r;
          ghost var c;
          r, c, stray' := node.Deliver(b, stray);
        }
      case Confirmation(w, b) =>
        ghost var way := node.FastConfirm(w, b);
    }
  }

  // ---- how the node goes down ----

  /** `bad` builds on `base`, and `a` and `b` build on `bad`. */
  ghost predicate Twins(base: Block, bad: Block, a: Block, b: Block) {
    && base.Block? && bad.Block? && bad.prev == base && a.Block? && a.prev == bad && b.Block? && b.prev == bad && a != b
  }

  const ROOMY := 1024                     // a size of the fork database

  /** A block whose predecessor has not come is set aside. */
  lemma TwinWaits(valid: Block -> bool, base: Block, bad: Block, x: Block, s: Record, s': Record, r: PushResult,
                  c: Course)
    requires base.Block? && bad.Block? && bad.prev == base && x.Block? && x.prev == bad
    requires s.index == [base] && s.top == Some(base) && s.maxSize == ROOMY && !s.halted
    requires Pushing(valid, x, s, s', r, c)
    ensures r == Refused && s' == s.(unlinked := s.unlinked + {x})
  {
    assert bad !in s.index && Num(x) == Num(base) + 2;
  }

  lemma {:induction false} TwinsLinked(valid: Block -> bool, base: Block, bad: Block, a: Block, b: Block, s: Record,
                                       s': Record, r: PushResult, c: Course)
    requires Twins(base, bad, a, b) && s.index == [base] && s.top == Some(base) && s.maxSize == ROOMY && s.head == base
    requires s.unlinked == {a, b} && Pushing(valid, bad, s, s', r, c)
    ensures a in c.held && b in c.held && bad in c.held && c.best in {a, b}
    ensures forall x :: x in c.held ==> x in {base, bad, a, b}
    ensures r in {Applied, Rejected} && !s'.halted
    ensures Below(base, c.best) && Following(valid, c.best, s.(index := c.held, top := Some(c.best)), s', r == Applied,
                                             c.applied)
  {
    assert base in s.index && Below(base, bad) && Below(bad, bad);
    var best := c.best;
    assert best in {a, b};
    AtUnique(bad, best);
    AtUnique(base, best);
    forall m: nat | Num(base) <= m <= Num(best) ensures At(best, m) in c.held {
      assert m == Num(base) || m == Num(bad) || m == Num(best);
    }
  }

  lemma {:induction false} TwinRun(base: Block, bad: Block, best: Block)
    requires bad.Block? && bad.prev == base && best.Block? && best.prev == bad
    ensures Below(base, best) && Reversed(Path(best, base)) == [bad, best]
  {
    assert Below(base, base) && Below(base, bad);
    PrevBelow(bad);
    PrevBelow(best);
    assert Path(bad, base) == [bad] + Path(base, base) == [bad];
    assert Path(best, base) == [best] + Path(bad, base) == [best, bad];
    assert [best, bad][..1] == [best] && [best][..0] == [];
    assert Reversed([best]) == [best] + Reversed([]) == [best];
    assert Reversed([best, bad]) == [bad] + Reversed([best]) == [bad, best];
  }

  lemma FirstFails(valid: Block -> bool, run: seq<Block>, n: nat)
    requires run != [] && !valid(run[0]) && n <= |run| && forall i: nat :: i < n ==> valid(run[i])
    ensures n == 0
  {
  }

  /** When the bad block comes both others are linked. It takes one of them along when it is dropped, not the other. */
  lemma TwinLeft(valid: Block -> bool, base: Block, bad: Block, a: Block, b: Block, s: Record, s': Record,
                 r: PushResult, c: Course)
    requires Twins(base, bad, a, b) && s.index == [base] && s.top == Some(base) && s.maxSize == ROOMY && s.head == base
    requires s.unlinked == {a, b} && Pushing(valid, bad, s, s', r, c) && !valid(bad) && Sound(s')
    ensures s'.head == base && s'.top == Some(base) && bad !in s'.index && !s'.halted
    ensures a in s'.index || b in s'.index
    ensures forall x :: x in s'.index ==> x in {base, a, b}
  {
    hide Pushing, Path, Reversed, History, HorizonOf, Below;
    TwinsLinked(valid, base, bad, a, b, s, s', r, c);
    var best := c.best;
    TwinRun(base, bad, best);
    FirstFails(valid, [bad, best], c.applied);
    assert [bad, best][0..] == [bad, best];
    var other := if best == a then b else a;
    assert other !in [bad, best] && Num(other) >= s'.lib;
  }

  /** A block on top of the one left is the best, and a link is missing below it. */
  lemma {:induction false} LinkMissing(valid: Block -> bool, base: Block, bad: Block, left: Block, top: Block,
                                       s: Record, s': Record, r: PushResult, c: Course)
    requires base.Block? && bad.Block? && bad.prev == base && left.Block? && left.prev == bad
    requires top.Block? && top.prev == left && left in s.index
    requires s.head == base && s.top == Some(base) && Num(base) >= HorizonOf(s.top, s.maxSize) && bad !in s.index
    requires forall x :: x in s.index || x in s.unlinked ==> Num(x) <= Num(left)
    requires bad !in s.unlinked && Pushing(valid, top, s, s', r, c)
    ensures r == Crashed && s'.halted
  {
    assert c.best == top && Below(bad, bad) && Below(bad, left);
    AtUnique(bad, top);
    assert bad !in c.held;
  }

  /**
   * Two blocks come in before the block they build on, which does not apply. One of them is
   * dropped with it and the other stays, its predecessor gone. A block on top of that one takes
   * the node down.
   */
  method DeadLink(base: Block, bad: Block, a: Block, b: Block, valid: Block -> bool, schedule: Block -> seq<nat>,
                  threshold: nat, votingStart: nat, maxWitnesses: nat) returns (node: Node, r: PushResult)
    requires Twins(base, bad, a, b) && !valid(bad)
    requires ONE_HUNDRED_PERCENT / 2 < threshold <= ONE_HUNDRED_PERCENT && forall x: Block :: Distinct(schedule(x))
    ensures r == Crashed && node.halted
  {
    hide Pushing, Anchored, Linked, Num, Below, At, History, Distinct, KnownFrom, Node.Justified, Following,
         Node.Valid, Node.Safe, Floor;
    node := new Node(base, valid, schedule, threshold, votingStart, maxWitnesses, ROOMY);
    ghost var s0 := node.Now();
    ghost var c;
    r, c := node.PushBlock(a);
    ghost var s1 := node.Now();
    TwinWaits(valid, base, bad, a, s0, s1, r, c);
    r, c := node.PushBlock(b);
    ghost var s2 := node.Now();
    TwinWaits(valid, base, bad, b, s1, s2, r, c);
    r, c := node.PushBlock(bad);
    ghost var s3 := node.Now();
    node.SafeSound();
    TwinLeft(valid, base, bad, a, b, s2, s3, r, c);
    var left := if a in node.db.index then a else b;
    StillWaiting(node, base, bad, a, b);
    var top := Block(left, 0, 0);
    r, c := node.PushBlock(top);
    LinkMissing(valid, base, bad, left, top, s3, node.Now(), r, c);
  }

  lemma {:induction false} StillWaiting(node: Node, base: Block, bad: Block, a: Block, b: Block)
    requires node.Valid() && Twins(base, bad, a, b) && node.heard == {base, a, b, bad} && node.db.head == Some(base)
    ensures bad !in node.db.unlinked
    ensures forall x :: x in node.db.index || x in node.db.unlinked ==> Num(x) <= Num(a) == Num(b)
    ensures HorizonOf(node.db.head, node.db.maxSize) <= Num(base)
  {
  }
}
