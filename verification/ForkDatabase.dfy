// The fork database: a tree of recent blocks kept in block number order, with
// blocks that do not link yet set aside.

module ForkDatabase {
  import opened Common
  import opened Chain

  datatype PushOutcome = Accepted | TooOld | Unlinkable

  ghost predicate InNumberOrder(s: seq<Block>) {
    forall i: nat, j: nat :: i < j < |s| ==> Num(s[i]) <= Num(s[j])
  }

  ghost predicate NoDuplicates(s: seq<Block>) {
    forall i: nat, j: nat :: i < j < |s| ==> s[i] != s[j]
  }

  ghost predicate AllReal(s: seq<Block>) {
    forall i: nat :: i < |s| ==> s[i].Block?
  }

  /** Behind every block of the same or a lower number. */
  function Place(s: seq<Block>, b: Block): (k: nat)
    ensures k <= |s|
    ensures forall i: nat :: k <= i < |s| ==> Num(s[i]) > Num(b)
    ensures k > 0 ==> Num(s[k - 1]) <= Num(b)
  {
    if s == [] then 0
    else if Num(s[|s| - 1]) <= Num(b) then |s|
    else Place(s[..|s| - 1], b)
  }

  /** Ids are unique: a block already there is not inserted again. */
  function Inserted(s: seq<Block>, b: Block): (r: seq<Block>)
    ensures forall x :: x in r <==> x in s || x == b
  {
    if b in s then s else
      var k := Place(s, b);
      assert s == s[..k] + s[k..];
      s[..k] + [b] + s[k..]
  }

  lemma InsertedOk(s: seq<Block>, b: Block)
    requires InNumberOrder(s) && NoDuplicates(s) && AllReal(s) && b.Block?
    ensures InNumberOrder(Inserted(s, b)) && NoDuplicates(Inserted(s, b)) && AllReal(Inserted(s, b))
  {
    if b !in s {
      var k := Place(s, b);
      assert forall i: nat :: i < k ==> Num(s[i]) <= Num(b);
      InsertOk(s, k, b, Inserted(s, b));
    }
  }

  lemma {:induction false} InsertOk(s: seq<Block>, k: nat, b: Block, r: seq<Block>)
    requires InNumberOrder(s) && NoDuplicates(s) && AllReal(s) && b.Block? && b !in s && k <= |s|
    requires |r| == |s| + 1
    requires forall i: nat {:trigger r[i]} :: i < |r| ==>
               r[i] == if i < k then s[i] else if i == k then b else s[i - 1]
    requires forall i: nat :: i < |s| ==> if i < k then Num(s[i]) <= Num(b) else Num(s[i]) > Num(b)
    ensures InNumberOrder(r) && NoDuplicates(r) && AllReal(r)
  {
    hide Num;
    forall i: nat, j: nat | i < j < |r| ensures Num(r[i]) <= Num(r[j]) && r[i] != r[j] {
      var i', j' := if i < k then i else i - 1, if j < k then j else j - 1;
      if i != k && j != k {
        assert Num(s[i']) <= Num(s[j']) && s[i'] != s[j'];
      } else if i == k {
        assert s[j'] in s;
      } else {
        assert s[i'] in s;
      }
    }
  }

  function Without(s: seq<Block>, b: Block): (r: seq<Block>)
    ensures forall x :: x in r <==> x in s && x != b
  {
    if s == [] then []
    else if s[|s| - 1] == b then Without(s[..|s| - 1], b)
    else Without(s[..|s| - 1], b) + [s[|s| - 1]]
  }

  lemma {:induction false} WithoutOk(s: seq<Block>, b: Block)
    requires InNumberOrder(s) && NoDuplicates(s) && AllReal(s)
    ensures InNumberOrder(Without(s, b)) && NoDuplicates(Without(s, b)) && AllReal(Without(s, b))
    decreases |s|
  {
    if s != [] {
      var init := s[..|s| - 1];
      WithoutOk(init, b);
      var low := Without(init, b);
      forall x | x in low ensures Num(x) <= Num(s[|s| - 1]) && x != s[|s| - 1] {
        var i :| 0 <= i < |init| && init[i] == x;
        assert s[i] == x;
      }
      OneMore(low, s[|s| - 1]);
    }
  }

  lemma {:induction false} OneMore(s: seq<Block>, b: Block)
    requires InNumberOrder(s) && NoDuplicates(s) && AllReal(s) && b.Block?
    requires forall x :: x in s ==> Num(x) <= Num(b) && x != b
    ensures InNumberOrder(s + [b]) && NoDuplicates(s + [b]) && AllReal(s + [b])
  {
    forall i: nat | i < |s| ensures Num(s[i]) <= Num(b) && s[i] != b {
      assert s[i] in s;
    }
  }

  /** What is left when the blocks numbered `floor` or lower are dropped from the front. */
  function Pruned(s: seq<Block>, floor: nat): (r: seq<Block>) {
    if s == [] || Num(s[0]) > floor then s else Pruned(s[1..], floor)
  }

  lemma {:induction false} PrunedOk(s: seq<Block>, floor: nat)
    requires InNumberOrder(s) && NoDuplicates(s) && AllReal(s)
    ensures InNumberOrder(Pruned(s, floor)) && NoDuplicates(Pruned(s, floor)) && AllReal(Pruned(s, floor))
    ensures forall x :: x in Pruned(s, floor) <==> x in s && Num(x) > floor
    decreases |s|
  {
    if s != [] && Num(s[0]) <= floor {
      PrunedOk(s[1..], floor);
      assert forall x :: x in s <==> x == s[0] || x in s[1..];
    } else {
      forall x | x in s ensures Num(x) > floor {
        var i :| 0 <= i < |s| && s[i] == x;
        assert i == 0 || Num(s[0]) <= Num(s[i]);
      }
    }
  }

  /** The linked blocks numbered `n`. */
  function ByNumber(s: seq<Block>, n: nat): (r: seq<Block>)
    ensures forall x :: x in r <==> x in s && Num(x) == n
  {
    if s == [] then []
    else ByNumber(s[..|s| - 1], n) + if Num(s[|s| - 1]) == n then [s[|s| - 1]] else []
  }

  /** Every ancestor of `b` numbered `n` or higher, and `b` itself, is linked. */
  ghost predicate Linked(s: seq<Block>, b: Block, n: nat) {
    forall m: nat {:trigger At(b, m)} :: n <= m <= Num(b) ==> At(b, m) in s
  }

  /**
   * What linking blocks does: nothing linked is lost, whatever is new comes from `source`, hangs on
   * a linked block, and is no higher than the head, which moves only to a higher block.
   */
  ghost predicate Grown(i0: seq<Block>, h0: Option<Block>, i1: seq<Block>, h1: Option<Block>, source: set<Block>) {
    && (forall x :: x in i0 ==> x in i1)
    && (forall x :: x in i1 && x !in i0 ==>
          && x in source && x.Block? && h1.Some? && Num(x) <= Num(h1.value)
          && (x.prev in i1 || x.prev == Genesis || h0.None?))
    && (h0.Some? ==> h1 == h0 || (h1.Some? && Num(h1.value) > Num(h0.value)))
  }

  lemma GrownTransitive(i0: seq<Block>, h0: Option<Block>, i1: seq<Block>, h1: Option<Block>, i2: seq<Block>,
                        h2: Option<Block>,
                        source: set<Block>, more: set<Block>)
    requires Grown(i0, h0, i1, h1, source) && Grown(i1, h1, i2, h2, more) && more <= source
    requires h1.Some?
    ensures Grown(i0, h0, i2, h2, source)
  {
  }

  /** The age below which blocks are neither kept nor accepted. */
  function HorizonOf(head: Option<Block>, maxSize: nat): nat {
    if head.Some? && Num(head.value) > maxSize then Num(head.value) - maxSize else 0
  }

  /** Of what was set aside, whatever hangs on a linked block is linked as well, unless it has become too old. */
  ghost predicate Gathered(aside: set<Block>, index: seq<Block>, horizon: nat) {
    forall x :: x in aside && x.Block? && x.prev in index && Num(x) > horizon ==> x in index
  }

  /** Of what was set aside nothing is lost, unless it has become too old. */
  ghost predicate Kept(aside: set<Block>, aside': set<Block>, index: seq<Block>, horizon: nat) {
    forall x :: x in aside ==> x in aside' || x in index || Num(x) <= horizon
  }

  lemma NothingDone(index: seq<Block>, head: Option<Block>, aside: set<Block>, source: set<Block>, horizon: nat)
    ensures Grown(index, head, index, head, source) && Kept(aside, aside, index, horizon)
  {
  }

  /** Linking one block. */
  lemma {:induction false} OneLinked(index: seq<Block>, head: Option<Block>, b: Block, aside: set<Block>, maxSize: nat)
    requires b.Block? && (head.None? || b.prev == Genesis || b.prev in index)
    ensures var head' := if head.None? || Num(b) > Num(head.value) then Some(b) else head;
            && Grown(index, head, Inserted(index, b), head', aside + {b})
            && HorizonOf(head, maxSize) <= HorizonOf(head', maxSize)
  {
  }

  lemma {:induction false} KeptOne(aside: set<Block>, x: Block, aside': set<Block>, index: seq<Block>, horizon: nat)
    requires Kept(aside, aside', index, horizon) && (x in index || Num(x) <= horizon)
    ensures Kept(aside + {x}, aside', index, horizon)
  {
  }

  lemma KeptTransitive(u0: set<Block>, u1: set<Block>, i1: seq<Block>, h1: Option<Block>, z1: nat, u2: set<Block>,
                       i2: seq<Block>, h2: Option<Block>, z2: nat)
    requires Kept(u0, u1, i1, z1) && Kept(u1, u2, i2, z2) && z1 <= z2 && Grown(i1, h1, i2, h2, u1)
    ensures Kept(u0, u2, i2, z2)
  {
  }

  /** A block is too old exactly when it is `maxSize` or more behind the head. */
  lemma {:induction false} HorizonIs(head: Block, maxSize: nat, b: Block)
    requires b.Block?
    ensures Num(b) <= HorizonOf(Some(head), maxSize) <==> Num(b) + maxSize <= Num(head)
  {
  }

  class ForkDb {
    var index: seq<Block>
    var unlinked: set<Block>
    var head: Option<Block>
    var maxSize: nat

    ghost predicate Valid()
      reads this
    {
      && InNumberOrder(index) && NoDuplicates(index) && AllReal(index)
      && (forall x :: x in unlinked ==> x.Block? && x.prev != Genesis)
      && (head.Some? ==> head.value in index && head.value.Block?)
    }

    /** What is set aside does not link, except below the blocks in `pending`. */
    ghost predicate Aside(pending: set<Block>)
      reads this
    {
      forall x :: x in unlinked && x.Block? && x.prev in index ==> x.prev in pending
    }

    function Horizon(): nat
      reads this
    {
      HorizonOf(head, maxSize)
    }

    /** The weak pointer to the previous block: alive while that block is in the index. */
    function PrevLock(b: Block): Option<Block>
      reads this
    {
      if b.Block? && b.prev in index then Some(b.prev) else None
    }

    constructor (base: Block, maxSize: nat)
      requires base.Block?
      ensures Valid() && Aside({}) && index == [base] && head == Some(base) && unlinked == {} && this.maxSize == maxSize
    {
      index, head, unlinked, this.maxSize := [base], Some(base), {}, maxSize;
    }

    method PushOne(b: Block, ghost pending: set<Block>) returns (r: PushOutcome)
      requires Valid() && Aside(pending) && b.Block?
      modifies this`index, this`unlinked, this`head
      ensures Valid() && Aside(pending) && unlinked <= old(unlinked)
      ensures r != Accepted ==> unchanged(this)
      ensures r == TooOld <==> Num(b) <= old(Horizon())
      ensures r == Unlinkable <==> Num(b) > old(Horizon()) && old(head.Some?) && b.prev != Genesis &&
                                   b.prev !in old(index)
      ensures r == Accepted ==> b in index && head.Some?
      ensures Grown(old(index), old(head), index, head, old(unlinked) + {b})
      ensures Kept(old(unlinked), unlinked, index, Horizon()) && old(Horizon()) <= Horizon()
      decreases |unlinked|, 1
    {
      hide Kept, Grown, InNumberOrder, NoDuplicates, AllReal, Num;
      NothingDone(index, head, unlinked, unlinked + {b}, Horizon());
      PrevBelow(b);
      if head.Some? && Num(b) <= Horizon() {
        return TooOld;
      }
      if head.Some? && b.prev != Genesis && b.prev !in index {
        return Unlinkable;
      }
      InsertBlock(b, pending);
      ghost var index', head' := index, head;
      PushNext(b, pending);
      GrownTransitive(old(index), old(head), index', head', index, head, old(unlinked) + {b}, old(unlinked));
      return Accepted;
    }

    /** Links one block, which becomes the head when it is the highest. */
    method InsertBlock(b: Block, ghost pending: set<Block>)
      requires Valid() && Aside(pending) && b.Block? && (head.None? || b.prev == Genesis || b.prev in index)
      modifies this`index, this`head
      ensures Valid() && Aside(pending + {b}) && b in index && head.Some? && old(Horizon()) <= Horizon()
      ensures Grown(old(index), old(head), index, head, unlinked + {b})
    {
      hide Grown, InNumberOrder, NoDuplicates, AllReal, Num, HorizonOf, Inserted, Place;
      InsertedOk(index, b);
      OneLinked(index, head, b, unlinked, maxSize);
      index := Inserted(index, b);
      if head.None? || Num(b) > Num(head.value) {
        head := Some(b);
      }
    }

    /** Links what was waiting for `b`, depth first. */
    method PushNext(b: Block, ghost pending: set<Block>)
      requires Valid() && Aside(pending + {b}) && b in index && head.Some?
      modifies this`index, this`unlinked, this`head
      ensures Valid() && Aside(pending) && unlinked <= old(unlinked) && b in index && head.Some?
      ensures Grown(old(index), old(head), index, head, old(unlinked))
      ensures Kept(old(unlinked), unlinked, index, Horizon()) && old(Horizon()) <= Horizon()
      decreases |unlinked|, 0
    {
      hide Kept, Grown, InNumberOrder, NoDuplicates, AllReal, Num, HorizonOf;
      NothingDone(index, head, unlinked, unlinked, Horizon());
      while exists x :: x in unlinked && x.prev == b
        invariant Valid() && Aside(pending + {b}) && b in index && unlinked <= old(unlinked) && head.Some?
        invariant Grown(old(index), old(head), index, head, old(unlinked))
        invariant Kept(old(unlinked), unlinked, index, Horizon()) && old(Horizon()) <= Horizon()
        decreases unlinked
      {
        var x :| x in unlinked && x.prev == b;
        ghost var before, index', head', z := unlinked, index, head, Horizon();
        unlinked := unlinked - {x};
        assert |unlinked| < |old(unlinked)| by {
          Smaller(unlinked, before);
          Bounded(before, old(unlinked));
        }
        LinkOne(x, b, pending, before);
        GrownTransitive(old(index), old(head), index', head', index, head, old(unlinked), before);
        KeptTransitive(old(unlinked), before, index', head', z, unlinked, index, head, Horizon());
      }
    }

    method LinkOne(x: Block, b: Block, ghost pending: set<Block>, ghost before: set<Block>)
      requires Valid() && Aside(pending + {b}) && b in index && head.Some? && x.Block?
      requires unlinked == before - {x} && x in before && x.prev == b
      modifies this`index, this`unlinked, this`head
      ensures Valid() && Aside(pending + {b}) && b in index && head.Some? && unlinked <= old(unlinked)
      ensures Grown(old(index), old(head), index, head, before)
      ensures Kept(before, unlinked, index, Horizon()) && old(Horizon()) <= Horizon()
      decreases |unlinked|, 2
    {
      hide Kept, InNumberOrder, NoDuplicates, AllReal, Num, HorizonOf;
      var r := PushOne(x, pending + {b});
      assert old(unlinked) + {x} == before;
      KeptOne(old(unlinked), x, unlinked, index, Horizon());
    }

    /** Pushes a block; one that does not link is set aside. */
    method PushBlock(b: Block) returns (r: PushOutcome)
      requires Valid() && Aside({}) && b.Block?
      modifies this`index, this`unlinked, this`head
      ensures Valid() && Aside({}) && unlinked <= old(unlinked) + {b}
      ensures r == TooOld <==> Num(b) <= old(Horizon())
      ensures r == Unlinkable <==> Num(b) > old(Horizon()) && old(head.Some?) && b.prev != Genesis &&
                                   b.prev !in old(index)
      ensures r == TooOld ==> unchanged(this)
      ensures r == Unlinkable ==> index == old(index) && head == old(head) && unlinked == old(unlinked) + {b}
      ensures r == Accepted ==> b in index && head.Some?
      ensures Grown(old(index), old(head), index, head, old(unlinked) + {b})
      ensures Gathered(old(unlinked), index, Horizon())
    {
      r := PushOne(b, {});
      if r == Unlinkable {
        unlinked := unlinked + {b};
      }
    }

    method PopBlock() returns (ok: bool)
      requires Valid()
      modifies this`head
      ensures Valid()
      ensures ok <==> old(head.Some? && head.value.prev in index)
      ensures head == if ok then Some(old(head).value.prev) else old(head)
    {
      if head.None? {
        return false;
      }
      var prev := PrevLock(head.value);
      if prev.None? {
        return false;
      }
      head := prev;
      return true;
    }

    method Remove(b: Block)
      requires Valid() && Aside({})
      modifies this`head, this`index
      ensures Valid() && Aside({})
      ensures index == Without(old(index), b)
      ensures head == if old(head) == Some(b) then old(PrevLock(b)) else old(head)
    {
      if head == Some(b) {
        assert Num(b.prev) < Num(b);
        head := PrevLock(b);
      }
      WithoutOk(index, b);
      index := Without(index, b);
    }

    method SetHead(b: Block)
      requires Valid() && b in index
      modifies this`head
      ensures Valid() && head == Some(b)
    {
      head := Some(b);
    }

    /** Forgets every block at or below the horizon of the new size. */
    method SetMaxSize(size: nat)
      requires Valid() && Aside({}) && size >= 1
      modifies this`maxSize, this`index, this`unlinked
      ensures Valid() && Aside({}) && maxSize == size
      ensures head.None? ==> index == old(index) && unlinked == old(unlinked)
      ensures head.Some? ==> forall x :: x in index <==> x in old(index) && Num(x) > Horizon()
      ensures head.Some? ==> unlinked == set x | x in old(unlinked) && Num(x) > Horizon()
    {
      hide InNumberOrder, NoDuplicates, AllReal;
      maxSize := size;
      if head.None? {
        return;
      }
      var floor := Horizon();
      while index != [] && Num(index[0]) <= floor
        invariant Pruned(index, floor) == Pruned(old(index), floor)
        invariant maxSize == size && unlinked == old(unlinked)
        decreases |index|
      {
        index := index[1..];
      }
      PrunedOk(old(index), floor);
      var waiting := unlinked;
      unlinked := set x | x in waiting && Num(x) > floor;
    }

    /**
     * The two branches from `first` and `second` down to, and without, their most recent
     * common block. It fails exactly when a block on the way is not in the index.
     */
    method FetchBranchFrom(first: Block, second: Block) returns (r: Option<(seq<Block>, seq<Block>)>)
      requires Valid()
      ensures r.Some? ==> r.value == (Path(first, Fork(first, second)), Path(second, Fork(first, second)))
      ensures r.Some? <==> first in index && second in index && BranchesHeld(index, first, second)
    {
      if first !in index || second !in index {
        return None;
      }
      var a, b := first, second;
      var up, down := [], [];
      assert first.Block? && second.Block?;
      while Num(a) > Num(b)
        invariant OnTheWay(index, first, second, a, b, up, down)
        decreases Num(a)
      {
        StepDown(index, first, second, a, b, up, down);
        up := up + [a];
        if a.prev !in index {
          return None;
        }
        a := a.prev;
      }
      while Num(b) > Num(a)
        invariant OnTheWay(index, first, second, a, b, up, down) && Num(a) <= Num(b)
        decreases Num(b)
      {
        StepAcross(index, first, second, a, b, up, down);
        down := down + [b];
        if b.prev !in index {
          return None;
        }
        b := b.prev;
      }
      while a.prev != b.prev
        invariant OnTheWay(index, first, second, a, b, up, down) && Num(a) == Num(b)
        decreases Num(a)
      {
        StepBoth(index, first, second, a, b, up, down);
        up, down := up + [a], down + [b];
        if a.prev !in index || b.prev !in index {
          return None;
        }
        a, b := a.prev, b.prev;
      }
      Arrived(index, first, second, a, b, up, down);
      if a != b {
        up, down := up + [a], down + [b];
      }
      return Some((up, down));
    }

    /** The tips of all forks: linked blocks nothing linked builds on. */
    method FetchHeads() returns (r: seq<Block>)
      requires Valid()
      ensures forall x :: x in r <==> x in index && IsTip(index, x)
    {
      r := [];
      var previous := set x | x in index && x.Block? :: x.prev;
      for i := 0 to |index|
        invariant forall x :: x in r <==> x in index[..i] && IsTip(index, x)
      {
        if index[i] !in previous {
          r := r + [index[i]];
        }
      }
    }

    /** The main branch block numbered `n`, found by walking back from the head. */
    method WalkMainBranch(n: nat) returns (r: Option<Block>)
      requires Valid() && head.Some?
      ensures r == Walked(index, head.value, n)
    {
      var next := Some(head.value);
      if n > Num(head.value) {
        return None;
      }
      while next.Some? && Num(next.value) > n
        invariant next.Some? ==> next.value in index && next.value.Block? && Num(next.value) >= n &&
                                 Walked(index, next.value, n) == Walked(index, head.value, n)
        invariant next.None? ==> Walked(index, head.value, n).None?
        decreases if next.None? then 0 else Num(next.value)
      {
        next := PrevLock(next.value);
      }
      return next;
    }

    method FetchByNumber(n: nat) returns (r: seq<Block>)
      ensures r == ByNumber(index, n)
    {
      r := [];
      for i := 0 to |index|
        invariant r == ByNumber(index[..i], n)
      {
        assert index[..i + 1][..i] == index[..i];
        if Num(index[i]) == n {
          r := r + [index[i]];
        }
      }
      assert index[..|index|] == index;
    }

    /** As above, but a number held by one block only is answered without walking. */
    method FetchOnMainBranch(n: nat) returns (r: Option<Block>)
      requires Valid()
      ensures r == Fetched(index, head, n)
    {
      if head.None? || n > Num(head.value) {
        return None;
      }
      var blocks := FetchByNumber(n);
      if |blocks| == 1 {
        return Some(blocks[0]);
      }
      if |blocks| == 0 {
        return None;
      }
      r := WalkMainBranch(n);
    }

    /** Main branch blocks from `first` on, at most `count` of them, as far as the index goes back. */
    method FetchRange(first: nat, count: nat) returns (r: seq<Block>)
      requires Valid() && count >= 1
      ensures r == Ranged(index, head, first, count)
    {
      r := [];
      if head.None? || Num(head.value) < first {
        return;
      }
      var last := if first + count - 1 < Num(head.value) then first + count - 1 else Num(head.value);
      var found := FetchByNumber(last);
      if |found| == 0 {
        return;
      }
      var item := Some(found[0]);
      if |found| != 1 {
        item := WalkMainBranch(last);
      }
      if item.None? {
        return;
      }
      r := CollectDown(item.value, first);
    }

    method CollectDown(b: Block, first: nat) returns (r: seq<Block>)
      ensures r == Collected(index, b, first)
    {
      var item, backwards := Some(b), [];
      while item.Some? && Num(item.value) >= first
        invariant Collected(index, b, first) == (if item.None? then [] else Collected(index, item.value, first)) +
                    Reversed(backwards)
        decreases if item.None? then 0 else 1 + Num(item.value)
      {
        var next := PrevLock(item.value);
        CollectStep(index, item.value, first, backwards);
        backwards := backwards + [item.value];
        item := next;
      }
      r := Reversed(backwards);
      assert [] + r == r;
    }
  }

  lemma Smaller(a: set<Block>, b: set<Block>)
    requires a < b
    ensures |a| < |b|
  {
    var x :| x in b && x !in a;
    assert a <= b - {x};
    Bounded(a, b - {x});
  }

  lemma {:induction false} Bounded(a: set<Block>, b: set<Block>)
    requires a <= b
    ensures |a| <= |b|
    decreases a
  {
    if a != {} {
      var x :| x in a;
      Bounded(a - {x}, b - {x});
    }
  }

  ghost predicate IsTip(index: seq<Block>, x: Block) {
    forall i: nat :: i < |index| && index[i].Block? ==> index[i].prev != x
  }

  // ---- branches ----

  ghost predicate BranchesHeld(index: seq<Block>, first: Block, second: Block) {
    && (forall x :: x in Path(first, Fork(first, second)) ==> x in index)
    && (forall x :: x in Path(second, Fork(first, second)) ==> x in index)
  }

  /** The state of the walk: `a` and `b` reached, what lies above them collected, the fork still ahead. */
  ghost predicate OnTheWay(index: seq<Block>, first: Block, second: Block, a: Block, b: Block, up: seq<Block>,
                           down: seq<Block>) {
    && a in index && b in index && a.Block? && b.Block?
    && Below(a, first) && Below(b, second)
    && Fork(a, b) == Fork(first, second)
    && up == Path(first, a) && down == Path(second, b)
    && (forall x :: x in up ==> x in index) && (forall x :: x in down ==> x in index)
  }

  lemma {:induction false} PathSnoc(b: Block, m: Block)
    requires m.Block? && Below(m, b)
    ensures Below(m.prev, b) && Path(b, m.prev) == Path(b, m) + [m]
  {
    assert Below(m.prev, m.prev);
    assert Below(m.prev, m);
    PathSplit(b, m, m.prev);
    assert Path(m.prev, m.prev) == [];
    assert m != m.prev by { assert Num(m.prev) < Num(m); }
    assert Path(m, m.prev) == [m];
  }

  /** A block above the fork point that is not in the index means a branch is not held. */
  lemma {:induction false} MissingAbove(index: seq<Block>, first: Block, second: Block, x: Block, a: Block)
    requires (a == first || a == second) && Below(x, a) && Below(Fork(first, second), x) && x != Fork(first, second) &&
             x !in index
    ensures !BranchesHeld(index, first, second)
  {
    PathMembers(a, Fork(first, second), x);
  }

  lemma {:induction false} StepDown(index: seq<Block>, first: Block, second: Block, a: Block, b: Block, up: seq<Block>,
                                    down: seq<Block>)
    requires OnTheWay(index, first, second, a, b, up, down) && Num(a) > Num(b)
    ensures a.prev in index ==> OnTheWay(index, first, second, a.prev, b, up + [a], down)
    ensures a.prev !in index ==> !BranchesHeld(index, first, second)
  {
    PathSnoc(first, a);
    var c := Fork(a.prev, b);
    if a.prev !in index {
      BelowNum(c, b);
      MissingAbove(index, first, second, a.prev, first);
    }
  }

  lemma {:induction false} StepAcross(index: seq<Block>, first: Block, second: Block, a: Block, b: Block,
                                      up: seq<Block>, down: seq<Block>)
    requires OnTheWay(index, first, second, a, b, up, down) && Num(b) > Num(a)
    ensures b.prev in index ==> OnTheWay(index, first, second, a, b.prev, up, down + [b])
    ensures b.prev !in index ==> !BranchesHeld(index, first, second)
  {
    PathSnoc(second, b);
    var c := Fork(a, b.prev);
    if b.prev !in index {
      BelowNum(c, a);
      MissingAbove(index, first, second, b.prev, second);
    }
  }

  lemma {:induction false} StepBoth(index: seq<Block>, first: Block, second: Block, a: Block, b: Block, up: seq<Block>,
                                    down: seq<Block>)
    requires OnTheWay(index, first, second, a, b, up, down) && Num(a) == Num(b) && a.prev != b.prev
    ensures a.prev in index && b.prev in index ==> OnTheWay(index, first, second, a.prev, b.prev, up + [a], down + [b])
    ensures a.prev !in index || b.prev !in index ==> !BranchesHeld(index, first, second)
  {
    PathSnoc(first, a);
    PathSnoc(second, b);
    var c := Fork(a.prev, b.prev);
    BelowNum(c, a.prev);
    BelowNum(c, b.prev);
    assert a.prev.Block? && b.prev.Block?;
    if a.prev !in index {
      MissingAbove(index, first, second, a.prev, first);
    } else if b.prev !in index {
      MissingAbove(index, first, second, b.prev, second);
    }
  }

  lemma {:induction false} Arrived(index: seq<Block>, first: Block, second: Block, a: Block, b: Block, up: seq<Block>,
                                   down: seq<Block>)
    requires OnTheWay(index, first, second, a, b, up, down) && Num(a) == Num(b) && a.prev == b.prev
    ensures BranchesHeld(index, first, second)
    ensures a == b ==> up == Path(first, Fork(first, second)) && down == Path(second, Fork(first, second))
    ensures a != b ==> up + [a] == Path(first, Fork(first, second)) && down + [b] == Path(second, Fork(first, second))
  {
    if a != b {
      PathSnoc(first, a);
      PathSnoc(second, b);
      assert Fork(a.prev, b.prev) == a.prev;
    }
  }

  // ---- main branch lookups ----

  /** Walking back from `h`: every step needs the previous block to be linked. */
  ghost function Walked(index: seq<Block>, h: Block, n: nat): Option<Block>
    decreases h
  {
    if n > Num(h) then None
    else if n == Num(h) then Some(h)
    else if h.prev in index then Walked(index, h.prev, n)
    else None
  }

  /** Walking succeeds exactly on the part of the main branch that is linked without a gap. */
  lemma {:induction false} WalkedIs(index: seq<Block>, h: Block, n: nat)
    requires n <= Num(h) && h in index
    ensures Walked(index, h, n) == if Linked(index, h, n) then Some(At(h, n)) else None
    decreases h
  {
    if n < Num(h) {
      assert At(h, Num(h) - 1) == h.prev;
      if h.prev in index {
        WalkedIs(index, h.prev, n);
        if Linked(index, h.prev, n) {
          forall m: nat | n <= m <= Num(h) ensures At(h, m) in index {
            if m < Num(h) {
              assert At(h, m) == At(h.prev, m);
            }
          }
        } else {
          var m: nat :| n <= m <= Num(h.prev) && At(h.prev, m) !in index;
          assert At(h, m) == At(h.prev, m);
        }
      }
    } else {
      forall m: nat | n <= m <= Num(h) ensures At(h, m) in index {
      }
    }
  }

  ghost function Fetched(index: seq<Block>, head: Option<Block>, n: nat): Option<Block> {
    if head.None? || n > Num(head.value) then None
    else
      var blocks := ByNumber(index, n);
      if |blocks| == 1 then Some(blocks[0])
      else if |blocks| == 0 then None
      else Walked(index, head.value, n)
  }

  lemma OnlyOne(blocks: seq<Block>)
    requires |blocks| == 1
    ensures forall x :: x in blocks ==> x == blocks[0]
  {
  }

  /**
   * The shortcut for a number held once gives what walking back gives exactly when that
   * number is not held once by a block the main branch does not reach.
   */
  lemma {:induction false} ShortcutAgrees(index: seq<Block>, h: Block, n: nat)
    requires h in index && n <= Num(h)
    ensures Fetched(index, Some(h), n) == Walked(index, h, n)
       <==> (|ByNumber(index, n)| == 1 ==> Linked(index, h, n))
  {
    hide Walked, Num, Below, At, ByNumber;
    WalkedIs(index, h, n);
    var blocks := ByNumber(index, n);
    if Linked(index, h, n) {
      assert At(h, n) in blocks;
    }
    if |blocks| == 1 {
      OnlyOne(blocks);
    }
  }

  /** On the linked part of the main branch the lookup by number is exact. */
  lemma {:induction false} FetchedIs(index: seq<Block>, h: Block, n: nat)
    requires h in index && n <= Num(h) && Linked(index, h, n)
    ensures Fetched(index, Some(h), n) == Some(At(h, n))
  {
    ShortcutAgrees(index, h, n);
    WalkedIs(index, h, n);
  }

  // ---- ranges ----

  function Reversed(s: seq<Block>): (r: seq<Block>) {
    if s == [] then [] else [s[|s| - 1]] + Reversed(s[..|s| - 1])
  }

  /** Walking down from `b` to `first`, lowest block first, as far as blocks are linked. */
  ghost function Collected(index: seq<Block>, b: Block, first: nat): seq<Block>
    decreases b
  {
    if Num(b) < first then []
    else (if b.Block? && b.prev in index then Collected(index, b.prev, first) else []) + [b]
  }

  lemma {:induction false} CollectStep(index: seq<Block>, b: Block, first: nat, backwards: seq<Block>)
    requires Num(b) >= first
    ensures Collected(index, b, first) + Reversed(backwards)
         == (if b.Block? && b.prev in index then Collected(index, b.prev, first) else []) + Reversed(backwards + [b])
  {
    var low := if b.Block? && b.prev in index then Collected(index, b.prev, first) else [];
    assert Collected(index, b, first) == low + [b];
    hide Reversed, Collected, Num;
    ReversedSnoc(backwards, b);
    Regroup(low, b, Reversed(backwards));
  }

  lemma {:induction false} ReversedSnoc(s: seq<Block>, b: Block)
    ensures Reversed(s + [b]) == [b] + Reversed(s)
  {
    var more := s + [b];
    assert more[..|more| - 1] == s;
  }

  lemma Regroup(low: seq<Block>, b: Block, high: seq<Block>)
    ensures low + [b] + high == low + ([b] + high)
  {
  }

  ghost function Ranged(index: seq<Block>, head: Option<Block>, first: nat, count: nat): seq<Block>
    requires count >= 1
  {
    if head.None? || Num(head.value) < first then []
    else
      var last := if first + count - 1 < Num(head.value) then first + count - 1 else Num(head.value);
      match Fetched(index, head, last)
      case None => []
      case Some(b) => Collected(index, b, first)
  }

  /** The main branch blocks numbered from `from` to `until`. */
  ghost function Slice(h: Block, from: nat, until: nat): (r: seq<Block>)
    requires until <= Num(h)
    decreases until
  {
    if from > until then []
    else if until == 0 then [At(h, until)]
    else Slice(h, from, until - 1) + [At(h, until)]
  }

  lemma {:induction false} SliceSame(h: Block, b: Block, from: nat, until: nat)
    requires Below(b, h) && until <= Num(b)
    ensures until <= Num(h) && Slice(h, from, until) == Slice(b, from, until)
    decreases until
  {
    AtUnique(b, h);
    if from <= until {
      AtAt(h, Num(b), until);
      if until > 0 {
        SliceSame(h, b, from, until - 1);
      }
    }
  }

  lemma {:induction false} CollectedIs(index: seq<Block>, b: Block, low: nat, first: nat)
    requires b in index && 1 <= low <= Num(b) && 1 <= first <= Num(b) && Linked(index, b, low)
    requires forall x :: x in index ==> Num(x) >= low
    ensures Collected(index, b, first) == Slice(b, if first < low then low else first, Num(b))
    decreases b
  {
    var from := if first < low then low else first;
    if Num(b) > from {
      assert At(b, Num(b) - 1) == b.prev;
      forall m: nat | low <= m <= Num(b.prev) ensures At(b.prev, m) in index {
        assert At(b, m) == At(b.prev, m);
      }
      CollectedIs(index, b.prev, low, first);
      SliceSame(b, b.prev, from, Num(b) - 1);
    } else {
      assert Slice(b, from, Num(b) - 1) == [];
      if b.prev in index {
        assert Num(b.prev) < first;
      }
    }
  }

  lemma {:induction false} NoneNumbered(s: seq<Block>, n: nat)
    requires forall x :: x in s ==> Num(x) != n
    ensures ByNumber(s, n) == []
    decreases |s|
  {
    if s != [] {
      NoneNumbered(s[..|s| - 1], n);
    }
  }

  /**
   * When the index holds the main branch from `low` up to the head and nothing lower, a range
   * is the contiguous slice of the main branch, cut off below `low` and above the head.
   */
  lemma {:induction false} RangeIsSlice(index: seq<Block>, h: Block, low: nat, first: nat, count: nat)
    requires h in index && 1 <= low <= Num(h) && Linked(index, h, low) && forall x :: x in index ==> Num(x) >= low
    requires first >= 1 && count >= 1
    ensures var last := if first + count - 1 < Num(h) then first + count - 1 else Num(h);
            var held := if first > Num(h) || last < low then [] else Slice(h, if first < low then low else first, last);
            Ranged(index, Some(h), first, count) == held
  {
    if first <= Num(h) {
      var last := if first + count - 1 < Num(h) then first + count - 1 else Num(h);
      if last < low {
        NoneNumbered(index, last);
      } else {
        var b := At(h, last);
        forall m: nat | last <= m <= Num(h) ensures At(h, m) in index {
        }
        FetchedIs(index, h, last);
        forall m: nat | low <= m <= Num(b) ensures At(b, m) in index {
          AtAt(h, last, m);
        }
        CollectedIs(index, b, low, first);
        SliceSame(h, b, if first < low then low else first, last);
      }
    }
  }
}
