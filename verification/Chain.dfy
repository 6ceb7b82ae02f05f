// Blocks and their ancestry. A block id is a hash over a header that names the
// previous block, so an id stands for the block's whole history; here the
// history is part of the block value itself.

module Chain {
  import opened Common

  datatype Block = Genesis | Block(prev: Block, producer: nat, salt: nat)

  /** The block number, one more than that of the previous block. */
  function Num(b: Block): nat {
    match b
    case Genesis => 0
    case Block(prev, _, _) => 1 + Num(prev)
  }

  /** `a` is `b` or lies below it. */
  predicate Below(a: Block, b: Block) {
    a == b || (b.Block? && Below(a, b.prev))
  }

  /** The ancestor of `b` with number `n`. */
  function At(b: Block, n: nat): (r: Block)
    requires n <= Num(b)
    ensures Num(r) == n && Below(r, b)
  {
    if n == Num(b) then b else At(b.prev, n)
  }

  /** Blocks number 1 to Num(b) of the chain that ends in `b`. */
  ghost function History(b: Block): (r: seq<Block>)
    ensures |r| == Num(b)
  {
    match b
    case Genesis => []
    case Block(prev, _, _) => History(prev) + [b]
  }

  lemma {:induction false} HistoryAt(b: Block, n: nat)
    requires 1 <= n <= Num(b)
    ensures History(b)[n - 1] == At(b, n)
    decreases b
  {
    if n < Num(b) {
      HistoryAt(b.prev, n);
    }
  }

  lemma {:induction false} BelowRefl(b: Block)
    ensures Below(b, b)
  {
  }

  lemma {:induction false} PrevBelow(b: Block)
    requires b.Block?
    ensures Below(b.prev, b) && Num(b) == Num(b.prev) + 1 && b != b.prev
  {
    assert Below(b.prev, b.prev);
  }

  lemma {:induction false} BelowTransitive(a: Block, b: Block, c: Block)
    requires Below(a, b) && Below(b, c)
    ensures Below(a, c)
    decreases c
  {
    if b != c {
      BelowTransitive(a, b, c.prev);
    }
  }

  lemma {:induction false} BelowNum(a: Block, b: Block)
    requires Below(a, b)
    ensures Num(a) <= Num(b) && (Num(a) == Num(b) ==> a == b)
    decreases b
  {
    if a != b {
      BelowNum(a, b.prev);
    }
  }

  /** Two ancestors of one block lie on one chain, the lower one below the higher. */
  lemma {:induction false} OneChain(a: Block, b: Block, c: Block)
    requires Below(a, c) && Below(b, c) && Num(a) <= Num(b)
    ensures Below(a, b)
    decreases c
  {
    if b != c {
      if a == c {
        BelowNum(b, c);
      } else {
        OneChain(a, b, c.prev);
      }
    }
  }

  lemma {:induction false} AtUnique(a: Block, b: Block)
    requires Below(a, b)
    ensures Num(a) <= Num(b) && At(b, Num(a)) == a
  {
    BelowNum(a, b);
    var c := At(b, Num(a));
    OneChain(a, c, b);
    BelowNum(a, c);
  }

  lemma {:induction false} AtAt(b: Block, m: nat, n: nat)
    requires n <= m <= Num(b)
    ensures At(At(b, m), n) == At(b, n)
  {
    var x := At(At(b, m), n);
    BelowTransitive(x, At(b, m), b);
    AtUnique(x, b);
  }

  /** The blocks above `c` on the way down from `b`, highest first. */
  ghost function Path(b: Block, c: Block): (r: seq<Block>)
    requires Below(c, b)
    decreases b
  {
    if b == c then [] else [b] + Path(b.prev, c)
  }

  lemma {:induction false} PathMembers(b: Block, c: Block, x: Block)
    requires Below(c, b)
    ensures x in Path(b, c) <==> Below(x, b) && Below(c, x) && x != c
    decreases b
  {
    BelowNum(c, b);
    if b != c {
      PathMembers(b.prev, c, x);
      if x == b {
        BelowNum(c, b.prev);
      } else if Below(x, b) {
        assert Below(x, b.prev);
      }
    } else if Below(x, b) && Below(c, x) {
      BelowNum(x, b);
      BelowNum(c, x);
    }
  }

  /** Going from `b` down to `m` and on to `c` is going from `b` down to `c`. */
  lemma {:induction false} PathSplit(b: Block, m: Block, c: Block)
    requires Below(m, b) && Below(c, m)
    ensures Below(c, b) && Path(b, c) == Path(b, m) + Path(m, c)
    decreases b
  {
    BelowTransitive(c, m, b);
    var low := Path(m, c);
    if b == m {
      assert Path(b, m) + low == low;
    } else {
      PathSplit(b.prev, m, c);
      assert b != c by {
        BelowNum(m, b.prev);
        BelowNum(c, m);
      }
      var high := Path(b.prev, m);
      hide Path, Num;
      assert [b] + (high + low) == [b] + high + low;
    }
  }

  /** The most recent block below both. */
  ghost function Fork(a: Block, b: Block): (c: Block)
    ensures Below(c, a) && Below(c, b)
    decreases Num(a) + Num(b)
  {
    if Num(a) > Num(b) then Fork(a.prev, b)
    else if Num(b) > Num(a) then Fork(a, b.prev)
    else if a == b then a
    else Fork(a.prev, b.prev)
  }

  lemma {:induction false} ForkIsMostRecent(a: Block, b: Block, x: Block)
    requires Below(x, a) && Below(x, b)
    ensures Below(x, Fork(a, b))
    decreases Num(a) + Num(b)
  {
    BelowNum(x, a);
    BelowNum(x, b);
    if Num(a) > Num(b) {
      ForkIsMostRecent(a.prev, b, x);
    } else if Num(b) > Num(a) {
      ForkIsMostRecent(a, b.prev, x);
    } else if a != b {
      ForkIsMostRecent(a.prev, b.prev, x);
    }
  }
}
