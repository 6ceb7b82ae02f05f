// The block log split into part files of equal length, of which old ones are
// removed as new ones are begun.

module SplitLog {
  import opened Arith
  import opened Common
  import opened LogFile

  const LEGACY_SINGLE_FILE := -1
  const LAST_BLOCK_NUMBER := 0xffff_ffff

  function PartOf(n: nat, perFile: nat): (r: nat)
    requires perFile > 0
    ensures r >= 1
  {
    if n == 0 then 1 else
      DivBound(n + perFile - 1, perFile, 1);
      (n + perFile - 1) / perFile
  }

  /** Part `p` holds the blocks numbered from `(p - 1) * perFile + 1` to `p * perFile`. */
  lemma PartBounds(n: nat, perFile: nat, p: nat)
    requires perFile > 0 && n >= 1 && p >= 1
    ensures p == PartOf(n, perFile) <==> (p - 1) * perFile < n <= p * perFile
  {
    var a := n + perFile - 1;
    DivBound(a, perFile, p);
    DivBound(a, perFile, p + 1);
    assert (p + 1) * perFile == p * perFile + perFile;
    assert (p - 1) * perFile == p * perFile - perFile;
  }

  function FirstBlock(p: nat, perFile: nat): nat
    requires p >= 1
  {
    1 + (p - 1) * perFile
  }

  /** The first block of a part is the least number that belongs to it. */
  lemma FirstBlockIs(p: nat, perFile: nat, n: nat)
    requires perFile > 0 && p >= 1 && n >= 1
    ensures PartOf(FirstBlock(p, perFile), perFile) == p
    ensures PartOf(n, perFile) == p ==> n >= FirstBlock(p, perFile)
  {
    MulMono(0, p - 1, 0, perFile);
    assert p * perFile == (p - 1) * perFile + perFile;
    PartBounds(FirstBlock(p, perFile), perFile, p);
    PartBounds(n, perFile, p);
  }

  lemma FirstOfAll(a: nat, b: nat)
    ensures FirstBlock(1, a) == FirstBlock(1, b) == 1
  {
  }

  /** The oldest part kept when there are `count` parts: the newest `split + 1` stay. */
  function Oldest(count: nat, split: int): (r: nat)
    ensures r >= 1
  {
    if split > 0 && count > split then count - split else 1
  }

  /** All parts are kept when they are not to be split off or are few enough; otherwise one more than the limit. */
  lemma OldestIs(count: nat, split: int)
    requires count >= 1
    ensures var kept := count - Oldest(count, split) + 1;
            kept == if split <= 0 || count <= split + 1 then count else split + 1
  {
  }

  /** The blocks of `all` that belong into part `p`. */
  ghost function Part(all: seq<Entry>, perFile: nat, p: nat): seq<Entry> {
    var from, until := (p - 1) * perFile, p * perFile;
    if 0 <= from <= |all| then all[from..if until < |all| then until else |all|] else []
  }

  /** Every part from the oldest one kept up to the newest is there, complete; the others are gone. */
  ghost predicate Kept(parts: seq<Option<seq<Entry>>>, all: seq<Entry>, perFile: nat, split: int) {
    && perFile > 0 && 1 <= |parts| && |all| <= |parts| * perFile && (|parts| > 1 ==> (|parts| - 1) * perFile < |all|)
    && forall p: nat {:trigger parts[p]} :: p < |parts| ==>
         parts[p] == if p + 1 >= Oldest(|parts|, split) then Some(Part(all, perFile, p + 1)) else None
  }

  class Parts {
    const split: int
    const partSize: nat                       // BLOCKS_IN_SPLIT_BLOCK_LOG_FILE
    var parts: seq<Option<seq<Entry>>>        // part files, each with its blocks
    ghost var all: seq<Entry>                 // everything ever appended

    function PerFile(): nat
    {
      if split == LEGACY_SINGLE_FILE then LAST_BLOCK_NUMBER else partSize
    }

    ghost predicate Valid()
      reads this
    {
      partSize > 0 && |all| <= LAST_BLOCK_NUMBER && Kept(parts, all, PerFile(), split)
    }

    constructor (split: int, partSize: nat)
      requires partSize > 0
      ensures Valid() && all == [] && this.split == split && this.partSize == partSize
    {
      this.split, this.partSize := split, partSize;
      parts, all := [Some([])], [];
      new;
      assert Part([], PerFile(), 1) == [];
    }

    /**
     * Appends consecutive blocks. A full part makes room for a new one, and the part that is then
     * one too many is removed: exactly the newest `split + 1` parts remain.
     */
    method Append(first: nat, blocks: seq<Entry>) returns (ok: bool)
      requires Valid() && first == |all| + 1 && blocks != [] && |all| + |blocks| <= LAST_BLOCK_NUMBER
      modifies this
      ensures Valid()
      ensures ok <==> |blocks| == 1 || PartOf(first, PerFile()) == PartOf(first + |blocks| - 1, PerFile())
      ensures all == if ok then old(all) + blocks else old(all)
      ensures !ok ==> parts == old(parts)
      ensures ok ==> |parts| == PartOf(|all|, PerFile())
    {
      hide PartOf, Kept, Oldest;
      KeptSize(parts, all, PerFile(), split);
      var part := PartOf(first, PerFile());
      if |blocks| != 1 && part != PartOf(first + |blocks| - 1, PerFile()) {
        return false;
      }
      AppendFits(|all|, |blocks|, PerFile(), |parts|, part);
      if (first - 1) % PerFile() == 0 && part > |parts| {
        BeginPart(parts, all, blocks, PerFile(), split);
        parts := parts + [Some(blocks)];
        if split > 0 && part - 1 > split {
          var removed := part - 1 - split;
          parts := parts[removed - 1 := None];
        }
      } else {
        ContinuePart(parts, all, blocks, PerFile(), split);
        var top := |parts| - 1;
        parts := parts[top := Some(parts[top].value + blocks)];
      }
      all := all + blocks;
      return true;
    }

    /** The number of the oldest block still stored, found by walking back over the parts. */
    method TailNumber() returns (n: nat)
      requires Valid()
      ensures n == FirstBlock(Oldest(|parts|, split), PerFile())
    {
      SinglePart(parts, all, PerFile(), split);
      var log := |parts|;
      OldestKept(parts, all, PerFile(), split, log - 1);
      hide Kept, Oldest, Part, FirstBlock;
      n := FirstBlock(log, partSize);
      log := log - 1;
      while log > 0 && parts[log - 1].Some?
        invariant 0 <= log < |parts| && n == FirstBlock(log + 1, partSize) && log + 1 >= Oldest(|parts|, split)
      {
        OldestKept(parts, all, PerFile(), split, log - 1);
        n := FirstBlock(log, partSize);
        log := log - 1;
      }
      if log > 0 {
        OldestKept(parts, all, PerFile(), split, log - 1);
      }
      assert log + 1 == Oldest(|parts|, split);
      FirstOfAll(partSize, PerFile());
    }

    /**
     * Blocks from `start` on, at most `count`, across part files: exactly that stretch of all
     * blocks appended, or nothing when it starts in a part that is gone or not begun. An empty
     * log is an error.
     */
    method ReadRange(start: nat, count: nat) returns (r: Option<seq<Entry>>)
      requires Valid() && start >= 1
      ensures count > 0 ==> (r.None? <==> all == [] && PartOf(start, PerFile()) == 1)
      ensures r.Some? && PartOf(start, PerFile()) < Oldest(|parts|, split) ==> r.value == []
      ensures r.Some? && PartOf(start, PerFile()) >= Oldest(|parts|, split) ==> r.value == Stretch(all, start, count)
    {
      hide PartOf, Kept, Oldest, Stretch;
      var result := [];
      var from: nat, left := start, count;
      while left > 0
        invariant Sofar(all, start, count, from, left, result)
        invariant from > start ==> all != [] && PartOf(start, PerFile()) >= Oldest(|parts|, split)
        decreases left
      {
        LaterPart(start, from, PerFile());
        var read := ReadPart(from, left);
        if read == NoFile || read == Blocks([]) {
          StretchDone(all, start, count, from, left, result);
          return Some(result);
        }
        if read == EmptyFile {
          return None;
        }
        StretchMore(all, start, count, from, left, result, read.blocks);
        result := result + read.blocks;
        from, left := from + |read.blocks|, left - |read.blocks|;
      }
      StretchDone(all, start, count, from, left, result);
      r := Some(result);
    }

    /** Reads from the one part that holds block `from`, up to the end of that part. */
    method ReadPart(from: nat, left: nat) returns (r: PartRead)
      requires Valid() && from >= 1 && left >= 1
      ensures r == EmptyFile <==> all == [] && PartOf(from, PerFile()) == 1
      ensures r == NoFile ==> from > |all| || PartOf(from, PerFile()) < Oldest(|parts|, split)
      ensures r.Blocks? ==> PartOf(from, PerFile()) >= Oldest(|parts|, split) && |r.blocks| <= left
      ensures r.Blocks? ==> if r.blocks == [] then from > |all| else from - 1 + |r.blocks| <= |all| && r.blocks ==
                                                                       all[from - 1..from - 1 + |r.blocks|]
    {
      hide PartOf, Part, Kept, Oldest;
      var p := PartOf(from, PerFile());
      PartBounds(from, PerFile(), p);
      FoundPart(parts, all, PerFile(), split, from, p, (p - 1) * PerFile());
      if p > |parts| || parts[p - 1].None? {
        return NoFile;
      }
      var content, base := parts[p - 1].value, (p - 1) * PerFile();
      if content == [] {
        return EmptyFile;
      }
      var head := base + |content|;
      if from > head {
        return Blocks([]);
      }
      var actual := if head - from + 1 < left then head - from + 1 else left;
      PartSlice(all, content, base, from - 1 - base, actual);
      r := Blocks(content[from - 1 - base..from - 1 - base + actual]);
    }
  }

  datatype PartRead = NoFile | EmptyFile | Blocks(blocks: seq<Entry>)

  lemma PartSlice(all: seq<Entry>, content: seq<Entry>, base: nat, i: nat, n: nat)
    requires base + |content| <= |all| && content == all[base..base + |content|] && i + n <= |content|
    ensures content[i..i + n] == all[base + i..base + i + n]
  {
    var a, b := content[i..i + n], all[base + i..base + i + n];
    forall k | 0 <= k < n ensures a[k] == b[k] {
      assert content[i + k] == all[base + i + k];
    }
  }

  ghost predicate Sofar(all: seq<Entry>, start: nat, count: nat, from: nat, left: int, result: seq<Entry>) {
    && 1 <= start <= from && 0 <= left && from - start == |result| == count - left
    && if from > start then from - 1 <= |all| && result == all[start - 1..from - 1] else result == []
  }

  lemma StretchMore(all: seq<Entry>, start: nat, count: nat, from: nat, left: int, result: seq<Entry>, got: seq<Entry>)
    requires Sofar(all, start, count, from, left, result) && 1 <= |got| <= left
    requires from - 1 + |got| <= |all| && got == all[from - 1..from - 1 + |got|]
    ensures Sofar(all, start, count, from + |got|, left - |got|, result + got)
  {
  }

  /** The stretch is complete when enough blocks, or all there are, have been read. */
  lemma StretchDone(all: seq<Entry>, start: nat, count: nat, from: nat, left: int, result: seq<Entry>)
    requires Sofar(all, start, count, from, left, result)
    ensures from > |all| || left == 0 ==> result == Stretch(all, start, count)
    ensures from == start ==> result == []
  {
  }

  lemma LaterPart(a: nat, b: nat, perFile: nat)
    requires 1 <= a <= b && perFile > 0
    ensures PartOf(a, perFile) <= PartOf(b, perFile)
  {
    DivMono(a + perFile - 1, b + perFile - 1, perFile);
  }

  /** What is found for a block number. */
  lemma FoundPart(parts: seq<Option<seq<Entry>>>, all: seq<Entry>, perFile: nat, split: int, n: nat, p: nat, base: nat)
    requires Kept(parts, all, perFile, split) && n >= 1 && p >= 1 && base == (p - 1) * perFile < n <= p * perFile
    ensures p > |parts| ==> n > |all|
    ensures p <= |parts| ==> (parts[p - 1].Some? <==> p >= Oldest(|parts|, split))
    ensures p <= |parts| && parts[p - 1].Some? ==> Stretches(parts[p - 1].value, all, base, n)
    ensures all == [] ==> |parts| == 1 && Oldest(|parts|, split) == 1
    ensures p >= 1 && all == [] && p <= |parts| ==> p == 1
  {
    FoundSpans(parts, all, perFile, split, n, p);
  }

  /** The part is the stretch of all blocks after `base`, and reaches `n` unless that is beyond the last block. */
  ghost predicate Stretches(content: seq<Entry>, all: seq<Entry>, base: nat, n: nat) {
    && base + |content| <= |all| && content == all[base..base + |content|] && (content == [] <==> all == [])
    && base < n && (n > base + |content| ==> n > |all|)
  }

  lemma FoundSpans(parts: seq<Option<seq<Entry>>>, all: seq<Entry>, perFile: nat, split: int, n: nat, p: nat)
    requires Kept(parts, all, perFile, split) && n >= 1 && p >= 1 && (p - 1) * perFile < n <= p * perFile
    ensures p > |parts| ==> n > |all|
    ensures p <= |parts| ==> parts[p - 1] == if p >= Oldest(|parts|, split) then Some(Part(all, perFile, p)) else None
    ensures p <= |parts| ==> PartSpans(all, perFile, p)
    ensures all == [] ==> |parts| == 1 && Oldest(|parts|, split) == 1
  {
    hide Part, PartSpans;
    MulLe(0, |parts| - 1, perFile);
    if p > |parts| {
      MulLe(|parts|, p - 1, perFile);
    } else {
      PartAt(all, perFile, p, |parts|);
      assert parts[p - 1] == if p - 1 + 1 >= Oldest(|parts|, split) then Some(Part(all, perFile, p - 1 + 1)) else None;
    }
  }

  /** A part that has been begun is a stretch of all blocks, and is empty only if there are none at all. */
  ghost predicate PartSpans(all: seq<Entry>, perFile: nat, p: nat) {
    var from, until := (p - 1) * perFile, if p * perFile < |all| then p * perFile else |all|;
    0 <= from <= until && Part(all, perFile, p) == all[from..until] && (all != [] ==> from < until)
  }

  lemma PartAt(all: seq<Entry>, perFile: nat, p: nat, count: nat)
    requires perFile > 0 && 1 <= p <= count && |all| <= count * perFile && (count > 1 ==> (count - 1) * perFile < |all|)
    ensures PartSpans(all, perFile, p)
  {
    MulLe(p - 1, count - 1, perFile);
    MulLe(0, p - 1, perFile);
    assert p * perFile == (p - 1) * perFile + perFile;
  }

  lemma OldestKept(parts: seq<Option<seq<Entry>>>, all: seq<Entry>, perFile: nat, split: int, p: nat)
    requires Kept(parts, all, perFile, split) && p < |parts|
    ensures parts[p].Some? <==> p + 1 >= Oldest(|parts|, split)
    ensures 1 <= Oldest(|parts|, split) <= |parts|
  {
  }

  lemma KeptSize(parts: seq<Option<seq<Entry>>>, all: seq<Entry>, perFile: nat, split: int)
    requires Kept(parts, all, perFile, split)
    ensures 1 <= |parts| && |all| <= |parts| * perFile && (|parts| > 1 ==> (|parts| - 1) * perFile < |all|)
  {
  }

  lemma SinglePart(parts: seq<Option<seq<Entry>>>, all: seq<Entry>, perFile: nat, split: int)
    requires Kept(parts, all, perFile, split) && |all| <= LAST_BLOCK_NUMBER
    ensures perFile == LAST_BLOCK_NUMBER ==> |parts| == 1
  {
    if perFile == LAST_BLOCK_NUMBER && |parts| > 1 {
      MulLe(1, |parts| - 1, perFile);
    }
  }

  /** Where the next block goes: into the newest part unless that one is full. */
  lemma AppendFits(total: nat, more: nat, perFile: nat, count: nat, part: nat)
    requires perFile > 0 && count >= 1 && more >= 1 && total <= count * perFile &&
             (count > 1 ==> (count - 1) * perFile < total)
    requires part == PartOf(total + 1, perFile) && (more == 1 || part == PartOf(total + more, perFile))
    ensures part == (if total == count * perFile then count + 1 else count)
    ensures total % perFile == 0 && part > count <==> total == count * perFile
    ensures (part - 1) * perFile < total + more <= part * perFile && part == PartOf(total + more, perFile)
  {
    hide PartOf;
    PartBounds(total + 1, perFile, part);
    PartBounds(total + more, perFile, part);
    assert (count + 1) * perFile == count * perFile + perFile;
    if total == count * perFile {
      PartBounds(total + 1, perFile, count + 1);
      DivBound(total, perFile, count);
      DivBound(total, perFile, count + 1);
    } else {
      PartBounds(total + 1, perFile, count);
    }
  }

  lemma BeginPart(parts: seq<Option<seq<Entry>>>, all: seq<Entry>, blocks: seq<Entry>, perFile: nat, split: int)
    requires Kept(parts, all, perFile, split) && |all| == |parts| * perFile && 1 <= |blocks| <= perFile
    ensures var grown := parts + [Some(blocks)];
            Kept(if split > 0 && |parts| > split then grown[|parts| - split - 1 := None]
                 else grown, all + blocks, perFile, split)
  {
    hide Part;
    var more, n := all + blocks, |parts| + 1;
    assert n * perFile == |all| + perFile;
    PartNew(all, blocks, perFile, n);
    forall p: nat | 1 <= p < n ensures Part(more, perFile, p) == Part(all, perFile, p) {
      PartSame(all, blocks, perFile, p, |parts|);
    }
    forall p: nat | p < |parts| ensures parts[p] == if p +
      1 >= Oldest(|parts|, split) then Some(Part(more, perFile, p + 1)) else None {
      assert Part(more, perFile, p + 1) == Part(all, perFile, p + 1);
    }
  }

  lemma PartNew(all: seq<Entry>, blocks: seq<Entry>, perFile: nat, n: nat)
    requires n >= 1 && perFile > 0 && |all| == (n - 1) * perFile && |blocks| <= perFile
    ensures Part(all + blocks, perFile, n) == blocks
  {
    assert n * perFile == |all| + perFile;
    assert (all + blocks)[|all|..] == blocks;
  }

  lemma ContinuePart(parts: seq<Option<seq<Entry>>>, all: seq<Entry>, blocks: seq<Entry>, perFile: nat, split: int)
    requires Kept(parts, all, perFile, split) && |all| + |blocks| <= |parts| * perFile && blocks != []
    ensures var top := |parts| - 1;
            parts[top].Some? && Kept(parts[top := Some(parts[top].value + blocks)], all + blocks, perFile, split)
  {
    var more, top := all + blocks, |parts| - 1;
    forall p: nat | 1 <= p <= top ensures Part(more, perFile, p) == Part(all, perFile, p) {
      PartSame(all, blocks, perFile, p, top);
    }
    PartGrows(all, blocks, perFile, |parts|);
    hide Part;
    assert parts[top] == Some(Part(all, perFile, top + 1));
  }

  /** A part that is full is not changed by more blocks. */
  lemma PartSame(all: seq<Entry>, blocks: seq<Entry>, perFile: nat, p: nat, full: nat)
    requires 1 <= p <= full && perFile > 0 && full * perFile <= |all|
    ensures Part(all + blocks, perFile, p) == Part(all, perFile, p)
  {
    MulLe(p, full, perFile);
    MulLe(p - 1, full, perFile);
    var from, until := (p - 1) * perFile, p * perFile;
    assert (all + blocks)[from..until] == all[from..until];
  }

  lemma PartGrows(all: seq<Entry>, blocks: seq<Entry>, perFile: nat, p: nat)
    requires p >= 1 && perFile > 0 && (p - 1) * perFile <= |all| && |all| + |blocks| <= p * perFile
    ensures Part(all + blocks, perFile, p) == Part(all, perFile, p) + blocks
  {
    var from := (p - 1) * perFile;
    assert (all + blocks)[from..] == all[from..] + blocks;
  }

  /** Blocks `start` to `start + count - 1`, as far as there are any. */
  ghost function Stretch(all: seq<Entry>, start: nat, count: nat): seq<Entry>
    requires start >= 1
  {
    if start > |all| then [] else all[start - 1..if start - 1 + count < |all| then start - 1 + count else |all|]
  }
}
