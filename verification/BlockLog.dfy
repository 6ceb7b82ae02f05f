// One file of the block log with its artifacts index: appending, reading by
// number and by range, rebuilding the index by walking backwards, truncating.

module BlockLog {
  import opened Common
  import opened Packing
  import opened LogFile

  datatype ReadResult = Missing | Failed | Found(block: Entry)

  /** A block that can be stored under a number: its id carries that number and is the hash of its bytes. */
  predicate Storable(e: Entry, num: nat, idOf: (seq<Byte>, Attributes) -> Id) {
    0 < |e.raw| <= MAX_BLOCK_SIZE && e.id.num == num && e.id == idOf(e.raw, e.attrs)
  }

  /** A file and an index that hold the blocks `es`, numbered from `base + 1`. */
  ghost predicate Holds(file: seq<Byte>, index: seq<Chunk>, es: seq<Entry>, base: nat,
                        idOf: (seq<Byte>, Attributes) -> Id) {
    && file == FileOf(es) && |file| < POSITION_LIMIT && Indexes(index, es)
    && AllStorable(es, base, idOf)
  }

  ghost predicate AllStorable(es: seq<Entry>, base: nat, idOf: (seq<Byte>, Attributes) -> Id) {
    forall k: nat {:trigger es[k]} :: k < |es| ==> Storable(es[k], base + k + 1, idOf)
  }

  /** A cached head block is one of the blocks stored. */
  ghost predicate HeadOf(head: Option<Entry>, es: seq<Entry>, base: nat) {
    head.Some? ==> base < head.value.id.num <= base + |es| && head.value == es[head.value.id.num - base - 1]
  }

  class Log {
    const base: nat                                  // blocks in earlier files
    const idOf: (seq<Byte>, Attributes) -> Id        // id of the block that these bytes decode to
    var file: seq<Byte>
    var size: nat                                    // cached file size, refreshed only on opening
    var head: Option<Entry>                          // cached head block
    var index: seq<Chunk>                            // the artifacts file
    var indexHead: nat                               // head block number in its header
    ghost var entries: seq<Entry>                    // the blocks stored

    ghost predicate Valid()
      reads this
    {
      && Holds(file, index, entries, base, idOf) && size < POSITION_LIMIT
      && (entries != [] ==> indexHead == base + |entries|)
      && HeadOf(head, entries, base)
    }

    constructor (base: nat, idOf: (seq<Byte>, Attributes) -> Id)
      ensures Valid() && entries == [] && head.None? && size == |file| && this.base == base && this.idOf == idOf
    {
      this.base, this.idOf := base, idOf;
      file, size, head, index, indexHead, entries := [], 0, None, [], 0, [];
    }

    /**
     * Appends one record and its index chunk. The record is the one the format asks for exactly
     * when the cached size is the size of the file.
     */
    method AppendRaw(e: Entry)
      requires Valid() && Storable(e, base + |entries| + 1, idOf)
      requires |file| + |e.raw| + 8 < POSITION_LIMIT && size + |e.raw| + 8 < POSITION_LIMIT
      modifies this`file, this`size, this`index, this`indexHead, this`entries
      ensures entries == old(entries) + [e] && size == old(size) + |e.raw| + 8 && indexHead == base + |entries|
      ensures file == FileOf(entries) <==> old(size == |file|)
      ensures old(size == |file|) ==> Valid() && size == |file|
    {
      hide Holds, FileOf, Trailer, Storable, HeadOf, Pack;
      AppendHolds(file, index, entries, e, size, base, idOf, head);
      var pos := size;
      file, index := file + e.raw + Trailer(pos, e.attrs), index + [Pack(pos, e.attrs, e.id)];
      size, indexHead := size + |e.raw| + 8, e.id.num;
      entries := entries + [e];
    }

    /** Appends a block and makes it the head. */
    method Append(e: Entry)
      requires Valid() && Storable(e, base + |entries| + 1, idOf) && size == |file|
      requires |file| + |e.raw| + 8 < POSITION_LIMIT
      modifies this
      ensures Valid() && entries == old(entries) + [e] && head == Some(e) && size == |file|
    {
      hide Holds, FileOf;
      AppendRaw(e);
      head := Some(e);
    }

    /**
     * Appends a batch from one buffer, in which every block is followed by eight bytes to be
     * overwritten. The file and the index are those of appending the blocks one by one.
     */
    method MultiAppend(buffer: array<Byte>, records: seq<Artifacts>, ghost es: seq<Entry>)
      requires Valid() && size == |file| && Batch(buffer[..], records, es) && es != []
      requires AllStorable(es, base + |entries|, idOf)
      requires |file| + |FileOf(es)| < POSITION_LIMIT
      modifies this`file, this`size, this`index, this`indexHead, this`entries, buffer
      ensures Valid() && entries == old(entries) + es && size == |file|
    {
      HoldsFile(file, index, entries, base, idOf);
      hide Holds, FileOf, Batch, ChunksFor, HeadOf, AllStorable;
      var chunks, length := PrepareBatch(buffer, records, es, size, file, entries);
      BatchHolds(file, index, entries, es, buffer[..length], chunks, base, idOf, head);
      Store(buffer[..length], chunks, es);
    }

    /** Adds bytes to the file and chunks to the index. */
    method Store(bytes: seq<Byte>, chunks: seq<Chunk>, ghost es: seq<Entry>)
      requires Holds(file + bytes, index + chunks, entries + es, base, idOf) && HeadOf(head, entries + es, base)
      requires size == |file| && |index| == |entries| && |chunks| == |es|
      modifies this`file, this`size, this`index, this`indexHead, this`entries
      ensures Valid() && entries == old(entries) + es && size == |file|
    {
      HoldsSizes(file + bytes, index + chunks, entries + es, base, idOf);
      hide Holds, HeadOf, Start;
      file, index := file + bytes, index + chunks;
      size, indexHead := size + |bytes|, base + |index|;
      entries := entries + es;
    }

    /** The index entry of a block that is not the last one. */
    method ReadArtifacts(n: nat) returns (r: Option<Artifacts>)
      requires Valid()
      ensures r == if base < n < base + |entries| then Some(Truth(entries, n - base - 1)) else None
    {
      hide Holds, FileOf, Start, HeadOf, Unpack, Pack, Split, Word, Storable, ReadsAs;
      HoldsSizes(file, index, entries, base, idOf);
      if n == indexHead || n <= base || n - base + 1 > |index| {
        return None;
      }
      var k := n - base - 1;
      HoldsRecord(file, index, entries, base, idOf, k);
      r := Some(Unpack(index[k], n, index[k + 1]));
    }

    /** Index entries of a run of blocks, with the number of bytes they take up in the log. */
    method ReadArtifactsRange(n: nat, count: nat) returns (r: Option<(seq<Artifacts>, int)>)
      requires Valid() && count >= 1
      ensures r.Some? <==> base < n && n + count <= base + |entries|
      ensures r.Some? ==> RunRead(entries, n - base - 1, count, r.value.0, r.value.1)
    {
      HoldsSizes(file, index, entries, base, idOf);
      hide Holds, FileOf, Start, RunRead, HeadOf;
      if n == indexHead || n <= base || n - base + count > |index| {
        return None;
      }
      var found, total := ReadChunks(file, index, entries, base, idOf, n - base - 1, count);
      r := Some((found, total));
    }

    /** Block `n` as it was appended. */
    method ReadBlock(n: nat) returns (r: ReadResult)
      requires Valid()
      ensures r == if n == 0 || head.None? || n > head.value.id.num then Missing
                   else if n <= base then Failed
                   else Found(entries[n - base - 1])
    {
      if n == 0 || head.None? || n > head.value.id.num {
        return Missing;
      }
      if n == head.value.id.num {
        return Found(head.value);
      }
      hide Holds, FileOf, Start, HeadOf, Unpack, Pack, Split, Word, Storable, ReadsAs;
      var found := ReadArtifacts(n);
      if found.None? {
        return Failed;
      }
      var a := found.value;
      HoldsRecord(file, index, entries, base, idOf, n - base - 1);
      var data := Pread(file, a.pos, a.size);
      r := Found(Entry(data.value, a.attrs, a.id));
    }

    /** A run of blocks read with one file access: the same blocks, one after the other. */
    method ReadRange(first: nat, count: nat) returns (r: Option<seq<Entry>>)
      requires Valid() && count >= 1 && base < first
      ensures head.None? || first > head.value.id.num ==> r == Some([])
      ensures head.Some? && first <= head.value.id.num && first + count - 1 <= head.value.id.num ==>
                r == Some(entries[first - base - 1..first - base - 1 + count])
      ensures head.Some? && first <= head.value.id.num ==>
                (base + |entries| <= first + count - 1 != head.value.id.num ==> r.None?)
    {
      hide Holds, FileOf, Start, Truth;
      if head.None? || first > head.value.id.num {
        return Some([]);
      }
      var lastIsHead := first + count - 1 == head.value.id.num;
      var fromDisk := if lastIsHead then count - 1 else count;
      ghost var k := first - base - 1;
      var blocks := [];
      if fromDisk >= 1 {
        var found := ReadArtifactsRange(first, fromDisk);
        if found.None? {
          return None;
        }
        var (all, total) := found.value;
        HoldsRun(file, index, entries, base, idOf, k, k + fromDisk);
        assert all[0] == Truth(entries, k);
        TruthPos(entries, k);
        var data := Pread(file, all[0].pos, total);
        blocks := Deserialize(file, entries, data.value, all, all[0].pos, k, index, base, idOf);
      }
      if lastIsHead {
        SliceSnoc(entries, k, k + fromDisk);
        blocks := blocks + [head.value];
      }
      r := Some(blocks);
    }

    /** Reads the last record by the position in the last eight bytes. */
    method ReadHead() returns (r: Option<Entry>)
      requires Holds(file, index, entries, base, idOf)
      ensures r == if entries == [] then None else Some(entries[|entries| - 1])
    {
      HoldsSizes(file, index, entries, base, idOf);
      if |file| == 0 {
        return None;
      }
      HoldsRecord(file, index, entries, base, idOf, |entries| - 1);
      hide Holds, FileOf, Start, Word, Split;
      var last := |file| - 8;
      var (pos, attrs) := Split(Word(file[last..last + 8]));
      var raw := file[pos..last];
      r := Some(Entry(raw, attrs, idOf(raw, attrs)));
    }

    /**
     * Rebuilds the index from the log alone, walking from the last record backwards. It asks for
     * at least two blocks, and on any log it then gives the very index kept while appending.
     */
    method RebuildIndex() returns (r: Option<seq<Chunk>>)
      requires Valid() && size == |file| && (entries != [] ==> head.Some? && head.value.id.num == base + |entries|)
      ensures r.Some? <==> |entries| >= 2
      ensures r.Some? ==> r.value == index
    {
      if head.None? || base + 1 >= head.value.id.num {
        return None;
      }
      r := WalkBack(file, index, entries, base, idOf, head.value.id.num - base);
    }

    /**
     * Shortens the log: file and index are exactly those of the first blocks. There has to be a
     * first block left, as it is looked up in the index. The cached size is not touched, so the
     * next append is right only after opening the log again.
     */
    method Truncate(k: nat) returns (ok: bool)
      requires Valid()
      modifies this`file, this`index, this`indexHead, this`head, this`entries
      ensures var current := if old(head).Some? then old(head).value.id.num else 0;
              && (ok <==> k == current || base < k < current)
              && (!ok || k == current ==> unchanged(this))
              && (ok && k < current ==> Valid() && entries == old(entries)[..k - base] &&
                                        head == Some(entries[k - base - 1]) && (old(size == |file|) ==> size != |file|))
    {
      var current := if head.Some? then head.value.id.num else 0;
      if k > current {
        return false;
      }
      if k == current {
        return true;
      }
      var a := ReadArtifacts(k);
      if a.None? {
        return false;
      }
      ShortenTo(a.value.pos + a.value.size + 8, k - base);
      ok := true;
    }

    method ShortenTo(end: nat, n: nat)
      requires Holds(file, index, entries, base, idOf) && size < POSITION_LIMIT && 1 <= n < |entries|
      requires end == Start(entries, n - 1) + |entries[n - 1].raw| + 8
      modifies this`file, this`index, this`indexHead, this`head, this`entries
      ensures Valid() && entries == old(entries)[..n] && head == Some(old(entries)[n - 1]) && |file| < old(|file|)
    {
      hide Holds, HeadOf, Start;
      TakeHolds(file, index, entries, base, idOf, n);
      file, index := file[..end], index[..n];
      indexHead := base + n;
      entries := entries[..n];
      head := ReadHead();
    }

    method Reopen()
      requires Valid()
      modifies this`size, this`head
      ensures Valid() && size == |file| && head == if entries == [] then None else Some(entries[|entries| - 1])
    {
      HoldsSizes(file, index, entries, base, idOf);
      HeadNumber(file, index, entries, base, idOf);
      hide Holds, FileOf;
      size := |file|;
      head := ReadHead();
    }
  }

  // ---- what a file and its index hold ----

  lemma HoldsSizes(file: seq<Byte>, index: seq<Chunk>, es: seq<Entry>, base: nat, idOf: (seq<Byte>, Attributes) -> Id)
    requires Holds(file, index, es, base, idOf)
    ensures |index| == |es| && |file| == Start(es, |es|) < POSITION_LIMIT && (|file| == 0 <==> es == [])
  {
    assert es[..|es|] == es;
    if es != [] {
      RecordAt(es, |es| - 1);
    }
  }

  lemma {:induction false} HoldsFile(file: seq<Byte>, index: seq<Chunk>, es: seq<Entry>, base: nat,
                                     idOf: (seq<Byte>, Attributes) -> Id)
    requires Holds(file, index, es, base, idOf)
    ensures file == FileOf(es)
  {
  }

  lemma HeadNumber(file: seq<Byte>, index: seq<Chunk>, es: seq<Entry>, base: nat, idOf: (seq<Byte>, Attributes) -> Id)
    requires Holds(file, index, es, base, idOf)
    ensures es != [] ==> es[|es| - 1].id.num == base + |es|
  {
    if es != [] {
      assert Storable(es[|es| - 1], base + (|es| - 1) + 1, idOf);
    }
  }

  /** The eight bytes at `at` name a start position and attributes. */
  ghost predicate ReadsAs(file: seq<Byte>, at: nat, pos: nat, attrs: Attributes) {
    at + 8 <= |file| && Split(Word(file[at..at + 8])) == (pos, attrs)
  }

  /** Everything about one block: its bytes, its trailer, its chunk, and the chunk read back. */
  lemma HoldsRecord(file: seq<Byte>, index: seq<Chunk>, es: seq<Entry>, base: nat, idOf: (seq<Byte>, Attributes) -> Id,
                    k: nat)
    requires Holds(file, index, es, base, idOf) && k < |es|
    ensures |index| == |es| && Storable(es[k], base + k + 1, idOf)
    ensures index[k] == Pack(Start(es, k), es[k].attrs, es[k].id)
    ensures k + 1 < |es| ==> Unpack(index[k], base + k + 1, index[k + 1]) == Truth(es, k)
    ensures var p, q := Start(es, k), Start(es, k) + |es[k].raw|;
            && Start(es, k + 1) == q + 8 <= |file| && file[p..q] == es[k].raw
            && ReadsAs(file, q, p, es[k].attrs)
  {
    hide FileOf, Trailer, Word, Split, Unpack, Pack, Combine, Start;
    RecordAt(es, k);
    assert Storable(es[k], base + k + 1, idOf);
    TrailerReads(Start(es, k), es[k].attrs);
    if k + 1 < |es| {
      IndexReads(index, es, k, base + k + 1);
    }
  }

  lemma HoldsRun(file: seq<Byte>, index: seq<Chunk>, es: seq<Entry>, base: nat, idOf: (seq<Byte>, Attributes) -> Id,
                 j: nat, k: nat)
    requires Holds(file, index, es, base, idOf) && j <= k <= |es|
    ensures Start(es, j) <= Start(es, k) <= |file|
  {
    StartMonotone(es, j, k);
  }

  lemma TruthPos(es: seq<Entry>, k: nat)
    requires k < |es|
    ensures Truth(es, k) == Artifacts(Start(es, k), |es[k].raw|, es[k].attrs, es[k].id)
  {
  }

  /** One more record; with a wrong start position it is not the record the format asks for. */
  lemma {:induction false} AppendHolds(file: seq<Byte>, index: seq<Chunk>, es: seq<Entry>, e: Entry, size: nat,
                                       base: nat, idOf: (seq<Byte>, Attributes) -> Id, head: Option<Entry>)
    requires HeadOf(head, es, base) && Holds(file, index, es, base, idOf) && Storable(e, base + |es| + 1, idOf)
    requires |file| + |e.raw| + 8 < POSITION_LIMIT && size < POSITION_LIMIT
    ensures size == |file| ==> Holds(file + e.raw + Trailer(size, e.attrs), index + [Pack(size, e.attrs, e.id)], es +
                                       [e], base, idOf)
    ensures file + e.raw + Trailer(size, e.attrs) == FileOf(es + [e]) <==> size == |file|
    ensures e.id.num == base + |es| + 1
    ensures HeadOf(head, es + [e], base)
  {
    hide FileOf, Trailer, Pack;
    FileSnoc(es, e);
    IndexSnoc(index, es, e);
    if size != |file| {
      WrongTrailer(file, e, size);
    }
  }

  lemma WrongTrailer(file: seq<Byte>, e: Entry, pos: nat)
    requires pos != |file| && pos < POSITION_LIMIT && |file| < POSITION_LIMIT
    ensures file + e.raw + Trailer(pos, e.attrs) != file + e.raw + Trailer(|file|, e.attrs)
  {
    hide Trailer, Split, Word;
    TrailerReads(pos, e.attrs);
    TrailerReads(|file|, e.attrs);
    var x, y, f := Trailer(pos, e.attrs), Trailer(|file|, e.attrs), file + e.raw;
    assert (f + x)[|f|..] == x && (f + y)[|f|..] == y;
  }

  lemma StorableTake(es: seq<Entry>, base: nat, idOf: (seq<Byte>, Attributes) -> Id, n: nat)
    requires AllStorable(es, base, idOf) && 1 <= n <= |es|
    ensures AllStorable(es[..n], base, idOf) && es[n - 1].id.num == base + n && HeadOf(Some(es[n - 1]), es[..n], base)
  {
    assert Storable(es[n - 1], base + (n - 1) + 1, idOf);
  }

  lemma FileTake(es: seq<Entry>, n: nat)
    requires 1 <= n < |es|
    ensures Start(es, n) == Start(es, n - 1) + |es[n - 1].raw| + 8 < |FileOf(es)| && FileOf(es)[..Start(es, n)] ==
              FileOf(es[..n])
  {
    RecordAt(es, n - 1);
    RecordAt(es, n);
    FilePrefix(es, n);
  }

  /** The first `n` blocks are held by the beginning of the file and of the index. */
  lemma TakeHolds(file: seq<Byte>, index: seq<Chunk>, es: seq<Entry>, base: nat, idOf: (seq<Byte>, Attributes) -> Id,
                  n: nat)
    requires Holds(file, index, es, base, idOf) && 1 <= n < |es|
    ensures |index| == |es| && es[n - 1].id.num == base + n && HeadOf(Some(es[n - 1]), es[..n], base)
    ensures var end := Start(es, n - 1) + |es[n - 1].raw| + 8;
            end < |file| && Holds(file[..end], index[..n], es[..n], base, idOf)
  {
    hide FileOf, Storable, AllStorable, Start, HeadOf;
    StorableTake(es, base, idOf, n);
    FileTake(es, n);
    IndexTake(index, es, n);
  }

  /**
   * The blocks determine file and index, and the file determines the blocks: however blocks were
   * appended, one by one or in batches, the bytes are the same, and no two logs share a file.
   */
  lemma {:induction false} FileDetermines(f: seq<Byte>, i: seq<Chunk>, es: seq<Entry>, f': seq<Byte>, i': seq<Chunk>,
                                          es': seq<Entry>, base: nat, idOf: (seq<Byte>, Attributes) -> Id)
    requires Holds(f, i, es, base, idOf) && Holds(f', i', es', base, idOf)
    ensures f == f' <==> es == es'
    ensures es == es' ==> i == i'
    decreases |es|
  {
    HoldsSizes(f, i, es, base, idOf);
    HoldsSizes(f', i', es', base, idOf);
    if f == f' && es != [] {
      SameLast(f, i, es, i', es', base, idOf);
    }
  }

  lemma {:induction false} SameLast(f: seq<Byte>, i: seq<Chunk>, es: seq<Entry>, i': seq<Chunk>, es': seq<Entry>,
                                    base: nat, idOf: (seq<Byte>, Attributes) -> Id)
    requires Holds(f, i, es, base, idOf) && Holds(f, i', es', base, idOf) && es != [] && es' != []
    ensures es == es'
    decreases |es|
  {
    var n, n' := |es| - 1, |es'| - 1;
    hide Holds, FileOf, Start;
    EndsIn(f, i, es, i', es', base, idOf);
    HoldsInit(f, i, es, base, idOf);
    HoldsInit(f, i', es', base, idOf);
    var f0 := f[..Start(es, n)];
    HoldsSizes(f0, i[..n], es[..n], base, idOf);
    HoldsSizes(f0, i'[..n'], es'[..n'], base, idOf);
    if n > 0 {
      SameLast(f0, i[..n], es[..n], i'[..n'], es'[..n'], base, idOf);
    }
    assert es == es[..n] + [es[n]] && es' == es'[..n'] + [es'[n']];
  }

  /** The last eight bytes of a file tell where its last record starts, and so what it is. */
  lemma EndsIn(f: seq<Byte>, i: seq<Chunk>, es: seq<Entry>, i': seq<Chunk>, es': seq<Entry>, base: nat,
               idOf: (seq<Byte>, Attributes) -> Id)
    requires Holds(f, i, es, base, idOf) && Holds(f, i', es', base, idOf) && es != [] && es' != []
    ensures var n, n' := |es| - 1, |es'| - 1; Start(es, n) == Start(es', n') && es[n] == es'[n']
  {
    hide Holds, FileOf, Start, Split, Word, Unpack, Pack, Truth;
    HoldsSizes(f, i, es, base, idOf);
    HoldsSizes(f, i', es', base, idOf);
    HoldsRecord(f, i, es, base, idOf, |es| - 1);
    HoldsRecord(f, i', es', base, idOf, |es'| - 1);
  }

  lemma HoldsInit(f: seq<Byte>, i: seq<Chunk>, es: seq<Entry>, base: nat, idOf: (seq<Byte>, Attributes) -> Id)
    requires Holds(f, i, es, base, idOf) && es != []
    ensures var n := |es| - 1; |i| == |es| && Start(es, n) <= |f| &&
                               Holds(f[..Start(es, n)], i[..n], es[..n], base, idOf)
  {
    var n := |es| - 1;
    RecordAt(es, n);
    FilePrefix(es, n);
    IndexTake(i, es, n);
  }

  // ---- runs of blocks ----

  lemma SliceOfSlice(file: seq<Byte>, a: nat, b: nat, i: nat, j: nat)
    requires a <= b <= |file| && i <= j <= b - a
    ensures file[a..b][i..j] == file[a + i..a + j]
  {
    forall k | 0 <= k < j - i ensures file[a..b][i..j][k] == file[a + i..a + j][k] {
      assert file[a..b][i..j][k] == file[a..b][i + k];
    }
  }

  /** The index entries of `count` blocks from position `k` on, and the bytes they take up. */
  ghost predicate RunRead(es: seq<Entry>, k: nat, count: nat, found: seq<Artifacts>, total: int) {
    && k + count <= |es| && |found| == count && total == Start(es, k + count) - Start(es, k)
    && forall i: nat {:trigger found[i]} :: i < count ==> found[i] == Truth(es, k + i)
  }

  /** Unpacks a run of chunks, each with the chunk after it. */
  method ReadChunks(ghost file: seq<Byte>, index: seq<Chunk>, ghost es: seq<Entry>, base: nat,
                    ghost idOf: (seq<Byte>, Attributes) -> Id,
                    k: nat, count: nat) returns (found: seq<Artifacts>, total: int)
    requires Holds(file, index, es, base, idOf) && k + count < |es| == |index|
    ensures RunRead(es, k, count, found, total)
  {
    hide Holds, FileOf, Start, Unpack, Pack, Split, Word;
    found, total := [], 0;
    for i := 0 to count
      invariant |found| == i && forall j: nat :: j < i ==> found[j] == Truth(es, k + j)
      invariant total == Start(es, k + i) - Start(es, k)
    {
      HoldsRecord(file, index, es, base, idOf, k + i);
      var a := Unpack(index[k + i], base + k + i + 1, index[k + i + 1]);
      found := found + [a];
      total := total + a.size + 8;
    }
  }

  /** Walks the records backwards from the end of the file, making the chunks from the last to the first. */
  method WalkBack(file: seq<Byte>, ghost index: seq<Chunk>, ghost es: seq<Entry>, ghost base: nat,
                  idOf: (seq<Byte>, Attributes) -> Id, count: nat)
    returns (r: Option<seq<Chunk>>)
    requires Holds(file, index, es, base, idOf) && count == |es|
    ensures r == Some(index)
  {
    hide Holds, Start, RecordBefore;
    HoldsSizes(file, index, es, base, idOf);
    var chunks: seq<Chunk> := [];
    var pos, n := |file|, count;
    while n > 0
      invariant 0 <= n <= count && pos == Start(es, n) && chunks == index[n..]
    {
      StepBack(file, index, es, base, idOf, n);
      var record := RecordBefore(file, pos, idOf);
      if record.None? {
        return None;
      }
      pos := record.value.0;
      chunks := [record.value.1] + chunks;
      n := n - 1;
    }
    r := Some(chunks);
  }

  /** The record that ends at `pos`: where it starts and its chunk. */
  function RecordBefore(file: seq<Byte>, pos: nat, idOf: (seq<Byte>, Attributes) -> Id): Option<(nat, Chunk)> {
    if pos < 8 || pos > |file| then None
    else
      var higher := pos - 8;
      var (start, attrs) := Split(Word(file[higher..pos]));
      if higher <= start then None else Some((start, Pack(start, attrs, idOf(file[start..higher], attrs))))
  }

  lemma StepBack(file: seq<Byte>, index: seq<Chunk>, es: seq<Entry>, base: nat, idOf: (seq<Byte>, Attributes) -> Id,
                 n: nat)
    requires Holds(file, index, es, base, idOf) && 1 <= n <= |es|
    ensures |index| == |es| && RecordBefore(file, Start(es, n), idOf) == Some((Start(es, n - 1), index[n - 1]))
  {
    hide Holds, FileOf, Start, Unpack, Truth, Pack, Split, Word;
    HoldsRecord(file, index, es, base, idOf, n - 1);
  }

  /** Cuts the blocks of a run out of its bytes. */
  method Deserialize(ghost file: seq<Byte>, ghost es: seq<Entry>, data: seq<Byte>, all: seq<Artifacts>, offset: nat,
                     ghost k: nat,
                     ghost index: seq<Chunk>, ghost base: nat,
                     ghost idOf: (seq<Byte>, Attributes) -> Id) returns (r: seq<Entry>)
    requires Holds(file, index, es, base, idOf) && exists total: int :: RunRead(es, k, |all|, all, total)
    requires offset == Start(es, k) <= Start(es, k + |all|) <= |file| && data == file[offset..Start(es, k + |all|)]
    ensures r == es[k..k + |all|]
  {
    hide Holds, FileOf, Start;
    r := [];
    for i := 0 to |all|
      invariant r == es[k..k + i]
    {
      HoldsRecord(file, index, es, base, idOf, k + i);
      HoldsRun(file, index, es, base, idOf, k, k + i);
      HoldsRun(file, index, es, base, idOf, k + i + 1, k + |all|);
      var from := all[i].pos - offset;
      SliceOfSlice(file, offset, Start(es, k + |all|), from, from + all[i].size);
      r := r + [Entry(data[from..from + all[i].size], all[i].attrs, all[i].id)];
    }
  }

  // ---- batches ----

  ghost predicate RawAt(buffer: seq<Byte>, pos: nat, raw: seq<Byte>) {
    pos + |raw| <= |buffer| && buffer[pos..pos + |raw|] == raw
  }

  /** `buffer` holds the blocks `es`, each followed by eight bytes; `records` describes them. */
  ghost predicate Batch(buffer: seq<Byte>, records: seq<Artifacts>, es: seq<Entry>) {
    && |records| == |es| && |FileOf(es)| <= |buffer|
    && (forall k: nat {:trigger records[k]} :: k < |es| ==>
          records[k].size == |es[k].raw| && records[k].attrs == es[k].attrs && records[k].id == es[k].id)
    && RawsIn(buffer, es)
  }

  ghost predicate RawsIn(buffer: seq<Byte>, es: seq<Entry>) {
    forall k: nat {:trigger es[k]} :: k < |es| ==> RawAt(buffer, Start(es, k), es[k].raw)
  }

  lemma {:induction false} FileAppend(a: seq<Entry>, b: seq<Entry>)
    ensures |FileOf(a + b)| == |FileOf(a)| + |FileOf(b)|
    decreases |b|
  {
    if b == [] {
      assert a + b == a;
    } else {
      var init, e := b[..|b| - 1], b[|b| - 1];
      assert a + b == a + init + [e];
      assert b == init + [e];
      FileAppend(a, init);
      FileSnoc(a + init, e);
      FileSnoc(init, e);
    }
  }

  method WriteAt(buffer: array<Byte>, pos: nat, bytes: seq<Byte>)
    requires pos + |bytes| <= buffer.Length
    modifies buffer
    ensures buffer[..] == old(buffer[..pos]) + bytes + old(buffer[pos + |bytes|..])
  {
    forall i | 0 <= i < |bytes| {
      buffer[pos + i] := bytes[i];
    }
  }

  /** The index chunks of `es` when they follow `before`. */
  ghost predicate ChunksFor(chunks: seq<Chunk>, before: seq<Entry>, es: seq<Entry>) {
    |chunks| == |es| &&
    forall k: nat {:trigger chunks[k]} :: k < |es| ==>
      chunks[k] == Pack(Start(before + es, |before| + k), es[k].attrs, es[k].id)
  }

  /** Writes every trailer of the batch in place and makes its index chunks. */
  method PrepareBatch(buffer: array<Byte>, records: seq<Artifacts>, ghost es: seq<Entry>, size: nat,
                      ghost file: seq<Byte>, ghost before: seq<Entry>)
    returns (chunks: seq<Chunk>, length: nat)
    requires Batch(buffer[..], records, es) && file == FileOf(before) && size == |file|
    modifies buffer
    ensures length <= buffer.Length && file + buffer[..length] == FileOf(before + es)
    ensures ChunksFor(chunks, before, es)
  {
    hide FileOf, Trailer, Pack, RawsIn, Batch, Start;
    chunks, length := [], 0;
    BatchBegins(buffer[..], records, es, before);
    assert file + buffer[..0] == file;
    for k := 0 to |records|
      invariant |records| == |es| && Batch(buffer[..], records, es) && length == Start(es, k)
      invariant length <= buffer.Length && file + buffer[..length] == FileOf(before + es[..k])
      invariant |chunks| == k && forall j: nat :: j < k ==> chunks[j] ==
                                                              Pack(Start(before + es, |before| + j), es[j].attrs,
                                                                   es[j].id)
    {
      ghost var b0 := buffer[..];
      assert b0[..length] == buffer[..length];
      BatchNow(b0, records, es, before, k);
      var pos := size + length;
      var slot := length + records[k].size;
      var trailer := Trailer(pos, records[k].attrs);
      WriteAt(buffer, slot, trailer);
      BatchStep(b0, buffer[..], records, es, k, before, slot, trailer);
      assert buffer[..][..slot + 8] == buffer[..slot + 8];
      chunks := chunks + [Pack(pos, records[k].attrs, records[k].id)];
      length := slot + 8;
    }
    assert es[..|es|] == es;
  }

  lemma {:induction false} BatchBegins(b: seq<Byte>, records: seq<Artifacts>, es: seq<Entry>, before: seq<Entry>)
    requires Batch(b, records, es)
    ensures |records| == |es| && Start(es, 0) == 0 && FileOf(before + es[..0]) == FileOf(before)
  {
    assert before + es[..0] == before;
  }

  /** What is known about the next block of a batch. */
  lemma {:induction false} BatchNow(b: seq<Byte>, records: seq<Artifacts>, es: seq<Entry>, before: seq<Entry>, k: nat)
    requires Batch(b, records, es) && k < |records|
    ensures |records| == |es| && records[k].size == |es[k].raw| && records[k].attrs == es[k].attrs && records[k].id ==
              es[k].id
    ensures Start(es, k) + |es[k].raw| + 8 == Start(es, k + 1) <= |b|
    ensures Start(before + es, |before| + k) == |FileOf(before)| + Start(es, k)
  {
    hide FileOf;
    RecordAt(es, k);
    BatchPos(before, es, k);
  }

  lemma {:induction false} BatchPos(before: seq<Entry>, es: seq<Entry>, k: nat)
    requires k < |es|
    ensures Start(before + es, |before| + k) == |FileOf(before)| + Start(es, k)
  {
    assert (before + es)[..|before| + k] == before + es[..k];
    FileAppend(before, es[..k]);
  }

  /** Writing eight bytes between two blocks touches neither. */
  lemma RawSurvives(b: seq<Byte>, slot: nat, t: seq<Byte>, pos: nat, raw: seq<Byte>)
    requires slot + |t| <= |b| && RawAt(b, pos, raw) && (pos + |raw| <= slot || slot + |t| <= pos)
    ensures RawAt(b[..slot] + t + b[slot + |t|..], pos, raw)
  {
    var c := b[..slot] + t + b[slot + |t|..];
    forall i | 0 <= i < |raw| ensures c[pos + i] == raw[i] {
      assert b[pos..pos + |raw|][i] == b[pos + i];
    }
  }

  /** Writing a trailer completes one record and touches no block. */
  lemma {:induction false} BatchStep(b0: seq<Byte>, b1: seq<Byte>, records: seq<Artifacts>, es: seq<Entry>, k: nat,
                                     before: seq<Entry>, slot: nat, trailer: seq<Byte>)
    requires Batch(b0, records, es) && k < |es| && |trailer| == 8 && slot == Start(es, k) + |es[k].raw| && slot +
               8 <= |b0|
    requires b1 == b0[..slot] + trailer + b0[slot + 8..]
    requires FileOf(before) + b0[..Start(es, k)] == FileOf(before + es[..k])
    requires trailer == Trailer(|FileOf(before)| + Start(es, k), es[k].attrs)
    ensures Batch(b1, records, es)
    ensures FileOf(before) + b1[..slot + 8] == FileOf(before + es[..k + 1])
  {
    hide FileOf, Trailer, RawAt, Start, RawsIn;
    RawsSurvive(b0, es, k, slot, trailer);
    RecordDone(FileOf(before), b0, Start(es, k), es[k].raw, trailer);
    BatchFile(before, es, k, b0[..Start(es, k)]);
  }

  /** The file grows by one more record. */
  lemma {:induction false} BatchFile(before: seq<Entry>, es: seq<Entry>, k: nat, done: seq<Byte>)
    requires k < |es| && FileOf(before) + done == FileOf(before + es[..k])
    ensures FileOf(before) + done + es[k].raw + Trailer(|FileOf(before)| + Start(es, k), es[k].attrs) ==
              FileOf(before + es[..k + 1])
  {
    hide FileOf, Trailer, Start;
    var x, e := before + es[..k], es[k];
    TakeSnoc(before, es, k);
    FileSnoc(x, e);
    FileLength(before, es, k);
  }

  lemma TakeSnoc(before: seq<Entry>, es: seq<Entry>, k: nat)
    requires k < |es|
    ensures before + es[..k + 1] == before + es[..k] + [es[k]]
  {
  }

  lemma SliceSnoc(es: seq<Entry>, i: nat, j: nat)
    requires i <= j < |es|
    ensures es[i..j] + [es[j]] == es[i..j + 1]
  {
  }

  lemma RawsSurvive(b: seq<Byte>, es: seq<Entry>, k: nat, slot: nat, t: seq<Byte>)
    requires RawsIn(b, es) && k < |es| && |t| == 8 && slot == Start(es, k) + |es[k].raw| && slot + 8 <= |b|
    ensures RawsIn(b[..slot] + t + b[slot + 8..], es) && RawAt(b, Start(es, k), es[k].raw)
  {
    hide FileOf, RawAt, Start;
    forall j: nat | j < |es| ensures RawAt(b[..slot] + t + b[slot + 8..], Start(es, j), es[j].raw) {
      assert RawAt(b, Start(es, j), es[j].raw);
      RawsApart(es, j, k);
      RawSurvives(b, slot, t, Start(es, j), es[j].raw);
    }
    assert RawAt(b, Start(es, k), es[k].raw);
  }

  lemma {:induction false} FileLength(before: seq<Entry>, es: seq<Entry>, k: nat)
    requires k <= |es|
    ensures |FileOf(before + es[..k])| == |FileOf(before)| + Start(es, k)
  {
    FileAppend(before, es[..k]);
  }

  lemma RawsApart(es: seq<Entry>, j: nat, k: nat)
    requires j < |es| && k < |es|
    ensures Start(es, j) + |es[j].raw| <= Start(es, k) + |es[k].raw| || Start(es, k) + |es[k].raw| + 8 <= Start(es, j)
  {
    RecordAt(es, j);
    RecordAt(es, k);
    hide Start, FileOf;
    if j < k {
      StartMonotone(es, j + 1, k);
    } else if k < j {
      StartMonotone(es, k + 1, j);
    }
  }

  lemma RecordDone(f: seq<Byte>, b: seq<Byte>, p: nat, raw: seq<Byte>, t: seq<Byte>)
    requires RawAt(b, p, raw) && |t| == 8 && p + |raw| + 8 <= |b|
    ensures var slot := p + |raw|; f + (b[..slot] + t + b[slot + 8..])[..slot + 8] == f + b[..p] + raw + t
  {
    var slot := p + |raw|;
    var low, high := b[..slot] + t, b[slot + 8..];
    assert b[..slot] == b[..p] + b[p..slot];
    assert (low + high)[..slot + 8] == low;
  }

  lemma BatchIndexes(index: seq<Chunk>, before: seq<Entry>, es: seq<Entry>, chunks: seq<Chunk>)
    requires Indexes(index, before) && ChunksFor(chunks, before, es)
    ensures Indexes(index + chunks, before + es)
  {
    hide FileOf, Pack;
    var all, more := before + es, index + chunks;
    forall k: nat | k < |all| ensures more[k] == Pack(Start(all, k), all[k].attrs, all[k].id) {
      if k < |before| {
        assert all[..k] == before[..k] && all[k] == before[k] && more[k] == index[k];
      } else {
        var i: nat := k - |before|;
        assert more[k] == chunks[i] && all[k] == es[i] && k == |before| + i;
      }
    }
  }

  lemma BatchStorable(before: seq<Entry>, es: seq<Entry>, base: nat, idOf: (seq<Byte>, Attributes) -> Id)
    requires AllStorable(before, base, idOf) && AllStorable(es, base + |before|, idOf)
    ensures AllStorable(before + es, base, idOf)
  {
    hide Storable;
    var all := before + es;
    forall k: nat | k < |all| ensures Storable(all[k], base + k + 1, idOf) {
      if k >= |before| {
        var i: nat := k - |before|;
        assert all[k] == es[i] && base + |before| + i + 1 == base + k + 1;
      }
    }
  }

  lemma {:induction false} BatchHolds(file: seq<Byte>, index: seq<Chunk>, before: seq<Entry>, es: seq<Entry>,
                                      more: seq<Byte>, chunks: seq<Chunk>, base: nat,
                                      idOf: (seq<Byte>, Attributes) -> Id, head: Option<Entry>)
    requires HeadOf(head, before, base) && Holds(file, index, before, base, idOf) && ChunksFor(chunks, before, es)
    requires AllStorable(es, base + |before|, idOf) && |file| + |FileOf(es)| < POSITION_LIMIT && file + more ==
               FileOf(before + es)
    ensures Holds(file + more, index + chunks, before + es, base, idOf) && |index| == |before| && |chunks| == |es|
    ensures HeadOf(head, before + es, base)
  {
    hide FileOf, AllStorable, Start, Pack;
    FileAppend(before, es);
    BatchIndexes(index, before, es, chunks);
    BatchStorable(before, es, base, idOf);
  }
}
