// What a block log file and its artifacts index hold, as functions of the
// blocks appended to them.

module LogFile {
  import opened Common
  import opened Packing

  const MAX_BLOCK_SIZE := 2 * 1024 * 1024

  /** A block id: its first four bytes are the block number. */
  datatype Id = Id(num: nat, hash: nat)

  /** A stored block: serialized bytes, how they are stored, and the block's id. */
  datatype Entry = Entry(raw: seq<Byte>, attrs: Attributes, id: Id)

  /** A fixed-width chunk of the index; the number in the id is implied by the chunk's place. */
  datatype Chunk = Chunk(word: nat, hash: nat)

  datatype Artifacts = Artifacts(pos: nat, size: int, attrs: Attributes, id: Id)

  /** Records one after the other, each followed by its own start position. */
  ghost function FileOf(es: seq<Entry>): seq<Byte> {
    if es == [] then []
    else
      var below, e := FileOf(es[..|es| - 1]), es[|es| - 1];
      below + e.raw + Trailer(|below|, e.attrs)
  }

  ghost function Start(es: seq<Entry>, k: nat): nat
    requires k <= |es|
  {
    |FileOf(es[..k])|
  }

  lemma StartPrefix(es: seq<Entry>, n: nat, k: nat)
    requires k <= n <= |es|
    ensures Start(es[..n], k) == Start(es, k)
  {
    assert es[..n][..k] == es[..k];
  }

  lemma {:induction false} FilePrefix(es: seq<Entry>, k: nat)
    requires k <= |es|
    ensures FileOf(es[..k]) <= FileOf(es)
    decreases |es|
  {
    if k < |es| {
      var init := es[..|es| - 1];
      assert init[..k] == es[..k];
      FilePrefix(init, k);
    } else {
      assert es[..k] == es;
    }
  }

  lemma {:induction false} FileSnoc(es: seq<Entry>, e: Entry)
    ensures FileOf(es + [e]) == FileOf(es) + e.raw + Trailer(|FileOf(es)|, e.attrs)
  {
    assert (es + [e])[..|es|] == es;
  }

  lemma ThreeParts(a: seq<Byte>, b: seq<Byte>, c: seq<Byte>)
    ensures var s := a + b + c; |s| == |a| + |b| + |c| && s[|a|..|a| + |b|] == b && s[|a| + |b|..|s|] == c
  {
  }

  lemma SlicePrefix(a: seq<Byte>, b: seq<Byte>, i: nat, j: nat)
    requires a <= b && i <= j <= |a|
    ensures a[i..j] == b[i..j]
  {
  }

  /** Where the record of block `k` lies and what it holds. */
  lemma {:induction false} RecordAt(es: seq<Entry>, k: nat)
    requires k < |es|
    ensures var p, q := Start(es, k), Start(es, k) + |es[k].raw|;
            && Start(es, k + 1) == q + 8 <= |FileOf(es)|
            && FileOf(es)[p..q] == es[k].raw && FileOf(es)[q..q + 8] == Trailer(p, es[k].attrs)
  {
    hide FileOf, Trailer;
    var low, e := FileOf(es[..k]), es[k];
    var p, q := |low|, |low| + |e.raw|;
    assert es[..k + 1] == es[..k] + [e];
    FileSnoc(es[..k], e);
    FilePrefix(es, k + 1);
    var upTo := low + e.raw + Trailer(p, e.attrs);
    ThreeParts(low, e.raw, Trailer(p, e.attrs));
    SlicePrefix(upTo, FileOf(es), p, q);
    SlicePrefix(upTo, FileOf(es), q, q + 8);
  }

  lemma {:induction false} StartMonotone(es: seq<Entry>, j: nat, k: nat)
    requires j <= k <= |es|
    ensures Start(es, j) <= Start(es, k) <= |FileOf(es)|
    decreases k - j
  {
    FilePrefix(es, k);
    if j < k {
      RecordAt(es, k - 1);
      StartMonotone(es, j, k - 1);
    }
  }

  function Pack(pos: nat, attrs: Attributes, id: Id): Chunk {
    Chunk(Combine(pos, attrs), id.hash)
  }

  function Unpack(c: Chunk, num: nat, next: Chunk): Artifacts {
    var (pos, attrs) := Split(c.word);
    Artifacts(pos, Split(next.word).0 - pos - 8, attrs, Id(num, c.hash))
  }

  /** The index of a file: one chunk per block. */
  ghost predicate Indexes(index: seq<Chunk>, es: seq<Entry>) {
    |index| == |es| && forall k: nat :: k < |index| ==> index[k] == Pack(Start(es, k), es[k].attrs, es[k].id)
  }

  /** The log bytes and the index agree on every block: position, size, attributes and id. */
  ghost function Truth(es: seq<Entry>, k: nat): Artifacts
    requires k < |es|
  {
    Artifacts(Start(es, k), |es[k].raw|, es[k].attrs, es[k].id)
  }

  lemma {:induction false} IndexReads(index: seq<Chunk>, es: seq<Entry>, k: nat, num: nat)
    requires Indexes(index, es) && k + 1 < |es| && |FileOf(es)| < POSITION_LIMIT && es[k].id.num == num
    ensures Unpack(index[k], num, index[k + 1]) == Truth(es, k)
  {
    RecordAt(es, k);
    StartMonotone(es, k + 1, |es|);
    SplitCombined(Start(es, k), es[k].attrs);
    SplitCombined(Start(es, k + 1), es[k + 1].attrs);
  }

  lemma {:induction false} IndexSnoc(index: seq<Chunk>, es: seq<Entry>, e: Entry)
    requires Indexes(index, es)
    ensures Indexes(index + [Pack(|FileOf(es)|, e.attrs, e.id)], es + [e])
  {
    var more := es + [e];
    var chunks := index + [Pack(|FileOf(es)|, e.attrs, e.id)];
    forall k: nat | k < |chunks| ensures chunks[k] == Pack(Start(more, k), more[k].attrs, more[k].id) {
      assert more[..k] == es[..k];
      assert es[..|es|] == es;
    }
  }

  lemma IndexTake(index: seq<Chunk>, es: seq<Entry>, n: nat)
    requires Indexes(index, es) && n <= |es|
    ensures Indexes(index[..n], es[..n])
  {
    forall k: nat | k < n ensures index[..n][k] == Pack(Start(es[..n], k), es[..n][k].attrs, es[..n][k].id) {
      StartPrefix(es, n, k);
    }
  }

  /** Reading `size` bytes at `pos`; a short read is an error. */
  function Pread(file: seq<Byte>, pos: int, size: int): Option<seq<Byte>> {
    if 0 <= pos && 0 <= size && pos + size <= |file| then Some(file[pos..pos + size]) else None
  }
}
