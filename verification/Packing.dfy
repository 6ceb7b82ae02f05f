// The eight bytes that close every record of the block log, and that also open
// every chunk of the artifacts index: a file position with the block's attributes.

module Packing {
  import opened Arith
  import opened Common

  type Byte = int                              // only 0 to 255 occur; no proof depends on it
  type Dictionary = x: nat | x < 256

  const POSITION_LIMIT := 0x1_0000_0000_0000   // positions take the low 48 bits
  const WORD_LIMIT := 0x1_0000_0000_0000_0000

  /** Whether the block is compressed with zstd, and the dictionary if it uses one. */
  datatype Attributes = Attributes(zstd: bool, dictionary: Option<Dictionary>)

  /** Bits 0-47 position, 48-55 dictionary, 56 dictionary used, 57-62 unused, 63 compressed. */
  function Combine(pos: nat, a: Attributes): nat {
    var dict := if a.dictionary.Some? then 0x100 + a.dictionary.value else 0;
    var high := (if a.zstd then 0x8000 else 0) + dict;
    high * POSITION_LIMIT + pos
  }

  function Split(word: int): (nat, Attributes) {
    var high := word / POSITION_LIMIT;
    var dict: Dictionary := high % 256;
    (word % POSITION_LIMIT, Attributes(word >= 0x8000_0000_0000_0000, if high / 256 % 2 == 1 then Some(dict) else None))
  }

  /**
   * Where everything is in the word: the position in the low 48 bits, above it the number of the
   * dictionary, a bit for whether there is one, six bits that are zero, and the top bit for zstd.
   */
  lemma CombinedLayout(pos: nat, a: Attributes)
    requires pos < POSITION_LIMIT
    ensures var word := Combine(pos, a);
            && word % 0x1_0000_0000_0000 == pos
            && word / 0x1_0000_0000_0000 % 0x100 == (if a.dictionary.Some? then a.dictionary.value else 0)
            && word / 0x100_0000_0000_0000 % 2 == (if a.dictionary.Some? then 1 else 0)
            && word / 0x200_0000_0000_0000 % 0x40 == 0
            && word / 0x8000_0000_0000_0000 == (if a.zstd then 1 else 0)
  {
    var dict := if a.dictionary.Some? then 0x100 + a.dictionary.value else 0;
    var high := (if a.zstd then 0x8000 else 0) + dict;
    var word := Combine(pos, a);
    assert word / POSITION_LIMIT == high;
  }

  lemma SplitCombined(pos: nat, a: Attributes)
    requires pos < POSITION_LIMIT
    ensures Combine(pos, a) < WORD_LIMIT && Split(Combine(pos, a)) == (pos, a)
  {
    var dict := if a.dictionary.Some? then 0x100 + a.dictionary.value else 0;
    var high := (if a.zstd then 0x8000 else 0) + dict;
    var word := Combine(pos, a);
    assert word / POSITION_LIMIT == high && word % POSITION_LIMIT == pos;
  }

  /** Little-endian bytes of the low `n` bytes of a word. */
  function Bytes(w: nat, n: nat): (r: seq<Byte>)
    ensures |r| == n
  {
    if n == 0 then [] else [w % 256] + Bytes(w / 256, n - 1)
  }

  /** Byte `k` is the `k`-th lowest of the word. */
  lemma {:induction false} BytesAt(w: nat, n: nat, k: nat)
    requires k < n
    ensures Bytes(w, n)[k] == w / Pow256(k) % 256
    decreases k
  {
    if k > 0 {
      BytesAt(w / 256, n - 1, k - 1);
      DivTwice(w, Pow256(k - 1));
    }
  }

  lemma DivTwice(w: nat, d: nat)
    requires d >= 1
    ensures w / 256 / d == w / (256 * d)
  {
    QuotientIs(w, 256);
    QuotientIs(w / 256, d);
    var q := w / 256 / d;
    assert q * (256 * d) == q * d * 256 && (q + 1) * (256 * d) == (q + 1) * d * 256;
    QuotientIs(w, 256 * d);
    QuotientOnly(q, w / (256 * d), w, 256 * d);
  }

  function Word(s: seq<Byte>): int {
    if s == [] then 0 else s[0] + 256 * Word(s[1..])
  }

  function Pow256(n: nat): (r: nat)
    ensures r >= 1
  {
    if n == 0 then 1 else 256 * Pow256(n - 1)
  }

  lemma {:induction false} WordOfBytes(w: nat, n: nat)
    requires w < Pow256(n)
    ensures Word(Bytes(w, n)) == w
    decreases n
  {
    if n > 0 {
      assert w / 256 < Pow256(n - 1);
      WordOfBytes(w / 256, n - 1);
      assert Bytes(w, n)[1..] == Bytes(w / 256, n - 1);
    }
  }

  /** What closes the record of a block that starts at `pos`. */
  function Trailer(pos: nat, a: Attributes): (r: seq<Byte>)
    ensures |r| == 8
  {
    Bytes(Combine(pos, a), 8)
  }

  /** A trailer read back gives the position and the attributes it was written with. */
  lemma TrailerReads(pos: nat, a: Attributes)
    requires pos < POSITION_LIMIT
    ensures Split(Word(Trailer(pos, a))) == (pos, a)
  {
    SplitCombined(pos, a);
    assert Pow256(8) == WORD_LIMIT by {
      assert Pow256(4) == 0x1_0000_0000;
      assert Pow256(8) == 256 * (256 * (256 * (256 * Pow256(4))));
    }
    WordOfBytes(Combine(pos, a), 8);
  }
}
