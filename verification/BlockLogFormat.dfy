/** The bytes of the block log and of its index: packed blocks, each followed by its own position, and one
    position per block. */
module BlockLogFormat {
  import opened Common

  type Byte = b: nat | b < 256

  type Bytes = seq<Byte>

  const TWO_64: nat := 0x1_0000_0000_0000_0000

  /** STEEMIT_MAX_BLOCK_SIZE */
  const MAX_BLOCK_SIZE: nat := 1024 * 64 * 3 * 2000

  // ----- 64-bit words, least significant byte first -----

  function Pow256(n: nat): nat {
    if n == 0 then 1 else 256 * Pow256(n - 1)
  }

  function Digits(v: nat, n: nat): (r: Bytes)
    ensures |r| == n
  {
    if n == 0 then [] else [v % 256] + Digits(v / 256, n - 1)
  }

  function Value(s: Bytes): nat {
    if s == [] then 0 else s[0] + 256 * Value(s[1..])
  }

  lemma {:induction false} DigitsRoundTrip(v: nat, n: nat)
    requires v < Pow256(n)
    ensures Value(Digits(v, n)) == v
  {
    if n > 0 {
      DigitsRoundTrip(v / 256, n - 1);
      assert Digits(v, n)[1..] == Digits(v / 256, n - 1);
    }
  }

  function Word(v: nat): (r: Bytes)
    ensures |r| == 8
  {
    Digits(v, 8)
  }

  lemma WordRoundTrip(v: nat)
    requires v < TWO_64
    ensures Value(Word(v)) == v
  {
    assert Pow256(8) == TWO_64 by {
      assert Pow256(2) == 65536;
      assert Pow256(4) == 65536 * 65536;
      assert Pow256(6) == 65536 * 65536 * 65536;
    }
    DigitsRoundTrip(v, 8);
  }

  // ----- serialisation -----

  /** How blocks are packed and numbered. Unpacking also says how many bytes it used. */
  datatype Codec<!B> = Codec(pack: B -> Bytes, unpack: Bytes -> Option<(B, nat)>, num: B -> nat)

  ghost predicate CodecOk<B(!new)>(c: Codec<B>) {
    && (forall b: B {:trigger c.pack(b)} :: 0 < |c.pack(b)|)
    && forall b: B, rest: Bytes {:trigger c.unpack(c.pack(b) + rest)} :: c.unpack(c.pack(b) + rest) ==
         Some((b, |c.pack(b)|))
  }

  // ----- the two files -----

  /** The log of the first n blocks. */
  function LogOf<B>(c: Codec<B>, blocks: seq<B>, n: nat): Bytes
    requires n <= |blocks|
  {
    if n == 0 then [] else LogOf(c, blocks, n - 1) + Record(c, blocks, n - 1)
  }

  /** A packed block and its position. */
  function Record<B>(c: Codec<B>, blocks: seq<B>, i: nat): Bytes
    requires i < |blocks|
    decreases i, 1
  {
    c.pack(blocks[i]) + Word(Position(c, blocks, i))
  }

  function Position<B>(c: Codec<B>, blocks: seq<B>, i: nat): nat
    requires i <= |blocks|
    decreases i, 0
  {
    if i == 0 then 0 else Position(c, blocks, i - 1) + |c.pack(blocks[i - 1])| + 8
  }

  function IndexOf<B>(c: Codec<B>, blocks: seq<B>, n: nat): Bytes
    requires n <= |blocks|
  {
    if n == 0 then [] else IndexOf(c, blocks, n - 1) + Word(Position(c, blocks, n - 1))
  }

  lemma {:induction false} LogLength<B>(c: Codec<B>, blocks: seq<B>, n: nat)
    requires n <= |blocks|
    ensures |LogOf(c, blocks, n)| == Position(c, blocks, n)
  {
    if n > 0 {
      LogLength(c, blocks, n - 1);
    }
  }

  lemma {:induction false} IndexLength<B>(c: Codec<B>, blocks: seq<B>, n: nat)
    requires n <= |blocks|
    ensures |IndexOf(c, blocks, n)| == 8 * n
  {
    if n > 0 {
      IndexLength(c, blocks, n - 1);
    }
  }

  lemma {:induction false} PositionsGrow<B(!new)>(c: Codec<B>, blocks: seq<B>, i: nat, j: nat)
    requires CodecOk(c) && i < j <= |blocks|
    ensures Position(c, blocks, i) + 8 < Position(c, blocks, j)
    decreases j
  {
    assert |c.pack(blocks[j - 1])| > 0;
    if i < j - 1 {
      PositionsGrow(c, blocks, i, j - 1);
    }
  }

  /** Block i starts at its position: the log from there on is its record and the rest. */
  lemma {:induction false} LogFrom<B>(c: Codec<B>, blocks: seq<B>, n: nat, i: nat)
    requires i < n <= |blocks|
    ensures Position(c, blocks, i + 1) <= |LogOf(c, blocks, n)|
    ensures LogOf(c, blocks, n)[Position(c, blocks, i)..Position(c, blocks, i + 1)] == Record(c, blocks, i)
    decreases n
  {
    LogLength(c, blocks, n - 1);
    if i < n - 1 {
      LogFrom(c, blocks, n - 1, i);
    }
  }

  /** Entry i of the index is the position of block i. */
  lemma {:induction false} IndexAt<B>(c: Codec<B>, blocks: seq<B>, n: nat, i: nat)
    requires i < n <= |blocks|
    ensures |IndexOf(c, blocks, n)| == 8 * n
    ensures IndexOf(c, blocks, n)[8 * i..8 * i + 8] == Word(Position(c, blocks, i))
    decreases n
  {
    IndexLength(c, blocks, n - 1);
    if i < n - 1 {
      IndexAt(c, blocks, n - 1, i);
    }
  }

  /** Appending a block does not change what is before it. */
  lemma {:induction false} SamePrefix<B>(c: Codec<B>, a: seq<B>, b: seq<B>, n: nat)
    requires n <= |a| && n <= |b| && a[..n] == b[..n]
    ensures LogOf(c, a, n) == LogOf(c, b, n) && IndexOf(c, a, n) == IndexOf(c, b, n)
    ensures Position(c, a, n) == Position(c, b, n)
  {
    if n > 0 {
      assert a[n - 1] == a[..n][n - 1] && b[n - 1] == b[..n][n - 1];
      assert a[..n - 1] == a[..n][..n - 1] && b[..n - 1] == b[..n][..n - 1];
      SamePrefix(c, a, b, n - 1);
    }
  }
}
