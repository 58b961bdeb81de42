/** Disk blocks as arrays of bytes, and the two ways the kernel looks inside one:
    as little-endian 32-bit words (log header, indirect block) and as bits (free map). */
module Blocks {
  const BSIZE: nat := 512
  const WORDS: nat := 128   // BSIZE / sizeof(uint)
  const BITS: nat := 4096   // BSIZE * 8
  const UINT: nat := 0x1_0000_0000

  type Byte = x: int | 0 <= x < 256
  type Word = x: int | 0 <= x < 0x1_0000_0000
  type Block = b: seq<Byte> | |b| == 512 witness seq(512, _ => 0)

  function Zeroed(): (b: Block)
  {
    seq(512, _ => 0)
  }

  /** The four bytes of a word, low byte first. */
  function Bytes(w: Word): (s: seq<Byte>)
    ensures |s| == 4 && Load(s) == w
  {
    var w1 := w / 0x100;
    var w2 := w1 / 0x100;
    [w % 0x100, w1 % 0x100, w2 % 0x100, w2 / 0x100]
  }

  function Load(s: seq<Byte>): (w: Word)
    requires |s| == 4
  {
    var b0: int, b1: int, b2: int, b3: int := s[0], s[1], s[2], s[3];
    b0 + 0x100 * b1 + 0x1_0000 * b2 + 0x100_0000 * b3
  }

  /** The j-th word of a block, as the x86 loads it. */
  function WordAt(b: Block, j: nat): (w: Word)
    requires j < WORDS
  {
    Load(b[4 * j..4 * j + 4])
  }

  /** The block after storing w in its j-th word. */
  function SetWord(b: Block, j: nat, w: Word): (r: Block)
    requires j < WORDS
    ensures WordAt(r, j) == w
    ensures forall k | 0 <= k < WORDS && k != j :: WordAt(r, k) == WordAt(b, k)
  {
    var r := b[..4 * j] + Bytes(w) + b[4 * j + 4..];
    assert r[4 * j..4 * j + 4] == Bytes(w);
    assert forall k | 0 <= k < WORDS && k != j :: r[4 * k..4 * k + 4] == b[4 * k..4 * k + 4];
    r
  }

  /** Consecutive words stored from word j on. */
  function PutWords(b: Block, j: nat, ws: seq<Word>): (r: Block)
    requires j + |ws| <= WORDS
    decreases |ws|
  {
    if ws == [] then b
    else SetWord(PutWords(b, j, ws[..|ws| - 1]), j + |ws| - 1, ws[|ws| - 1])
  }

  /** n consecutive words from word j on. */
  function GetWords(b: Block, j: nat, n: nat): (ws: seq<Word>)
    requires j + n <= WORDS
    ensures |ws| == n && forall k | 0 <= k < n :: ws[k] == WordAt(b, j + k)
  {
    if n == 0 then [] else GetWords(b, j, n - 1) + [WordAt(b, j + n - 1)]
  }

  lemma GetPut(b: Block, j: nat, ws: seq<Word>, k: nat, n: nat)
    requires j + |ws| <= WORDS && k + n <= WORDS
    ensures (k, n) == (j, |ws|) ==> GetWords(PutWords(b, j, ws), k, n) == ws
    ensures k + n <= j || j + |ws| <= k ==> GetWords(PutWords(b, j, ws), k, n) == GetWords(b, k, n)
  {
    hide WordAt, PutWords;
    var vs, us := GetWords(PutWords(b, j, ws), k, n), GetWords(b, k, n);
    forall i | 0 <= i < n
      ensures vs[i] == if j <= k + i < j + |ws| then ws[k + i - j] else us[i]
    {
      PutWordsAt(b, j, ws, k + i);
    }
  }

  lemma {:induction false} PutWordsAt(b: Block, j: nat, ws: seq<Word>, k: nat)
    requires j + |ws| <= WORDS && k < WORDS
    ensures WordAt(PutWords(b, j, ws), k) == if j <= k < j + |ws| then ws[k - j] else WordAt(b, k)
    decreases |ws|
  {
    hide WordAt, SetWord;
    if ws != [] {
      PutWordsAt(b, j, ws[..|ws| - 1], k);
    }
  }

  function Pow2(m: nat): (p: nat)
    ensures p >= 1
  {
    if m == 0 then 1 else 2 * Pow2(m - 1)
  }

  /** Bit k of x: (x & (1 << k)) != 0 */
  predicate Bit(x: nat, k: nat)
  {
    if k == 0 then x % 2 == 1 else Bit(x / 2, k - 1)
  }

  /** x | (1 << k), for a number x of m bits */
  function OrBit(x: nat, k: nat, m: nat): (r: nat)
    requires k < m && x < Pow2(m)
    ensures r < Pow2(m)
    ensures forall j: nat :: Bit(r, j) == (j == k || Bit(x, j))
  {
    if k == 0 then x / 2 * 2 + 1 else
      var h := OrBit(x / 2, k - 1, m - 1);
      var y := h * 2 + x % 2;
      assert y / 2 == h && y % 2 == x % 2;
      assert forall j: nat | j > 0 :: Bit(y, j) == Bit(h, j - 1);
      assert forall j: nat | j > 0 :: Bit(x, j) == Bit(x / 2, j - 1);
      y
  }

  /** x & ~(1 << k), for a number x of m bits */
  function AndNotBit(x: nat, k: nat, m: nat): (r: nat)
    requires k < m && x < Pow2(m)
    ensures r < Pow2(m)
    ensures forall j: nat :: Bit(r, j) == (j != k && Bit(x, j))
  {
    if k == 0 then x / 2 * 2 else
      var h := AndNotBit(x / 2, k - 1, m - 1);
      var y := h * 2 + x % 2;
      assert y / 2 == h && y % 2 == x % 2;
      assert forall j: nat | j > 0 :: Bit(y, j) == Bit(h, j - 1);
      assert forall j: nat | j > 0 :: Bit(x, j) == Bit(x / 2, j - 1);
      y
  }

  /** Bit bi of a free-map block. */
  predicate BlockBit(b: Block, bi: nat)
    requires bi < BITS
  {
    Bit(b[bi / 8], bi % 8)
  }

  function ByteWith(x: Byte, k: nat, on: bool): (r: Byte)
    requires k < 8
    ensures forall j: nat :: Bit(r, j) == if j == k then on else Bit(x, j)
  {
    assert Pow2(8) == 256;
    if on then OrBit(x, k, 8) else AndNotBit(x, k, 8)
  }

  /** The free-map block with bit bi switched on or off. */
  function PutBit(b: Block, bi: nat, on: bool): (r: Block)
    requires bi < BITS
  {
    b[bi / 8 := ByteWith(b[bi / 8], bi % 8, on)]
  }

  lemma PutBitAt(b: Block, bi: nat, on: bool, bj: nat)
    requires bi < BITS && bj < BITS
    ensures BlockBit(PutBit(b, bi, on), bj) == if bj == bi then on else BlockBit(b, bj)
  {
    hide OrBit, AndNotBit, Bit;
    if bi / 8 == bj / 8 {
      assert bi == 8 * (bi / 8) + bi % 8 && bj == 8 * (bj / 8) + bj % 8;
    }
  }
}
