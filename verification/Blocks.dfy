/** Disk blocks as byte sequences, with the little-endian 32-bit words that
    on-disk structures (log header, indirect block, inode) are made of and the
    bits of the free map. */
module Blocks {
  import opened Basics

  const BSIZE: nat := 512
  const WORDS: nat := 128          // 32-bit words per block

  type uint = x: int | 0 <= x < TWO32

  function Zeros(n: nat): (s: seq<byte>)
    ensures |s| == n && forall i :: 0 <= i < n ==> s[i] == 0
  {
    if n == 0 then [] else Zeros(n - 1) + [0]
  }

  type Block = b: seq<byte> | |b| == BSIZE witness Zeros(BSIZE)

  const ZERO: Block := Zeros(BSIZE)

  type Disk = seq<Block>

  function Word(b: Block, j: nat): (w: uint)
    requires j < WORDS
  {
    b[4*j] as int + 0x100 * (b[4*j+1] as int) + 0x1_0000 * (b[4*j+2] as int) + 0x100_0000 * (b[4*j+3] as int)
  }

  function ToBytes(w: uint): (s: seq<byte>)
    ensures |s| == 4
  {
    [w % 0x100, w / 0x100 % 0x100, w / 0x1_0000 % 0x100, w / 0x100_0000]
  }

  function SetWord(b: Block, j: nat, w: uint): (r: Block)
    requires j < WORDS
  {
    b[..4*j] + ToBytes(w) + b[4*j+4..]
  }

  /** Writing word j makes it read back, and changes no other word. */
  lemma WordSetWord(b: Block, j: nat, w: uint, i: nat)
    requires j < WORDS && i < WORDS
    ensures Word(SetWord(b, j, w), i) == if i == j then w else Word(b, i)
  {
    var r := SetWord(b, j, w);
    if i == j {
      assert r[4*j..4*j+4] == ToBytes(w);
      assert r[4*j] == r[4*j..4*j+4][0] && r[4*j+1] == r[4*j..4*j+4][1];
      assert r[4*j+2] == r[4*j..4*j+4][2] && r[4*j+3] == r[4*j..4*j+4][3];
      Radix(w);
    } else if i < j {
      assert r[4*i] == b[4*i] && r[4*i+1] == b[4*i+1] && r[4*i+2] == b[4*i+2] && r[4*i+3] == b[4*i+3];
    } else {
      assert r[4*i] == b[4*i] && r[4*i+1] == b[4*i+1] && r[4*i+2] == b[4*i+2] && r[4*i+3] == b[4*i+3];
    }
  }

  /** Consecutive words from index base on set to ws[0], ws[1], ... */
  function SetWords(b: Block, base: nat, ws: seq<uint>): (r: Block)
    requires base + |ws| <= WORDS
    decreases |ws|
  {
    if ws == [] then b
    else SetWord(SetWords(b, base, ws[..|ws|-1]), base + |ws| - 1, ws[|ws|-1])
  }

  lemma {:induction false} WordSetWords(b: Block, base: nat, ws: seq<uint>, i: nat)
    requires base + |ws| <= WORDS && i < WORDS
    ensures Word(SetWords(b, base, ws), i) == if base <= i < base + |ws| then ws[i-base] else Word(b, i)
    decreases |ws|
  {
    if ws != [] {
      var m := |ws| - 1;
      WordSetWords(b, base, ws[..m], i);
      WordSetWord(SetWords(b, base, ws[..m]), base + m, ws[m], i);
    }
  }

  lemma Radix(w: uint)
    ensures w == w % 0x100 + 0x100 * (w / 0x100 % 0x100)
                 + 0x1_0000 * (w / 0x1_0000 % 0x100) + 0x100_0000 * (w / 0x100_0000)
  {
    assert w / 0x1_0000 == w / 0x100 / 0x100;
    assert w / 0x100_0000 == w / 0x1_0000 / 0x100;
  }

  // ----- bits of a byte, least significant first -----

  function Pow2(m: nat): (r: nat)
    ensures r > 0
  {
    if m == 0 then 1 else 2 * Pow2(m - 1)
  }

  /** x & (1 << k) != 0 */
  predicate TestBit(x: nat, k: nat) {
    if k == 0 then x % 2 == 1 else TestBit(x / 2, k - 1)
  }

  /** x | (1 << k) */
  function OrBit(x: nat, k: nat): (r: nat) {
    if k == 0 then x / 2 * 2 + 1 else 2 * OrBit(x / 2, k - 1) + x % 2
  }

  /** x & ~(1 << k) */
  function ClearBit(x: nat, k: nat): (r: nat) {
    if k == 0 then x / 2 * 2 else 2 * ClearBit(x / 2, k - 1) + x % 2
  }

  lemma {:induction false} TestOrBit(x: nat, k: nat, i: nat)
    ensures TestBit(OrBit(x, k), i) <==> i == k || TestBit(x, i)
  {
    if k > 0 && i > 0 { TestOrBit(x / 2, k - 1, i - 1); }
  }

  lemma {:induction false} TestClearBit(x: nat, k: nat, i: nat)
    ensures TestBit(ClearBit(x, k), i) <==> i != k && TestBit(x, i)
  {
    if k > 0 && i > 0 { TestClearBit(x / 2, k - 1, i - 1); }
  }

  /** Setting or clearing one of the low m bits keeps a number below 2^m. */
  lemma {:induction false} BitsFit(x: nat, k: nat, m: nat)
    requires x < Pow2(m) && k < m
    ensures OrBit(x, k) < Pow2(m) && ClearBit(x, k) < Pow2(m)
  {
    assert Pow2(m) == 2 * Pow2(m - 1) && x == x / 2 * 2 + x % 2;
    assert x / 2 < Pow2(m - 1);
    if k > 0 { BitsFit(x / 2, k - 1, m - 1); }
  }

  lemma ByteFits(x: byte, k: nat)
    requires k < 8
    ensures OrBit(x, k) < 256 && ClearBit(x, k) < 256
  {
    assert Pow2(8) == 256;
    BitsFit(x, k, 8);
  }
}
