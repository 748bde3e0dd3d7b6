/** The on-disk format byte by byte: words, the log header, inodes and the bitmap, as any
    other program that reads the disk has to see them. */
module DiskFormat {
  import opened Basics
  import opened Blocks
  import opened FsLayout
  import opened Log

  /** The number that bytes stand for, least significant byte first. */
  function LittleEndian(s: seq<byte>): (n: nat) { if s == [] then 0 else s[0] + 0x100 * LittleEndian(s[1..]) }

  lemma Two(s: seq<byte>)
    requires |s| == 2
    ensures LittleEndian(s) == s[0] as int + 0x100 * s[1] as int
  {
    assert LittleEndian(s[1..][1..]) == 0;
  }

  lemma Four(s: seq<byte>)
    requires |s| == 4
    ensures LittleEndian(s) == s[0] as int + 0x100 * s[1] as int + 0x1_0000 * s[2] as int + 0x100_0000 * s[3] as int
  {
    Two(s[2..]);
    assert s[1..][1..] == s[2..];
  }

  /** Word j of a block is its bytes 4j to 4j + 3. */
  lemma WordFormat(b: Block, j: nat)
    requires j < WORDS
    ensures Word(b, j) == LittleEndian(b[4*j..4*j+4])
  {
    Four(b[4*j..4*j+4]);
  }

  /** struct logheader: the count, then the block numbers. */
  lemma HeaderFormat(b: Block, i: nat)
    requires HeadOk(b)
    ensures |HeadList(b)| == LittleEndian(b[..4])
    ensures i < |HeadList(b)| ==> HeadList(b)[i] == LittleEndian(b[4+4*i..8+4*i])
  {
    WordFormat(b, 0);
    if i < |HeadList(b)| { WordFormat(b, 1 + i); }
  }

  /** What write_head makes of a list, whatever the block held before. */
  lemma HeaderWritten(b: Block, lh: seq<nat>, i: nat)
    requires |lh| <= LOGSIZE && Below(lh, TWO32)
    ensures LittleEndian(HeadBlock(b, lh)[..4]) == |lh|
    ensures i < |lh| ==> LittleEndian(HeadBlock(b, lh)[4+4*i..8+4*i]) == lh[i]
  {
    hide HeadBlock, HeadList;
    HeadRoundTrip(b, lh);
    HeaderFormat(HeadBlock(b, lh), i);
  }

  lemma LowHigh(lo: nat, hi: nat)
    requires lo < 0x1_0000
    ensures (lo + 0x1_0000 * hi) % 0x1_0000 == lo && (lo + 0x1_0000 * hi) / 0x1_0000 == hi
  {
  }

  lemma HalfWords(s: seq<byte>)
    requires |s| == 4
    ensures LittleEndian(s[..2]) == LittleEndian(s) % 0x1_0000 && LittleEndian(s[2..]) == LittleEndian(s) / 0x1_0000
  {
    Two(s[..2]);
    Two(s[2..]);
    Four(s);
    hide LittleEndian;
    LowHigh(LittleEndian(s[..2]), LittleEndian(s[2..]));
  }

  lemma Halves(b: Block, j: nat)
    requires j < WORDS
    ensures LittleEndian(b[4*j..4*j+2]) == Lo(Word(b, j)) && LittleEndian(b[4*j+2..4*j+4]) == Hi(Word(b, j))
  {
    var s := b[4*j..4*j+4];
    HalfWords(s);
    WordFormat(b, j);
    assert s[..2] == b[4*j..4*j+2] && s[2..] == b[4*j+2..4*j+4];
    hide LittleEndian, Word;
  }

  /** struct dinode number slot of a block: its fields at their offsets in 64 bytes. */
  lemma NodeFormat(b: Block, slot: nat, k: nat)
    requires slot < IPB && k <= NDIRECT
    ensures var d, o := NodeOf(b, slot), 64 * slot;
      && d.typ == LittleEndian(b[o..o+2]) && d.major == LittleEndian(b[o+2..o+4])
      && d.minor == LittleEndian(b[o+4..o+6]) && d.nlink == LittleEndian(b[o+6..o+8])
      && d.size == LittleEndian(b[o+8..o+12]) && d.addrs[k] == LittleEndian(b[o+12+4*k..o+16+4*k])
  {
    hide LittleEndian, Word;
    Halves(b, 16 * slot);
    Halves(b, 16 * slot + 1);
    WordFormat(b, 16 * slot + 2);
    WordFormat(b, 16 * slot + 3 + k);
  }

  lemma {:induction false} BitIs(x: nat, k: nat)
    ensures TestBit(x, k) <==> x / Pow2(k) % 2 == 1
  {
    if k > 0 {
      BitIs(x / 2, k - 1);
      Halve(x, Pow2(k - 1));
    }
  }

  lemma Halve(x: nat, m: nat)
    requires m > 0
    ensures x / 2 / m == x / (2 * m)
  {
    var q := x / (2 * m);
    var r := x - q * (2 * m);
    assert 0 <= r < 2 * m;
    assert x / 2 == q * m + r / 2;
    Quotient(m, q, r / 2);
  }

  /** Bit bi of a bitmap block is bit bi % 8 of its byte bi / 8. */
  lemma BitFormat(block: Block, bi: nat)
    requires bi < BPB
    ensures BitIn(block, bi) <==> block[bi / 8] / Pow2(bi % 8) % 2 == 1
  {
    BitIs(block[bi / 8], bi % 8);
  }

  /** The inode table and the bitmap are contiguous: inode i starts 64 * i bytes after the
      start of the table, and the bit of block b is b bits after that of the bitmap. */
  lemma Contiguous(sb: Super, i: nat, b: nat)
    ensures IBlock(sb, i) * BSIZE + 64 * (i % IPB) == sb.inodestart * BSIZE + 64 * i
    ensures BBlock(sb, b) * BSIZE * 8 + b % BPB == sb.bmapstart * BSIZE * 8 + b
  {
  }

  /** The sizes fit together as the macros of fs.h and the test in initlog have them. */
  lemma Sizes()
    ensures WORDS * 4 == BSIZE && IPB * 64 == BSIZE && BPB == BSIZE * 8
    ensures NINDIRECT * 4 == BSIZE && MAXFILE == NDIRECT + NINDIRECT && NSLOTS == MAXFILE + 1
    ensures 4 + 4 * LOGSIZE < BSIZE && LOGSIZE == 3 * MAXOPBLOCKS
  {
  }
}
