/** On-disk layout of the file system (fs.h): the free bitmap, the inode table and
    the block numbers an inode lists, as functions of the disk contents. */
module FsLayout {
  import opened Basics
  import opened Blocks

  const NDIRECT: nat := 12
  const NINDIRECT: nat := 128
  const MAXFILE: nat := 140
  const BPB: nat := 4096           // bitmap bits per block
  const IPB: nat := 8              // inodes per block
  const NSLOTS: nat := 141         // 12 direct, 1 indirect, 128 in the indirect block

  /** Inode blocks are [inodestart, bmapstart), bitmap blocks [bmapstart, nmeta) and
      data blocks [nmeta, size). */
  datatype Super = Super(size: nat, ninodes: nat, inodestart: nat, bmapstart: nat, nmeta: nat) {
    predicate Ok() {
      && 0 < nmeta <= size < TWO32 && inodestart <= bmapstart
      && inodestart + (ninodes + IPB - 1) / IPB <= bmapstart
      && bmapstart + (size + BPB - 1) / BPB <= nmeta
    }
  }

  function BBlock(sb: Super, b: nat): (r: nat) { b / BPB + sb.bmapstart }
  function IBlock(sb: Super, i: nat): (r: nat) { i / IPB + sb.inodestart }

  lemma BBlockRange(sb: Super, b: nat)
    requires sb.Ok() && b < sb.size
    ensures sb.bmapstart <= BBlock(sb, b) < sb.nmeta
  {
    assert b / BPB < (sb.size + BPB - 1) / BPB;
  }

  lemma IBlockRange(sb: Super, i: nat)
    requires sb.Ok() && i < sb.ninodes
    ensures sb.inodestart <= IBlock(sb, i) < sb.bmapstart
  {
    assert i / IPB < (sb.ninodes + IPB - 1) / IPB;
  }

  // ----- bitmap -----

  predicate BitIn(block: Block, bi: nat)
    requires bi < BPB
  {
    TestBit(block[bi/8], bi % 8)
  }

  function Mark(block: Block, bi: nat, on: bool): (r: Block)
    requires bi < BPB
  {
    ByteFits(block[bi/8], bi % 8);
    block[bi/8 := if on then OrBit(block[bi/8], bi % 8) else ClearBit(block[bi/8], bi % 8)]
  }

  lemma MarkBits(block: Block, bi: nat, on: bool, x: nat)
    requires bi < BPB && x < BPB
    ensures BitIn(Mark(block, bi, on), x) <==> if x == bi then on else BitIn(block, x)
  {
    if x / 8 == bi / 8 {
      TestOrBit(block[bi/8], bi % 8, x % 8);
      TestClearBit(block[bi/8], bi % 8, x % 8);
    }
  }

  predicate Bit(sb: Super, disk: Disk, b: nat)
    requires sb.Ok() && |disk| == sb.size && b < sb.size
  {
    BBlockRange(sb, b);
    BitIn(disk[BBlock(sb, b)], b % BPB)
  }

  function SetBit(sb: Super, disk: Disk, b: nat, on: bool): (r: Disk)
    requires sb.Ok() && |disk| == sb.size && b < sb.size
    ensures |r| == sb.size
    ensures forall x :: 0 <= x < sb.size && !(sb.bmapstart <= x < sb.nmeta) ==> r[x] == disk[x]
  {
    BBlockRange(sb, b);
    disk[BBlock(sb, b) := Mark(disk[BBlock(sb, b)], b % BPB, on)]
  }

  lemma SetBitBits(sb: Super, disk: Disk, b: nat, on: bool, x: nat)
    requires sb.Ok() && |disk| == sb.size && b < sb.size && x < sb.size
    ensures Bit(sb, SetBit(sb, disk, b, on), x) <==> if x == b then on else Bit(sb, disk, x)
  {
    hide Mark, BitIn;
    BBlockRange(sb, b);
    BBlockRange(sb, x);
    MarkBits(disk[BBlock(sb, b)], b % BPB, on, x % BPB);
    assert x == x / BPB * BPB + x % BPB && b == b / BPB * BPB + b % BPB;
  }

  /** Bit bi of the bitmap block that starts with block b. */
  lemma BitAt(sb: Super, disk: Disk, b: nat, bi: nat)
    requires sb.Ok() && |disk| == sb.size && b % BPB == 0 && bi < BPB && b + bi < sb.size
    ensures BBlock(sb, b + bi) == BBlock(sb, b) < sb.size && Bit(sb, disk, b + bi) == BitIn(disk[BBlock(sb, b)], bi)
    ensures SetBit(sb, disk, b + bi, true) == disk[BBlock(sb, b) := Mark(disk[BBlock(sb, b)], bi, true)]
  {
    hide BitIn, Mark;
    BBlockRange(sb, b);
    assert BBlock(sb, b + bi) == BBlock(sb, b) && (b + bi) % BPB == bi;
  }

  /** The set bits are exactly `used`. */
  ghost predicate BitsAre(sb: Super, disk: Disk, used: set<nat>) {
    && sb.Ok() && |disk| == sb.size
    && forall b :: 0 <= b < sb.size ==> (Bit(sb, disk, b) <==> b in used)
  }

  lemma BitsSet(sb: Super, disk: Disk, used: set<nat>, b: nat, on: bool)
    requires BitsAre(sb, disk, used) && b < sb.size
    ensures BitsAre(sb, SetBit(sb, disk, b, on), if on then used + {b} else used - {b})
  {
    hide Bit, SetBit;
    forall x | 0 <= x < sb.size
      ensures Bit(sb, SetBit(sb, disk, b, on), x) <==> if x == b then on else Bit(sb, disk, x)
    {
      SetBitBits(sb, disk, b, on, x);
    }
  }

  /** Blocks outside the bitmap can change without changing any bit. */
  lemma BitsFrame(sb: Super, disk: Disk, disk': Disk, used: set<nat>)
    requires BitsAre(sb, disk, used) && |disk'| == sb.size
    requires forall x :: sb.bmapstart <= x < sb.nmeta ==> disk'[x] == disk[x]
    ensures BitsAre(sb, disk', used)
  {
    hide BitIn;
    forall x | 0 <= x < sb.size ensures Bit(sb, disk', x) == Bit(sb, disk, x) { BBlockRange(sb, x); }
  }

  // ----- inodes -----

  type short = x: int | 0 <= x < 0x1_0000

  /** struct dinode; the shorts are 16-bit patterns. */
  datatype Dinode = Dinode(typ: short, major: short, minor: short, nlink: short, size: uint, addrs: seq<uint>)

  predicate NodeOk(d: Dinode) { |d.addrs| == NDIRECT + 1 }

  /** The sixteen words of a dinode, in memory order. */
  function NodeWords(d: Dinode): (ws: seq<uint>)
    requires NodeOk(d)
    ensures |ws| == 16
  {
    [d.typ + 0x1_0000 * d.major, d.minor + 0x1_0000 * d.nlink, d.size] + d.addrs
  }

  function WordsAt(b: Block, w: nat, n: nat): (r: seq<uint>)
    requires w + n <= WORDS
    ensures |r| == n && forall k :: 0 <= k < n ==> r[k] == Word(b, w + k)
  {
    if n == 0 then [] else WordsAt(b, w, n - 1) + [Word(b, w + n - 1)]
  }

  function Lo(w: uint): (r: short) { w % 0x1_0000 }
  function Hi(w: uint): (r: short) { w / 0x1_0000 }

  function NodeOf(b: Block, slot: nat): (d: Dinode)
    requires slot < IPB
    ensures NodeOk(d)
  {
    var w := 16 * slot;
    Dinode(Lo(Word(b, w)), Hi(Word(b, w)), Lo(Word(b, w + 1)), Hi(Word(b, w + 1)),
           Word(b, w + 2), WordsAt(b, w + 3, NDIRECT + 1))
  }

  function PutNode(b: Block, slot: nat, d: Dinode): (r: Block)
    requires slot < IPB && NodeOk(d)
  {
    SetWords(b, 16 * slot, NodeWords(d))
  }

  /** iupdate then ilock gives the inode back and leaves the block's other inodes. */
  lemma NodeRoundTrip(b: Block, slot: nat, d: Dinode, other: nat)
    requires slot < IPB && other < IPB && NodeOk(d)
    ensures NodeOf(PutNode(b, slot, d), other) == if other == slot then d else NodeOf(b, other)
  {
    hide Word, SetWords;
    var r := PutNode(b, slot, d);
    var w, ws := 16 * other, NodeWords(d);
    WordSetWords(b, 16 * slot, ws, w);
    WordSetWords(b, 16 * slot, ws, w + 1);
    WordSetWords(b, 16 * slot, ws, w + 2);
    forall k | 0 <= k <= NDIRECT
      ensures NodeOf(r, other).addrs[k] == if other == slot then d.addrs[k] else NodeOf(b, other).addrs[k]
    {
      WordSetWords(b, 16 * slot, ws, w + 3 + k);
    }
    assert NodeOf(r, other).addrs == if other == slot then d.addrs else NodeOf(b, other).addrs;
  }

  function DiskNode(sb: Super, disk: Disk, i: nat): (d: Dinode)
    requires sb.Ok() && |disk| == sb.size && i < sb.ninodes
    ensures NodeOk(d)
  {
    IBlockRange(sb, i);
    NodeOf(disk[IBlock(sb, i)], i % IPB)
  }

  /** The inode table on disk equals the in-memory inodes. */
  ghost predicate WrittenThrough(sb: Super, disk: Disk, inodes: seq<Dinode>) {
    && sb.Ok() && |disk| == sb.size && |inodes| == sb.ninodes
    && forall i :: 0 <= i < sb.ninodes ==> DiskNode(sb, disk, i) == inodes[i]
  }

  function UpdateNode(sb: Super, disk: Disk, i: nat, d: Dinode): (r: Disk)
    requires sb.Ok() && |disk| == sb.size && i < sb.ninodes && NodeOk(d)
    ensures |r| == sb.size
    ensures forall x :: 0 <= x < sb.size && !(sb.inodestart <= x < sb.bmapstart) ==> r[x] == disk[x]
  {
    IBlockRange(sb, i);
    disk[IBlock(sb, i) := PutNode(disk[IBlock(sb, i)], i % IPB, d)]
  }

  lemma UpdateNodeAt(sb: Super, disk: Disk, i: nat, d: Dinode, j: nat)
    requires sb.Ok() && |disk| == sb.size && i < sb.ninodes && j < sb.ninodes && NodeOk(d)
    ensures DiskNode(sb, UpdateNode(sb, disk, i, d), j) == if j == i then d else DiskNode(sb, disk, j)
  {
    hide PutNode, NodeOf;
    IBlockRange(sb, i);
    IBlockRange(sb, j);
    NodeRoundTrip(disk[IBlock(sb, i)], i % IPB, d, j % IPB);
    assert i == i / IPB * IPB + i % IPB && j == j / IPB * IPB + j % IPB;
  }

  lemma NodesFrame(sb: Super, disk: Disk, disk': Disk, i: nat)
    requires sb.Ok() && |disk| == |disk'| == sb.size && i < sb.ninodes
    requires forall x :: sb.inodestart <= x < sb.bmapstart ==> disk'[x] == disk[x]
    ensures DiskNode(sb, disk', i) == DiskNode(sb, disk, i)
  {
    hide NodeOf;
    IBlockRange(sb, i);
  }

  /** From disk d0 to d every changed block was logged, and l0 grew to l. */
  ghost predicate Recorded(d0: Disk, l0: set<nat>, d: Disk, l: set<nat>) {
    |d| == |d0| && l0 <= l && forall b: nat :: b < |d| && d[b] != d0[b] ==> b in l
  }

  lemma RecordedTwice(d0: Disk, l0: set<nat>, d1: Disk, l1: set<nat>, d2: Disk, l2: set<nat>)
    requires Recorded(d0, l0, d1, l1) && Recorded(d1, l1, d2, l2)
    ensures Recorded(d0, l0, d2, l2)
  {
  }

  lemma RecordedSelf(d: Disk, l: set<nat>)
    ensures Recorded(d, l, d, l)
  {
  }
}
