/** A file as a byte sequence, and what one block's worth of writei does to it. */
module FileContent {
  import opened Basics
  import opened Blocks
  import opened FsLayout
  import opened FileMap

  datatype Snap = Snap(disk: Disk, inodes: seq<Dinode>, owner: Owner)

  ghost predicate Good(sb: Super, s: Snap) { Consistent(sb, s.disk, s.inodes, s.owner) }

  /** Disk block holding byte o of inode i; 0 if none is mapped. */
  ghost function BlockAt(sb: Super, s: Snap, i: nat, o: nat): (b: nat)
    requires NodesOk(sb, s.disk, s.inodes) && i < sb.ninodes
  {
    if o / BSIZE < MAXFILE then Slot(s.disk, s.inodes[i], SlotOf(o / BSIZE)) else 0
  }

  ghost predicate HasByte(sb: Super, s: Snap, i: nat, o: nat)
    requires NodesOk(sb, s.disk, s.inodes) && i < sb.ninodes
  {
    0 < BlockAt(sb, s, i, o) < sb.size
  }

  ghost function ByteAt(sb: Super, s: Snap, i: nat, o: nat): (x: byte)
    requires NodesOk(sb, s.disk, s.inodes) && i < sb.ninodes
  {
    if HasByte(sb, s, i, o) then s.disk[BlockAt(sb, s, i, o)][o % BSIZE] else 0
  }

  /** Byte o of a file is in block o / 512 of it, which one of the first twelve entries of
      addrs names, or else a word of the block that the last entry names. */
  lemma ByteLocated(sb: Super, s: Snap, i: nat, o: nat)
    requires NodesOk(sb, s.disk, s.inodes) && i < sb.ninodes && HasByte(sb, s, i, o)
    ensures var a, bn := s.inodes[i].addrs, o / 512;
      && |a| == 13 && bn < 140
      && (bn >= 12 ==> 0 < a[12] < |s.disk|)
      && var b := if bn < 12 then a[bn] else Word(s.disk[a[12]], bn - 12);
      b < |s.disk| && ByteAt(sb, s, i, o) == s.disk[b][o % 512]
  {
    hide Word;
  }

  /** Every byte below the size is in a mapped block. */
  ghost predicate NoHoles(sb: Super, s: Snap, i: nat)
    requires NodesOk(sb, s.disk, s.inodes) && i < sb.ninodes
  {
    s.inodes[i].size <= MAXFILE * BSIZE && forall o :: 0 <= o < s.inodes[i].size ==> HasByte(sb, s, i, o)
  }

  ghost function Bytes(sb: Super, s: Snap, i: nat, n: nat): (c: seq<byte>)
    requires NodesOk(sb, s.disk, s.inodes) && i < sb.ninodes
    ensures |c| == n && forall o :: 0 <= o < n ==> c[o] == ByteAt(sb, s, i, o)
  {
    if n == 0 then [] else Bytes(sb, s, i, n - 1) + [ByteAt(sb, s, i, n - 1)]
  }

  /** The file's contents. */
  ghost function Content(sb: Super, s: Snap, i: nat): (c: seq<byte>)
    requires NodesOk(sb, s.disk, s.inodes) && i < sb.ninodes
  {
    Bytes(sb, s, i, s.inodes[i].size)
  }

  /** Blocks are never shared, so an owned block of inode i is where its slot says. */
  lemma OwnerSlot(sb: Super, s: Snap, b: nat)
    requires Good(sb, s) && b in s.owner
    ensures sb.nmeta <= b < sb.size && s.owner[b].0 < sb.ninodes && s.owner[b].1 < NSLOTS
    ensures Slot(s.disk, s.inodes[s.owner[b].0], s.owner[b].1) == b
  {
    assert OwnedBy(sb, s.disk, s.inodes, s.owner, b);
  }

  /** The blocks of every inode but i are as in s0. */
  ghost predicate OthersKept(sb: Super, s0: Snap, s: Snap, i: nat) {
    && |s0.disk| == |s.disk| == sb.size && |s0.inodes| == |s.inodes| == sb.ninodes
    && (forall j :: 0 <= j < sb.ninodes && j != i ==> s.inodes[j] == s0.inodes[j])
    && (forall b :: b in s0.owner && s0.owner[b].0 != i ==>
          b in s.owner && s.owner[b] == s0.owner[b] && b < sb.size && s.disk[b] == s0.disk[b])
  }

  lemma WithoutOthers(sb: Super, s0: Snap, s: Snap, i: nat)
    requires Good(sb, s0) && |s.disk| == sb.size && |s.inodes| == sb.ninodes && s.owner == Without(s0.owner, i)
    requires forall j :: 0 <= j < sb.ninodes && j != i ==> s.inodes[j] == s0.inodes[j]
    requires forall x :: sb.nmeta <= x < sb.size ==> s.disk[x] == s0.disk[x]
    ensures OthersKept(sb, s0, s, i)
  {
    forall b | b in s0.owner && s0.owner[b].0 != i ensures b in s.owner && b < sb.size && s.disk[b] == s0.disk[b] {
      OwnerSlot(sb, s0, b);
    }
  }

  /** Then every other file reads the same. */
  lemma OtherContent(sb: Super, s0: Snap, s: Snap, i: nat, j: nat)
    requires Good(sb, s0) && Good(sb, s) && OthersKept(sb, s0, s, i) && j != i && j < sb.ninodes && NoHoles(sb, s0, j)
    ensures NoHoles(sb, s, j) && Content(sb, s, j) == Content(sb, s0, j)
  {
    hide BitsAre, SlotOwns, OwnedBy, Slot;
    forall o | 0 <= o < s0.inodes[j].size
      ensures HasByte(sb, s, j, o) && ByteAt(sb, s, j, o) == ByteAt(sb, s0, j, o)
    {
      OtherByte(sb, s0, s, i, j, o);
    }
  }

  lemma OtherByte(sb: Super, s0: Snap, s: Snap, i: nat, j: nat, o: nat)
    requires Good(sb, s0) && Good(sb, s) && OthersKept(sb, s0, s, i) && j != i && j < sb.ninodes && HasByte(sb, s0, j, o)
    ensures HasByte(sb, s, j, o) && ByteAt(sb, s, j, o) == ByteAt(sb, s0, j, o)
  {
    hide Word, BitsAre, SlotOwns, OwnedBy;
    SlotOwned(sb, s0.disk, s0.inodes, s0.owner, j, SlotOf(o / BSIZE));
    OwnerSlot(sb, s, BlockAt(sb, s0, j, o));
  }

  /** Growing an inode keeps every byte it already had. */
  lemma GrownByte(sb: Super, s0: Snap, s: Snap, i: nat, o: nat)
    requires Good(sb, s0) && Good(sb, s) && i < sb.ninodes && HasByte(sb, s0, i, o)
    requires Grown(sb, s0.disk, s0.inodes, s0.owner, s.disk, s.inodes, s.owner, i)
    ensures HasByte(sb, s, i, o) && ByteAt(sb, s, i, o) == ByteAt(sb, s0, i, o)
    ensures BlockAt(sb, s, i, o) == BlockAt(sb, s0, i, o)
  {
    hide Word, BitsAre, SlotOwns, OwnedBy;
    SlotOwned(sb, s0.disk, s0.inodes, s0.owner, i, SlotOf(o / BSIZE));
    OwnerSlot(sb, s, BlockAt(sb, s0, i, o));
  }

  /** memmove(bp->data + pos, part, |part|) */
  function Patch(b: Block, pos: nat, part: seq<byte>): (r: Block)
    requires pos + |part| <= BSIZE
  {
    b[..pos] + part + b[pos + |part|..]
  }

  lemma PatchAt(b: Block, pos: nat, part: seq<byte>, x: nat)
    requires pos + |part| <= BSIZE && x < BSIZE
    ensures Patch(b, pos, part)[x] == if pos <= x < pos + |part| then part[x-pos] else b[x]
  {
  }

  function PutBlock(s: Snap, b: nat, data: Block): (r: Snap)
    requires b < |s.disk|
  {
    s.(disk := s.disk[b := data])
  }

  /** Changing a data block of inode i keeps the block map and all other blocks. */
  lemma PutGood(sb: Super, s: Snap, i: nat, bn: nat, b: nat, data: Block)
    requires Good(sb, s) && bn < MAXFILE && b in s.owner && s.owner[b] == (i, SlotOf(bn))
    ensures b < sb.size && Good(sb, PutBlock(s, b, data))
  {
    hide Word, Bit, SlotOwns;
    OwnerSlot(sb, s, b);
    var s' := PutBlock(s, b, data);
    forall x | x in s.owner ensures x < sb.size { OwnerSlot(sb, s, x); }
    SlotsFrame(sb, s.disk, s'.disk, s.inodes, s.owner);
    BitsFrame(sb, s.disk, s'.disk, Used(sb, s.owner));
  }

  /** Byte o after block bn of inode i was patched. */
  lemma PutByte(sb: Super, s: Snap, i: nat, bn: nat, b: nat, pos: nat, part: seq<byte>, o: nat)
    requires Good(sb, s) && bn < MAXFILE && b in s.owner && s.owner[b] == (i, SlotOf(bn)) && i < sb.ninodes
    requires pos + |part| <= BSIZE && b < sb.size
    requires Good(sb, PutBlock(s, b, Patch(s.disk[b], pos, part)))
    requires HasByte(sb, s, i, o) || o / BSIZE == bn
    ensures var s' := PutBlock(s, b, Patch(s.disk[b], pos, part));
      && HasByte(sb, s', i, o)
      && ByteAt(sb, s', i, o) == if bn * BSIZE + pos <= o < bn * BSIZE + pos + |part| then part[o - bn * BSIZE - pos]
                                 else ByteAt(sb, s, i, o)
  {
    hide Word, BitsAre, SlotOwns, OwnedBy, Patch;
    var s' := PutBlock(s, b, Patch(s.disk[b], pos, part));
    OwnerSlot(sb, s, b);
    OwnerSlot(sb, s', b);
    PatchAt(s.disk[b], pos, part, o % BSIZE);
    if o / BSIZE != bn {
      SlotOwned(sb, s.disk, s.inodes, s.owner, i, SlotOf(o / BSIZE));
      OwnerSlot(sb, s', BlockAt(sb, s, i, o));
    }
  }

  // ----- writei -----

  /** Byte o of inode i after the bytes src[..tot] were written at off. */
  ghost predicate Written(sb: Super, s0: Snap, s: Snap, i: nat, off: nat, src: seq<byte>, tot: nat, o: nat)
    requires NodesOk(sb, s0.disk, s0.inodes) && NodesOk(sb, s.disk, s.inodes) && i < sb.ninodes && tot <= |src|
  {
    HasByte(sb, s, i, o) && ByteAt(sb, s, i, o) == if off <= o < off + tot then src[o-off] else ByteAt(sb, s0, i, o)
  }

  /** The loop of writei has written src[..tot] at off; s0 is the state before. */
  ghost predicate Writing(sb: Super, s0: Snap, s: Snap, i: nat, off: nat, src: seq<byte>, tot: nat) {
    && Good(sb, s0) && Good(sb, s) && i < sb.ninodes && NoHoles(sb, s0, i)
    && OthersKept(sb, s0, s, i) && s.inodes[i] == s0.inodes[i].(addrs := s.inodes[i].addrs)
    && (forall x :: sb.inodestart <= x < sb.bmapstart ==> s.disk[x] == s0.disk[x])
    && tot <= |src| && off <= s0.inodes[i].size && off + |src| <= MAXFILE * BSIZE
    && (forall o :: 0 <= o < Max(s0.inodes[i].size, off + tot) ==> Written(sb, s0, s, i, off, src, tot, o))
    && (s.inodes != s0.inodes ==> off + tot > s0.inodes[i].size)
  }

  lemma GrownOthers(sb: Super, s0: Snap, s: Snap, s': Snap, i: nat)
    requires OthersKept(sb, s0, s, i) && Grown(sb, s.disk, s.inodes, s.owner, s'.disk, s'.inodes, s'.owner, i)
    ensures OthersKept(sb, s0, s', i)
  {
  }

  lemma PutOthers(sb: Super, s0: Snap, s: Snap, i: nat, b: nat, data: Block)
    requires OthersKept(sb, s0, s, i) && b < sb.size && b in s.owner && s.owner[b].0 == i
    ensures OthersKept(sb, s0, PutBlock(s, b, data), i)
  {
  }

  /** What one iteration of writei relies on: bmap gave block b (state s1) for the byte at
      off + tot, and m bytes up to the end of that block remain to be copied. */
  ghost predicate Iterating(sb: Super, s0: Snap, s: Snap, s1: Snap, i: nat, off: nat, src: seq<byte>, tot: nat, m: nat, b: nat) {
    && Writing(sb, s0, s, i, off, src, tot) && 0 < m && tot + m <= |src| && (off + tot) % BSIZE + m <= BSIZE
    && Good(sb, s1) && Grown(sb, s.disk, s.inodes, s.owner, s1.disk, s1.inodes, s1.owner, i)
    && b in s1.owner && b < sb.size && s1.owner[b] == (i, SlotOf((off + tot) / BSIZE))
    && (HasByte(sb, s, i, off + tot) ==> s1 == s)
  }

  /** Block b with part copied to where byte `at` of the file falls in it. */
  function Copied(s1: Snap, b: nat, at: nat, part: seq<byte>): (r: Snap) {
    if b < |s1.disk| && at % BSIZE + |part| <= BSIZE then PutBlock(s1, b, Patch(s1.disk[b], at % BSIZE, part)) else s1
  }

  lemma WrittenStep(sb: Super, s0: Snap, s: Snap, s1: Snap, s2: Snap,
                    i: nat, off: nat, src: seq<byte>, tot: nat, m: nat, b: nat, o: nat)
    requires tot + m <= |src| && s2 == Copied(s1, b, off + tot, src[tot..tot+m])
    requires Iterating(sb, s0, s, s1, i, off, src, tot, m, b) && Good(sb, s2)
    requires o < Max(s0.inodes[i].size, off + tot + m)
    ensures Written(sb, s0, s2, i, off, src, tot + m, o)
  {
    hide Slot, Patch, Grown, BlockAt, SlotOf, BitsAre, SlotOwns, OwnedBy;
    var at := off + tot;
    assert at == at / BSIZE * BSIZE + at % BSIZE;
    if o < Max(s0.inodes[i].size, off + tot) {
      assert Written(sb, s0, s, i, off, src, tot, o);
      GrownByte(sb, s, s1, i, o);
    }
    PutByte(sb, s1, i, at / BSIZE, b, at % BSIZE, src[tot..tot+m], o);
  }

  lemma WritingParts(sb: Super, s0: Snap, s: Snap, i: nat, off: nat, src: seq<byte>, tot: nat)
    requires Writing(sb, s0, s, i, off, src, tot)
    ensures Good(sb, s) && i < sb.ninodes && off + |src| <= MAXFILE * BSIZE
  {
  }

  lemma WriteStep(sb: Super, s0: Snap, s: Snap, s1: Snap, s2: Snap,
                  i: nat, off: nat, src: seq<byte>, tot: nat, m: nat, b: nat)
    requires tot + m <= |src| && s2 == Copied(s1, b, off + tot, src[tot..tot+m])
    requires Iterating(sb, s0, s, s1, i, off, src, tot, m, b)
    ensures Writing(sb, s0, s2, i, off, src, tot + m)
  {
    hide Slot, Patch, BlockAt, SlotOf, BitsAre, SlotOwns, OwnedBy, HasByte, ByteAt;
    var at := off + tot;
    assert at / BSIZE < MAXFILE;
    PutGood(sb, s1, i, at / BSIZE, b, s2.disk[b]);
    GrownOthers(sb, s0, s, s1, i);
    PutOthers(sb, s0, s1, i, b, s2.disk[b]);
    var hi, tot' := Max(s0.inodes[i].size, at + m), tot + m;
    forall o | 0 <= o < hi ensures Written(sb, s0, s2, i, off, src, tot', o) {
      WrittenStep(sb, s0, s, s1, s2, i, off, src, tot, m, b, o);
    }
    StepGrows(sb, s0, s, s1, i, off, src, tot, m, b);
    OwnerSlot(sb, s1, b);
  }

  /** A block is allocated only when the write reaches past the end of the file. */
  lemma StepGrows(sb: Super, s0: Snap, s: Snap, s1: Snap, i: nat, off: nat, src: seq<byte>, tot: nat, m: nat, b: nat)
    requires Iterating(sb, s0, s, s1, i, off, src, tot, m, b)
    ensures s1.inodes != s0.inodes ==> off + tot + m > s0.inodes[i].size
  {
    hide Slot, Patch, BlockAt, SlotOf, BitsAre, SlotOwns, OwnedBy, HasByte, ByteAt, Grown;
    if off + tot < s0.inodes[i].size {
      assert Written(sb, s0, s, i, off, src, tot, off + tot);
    }
  }

  /** Overwrite-or-extend at off. */
  function Splice(c: seq<byte>, off: nat, src: seq<byte>): (r: seq<byte>)
    requires off <= |c|
  {
    c[..off] + src + if off + |src| < |c| then c[off + |src|..] else []
  }

  /** The size after writei, with the loop's state otherwise. */
  function Sized(s: Snap, i: nat, size: uint): (r: Snap)
    requires i < |s.inodes|
  {
    s.(inodes := s.inodes[i := s.inodes[i].(size := size)])
  }

  lemma WriteDone(sb: Super, s0: Snap, s: Snap, i: nat, off: nat, src: seq<byte>)
    requires Writing(sb, s0, s, i, off, src, |src|)
    ensures off <= |Content(sb, s0, i)|
    ensures var s' := Sized(s, i, Max(s0.inodes[i].size, off + |src|));
      && Good(sb, s') && NoHoles(sb, s', i)
      && Content(sb, s', i) == Splice(Content(sb, s0, i), off, src)
      && OthersKept(sb, s0, s', i)
  {
    hide Slot, BitsAre, SlotOwns, OwnedBy, HasByte, ByteAt;
    var n := Max(s0.inodes[i].size, off + |src|);
    var s' := Sized(s, i, n);
    SizedGood(sb, s, i, n);
    forall o | 0 <= o < n
      ensures HasByte(sb, s', i, o) && ByteAt(sb, s', i, o) == Splice(Content(sb, s0, i), off, src)[o]
    {
      assert Written(sb, s0, s, i, off, src, |src|, o);
      SizedByte(sb, s, i, n, o);
    }
  }

  lemma SizedByte(sb: Super, s: Snap, i: nat, size: uint, o: nat)
    requires Good(sb, s) && i < sb.ninodes && Good(sb, Sized(s, i, size))
    ensures HasByte(sb, Sized(s, i, size), i, o) == HasByte(sb, s, i, o)
    ensures ByteAt(sb, Sized(s, i, size), i, o) == ByteAt(sb, s, i, o)
  {
    hide BitsAre, SlotOwns, OwnedBy, Word;
  }

  lemma SizedGood(sb: Super, s: Snap, i: nat, size: uint)
    requires Good(sb, s) && i < sb.ninodes
    ensures Good(sb, Sized(s, i, size))
  {
    hide BitsAre, Word;
    var s' := Sized(s, i, size);
    forall j, k | 0 <= j < sb.ninodes && 0 <= k < NSLOTS
      ensures Slot(s'.disk, s'.inodes[j], k) == Slot(s.disk, s.inodes[j], k) && SlotOwns(sb, s'.disk, s'.inodes, s'.owner, j, k)
    {
      assert SlotOwns(sb, s.disk, s.inodes, s.owner, j, k);
    }
    forall b | b in s'.owner ensures OwnedBy(sb, s'.disk, s'.inodes, s'.owner, b) {
      assert OwnedBy(sb, s.disk, s.inodes, s.owner, b);
    }
  }

  // ----- blocks logged -----

  /** File blocks spanned by tot bytes at off. */
  function Touched(off: nat, tot: nat): (n: nat) {
    if tot == 0 then 0 else (off + tot - 1) / BSIZE - off / BSIZE + 1
  }

  /** How many of them can be new: not the first, if the write starts inside a block. */
  function Fresh(off: nat, tot: nat): (n: nat) {
    if tot == 0 then 0 else Touched(off, tot) - if off % BSIZE == 0 then 0 else 1
  }

  /** Data, bitmap, indirect and inode blocks one writei can log. */
  function LogBound(off: nat, n: nat): (r: nat) { Touched(off, n) + Fresh(off, n) + 1 + 1 + 1 }

  /** Bytes filewrite hands to one transaction. */
  const CHUNK: nat := ((MAXOPBLOCKS - 1 - 1 - 2) / 2) * BSIZE

  /** With one block more the bound exceeds MAXOPBLOCKS: the chunk is as large as it can be. */
  lemma ChunkLargest()
    ensures LogBound(1, CHUNK + BSIZE) > MAXOPBLOCKS
  {
  }

  /** A chunk never logs more than MAXOPBLOCKS blocks, whatever its offset. */
  lemma ChunkFits(off: nat, n: nat)
    requires n <= CHUNK
    ensures LogBound(off, n) <= MAXOPBLOCKS
  {
  }

  /** The blocks logged so far are among the data blocks, bitmap blocks and the indirect
      block, and there are few enough of them. */
  ghost predicate Charged(s0: Snap, s: Snap, i: nat, off: nat, tot: nat,
                          logged0: set<nat>, logged: set<nat>, data: set<nat>, bms: set<nat>)
  {
    && i < |s0.inodes| && i < |s.inodes| && NodeOk(s0.inodes[i]) && NodeOk(s.inodes[i])
    && logged <= logged0 + data + bms + {s.inodes[i].addrs[NDIRECT] as nat}
    && (s.inodes[i].addrs[NDIRECT] == 0 ==> logged <= logged0 + data + bms)
    && (s0.inodes[i].addrs[NDIRECT] != 0 ==> s.inodes[i].addrs[NDIRECT] == s0.inodes[i].addrs[NDIRECT])
    && |data| <= Touched(off, tot)
    && |bms| <= Fresh(off, tot) + if s0.inodes[i].addrs[NDIRECT] == 0 && s.inodes[i].addrs[NDIRECT] != 0 then 1 else 0
  }

  lemma ChargedNone(sb: Super, s: Snap, i: nat, off: nat, logged: set<nat>)
    requires Good(sb, s) && i < sb.ninodes
    ensures Charged(s, s, i, off, 0, logged, logged, {}, {})
  {
  }

  /** b is now block bn of inode i: nothing changed if it was mapped before; otherwise b
      is a zeroed block nobody owned, and the blocks logged are bitmap blocks, b, and for
      an indirect entry the indirect block. */
  ghost predicate Mapped(sb: Super, s0: Snap, logged0: set<nat>, s: Snap, logged: set<nat>, i: nat, bn: nat, b: nat, bm: set<nat>) {
    && i < sb.ninodes && bn < MAXFILE && b < sb.size
    && NodesOk(sb, s0.disk, s0.inodes) && Good(sb, s)
    && Grown(sb, s0.disk, s0.inodes, s0.owner, s.disk, s.inodes, s.owner, i)
    && b in s.owner && s.owner[b] == (i, SlotOf(bn))
    && var a0, a := s0.inodes[i].addrs[NDIRECT], s.inodes[i].addrs[NDIRECT];
    && (bn >= NDIRECT ==> a != 0) && (a0 != 0 || bn < NDIRECT ==> a == a0)
    && if Slot(s0.disk, s0.inodes[i], SlotOf(bn)) != 0 then s == s0 && logged == logged0 && bm == {}
       else
         && s.disk[b] == ZERO && b !in s0.owner
         && |bm| <= (if bn >= NDIRECT && a0 == 0 then 2 else 1)
         && logged == logged0 + bm + {b} + (if bn < NDIRECT then {} else {a as nat})
  }

  /** Where bmap's block is recorded: in addrs, or in the indirect block that addrs ends with. */
  lemma MappedAddr(sb: Super, s0: Snap, l0: set<nat>, s: Snap, l: set<nat>, i: nat, bn: nat, b: nat, bm: set<nat>)
    requires Mapped(sb, s0, l0, s, l, i, bn, b, bm)
    ensures var a := s.inodes[i].addrs;
      |a| == 13 && a[12] < |s.disk| && b == if bn < 12 then a[bn] else Word(s.disk[a[12]], bn - 12)
  {
    hide Word, SlotOwns, Grown, BitsAre;
    assert OwnedBy(sb, s.disk, s.inodes, s.owner, b);
  }

  /** a is the indirect block of inode i, allocated on the way if it was missing. */
  ghost predicate Loaded(sb: Super, s0: Snap, l0: set<nat>, s: Snap, l: set<nat>, i: nat, a: nat, bm: set<nat>) {
    && NodesOk(sb, s0.disk, s0.inodes) && Good(sb, s) && i < sb.ninodes
    && Grown(sb, s0.disk, s0.inodes, s0.owner, s.disk, s.inodes, s.owner, i)
    && a == s.inodes[i].addrs[NDIRECT] != 0
    && (forall k :: NDIRECT < k < NSLOTS ==> Slot(s.disk, s.inodes[i], k) == Slot(s0.disk, s0.inodes[i], k))
    && if s0.inodes[i].addrs[NDIRECT] != 0 then bm == {} && s == s0 && l == l0
       else |bm| == 1 && l == l0 + bm + {a}
  }

  lemma NoEntries(sb: Super, s: Snap, i: nat, bn: nat)
    requires Good(sb, s) && i < sb.ninodes && NDIRECT <= bn < MAXFILE && s.inodes[i].addrs[NDIRECT] == 0
    ensures Slot(s.disk, s.inodes[i], SlotOf(bn)) == 0
  {
  }

  lemma LoadedEntry(sb: Super, s0: Snap, l0: set<nat>, s: Snap, l: set<nat>, i: nat, bn: nat, a: nat, bm: set<nat>)
    requires Loaded(sb, s0, l0, s, l, i, a, bm) && NDIRECT <= bn < MAXFILE
    ensures Good(sb, s) && i < sb.ninodes && a == s.inodes[i].addrs[NDIRECT] != 0 && a < |s.disk| == sb.size
    ensures NodesOk(sb, s0.disk, s0.inodes)
    ensures Word(s.disk[a], bn - NDIRECT) == Slot(s.disk, s.inodes[i], SlotOf(bn)) == Slot(s0.disk, s0.inodes[i], SlotOf(bn))
  {
    hide Word, Grown, BitsAre, SlotOwns, OwnedBy;
  }

  lemma MappedLoaded(sb: Super, s0: Snap, l0: set<nat>, s: Snap, l: set<nat>, i: nat, bn: nat, a: nat, bm: set<nat>, b: nat)
    requires Loaded(sb, s0, l0, s, l, i, a, bm) && NDIRECT <= bn < MAXFILE
    requires b == Slot(s.disk, s.inodes[i], SlotOf(bn)) != 0
    ensures Mapped(sb, s0, l0, s, l, i, bn, b, bm)
  {
    hide Word, Grown, BitsAre, SlotOwns, OwnedBy;
    LoadedEntry(sb, s0, l0, s, l, i, bn, a, bm);
    SlotOwned(sb, s.disk, s.inodes, s.owner, i, SlotOf(bn));
    if s0.inodes[i].addrs[NDIRECT] == 0 { NoEntries(sb, s0, i, bn); }
  }

  lemma MappedEntered(sb: Super, s0: Snap, l0: set<nat>, s1: Snap, l1: set<nat>, s: Snap, l: set<nat>,
                      i: nat, bn: nat, a: nat, bm: set<nat>, b: nat)
    requires Good(sb, s0) && Loaded(sb, s0, l0, s1, l1, i, a, bm) && NDIRECT <= bn < MAXFILE
    requires Slot(s1.disk, s1.inodes[i], SlotOf(bn)) == 0 && Good(sb, s) && s.inodes == s1.inodes
    requires Grown(sb, s1.disk, s1.inodes, s1.owner, s.disk, s.inodes, s.owner, i)
    requires b !in s1.owner && sb.nmeta <= b < sb.size && s.disk[b] == ZERO
    requires s.owner == s1.owner[b := (i, SlotOf(bn))]
    requires l == l1 + {BBlock(sb, b), b, a}
    ensures Mapped(sb, s0, l0, s, l, i, bn, b, bm + {BBlock(sb, b)})
  {
    hide Word, Slot, Grown, BitsAre, SlotOwns, OwnedBy, BBlock, ZERO;
    LoadedEntry(sb, s0, l0, s1, l1, i, bn, a, bm);
    GrownTwice(sb, s0.disk, s0.inodes, s0.owner, s1.disk, s1.inodes, s1.owner, s.disk, s.inodes, s.owner, i);
    GrownOwner(sb, s0.disk, s0.inodes, s0.owner, s1.disk, s1.inodes, s1.owner, i);
  }

  lemma MappedIterates(sb: Super, s0: Snap, s: Snap, l: set<nat>, s1: Snap, l1: set<nat>,
                       i: nat, off: nat, src: seq<byte>, tot: nat, m: nat, b: nat, bm: set<nat>)
    requires Writing(sb, s0, s, i, off, src, tot) && 0 < m && tot + m <= |src| && (off + tot) % BSIZE + m <= BSIZE
    requires Mapped(sb, s, l, s1, l1, i, (off + tot) / BSIZE, b, bm)
    ensures Iterating(sb, s0, s, s1, i, off, src, tot, m, b)
  {
    hide Slot, BitsAre, SlotOwns, OwnedBy, Grown;
  }

  lemma TouchedStep(off: nat, tot: nat, m: nat)
    requires 0 < m && (off + tot) % BSIZE + m <= BSIZE && (tot == 0 || (off + tot) % BSIZE == 0)
    ensures Touched(off, tot + m) == Touched(off, tot) + 1
    ensures Fresh(off, tot + m) == Fresh(off, tot) + if tot == 0 && off % BSIZE != 0 then 0 else 1
  {
    assert (off + tot + m - 1) / BSIZE == (off + tot) / BSIZE;
    if tot > 0 { assert (off + tot - 1) / BSIZE == (off + tot) / BSIZE - 1; }
  }

  /** A write that starts inside a block starts in a block the file already has. */
  lemma FirstMapped(sb: Super, s0: Snap, s: Snap, i: nat, off: nat, src: seq<byte>)
    requires Writing(sb, s0, s, i, off, src, 0) && off % BSIZE != 0 && off / BSIZE < MAXFILE
    ensures Slot(s.disk, s.inodes[i], SlotOf(off / BSIZE)) != 0
  {
    hide Slot, BitsAre, SlotOwns, OwnedBy, Grown, OthersKept;
    var o := off - off % BSIZE;
    assert o / BSIZE == off / BSIZE;
    assert Written(sb, s0, s, i, off, src, 0, o);
  }

  lemma ChargeStep(sb: Super, s0: Snap, s: Snap, l: set<nat>, s1: Snap, l1: set<nat>,
                   i: nat, off: nat, src: seq<byte>, tot: nat, m: nat, b: nat, bm: set<nat>,
                   l0: set<nat>, data: set<nat>, bms: set<nat>)
    requires Writing(sb, s0, s, i, off, src, tot) && Charged(s0, s, i, off, tot, l0, l, data, bms)
    requires Mapped(sb, s, l, s1, l1, i, (off + tot) / BSIZE, b, bm)
    requires 0 < m && (off + tot) % BSIZE + m <= BSIZE && (tot == 0 || (off + tot) % BSIZE == 0)
    ensures Charged(s0, s1, i, off, tot + m, l0, l1 + {b}, data + {b}, bms + bm)
  {
    hide Slot, BitsAre, SlotOwns, OwnedBy, Grown, Writing, Touched, Fresh;
    TouchedStep(off, tot, m);
    if tot == 0 && off % BSIZE != 0 { FirstMapped(sb, s0, s, i, off, src); }
    assert |data + {b}| <= |data| + 1;
    assert |bms + bm| <= |bms| + |bm|;
  }

  lemma IteratingBlock(sb: Super, s0: Snap, s: Snap, s1: Snap, i: nat, off: nat, src: seq<byte>, tot: nat, m: nat, b: nat)
    requires Iterating(sb, s0, s, s1, i, off, src, tot, m, b)
    ensures b < sb.size && |s1.disk| == sb.size
  {
  }

  lemma SameNodesCharged(s0: Snap, s: Snap, s': Snap, i: nat, off: nat, tot: nat,
                         logged0: set<nat>, logged: set<nat>, data: set<nat>, bms: set<nat>)
    requires Charged(s0, s, i, off, tot, logged0, logged, data, bms) && s'.inodes == s.inodes
    ensures Charged(s0, s', i, off, tot, logged0, logged, data, bms)
  {
  }

  // ----- the end of writei -----

  /** Writing blocks of the metadata area changes no file. */
  lemma MetaByte(sb: Super, s: Snap, s': Snap, i: nat, o: nat)
    requires Good(sb, s) && Good(sb, s') && s'.inodes == s.inodes && i < sb.ninodes
    requires forall x :: sb.nmeta <= x < sb.size ==> s'.disk[x] == s.disk[x]
    ensures HasByte(sb, s', i, o) == HasByte(sb, s, i, o) && ByteAt(sb, s', i, o) == ByteAt(sb, s, i, o)
  {
    hide BitsAre, SlotOwns, OwnedBy, Word;
    var k := SlotOf(o / BSIZE);
    if s.inodes[i].addrs[NDIRECT] != 0 { IndirectOwned(sb, s.disk, s.inodes, s.owner, i); }
    if o / BSIZE < MAXFILE && Slot(s.disk, s.inodes[i], k) != 0 { SlotOwned(sb, s.disk, s.inodes, s.owner, i, k); }
  }

  lemma MetaContent(sb: Super, s: Snap, s': Snap, i: nat)
    requires Good(sb, s) && Good(sb, s') && s'.inodes == s.inodes && i < sb.ninodes
    requires forall x :: sb.nmeta <= x < sb.size ==> s'.disk[x] == s.disk[x]
    ensures NoHoles(sb, s', i) == NoHoles(sb, s, i) && Content(sb, s', i) == Content(sb, s, i)
  {
    hide BitsAre, SlotOwns, OwnedBy, HasByte, ByteAt;
    forall o: nat | o < s.inodes[i].size
      ensures HasByte(sb, s', i, o) == HasByte(sb, s, i, o) && ByteAt(sb, s', i, o) == ByteAt(sb, s, i, o)
    {
      MetaByte(sb, s, s', i, o);
    }
  }

  /** What writei(src, off) leaves: overwritten or extended contents without holes, every
      other inode's blocks as they were, and the inode on disk equal to the one in memory. */
  ghost predicate AfterWrite(sb: Super, s0: Snap, s: Snap, i: nat, off: nat, src: seq<byte>) {
    && Good(sb, s0) && Good(sb, s) && i < sb.ninodes && off <= s0.inodes[i].size
    && NoHoles(sb, s, i) && Content(sb, s, i) == Splice(Content(sb, s0, i), off, src)
    && OthersKept(sb, s0, s, i) && WrittenThrough(sb, s.disk, s.inodes)
    && s.inodes[i] == s0.inodes[i].(size := s.inodes[i].size, addrs := s.inodes[i].addrs)
  }

  lemma FinishShort(sb: Super, s0: Snap, s: Snap, i: nat, off: nat, src: seq<byte>)
    requires Writing(sb, s0, s, i, off, src, |src|) && WrittenThrough(sb, s0.disk, s0.inodes)
    requires off + |src| <= s0.inodes[i].size
    ensures AfterWrite(sb, s0, s, i, off, src)
  {
    hide BitsAre, SlotOwns, OwnedBy, HasByte, ByteAt, NodeOf, Written;
    WriteDone(sb, s0, s, i, off, src);
    assert Sized(s, i, s0.inodes[i].size) == s by {
      assert s.inodes[i := s.inodes[i]] == s.inodes;
    }
    forall j | 0 <= j < sb.ninodes ensures DiskNode(sb, s.disk, j) == s.inodes[j] { NodesFrame(sb, s0.disk, s.disk, j); }
  }

  lemma FinishLong(sb: Super, s0: Snap, s: Snap, s': Snap, s'': Snap, i: nat, off: nat, src: seq<byte>)
    requires Writing(sb, s0, s, i, off, src, |src|) && WrittenThrough(sb, s0.disk, s0.inodes)
    requires off + |src| > s0.inodes[i].size && s' == Sized(s, i, off + |src|) && Good(sb, s')
    requires s'' == s'.(disk := UpdateNode(sb, s'.disk, i, s'.inodes[i])) && Good(sb, s'')
    ensures AfterWrite(sb, s0, s'', i, off, src)
  {
    hide BitsAre, SlotOwns, OwnedBy, HasByte, ByteAt, NodeOf, Written, PutNode;
    WriteDone(sb, s0, s, i, off, src);
    MetaContent(sb, s', s'', i);
    forall j | 0 <= j < sb.ninodes ensures DiskNode(sb, s''.disk, j) == s''.inodes[j] {
      NodesFrame(sb, s0.disk, s.disk, j);
      UpdateNodeAt(sb, s'.disk, i, s'.inodes[i], j);
    }
    forall b | b in s''.owner ensures sb.nmeta <= b < sb.size { OwnerSlot(sb, s'', b); }
  }

  lemma StartWriting(sb: Super, s: Snap, i: nat, off: nat, src: seq<byte>)
    requires Good(sb, s) && i < sb.ninodes && NoHoles(sb, s, i)
    requires off <= s.inodes[i].size && off + |src| <= MAXFILE * BSIZE
    ensures Writing(sb, s, s, i, off, src, 0)
  {
    hide BitsAre, SlotOwns, HasByte, ByteAt;
    forall b | b in s.owner ensures b < sb.size { OwnerSlot(sb, s, b); }
  }

  lemma LoggedFew(l0: set<nat>, l: set<nat>, l': set<nat>, data: set<nat>, bms: set<nat>, a: nat, ib: nat, off: nat, n: nat)
    requires l <= l0 + data + bms + {a} && l' <= l + {ib}
    requires |data| <= Touched(off, n) && |bms| <= Fresh(off, n) + 1
    ensures |l' - l0| <= LogBound(off, n)
  {
    hide Touched, Fresh;
    var all := data + bms + {a} + {ib};
    assert l' - l0 <= all;
    Subset(l' - l0, all);
    assert |all| <= |data| + |bms| + 1 + 1;
  }

  // ----- filewrite -----

  lemma SpliceSplice(c: seq<byte>, off: nat, a: seq<byte>, b: seq<byte>)
    requires off <= |c|
    ensures off + |a| <= |Splice(c, off, a)|
    ensures Splice(Splice(c, off, a), off + |a|, b) == Splice(c, off, a + b)
  {
  }

  /** k bytes of src have been written by whole writei calls. */
  ghost predicate Progress(sb: Super, s0: Snap, s: Snap, i: nat, off: nat, src: seq<byte>, k: nat) {
    && Good(sb, s0) && Good(sb, s) && i < sb.ninodes && k <= |src|
    && NoHoles(sb, s, i) && WrittenThrough(sb, s.disk, s.inodes) && OthersKept(sb, s0, s, i)
    && s.inodes[i] == s0.inodes[i].(size := s.inodes[i].size, addrs := s.inodes[i].addrs)
    && if off <= s0.inodes[i].size then Content(sb, s, i) == Splice(Content(sb, s0, i), off, src[..k]) else k == 0 && s == s0
  }

  lemma OthersTwice(sb: Super, s0: Snap, s: Snap, s': Snap, i: nat)
    requires OthersKept(sb, s0, s, i) && OthersKept(sb, s, s', i)
    ensures OthersKept(sb, s0, s', i)
  {
  }

  lemma ProgressStep(sb: Super, s0: Snap, s: Snap, s': Snap, i: nat, off: nat, src: seq<byte>, k: nat, m: nat)
    requires k + m <= |src| && Progress(sb, s0, s, i, off, src, k)
    requires AfterWrite(sb, s, s', i, off + k, src[k..k+m])
    ensures Progress(sb, s0, s', i, off, src, k + m)
  {
    hide BitsAre, SlotOwns, OwnedBy, NoHoles, WrittenThrough, OthersKept, Splice, ByteAt;
    OthersTwice(sb, s0, s, s', i);
    assert src[..k] + src[k..k+m] == src[..k+m];
    if off <= s0.inodes[i].size { SpliceSplice(Content(sb, s0, i), off, src[..k], src[k..k+m]); }
  }

  // ----- readi -----

  lemma MappedBlock(sb: Super, s0: Snap, s: Snap, i: nat, bn: nat, b: nat)
    requires Good(sb, s0) && s == s0 && i < sb.ninodes && bn < MAXFILE && b in s.owner && s.owner[b] == (i, SlotOf(bn))
    ensures b < sb.size && b == Slot(s.disk, s.inodes[i], SlotOf(bn))
  {
    OwnerSlot(sb, s, b);
  }

  /** Within one block, file bytes are consecutive bytes of the block. */
  lemma BlockSlice(sb: Super, s: Snap, i: nat, at: nat, m: nat)
    requires Good(sb, s) && i < sb.ninodes && NoHoles(sb, s, i)
    requires at % BSIZE + m <= BSIZE && at + m <= s.inodes[i].size && m > 0
    ensures HasByte(sb, s, i, at)
    ensures s.disk[BlockAt(sb, s, i, at)][at % BSIZE..at % BSIZE + m] == Content(sb, s, i)[at..at+m]
  {
    hide Slot, BitsAre, SlotOwns, OwnedBy;
    var b := BlockAt(sb, s, i, at);
    assert HasByte(sb, s, i, at);
    var c, d := Content(sb, s, i)[at..at+m], s.disk[b][at % BSIZE..at % BSIZE + m];
    forall x | 0 <= x < m ensures c[x] == d[x] {
      assert (at + x) / BSIZE == at / BSIZE && (at + x) % BSIZE == at % BSIZE + x;
      assert HasByte(sb, s, i, at + x);
    }
  }

  lemma StartProgress(sb: Super, s: Snap, i: nat, off: nat, src: seq<byte>)
    requires Good(sb, s) && i < sb.ninodes && NoHoles(sb, s, i) && WrittenThrough(sb, s.disk, s.inodes)
    ensures Progress(sb, s, s, i, off, src, 0)
  {
    hide BitsAre, SlotOwns, ByteAt, HasByte;
    forall b | b in s.owner ensures b < sb.size { OwnerSlot(sb, s, b); }
    var c := Content(sb, s, i);
    if off <= |c| { assert Splice(c, off, []) == c; }
  }

  lemma ProgressOff(sb: Super, s0: Snap, s: Snap, i: nat, off: nat, src: seq<byte>, k: nat)
    requires Progress(sb, s0, s, i, off, src, k)
    ensures off <= s0.inodes[i].size ==> off + k <= s.inodes[i].size
    ensures k > 0 ==> off <= s0.inodes[i].size
    ensures Good(sb, s) && s.inodes[i].size <= MAXFILE * BSIZE
  {
    hide BitsAre, SlotOwns, OwnedBy, HasByte, ByteAt, OthersKept, WrittenThrough;
  }
}
