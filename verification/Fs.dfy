/** fs.c as code: balloc, bfree, bmap, itrunc, iupdate, readi and writei over the
    logical disk (what bread returns) and the in-memory inodes. A result None is a kernel
    panic. */
module Fs {
  import opened Basics
  import opened Blocks
  import opened FsLayout
  import opened FileMap
  import opened FileContent
  import opened FileSpace

  const T_DEV: short := 3

  class FileSystem {
    const sb: Super
    var disk: Disk                 // contents as bread returns them
    var inodes: seq<Dinode>        // in-memory inodes by inode number
    ghost var owner: Owner
    ghost var logged: set<nat>     // blocks passed to log_write

    ghost predicate Valid()
      reads this
    {
      Consistent(sb, disk, inodes, owner)
    }

    /** An empty file system: a zeroed disk with its metadata blocks marked. */
    constructor (sb: Super)
      requires sb.Ok()
      ensures Valid() && WrittenThrough(sb, disk, inodes) && this.sb == sb && logged == {}
      ensures forall i: nat :: i < sb.ninodes ==> inodes[i] == BLANK && NoHoles(sb, Now(), i)
    {
      this.sb := sb;
      disk, inodes, owner, logged := ZeroDisk(sb.size), Blanks(sb.ninodes), map[], {};
      new;
      hide Bit, SetBit, BitsAre, ZeroDisk, Blanks;
      NothingMarked(sb, disk);
      var b := 0;
      while b < sb.nmeta
        invariant b <= sb.nmeta && BitsAre(sb, disk, Upto(b)) && UnmarkedZero(sb, disk)
        invariant inodes == Blanks(sb.ninodes) && owner == map[] && logged == {}
      {
        BitsSet(sb, disk, Upto(b), b, true);
        disk := SetBit(sb, disk, b, true);
        b := b + 1;
      }
      BlankOk(sb, disk, inodes, owner);
    }

    ghost function Now(): (s: Snap)
      reads this
    {
      Snap(disk, inodes, owner)
    }

    method LogWrite(b: nat, data: Block)
      requires b < |disk|
      modifies this`disk, this`logged
      ensures disk == old(disk)[b := data] && logged == old(logged) + {b}
      ensures Recorded(old(disk), old(logged), disk, logged)
    {
      disk := disk[b := data];
      logged := logged + {b};
    }

    /** balloc: the lowest free block, marked and zeroed; None is "out of blocks". */
    method Balloc() returns (r: Option<nat>)
      requires sb.Ok() && |disk| == sb.size
      modifies this`disk, this`logged
      ensures r.None? ==> Full(sb, disk)
      ensures r.None? ==> disk == old(disk) && logged == old(logged)
      ensures r.Some? ==>
        && r.value < sb.size && !Bit(sb, old(disk), r.value)
        && (forall x :: 0 <= x < r.value ==> Bit(sb, old(disk), x))
        && disk == SetBit(sb, old(disk), r.value, true)[r.value := ZERO]
        && logged == old(logged) + {BBlock(sb, r.value), r.value}
      ensures Recorded(old(disk), old(logged), disk, logged)
    {
      hide Mark, BitIn, Bit, SetBit, BBlock, Recorded;
      RecordedSelf(disk, logged);
      var b := 0;
      while b < sb.size
        invariant b % BPB == 0 && disk == old(disk) && logged == old(logged)
        invariant forall x :: 0 <= x < sb.size && x < b ==> Bit(sb, disk, x)
      {
        BBlockRange(sb, b);
        var data := disk[BBlock(sb, b)];
        var bi := 0;
        while bi < BPB && b + bi < sb.size
          invariant 0 <= bi <= BPB && disk == old(disk) && logged == old(logged)
          invariant forall x :: 0 <= x < sb.size && x < b + bi ==> Bit(sb, disk, x)
        {
          BitAt(sb, disk, b, bi);
          if !BitIn(data, bi) {
            LogWrite(BBlock(sb, b), Mark(data, bi, true));
            ghost var d, l := disk, logged;
            LogWrite(b + bi, ZERO);
            RecordedTwice(old(disk), old(logged), d, l, disk, logged);
            return Some(b + bi);
          }
          bi := bi + 1;
        }
        b := b + BPB;
      }
      return None;
    }

    /** bfree: false is the panic "freeing free block". */
    method Bfree(b: nat) returns (ok: bool)
      requires sb.Ok() && |disk| == sb.size && b < sb.size
      modifies this`disk, this`logged
      ensures ok == Bit(sb, old(disk), b)
      ensures disk == if ok then SetBit(sb, old(disk), b, false) else old(disk)
      ensures logged == if ok then old(logged) + {BBlock(sb, b)} else old(logged)
      ensures Recorded(old(disk), old(logged), disk, logged)
    {
      hide Mark, BitIn, Recorded;
      RecordedSelf(disk, logged);
      BBlockRange(sb, b);
      var data := disk[BBlock(sb, b)];
      ok := BitIn(data, b % BPB);
      if ok { LogWrite(BBlock(sb, b), Mark(data, b % BPB, false)); }
    }

    /** ip->addrs[k] = balloc() */
    method AllocAddr(i: nat, k: nat) returns (r: Option<nat>)
      requires Valid() && i < sb.ninodes && k <= NDIRECT && inodes[i].addrs[k] == 0
      modifies this`disk, this`logged, this`inodes, this`owner
      ensures r.None? ==> Full(sb, disk) && Now() == old(Now())
      ensures r.Some? ==>
        && Valid() && Grown(sb, old(disk), old(inodes), old(owner), disk, inodes, owner, i)
        && r.value !in old(owner) && sb.nmeta <= r.value < sb.size && disk[r.value] == ZERO
        && inodes[i] == SetAddr(old(inodes)[i], k, r.value) && owner == old(owner)[r.value := (i, k)]
        && logged == old(logged) + {BBlock(sb, r.value), r.value}
      ensures Recorded(old(disk), old(logged), disk, logged)
    {
      hide Recorded, Bit, ZERO, SlotOwns, OwnedBy, Grown, SetBit;
      r := Balloc();
      if r.None? { return; }
      AddrGrows(sb, old(disk), inodes, owner, i, k, r.value);
      inodes := inodes[i := SetAddr(inodes[i], k, r.value)];
      owner := owner[r.value := (i, k)];
    }

    /** a[j] = balloc(); log_write(bp) for the indirect block bp of inode i. */
    method AllocEntry(i: nat, j: nat) returns (r: Option<nat>)
      requires Valid() && i < sb.ninodes && j < NINDIRECT && inodes[i].addrs[NDIRECT] != 0
      requires Slot(disk, inodes[i], NDIRECT + 1 + j) == 0
      modifies this`disk, this`logged, this`owner
      ensures r.None? ==> Full(sb, disk) && Now() == old(Now())
      ensures r.Some? ==>
        && Valid() && Grown(sb, old(disk), inodes, old(owner), disk, inodes, owner, i)
        && r.value !in old(owner) && sb.nmeta <= r.value < sb.size && disk[r.value] == ZERO
        && owner == old(owner)[r.value := (i, NDIRECT + 1 + j)]
        && logged == old(logged) + {BBlock(sb, r.value), r.value, inodes[i].addrs[NDIRECT]}
      ensures Recorded(old(disk), old(logged), disk, logged)
    {
      hide Recorded, Bit, ZERO, BitsAre, Grown, SetBit, SetWord, Word, SlotOwns, OwnedBy;
      var a := inodes[i].addrs[NDIRECT];
      r := Balloc();
      if r.None? { return; }
      EntryGrows(sb, old(disk), inodes, owner, i, j, r.value);
      ghost var d, l := disk, logged;
      LogWrite(a, SetWord(disk[a], j, r.value));
      RecordedTwice(old(disk), old(logged), d, l, disk, logged);
      owner := owner[r.value := (i, NDIRECT + 1 + j)];
    }

    /** Load the indirect block of inode i, allocating it if necessary. */
    method LoadIndirect(i: nat) returns (r: Option<nat>, ghost bm: set<nat>)
      requires Valid() && i < sb.ninodes
      modifies this`disk, this`logged, this`inodes, this`owner
      ensures r.None? ==> Full(sb, disk) && old(inodes)[i].addrs[NDIRECT] == 0 && Now() == old(Now())
      ensures r.Some? ==> Loaded(sb, old(Now()), old(logged), Now(), logged, i, r.value, bm)
      ensures Supplied(old(owner), owner, i, {NDIRECT})
      ensures Recorded(old(disk), old(logged), disk, logged)
    {
      hide Recorded, Bit, ZERO, Word, SlotOwns, OwnedBy, BBlock, Supplied, Has;
      bm := {};
      SupplyNone(owner, i, {NDIRECT});
      if inodes[i].addrs[NDIRECT] == 0 {
        HasSlot(sb, disk, inodes, owner, i, NDIRECT);
        r := AllocAddr(i, NDIRECT);
        if r.None? { return; }
        SupplyOne(old(owner), i, NDIRECT, r.value, {NDIRECT});
        bm := {BBlock(sb, r.value)};
        forall k | NDIRECT < k < NSLOTS ensures Slot(disk, inodes[i], k) == 0 { ZeroWords(k - NDIRECT - 1); }
      } else {
        r := Some(inodes[i].addrs[NDIRECT]);
        RecordedSelf(disk, logged);
        GrownSame(sb, disk, inodes, owner, i);
      }
    }

    method BmapDirect(i: nat, bn: nat) returns (r: Option<nat>, ghost bm: set<nat>)
      requires Valid() && i < sb.ninodes && bn < NDIRECT
      modifies this`disk, this`logged, this`inodes, this`owner
      ensures r.None? ==> Full(sb, disk) && Slot(old(disk), old(inodes)[i], SlotOf(bn)) == 0 && Now() == old(Now())
      ensures r.Some? ==>
        Mapped(sb, old(Now()), old(logged), Now(), logged, i, bn, r.value, bm)
      ensures Supplied(old(owner), owner, i, Needs(bn))
      ensures Recorded(old(disk), old(logged), disk, logged)
    {
      hide Recorded, Bit, ZERO, SlotOwns, OwnedBy, Word, BitsAre, BBlock, Grown, Supplied, Has;
      bm := {};
      SupplyNone(owner, i, Needs(bn));
      if inodes[i].addrs[bn] == 0 {
        HasSlot(sb, disk, inodes, owner, i, bn);
        r := AllocAddr(i, bn);
        if r.None? { return; }
        SupplyOne(old(owner), i, bn, r.value, Needs(bn));
        bm := {BBlock(sb, r.value)};
      } else {
        r := Some(inodes[i].addrs[bn]);
        SlotOwned(sb, disk, inodes, owner, i, bn);
        RecordedSelf(disk, logged);
        GrownSame(sb, disk, inodes, owner, i);
      }
    }

    method BmapIndirect(i: nat, bn: nat) returns (r: Option<nat>, ghost bm: set<nat>)
      requires Valid() && i < sb.ninodes && NDIRECT <= bn < MAXFILE
      modifies this`disk, this`logged, this`inodes, this`owner
      ensures r.None? ==> Full(sb, disk) && Slot(old(disk), old(inodes)[i], SlotOf(bn)) == 0
      ensures r.None? ==> Valid() && SlotOf(bn) !in Has(owner, i)
      ensures r.Some? ==>
        Mapped(sb, old(Now()), old(logged), Now(), logged, i, bn, r.value, bm)
      ensures Supplied(old(owner), owner, i, Needs(bn))
      ensures Recorded(old(disk), old(logged), disk, logged)
    {
      hide Recorded, Word, Slot, BBlock, Grown, Full, Mapped, Loaded, SlotOwns, OwnedBy, BitsAre, Supplied, Has;
      var j := bn - NDIRECT;
      r, bm := LoadIndirect(i);
      SupplyTwice(old(owner), old(owner), owner, i, {}, {NDIRECT}, Needs(bn)) by { SupplyNone(old(owner), i, {}); }
      if r.None? {
        NoEntries(sb, old(Now()), i, bn);
        HasSlot(sb, disk, inodes, owner, i, SlotOf(bn));
        return;
      }
      ghost var s1, l1 := Now(), logged;
      LoadedEntry(sb, old(Now()), old(logged), s1, l1, i, bn, r.value, bm);
      var addr: nat := Word(disk[r.value], j);
      if addr != 0 {
        MappedLoaded(sb, old(Now()), old(logged), s1, l1, i, bn, r.value, bm, addr);
        r := Some(addr);
        return;
      }
      HasSlot(sb, disk, inodes, owner, i, SlotOf(bn));
      r := AllocEntry(i, j);
      RecordedTwice(old(disk), old(logged), s1.disk, l1, disk, logged);
      if r.None? { return; }
      SupplyOne(s1.owner, i, SlotOf(bn), r.value, Needs(bn));
      SupplyTwice(old(owner), s1.owner, owner, i, Needs(bn), Needs(bn), Needs(bn));
      MappedEntered(sb, old(Now()), old(logged), s1, l1, Now(), logged, i, bn, s1.inodes[i].addrs[NDIRECT], bm, r.value);
      bm := bm + {BBlock(sb, r.value)};
    }

    /** bmap: the disk block of the file's bn-th block, allocated if there is none.
        None is "out of blocks" or "out of range". bm collects the bitmap blocks logged. */
    method Bmap(i: nat, bn: nat) returns (r: Option<nat>, ghost bm: set<nat>)
      requires Valid() && i < sb.ninodes
      modifies this`disk, this`logged, this`inodes, this`owner
      ensures r.None? ==> bn >= MAXFILE || (Full(sb, disk) && Slot(old(disk), old(inodes)[i], SlotOf(bn)) == 0)
      ensures bn < MAXFILE ==> Supplied(old(owner), owner, i, Needs(bn)) && (r.None? ==> Valid() && SlotOf(bn) !in Has(owner, i))
      ensures r.Some? ==>
        && bn < MAXFILE
        && Mapped(sb, old(Now()), old(logged), Now(), logged, i, bn, r.value, bm)
      ensures r.Some? ==>
        var a := inodes[i].addrs;
        |a| == 13 && a[12] < |disk| && r.value == if bn < 12 then a[bn] else Word(disk[a[12]], bn - 12)
      ensures Recorded(old(disk), old(logged), disk, logged)
    {
      hide Grown, Recorded, Supplied, Has, SlotOwns, OwnedBy, Slot;
      if bn < NDIRECT {
        r, bm := BmapDirect(i, bn);
        if r.None? { HasSlot(sb, disk, inodes, owner, i, bn); }
      } else if bn < MAXFILE {
        r, bm := BmapIndirect(i, bn);
      } else {
        r, bm := None, {};
        RecordedSelf(disk, logged);
      }
      if r.Some? { MappedAddr(sb, old(Now()), old(logged), Now(), logged, i, bn, r.value, bm); }
    }

    /** Copy a modified in-memory inode to disk. */
    method Iupdate(i: nat)
      requires Valid() && i < sb.ninodes
      modifies this`disk, this`logged
      ensures Valid() && logged == old(logged) + {IBlock(sb, i)}
      ensures disk == UpdateNode(sb, old(disk), i, inodes[i])
      ensures Recorded(old(disk), old(logged), disk, logged)
    {
      hide Recorded, Bit, PutNode, SlotOwns, OwnedBy;
      IBlockRange(sb, i);
      NodeUpdated(sb, disk, inodes, owner, i);
      LogWrite(IBlock(sb, i), PutNode(disk[IBlock(sb, i)], i % IPB, inodes[i]));
    }

    /** The first loop of itrunc. */
    method FreeDirect(i: nat) returns (ok: bool)
      requires Valid() && i < sb.ninodes
      modifies this`disk, this`logged, this`inodes
      ensures ok && Freeing(sb, old(disk), old(inodes), owner, disk, i, Upto(NDIRECT))
      ensures Cleared(old(inodes), inodes, i, NDIRECT)
      ensures Recorded(old(disk), old(logged), disk, logged)
    {
      hide Recorded, Bit, Word, SlotOwns, OwnedBy, SetBit, Freeing;
      RecordedSelf(disk, logged);
      NothingFreed(sb, disk, inodes, owner, i);
      var k := 0;
      while k < NDIRECT
        invariant 0 <= k <= NDIRECT && NodesOk(sb, old(disk), old(inodes)) && |disk| == sb.size
        invariant Freeing(sb, old(disk), old(inodes), owner, disk, i, Upto(k))
        invariant Cleared(old(inodes), inodes, i, k) && Recorded(old(disk), old(logged), disk, logged)
      {
        FreeSlot(sb, old(disk), old(inodes), owner, disk, i, Upto(k), k);
        if inodes[i].addrs[k] != 0 {
          ghost var d, l := disk, logged;
          ok := Bfree(inodes[i].addrs[k]);
          RecordedTwice(old(disk), old(logged), d, l, disk, logged);
          if !ok { return; }
          inodes := inodes[i := SetAddr(inodes[i], k, 0)];
        }
        assert Upto(k + 1) == Upto(k) + {k};
        k := k + 1;
      }
      ok := true;
    }

    /** The second loop of itrunc, over the entries of indirect block a. */
    method FreeIndirect(i: nat, ghost disk0: Disk, ghost inodes0: seq<Dinode>) returns (ok: bool)
      requires Freeing(sb, disk0, inodes0, owner, disk, i, Upto(NDIRECT))
      requires inodes0[i].addrs[NDIRECT] != 0 && |inodes| == |inodes0| && NodeOk(inodes[i])
      requires inodes[i].addrs[NDIRECT] == inodes0[i].addrs[NDIRECT]
      modifies this`disk, this`logged
      ensures ok && Freeing(sb, disk0, inodes0, owner, disk, i, Upto(NSLOTS))
      ensures Recorded(old(disk), old(logged), disk, logged)
    {
      hide Recorded, Bit, Word, SlotOwns, OwnedBy, SetBit;
      RecordedSelf(disk, logged);
      IndirectOwned(sb, disk0, inodes0, owner, i);
      var a := inodes[i].addrs[NDIRECT];
      var data := disk[a];
      ghost var done: set<nat> := Upto(NDIRECT);
      var j := 0;
      while j < NINDIRECT
        invariant 0 <= j <= NINDIRECT && |disk| == sb.size && Recorded(old(disk), old(logged), disk, logged)
        invariant Freeing(sb, disk0, inodes0, owner, disk, i, done)
        invariant forall k :: k in done <==> 0 <= k < NDIRECT || NDIRECT + 1 <= k < NDIRECT + 1 + j
      {
        var addr: nat := Word(data, j);
        FreeSlot(sb, disk0, inodes0, owner, disk, i, done, NDIRECT + 1 + j);
        if addr != 0 {
          ghost var d, l := disk, logged;
          ok := Bfree(addr);
          RecordedTwice(old(disk), old(logged), d, l, disk, logged);
          if !ok { return; }
        }
        done := done + {NDIRECT + 1 + j};
        j := j + 1;
      }
      FreeSlot(sb, disk0, inodes0, owner, disk, i, done, NDIRECT);
      ghost var d, l := disk, logged;
      ok := Bfree(a);
      RecordedTwice(old(disk), old(logged), d, l, disk, logged);
      assert done + {NDIRECT} == Upto(NSLOTS);
    }

    /** itrunc up to its iupdate. */
    method FreeAll(i: nat) returns (ok: bool)
      requires Valid() && i < sb.ninodes
      modifies this`disk, this`logged, this`inodes, this`owner
      ensures ok && Valid() && owner == Without(old(owner), i)
      ensures inodes == old(inodes)[i := Emptied(old(inodes)[i])]
      ensures forall x :: 0 <= x < sb.size && !(sb.bmapstart <= x < sb.nmeta) ==> disk[x] == old(disk)[x]
      ensures Recorded(old(disk), old(logged), disk, logged)
    {
      hide Recorded, Bit, Word, SlotOwns, OwnedBy, SetBit, Freeing, BitsAre, Emptied, Upto, Without;
      ok := FreeDirect(i);
      if inodes[i].addrs[NDIRECT] != 0 {
        ghost var d, l := disk, logged;
        ok := FreeIndirect(i, old(disk), old(inodes));
        RecordedTwice(old(disk), old(logged), d, l, disk, logged);
        inodes := inodes[i := SetAddr(inodes[i], NDIRECT, 0)];
      } else {
        NoIndirect(sb, old(disk), old(inodes), owner, disk, i);
      }
      inodes := inodes[i := inodes[i].(size := 0)];
      AllCleared(old(inodes), inodes, i);
      FreeDone(sb, old(disk), old(inodes), owner, disk, i);
      owner := Without(owner, i);
    }

    /** itrunc: frees each of the inode's blocks once, never panics, leaves every other
        inode's blocks and contents alone, and writes the emptied inode to disk. */
    method Itrunc(i: nat) returns (ok: bool)
      requires Valid() && i < sb.ninodes
      modifies this`disk, this`logged, this`inodes, this`owner
      ensures ok && Valid() && owner == Without(old(owner), i)
      ensures inodes == old(inodes)[i := Emptied(old(inodes)[i])]
      ensures forall x :: sb.nmeta <= x < sb.size ==> disk[x] == old(disk)[x]
      ensures forall j :: 0 <= j < sb.ninodes ==>
        DiskNode(sb, disk, j) == if j == i then inodes[i] else DiskNode(sb, old(disk), j)
      ensures OthersKept(sb, old(Now()), Now(), i)
      ensures WrittenThrough(sb, old(disk), old(inodes)) ==> WrittenThrough(sb, disk, inodes)
      ensures Recorded(old(disk), old(logged), disk, logged)
    {
      hide Recorded, Bit, Word, SlotOwns, OwnedBy, NodeOf, SetBit, PutNode, BitsAre;
      ok := FreeAll(i);
      ghost var disk1, l1 := disk, logged;
      Iupdate(i);
      RecordedTwice(old(disk), old(logged), disk1, l1, disk, logged);
      forall j | 0 <= j < sb.ninodes
        ensures DiskNode(sb, disk, j) == if j == i then inodes[i] else DiskNode(sb, old(disk), j)
      {
        UpdateNodeAt(sb, disk1, i, inodes[i], j);
        NodesFrame(sb, old(disk), disk1, j);
      }
      WithoutOthers(sb, old(Now()), Now(), i);
    }

    /** One iteration of writei's loop: copy up to the end of the block that holds byte
        off + tot. False is a panic. */
    method WriteBlock(i: nat, src: seq<byte>, off: nat, tot: nat,
                      ghost s0: Snap, ghost l0: set<nat>, ghost data: set<nat>, ghost bms: set<nat>)
      returns (ok: bool, m: nat, ghost data': set<nat>, ghost bms': set<nat>)
      requires Writing(sb, s0, Now(), i, off, src, tot) && tot < |src|
      requires Charged(s0, Now(), i, off, tot, l0, logged, data, bms) && (tot == 0 || (off + tot) % BSIZE == 0)
      modifies this`disk, this`logged, this`inodes, this`owner
      ensures !ok ==> Full(sb, disk) && Valid() && SlotOf((off + tot) / BSIZE) !in Has(owner, i)
      ensures Supplied(old(owner), owner, i, Needs((off + tot) / BSIZE)) && (ok ==> Needs((off + tot) / BSIZE) <= Has(owner, i))
      ensures ok ==>
        && 0 < m <= BSIZE - (off + tot) % BSIZE && tot + m <= |src| && (tot + m < |src| ==> (off + tot + m) % BSIZE == 0)
        && Writing(sb, s0, Now(), i, off, src, tot + m)
        && Charged(s0, Now(), i, off, tot + m, l0, logged, data', bms')
      ensures Recorded(old(disk), old(logged), disk, logged)
    {
      hide Recorded, Slot, BitsAre, SlotOwns, OwnedBy, HasByte, ByteAt, Patch, NoHoles, OthersKept, Written,
        Mapped, Charged, Iterating, Writing, Consistent, Grown, SlotsOk, Full, Supplied, Has, Needs;
      ghost var s, l := Now(), logged;
      WritingParts(sb, s0, s, i, off, src, tot);
      var at := off + tot;
      assert at / BSIZE < MAXFILE;
      m := if |src| - tot < BSIZE - at % BSIZE then |src| - tot else BSIZE - at % BSIZE;
      data', bms' := data, bms;
      var r, bm := Bmap(i, at / BSIZE);
      ok := r.Some?;
      if !ok { return; }
      ghost var s1, l1 := Now(), logged;
      assert Mapped(sb, s, l, s1, l1, i, at / BSIZE, r.value, bm);
      MappedHas(sb, s, l, s1, l1, i, at / BSIZE, r.value, bm);
      MappedIterates(sb, s0, s, l, s1, l1, i, off, src, tot, m, r.value, bm);
      ChargeStep(sb, s0, s, l, s1, l1, i, off, src, tot, m, r.value, bm, l0, data, bms);
      IteratingBlock(sb, s0, s, s1, i, off, src, tot, m, r.value);
      LogWrite(r.value, Patch(disk[r.value], at % BSIZE, src[tot..tot+m]));
      RecordedTwice(old(disk), old(logged), s1.disk, l1, disk, logged);
      WriteStep(sb, s0, s, s1, Now(), i, off, src, tot, m, r.value);
      data', bms' := data + {r.value}, bms + bm;
      SameNodesCharged(s0, s1, Now(), i, off, tot + m, l0, logged, data', bms');
    }

    /** The copy loop of writei; false is a panic. */
    method WriteLoop(i: nat, src: seq<byte>, off: nat) returns (ok: bool, ghost data: set<nat>, ghost bms: set<nat>)
      requires Writing(sb, Now(), Now(), i, off, src, 0)
      modifies this`disk, this`logged, this`inodes, this`owner
      ensures !ok ==> Full(sb, disk) && Valid()
      ensures Supplied(old(owner), owner, i, Wanted(off, |src|)) && (ok <==> Wanted(off, |src|) <= Has(owner, i))
      ensures ok ==> Writing(sb, old(Now()), Now(), i, off, src, |src|)
      ensures ok ==> Charged(old(Now()), Now(), i, off, |src|, old(logged), logged, data, bms)
      ensures Recorded(old(disk), old(logged), disk, logged)
    {
      hide Recorded, Slot, BitsAre, SlotOwns, OwnedBy, HasByte, ByteAt, NoHoles, OthersKept, Written, Supplied, Has, Needs, Served,
        Wanted, Writing, Charged, Full, Consistent;
      RecordedSelf(disk, logged);
      ghost var n := |src|;
      WritingParts(sb, Now(), Now(), i, off, src, 0);
      ServeNone(owner, i, off, n);
      ChargedNone(sb, Now(), i, off, logged);
      var tot := 0;
      data, bms := {}, {};
      ok := true;
      while tot < |src|
        invariant ok && tot <= |src| && Recorded(old(disk), old(logged), disk, logged)
        invariant Writing(sb, old(Now()), Now(), i, off, src, tot)
        invariant Charged(old(Now()), Now(), i, off, tot, old(logged), logged, data, bms)
        invariant Served(old(owner), owner, i, off, tot, n)
        invariant 0 < tot < |src| ==> (off + tot) % BSIZE == 0
      {
        var m;
        ghost var d, l, o := disk, logged, owner;
        ok, m, data, bms := WriteBlock(i, src, off, tot, old(Now()), old(logged), data, bms);
        RecordedTwice(old(disk), old(logged), d, l, disk, logged);
        ServeMore(old(owner), o, owner, i, off, tot, n);
        if !ok {
          Unserved(old(owner), owner, i, off, tot, n);
          return;
        }
        ServeBlock(old(owner), owner, i, off, tot, m, n);
        tot := tot + m;
      }
      AllServed(old(owner), owner, i, off, n);
    }

    /** The end of writei: a longer file gets its new size and is written to disk. */
    method FinishWrite(i: nat, src: seq<byte>, off: nat, ghost s0: Snap)
      requires Writing(sb, s0, Now(), i, off, src, |src|) && WrittenThrough(sb, s0.disk, s0.inodes)
      modifies this`disk, this`logged, this`inodes
      ensures AfterWrite(sb, s0, Now(), i, off, src)
      ensures logged <= old(logged) + {IBlock(sb, i)}
      ensures |src| == 0 || off + |src| <= old(inodes)[i].size ==> Now() == old(Now()) && logged == old(logged)
      ensures Recorded(old(disk), old(logged), disk, logged)
    {
      hide Recorded, BitsAre, SlotOwns, OwnedBy, HasByte, ByteAt, NodeOf, Written, PutNode, NoHoles, OthersKept, AfterWrite;
      if |src| > 0 && off + |src| > inodes[i].size {
        ghost var s := Now();
        SizedGood(sb, s, i, off + |src|);
        inodes := inodes[i := inodes[i].(size := off + |src|)];
        ghost var s' := Now();
        Iupdate(i);
        FinishLong(sb, s0, s, s', Now(), i, off, src);
      } else {
        RecordedSelf(disk, logged);
        FinishShort(sb, s0, Now(), i, off, src);
      }
    }

    /** writei for a file or directory: -1 for a start past the end, an offset that
        overflows or a file that would get too long; otherwise all of src is written.
        None is the panic "out of blocks". */
    method Writei(i: nat, src: seq<byte>, off: nat) returns (r: Option<int>)
      requires Valid() && i < sb.ninodes && off < TWO32 && |src| < TWO32
      requires NoHoles(sb, Now(), i) && WrittenThrough(sb, disk, inodes) && inodes[i].typ != T_DEV
      modifies this`disk, this`logged, this`inodes, this`owner
      ensures r.None? ==> Full(sb, disk) && Valid()
      ensures r != Some(-1) ==> (r.None? <==> |FreeBlocks(sb, old(disk))| < |Missing(old(disk), old(inodes)[i], off, |src|)|)
      ensures r != Some(-1) ==>
        Supplied(old(owner), owner, i, Wanted(off, |src|)) && (r.Some? <==> Wanted(off, |src|) <= Has(owner, i))
      ensures r == Some(-1) <==> off > old(inodes)[i].size || off + |src| > MAXFILE * BSIZE
      ensures r == Some(-1) ==> Now() == old(Now()) && logged == old(logged)
      ensures r.Some? && r.value != -1 ==> r.value == |src| && AfterWrite(sb, old(Now()), Now(), i, off, src)
      ensures r.Some? ==> |logged - old(logged)| <= LogBound(off, |src|)
      ensures Recorded(old(disk), old(logged), disk, logged)
    {
      hide Recorded, Slot, BitsAre, SlotOwns, OwnedBy, HasByte, ByteAt, Written, NodeOf, AfterWrite, LogBound, FreeBlocks, Missing,
        Supplied, Has, Wanted, Full;
      RecordedSelf(disk, logged);
      var n := |src|;
      if off > inodes[i].size || (off + n) % TWO32 < off {
        return Some(-1);
      }
      if (off + n) % TWO32 > MAXFILE * BSIZE {
        return Some(-1);
      }
      StartWriting(sb, Now(), i, off, src);
      var ok, data, bms := WriteLoop(i, src, off);
      if ok { WritingParts(sb, old(Now()), Now(), i, off, src, n); }
      EnoughIff(sb, old(Now()), Now(), i, off, n);
      if !ok { return None; }
      ghost var a: nat, d, l := inodes[i].addrs[NDIRECT], disk, logged;
      FinishWrite(i, src, off, old(Now()));
      RecordedTwice(old(disk), old(logged), d, l, disk, logged);
      LoggedFew(old(logged), l, logged, data, bms, a, IBlock(sb, i), off, n);
      return Some(n);
    }

    /** One turn of readi's loop: at most left bytes from byte at on, up to the end of its
        block. */
    method ReadBlock(i: nat, at: nat, left: nat) returns (part: seq<byte>)
      requires Valid() && i < sb.ninodes && NoHoles(sb, Now(), i) && 0 < left && at + left <= inodes[i].size
      modifies this`disk, this`logged, this`inodes, this`owner
      ensures Now() == old(Now()) && logged == old(logged)
      ensures 0 < |part| <= left && at + |part| <= |Content(sb, Now(), i)| && part == Content(sb, Now(), i)[at..at+|part|]
    {
      hide Slot, BitsAre, SlotOwns, OwnedBy, Grown, ByteAt, SlotOf;
      assert HasByte(sb, Now(), i, at);
      var b, _ := Bmap(i, at / BSIZE);
      MappedBlock(sb, old(Now()), Now(), i, at / BSIZE, b.value);
      var m := if left < BSIZE - at % BSIZE then left else BSIZE - at % BSIZE;
      BlockSlice(sb, Now(), i, at, m);
      part := disk[b.value][at % BSIZE..at % BSIZE + m];
    }

    /** readi for a file or directory: -1 for a start past the end or an offset that
        overflows, otherwise the slice of the contents clipped at the size. Nothing is
        allocated or changed, and bmap never panics. */
    method Readi(i: nat, off: nat, n: nat) returns (r: int, dst: seq<byte>)
      requires Valid() && i < sb.ninodes && off < TWO32 && n < TWO32
      requires NoHoles(sb, Now(), i) && inodes[i].typ != T_DEV
      modifies this`disk, this`logged, this`inodes, this`owner
      ensures Now() == old(Now()) && logged == old(logged)
      ensures r == -1 <==> off > inodes[i].size || off + n >= TWO32
      ensures r != -1 ==>
        && r == |dst| == (if off + n > inodes[i].size then inodes[i].size - off else n)
        && off + r <= |Content(sb, Now(), i)| && dst == Content(sb, Now(), i)[off..off+r]
    {
      hide Slot, BitsAre, SlotOwns, OwnedBy, ByteAt, HasByte, BlockAt, NoHoles, Bytes;
      dst := [];
      if off > inodes[i].size || (off + n) % TWO32 < off { return -1, dst; }
      var len := if off + n > inodes[i].size then inodes[i].size - off else n;
      ghost var c := Content(sb, Now(), i);
      var tot := 0;
      while tot < len
        invariant 0 <= tot <= len && Now() == old(Now()) && logged == old(logged)
        invariant |dst| == tot && dst == c[off..off+tot]
      {
        var part := ReadBlock(i, off + tot, len - tot);
        Slices(c, off, off + tot, off + tot + |part|);
        dst := dst + part;
        tot := tot + |part|;
      }
      return len, dst;
    }

    /** One chunk of filewrite, in its own transaction. */
    method WriteChunk(i: nat, addr: seq<byte>, off: nat, k: nat, n1: nat, ghost s0: Snap) returns (w: Option<int>)
      requires |addr| < 0x8000_0000 && k < |addr| && k % CHUNK == 0 && off < TWO32
      requires n1 == if |addr| - k > CHUNK then CHUNK else |addr| - k
      requires Progress(sb, s0, Now(), i, off, addr, k) && s0.inodes[i].typ != T_DEV
      requires Served(s0.owner, owner, i, off, k, Accepted(s0.inodes[i].size, off, |addr|))
      modifies this`disk, this`logged, this`inodes, this`owner
      ensures var m := Accepted(s0.inodes[i].size, off, |addr|);
        && (w.None? ==> Full(sb, disk) && |FreeBlocks(sb, s0.disk)| < |Missing(s0.disk, s0.inodes[i], off, m)|)
        && (w.Some? ==> |logged| <= MAXOPBLOCKS)
        && (w == Some(-1) ==> Now() == old(Now()) && k == m)
        && (w.Some? && w.value != -1 ==>
              w.value == n1 && Progress(sb, s0, Now(), i, off, addr, k + n1)
              && Served(s0.owner, owner, i, off, k + n1, m) && k + n1 <= m)
      ensures Recorded(old(disk), {}, disk, logged)
    {
      hide Recorded, Slot, BitsAre, SlotOwns, OwnedBy, HasByte, ByteAt, OthersKept, WrittenThrough, LogBound, AfterWrite, Splice,
        Supplied, Has, Wanted, Served, Full, FreeBlocks, Missing, Accepted;
      logged := {};                          // begin_op
      ghost var s, m := Now(), Accepted(s0.inodes[i].size, off, |addr|);
      ProgressOff(sb, s0, s, i, off, addr, k);
      w := Writei(i, addr[k..k+n1], off + k);
      if w == Some(-1) {
        Refused(s0.inodes[i].size, s.inodes[i].size, off, |addr|, k, n1);
      } else {
        ChunkAccepted(s0.inodes[i].size, off, |addr|, k, n1);
        ServeChunk(s0.owner, s.owner, owner, i, off, k, n1, m);
        if w.None? { EnoughIff(sb, s0, Now(), i, off, m); } else { ProgressStep(sb, s0, s, Now(), i, off, addr, k, n1); }
      }
      ChunkFits(off + k, n1);
      assert logged - {} == logged;
    }                                        // end_op

    /** filewrite on an inode: one transaction per chunk of at most three blocks' worth of
        bytes, each logging at most MAXOPBLOCKS blocks. Returns n if every chunk was
        written, otherwise -1 with the chunks before the refused one written; off' is the
        new file offset. txs[t] is what transaction t logged and disks[t] the disk before
        it. None is the panic "out of blocks". */
    method Filewrite(i: nat, addr: seq<byte>, off: nat)
      returns (r: Option<int>, off': nat, ghost txs: seq<set<nat>>, ghost disks: seq<Disk>)
      requires Valid() && i < sb.ninodes && off < TWO32 && |addr| < 0x8000_0000
      requires NoHoles(sb, Now(), i) && WrittenThrough(sb, disk, inodes) && inodes[i].typ != T_DEV
      modifies this`disk, this`logged, this`inodes, this`owner
      ensures r.None? ==> Full(sb, disk)
      ensures var m := Accepted(old(inodes)[i].size, off, |addr|);
        && (r.None? <==> |FreeBlocks(sb, old(disk))| < |Missing(old(disk), old(inodes)[i], off, m)|)
        && (r.Some? ==> off' == off + m && r.value == if m == |addr| then |addr| else -1)
        && (r.Some? ==> Progress(sb, old(Now()), Now(), i, off, addr, m) && |txs| == Chunks(m, |addr|))
      ensures Transactions(txs, disks) && disks[0] == old(disk) && (r.Some? ==> disks[|txs|] == disk)
    {
      hide Consistent, Progress, Transactions, Recorded, Supplied, Has, Wanted, Full, FreeBlocks, Missing, Accepted, Served, Slot;
      ghost var m := Accepted(inodes[i].size, off, |addr|);
      var k := 0;
      txs, disks := [], [disk];
      off' := off;
      StartProgress(sb, Now(), i, off, addr);
      NoTransactions(disk);
      ServeNone(owner, i, off, m);
      while k < |addr|
        invariant 0 <= k <= |addr| && off' == off + k
        invariant Progress(sb, old(Now()), Now(), i, off, addr, k) && Served(old(owner), owner, i, off, k, m) && k <= m
        invariant Transactions(txs, disks) && disks[0] == old(disk) && disks[|txs|] == disk
        invariant if k < |addr| then k == |txs| * CHUNK else |txs| == Chunks(k, |addr|)
      {
        ChunkCount(|txs|, k, |addr|);
        var n1 := if |addr| - k > CHUNK then CHUNK else |addr| - k;
        var w := WriteChunk(i, addr, off, k, n1, old(Now()));
        if w.None? { return None, off', txs, disks; }
        OneTransaction(txs, disks, logged, disk);
        txs, disks := txs + [logged], disks + [disk];
        if w.value < 0 { break; }
        off' := off' + w.value;
        k := k + w.value;
      }
      ProgressOff(sb, old(Now()), Now(), i, off, addr, k);
      AllServed(old(owner), owner, i, off, m);
      EnoughIff(sb, old(Now()), Now(), i, off, m);
      return if k == |addr| then Some(|addr|) else Some(-1), off', txs, disks;
    }
  }

  lemma Slices(c: seq<byte>, i: nat, j: nat, k: nat)
    requires i <= j <= k <= |c|
    ensures c[i..j] + c[j..k] == c[i..k]
  {
  }

  /** The first k block numbers of inode i have been set to 0, nothing else. */
  ghost predicate Cleared(inodes0: seq<Dinode>, inodes: seq<Dinode>, i: nat, k: nat) {
    && |inodes| == |inodes0| && i < |inodes| && NodeOk(inodes0[i]) && NodeOk(inodes[i])
    && inodes == inodes0[i := inodes[i]] && inodes[i] == inodes0[i].(addrs := inodes[i].addrs)
    && forall l :: 0 <= l <= NDIRECT ==> inodes[i].addrs[l] == if l < k then 0 else inodes0[i].addrs[l]
  }

  lemma AllCleared(inodes0: seq<Dinode>, inodes: seq<Dinode>, i: nat)
    requires |inodes| == |inodes0| && i < |inodes| && NodeOk(inodes0[i]) && NodeOk(inodes[i])
    requires inodes == inodes0[i := inodes[i]] && inodes[i] == inodes0[i].(addrs := inodes[i].addrs, size := 0)
    requires forall l :: 0 <= l <= NDIRECT ==> inodes[i].addrs[l] == 0
    ensures inodes == inodes0[i := Emptied(inodes0[i])]
  {
    assert inodes[i].addrs == Emptied(inodes0[i]).addrs;
  }

  /** Transaction t took the disk from disks[t] to disks[t+1], logged every block it changed
      and no more than MAXOPBLOCKS. */
  ghost predicate Transaction(txs: seq<set<nat>>, disks: seq<Disk>, t: nat)
    requires t < |txs| && |disks| == |txs| + 1
  {
    |txs[t]| <= MAXOPBLOCKS && Recorded(disks[t], {}, disks[t+1], txs[t])
  }

  ghost predicate Transactions(txs: seq<set<nat>>, disks: seq<Disk>)
    ensures Transactions(txs, disks) ==> |disks| == |txs| + 1
  {
    |disks| == |txs| + 1 && forall t: nat :: t < |txs| ==> Transaction(txs, disks, t)
  }

  lemma NoTransactions(d: Disk)
    ensures Transactions([], [d])
  {
  }

  lemma OneTransaction(txs: seq<set<nat>>, disks: seq<Disk>, tx: set<nat>, d: Disk)
    requires Transactions(txs, disks) && |tx| <= MAXOPBLOCKS && Recorded(disks[|txs|], {}, d, tx)
    ensures Transactions(txs + [tx], disks + [d])
  {
    hide Recorded;
    var txs', disks' := txs + [tx], disks + [d];
    forall t: nat | t < |txs'| ensures Transaction(txs', disks', t) {
      if t < |txs| { assert Transaction(txs, disks, t); }
    }
  }

  /** Transactions made when k of n bytes got written: one per chunk, and the refused one. */
  function Chunks(k: nat, n: nat): (c: nat) { if k == n then (n + CHUNK - 1) / CHUNK else k / CHUNK + 1 }

  lemma ChunkCount(c: nat, k: nat, n: nat)
    requires k == c * CHUNK < n
    ensures k % CHUNK == 0 && Chunks(k, n) == c + 1
    ensures n - k <= CHUNK ==> Chunks(n, n) == c + 1
  {
    DivChunk(CHUNK, c, k, n);
  }

  lemma DivChunk(m: nat, c: nat, k: nat, n: nat)
    requires 0 < m && k == c * m < n
    ensures k % m == 0 && k / m == c && (n - k <= m ==> (n + m - 1) / m == c + 1)
  {
    Quotient(m, c, 0);
    if n - k <= m {
      assert n + m - 1 == (c + 1) * m + (n - k - 1);
      Quotient(m, c + 1, n - k - 1);
    }
  }

  // ----- an empty file system -----

  const BLANK: Dinode := Dinode(0, 0, 0, 0, 0, [0, 0, 0, 0, 0, 0, 0, 0, 0, 0, 0, 0, 0])

  function ZeroDisk(n: nat): (d: Disk)
    ensures |d| == n && forall b :: 0 <= b < n ==> d[b] == ZERO
  {
    if n == 0 then [] else ZeroDisk(n - 1) + [ZERO]
  }

  function Blanks(n: nat): (r: seq<Dinode>)
    ensures |r| == n && forall i :: 0 <= i < n ==> r[i] == BLANK
  {
    if n == 0 then [] else Blanks(n - 1) + [BLANK]
  }

  ghost predicate UnmarkedZero(sb: Super, disk: Disk) {
    |disk| == sb.size && forall x: nat :: x < sb.size && !(sb.bmapstart <= x < sb.nmeta) ==> disk[x] == ZERO
  }

  lemma NothingMarked(sb: Super, disk: Disk)
    requires sb.Ok() && |disk| == sb.size && forall b :: 0 <= b < sb.size ==> disk[b] == ZERO
    ensures BitsAre(sb, disk, Upto(0)) && UnmarkedZero(sb, disk)
  {
    forall b | 0 <= b < sb.size ensures !Bit(sb, disk, b) {
      BBlockRange(sb, b);
      NoBit(b % BPB);
    }
  }

  lemma NoBit(bi: nat)
    requires bi < BPB
    ensures !BitIn(ZERO, bi)
  {
    assert ZERO[bi / 8] == 0;
    ZeroBit(bi % 8);
  }

  lemma {:induction false} ZeroBit(k: nat)
    ensures !TestBit(0, k)
  {
    if k > 0 { ZeroBit(k - 1); }
  }

  lemma BlankNode(slot: nat)
    requires slot < IPB
    ensures NodeOf(ZERO, slot) == BLANK
  {
    hide Word, ZERO;
    forall j | 0 <= j < WORDS ensures Word(ZERO, j) == 0 { ZeroWords(j); }
    assert NodeOf(ZERO, slot).addrs == BLANK.addrs;
  }

  lemma BlankOk(sb: Super, disk: Disk, inodes: seq<Dinode>, owner: Owner)
    requires sb.Ok() && BitsAre(sb, disk, Upto(sb.nmeta)) && UnmarkedZero(sb, disk)
    requires |inodes| == sb.ninodes && (forall i :: 0 <= i < sb.ninodes ==> inodes[i] == BLANK) && owner == map[]
    ensures Consistent(sb, disk, inodes, owner) && WrittenThrough(sb, disk, inodes)
    ensures forall i: nat :: i < sb.ninodes ==> NoHoles(sb, Snap(disk, inodes, owner), i)
  {
    hide BitsAre, NodeOf, ZERO;
    assert Used(sb, owner) == Upto(sb.nmeta);
    forall i, k | 0 <= i < sb.ninodes && 0 <= k < NSLOTS ensures SlotOwns(sb, disk, inodes, owner, i, k) {}
    forall i | 0 <= i < sb.ninodes ensures DiskNode(sb, disk, i) == inodes[i] {
      IBlockRange(sb, i);
      BlankNode(i % IPB);
    }
  }
}
