/** Which block each inode slot names, and which slot owns each block. */
module FileMap {
  import opened Blocks
  import opened FsLayout

  /** Block number owned by slot k: 0..11 are the direct blocks, 12 the indirect block,
      13 + j entry j of the indirect block. */
  function Slot(disk: Disk, d: Dinode, k: nat): (b: uint)
    requires NodeOk(d) && d.addrs[NDIRECT] < |disk| && k < NSLOTS
  {
    if k <= NDIRECT then d.addrs[k]
    else if d.addrs[NDIRECT] == 0 then 0
    else Word(disk[d.addrs[NDIRECT]], k - NDIRECT - 1)
  }

  /** The slot of the file's bn-th block. */
  function SlotOf(bn: nat): (k: nat)
    ensures bn < MAXFILE ==> k < NSLOTS && k != NDIRECT
  {
    if bn < NDIRECT then bn else bn + 1
  }

  type Owner = map<nat, (nat, nat)>

  ghost predicate NodesOk(sb: Super, disk: Disk, inodes: seq<Dinode>) {
    && sb.Ok() && |disk| == sb.size && |inodes| == sb.ninodes
    && forall i :: 0 <= i < sb.ninodes ==> NodeOk(inodes[i]) && inodes[i].addrs[NDIRECT] < sb.size
  }

  /** Slot k of inode i, if it names a block, is that block's owner. */
  ghost predicate SlotOwns(sb: Super, disk: Disk, inodes: seq<Dinode>, owner: Owner, i: nat, k: nat)
    requires NodesOk(sb, disk, inodes) && i < sb.ninodes && k < NSLOTS
  {
    var b := Slot(disk, inodes[i], k);
    b != 0 ==> b in owner && owner[b] == (i, k)
  }

  /** The recorded owner of b is a slot that names b. */
  ghost predicate OwnedBy(sb: Super, disk: Disk, inodes: seq<Dinode>, owner: Owner, b: nat)
    requires NodesOk(sb, disk, inodes)
  {
    b in owner ==>
      && sb.nmeta <= b < sb.size && owner[b].0 < sb.ninodes && owner[b].1 < NSLOTS
      && Slot(disk, inodes[owner[b].0], owner[b].1) == b
  }

  ghost predicate SlotsOk(sb: Super, disk: Disk, inodes: seq<Dinode>, owner: Owner) {
    && NodesOk(sb, disk, inodes)
    && (forall i, k :: 0 <= i < sb.ninodes && 0 <= k < NSLOTS ==> SlotOwns(sb, disk, inodes, owner, i, k))
    && (forall b :: b in owner ==> OwnedBy(sb, disk, inodes, owner, b))
  }

  /** No two slots name the same block. */
  lemma SlotsDisjoint(sb: Super, disk: Disk, inodes: seq<Dinode>, owner: Owner, i: nat, k: nat, j: nat, l: nat)
    requires SlotsOk(sb, disk, inodes, owner) && i < sb.ninodes && j < sb.ninodes && k < NSLOTS && l < NSLOTS
    requires Slot(disk, inodes[i], k) == Slot(disk, inodes[j], l) != 0
    ensures (i, k) == (j, l)
  {
    assert SlotOwns(sb, disk, inodes, owner, i, k) && SlotOwns(sb, disk, inodes, owner, j, l);
  }

  /** An inode's indirect block is owned as such. */
  lemma IndirectOwned(sb: Super, disk: Disk, inodes: seq<Dinode>, owner: Owner, i: nat)
    requires SlotsOk(sb, disk, inodes, owner) && i < sb.ninodes && inodes[i].addrs[NDIRECT] != 0
    ensures var a := inodes[i].addrs[NDIRECT]; a in owner && owner[a] == (i, NDIRECT) && sb.nmeta <= a < sb.size
  {
    assert SlotOwns(sb, disk, inodes, owner, i, NDIRECT);
    assert OwnedBy(sb, disk, inodes, owner, inodes[i].addrs[NDIRECT]);
  }

  /** Writing blocks that are not indirect blocks leaves every slot as it was. */
  lemma SlotsFrame(sb: Super, disk: Disk, disk': Disk, inodes: seq<Dinode>, owner: Owner)
    requires SlotsOk(sb, disk, inodes, owner) && |disk'| == sb.size
    requires forall b :: b in owner && owner[b].1 == NDIRECT ==> b < sb.size && disk'[b] == disk[b]
    ensures SlotsOk(sb, disk', inodes, owner)
    ensures forall i, k :: 0 <= i < sb.ninodes && 0 <= k < NSLOTS ==> Slot(disk', inodes[i], k) == Slot(disk, inodes[i], k)
  {
    hide Word;
    forall i, k | 0 <= i < sb.ninodes && 0 <= k < NSLOTS
      ensures Slot(disk', inodes[i], k) == Slot(disk, inodes[i], k)
      ensures SlotOwns(sb, disk', inodes, owner, i, k)
    {
      assert SlotOwns(sb, disk, inodes, owner, i, k);
      if inodes[i].addrs[NDIRECT] != 0 { IndirectOwned(sb, disk, inodes, owner, i); }
    }
    forall b | b in owner ensures OwnedBy(sb, disk', inodes, owner, b) {
      assert OwnedBy(sb, disk, inodes, owner, b);
    }
  }

  function SetAddr(d: Dinode, k: nat, b: uint): (r: Dinode)
    requires NodeOk(d) && k <= NDIRECT
    ensures NodeOk(r)
  {
    d.(addrs := d.addrs[k := b])
  }

  lemma ZeroWords(j: nat)
    requires j < WORDS
    ensures Word(ZERO, j) == 0
  {
  }

  /** ip->addrs[k] = b for an unowned block b; an indirect block must be zeroed. */
  lemma AddAddr(sb: Super, disk: Disk, inodes: seq<Dinode>, owner: Owner, i: nat, k: nat, b: uint)
    requires SlotsOk(sb, disk, inodes, owner) && i < sb.ninodes && k <= NDIRECT
    requires inodes[i].addrs[k] == 0 && sb.nmeta <= b < sb.size && b !in owner
    requires k == NDIRECT ==> disk[b] == ZERO
    ensures SlotsOk(sb, disk, inodes[i := SetAddr(inodes[i], k, b)], owner[b := (i, k)])
  {
    hide Word, ZERO;
    var nodes', owner' := inodes[i := SetAddr(inodes[i], k, b)], owner[b := (i, k)];
    forall j, l | 0 <= j < sb.ninodes && 0 <= l < NSLOTS
      ensures SlotOwns(sb, disk, nodes', owner', j, l)
      ensures (j, l) != (i, k) ==> Slot(disk, nodes'[j], l) == Slot(disk, inodes[j], l)
    {
      assert SlotOwns(sb, disk, inodes, owner, j, l);
      if k == NDIRECT && l > NDIRECT { ZeroWords(l - NDIRECT - 1); }
    }
    forall x | x in owner' ensures OwnedBy(sb, disk, nodes', owner', x) {
      assert x in owner ==> OwnedBy(sb, disk, inodes, owner, x);
    }
  }

  /** Entry j of the indirect block of inode i set to an unowned block b. */
  lemma AddEntry(sb: Super, disk: Disk, inodes: seq<Dinode>, owner: Owner, i: nat, j: nat, b: uint)
    requires SlotsOk(sb, disk, inodes, owner) && i < sb.ninodes && j < NINDIRECT
    requires inodes[i].addrs[NDIRECT] != 0 && Slot(disk, inodes[i], NDIRECT + 1 + j) == 0
    requires sb.nmeta <= b < sb.size && b !in owner
    ensures var a := inodes[i].addrs[NDIRECT];
      SlotsOk(sb, disk[a := SetWord(disk[a], j, b)], inodes, owner[b := (i, NDIRECT + 1 + j)])
  {
    hide Word, SetWord;
    var a, k := inodes[i].addrs[NDIRECT], NDIRECT + 1 + j;
    var disk', owner' := disk[a := SetWord(disk[a], j, b)], owner[b := (i, k)];
    IndirectOwned(sb, disk, inodes, owner, i);
    forall m, l | 0 <= m < sb.ninodes && 0 <= l < NSLOTS
      ensures Slot(disk', inodes[m], l) == if (m, l) == (i, k) then b else Slot(disk, inodes[m], l)
      ensures SlotOwns(sb, disk', inodes, owner', m, l)
    {
      assert SlotOwns(sb, disk, inodes, owner, m, l);
      if inodes[m].addrs[NDIRECT] != 0 { IndirectOwned(sb, disk, inodes, owner, m); }
      if l > NDIRECT { WordSetWord(disk[a], j, b, l - NDIRECT - 1); }
    }
    forall x | x in owner' ensures OwnedBy(sb, disk', inodes, owner', x) {
      assert x in owner ==> OwnedBy(sb, disk, inodes, owner, x);
    }
  }

  /** The blocks of all inodes but i. */
  ghost function Without(owner: Owner, i: nat): (r: Owner) {
    map b | b in owner && owner[b].0 != i :: owner[b]
  }

  function Emptied(d: Dinode): (r: Dinode)
    ensures NodeOk(r)
  {
    d.(addrs := seq<uint>(NDIRECT + 1, _ => 0), size := 0)
  }

  /** Truncating inode i gives up exactly its own blocks. */
  lemma DropNode(sb: Super, disk: Disk, inodes: seq<Dinode>, owner: Owner, i: nat)
    requires SlotsOk(sb, disk, inodes, owner) && i < sb.ninodes
    ensures SlotsOk(sb, disk, inodes[i := Emptied(inodes[i])], Without(owner, i))
  {
    hide Word;
    var nodes', owner' := inodes[i := Emptied(inodes[i])], Without(owner, i);
    forall j, l | 0 <= j < sb.ninodes && 0 <= l < NSLOTS ensures SlotOwns(sb, disk, nodes', owner', j, l) {
      assert SlotOwns(sb, disk, inodes, owner, j, l);
    }
    forall x | x in owner' ensures OwnedBy(sb, disk, nodes', owner', x) {
      assert OwnedBy(sb, disk, inodes, owner, x);
    }
  }

  ghost function Upto(n: nat): (r: set<nat>)
    ensures forall b: nat :: b in r <==> b < n
  {
    if n == 0 then {} else Upto(n - 1) + {n - 1}
  }

  ghost function Used(sb: Super, owner: Owner): (r: set<nat>) {
    Upto(sb.nmeta) + owner.Keys
  }

  /** The bitmap marks the metadata blocks and exactly the blocks that some slot names,
      each of which is named by one slot only. */
  ghost predicate Consistent(sb: Super, disk: Disk, inodes: seq<Dinode>, owner: Owner) {
    SlotsOk(sb, disk, inodes, owner) && BitsAre(sb, disk, Used(sb, owner))
  }

  ghost predicate Names(sb: Super, disk: Disk, inodes: seq<Dinode>, b: nat, i: nat, k: nat)
    requires NodesOk(sb, disk, inodes)
  {
    i < sb.ninodes && k < NSLOTS && Slot(disk, inodes[i], k) == b
  }

  /** The bitmap marks exactly the metadata blocks and the blocks some inode names, and no
      block is named twice. */
  lemma OwnershipExact(sb: Super, disk: Disk, inodes: seq<Dinode>, owner: Owner, b: nat)
    requires Consistent(sb, disk, inodes, owner) && 0 < b < sb.size
    ensures Bit(sb, disk, b) <==> b < sb.nmeta || exists i: nat, k: nat :: Names(sb, disk, inodes, b, i, k)
    ensures forall i: nat, k: nat, j: nat, l: nat ::
      Names(sb, disk, inodes, b, i, k) && Names(sb, disk, inodes, b, j, l) ==> i == j && k == l
  {
    hide Bit, Slot;
    if b in owner {
      assert OwnedBy(sb, disk, inodes, owner, b);
      assert Names(sb, disk, inodes, b, owner[b].0, owner[b].1);
    }
    forall i: nat, k: nat | Names(sb, disk, inodes, b, i, k) ensures b in owner && owner[b] == (i, k) {
      assert SlotOwns(sb, disk, inodes, owner, i, k);
    }
  }

  /** Inode i gained blocks: other inodes, every block owned before (except the entries
      of i's indirect block) and the inode table on disk are as they were. */
  ghost predicate Grown(sb: Super, disk0: Disk, inodes0: seq<Dinode>, owner0: Owner,
                        disk: Disk, inodes: seq<Dinode>, owner: Owner, i: nat)
  {
    && sb.Ok() && |disk0| == |disk| == sb.size && |inodes0| == |inodes| == sb.ninodes && i < sb.ninodes
    && inodes == inodes0[i := inodes0[i].(addrs := inodes[i].addrs)]
    && (forall b :: b in owner0 ==> b in owner && owner[b] == owner0[b])
    && (forall b :: b in owner0 && owner0[b] != (i, NDIRECT) ==> b < sb.size && disk[b] == disk0[b])
    && (forall x :: sb.inodestart <= x < sb.bmapstart ==> disk[x] == disk0[x])
  }

  lemma GrownTwice(sb: Super, disk0: Disk, inodes0: seq<Dinode>, owner0: Owner,
                   disk1: Disk, inodes1: seq<Dinode>, owner1: Owner,
                   disk: Disk, inodes: seq<Dinode>, owner: Owner, i: nat)
    requires Grown(sb, disk0, inodes0, owner0, disk1, inodes1, owner1, i)
    requires Grown(sb, disk1, inodes1, owner1, disk, inodes, owner, i)
    ensures Grown(sb, disk0, inodes0, owner0, disk, inodes, owner, i)
  {
  }

  /** Marking and zeroing a free block keeps all slots; the block is then set aside. */
  lemma Allocated(sb: Super, disk: Disk, inodes: seq<Dinode>, owner: Owner, b: nat)
    requires Consistent(sb, disk, inodes, owner) && b < sb.size && !Bit(sb, disk, b)
    ensures b !in owner && sb.nmeta <= b
    ensures var disk' := SetBit(sb, disk, b, true)[b := ZERO];
      SlotsOk(sb, disk', inodes, owner) && BitsAre(sb, disk', Used(sb, owner) + {b})
  {
    hide Bit, SlotOwns, Word;
    var disk1 := SetBit(sb, disk, b, true);
    var disk' := disk1[b := ZERO];
    BitsSet(sb, disk, Used(sb, owner), b, true);
    BitsFrame(sb, disk1, disk', Used(sb, owner) + {b});
    forall x | x in owner && owner[x].1 == NDIRECT ensures x < sb.size && disk'[x] == disk[x] {
      assert OwnedBy(sb, disk, inodes, owner, x);
    }
    SlotsFrame(sb, disk, disk', inodes, owner);
  }

  /** Allocating some other block does not change an entry of an indirect block. */
  lemma EntryStill(sb: Super, disk: Disk, disk': Disk, inodes: seq<Dinode>, owner: Owner, i: nat, j: nat)
    requires SlotsOk(sb, disk, inodes, owner) && i < sb.ninodes && j < NINDIRECT && |disk'| == sb.size
    requires forall b :: b in owner ==> b < sb.size && disk'[b] == disk[b]
    ensures Slot(disk', inodes[i], NDIRECT + 1 + j) == Slot(disk, inodes[i], NDIRECT + 1 + j)
  {
    if inodes[i].addrs[NDIRECT] != 0 { IndirectOwned(sb, disk, inodes, owner, i); }
  }

  ghost predicate Full(sb: Super, disk: Disk) {
    sb.Ok() && |disk| == sb.size && forall x :: 0 <= x < sb.size ==> Bit(sb, disk, x)
  }

  /** What ip->addrs[k] = balloc() does for the free block b. */
  lemma AddrGrows(sb: Super, disk: Disk, inodes: seq<Dinode>, owner: Owner, i: nat, k: nat, b: nat)
    requires Consistent(sb, disk, inodes, owner) && i < sb.ninodes && k <= NDIRECT && inodes[i].addrs[k] == 0
    requires b < sb.size && !Bit(sb, disk, b)
    ensures sb.nmeta <= b && b !in owner
    ensures var disk', nodes', owner' := SetBit(sb, disk, b, true)[b := ZERO], inodes[i := SetAddr(inodes[i], k, b)], owner[b := (i, k)];
      Consistent(sb, disk', nodes', owner') && Grown(sb, disk, inodes, owner, disk', nodes', owner', i)
  {
    hide Bit, ZERO, SlotOwns;
    var disk', owner' := SetBit(sb, disk, b, true)[b := ZERO], owner[b := (i, k)];
    Allocated(sb, disk, inodes, owner, b);
    AddAddr(sb, disk', inodes, owner, i, k, b);
    assert Used(sb, owner') == Used(sb, owner) + {b};
    forall x | x in owner ensures sb.nmeta <= x < sb.size { assert OwnedBy(sb, disk, inodes, owner, x); }
  }

  /** What a[j] = balloc() does for the free block b. */
  lemma EntryGrows(sb: Super, disk: Disk, inodes: seq<Dinode>, owner: Owner, i: nat, j: nat, b: nat)
    requires Consistent(sb, disk, inodes, owner) && i < sb.ninodes && j < NINDIRECT && inodes[i].addrs[NDIRECT] != 0
    requires Slot(disk, inodes[i], NDIRECT + 1 + j) == 0
    requires b < sb.size && !Bit(sb, disk, b)
    ensures sb.nmeta <= b && b !in owner && b != inodes[i].addrs[NDIRECT]
    ensures var a, disk1 := inodes[i].addrs[NDIRECT], SetBit(sb, disk, b, true)[b := ZERO];
      var disk', owner' := disk1[a := SetWord(disk1[a], j, b)], owner[b := (i, NDIRECT + 1 + j)];
      Consistent(sb, disk', inodes, owner') && Grown(sb, disk, inodes, owner, disk', inodes, owner', i)
  {
    hide Bit, ZERO, SlotOwns, Word, SetWord;
    var a, disk1 := inodes[i].addrs[NDIRECT], SetBit(sb, disk, b, true)[b := ZERO];
    var disk', owner' := disk1[a := SetWord(disk1[a], j, b)], owner[b := (i, NDIRECT + 1 + j)];
    IndirectOwned(sb, disk, inodes, owner, i);
    Allocated(sb, disk, inodes, owner, b);
    forall x | x in owner ensures sb.nmeta <= x < sb.size { assert OwnedBy(sb, disk, inodes, owner, x); }
    EntryStill(sb, disk, disk1, inodes, owner, i, j);
    AddEntry(sb, disk1, inodes, owner, i, j, b);
    BitsFrame(sb, disk1, disk', Used(sb, owner) + {b});
    assert Used(sb, owner') == Used(sb, owner) + {b};
  }

  lemma SlotOwned(sb: Super, disk: Disk, inodes: seq<Dinode>, owner: Owner, i: nat, k: nat)
    requires SlotsOk(sb, disk, inodes, owner) && i < sb.ninodes && k < NSLOTS && Slot(disk, inodes[i], k) != 0
    ensures Slot(disk, inodes[i], k) in owner && owner[Slot(disk, inodes[i], k)] == (i, k)
    ensures sb.nmeta <= Slot(disk, inodes[i], k) < sb.size
  {
    assert SlotOwns(sb, disk, inodes, owner, i, k);
    assert OwnedBy(sb, disk, inodes, owner, Slot(disk, inodes[i], k));
  }

  lemma GrownSame(sb: Super, disk: Disk, inodes: seq<Dinode>, owner: Owner, i: nat)
    requires SlotsOk(sb, disk, inodes, owner) && i < sb.ninodes
    ensures Grown(sb, disk, inodes, owner, disk, inodes, owner, i)
  {
    hide Word, SlotOwns;
    forall b | b in owner ensures b < sb.size { assert OwnedBy(sb, disk, inodes, owner, b); }
  }

  lemma GrownOwner(sb: Super, disk0: Disk, inodes0: seq<Dinode>, owner0: Owner,
                   disk: Disk, inodes: seq<Dinode>, owner: Owner, i: nat)
    requires Grown(sb, disk0, inodes0, owner0, disk, inodes, owner, i)
    ensures owner0.Keys <= owner.Keys
  {
  }

  // ----- truncation -----

  /** Slots `done` of inode i have been freed: exactly their bits are cleared, and
      nothing outside the bitmap has changed. */
  ghost predicate Freeing(sb: Super, disk0: Disk, inodes0: seq<Dinode>, owner0: Owner, disk: Disk, i: nat, done: set<nat>) {
    && SlotsOk(sb, disk0, inodes0, owner0) && i < sb.ninodes && |disk| == sb.size
    && (forall x :: 0 <= x < sb.size && !(sb.bmapstart <= x < sb.nmeta) ==> disk[x] == disk0[x])
    && (forall b :: 0 <= b < sb.size ==>
          (Bit(sb, disk, b) <==> b < sb.nmeta || (b in owner0 && !(owner0[b].0 == i && owner0[b].1 in done))))
  }

  lemma FreeSlot(sb: Super, disk0: Disk, inodes0: seq<Dinode>, owner0: Owner, disk: Disk, i: nat, done: set<nat>, k: nat)
    requires Freeing(sb, disk0, inodes0, owner0, disk, i, done) && k < NSLOTS && k !in done
    ensures var b := Slot(disk0, inodes0[i], k);
      if b == 0 then Freeing(sb, disk0, inodes0, owner0, disk, i, done + {k})
      else b < sb.size && Bit(sb, disk, b) && Freeing(sb, disk0, inodes0, owner0, SetBit(sb, disk, b, false), i, done + {k})
  {
    hide Bit, Word, SlotOwns;
    var b := Slot(disk0, inodes0[i], k);
    if b != 0 {
      SlotOwned(sb, disk0, inodes0, owner0, i, k);
      forall x | 0 <= x < sb.size
        ensures Bit(sb, SetBit(sb, disk, b, false), x) <==> x != b && Bit(sb, disk, x)
      {
        SetBitBits(sb, disk, b, false, x);
      }
    }
    forall x | x in owner0 && owner0[x] == (i, k) ensures x == b { assert OwnedBy(sb, disk0, inodes0, owner0, x); }
  }

  lemma FreeDone(sb: Super, disk0: Disk, inodes0: seq<Dinode>, owner0: Owner, disk: Disk, i: nat)
    requires Freeing(sb, disk0, inodes0, owner0, disk, i, Upto(NSLOTS))
    ensures Consistent(sb, disk, inodes0[i := Emptied(inodes0[i])], Without(owner0, i))
    ensures forall x :: 0 <= x < sb.size && !(sb.bmapstart <= x < sb.nmeta) ==> disk[x] == disk0[x]
  {
    hide Bit, Word, SlotOwns, Emptied;
    forall b | b in owner0 ensures sb.nmeta <= b < sb.size && owner0[b].1 in Upto(NSLOTS) {
      assert OwnedBy(sb, disk0, inodes0, owner0, b);
    }
    SlotsFrame(sb, disk0, disk, inodes0, owner0);
    DropNode(sb, disk, inodes0, owner0, i);
  }

  lemma NothingFreed(sb: Super, disk: Disk, inodes: seq<Dinode>, owner: Owner, i: nat)
    requires Consistent(sb, disk, inodes, owner) && i < sb.ninodes
    ensures Freeing(sb, disk, inodes, owner, disk, i, Upto(0))
  {
    hide Bit, Word, SlotOwns, OwnedBy;
  }

  lemma NodeUpdated(sb: Super, disk: Disk, inodes: seq<Dinode>, owner: Owner, i: nat)
    requires Consistent(sb, disk, inodes, owner) && i < sb.ninodes
    ensures Consistent(sb, UpdateNode(sb, disk, i, inodes[i]), inodes, owner)
  {
    hide Bit, PutNode, SlotOwns;
    var disk' := UpdateNode(sb, disk, i, inodes[i]);
    forall b | b in owner ensures sb.nmeta <= b < sb.size { assert OwnedBy(sb, disk, inodes, owner, b); }
    SlotsFrame(sb, disk, disk', inodes, owner);
    BitsFrame(sb, disk, disk', Used(sb, owner));
  }

  /** Without an indirect block the slots from 12 on own nothing. */
  lemma NoIndirect(sb: Super, disk0: Disk, inodes0: seq<Dinode>, owner0: Owner, disk: Disk, i: nat)
    requires Freeing(sb, disk0, inodes0, owner0, disk, i, Upto(NDIRECT)) && inodes0[i].addrs[NDIRECT] == 0
    ensures Freeing(sb, disk0, inodes0, owner0, disk, i, Upto(NSLOTS))
  {
    hide Bit, Word, SlotOwns;
    forall b | b in owner0 && owner0[b].0 == i ensures owner0[b].1 < NDIRECT {
      assert OwnedBy(sb, disk0, inodes0, owner0, b);
    }
  }
}
