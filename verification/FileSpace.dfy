/** How many blocks a write allocates, and when the disk has them. */
module FileSpace {
  import opened Basics
  import opened Blocks
  import opened FsLayout
  import opened FileMap
  import opened FileContent

  /** The slots of inode i that name a block. */
  ghost function Has(owner: Owner, i: nat): (r: set<nat>) { set b | b in owner && owner[b].0 == i :: owner[b].1 }

  /** The slots bmap looks at for block bn of a file. */
  function Needs(bn: nat): (r: set<nat>) { {SlotOf(bn)} + if bn < NDIRECT then {} else {NDIRECT} }

  /** Inode i gained blocks for slots among want, one each, and no other block changed hands. */
  ghost predicate Supplied(owner0: Owner, owner: Owner, i: nat, want: set<nat>) {
    && Has(owner0, i) <= Has(owner, i) <= Has(owner0, i) + want
    && |owner| + |Has(owner0, i)| == |owner0| + |Has(owner, i)|
  }

  lemma SupplyNone(owner: Owner, i: nat, want: set<nat>)
    ensures Supplied(owner, owner, i, want)
  {
  }

  lemma HasMore(owner: Owner, i: nat, k: nat, b: nat)
    requires b !in owner
    ensures Has(owner[b := (i, k)], i) == Has(owner, i) + {k}
  {
    var owner' := owner[b := (i, k)];
    assert owner'[b].0 == i && owner'[b].1 == k;
    forall x: nat ensures x in Has(owner', i) <==> x in Has(owner, i) + {k} {
      if c :| c in owner && owner[c].0 == i && owner[c].1 == x {
        assert owner'[c].0 == i && owner'[c].1 == x;
      }
    }
  }

  lemma SupplyOne(owner: Owner, i: nat, k: nat, b: nat, want: set<nat>)
    requires b !in owner && k !in Has(owner, i) && k in want
    ensures Supplied(owner, owner[b := (i, k)], i, want)
  {
    hide Has;
    HasMore(owner, i, k, b);
  }

  lemma SupplyTwice(owner0: Owner, owner1: Owner, owner: Owner, i: nat, some: set<nat>, more: set<nat>, want: set<nat>)
    requires Supplied(owner0, owner1, i, some) && Supplied(owner1, owner, i, more) && some <= want && more <= want
    ensures Supplied(owner0, owner, i, want) && Has(owner1, i) <= Has(owner, i)
  {
    hide Has;
  }

  lemma HasSlot(sb: Super, disk: Disk, inodes: seq<Dinode>, owner: Owner, i: nat, k: nat)
    requires SlotsOk(sb, disk, inodes, owner) && i < sb.ninodes && k < NSLOTS
    ensures k in Has(owner, i) <==> Slot(disk, inodes[i], k) != 0
  {
    hide Slot;
    assert SlotOwns(sb, disk, inodes, owner, i, k);
    if k in Has(owner, i) {
      var b :| b in owner && owner[b].0 == i && owner[b].1 == k;
      assert OwnedBy(sb, disk, inodes, owner, b);
    }
  }

  /** Once bmap has returned, the slots it looked at name blocks. */
  lemma MappedHas(sb: Super, s0: Snap, l0: set<nat>, s: Snap, l: set<nat>, i: nat, bn: nat, b: nat, bm: set<nat>)
    requires Mapped(sb, s0, l0, s, l, i, bn, b, bm)
    ensures Needs(bn) <= Has(s.owner, i)
  {
    hide Slot, SlotOwns, OwnedBy, Grown, BitsAre;
    if bn >= NDIRECT { IndirectOwned(sb, s.disk, s.inodes, s.owner, i); }
  }

  /** Slot k is looked at when n bytes from off on are written. */
  predicate WantedAt(off: nat, n: nat, k: nat) {
    && 0 < n
    && var last := (off + n - 1) / BSIZE;
    && if k == NDIRECT then last >= NDIRECT else off / BSIZE <= (if k < NDIRECT then k else k - 1) <= last
  }

  ghost function Wanted(off: nat, n: nat): (r: set<nat>) { set k: nat | k < NSLOTS && WantedAt(off, n, k) }

  lemma NeedsWanted(off: nat, tot: nat, n: nat)
    requires tot < n && off + n <= MAXFILE * BSIZE
    ensures Needs((off + tot) / BSIZE) <= Wanted(off, n) && SlotOf((off + tot) / BSIZE) in Wanted(off, n)
  {
    var bn := (off + tot) / BSIZE;
    assert off / BSIZE <= bn <= (off + n - 1) / BSIZE < MAXFILE;
  }

  /** Copying m more bytes, up to the end of a block, looks at no other slots. */
  lemma WantedMore(off: nat, tot: nat, m: nat)
    requires 0 < m && (tot == 0 || (off + tot) % BSIZE == 0) && (off + tot) % BSIZE + m <= BSIZE
    ensures Wanted(off, tot + m) <= Wanted(off, tot) + Needs((off + tot) / BSIZE)
  {
    var bn := (off + tot) / BSIZE;
    assert (off + tot + m - 1) / BSIZE == bn;
    assert 0 < tot ==> (off + tot - 1) / BSIZE == bn - 1;
  }

  /** Of a write of n bytes, tot are copied: their slots name blocks, and only slots of the
      n bytes were filled. */
  ghost predicate Served(owner0: Owner, owner: Owner, i: nat, off: nat, tot: nat, n: nat) {
    Supplied(owner0, owner, i, Wanted(off, n)) && Wanted(off, tot) <= Has(owner, i)
  }

  lemma ServeNone(owner: Owner, i: nat, off: nat, n: nat)
    ensures Served(owner, owner, i, off, 0, n)
  {
    assert Wanted(off, 0) == {};
  }

  lemma ServeMore(owner0: Owner, owner1: Owner, owner: Owner, i: nat, off: nat, tot: nat, n: nat)
    requires Served(owner0, owner1, i, off, tot, n) && tot < n && off + n <= MAXFILE * BSIZE
    requires Supplied(owner1, owner, i, Needs((off + tot) / BSIZE))
    ensures Served(owner0, owner, i, off, tot, n)
  {
    NeedsWanted(off, tot, n);
    hide Has, Wanted, Needs;
    SupplyTwice(owner0, owner1, owner, i, Wanted(off, n), Needs((off + tot) / BSIZE), Wanted(off, n));
  }

  lemma ServeBlock(owner0: Owner, owner: Owner, i: nat, off: nat, tot: nat, m: nat, n: nat)
    requires Served(owner0, owner, i, off, tot, n) && Needs((off + tot) / BSIZE) <= Has(owner, i)
    requires 0 < m && (tot == 0 || (off + tot) % BSIZE == 0) && (off + tot) % BSIZE + m <= BSIZE
    ensures Served(owner0, owner, i, off, tot + m, n)
  {
    hide Has, Wanted, Needs;
    WantedMore(off, tot, m);
  }

  lemma AllServed(owner0: Owner, owner: Owner, i: nat, off: nat, n: nat)
    requires Served(owner0, owner, i, off, n, n)
    ensures Supplied(owner0, owner, i, Wanted(off, n)) && Wanted(off, n) <= Has(owner, i)
  {
  }

  lemma Unserved(owner0: Owner, owner: Owner, i: nat, off: nat, tot: nat, n: nat)
    requires Served(owner0, owner, i, off, tot, n) && tot < n && off + n <= MAXFILE * BSIZE
    requires SlotOf((off + tot) / BSIZE) !in Has(owner, i)
    ensures Supplied(owner0, owner, i, Wanted(off, n)) && !(Wanted(off, n) <= Has(owner, i))
  {
    NeedsWanted(off, tot, n);
  }

  ghost function FreeBlocks(sb: Super, disk: Disk): (r: set<nat>)
    requires sb.Ok() && |disk| == sb.size
  {
    set b: nat | b < sb.size && !Bit(sb, disk, b)
  }

  /** The slots of inode i that a write would have to fill. */
  ghost function Missing(disk: Disk, d: Dinode, off: nat, n: nat): (r: set<nat>)
    requires NodeOk(d) && d.addrs[NDIRECT] < |disk|
  {
    set k: nat | k < NSLOTS && WantedAt(off, n, k) && Slot(disk, d, k) == 0
  }

  lemma {:induction false} UptoSize(n: nat)
    ensures |Upto(n)| == n
  {
    if n > 0 { UptoSize(n - 1); }
  }

  lemma FreeCount(sb: Super, disk: Disk, inodes: seq<Dinode>, owner: Owner)
    requires Consistent(sb, disk, inodes, owner)
    ensures |FreeBlocks(sb, disk)| + sb.nmeta + |owner| == sb.size
  {
    hide Bit, SlotOwns, Slot, FreeBlocks, Upto;
    forall b | b in owner ensures sb.nmeta <= b < sb.size { assert OwnedBy(sb, disk, inodes, owner, b); }
    FreeRest(sb, disk, Used(sb, owner));
    hide SlotsOk, BitsAre;
    assert |Used(sb, owner)| == |Upto(sb.nmeta)| + |owner.Keys| by { assert Upto(sb.nmeta) !! owner.Keys; }
    UptoSize(sb.nmeta);
  }

  lemma FreeRest(sb: Super, disk: Disk, used: set<nat>)
    requires sb.Ok() && |disk| == sb.size && BitsAre(sb, disk, used) && used <= Upto(sb.size)
    ensures |FreeBlocks(sb, disk)| + |used| == sb.size
  {
    hide Bit;
    UptoSize(sb.size);
    assert FreeBlocks(sb, disk) !! used;
    assert FreeBlocks(sb, disk) + used == Upto(sb.size);
    hide BitsAre, FreeBlocks, Upto;
    assert |FreeBlocks(sb, disk) + used| == |FreeBlocks(sb, disk)| + |used|;
  }

  lemma MissingIs(sb: Super, disk: Disk, inodes: seq<Dinode>, owner: Owner, i: nat, off: nat, n: nat)
    requires SlotsOk(sb, disk, inodes, owner) && i < sb.ninodes
    ensures Missing(disk, inodes[i], off, n) == Wanted(off, n) - Has(owner, i)
  {
    hide Slot, WantedAt, Has, SlotOwns, OwnedBy;
    forall k: nat | k < NSLOTS ensures k in Has(owner, i) <==> Slot(disk, inodes[i], k) != 0 {
      HasSlot(sb, disk, inodes, owner, i, k);
    }
  }

  lemma AllHad(h0: set<nat>, h: set<nat>, w: set<nat>)
    requires h0 <= h <= h0 + w && w <= h
    ensures |h| == |h0| + |w - h0|
  {
    assert h == h0 + (w - h0);
  }

  lemma NotAllHad(h0: set<nat>, h: set<nat>, w: set<nat>, k: nat)
    requires h0 <= h <= h0 + w && k in w && k !in h
    ensures |h| < |h0| + |w - h0|
  {
    var rest := w - h0 - {k};
    Subset(h, h0 + rest);
    assert |h0 + rest| == |h0| + |rest|;
  }

  /** A write that filled slots until it had all it wants or the disk was full: it has them
      all if and only if there were as many free blocks as empty slots. */
  lemma EnoughIff(sb: Super, s0: Snap, s: Snap, i: nat, off: nat, n: nat)
    requires Good(sb, s0) && Good(sb, s) && i < sb.ninodes && Supplied(s0.owner, s.owner, i, Wanted(off, n))
    requires Wanted(off, n) <= Has(s.owner, i) || Full(sb, s.disk)
    ensures Wanted(off, n) <= Has(s.owner, i) <==> |FreeBlocks(sb, s0.disk)| >= |Missing(s0.disk, s0.inodes[i], off, n)|
  {
    MissingIs(sb, s0.disk, s0.inodes, s0.owner, i, off, n);
    FreeCount(sb, s0.disk, s0.inodes, s0.owner);
    FreeCount(sb, s.disk, s.inodes, s.owner);
    assert Full(sb, s.disk) ==> FreeBlocks(sb, s.disk) == {};
    hide Has, Wanted, Missing, FreeBlocks, Consistent, Full;
    var h0, h, w := Has(s0.owner, i), Has(s.owner, i), Wanted(off, n);
    if w <= h {
      AllHad(h0, h, w);
    } else {
      var k :| k in w && k !in h;
      NotAllHad(h0, h, w, k);
    }
  }

  // ----- the chunks of filewrite -----

  /** How many of n bytes at off the chunks that writei accepts have, in a file of the given
      size: none past the end, and none in or after the chunk that crosses MAXFILE. */
  function Accepted(size: nat, off: nat, n: nat): (m: nat)
    ensures m <= n
  {
    if off > size then 0
    else if off + n <= MAXFILE * BSIZE then n
    else if off > MAXFILE * BSIZE then 0
    else (MAXFILE * BSIZE - off) / CHUNK * CHUNK
  }

  lemma WholeChunks(m: nat, room: nat, k: nat)
    requires 0 < m && k % m == 0 && k <= room
    ensures if room < k + m then room / m * m == k else room / m * m >= k + m
  {
    var c := k / m;
    assert k == c * m && (c + 1) * m == k + m;
    assert room / m * m > room - m;
    if room < k + m {
      Quotient(m, c, room - k);
    } else if room < k + m + m {
      Quotient(m, c + 1, room - k - m);
    }
  }

  /** The n1 bytes from k on are accepted exactly if they end before Accepted. */
  lemma ChunkAccepted(size: nat, off: nat, n: nat, k: nat, n1: nat)
    requires k % CHUNK == 0 && k < n && n1 == (if n - k > CHUNK then CHUNK else n - k) && off + k <= MAXFILE * BSIZE
    ensures off <= size && off + k + n1 <= MAXFILE * BSIZE ==> k + n1 <= Accepted(size, off, n)
    ensures off <= size && off + k + n1 > MAXFILE * BSIZE ==> Accepted(size, off, n) == k
  {
    WholeChunks(CHUNK, MAXFILE * BSIZE - off, k);
  }

  /** writei refuses a chunk, at which the file has grown to size', only where Accepted says. */
  lemma Refused(size: nat, size': nat, off: nat, n: nat, k: nat, n1: nat)
    requires k % CHUNK == 0 && k < n && n1 == (if n - k > CHUNK then CHUNK else n - k) && size' <= MAXFILE * BSIZE
    requires (off <= size ==> off + k <= size') && (k > 0 ==> off <= size)
    requires off + k > size' || off + k + n1 > MAXFILE * BSIZE
    ensures Accepted(size, off, n) == k
  {
    if off <= size { ChunkAccepted(size, off, n, k, n1); }
  }

  lemma WantedChunk(off: nat, k: nat, n1: nat, m: nat)
    requires k + n1 <= m
    ensures Wanted(off + k, n1) <= Wanted(off, m)
    ensures Wanted(off, k + n1) <= Wanted(off, k) + Wanted(off + k, n1)
  {
  }

  lemma ServeChunk(owner0: Owner, owner1: Owner, owner: Owner, i: nat, off: nat, k: nat, n1: nat, m: nat)
    requires Served(owner0, owner1, i, off, k, m) && Supplied(owner1, owner, i, Wanted(off + k, n1)) && k + n1 <= m
    ensures Supplied(owner0, owner, i, Wanted(off, m))
    ensures if Wanted(off + k, n1) <= Has(owner, i) then Served(owner0, owner, i, off, k + n1, m)
            else !(Wanted(off, m) <= Has(owner, i))
  {
    WantedChunk(off, k, n1, m);
    hide Has, Wanted;
    SupplyTwice(owner0, owner1, owner, i, Wanted(off, m), Wanted(off + k, n1), Wanted(off, m));
  }
}
