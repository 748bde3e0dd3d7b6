/** The buffer cache's code (bio.c:38-140, memide.c:38-63): scans along the linked list,
    recycling, and moving released buffers to the front. Every method is a step of
    BufMachine and keeps the list linked. */
module BufferCache {
  import opened Basics
  import opened Blocks
  import opened BufRing
  import opened BufMachine

  /** n-1, ..., 1, 0: the list order binit leaves. */
  function Down(n: nat): (r: seq<nat>)
    ensures |r| == n && forall k :: 0 <= k < n ==> r[k] == n - 1 - k
  {
    if n == 0 then [] else [n - 1] + Down(n - 1)
  }

  function Upto(n: nat): (r: seq<nat>)
    ensures |r| == n && forall k :: 0 <= k < n ==> r[k] == k
  {
    if n == 0 then [] else Upto(n - 1) + [n - 1]
  }

  function NoRefs(n: nat): (r: seq<multiset<nat>>)
    ensures |r| == n && forall k :: 0 <= k < n ==> r[k] == multiset{}
  {
    if n == 0 then [] else NoRefs(n - 1) + [multiset{}]
  }

  const EMPTY: Buf := Buf(0, 0, 0, false, false, None, ZERO)

  lemma DownOrder(s: Cache)
    requires Shape(s) && s.ring == Down(|s.bufs|) && s.stamps == Upto(|s.bufs|) && s.clock == |s.bufs|
    ensures OrderOk(s)
  {
    forall i: nat | i < |s.bufs| ensures i in s.ring { assert s.ring[|s.bufs| - 1 - i] == i; }
    forall j: nat, k: nat | j < k < |s.ring| ensures Newer(s, j, k) {}
  }

  /** Every free buffer is at position k or nearer the front, and the one at k is free. */
  lemma TailOldest(s: Cache, k: nat)
    requires Shape(s) && OrderOk(s) && k < |s.ring| && Free(s.bufs[s.ring[k]])
    requires forall j: nat :: k < j < |s.ring| ==> !Free(s.bufs[s.ring[j]])
    ensures Oldest(s, s.ring[k])
  {
    forall j | 0 <= j < |s.bufs| && Free(s.bufs[j]) ensures s.stamps[s.ring[k]] <= s.stamps[j] {
      var l := PosIn(s.ring, j);
      if l < k { assert Newer(s, l, k); }
    }
  }

  lemma NotOnRing(s: Cache, dev: nat, blockno: nat)
    requires Shape(s) && OrderOk(s)
    requires forall j: nat :: j < |s.ring| ==> !HasKey(s.bufs[s.ring[j]], dev, blockno)
    ensures Uncached(s, dev, blockno)
  {
    forall i | 0 <= i < |s.bufs| ensures !HasKey(s.bufs[i], dev, blockno) { var l := PosIn(s.ring, i); }
  }

  class Bcache {
    const buf: array<Buf>
    const next: array<nat>
    const prev: array<nat>
    const disk: array<Block>

    ghost var ring: seq<nat>
    ghost var stamps: seq<nat>
    ghost var clock: nat
    ghost var refs: seq<multiset<nat>>
    ghost var view: seq<Block>

    ghost function Now(): (s: Cache)
      reads this, buf, disk
    {
      Cache(buf[..], disk[..], ring, stamps, clock, refs, view)
    }

    ghost predicate Wired()
      reads this, next, prev
    {
      && next != prev && buf.Length == NBUF && next.Length == NBUF + 1 && prev.Length == NBUF + 1
      && Linked(next[..], prev[..], ring, NBUF)
    }

    ghost predicate Valid()
      reads this, buf, next, prev, disk
    {
      Wired() && Inv(Now())
    }

    /** The cache as static memory starts out: all zero. */
    ghost predicate Blank()
      reads this, buf, next, prev
    {
      && next != prev && buf.Length == NBUF && next.Length == NBUF + 1 && prev.Length == NBUF + 1
      && (forall i :: 0 <= i < NBUF ==> buf[i] == EMPTY)
      && ring == [] && stamps == Upto(NBUF) && clock == NBUF && refs == NoRefs(NBUF)
    }

    constructor (contents: seq<Block>)
      ensures Blank() && disk[..] == contents == view
      ensures fresh(buf) && fresh(next) && fresh(prev) && fresh(disk)
    {
      buf := new Buf[NBUF](_ => EMPTY);
      next := new nat[NBUF + 1](_ => 0);
      prev := new nat[NBUF + 1](_ => 0);
      disk := new Block[|contents|](i requires 0 <= i < |contents| => contents[i]);
      ring, stamps, clock, refs, view := [], Upto(NBUF), NBUF, NoRefs(NBUF), contents;
    }

    /** Puts node b, which is not on the list, behind the head. */
    method LinkFront(b: nat)
      requires next != prev && Linked(next[..], prev[..], ring, NBUF) && b < next.Length && b != NBUF && b !in ring
      modifies next, prev, this`ring
      ensures ring == [b] + old(ring) && Linked(next[..], prev[..], ring, NBUF)
    {
      hide Linked;
      Push(next[..], prev[..], ring, NBUF, b);
      ghost var nx: seq<nat>, pv: seq<nat> := next[..], prev[..];
      assert next.Length == prev.Length && NBUF < next.Length by { LinkedSize(nx, pv, ring); }
      var first := next[NBUF];
      next[b] := first;
      prev[b] := NBUF;
      prev[first] := b;
      next[NBUF] := b;
      assert next[..] == nx[b := first][NBUF := b] && prev[..] == pv[b := NBUF][first := b];
      ring := [b] + ring;
    }

    /** binit: all buffers on the list, none in use. */
    method Binit()
      requires Blank() && view == disk[..]
      modifies next, prev, this`ring
      ensures Valid() && Init(Now())
    {
      hide Linked, OrderOk;
      next[NBUF] := NBUF;
      prev[NBUF] := NBUF;
      EmptyRing(next[..], prev[..]);
      var b: nat := 0;
      while b < NBUF
        invariant b <= NBUF && ring == Down(b) && Linked(next[..], prev[..], ring, NBUF)
      {
        LinkFront(b);
        b := b + 1;
      }
      DownOrder(Now());
      InitInv(Now());
    }

    /** The first scan of bget: the buffer for a block, if cached. */
    method FindCached(dev: nat, blockno: nat) returns (r: Option<nat>)
      requires Valid()
      ensures r.None? ==> Uncached(Now(), dev, blockno)
      ensures r.Some? ==> r.value < NBUF && HasKey(buf[r.value], dev, blockno)
    {
      hide Inv, OrderOk;
      assert OrderOk(Now()) && Shape(Now()) by { InvParts(Now()); }
      var b := next[NBUF];
      ghost var k := 0;
      while b != NBUF
        invariant k <= NBUF && b == (if k < NBUF then ring[k] else NBUF)
        invariant forall j: nat :: j < k ==> ring[j] < NBUF && !HasKey(buf[ring[j]], dev, blockno)
        decreases NBUF - k
      {
        RingEntry(k);
        if buf[b].dev == dev && buf[b].blockno == blockno { return Some(b); }
        b := next[b];
        k := k + 1;
      }
      if k < NBUF { RingEntry(k); }
      NotOnRing(Now(), dev, blockno);
      return None;
    }

    /** The second scan of bget, from the other end: the oldest free buffer. */
    method FindOldest() returns (r: Option<nat>)
      requires Valid()
      ensures Shape(Now())
      ensures r.None? ==> forall i :: 0 <= i < NBUF ==> !Free(buf[i])
      ensures r.Some? ==> Oldest(Now(), r.value)
    {
      hide Inv, OrderOk;
      assert OrderOk(Now()) && Shape(Now()) by { InvParts(Now()); }
      var b := prev[NBUF];
      ghost var k := NBUF;
      while b != NBUF
        invariant k <= NBUF && b == (if k > 0 then ring[k-1] else NBUF)
        invariant forall j: nat :: k <= j < NBUF ==> ring[j] < NBUF && !Free(buf[ring[j]])
        decreases k
      {
        RingEntry(k - 1);
        if buf[b].refcnt == 0 && !buf[b].dirty {
          TailOldest(Now(), k - 1);
          return Some(b);
        }
        b := prev[b];
        k := k - 1;
      }
      if k > 0 { RingEntry(k - 1); }
      NoneFree(Now());
      return None;
    }

    /** bget up to acquiresleep: a reference to the buffer for the block, found or recycled;
        None is the panic when every buffer is in use. */
    method BgetRef(p: nat, dev: nat, blockno: nat) returns (r: Option<nat>)
      requires Valid()
      modifies buf, this`refs
      ensures Valid()
      ensures r.None? ==> Now() == old(Now()) && Uncached(Now(), dev, blockno) && forall i :: 0 <= i < NBUF ==> !Free(buf[i])
      ensures r.Some? ==>
        var a := if old(Uncached(Now(), dev, blockno)) then Miss(p, r.value, dev, blockno) else Hit(p, r.value, dev, blockno);
        Step(old(Now()), a, Now())
    {
      hide Inv, OrderOk, Linked, Oldest;
      ghost var s := Now();
      assert Shape(s) by { InvParts(s); }
      r := FindCached(dev, blockno);
      if r.Some? {
        var i := r.value;
        InvStep(s, Hit(p, i, dev, blockno));
        buf[i] := buf[i].(refcnt := buf[i].refcnt + 1);
        refs := refs[i := refs[i] + multiset{p}];
        assert Now() == Taken(s, p, i);
        return;
      }
      r := FindOldest();
      if r.Some? {
        var i := r.value;
        assert i < NBUF by { OldestIn(s, i); }
        InvStep(s, Miss(p, i, dev, blockno));
        buf[i] := buf[i].(dev := dev, blockno := blockno, valid := false, dirty := false, refcnt := 1);
        refs := refs[i := multiset{p}];
        assert Now() == Recycled(s, p, i, dev, blockno);
      }
    }

    /** acquiresleep once the buffer's lock is free. */
    method AcquireSleep(p: nat, i: nat)
      requires Valid() && i < NBUF && Shape(Now()) && p in refs[i] && buf[i].holder.None?
      modifies buf
      ensures Valid() && Step(old(Now()), Lock(p, i), Now())
    {
      hide Inv, OrderOk, Linked;
      ghost var s := Now();
      InvStep(s, Lock(p, i));
      buf[i] := buf[i].(holder := Some(p));
      assert Now() == Put(s, i, s.bufs[i].(holder := Some(p)));
    }

    /** holdingsleep: whether anybody holds the buffer's lock. */
    predicate HoldingSleep(i: nat)
      requires i < buf.Length
      reads buf
    {
      buf[i].holder.Some?
    }

    /** iderw: false stands for its panics. */
    method Iderw(i: nat) returns (ok: bool)
      requires i < buf.Length
      modifies buf, disk
      ensures ok <==> old(HoldingSleep(i) && (!buf[i].valid || buf[i].dirty) && buf[i].dev == 1 && buf[i].blockno < disk.Length)
      ensures !ok ==> buf[..] == old(buf[..]) && disk[..] == old(disk[..])
      ensures ok && old(buf[i].dirty) ==>
        && buf[..] == old(buf[..])[i := old(buf[i]).(dirty := false, valid := true)]
        && disk[..] == old(disk[..])[old(buf[i].blockno) := old(buf[i].data)]
      ensures ok && !old(buf[i].dirty) ==>
        && buf[..] == old(buf[..])[i := old(buf[i]).(data := old(disk[buf[i].blockno]), valid := true)]
        && disk[..] == old(disk[..])
    {
      var b := buf[i];
      if !HoldingSleep(i) { return false; }
      if b.valid && !b.dirty { return false; }
      if b.dev != 1 { return false; }
      if b.blockno >= disk.Length { return false; }
      if b.dirty {
        b := b.(dirty := false);
        disk[b.blockno] := b.data;
      } else {
        b := b.(data := disk[b.blockno]);
      }
      buf[i] := b.(valid := true);
      return true;
    }

    /** bread after bget: the holder reads the block in unless it is cached. */
    method ReadIn(p: nat, i: nat) returns (ok: bool)
      requires Valid() && i < NBUF && buf[i].holder == Some(p)
      modifies buf, disk
      ensures ok ==> Valid() && buf[i].valid
      ensures old(buf[i].valid) ==> ok && Now() == old(Now())
      ensures !old(buf[i].valid) ==>
        && (ok <==> old(Shape(Now()) && Addressable(Now(), buf[i])))
        && (ok ==> Step(old(Now()), Fill(p, i), Now()))
    {
      hide Inv, OrderOk, Linked;
      ghost var s := Now();
      assert Shape(s) && (s.bufs[i].dirty ==> s.bufs[i].valid) by { DirtyValid(s, i); }
      ok := true;
      if !buf[i].valid {
        ok := Iderw(i);
        if ok {
          InvStep(s, Fill(p, i));
          assert Now() == Put(s, i, s.bufs[i].(data := s.disk[s.bufs[i].blockno], valid := true));
        }
      }
    }

    /** The holder changes its copy of the block. */
    method Edit(p: nat, i: nat, data: Block)
      requires Valid() && i < NBUF && buf[i].holder == Some(p)
      modifies buf
      ensures Valid() && Step(old(Now()), Action.Edit(p, i, data), Now())
    {
      hide Inv, OrderOk, Linked;
      ghost var s := Now();
      assert Shape(s) by { InvParts(s); }
      InvStep(s, Action.Edit(p, i, data));
      buf[i] := buf[i].(data := data);
      assert Now() == Put(s, i, s.bufs[i].(data := data));
    }

    /** log_write's pinning of a buffer the holder has read. */
    method Pin(p: nat, i: nat)
      requires Valid() && i < NBUF && buf[i].holder == Some(p) && buf[i].valid
      modifies buf, this`view
      ensures Valid() && Step(old(Now()), Log(p, i), Now())
    {
      hide Inv, OrderOk, Linked;
      ghost var s := Now();
      assert Shape(s) && Addressable(s, s.bufs[i]) by { DirtyValid(s, i); }
      InvStep(s, Log(p, i));
      buf[i] := buf[i].(dirty := true);
      view := view[s.bufs[i].blockno := s.bufs[i].data];
      assert Now() == Put(s, i, s.bufs[i].(dirty := true)).(view := view);
    }

    /** bwrite, called by any process; false stands for a panic. Whoever calls it, it writes
        the copy of the process that holds the lock. */
    method Bwrite(i: nat) returns (ok: bool)
      requires Valid() && i < NBUF
      modifies buf, disk, this`view
      ensures ok <==> old(HoldingSleep(i) && buf[i].dev == 1 && buf[i].blockno < disk.Length)
      ensures ok ==> Valid() && Step(old(Now()), Write(old(buf[i].holder).value, i), Now())
    {
      hide Inv, OrderOk, Linked;
      ghost var s := Now();
      assert Shape(s) by { InvParts(s); }
      if !HoldingSleep(i) { return false; }
      ghost var q := buf[i].holder.value;
      buf[i] := buf[i].(dirty := true);
      ok := Iderw(i);
      if ok {
        var k := buf[i].blockno;
        view := view[k := buf[i].data];
        InvStep(s, Write(q, i));
        assert buf[..] == s.bufs[i := s.bufs[i].(dirty := false, valid := true)];
        assert Now() == Put(s, i, s.bufs[i].(dirty := false, valid := true)).(disk := disk[..], view := view);
      }
    }

    /** Takes the buffer at position k of the list out of it. */
    method UnlinkAt(b: nat, ghost k: nat)
      requires next != prev && Linked(next[..], prev[..], ring, NBUF) && k < |ring| && ring[k] == b
      modifies next, prev, this`ring
      ensures ring == Removed(old(ring), k) && Linked(next[..], prev[..], ring, NBUF)
    {
      hide Linked;
      Unlink(next[..], prev[..], ring, NBUF, k);
      ghost var nx: seq<nat>, pv: seq<nat> := next[..], prev[..];
      assert next.Length == prev.Length by { LinkedSize(nx, pv, ring); }
      var n, p := next[b], prev[b];
      prev[n] := p;
      next[p] := n;
      assert next[..] == nx[p := n] && prev[..] == pv[n := p];
      ring := Removed(ring, k);
    }

    /** The last release moves the buffer to the front of the list. */
    method MoveToFront(i: nat)
      requires Wired() && i in ring && i < NBUF
      modifies next, prev, this`ring
      ensures Wired() && ring == ToFront(old(ring), PosIn(old(ring), i))
    {
      hide Linked, PosIn;
      ghost var k := PosIn(ring, i);
      assert i !in Removed(ring, k) by { LinkedDrop(next[..], prev[..], ring, k); }
      UnlinkAt(i, k);
      LinkFront(i);
    }

    /** The second half of brelse, under bcache.lock. */
    method CountDown(i: nat)
      requires Wired() && Shape(Now()) && i < NBUF && i in ring && buf[i].refcnt > 0
      modifies buf, next, prev, this`ring, this`stamps, this`clock
      ensures Wired() && Now() == Uncounted(old(Now()), i)
    {
      hide Linked, PosIn, ToFront;
      ghost var s := Now();
      buf[i] := buf[i].(refcnt := buf[i].refcnt - 1);
      if buf[i].refcnt == 0 {
        MoveToFront(i);
        stamps, clock := stamps[i := clock], clock + 1;
      }
      assert buf[..] == s.bufs[i := s.bufs[i].(refcnt := s.bufs[i].refcnt - 1)];
    }

    /** Process p, which no longer holds the lock, gives up its reference. */
    method DropRef(ghost p: nat, i: nat)
      requires Valid() && i < NBUF && Shape(Now()) && p in refs[i] && buf[i].holder != Some(p)
      modifies buf, next, prev, this
      ensures Valid() && Step(old(Now()), Drop(p, i), Now())
    {
      hide Inv, OrderOk, Linked, Uncounted;
      ghost var s := Now();
      RefOnRing(s, p, i);
      InvStep(s, Drop(p, i));
      CountDown(i);
      refs := refs[i := refs[i] - multiset{p}];
      assert Now() == Dropped(s, p, i) by { SameRefs(s, i); }
    }

    /** brelse, called by process p; false stands for its panic. A holder has logged or
        written its changes, and for it brelse is the two steps of the machine, with mid in
        between, where other processes may come in. Called by any other process while the
        lock is held, it takes the lock from its holder and counts one reference too few. */
    method Brelse(ghost p: nat, i: nat) returns (ok: bool, ghost mid: Cache)
      requires Valid() && i < NBUF && Shape(Now())
      requires buf[i].holder == Some(p) ==> Settled(Now(), buf[i])
      modifies buf, next, prev, this
      ensures ok <==> old(HoldingSleep(i))
      ensures !ok ==> Now() == old(Now())
      ensures Wired() && (Valid() <==> !ok || old(buf[i].holder) == Some(p))
      ensures ok && old(buf[i].holder) == Some(p) ==> Step(old(Now()), Unlock(p, i), mid) && Step(mid, Drop(p, i), Now())
      ensures ok && old(buf[i].holder) != Some(p) ==>
        buf[i].holder.None? && refs == old(refs) && i < |refs| && buf[i].refcnt + 1 == |refs[i]|
    {
      hide Inv, OrderOk, Linked;
      ghost var s := Now();
      mid := s;
      if !HoldingSleep(i) { return false, s; }
      ghost var q := buf[i].holder.value;
      HolderRefs(s, q, i);
      RefOnRing(s, q, i);
      buf[i] := buf[i].(holder := None);
      mid := Now();
      assert mid == Put(s, i, s.bufs[i].(holder := None));
      CountDown(i);
      if q == p {
        refs := refs[i := refs[i] - multiset{p}];
        Released(s, mid, Now(), p, i);
      } else {
        Miscounted(s, mid, Now(), i);
      }
      return true, mid;
    }

    ghost predicate Listed()
      reads this, buf, next, prev, disk
    {
      Wired() && Shape(Now()) && OrderOk(Now())
    }

    lemma RingEntry(k: nat)
      requires Listed() && k < NBUF
      ensures ring[k] < NBUF && next[ring[k]] == (if k + 1 < NBUF then ring[k+1] else NBUF)
      ensures prev[ring[k]] == (if k > 0 then ring[k-1] else NBUF)
    {
      assert LinkAt(next[..], prev[..], ring, NBUF, k);
    }
  }

  lemma LinkedSize(next: seq<nat>, prev: seq<nat>, ring: seq<nat>)
    requires Linked(next, prev, ring, NBUF)
    ensures |next| == |prev| && NBUF < |next|
  {
  }

  lemma EmptyRing(next: seq<nat>, prev: seq<nat>)
    requires |next| == |prev| && NBUF < |next| && next[NBUF] == NBUF && prev[NBUF] == NBUF
    ensures Linked(next, prev, [], NBUF)
  {
  }

  lemma NoneFree(s: Cache)
    requires Shape(s) && OrderOk(s) && forall j: nat :: j < |s.ring| ==> !Free(s.bufs[s.ring[j]])
    ensures forall i :: 0 <= i < |s.bufs| ==> !Free(s.bufs[i])
  {
    forall i | 0 <= i < |s.bufs| ensures !Free(s.bufs[i]) { var l := PosIn(s.ring, i); }
  }

  lemma OldestIn(s: Cache, i: nat)
    requires Shape(s) && Oldest(s, i)
    ensures i < |s.bufs|
  {
  }

  lemma DirtyValid(s: Cache, i: nat)
    requires Inv(s) && i < |s.bufs|
    ensures Shape(s) && (s.bufs[i].dirty ==> s.bufs[i].valid) && (s.bufs[i].valid ==> Addressable(s, s.bufs[i]))
  {
    assert DataOk(s, i);
  }

  lemma LinkedDrop(next: seq<nat>, prev: seq<nat>, ring: seq<nat>, k: nat)
    requires Linked(next, prev, ring, NBUF) && k < |ring|
    ensures ring[k] !in Removed(ring, k)
  {
    NoDupDrop(ring, k);
  }

  lemma RefOnRing(s: Cache, p: nat, i: nat)
    requires Inv(s) && i < |s.bufs| && p in s.refs[i]
    ensures Shape(s) && i in s.ring && s.bufs[i].refcnt > 0
  {
    assert RefOk(s, i);
    assert s.refs[i] != multiset{};
  }

  lemma SameRefs(s: Cache, i: nat)
    requires Shape(s) && i < |s.bufs| && s.bufs[i].refcnt > 0 && i in s.ring
    ensures Uncounted(s, i).refs == s.refs && Uncounted(s, i).view == s.view && Uncounted(s, i).disk == s.disk
  {
  }

  /** brelse by the holder is the two steps of the machine. */
  lemma Released(s: Cache, mid: Cache, s': Cache, p: nat, i: nat)
    requires Inv(s) && i < |s.bufs| && s.bufs[i].holder == Some(p) && Settled(s, s.bufs[i])
    requires p in s.refs[i] && i in s.ring && s.bufs[i].refcnt > 0
    requires mid == Put(s, i, s.bufs[i].(holder := None))
    requires s' == Uncounted(mid, i).(refs := s.refs[i := s.refs[i] - multiset{p}])
    ensures Step(s, Unlock(p, i), mid) && Step(mid, Drop(p, i), s') && Inv(s')
  {
    InvParts(s);
    hide Inv, Uncounted;
    InvStep(s, Unlock(p, i));
    InvStep(mid, Drop(p, i));
  }

  /** brelse by another process leaves one reference uncounted. */
  lemma Miscounted(s: Cache, mid: Cache, s': Cache, i: nat)
    requires Inv(s) && i < |s.bufs| && i in s.ring && s.bufs[i].refcnt > 0
    requires mid == Put(s, i, s.bufs[i].(holder := None)) && s' == Uncounted(mid, i)
    ensures |s'.refs| == |s.refs| && s'.refs == s.refs && s'.bufs[i].holder.None? && s'.bufs[i].refcnt + 1 == |s'.refs[i]|
    ensures !Inv(s')
  {
    assert RefOk(s, i);
    hide PosIn, ToFront, OrderOk, KeysOk, SyncOk;
    assert Shape(s') ==> !RefOk(s', i);
  }

  lemma HolderRefs(s: Cache, p: nat, i: nat)
    requires Inv(s) && i < |s.bufs| && s.bufs[i].holder == Some(p)
    ensures p in s.refs[i]
  {
    assert RefOk(s, i);
  }

  lemma InvParts(s: Cache)
    requires Inv(s)
    ensures Shape(s) && OrderOk(s)
  {
  }

  lemma NewMiss(s: Cache, p: nat, i: nat, dev: nat, blockno: nat, s': Cache)
    requires Init(s) && dev > 0 && Step(s, Miss(p, i, dev, blockno), s')
    ensures Shape(s') && i < |s'.bufs| && s'.bufs[i].holder.None? && s'.refs[i] == multiset{p}
  {
    hide OrderOk, Oldest;
  }

  /** Process 2 gives back the buffer that process 1 holds: the lock is gone, the buffer
      counts as free, and process 1 still has its reference. */
  method StolenRelease() returns (c: Bcache, i: nat)
    ensures i < NBUF == c.buf.Length && |c.refs| == NBUF && !c.Valid()
    ensures c.buf[i].holder.None? && c.buf[i].refcnt == 0 && 1 in c.refs[i]
  {
    hide Inv, OrderOk, Linked, Oldest;
    c := new Bcache([ZERO]);
    c.Binit();
    ghost var s := c.Now();
    var r := c.BgetRef(1, 1, 0);
    assert Free(s.bufs[0]) && Uncached(s, 1, 0);
    i := r.value;
    NewMiss(s, 1, i, 1, 0, c.Now());
    c.AcquireSleep(1, i);
    var ok, _ := c.Brelse(2, i);
  }
}
