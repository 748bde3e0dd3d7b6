/** malloc, free and morecore as code, over the heap of module Malloc. */
module Allocator {
  import opened Basics
  import opened Malloc

  /** Fault: sbrk was asked for a number of bytes that is zero or negative as an int, so
      the header is written to memory the process does not have. */
  datatype Result = Null | Ptr(ap: nat) | Fault

  /** Units for nbytes of payload and a header, in the source's 32-bit arithmetic. */
  function NUnits(nbytes: nat): (n: nat)
    requires nbytes < TWO32
    ensures 1 <= n <= 0x2000_0000
  {
    (nbytes + 8 - 1) % TWO32 / 8 + 1
  }

  /** The block holds nbytes exactly when the rounding does not overflow, and then wastes
      less than one unit; otherwise it is the header alone. */
  lemma PayloadFits(nbytes: nat)
    requires nbytes < TWO32
    ensures (NUnits(nbytes) - 1) * 8 >= nbytes <==> nbytes <= TWO32 - 8
    ensures if nbytes <= TWO32 - 8 then nbytes <= (NUnits(nbytes) - 1) * 8 < nbytes + 8 else NUnits(nbytes) == 1
  {
  }

  /** malloc(0xffffffff) asks for a single unit, with no payload at all. */
  lemma HugeRequest()
    ensures NUnits(TWO32 - 1) == 1
  {
  }

  /** Bytes morecore passes to sbrk. */
  function SbrkBytes(nu: nat): (n: nat) { nu * 8 % TWO32 }

  /** sbrk takes an int; it grows the process only for positive values. */
  predicate Grows(nu: nat) { 0 < SbrkBytes(nu) < 0x8000_0000 }

  /** Of the requests malloc makes, exactly those below 2^28 units grow the process. */
  lemma GrowsIff(nu: nat)
    requires 1 <= nu <= 0x2000_0000
    ensures Grows(nu) <==> nu < 0x1000_0000
  {
  }

  /** The byte count wraps only at the largest request, where it becomes zero; from 2^28
      units on it is negative as an int. */
  lemma SbrkExact(nu: nat)
    requires nu <= 0x2000_0000
    ensures SbrkBytes(nu) == if nu < 0x2000_0000 then nu * 8 else 0
  {
  }

  /** In bytes: the requests that make morecore ask for nothing or a negative amount. */
  lemma TooManyBytes(nbytes: nat)
    requires nbytes < TWO32
    ensures !Grows(Max(NUnits(nbytes), 4096)) <==> 0x7fff_fff1 <= nbytes <= TWO32 - 8
  {
    GrowsIff(Max(NUnits(nbytes), 4096));
  }

  /** malloc(0x7ffffff8) asks for 2^28 units, and sbrk for -2^31 bytes. */
  lemma NegativeRequest()
    ensures NUnits(0x7fff_fff8) == 0x1000_0000 && SbrkBytes(0x1000_0000) == 0x8000_0000 && !Grows(0x1000_0000)
  {
  }

  // ----- free's search -----

  ghost predicate Stop(h: Heap, k: nat, a: nat)
    requires k < |h.ring|
  {
    var p, q := h.ring[k], Next(h.ring, k);
    (a > p && a < q) || (p >= q && (a > p || a < q))
  }

  /** The search stops at the one element after which a belongs, and nowhere else. */
  lemma StopsAt(h: Heap, base: nat, k: nat, t: nat, a: nat)
    requires ListOk(h, base) && k < |h.ring| && Between(h.ring, t, a)
    ensures Stop(h, k, a) <==> k == t
  {
    assert SizeAt(h.mem, h.ring, base, 0);
  }

  lemma {:induction false} FindBetween(ring: seq<nat>, a: nat) returns (t: nat)
    requires |ring| > 0 && ring[0] < a && Sorted(ring) && a !in ring
    ensures Between(ring, t, a)
  {
    var m := |ring| - 1;
    if ring[m] < a {
      t := m;
    } else {
      assert ring[m] != a;
      t := FindBetween(ring[..m], a);
    }
  }

  /** The first half of free's assignments: a takes over the block above if adjacent. */
  function JoinUpper(mem: Mem, a: nat, q: nat): (r: Mem)
    requires a in mem && q in mem
  {
    if a + mem[a].size == q then mem[a := Header(mem[q].ptr, mem[a].size + mem[q].size)] else mem[a := Header(q, mem[a].size)]
  }

  /** The second half: p takes over a if adjacent, else links to it. */
  function JoinLower(mem: Mem, p: nat, a: nat): (r: Mem)
    requires p in mem && a in mem
  {
    if p + mem[p].size == a then mem[p := Header(mem[a].ptr, mem[p].size + mem[a].size)] else mem[p := Header(a, mem[p].size)]
  }

  lemma UpperMem(h: Heap, base: nat, t: nat, a: nat)
    requires Good(h, base) && t < |h.ring| && h.ring[t] in h.mem && a in h.live && Between(h.ring, t, a)
    requires a in h.mem && h.mem[h.ring[t]].ptr in h.mem
    ensures var h2, p := MergeIf(Insert(h, t, a), t + 1), h.ring[t];
      && |h2.ring| > t + 1 && h2.ring[t] == p && h2.ring[t+1] == a
      && h2.mem == JoinUpper(h.mem, a, h.mem[p].ptr)[p := Header(a, h.mem[p].size)]
  {
    hide Inserted, Dropped, Retag, UnitsOk;
    FreeFacts(h, base, a);
    var h1 := Insert(h, t, a);
    assert LinkAt(h.mem, h.ring, t) && SizeAt(h.mem, h.ring, base, t) && SizeAt(h.mem, h.ring, base, 0);
    InsertList(h, base, t, a);
    InsertedAt(h.ring, t, a, t);
    InsertedAt(h.ring, t, a, t + 1);
    RingNotLive(h, base, t, a);
    if t + 1 < |h.ring| {
      InsertedAt(h.ring, t, a, t + 2);
      assert LinkAt(h.mem, h.ring, t + 1) && SizeAt(h.mem, h.ring, base, t + 1);
      assert LinkAt(h1.mem, h1.ring, t + 2);
      RingNotLive(h, base, t + 1, a);
      DroppedAt(h1.ring, t + 2, t);
      DroppedAt(h1.ring, t + 2, t + 1);
    }
  }

  /** The list operation Freed is what free's assignments compute. */
  lemma FreedMem(h: Heap, base: nat, t: nat, a: nat)
    requires Good(h, base) && t < |h.ring| && h.ring[t] in h.mem && a in h.live && Between(h.ring, t, a)
    requires a in h.mem && h.mem[h.ring[t]].ptr in h.mem
    ensures var p, r := h.ring[t], Freed(h, t, a);
      && r.mem == JoinLower(JoinUpper(h.mem, a, h.mem[p].ptr), p, a)
      && |r.ring| > t && r.ring[t] == p
  {
    hide Insert, Retag, Dropped, Good, Merge;
    UpperMem(h, base, t, a);
    var h2 := MergeIf(Insert(h, t, a), t + 1);
    UpperGood(h, base, t, a);
    LowerMem(h2, base, t, JoinUpper(h.mem, a, h.mem[h.ring[t]].ptr), a);
  }

  lemma UpperGood(h: Heap, base: nat, t: nat, a: nat)
    requires Good(h, base) && t < |h.ring| && h.ring[t] in h.mem && a in h.live && Between(h.ring, t, a)
    ensures ListOk(MergeIf(Insert(h, t, a), t + 1), base)
    ensures h.ring[t] != a && (t == 0 ==> h.ring[0] == base && h.ring[t] in h.mem && h.mem[h.ring[t]].size == 0)
  {
    hide Insert, MergeIf, ListOk, UnitsOk;
    var h1 := Insert(h, t, a);
    FreeFacts(h, base, a);
    InsertList(h, base, t, a);
    InsertUnits(h, base, t, a);
    forall k | k != t && k != t + 1 ensures Gap(h1.mem, h1.ring, k) { GapInsert(h, base, t, a, k); }
    MergeIfGood(h1, base, t + 1, t);
    RingNotLive(h, base, t, a);
    BaseSize(h, base);
  }

  lemma BaseSize(h: Heap, base: nat)
    requires ListOk(h, base)
    ensures h.ring[0] == base && base in h.mem && h.mem[base].size == 0
  {
    assert SizeAt(h.mem, h.ring, base, 0);
  }

  lemma LowerMem(h2: Heap, base: nat, t: nat, m: Mem, a: nat)
    requires ListOk(h2, base) && t + 1 < |h2.ring| && h2.ring[t+1] == a && h2.ring[t] in m && a in m && h2.ring[t] != a
    requires h2.mem == m[h2.ring[t] := Header(a, m[h2.ring[t]].size)] && (t == 0 ==> m[h2.ring[0]].size == 0)
    ensures var r, p := MergeIf(h2, t), h2.ring[t];
      r.mem == JoinLower(m, p, a) && |r.ring| > t && r.ring[t] == p
  {
    hide Dropped, Retag;
    assert LinkAt(h2.mem, h2.ring, t + 1) && SizeAt(h2.mem, h2.ring, base, t) && h2.ring[t] < a;
    DroppedAt(h2.ring, t + 1, t);
  }

  // ----- allocated memory is never written -----

  /** Blocks allocated in both keep their place, their units and their contents. */
  ghost predicate LiveKept(h0: Heap, h: Heap) {
    && (forall a :: a in h0.live && a in h.live ==> h.live[a] == h0.live[a])
    && forall u :: u in h0.tag && h0.tag[u].Live? && h0.tag[u].a in h.live ==>
         Is(h.tag, u, h0.tag[u]) && u in h0.mem && u in h.mem && h.mem[u] == h0.mem[u]
  }

  /** A unit that heads a free block, or base, is in no allocated block. */
  lemma RingUnit(h: Heap, base: nat, k: nat)
    requires ListOk(h, base) && UnitsOk(h, base) && k < |h.ring|
    ensures h.ring[k] in h.tag ==> h.tag[h.ring[k]].Free?
  {
    assert SizeAt(h.mem, h.ring, base, k) && FreeAt(h, k) && UnitAt(h, base, h.ring[k]);
    assert k > 0 ==> Is(h.tag, h.ring[k], Free(h.ring[k]));
  }

  lemma KeptExcept(h0: Heap, h: Heap, base: nat, x: nat, y: nat)
    requires UnitsOk(h0, base) && UnitsOk(h, base)
    requires forall a :: a in h0.live && a in h.live ==> h.live[a] == h0.live[a]
    requires forall u :: u in h0.mem && u != x && u != y ==> u in h.mem && h.mem[u] == h0.mem[u]
    requires forall u :: u in h0.tag && (u == x || u == y) ==> h0.tag[u].Free? || h0.tag[u].a !in h.live
    ensures LiveKept(h0, h)
  {
    forall u: nat | u in h0.tag && h0.tag[u].Live? && h0.tag[u].a in h.live
      ensures Is(h.tag, u, h0.tag[u]) && u in h0.mem && u in h.mem && h.mem[u] == h0.mem[u]
    {
      var a := h0.tag[u].a;
      assert UnitAt(h0, base, u) && LiveAt(h, base, a);
    }
  }

  lemma FreedKept(h: Heap, base: nat, t: nat, a: nat)
    requires Good(h, base) && t < |h.ring| && h.ring[t] in h.mem && a in h.live && Between(h.ring, t, a)
    requires a in h.mem && h.mem[h.ring[t]].ptr in h.mem
    ensures var r := Freed(h, t, a); r.live == h.live - {a} && r.tag.Keys == h.tag.Keys && LiveKept(h, r)
  {
    hide Inserted, Dropped, JoinUpper, JoinLower;
    var r := Freed(h, t, a);
    FreedGood(h, base, t, a);
    FreedSame(h, t, a);
    FreedMemAt(h, base, t, a);
    RingUnit(h, base, t);
    assert LiveAt(h, base, a) && Is(h.tag, a, Live(a));
    KeptExcept(h, r, base, h.ring[t], a);
  }

  lemma FreedSame(h: Heap, t: nat, a: nat)
    requires t < |h.ring| && h.ring[t] in h.mem && a in h.live
    ensures Freed(h, t, a).live == h.live - {a} && Freed(h, t, a).tag.Keys == h.tag.Keys
  {
    hide Inserted, Dropped;
  }

  lemma FreedMemAt(h: Heap, base: nat, t: nat, a: nat)
    requires Good(h, base) && t < |h.ring| && h.ring[t] in h.mem && a in h.live && Between(h.ring, t, a)
    requires a in h.mem && h.mem[h.ring[t]].ptr in h.mem
    ensures forall u :: u in h.mem && u != h.ring[t] && u != a ==> u in Freed(h, t, a).mem && Freed(h, t, a).mem[u] == h.mem[u]
    ensures Freed(h, t, a).mem.Keys == h.mem.Keys
  {
    hide Freed, Good;
    FreedMem(h, base, t, a);
  }

  /** Some free block is now at least as large as the one freed. */
  lemma FreedBig(h: Heap, base: nat, t: nat, a: nat)
    requires Good(h, base) && t < |h.ring| && h.ring[t] in h.mem && a in h.live && Between(h.ring, t, a)
    ensures SomeRoom(Freed(h, t, a), h.live[a])
  {
    hide Inserted, Dropped, Retag;
    var h1 := Insert(h, t, a);
    InsertedAt(h.ring, t, a, t + 1);
    RingNotLive(h, base, t, a);
    assert HasRoom(h1, t + 1, h.live[a]);
    var h2 := MergeIf(h1, t + 1);
    if t + 2 < |h1.ring| { DroppedAt(h1.ring, t + 2, t + 1); }
    assert HasRoom(h2, t + 1, h.live[a]);
    var h3 := MergeIf(h2, t);
    DroppedAt(h2.ring, t + 1, t);
    assert h3 == Freed(h, t, a) && HasRoom(Freed(h, t, a), if h3 == h2 then t + 1 else t, h.live[a]);
  }

  ghost predicate HasRoom(h: Heap, k: int, n: nat) {
    0 < k < |h.ring| && h.ring[k] in h.mem && h.mem[h.ring[k]].size >= n
  }

  /** Some block on the free list has n units. */
  ghost predicate SomeRoom(h: Heap, n: nat) { exists j :: HasRoom(h, j, n) }

  lemma GrownKept(h: Heap, base: nat, lo: nat, n: nat)
    requires Good(h, base) && Above(h, base, lo) && n > 0
    ensures LiveKept(h, Grown(h, lo, n)) && lo !in h.live
  {
    GrownGood(h, base, lo, n);
    assert LiveAt(h, base, lo) && (lo in h.live ==> Is(h.tag, lo, Live(lo)));
    KeptExcept(h, Grown(h, lo, n), base, lo, lo);
  }

  lemma KeptTwice(h0: Heap, h1: Heap, h2: Heap, base: nat)
    requires UnitsOk(h0, base) && LiveKept(h0, h1) && LiveKept(h1, h2) && h0.live.Keys <= h1.live.Keys
    ensures LiveKept(h0, h2)
  {
    forall u: nat | u in h0.tag && h0.tag[u].Live? && h0.tag[u].a in h2.live
      ensures Is(h2.tag, u, h0.tag[u]) && u in h0.mem && u in h2.mem && h2.mem[u] == h0.mem[u]
    {
      assert UnitAt(h0, base, u);
      assert Is(h1.tag, u, h0.tag[u]);
    }
  }

  lemma GrownAbove(h: Heap, base: nat, lo: nat, n: nat)
    requires Above(h, base, lo)
    ensures Above(Grown(h, lo, n), base, lo + n)
  {
  }

  lemma TakenKept(h: Heap, base: nat, k: nat)
    requires Good(h, base) && 0 < k < |h.ring| && h.ring[k] in h.mem && h.ring[k-1] in h.mem
    ensures LiveKept(h, Taken(h, k)) && h.ring[k] !in h.live
    ensures |Taken(h, k).ring| >= k && Taken(h, k).ring[k-1] == h.ring[k-1]
  {
    hide Dropped;
    TakenGood(h, base, k);
    RingUnit(h, base, k - 1);
    DroppedAt(h.ring, k, k - 1);
    if h.ring[k] in h.live { RingNotLive(h, base, k, h.ring[k]); }
    KeptExcept(h, Taken(h, k), base, h.ring[k-1], h.ring[k-1]);
  }

  lemma SplitKept(h: Heap, base: nat, k: nat, n: nat)
    requires Good(h, base) && 0 < k < |h.ring| && h.ring[k] in h.mem && 0 < n < h.mem[h.ring[k]].size
    requires h.ring[k] + h.mem[h.ring[k]].size - n in h.mem
    ensures LiveKept(h, Split(h, k, n))
  {
    var p := h.ring[k];
    var a := p + h.mem[p].size - n;
    SplitGood(h, base, k, n);
    SplitFacts(h, base, k, n);
    RingUnit(h, base, k);
    assert FreeAt(h, k) && Is(h.tag, a, Free(p));
    KeptExcept(h, Split(h, k, n), base, p, a);
  }

  // ----- malloc's scan -----

  function Wrap(x: nat, n: nat): (r: nat)
    requires x < 2 * n
    ensures r < n
  {
    if x < n then x else x - n
  }

  /** Starting after element f, the scan has rejected m - 1 blocks and is at the m-th. */
  ghost predicate Scanned(h: Heap, f: nat, m: nat, n: nat) {
    && f < |h.ring| && 1 <= m <= |h.ring|
    && forall i :: 1 <= i < m ==> Rejected(h, f, i, n)
  }

  ghost predicate Rejected(h: Heap, f: nat, i: int, n: nat) {
    f < |h.ring| && 1 <= i <= |h.ring| && !HasRoom(h, Wrap(f + i, |h.ring|), n)
  }

  ghost predicate FitsAfter(h: Heap, start: nat, k: nat, n: nat, f: nat, m: nat) {
    Scanned(h, f, m, n) && h.ring[f] == start && k == Wrap(f + m, |h.ring|) && HasRoom(h, k, n)
  }

  /** Element k is the first on the ring after start that has room. */
  ghost predicate NextFit(h: Heap, start: nat, k: nat, n: nat) { exists f: nat, m: nat :: FitsAfter(h, start, k, n, f, m) }

  /** A full round that rejects every block means no block has room. */
  lemma FullRound(h: Heap, f: nat, n: nat)
    requires Scanned(h, f, |h.ring|, n) && !HasRoom(h, f, n)
    ensures !SomeRoom(h, n)
  {
    forall j ensures !HasRoom(h, j, n) {
      if 0 < j < |h.ring| && j != f {
        var i := if j > f then j - f else j + |h.ring| - f;
        assert Rejected(h, f, i, n) && Wrap(f + i, |h.ring|) == j;
      }
    }
  }

  // ----- the code -----

  class Arena {
    const base: nat
    const limit: nat               // sbrk fails beyond this unit
    var mem: Mem
    var freep: nat                 // 0 before the first malloc
    var brk: nat                   // unit address of the next sbrk
    ghost var ring: seq<nat>
    ghost var live: map<nat, nat>
    ghost var tag: map<nat, Tag>

    ghost function Now(): (h: Heap)
      reads this
    {
      Heap(mem, ring, live, tag)
    }

    ghost predicate Valid()
      reads this
    {
      && base > 0 && Above(Now(), base, brk)
      && if freep == 0 then base in mem && ring == [] && live == map[] && tag == map[] else Good(Now(), base) && freep in ring
    }

    /** Static zero memory: the allocator before its first call. */
    constructor (base: nat, brk: nat, limit: nat)
      requires 0 < base < brk
      ensures Valid() && freep == 0 && live == map[]
      ensures this.base == base && this.brk == brk && this.limit == limit
    {
      this.base, this.brk, this.limit := base, brk, limit;
      mem, freep := map[base := Header(0, 0)], 0;
      ring, live, tag := [], map[], map[];
    }

    /** The program writes into a block it was given, anywhere behind the header: the
        allocator's own data is untouched. */
    method Store(u: nat, value: Header)
      requires Valid() && u in tag && tag[u].Live? && u != tag[u].a
      modifies this`mem
      ensures Valid() && mem == old(mem)[u := value]
    {
      assert freep != 0;
      StoreGood(Now(), base, u, value);
      mem := mem[u := value];
    }

    ghost method Adopt(h: Heap)
      modifies this`ring, this`live, this`tag
      ensures ring == h.ring && live == h.live && tag == h.tag
    {
      ring, live, tag := h.ring, h.live, h.tag;
    }

    /** The search loop of free: ends at the element after which bp belongs. */
    method Search(bp: nat) returns (p: nat, ghost t: nat)
      requires Valid() && bp in live
      ensures t < |ring| && ring[t] == p && p in mem && mem[p].ptr in mem && Between(ring, t, bp)
    {
      hide UnitsOk;
      FreeFacts(Now(), base, bp);
      assert bp !in ring by { forall j | 0 <= j < |ring| ensures ring[j] != bp { RingNotLive(Now(), base, j, bp); } }
      BaseSize(Now(), base);
      t := FindBetween(ring, bp);
      p := freep;
      ghost var k :| 0 <= k < |ring| && ring[k] == p;
      assert LinkAt(mem, ring, k);
      while !(bp > p && bp < mem[p].ptr)
        invariant 0 <= k < |ring| && ring[k] == p && LinkAt(mem, ring, k) && Between(ring, t, bp)
        decreases if k <= t then t - k else |ring| - k + t
      {
        StopsAt(Now(), base, k, t, bp);
        if p >= mem[p].ptr && (bp > p || bp < mem[p].ptr) { break; }
        p := mem[p].ptr;
        k := if k + 1 < |ring| then k + 1 else 0;
        assert LinkAt(mem, ring, k);
      }
      StopsAt(Now(), base, k, t, bp);
      ghost var k1 := if t + 1 < |ring| then t + 1 else 0;
      assert LinkAt(mem, ring, k1);
    }

    /** free: the block goes back on the list, coalesced with its neighbours; every other
        allocated block is untouched and no unit is lost. */
    method Free(ap: nat)
      requires Valid() && ap > 0 && ap - 1 in live
      modifies this`mem, this`freep, this`ring, this`live, this`tag
      ensures Valid() && freep != 0 && live == old(live) - {ap - 1}
      ensures tag.Keys == old(tag).Keys && mem.Keys == old(mem).Keys && LiveKept(old(Now()), Now())
      ensures SomeRoom(Now(), old(live)[ap - 1])
    {
      hide Good, LiveKept, Freed, Between;
      var bp := ap - 1;
      var p, t := Search(bp);
      ghost var h := Now();
      LiveFacts(h, base, bp);
      FreedMem(h, base, t, bp);
      FreedGood(h, base, t, bp);
      FreedKept(h, base, t, bp);
      FreedMemAt(h, base, t, bp);
      FreedBig(h, base, t, bp);
      var q := mem[p].ptr;
      if bp + mem[bp].size == q {
        mem := mem[bp := Header(mem[q].ptr, mem[bp].size + mem[q].size)];
      } else {
        mem := mem[bp := Header(q, mem[bp].size)];
      }
      if p + mem[p].size == bp {
        mem := mem[p := Header(mem[bp].ptr, mem[p].size + mem[bp].size)];
      } else {
        mem := mem[p := Header(bp, mem[p].size)];
      }
      freep := p;
      Adopt(Freed(h, t, bp));
      BaseIn(h, base, t);
    }

    /** morecore: at least 4096 more units, put on the list by free. 0 if sbrk fails. */
    method Morecore(nunits: nat) returns (p: nat, fault: bool)
      requires Valid() && freep != 0 && 1 <= nunits <= 0x2000_0000
      modifies this`mem, this`freep, this`brk, this`ring, this`live, this`tag
      ensures fault <==> nunits >= 0x1000_0000
      ensures !fault ==> Valid() && freep != 0 && live == old(live) && LiveKept(old(Now()), Now())
      ensures !fault ==> (p == 0 <==> old(brk) + Max(nunits, 4096) > limit)
      ensures fault || p == 0 ==> Now() == old(Now()) && brk == old(brk)
      ensures !fault && p != 0 ==>
        && p == freep && SomeRoom(Now(), nunits) && brk == old(brk) + Max(nunits, 4096) <= limit
        && tag.Keys == old(tag).Keys + Units(old(brk), Max(nunits, 4096))
    {
      hide Good, FreshMem, LiveKept, UnitsOk;
      var nu := Max(nunits, 4096);
      GrowsIff(nu);
      LiveSelf(Now(), base);
      if !Grows(nu) { return 0, true; }
      if brk + nu > limit { return 0, false; }
      ghost var h := Now();
      GrownGood(h, base, brk, nu);
      GrownKept(h, base, brk, nu);
      GrownAbove(h, base, brk, nu);
      var hp := brk;
      brk := brk + nu;
      mem := mem + FreshMem(hp, nu);
      Adopt(Grown(h, hp, nu));
      ghost var h1 := Now();
      assert h1 == Grown(h, hp, nu);
      Free(hp + 1);
      GoodUnits(h, base);
      KeptTwice(h, h1, Now(), base);
      assert live == old(live);
      RoomLess(Now(), nu, nunits);
      return freep, false;
    }

    /** The fitting case of malloc's loop: unlink p, or cut the block off its tail. */
    method Carve(prevp: nat, p: nat, nunits: nat, ghost k: nat) returns (a: nat)
      requires Valid() && freep != 0 && 0 < k < |ring| && ring[k] == p && ring[k-1] == prevp
      requires p in mem && prevp in mem && mem[p].size >= nunits >= 1
      modifies this`mem, this`freep, this`ring, this`live, this`tag
      ensures Valid() && freep == prevp && a !in old(live) && live == old(live)[a := nunits]
      ensures a + nunits == p + old(mem[p].size)
      ensures tag.Keys == old(tag).Keys && LiveKept(old(Now()), Now())
    {
      hide Good, LiveKept, Dropped;
      ghost var h := Now();
      LinkFacts(h, base, k);
      if mem[p].size == nunits {
        TakenGood(h, base, k);
        TakenKept(h, base, k);
        mem := mem[prevp := mem[prevp].(ptr := mem[p].ptr)];
        Adopt(Taken(h, k));
        a := p;
      } else {
        SplitFacts(h, base, k, nunits);
        SplitGood(h, base, k, nunits);
        SplitKept(h, base, k, nunits);
        mem := mem[p := mem[p].(size := mem[p].size - nunits)];
        a := p + mem[p].size;
        mem := mem[a := mem[a].(size := nunits)];
        Adopt(Split(h, k, nunits));
      }
      freep := prevp;
      BaseIn(h, base, k - 1);
    }

    /** One round of malloc's loop, from the element after freep back to freep: the first
        block with room, or the certainty that no block has room. */
    method Scan(nunits: nat) returns (found: bool, prevp: nat, p: nat, ghost k: nat)
      requires Valid() && freep != 0 && 1 <= nunits
      ensures found ==>
        && 0 < k < |ring| && ring[k] == p && ring[k-1] == prevp
        && p in mem && prevp in mem && mem[p].size >= nunits
      ensures found <==> SomeRoom(Now(), nunits)
      ensures found ==> NextFit(Now(), freep, k, nunits)
    {
      hide Good, SomeRoom, Above;
      ghost var f :| 0 <= f < |ring| && ring[f] == freep;
      ghost var m := 1;
      LinkFacts(Now(), base, f);
      prevp := freep;
      p := mem[prevp].ptr;
      while true
        invariant Scanned(Now(), f, m, nunits) && ring[f] == freep
        invariant p == ring[Wrap(f + m, |ring|)] && prevp == ring[Wrap(f + m - 1, |ring|)]
        decreases |ring| - m
      {
        k := Wrap(f + m, |ring|);
        LinkFacts(Now(), base, k);
        LinkFacts(Now(), base, Wrap(f + m - 1, |ring|));
        if mem[p].size >= nunits {
          RoomAt(Now(), k, nunits);
          assert FitsAfter(Now(), freep, k, nunits, f, m);
          return true, prevp, p, k;
        }
        assert Rejected(Now(), f, m, nunits);
        if p == freep {
          SameElement(Now(), base, f, k);
          FullRound(Now(), f, nunits);
          return false, prevp, p, k;
        }
        m := m + 1;
        prevp := p;
        p := mem[p].ptr;
      }
    }

    /** malloc, once the list exists: a round; if it finds nothing, morecore and another
        round, which then succeeds. */
    method Allocate(nunits: nat) returns (r: Result)
      requires Valid() && freep != 0 && 1 <= nunits <= 0x2000_0000
      modifies this`mem, this`freep, this`brk, this`ring, this`live, this`tag
      ensures r.Fault? <==> !SomeRoom(old(Now()), nunits) && nunits >= 0x1000_0000
      ensures r.Null? <==> !SomeRoom(old(Now()), nunits) && nunits < 0x1000_0000 && old(brk) + Max(nunits, 4096) > limit
      ensures !r.Fault? ==> Valid() && freep != 0 && LiveKept(old(Now()), Now())
      ensures r.Null? ==> live == old(live) && tag == old(tag) && brk == old(brk)
      ensures r.Ptr? ==> r.ap > 0 && r.ap - 1 !in old(live) && live == old(live)[r.ap - 1 := nunits]
      ensures r.Ptr? ==> brk >= old(brk) && tag.Keys == old(tag).Keys + Units(old(brk), brk - old(brk))
    {
      hide Good, LiveKept, SomeRoom, Above, Units, UnitsOk;
      ghost var h0 := Now();
      GoodUnits(h0, base);
      NoUnits(brk);
      var found, prevp, p, k := Scan(nunits);
      if !found {
        var core, fault := Morecore(nunits);
        if fault { return Fault; }
        if core == 0 { return Null; }
        found, prevp, p, k := Scan(nunits);
      } else {
        LiveSelf(h0, base);
      }
      ghost var h := Now();
      BaseIn(h, base, k - 1);
      var a := Carve(prevp, p, nunits, k);
      KeptTwice(h0, h, Now(), base);
      return Ptr(a + 1);
    }

    /** malloc: a block of NUnits(nbytes) units that no other block overlaps; all blocks
        allocated before keep their place and contents. It faults exactly when no free block
        is large enough and sbrk would be asked for nothing or a negative amount; it returns
        null exactly when no free block is large enough and sbrk fails. */
    method Malloc(nbytes: nat) returns (r: Result)
      requires Valid() && nbytes < TWO32
      modifies this`mem, this`freep, this`brk, this`ring, this`live, this`tag
      ensures r.Fault? <==> !SomeRoom(old(Now()), NUnits(nbytes)) && NUnits(nbytes) >= 0x1000_0000
      ensures r.Null? <==>
        !SomeRoom(old(Now()), NUnits(nbytes)) && NUnits(nbytes) < 0x1000_0000 && old(brk) + Max(NUnits(nbytes), 4096) > limit
      ensures !r.Fault? ==> Valid() && LiveKept(old(Now()), Now())
      ensures r.Null? ==> live == old(live) && tag == old(tag) && brk == old(brk)
      ensures r.Ptr? ==> r.ap > 0 && r.ap - 1 !in old(live) && live == old(live)[r.ap - 1 := NUnits(nbytes)]
      ensures r.Ptr? ==>
        var units := live[r.ap - 1];
        if nbytes <= TWO32 - 8 then nbytes <= (units - 1) * 8 < nbytes + 8 else units == 1
      ensures r.Ptr? ==> brk >= old(brk) && tag.Keys == old(tag).Keys + Units(old(brk), brk - old(brk))
    {
      hide Good, LiveKept, Units, SomeRoom;
      var nunits := NUnits(nbytes);
      PayloadFits(nbytes);
      if freep == 0 {
        mem := mem[base := Header(base, 0)];
        freep := base;
        ring := [base];
        FirstGood(Now(), base);
        FirstEmpty(old(Now()), Now(), base, nunits);
        r := Allocate(nunits);
        NothingLive(old(Now()), Now());
      } else {
        r := Allocate(nunits);
      }
    }
  }

  lemma LiveFacts(h: Heap, base: nat, a: nat)
    requires Good(h, base) && a in h.live
    ensures a in h.mem && a > base
  {
    assert LiveAt(h, base, a);
  }

  lemma BaseIn(h: Heap, base: nat, t: nat)
    requires Good(h, base) && t < |h.ring| && base > 0
    ensures h.ring[t] > 0
  {
    BaseSize(h, base);
  }

  lemma LiveSelf(h: Heap, base: nat)
    requires Good(h, base)
    ensures LiveKept(h, h)
  {
    assert UnitAt(h, base, base);
    KeptExcept(h, h, base, base, base);
  }

  lemma RingFree(h: Heap, base: nat, k: nat)
    requires Good(h, base) && k < |h.ring|
    ensures h.ring[k] in h.mem && (h.ring[k] == base || Is(h.tag, h.ring[k], Free(h.ring[k])))
  {
    assert LinkAt(h.mem, h.ring, k) && SizeAt(h.mem, h.ring, base, k) && FreeAt(h, k);
  }

  lemma StoreGood(h: Heap, base: nat, u: nat, value: Header)
    requires Good(h, base) && u in h.tag && h.tag[u].Live? && u != h.tag[u].a
    ensures Good(h.(mem := h.mem[u := value]), base)
  {
    var h' := h.(mem := h.mem[u := value]);
    assert UnitAt(h, base, u);
    forall k: nat | k < |h.ring| ensures h.ring[k] != u { RingFree(h, base, k); }
    forall a | a in h.live ensures a != u { assert LiveAt(h, base, a); assert Is(h.tag, a, Live(a)); }
    forall k ensures LinkAt(h'.mem, h'.ring, k) && SizeAt(h'.mem, h'.ring, base, k) && Gap(h'.mem, h'.ring, k) {
      assert LinkAt(h.mem, h.ring, k) && SizeAt(h.mem, h.ring, base, k) && Gap(h.mem, h.ring, k);
    }
    forall k ensures FreeAt(h', k) { assert FreeAt(h, k); }
    forall a: nat ensures LiveAt(h', base, a) { assert LiveAt(h, base, a); }
    forall x: nat ensures UnitAt(h', base, x) { assert UnitAt(h, base, x); }
  }

  lemma GoodUnits(h: Heap, base: nat)
    requires Good(h, base)
    ensures UnitsOk(h, base)
  {
  }

  lemma RoomLess(h: Heap, n: nat, m: nat)
    requires SomeRoom(h, n) && m <= n
    ensures SomeRoom(h, m)
  {
    var j :| HasRoom(h, j, n);
    assert HasRoom(h, j, m);
  }

  lemma LinkFacts(h: Heap, base: nat, k: nat)
    requires Good(h, base) && k < |h.ring|
    ensures h.ring[k] in h.mem && h.mem[h.ring[k]].ptr == Next(h.ring, k) && (k == 0 <==> h.mem[h.ring[k]].size == 0)
  {
    assert LinkAt(h.mem, h.ring, k) && SizeAt(h.mem, h.ring, base, k);
  }

  lemma FirstGood(h: Heap, base: nat)
    requires h.ring == [base] && base in h.mem && h.mem[base] == Header(base, 0) && h.live == map[] && h.tag == map[]
    ensures Good(h, base)
  {
  }

  lemma NothingLive(h0: Heap, h: Heap)
    requires h0.live == map[] && h0.tag == map[]
    ensures LiveKept(h0, h)
  {
  }

  lemma RoomAt(h: Heap, k: nat, n: nat)
    requires 0 < k < |h.ring| && h.ring[k] in h.mem && h.mem[h.ring[k]].size >= n
    ensures SomeRoom(h, n)
  {
    assert HasRoom(h, k, n);
  }

  lemma FirstEmpty(h0: Heap, h: Heap, base: nat, n: nat)
    requires h0.ring == [] && h.ring == [base] && n > 0
    ensures !SomeRoom(h0, n) && !SomeRoom(h, n)
  {
  }

  lemma SameElement(h: Heap, base: nat, i: nat, j: nat)
    requires Good(h, base) && i < |h.ring| && j < |h.ring| && h.ring[i] == h.ring[j]
    ensures i == j
  {
  }

  lemma NoUnits(lo: nat)
    ensures Units(lo, 0) == {}
  {
  }
}
