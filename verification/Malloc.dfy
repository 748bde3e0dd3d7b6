/** The Kernighan and Ritchie allocator (umalloc.c). Addresses are in units of one
    header (8 bytes). The circular free list is `ring`, starting at `base`. */
module Malloc {

  datatype Header = Header(ptr: nat, size: nat)

  /** Every unit obtained from sbrk belongs to one free or one allocated block. */
  datatype Tag = Free(a: nat) | Live(a: nat)

  type Mem = map<nat, Header>

  datatype Heap = Heap(mem: Mem, ring: seq<nat>, live: map<nat, nat>, tag: map<nat, Tag>)

  function Next(ring: seq<nat>, k: nat): (a: nat)
    requires k < |ring|
  {
    if k + 1 < |ring| then ring[k+1] else ring[0]
  }

  ghost predicate Sorted(ring: seq<nat>) {
    forall i, j :: 0 <= i < j < |ring| ==> ring[i] < ring[j]
  }

  /** Element k links to the next, the last back to the first. */
  ghost predicate LinkAt(mem: Mem, ring: seq<nat>, k: int) {
    0 <= k < |ring| ==> ring[k] in mem && mem[ring[k]].ptr == Next(ring, k)
  }

  /** Element 0 is the static header of size 0; every other free block is nonempty. */
  ghost predicate SizeAt(mem: Mem, ring: seq<nat>, base: nat, k: int) {
    0 <= k < |ring| ==> ring[k] in mem && if k == 0 then ring[0] == base && mem[base].size == 0 else mem[ring[k]].size > 0
  }

  /** Free block k does not touch the next one. */
  ghost predicate Gap(mem: Mem, ring: seq<nat>, k: int) {
    0 < k < |ring| - 1 && ring[k] in mem ==> ring[k] + mem[ring[k]].size != ring[k+1]
  }

  ghost predicate Is(tag: map<nat, Tag>, u: nat, x: Tag) { u in tag && tag[u] == x }

  /** The units of free block k are tagged as its own. */
  ghost predicate FreeAt(h: Heap, k: int) {
    0 < k < |h.ring| && h.ring[k] in h.mem ==>
      forall u :: h.ring[k] <= u < h.ring[k] + h.mem[h.ring[k]].size ==> Is(h.tag, u, Free(h.ring[k]))
  }

  /** So are those of allocated block a, which keeps its size in its header. */
  ghost predicate LiveAt(h: Heap, base: nat, a: nat) {
    a in h.live ==>
      && a > base && h.live[a] > 0 && a in h.mem && h.mem[a].size == h.live[a]
      && forall u :: a <= u < a + h.live[a] ==> Is(h.tag, u, Live(a))
  }

  /** Each unit's tag names a block that contains it. */
  ghost predicate UnitAt(h: Heap, base: nat, u: nat) {
    u in h.tag ==>
      && u > base && u in h.mem && h.tag[u].a <= u
      && match h.tag[u]
         case Free(a) => a in h.ring && a != base && a in h.mem && u < a + h.mem[a].size
         case Live(a) => a in h.live && u < a + h.live[a]
  }

  ghost predicate ListOk(h: Heap, base: nat) {
    && |h.ring| > 0 && Sorted(h.ring)
    && (forall k :: LinkAt(h.mem, h.ring, k))
    && (forall k :: SizeAt(h.mem, h.ring, base, k))
  }

  ghost predicate UnitsOk(h: Heap, base: nat) {
    && (forall k :: FreeAt(h, k))
    && (forall a :: LiveAt(h, base, a))
    && (forall u :: UnitAt(h, base, u))
  }

  /** The allocator's invariant: one address-ordered cycle through base, no two free blocks
      adjacent, and each unit in exactly one block. */
  ghost predicate Good(h: Heap, base: nat) {
    ListOk(h, base) && UnitsOk(h, base) && forall k :: Gap(h.mem, h.ring, k)
  }

  ghost function Retag(tag: map<nat, Tag>, lo: nat, n: nat, x: Tag): (r: map<nat, Tag>)
    ensures r.Keys == tag.Keys
    ensures forall u: nat, y :: Is(r, u, y) <==> u in tag && y == if lo <= u < lo + n then x else tag[u]
  {
    map u | u in tag :: if lo <= u < lo + n then x else tag[u]
  }

  // ----- list surgery -----

  function Inserted(ring: seq<nat>, t: nat, a: nat): (r: seq<nat>)
    requires t < |ring|
  {
    ring[..t+1] + [a] + ring[t+1..]
  }

  function Dropped(ring: seq<nat>, k: nat): (r: seq<nat>)
    requires k < |ring|
  {
    ring[..k] + ring[k+1..]
  }

  lemma InsertedAt(ring: seq<nat>, t: nat, a: nat, k: nat)
    requires t < |ring| && k <= |ring|
    ensures |Inserted(ring, t, a)| == |ring| + 1
    ensures Inserted(ring, t, a)[k] == if k <= t then ring[k] else if k == t + 1 then a else ring[k-1]
  {
  }

  lemma DroppedAt(ring: seq<nat>, k: nat, j: nat)
    requires k < |ring| && j < |ring| - 1
    ensures |Dropped(ring, k)| == |ring| - 1
    ensures Dropped(ring, k)[j] == if j < k then ring[j] else ring[j+1]
  {
  }

  ghost predicate Between(ring: seq<nat>, t: nat, a: nat) {
    t < |ring| && ring[t] < a && (t + 1 < |ring| ==> a < ring[t+1])
  }

  // ----- the steps of free -----

  /** Put allocated block a on the list after element t. */
  ghost function Insert(h: Heap, t: nat, a: nat): (r: Heap)
    requires t < |h.ring| && h.ring[t] in h.mem && a in h.live
  {
    Heap(h.mem[a := Header(Next(h.ring, t), h.live[a])][h.ring[t] := h.mem[h.ring[t]].(ptr := a)],
         Inserted(h.ring, t, a), h.live - {a}, Retag(h.tag, a, h.live[a], Free(a)))
  }

  lemma InsertList(h: Heap, base: nat, t: nat, a: nat)
    requires ListOk(h, base) && h.ring[0] in h.mem && t < |h.ring| && h.ring[t] in h.mem
    requires a in h.live && h.live[a] > 0 && Between(h.ring, t, a)
    ensures ListOk(Insert(h, t, a), base)
  {
    hide Inserted;
    var r := Insert(h, t, a);
    InsertedAt(h.ring, t, a, 0);
    forall i, j | 0 <= i < j < |r.ring| ensures r.ring[i] < r.ring[j] {
      InsertedAt(h.ring, t, a, i);
      InsertedAt(h.ring, t, a, j);
    }
    forall k ensures LinkAt(r.mem, r.ring, k) && SizeAt(r.mem, r.ring, base, k) {
      if 0 <= k < |r.ring| {
        InsertedAt(h.ring, t, a, k);
        if k + 1 < |r.ring| { InsertedAt(h.ring, t, a, k + 1); }
        var j := if k <= t then k else k - 1;
        assert LinkAt(h.mem, h.ring, j) && SizeAt(h.mem, h.ring, base, j);
      }
    }
  }

  /** Free block headers are not inside allocated blocks. */
  lemma RingNotLive(h: Heap, base: nat, k: nat, x: nat)
    requires ListOk(h, base) && UnitsOk(h, base) && k < |h.ring| && x in h.live
    ensures h.ring[k] != x
  {
    assert SizeAt(h.mem, h.ring, base, k) && FreeAt(h, k) && LiveAt(h, base, x);
    assert k > 0 ==> Is(h.tag, h.ring[k], Free(h.ring[k]));
    assert Is(h.tag, x, Live(x));
  }

  lemma InsertUnits(h: Heap, base: nat, t: nat, a: nat)
    requires ListOk(h, base) && UnitsOk(h, base) && t < |h.ring| && h.ring[t] in h.mem && a in h.live
    requires Between(h.ring, t, a)
    ensures UnitsOk(Insert(h, t, a), base)
  {
    hide Inserted, Sorted;
    var r := Insert(h, t, a);
    assert LiveAt(h, base, a);
    InsertedAt(h.ring, t, a, 0);
    forall k ensures FreeAt(r, k) {
      if 0 < k < |r.ring| {
        InsertedAt(h.ring, t, a, k);
        var j := if k <= t then k else k - 1;
        assert FreeAt(h, j) && SizeAt(h.mem, h.ring, base, j);
        RingNotLive(h, base, j, a);
        assert k != t + 1 ==> r.mem[h.ring[j]].size == h.mem[h.ring[j]].size;
        forall u | r.ring[k] <= u < r.ring[k] + r.mem[r.ring[k]].size ensures Is(r.tag, u, Free(r.ring[k])) {
          assert Is(h.tag, u, if k == t + 1 then Live(a) else Free(h.ring[j]));
          assert a <= u < a + h.live[a] ==> Is(h.tag, u, Live(a));
        }
      }
    }
    forall x: nat ensures LiveAt(r, base, x) {
      assert LiveAt(h, base, x);
      if x in r.live {
        RingNotLive(h, base, t, x);
        forall u | x <= u < x + r.live[x] ensures Is(r.tag, u, Live(x)) {
          assert Is(h.tag, u, Live(x));
          assert a <= u < a + h.live[a] ==> Is(h.tag, u, Live(a));
        }
      }
    }
    forall u: nat ensures UnitAt(r, base, u) {
      assert UnitAt(h, base, u);
      if u in r.tag {
        assert Is(r.tag, u, r.tag[u]) && Is(h.tag, u, h.tag[u]);
        assert a <= u < a + h.live[a] ==> Is(h.tag, u, Live(a));
        assert InsertedHas(h.ring, t, a, r.tag[u].a);
      }
    }
  }

  ghost predicate InsertedHas(ring: seq<nat>, t: nat, a: nat, x: nat)
    requires t < |ring|
    ensures InsertedHas(ring, t, a, x)
  {
    x in Inserted(ring, t, a) <==> x == a || x in ring
  }

  // ----- coalescing -----

  /** Merge free block k with the next one. */
  ghost function Merge(h: Heap, k: nat): (r: Heap)
    requires k + 1 < |h.ring| && h.ring[k] in h.mem && h.ring[k+1] in h.mem
  {
    var p, q := h.ring[k], h.ring[k+1];
    Heap(h.mem[p := Header(Next(h.ring, k + 1), h.mem[p].size + h.mem[q].size)],
         Dropped(h.ring, k + 1), h.live, Retag(h.tag, q, h.mem[q].size, Free(p)))
  }

  lemma MergeList(h: Heap, base: nat, k: nat)
    requires ListOk(h, base) && 0 < k && k + 1 < |h.ring| && h.ring[k] in h.mem && h.ring[k+1] in h.mem
    ensures ListOk(Merge(h, k), base)
  {
    hide Dropped;
    var r := Merge(h, k);
    DroppedAt(h.ring, k + 1, 0);
    forall i, j | 0 <= i < j < |r.ring| ensures r.ring[i] < r.ring[j] {
      DroppedAt(h.ring, k + 1, i);
      DroppedAt(h.ring, k + 1, j);
    }
    forall j ensures LinkAt(r.mem, r.ring, j) && SizeAt(r.mem, r.ring, base, j) {
      if 0 <= j < |r.ring| {
        DroppedAt(h.ring, k + 1, j);
        if j + 1 < |r.ring| { DroppedAt(h.ring, k + 1, j + 1); }
        var i := if j <= k then j else j + 1;
        assert LinkAt(h.mem, h.ring, i) && SizeAt(h.mem, h.ring, base, i);
        assert SizeAt(h.mem, h.ring, base, k) && SizeAt(h.mem, h.ring, base, 0);
      }
    }
  }

  lemma MergeUnits(h: Heap, base: nat, k: nat)
    requires ListOk(h, base) && UnitsOk(h, base) && 0 < k && k + 1 < |h.ring|
    requires h.ring[k] in h.mem && h.ring[k+1] in h.mem && h.ring[k] + h.mem[h.ring[k]].size == h.ring[k+1]
    ensures UnitsOk(Merge(h, k), base)
  {
    hide Dropped;
    var r, p, q := Merge(h, k), h.ring[k], h.ring[k+1];
    assert FreeAt(h, k) && FreeAt(h, k + 1) && SizeAt(h.mem, h.ring, base, k) && SizeAt(h.mem, h.ring, base, 0);
    assert h.ring[0] < p < q;
    DroppedAt(h.ring, k + 1, 0);
    forall j ensures FreeAt(r, j) {
      if 0 < j < |r.ring| {
        DroppedAt(h.ring, k + 1, j);
        var i := if j <= k then j else j + 1;
        assert FreeAt(h, i) && SizeAt(h.mem, h.ring, base, i);
        forall u | r.ring[j] <= u < r.ring[j] + r.mem[r.ring[j]].size ensures Is(r.tag, u, Free(r.ring[j])) {
          assert Is(h.tag, u, if i == k && u >= q then Free(q) else Free(h.ring[i]));
          assert q <= u < q + h.mem[q].size ==> Is(h.tag, u, Free(q));
        }
      }
    }
    forall x: nat ensures LiveAt(r, base, x) {
      assert LiveAt(h, base, x);
      if x in r.live {
        RingNotLive(h, base, k, x);
        forall u | x <= u < x + r.live[x] ensures Is(r.tag, u, Live(x)) {
          assert Is(h.tag, u, Live(x));
          assert q <= u < q + h.mem[q].size ==> Is(h.tag, u, Free(q));
        }
      }
    }
    forall u: nat ensures UnitAt(r, base, u) {
      assert UnitAt(h, base, u);
      if u in r.tag {
        assert Is(r.tag, u, r.tag[u]) && Is(h.tag, u, h.tag[u]);
        assert q <= u < q + h.mem[q].size ==> Is(h.tag, u, Free(q));
        assert DroppedHas(h.ring, k + 1, r.tag[u].a);
      }
    }
  }

  ghost predicate DroppedHas(ring: seq<nat>, k: nat, x: nat)
    requires k < |ring|
    ensures DroppedHas(ring, k, x)
  {
    x in ring && x != ring[k] ==> x in Dropped(ring, k)
  }

  lemma GapInsert(h: Heap, base: nat, t: nat, a: nat, k: int)
    requires ListOk(h, base) && UnitsOk(h, base) && t < |h.ring| && h.ring[t] in h.mem && a in h.live
    requires Gap(h.mem, h.ring, k) && Gap(h.mem, h.ring, k - 1) && k != t && k != t + 1
    ensures Gap(Insert(h, t, a).mem, Insert(h, t, a).ring, k)
  {
    hide Inserted, Sorted;
    if 0 < k < |h.ring| {
      InsertedAt(h.ring, t, a, k);
      InsertedAt(h.ring, t, a, k + 1);
      var j := if k <= t then k else k - 1;
      assert SizeAt(h.mem, h.ring, base, j);
      RingNotLive(h, base, j, a);
    } else {
      InsertedAt(h.ring, t, a, 0);
    }
  }

  lemma GapMerge(h: Heap, base: nat, k: nat, j: int)
    requires ListOk(h, base) && 0 < k && k + 1 < |h.ring| && h.ring[k] in h.mem && h.ring[k+1] in h.mem
    requires h.ring[k] + h.mem[h.ring[k]].size == h.ring[k+1]
    requires if j < k then Gap(h.mem, h.ring, j) else Gap(h.mem, h.ring, j + 1)
    ensures Gap(Merge(h, k).mem, Merge(h, k).ring, j)
  {
    hide Dropped;
    if 0 < j < |h.ring| - 2 {
      DroppedAt(h.ring, k + 1, j);
      DroppedAt(h.ring, k + 1, j + 1);
      assert SizeAt(h.mem, h.ring, base, j) && SizeAt(h.mem, h.ring, base, j + 1);
    } else {
      DroppedAt(h.ring, k + 1, 0);
    }
  }

  /** Coalesce with the block above, then with the block below. */
  ghost function MergeIf(h: Heap, k: nat): (r: Heap) {
    if 0 < k && k + 1 < |h.ring| && h.ring[k] in h.mem && h.ring[k+1] in h.mem && h.ring[k] + h.mem[h.ring[k]].size == h.ring[k+1]
    then Merge(h, k) else h
  }

  ghost function Freed(h: Heap, t: nat, a: nat): (r: Heap)
    requires t < |h.ring| && h.ring[t] in h.mem && a in h.live
  {
    MergeIf(MergeIf(Insert(h, t, a), t + 1), t)
  }

  lemma MergeIfGood(h: Heap, base: nat, k: nat, ok: int)
    requires ListOk(h, base) && UnitsOk(h, base) && (forall j :: j != k && j != ok ==> Gap(h.mem, h.ring, j)) && ok < k
    ensures ListOk(MergeIf(h, k), base) && UnitsOk(MergeIf(h, k), base)
    ensures forall j :: j != ok ==> Gap(MergeIf(h, k).mem, MergeIf(h, k).ring, j)
  {
    var r := MergeIf(h, k);
    assert SizeAt(h.mem, h.ring, base, k) && SizeAt(h.mem, h.ring, base, k + 1);
    if 0 < k && k + 1 < |h.ring| && h.ring[k] + h.mem[h.ring[k]].size == h.ring[k+1] {
      MergeList(h, base, k);
      MergeUnits(h, base, k);
      forall j | j != ok ensures Gap(r.mem, r.ring, j) { GapMerge(h, base, k, j); }
    } else {
      assert Gap(h.mem, h.ring, k);
    }
  }

  /** free() keeps the invariant. */
  lemma FreedGood(h: Heap, base: nat, t: nat, a: nat)
    requires Good(h, base) && t < |h.ring| && h.ring[t] in h.mem && a in h.live && Between(h.ring, t, a)
    ensures Good(Freed(h, t, a), base)
  {
    hide Insert, MergeIf, ListOk, UnitsOk;
    var h1 := Insert(h, t, a);
    assert h.live[a] > 0 && h.ring[0] in h.mem by { FreeFacts(h, base, a); }
    InsertList(h, base, t, a);
    InsertUnits(h, base, t, a);
    forall k | k != t && k != t + 1 ensures Gap(h1.mem, h1.ring, k) { GapInsert(h, base, t, a, k); }
    MergeIfGood(h1, base, t + 1, t);
    MergeIfGood(MergeIf(h1, t + 1), base, t, -1);
    assert Gap(Freed(h, t, a).mem, Freed(h, t, a).ring, -1);
  }

  lemma FreeFacts(h: Heap, base: nat, a: nat)
    requires ListOk(h, base) && UnitsOk(h, base) && a in h.live
    ensures h.live[a] > 0 && h.ring[0] in h.mem && a in h.mem && h.mem[a].size == h.live[a] && a > base
  {
    assert LiveAt(h, base, a) && SizeAt(h.mem, h.ring, base, 0);
  }

  // ----- the steps of malloc -----

  lemma NoOverlap(h: Heap, base: nat, j: nat)
    requires ListOk(h, base) && UnitsOk(h, base) && j + 1 < |h.ring| && h.ring[j] in h.mem
    ensures h.ring[j] + h.mem[h.ring[j]].size <= h.ring[j+1]
  {
    assert FreeAt(h, j) && FreeAt(h, j + 1) && SizeAt(h.mem, h.ring, base, j) && SizeAt(h.mem, h.ring, base, j + 1);
    assert Is(h.tag, h.ring[j+1], Free(h.ring[j+1]));
    assert j > 0 && h.ring[j+1] < h.ring[j] + h.mem[h.ring[j]].size ==> Is(h.tag, h.ring[j+1], Free(h.ring[j]));
  }

  /** Free block k leaves the list whole. */
  ghost function Taken(h: Heap, k: nat): (r: Heap)
    requires 0 < k < |h.ring| && h.ring[k] in h.mem && h.ring[k-1] in h.mem
  {
    var p := h.ring[k];
    Heap(h.mem[h.ring[k-1] := h.mem[h.ring[k-1]].(ptr := Next(h.ring, k))], Dropped(h.ring, k),
         h.live[p := h.mem[p].size], Retag(h.tag, p, h.mem[p].size, Live(p)))
  }

  lemma TakenList(h: Heap, base: nat, k: nat)
    requires ListOk(h, base) && 0 < k < |h.ring| && h.ring[k] in h.mem && h.ring[k-1] in h.mem
    ensures ListOk(Taken(h, k), base)
  {
    hide Dropped;
    var r := Taken(h, k);
    assert SizeAt(h.mem, h.ring, base, 0);
    if |h.ring| > 1 { DroppedAt(h.ring, k, 0); }
    forall i, j | 0 <= i < j < |r.ring| ensures r.ring[i] < r.ring[j] {
      DroppedAt(h.ring, k, i);
      DroppedAt(h.ring, k, j);
    }
    forall j ensures LinkAt(r.mem, r.ring, j) && SizeAt(r.mem, r.ring, base, j) {
      if 0 <= j < |r.ring| {
        DroppedAt(h.ring, k, j);
        if j + 1 < |r.ring| { DroppedAt(h.ring, k, j + 1); }
        var i := if j < k then j else j + 1;
        assert LinkAt(h.mem, h.ring, i) && SizeAt(h.mem, h.ring, base, i);
      }
    }
  }

  lemma TakenUnits(h: Heap, base: nat, k: nat)
    requires ListOk(h, base) && UnitsOk(h, base) && 0 < k < |h.ring| && h.ring[k] in h.mem && h.ring[k-1] in h.mem
    ensures UnitsOk(Taken(h, k), base)
  {
    hide Dropped;
    var r, p := Taken(h, k), h.ring[k];
    assert FreeAt(h, k) && SizeAt(h.mem, h.ring, base, k) && SizeAt(h.mem, h.ring, base, 0) && h.ring[0] < p;
    DroppedAt(h.ring, k, 0);
    forall j ensures FreeAt(r, j) {
      if 0 < j < |r.ring| {
        DroppedAt(h.ring, k, j);
        var i := if j < k then j else j + 1;
        assert FreeAt(h, i) && SizeAt(h.mem, h.ring, base, i);
        forall u | r.ring[j] <= u < r.ring[j] + r.mem[r.ring[j]].size ensures Is(r.tag, u, Free(r.ring[j])) {
          assert Is(h.tag, u, Free(h.ring[i]));
          assert p <= u < p + h.mem[p].size ==> Is(h.tag, u, Free(p));
        }
      }
    }
    forall x: nat ensures LiveAt(r, base, x) {
      assert LiveAt(h, base, x);
      if x in h.live { RingNotLive(h, base, k, x); RingNotLive(h, base, k - 1, x); }
      if x in r.live {
        forall u | x <= u < x + r.live[x] ensures Is(r.tag, u, Live(x)) {
          assert p <= u < p + h.mem[p].size ==> Is(h.tag, u, Free(p));
          assert x != p ==> Is(h.tag, u, Live(x));
        }
      }
    }
    forall u: nat ensures UnitAt(r, base, u) {
      assert UnitAt(h, base, u);
      if u in r.tag {
        assert Is(r.tag, u, r.tag[u]) && Is(h.tag, u, h.tag[u]);
        assert p <= u < p + h.mem[p].size ==> Is(h.tag, u, Free(p));
        assert DroppedHas(h.ring, k, r.tag[u].a);
        if h.tag[u].Live? { RingNotLive(h, base, k, h.tag[u].a); }
      }
    }
  }

  lemma TakenGood(h: Heap, base: nat, k: nat)
    requires Good(h, base) && 0 < k < |h.ring| && h.ring[k] in h.mem && h.ring[k-1] in h.mem
    ensures Good(Taken(h, k), base)
  {
    hide UnitsOk;
    var r := Taken(h, k);
    TakenList(h, base, k);
    TakenUnits(h, base, k);
    forall j ensures Gap(r.mem, r.ring, j) {
      DroppedAt(h.ring, k, 0);
      if 0 < j < |r.ring| - 1 {
        DroppedAt(h.ring, k, j);
        DroppedAt(h.ring, k, j + 1);
        assert Gap(h.mem, h.ring, j) && Gap(h.mem, h.ring, j + 1);
        assert SizeAt(h.mem, h.ring, base, j) && SizeAt(h.mem, h.ring, base, j + 1);
        if j < k { NoOverlap(h, base, j); }
      }
    }
  }

  /** The last n units of free block k become an allocated block. */
  ghost function Split(h: Heap, k: nat, n: nat): (r: Heap)
    requires 0 < k < |h.ring| && h.ring[k] in h.mem && n < h.mem[h.ring[k]].size
    requires h.ring[k] + h.mem[h.ring[k]].size - n in h.mem
  {
    var p := h.ring[k];
    var a := p + h.mem[p].size - n;
    Heap(h.mem[p := h.mem[p].(size := h.mem[p].size - n)][a := h.mem[a].(size := n)], h.ring,
         h.live[a := n], Retag(h.tag, a, n, Live(a)))
  }

  lemma SplitFacts(h: Heap, base: nat, k: nat, n: nat)
    requires Good(h, base) && 0 < k < |h.ring| && h.ring[k] in h.mem && 0 < n < h.mem[h.ring[k]].size
    ensures var a := h.ring[k] + h.mem[h.ring[k]].size - n;
      a in h.mem && a > base && a !in h.live && a !in h.ring
  {
    var p := h.ring[k];
    var a := p + h.mem[p].size - n;
    assert FreeAt(h, k) && UnitAt(h, base, a) && LiveAt(h, base, a) && Is(h.tag, a, Free(p));
    forall j | 0 <= j < |h.ring| ensures h.ring[j] != a {
      assert SizeAt(h.mem, h.ring, base, j) && FreeAt(h, j);
      assert j > 0 ==> Is(h.tag, h.ring[j], Free(h.ring[j]));
    }
    assert a in h.live ==> Is(h.tag, a, Live(a));
  }

  lemma SplitGood(h: Heap, base: nat, k: nat, n: nat)
    requires Good(h, base) && 0 < k < |h.ring| && h.ring[k] in h.mem && 0 < n < h.mem[h.ring[k]].size
    requires h.ring[k] + h.mem[h.ring[k]].size - n in h.mem
    ensures Good(Split(h, k, n), base)
  {
    var r, p := Split(h, k, n), h.ring[k];
    var a := p + h.mem[p].size - n;
    SplitFacts(h, base, k, n);
    assert FreeAt(h, k);
    forall j ensures LinkAt(r.mem, r.ring, j) && SizeAt(r.mem, r.ring, base, j) && Gap(r.mem, r.ring, j) {
      assert LinkAt(h.mem, h.ring, j) && SizeAt(h.mem, h.ring, base, j) && Gap(h.mem, h.ring, j);
      if j == k && k + 1 < |h.ring| { NoOverlap(h, base, k); }
    }
    SplitUnits(h, base, k, n);
  }

  lemma SplitUnits(h: Heap, base: nat, k: nat, n: nat)
    requires Good(h, base) && 0 < k < |h.ring| && h.ring[k] in h.mem && 0 < n < h.mem[h.ring[k]].size
    requires h.ring[k] + h.mem[h.ring[k]].size - n in h.mem
    ensures UnitsOk(Split(h, k, n), base)
  {
    var r, p := Split(h, k, n), h.ring[k];
    var a := p + h.mem[p].size - n;
    SplitFacts(h, base, k, n);
    assert FreeAt(h, k);
    forall j ensures FreeAt(r, j) {
      assert FreeAt(h, j) && SizeAt(h.mem, h.ring, base, j);
      if 0 < j < |r.ring| {
        forall u | r.ring[j] <= u < r.ring[j] + r.mem[r.ring[j]].size ensures Is(r.tag, u, Free(r.ring[j])) {
          assert Is(h.tag, u, Free(h.ring[j]));
          assert a <= u < a + n ==> Is(h.tag, u, Free(p));
        }
      }
    }
    forall x: nat ensures LiveAt(r, base, x) {
      assert LiveAt(h, base, x);
      if x in h.live { RingNotLive(h, base, k, x); }
      if x in r.live {
        forall u | x <= u < x + r.live[x] ensures Is(r.tag, u, Live(x)) {
          assert a <= u < a + n ==> Is(h.tag, u, Free(p));
          assert x != a ==> Is(h.tag, u, Live(x));
        }
      }
    }
    forall u: nat ensures UnitAt(r, base, u) {
      assert UnitAt(h, base, u);
      if u in r.tag {
        assert Is(r.tag, u, r.tag[u]) && Is(h.tag, u, h.tag[u]);
        assert a <= u < a + n ==> Is(h.tag, u, Free(p));
      }
    }
  }

  // ----- morecore -----

  function Units(lo: nat, n: nat): (r: set<nat>)
    ensures forall u: nat :: u in r <==> lo <= u < lo + n
  {
    if n == 0 then {} else Units(lo, n - 1) + {lo + n - 1}
  }

  /** Memory fresh from sbrk: zero, but for the size morecore stores in the first unit. */
  function FreshMem(lo: nat, n: nat): (r: Mem) {
    map u | u in Units(lo, n) :: if u == lo then Header(0, n) else Header(0, 0)
  }

  /** n fresh units at lo, as one block for free(). */
  ghost function Grown(h: Heap, lo: nat, n: nat): (r: Heap) {
    Heap(h.mem + FreshMem(lo, n), h.ring,
         h.live[lo := n], h.tag + (map u | u in Units(lo, n) :: Live(lo)))
  }

  /** sbrk memory lies above everything handed out before. */
  ghost predicate Above(h: Heap, base: nat, lo: nat) {
    lo > base && (forall u :: u in h.tag ==> u < lo) && (forall u :: u in h.mem ==> u < lo)
  }

  lemma GrownGood(h: Heap, base: nat, lo: nat, n: nat)
    requires Good(h, base) && Above(h, base, lo) && n > 0
    ensures Good(Grown(h, lo, n), base) && lo in Grown(h, lo, n).live
  {
    var r := Grown(h, lo, n);
    forall k ensures LinkAt(r.mem, r.ring, k) && SizeAt(r.mem, r.ring, base, k) && Gap(r.mem, r.ring, k) && FreeAt(r, k) {
      assert LinkAt(h.mem, h.ring, k) && SizeAt(h.mem, h.ring, base, k) && Gap(h.mem, h.ring, k) && FreeAt(h, k);
      if 0 < k < |r.ring| {
        forall u | r.ring[k] <= u < r.ring[k] + r.mem[r.ring[k]].size ensures Is(r.tag, u, Free(r.ring[k])) {
          assert Is(h.tag, u, Free(h.ring[k]));
        }
      }
    }
    forall x: nat ensures LiveAt(r, base, x) {
      assert LiveAt(h, base, x);
      if x in r.live {
        forall u | x <= u < x + r.live[x] ensures Is(r.tag, u, Live(x)) {
          assert x != lo ==> Is(h.tag, u, Live(x));
        }
      }
    }
    forall u: nat ensures UnitAt(r, base, u) { assert UnitAt(h, base, u); }
  }

  // ----- conservation -----

  lemma {:induction false} UnitsSize(lo: nat, n: nat)
    ensures |Units(lo, n)| == n
  {
    if n > 0 { UnitsSize(lo, n - 1); }
  }

  ghost function Tagged(tag: map<nat, Tag>, s: set<Tag>): (r: set<nat>) {
    set u | u in tag && tag[u] in s
  }

  /** A block of n units adds n to the count of units whose block is in the set. */
  lemma TaggedAdd(tag: map<nat, Tag>, s: set<Tag>, x: Tag, lo: nat, n: nat)
    requires x !in s && forall u: nat :: Is(tag, u, x) <==> lo <= u < lo + n
    ensures |Tagged(tag, s + {x})| == |Tagged(tag, s)| + n
  {
    forall u: nat ensures u in Tagged(tag, s + {x}) <==> u in Tagged(tag, s) || u in Units(lo, n) {
      assert Is(tag, u, x) <==> lo <= u < lo + n;
    }
    assert Tagged(tag, s + {x}) == Tagged(tag, s) + Units(lo, n);
    assert Tagged(tag, s) !! Units(lo, n) by {
      forall u | u in Units(lo, n) ensures u !in Tagged(tag, s) { assert Is(tag, u, x); }
    }
    UnitsSize(lo, n);
  }

  lemma FreeUnits(h: Heap, base: nat, k: nat)
    requires ListOk(h, base) && UnitsOk(h, base) && 0 < k < |h.ring| && h.ring[k] in h.mem
    ensures forall u: nat :: Is(h.tag, u, Free(h.ring[k])) <==> h.ring[k] <= u < h.ring[k] + h.mem[h.ring[k]].size
  {
    assert FreeAt(h, k);
    forall u: nat | Is(h.tag, u, Free(h.ring[k])) ensures h.ring[k] <= u < h.ring[k] + h.mem[h.ring[k]].size {
      assert UnitAt(h, base, u);
    }
  }

  lemma LiveUnits(h: Heap, base: nat, a: nat)
    requires UnitsOk(h, base) && a in h.live
    ensures forall u: nat :: Is(h.tag, u, Live(a)) <==> a <= u < a + h.live[a]
  {
    assert LiveAt(h, base, a);
    forall u: nat | Is(h.tag, u, Live(a)) ensures a <= u < a + h.live[a] { assert UnitAt(h, base, u); }
  }

  ghost function FreeTags(ring: seq<nat>, k: nat): (r: set<Tag>)
    requires k <= |ring|
    ensures forall j :: 0 < j < k ==> Free(ring[j]) in r
  {
    if k <= 1 then {} else FreeTags(ring, k - 1) + {Free(ring[k-1])}
  }

  ghost function LiveTags(xs: seq<nat>, k: nat): (r: set<Tag>)
    requires k <= |xs|
    ensures forall j :: 0 <= j < k ==> Live(xs[j]) in r
  {
    if k == 0 then {} else LiveTags(xs, k - 1) + {Live(xs[k-1])}
  }

  lemma {:induction false} NewFree(ring: seq<nat>, k: nat, x: Tag)
    requires Sorted(ring) && k <= |ring| && x in FreeTags(ring, k)
    ensures x.Free? && k > 0 && x.a <= ring[k-1]
  {
    if x != Free(ring[k-1]) { NewFree(ring, k - 1, x); }
  }

  lemma {:induction false} NewLive(xs: seq<nat>, k: nat, x: Tag)
    requires k <= |xs| && x in LiveTags(xs, k)
    ensures x.Live? && exists j :: 0 <= j < k && xs[j] == x.a
  {
    if x != Live(xs[k-1]) { NewLive(xs, k - 1, x); }
  }

  /** Units on the free list, up to element k. */
  ghost function FreeSum(h: Heap, k: nat): (n: nat)
    requires k <= |h.ring|
  {
    if k <= 1 then 0 else FreeSum(h, k - 1) + if h.ring[k-1] in h.mem then h.mem[h.ring[k-1]].size else 0
  }

  /** Units in the allocated blocks xs[..k]. */
  ghost function LiveSum(live: map<nat, nat>, xs: seq<nat>, k: nat): (n: nat)
    requires k <= |xs|
  {
    if k == 0 then 0 else LiveSum(live, xs, k - 1) + if xs[k-1] in live then live[xs[k-1]] else 0
  }

  lemma {:induction false} FreeCount(h: Heap, base: nat, k: nat)
    requires ListOk(h, base) && UnitsOk(h, base) && k <= |h.ring|
    ensures |Tagged(h.tag, FreeTags(h.ring, k))| == FreeSum(h, k)
  {
    if k > 1 {
      FreeCount(h, base, k - 1);
      assert SizeAt(h.mem, h.ring, base, k - 1);
      FreeUnits(h, base, k - 1);
      var x := Free(h.ring[k-1]);
      if x in FreeTags(h.ring, k - 1) { NewFree(h.ring, k - 1, x); }
      TaggedAdd(h.tag, FreeTags(h.ring, k - 1), x, h.ring[k-1], h.mem[h.ring[k-1]].size);
    }
  }

  lemma {:induction false} LiveCount(h: Heap, base: nat, s: set<Tag>, xs: seq<nat>, k: nat)
    requires UnitsOk(h, base) && k <= |xs| && forall x :: x in s ==> x.Free?
    requires forall i :: 0 <= i < |xs| ==> xs[i] in h.live
    requires forall i, j :: 0 <= i < j < |xs| ==> xs[i] != xs[j]
    ensures |Tagged(h.tag, s + LiveTags(xs, k))| == |Tagged(h.tag, s)| + LiveSum(h.live, xs, k)
  {
    if k == 0 {
      assert s + LiveTags(xs, 0) == s;
    } else {
      LiveCount(h, base, s, xs, k - 1);
      LiveUnits(h, base, xs[k-1]);
      var x := Live(xs[k-1]);
      if x in LiveTags(xs, k - 1) { NewLive(xs, k - 1, x); }
      TaggedAdd(h.tag, s + LiveTags(xs, k - 1), x, xs[k-1], h.live[xs[k-1]]);
      assert s + LiveTags(xs, k) == s + LiveTags(xs, k - 1) + {x};
    }
  }

  /** Free units plus allocated units are the units obtained from sbrk. */
  lemma Conservation(h: Heap, base: nat, xs: seq<nat>)
    requires Good(h, base)
    requires forall a :: a in xs <==> a in h.live
    requires forall i, j :: 0 <= i < j < |xs| ==> xs[i] != xs[j]
    ensures FreeSum(h, |h.ring|) + LiveSum(h.live, xs, |xs|) == |h.tag|
  {
    hide FreeSum, LiveSum, FreeTags, LiveTags;
    var f, l := FreeTags(h.ring, |h.ring|), LiveTags(xs, |xs|);
    FreeCount(h, base, |h.ring|);
    forall x | x in f ensures x.Free? { NewFree(h.ring, |h.ring|, x); }
    LiveCount(h, base, f, xs, |xs|);
    forall u | u in h.tag ensures h.tag[u] in f + l {
      assert UnitAt(h, base, u) && SizeAt(h.mem, h.ring, base, 0);
      if h.tag[u].Free? {
        var j :| 0 <= j < |h.ring| && h.ring[j] == h.tag[u].a;
      } else {
        assert h.tag[u].a in xs;
      }
    }
    assert Tagged(h.tag, f + l) == h.tag.Keys;
  }
}
