/** The physical page allocator (kalloc.c): a free list threaded through the free pages.
    Pages are frame numbers; a frame's link is the first word of the page. */
module Kalloc {
  import opened Basics

  const PGSIZE: nat := 4096

  /** PHYSTOP / PGSIZE. */
  const TOP: nat := 0xE000

  function Elems(s: seq<nat>): (r: set<nat>) { set f | f in s }

  /** next leads from one free page to the one after it; the last link is null, as 0. */
  predicate LinkAt(next: seq<nat>, free: seq<nat>, k: nat)
    requires k < |free|
  {
    0 < free[k] < |next| && next[free[k]] == if k + 1 < |free| then free[k+1] else 0
  }

  ghost predicate Chain(head: nat, next: seq<nat>, free: seq<nat>) {
    && NoDup(free)
    && head == (if free == [] then 0 else free[0])
    && forall k: nat :: k < |free| ==> LinkAt(next, free, k)
  }

  lemma HeadNull(head: nat, next: seq<nat>, free: seq<nat>)
    requires Chain(head, next, free)
    ensures head == 0 <==> free == []
  {
    if free != [] { assert LinkAt(next, free, 0); }
  }

  lemma PopChain(head: nat, next: seq<nat>, free: seq<nat>)
    requires Chain(head, next, free) && free != []
    ensures LinkAt(next, free, 0) && Chain(next[head], next, free[1..])
  {
    assert LinkAt(next, free, 0);
    forall k: nat | k < |free[1..]| ensures LinkAt(next, free[1..], k) { assert LinkAt(next, free, k + 1); }
  }

  lemma PushChain(head: nat, next: seq<nat>, free: seq<nat>, f: nat)
    requires Chain(head, next, free) && 0 < f < |next| && f !in free
    ensures Chain(f, next[f := head], [f] + free)
  {
    var free', next' := [f] + free, next[f := head];
    forall k: nat | k < |free'| ensures LinkAt(next', free', k) {
      if k > 0 { assert LinkAt(next, free, k - 1); assert free[k-1] in free; }
    }
    forall j, k | 0 <= j < k < |free'| ensures free'[j] != free'[k] { assert free[k-1] in free; }
  }

  /** Page f lies between two addresses as a whole. */
  predicate Whole(f: nat, vstart: nat, vend: nat) { vstart <= f * PGSIZE && f * PGSIZE + PGSIZE <= vend }

  lemma RoundUp(vstart: nat, vend: nat, lo: nat)
    requires lo == (vstart + PGSIZE - 1) / PGSIZE
    ensures forall f: nat :: Whole(f, vstart, vend) <==> lo <= f && f * PGSIZE + PGSIZE <= vend
  {
  }

  lemma LastWhole(vstart: nat, vend: nat, lo: nat, k: nat)
    requires forall f: nat :: Whole(f, vstart, vend) <==> lo <= f && f * PGSIZE + PGSIZE <= vend
    requires lo <= k && (k == lo || k * PGSIZE <= vend) && k * PGSIZE + PGSIZE > vend
    ensures forall f: nat :: Whole(f, vstart, vend) <==> lo <= f < k
  {
    forall f: nat ensures Whole(f, vstart, vend) <==> lo <= f < k {}
  }

  /** Freeing a page that is already free makes the list cyclic: no sequence of distinct
      pages is what it links. With Kfree, the list stays a list if and only if the page
      was not on it. */
  lemma DoubleFree(head: nat, next: seq<nat>, free: seq<nat>, f: nat, g: seq<nat>)
    requires Chain(head, next, free) && f in free && f < |next|
    ensures !Chain(f, next[f := head], g)
  {
    var j :| 0 <= j < |free| && free[j] == f;
    assert LinkAt(next, free, j);
    if Chain(f, next[f := head], g) { Follows(head, next, free, f, j, g, j); }
  }

  /** A list that starts at f and goes on with head runs along free up to its jth page. */
  lemma {:induction false} Follows(head: nat, next: seq<nat>, free: seq<nat>, f: nat, j: nat, g: seq<nat>, m: nat)
    requires Chain(head, next, free) && j < |free| && free[j] == f && f < |next| && Chain(f, next[f := head], g) && m <= j
    ensures m + 1 < |g| && g[m+1] == free[m]
  {
    assert LinkAt(next, free, m) && LinkAt(next, free, j);
    if m == 0 {
      assert LinkAt(next[f := head], g, 0);
    } else {
      Follows(head, next, free, f, j, g, m - 1);
      assert LinkAt(next, free, m - 1);
      assert free[m-1] != free[j];
      assert LinkAt(next[f := head], g, m);
    }
  }

  class Kmem {
    const first: nat
    const next: array<nat>
    var head: nat
    ghost var free: seq<nat>

    /** first is the first frame after the kernel, V2P(end) / PGSIZE rounded up. */
    ghost predicate Valid()
      reads this, next
    {
      && 0 < first && next.Length == TOP && Chain(head, next[..], free)
      && forall f :: f in free ==> first <= f < TOP
    }

    constructor (first: nat)
      requires 0 < first
      ensures Valid() && free == [] && this.first == first && fresh(next)
    {
      this.first := first;
      next := new nat[TOP](_ => 0);
      head, free := 0, [];
    }

    /** kfree of a page-aligned address; false stands for the panic on a page outside the
        allocator's range. It does not look whether the page is free already; see
        DoubleFree. */
    method Kfree(f: nat) returns (ok: bool)
      requires Valid()
      modifies this, next
      ensures ok <==> first <= f < TOP
      ensures !ok ==> Valid() && free == old(free)
      ensures ok ==> head == f && next[..] == old(next[..])[f := old(head)]
      ensures ok && f !in old(free) ==> Valid() && free == [f] + old(free)
    {
      if f < first || f >= TOP { return false; }
      hide Chain;
      if f !in free { PushChain(head, next[..], free, f); }
      ghost var nx: seq<nat> := next[..];
      next[f] := head;
      assert next[..] == nx[f := head];
      head := f;
      free := [f] + free;
      return true;
    }

    /** kalloc: the most recently freed page, or None when there is none. */
    method Kalloc() returns (r: Option<nat>)
      requires Valid()
      modifies this
      ensures Valid()
      ensures r.None? <==> old(free) == []
      ensures r.None? ==> free == old(free)
      ensures r.Some? ==> first <= r.value < TOP && old(free) == [r.value] + free && r.value !in free
    {
      HeadNull(head, next[..], free);
      if head == 0 { return None; }
      PopChain(head, next[..], free);
      r := Some(head);
      assert free[0] in free && free == [free[0]] + free[1..];
      assert forall f :: f in free[1..] ==> f in free;
      head := next[head];
      free := free[1..];
    }

    /** freerange on physical addresses: every whole page between vstart and vend goes on
        the list; false stands for kfree's panic. */
    method FreeRange(vstart: nat, vend: nat) returns (ok: bool)
      requires Valid() && forall f: nat :: Whole(f, vstart, vend) ==> f !in free
      modifies this, next
      ensures Valid()
      ensures ok <==> forall f: nat :: Whole(f, vstart, vend) ==> first <= f < TOP
      ensures ok ==> forall f: nat :: f in free <==> f in old(free) || Whole(f, vstart, vend)
    {
      hide Chain;
      var p := (vstart + PGSIZE - 1) / PGSIZE * PGSIZE;
      ghost var lo := (vstart + PGSIZE - 1) / PGSIZE;
      RoundUp(vstart, vend, lo);
      ghost var k := lo;
      while p + PGSIZE <= vend
        invariant p == k * PGSIZE && lo <= k && Valid()
        invariant k == lo || k * PGSIZE <= vend
        invariant forall f: nat :: f in free <==> f in old(free) || lo <= f < k
        decreases vend - p
      {
        assert Whole(k, vstart, vend);
        assert p / PGSIZE == k;
        ok := Kfree(p / PGSIZE);
        if !ok { return; }
        p := p + PGSIZE;
        k := k + 1;
      }
      LastWhole(vstart, vend, lo, k);
      return true;
    }
  }
}
