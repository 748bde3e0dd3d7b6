/** Building, growing, shrinking and freeing an address space (vm.c:32-80, 119-136,
    222-298), over the page allocator. */
module Vm {
  import opened Basics
  import opened Kalloc
  import opened PageTable

  datatype MapResult = Mapped | NoMemory | Remap

  ghost predicate SameMapping(s: Space, s': Space) {
    Shape(s) && Shape(s') && forall w: nat :: w < VPAGES ==> Lookup(s', w) == Lookup(s, w)
  }

  ghost predicate MappedAt(s: Space, s': Space, v: nat, e: Entry) {
    Shape(s) && Shape(s') && forall w: nat :: w < VPAGES ==> Lookup(s', w) == if w == v then e else Lookup(s, w)
  }

  /** s' differs from s by tables added from the free list. */
  ghost predicate Extends(s: Space, s': Space) { SameMapping(s, s') && Pool(s') == Pool(s) && Elems(s'.free) <= Elems(s.free) }

  /** What one call to walkpgdir with alloc set does to the free list and the directory:
      it takes a page exactly when the table is missing, and fails exactly when there is
      none to take. */
  ghost predicate Spent(s: Space, s': Space, v: nat, failed: bool) {
    && PDX(v) < |s.dir| && |s'.dir| == |s.dir|
    && (failed <==> s.dir[PDX(v)].Absent? && s.free == [])
    && (if failed then s'.dir == s.dir else s'.dir[PDX(v)].Present?)
    && (forall d: nat :: d < |s.dir| && d != PDX(v) ==> s'.dir[d] == s.dir[d])
    && |s.free| == |s'.free| + if s.dir[PDX(v)].Absent? && !failed then 1 else 0
  }

  /** The tables the directory has. */
  ghost function Tables(s: Space): (r: set<nat>) { set d: nat | d < |s.dir| && s.dir[d].Present? }

  /** What mapping k pages from v does to the tables: those of the pages are added, each
      out of one page of the free list. */
  ghost predicate Opened(s: Space, s': Space, v: nat, k: nat) {
    && |s'.dir| == |s.dir| && Tables(s) <= Tables(s') && |s.free| + |Tables(s)| == |s'.free| + |Tables(s')|
    && forall d :: d in Tables(s') ==> d in Tables(s) || (0 < k && PDX(v) <= d <= PDX(v + k - 1))
  }

  class AddressSpace {
    const kmem: Kmem
    var pgdir: nat
    var dir: seq<Entry>
    var tabs: map<nat, seq<Entry>>
    ghost var owner: map<nat, Slot>

    ghost function Now(): (s: Space)
      reads this, kmem
    {
      Space(kmem.free, pgdir, dir, tabs, owner)
    }

    ghost predicate Valid()
      reads this, kmem, kmem.next
    {
      && kmem.Valid() && Good(Now())
      && forall f :: f in owner ==> kmem.first <= f < TOP
    }

    /** Before setupkvm and after freevm: no directory, no page in use. */
    ghost predicate Gone()
      reads this, kmem, kmem.next
    {
      kmem.Valid() && owner == map[]
    }

    constructor (kmem: Kmem)
      requires kmem.Valid()
      ensures Gone() && this.kmem == kmem
    {
      this.kmem := kmem;
      pgdir, dir, tabs, owner := 0, [], map[], map[];
    }

    /** walkpgdir: the table for page v, made if absent and alloc is set. */
    method Walk(v: nat, alloc: bool) returns (r: Option<nat>)
      requires Valid() && v < VPAGES
      modifies this, kmem
      ensures Valid() && pgdir == old(pgdir)
      ensures r.None? ==> Now() == old(Now()) && dir[PDX(v)].Absent? && (alloc ==> kmem.free == [])
      ensures !alloc ==> Now() == old(Now())
      ensures r.Some? ==> PDX(v) < |dir| && dir[PDX(v)].Present? && dir[PDX(v)].frame == r.value
      ensures Extends(old(Now()), Now())
      ensures alloc ==> Spent(old(Now()), Now(), v, r.None?)
    {
      ghost var s := Now();
      PageIndex(v);
      assert Extends(s, s);
      if dir[PDX(v)].Present? { return Some(dir[PDX(v)].frame); }
      if !alloc { return None; }
      hide Good, Lookup, Chain;
      assert NoDup(kmem.free) by { ChainNoDup(kmem.head, kmem.next[..], kmem.free); }
      r := kmem.Kalloc();
      if r.None? { return; }
      TableGood(s, PDX(v));
      var f := r.value;
      tabs := tabs[f := Blank(NPTENTRIES)];
      dir := dir[PDX(v) := Present(f, TABLE_PERM)];
      owner := owner[f := TableSlot(PDX(v))];
      assert s.free[1..] == kmem.free;
      assert Now() == AddTable(s, PDX(v));
    }

    /** One turn of mappages: page v gets page f. */
    method MapOne(v: nat, f: nat, perm: Perm) returns (r: MapResult)
      requires Valid() && v < VPAGES
      requires v < UPAGES ==> f !in Pool(Now()) && kmem.first <= f < TOP
      modifies this, kmem
      ensures Valid() && pgdir == old(pgdir)
      ensures r.Mapped? ==> old(Lookup(Now(), v)).Absent? && MappedAt(old(Now()), Now(), v, Present(f, perm))
      ensures r.Mapped? ==> Pool(Now()) == old(Pool(Now())) + (if v < UPAGES then {f} else {})
      ensures r.NoMemory? ==> Extends(old(Now()), Now())
      ensures r.Remap? ==> old(Lookup(Now(), v)).Present? && Extends(old(Now()), Now())
      ensures Elems(kmem.free) <= old(Elems(kmem.free))
      ensures Spent(old(Now()), Now(), v, r.NoMemory?)
    {
      hide Good, Chain, Pool, Elems;
      ghost var s0 := Now();
      var t := Walk(v, true);
      if t.None? { return NoMemory; }
      ghost var s := Now();
      TableEntry(s, v);
      if tabs[t.value][PTX(v)].Present? { return Remap; }
      MapGood(s, v, f, perm);
      tabs := tabs[t.value := tabs[t.value][PTX(v) := Present(f, perm)]];
      if v < UPAGES { owner := owner[f := PageSlot(v)]; }
      assert Now() == MapAt(s, v, f, perm);
      GoodShape(s);
      GoodShape(Now());
      MapThrough(s0, s, Now(), v, Present(f, perm));
      return Mapped;
    }

    /** mappages. k is how many pages were mapped before it stopped. */
    method MapPages(va: nat, size: nat, pa: nat, perm: Perm) returns (r: MapResult, ghost k: nat)
      requires Valid() && 0 < size && va + size <= 0x1_0000_0000 && pa % PGSIZE == 0
      requires InHand(Now(), kmem.first, va / PGSIZE, Count(va, size), pa / PGSIZE)
      modifies this, kmem
      ensures Valid() && pgdir == old(pgdir) && k <= Count(va, size) && (r.Mapped? <==> k == Count(va, size))
      ensures RunMapped(old(Now()), Now(), va / PGSIZE, k, pa / PGSIZE, perm)
      ensures Pool(Now()) == old(Pool(Now())) + Frames(va / PGSIZE, k, pa / PGSIZE)
      ensures r.Remap? ==> old(Lookup(Now(), va / PGSIZE + k)).Present?
      ensures Elems(kmem.free) <= old(Elems(kmem.free))
      ensures Count(va, size) == 1 ==> Spent(old(Now()), Now(), va / PGSIZE, r.NoMemory?)
      ensures !r.Remap? ==> Opened(old(Now()), Now(), va / PGSIZE, k)
      ensures r.NoMemory? ==> kmem.free == [] && PDX(va / PGSIZE + k) !in Tables(Now())
    {
      hide Spent, Opened, Tables, Good, Chain, Pool, Elems, Lookup, Frames, InHand;
      ghost var s0 := Now();
      ghost var n := Count(va, size);
      var v, base := va / PGSIZE, pa / PGSIZE;
      var last := (va + size - 1) / PGSIZE;
      assert last == v + n - 1 < VPAGES by { CountLast(va, size); }
      k := 0;
      GoodShape(s0);
      NoFrames(s0, v, base, perm);
      OpenNone(s0, v);
      var a, f := v, base;
      while true
        invariant Valid() && pgdir == old(pgdir) && k < n && a == v + k && f == base + k
        invariant RunMapped(s0, Now(), v, k, base, perm) && Pool(Now()) == Pool(s0) + Frames(v, k, base)
        invariant Elems(kmem.free) <= Elems(s0.free) && (k == 0 ==> Now() == s0) && Opened(s0, Now(), v, k)
        decreases n - k
      {
        ghost var s := Now();
        HandLeft(s0, s, kmem.first, v, n, base, k);
        r := MapOne(a, f, perm);
        OpenMore(s0, s, Now(), v, k, r.NoMemory?);
        if !r.Mapped? {
          RunStopped(s0, s, Now(), v, k, base, perm, r);
          return;
        }
        RunMore(s0, s, Now(), v, k, base, perm);
        k := k + 1;
        if a == last { return Mapped, k; }
        a, f := a + 1, f + 1;
      }
    }

    /** deallocuvm: exactly the page-by-page clearing, although it skips missing tables. */
    method DeallocUvm(oldsz: nat, newsz: nat) returns (r: nat)
      requires Valid() && oldsz <= KERNBASE
      modifies this, kmem, kmem.next
      ensures Valid()
      ensures newsz >= oldsz ==> r == oldsz && Now() == old(Now())
      ensures newsz < oldsz ==> Good(old(Now())) && NoDup(old(kmem.free))
      ensures newsz < oldsz ==> r == newsz && Now() == ClearPages(old(Now()), Pages(newsz), Pages(oldsz))
    {
      if newsz >= oldsz { return oldsz; }
      ghost var s0, lo, hi := Now(), Pages(newsz), Pages(oldsz);
      hide Good, Chain, Lookup, ClearPages, ClearOne;
      assert NoDup(s0.free) by { ChainNoDup(kmem.head, kmem.next[..], kmem.free); }
      var v := Pages(newsz);
      while v * PGSIZE < oldsz
        invariant lo <= v && Valid() && NoDup(kmem.free) && hi <= UPAGES
        invariant ClearPages(s0, lo, hi) == ClearPages(Now(), v, hi)
        decreases hi - v
      {
        ghost var s := Now();
        assert v < hi && s == Now();
        v := ClearTurn(v, hi);
      }
      assert ClearPages(Now(), v, hi) == Now() by { ClearNone(Now(), v, hi); }
      return newsz;
    }

    /** One turn of deallocuvm's loop at page v. */
    method ClearTurn(v: nat, ghost hi: nat) returns (v': nat)
      requires Valid() && NoDup(kmem.free) && v < hi <= UPAGES
      modifies this, kmem, kmem.next
      ensures Valid() && NoDup(kmem.free) && v < v' && Good(old(Now()))
      ensures ClearPages(Now(), v', hi) == old(ClearPages(Now(), v, hi))
    {
      hide Good, Chain, Lookup, ClearPages, ClearOne;
      ghost var s := Now();
      var t := Walk(v, false);
      PageIndex(v);
      if t.None? {
        SkipTable(s, v, hi);
        return (PDX(v) + 1) * NPTENTRIES;
      }
      TableEntry(s, v);
      ClearStep(s, v, hi);
      var e := tabs[t.value][PTX(v)];
      if e.Present? {
        ClearOwner(s, v);
        var ok := kmem.Kfree(e.frame);
        tabs := tabs[t.value := tabs[t.value][PTX(v) := Absent]];
        owner := owner - {e.frame};
        assert Now() == ClearOne(s, v) by { ClearOneIs(s, v, Now()); }
      } else {
        assert s == ClearOne(s, v) by { ClearOneSame(s, v); }
      }
      return v + 1;
    }

    /** One turn of allocuvm's loop: a free page mapped at v. When the map fails the page is
        handed back in mem, used by nobody. */
    method AddPage(v: nat) returns (r: MapResult, mem: Option<nat>)
      requires Valid() && v < UPAGES
      modifies this, kmem
      ensures Valid() && Elems(kmem.free) <= old(Elems(kmem.free))
      ensures r.Mapped? ==> mem.Some? && mem.value in old(Elems(kmem.free))
      ensures r.Mapped? ==> MappedAt(old(Now()), Now(), v, Present(mem.value, Perm(true, true)))
      ensures r.Mapped? ==> old(Lookup(Now(), v)).Absent? && Pool(Now()) == old(Pool(Now()))
      ensures r.Remap? ==> old(Lookup(Now(), v)).Present?
      ensures r.NoMemory? ==> SameMapping(old(Now()), Now())
      ensures r.NoMemory? && mem.None? ==> Pool(Now()) == old(Pool(Now()))
      ensures r.NoMemory? && mem.Some? ==> mem.value !in Pool(Now()) && kmem.first <= mem.value < TOP
      ensures r.NoMemory? && mem.Some? ==> old(Pool(Now())) == Pool(Now()) + {mem.value}
      ensures Paid(old(Now()), Now(), v, r)
    {
      hide Good, Chain, Pool, Elems, Lookup, Spent, Opened, Tables, Frames;
      ghost var s := Now();
      mem := kmem.Kalloc();
      if mem.None? {
        GoodShape(s);
        PageIndex(v);
        r := NoMemory;
        return;
      }
      var f := mem.value;
      ghost var s1 := Now();
      HandOut(s, s1, f);
      OnePage(v, f);
      assert InHand(s1, kmem.first, v, 1, f) by { assert HandAt(s1, kmem.first, v, f, 0); }
      ghost var k;
      r, k := MapPages(v * PGSIZE, PGSIZE, f * PGSIZE, Perm(true, true));
      assert Paid(s, Now(), v, r) by { PaidMap(s, s1, Now(), v, r); }
      OneFrame(s, s1, Now(), v, k, f);
    }

    /** allocuvm. It succeeds exactly when nothing in the range was mapped and there are
        enough free pages for the range and its missing tables; it panics exactly when it
        gets as far as a page that was mapped. Otherwise the range is unmapped again and
        every page it took is free or still a table. */
    method AllocUvm(oldsz: nat, newsz: nat) returns (r: AllocResult)
      requires Valid()
      modifies this, kmem, kmem.next
      ensures r.Panicked? <==> oldsz <= newsz < KERNBASE && Panics(old(Now()), Pages(oldsz), Pages(newsz))
      ensures r.Size? ==> Valid() && Pool(Now()) == old(Pool(Now()))
      ensures newsz >= KERNBASE ==> r == Size(0) && Now() == old(Now())
      ensures newsz < KERNBASE && newsz < oldsz ==> r == Size(oldsz) && Now() == old(Now())
      ensures oldsz <= newsz < KERNBASE && r.Size? ==>
        if Fits(old(Now()), Pages(oldsz), Pages(newsz)) then r.n == newsz && Grown(old(Now()), Now(), Pages(oldsz), Pages(newsz))
        else r.n == 0 && Cleared(old(Now()), Now(), Pages(oldsz), Pages(newsz))
    {
      hide Good, Chain, Pool, Elems, Lookup, ClearPages, Grown, Cleared, SameMapping, MappedAt, InUse,
        Panics, Fits, Budgeted, Paid;
      if newsz >= KERNBASE { return Size(0); }
      if newsz < oldsz { return Size(oldsz); }
      ghost var s0, lo, hi := Now(), Pages(oldsz), Pages(newsz);
      GrownNone(s0, lo);
      BudgetNone(s0, lo);
      var v := Pages(oldsz);
      while v * PGSIZE < newsz
        invariant Valid() && lo <= v <= hi <= UPAGES
        invariant Grown(s0, Now(), lo, v) && Pool(Now()) == Pool(s0) && Budgeted(s0, Now(), lo, v)
        decreases hi - v
      {
        ghost var s := Now();
        var m, mem := AddPage(v);
        if m.Remap? {
          PanicsHere(s0, s, Now(), lo, v, hi);
          return Panicked;
        }
        if m.NoMemory? {
          RunsOut(s0, s, Now(), lo, v, hi);
          Rollback(s0, s, oldsz, newsz, v, mem);
          return Size(0);
        }
        BudgetMore(s0, s, Now(), lo, v);
        GrownMore(s0, s, Now(), lo, v, mem.value);
        v := v + 1;
      }
      AllFits(s0, Now(), lo, v);
      return Size(newsz);
    }

    /** allocuvm's two failure branches. */
    method Rollback(ghost s0: Space, ghost s: Space, oldsz: nat, newsz: nat, ghost v: nat, mem: Option<nat>)
      requires Valid() && newsz < KERNBASE && Pages(oldsz) <= v < Pages(newsz)
      requires Grown(s0, s, Pages(oldsz), v) && SameMapping(s, Now())
      requires mem.None? ==> Pool(Now()) == Pool(s0)
      requires mem.Some? ==> mem.value !in Pool(Now()) && kmem.first <= mem.value < TOP && Pool(s0) == Pool(Now()) + {mem.value}
      modifies this, kmem, kmem.next
      ensures Valid() && Pool(Now()) == Pool(s0) && Cleared(s0, Now(), Pages(oldsz), Pages(newsz))
    {
      hide Good, Chain, Pool, Elems, Lookup, ClearPages, Grown, Cleared, SameMapping;
      ghost var s1 := Now();
      var _ := DeallocUvm(newsz, oldsz);
      assert oldsz < newsz;
      RollbackClears(s0, s, s1, Pages(oldsz), v, Pages(newsz));
      if mem.Some? {
        ghost var s2 := Now();
        assert mem.value !in kmem.free && mem.value !in owner by { InPool(s2, mem.value); }
        var ok := kmem.Kfree(mem.value);
        HandBack(s0, s2, Now(), mem.value, Pages(oldsz), Pages(newsz));
      }
    }

    /** freevm: every page of the address space goes back on the free list, once. */
    method FreeVm()
      requires Valid()
      modifies this, kmem, kmem.next
      ensures Gone() && Elems(kmem.free) == old(Pool(Now()))
    {
      hide Good, Chain, Lookup, ClearPages;
      ghost var s0 := Now();
      var _ := DeallocUvm(KERNBASE, 0);
      ghost var s := Now();
      assert Pool(s) == Pool(s0) && OnlyTables(s) by { Emptied(s0); }
      FreeTables();
      TablesLeft(s, NPDENTRIES);
      var ok := kmem.Kfree(pgdir);
      owner := map[];
      AllFreed(s, kmem.free[1..]);
    }

    /** freevm's loop over the directory. */
    method FreeTables()
      requires Valid() && OnlyTables(Now())
      modifies kmem, kmem.next
      ensures kmem.Valid() && Elems(kmem.free) == Elems(old(kmem.free)) + TableFrames(dir, NPDENTRIES)
    {
      hide Good, Chain;
      ghost var s := Now();
      var i := 0;
      assert |dir| == NPDENTRIES by { GoodShape(s); }
      while i < NPDENTRIES
        invariant i <= NPDENTRIES && kmem.Valid() && Elems(kmem.free) == Elems(s.free) + TableFrames(dir, i)
      {
        if dir[i].Present? {
          TablesLeft(s, i);
          assert dir[i].frame !in kmem.free by { assert dir[i].frame !in Elems(kmem.free); }
          var ok := kmem.Kfree(dir[i].frame);
          assert Elems(kmem.free) == Elems(s.free) + TableFrames(dir, i) + {dir[i].frame};
        }
        i := i + 1;
      }
    }

    /** One turn of setupkvm's loop: region i of kmap is mapped, or everything is freed. */
    method MapRegion(data: nat, i: nat, ghost free: seq<nat>) returns (ok: bool)
      requires Valid() && DataOk(data) && Pool(Now()) == Elems(free)
      requires i < |Kmap(data)| && Planned(Now(), Kmap(data), i) && Affords(Now(), free)
      modifies this, kmem, kmem.next
      ensures ok ==> Valid() && Pool(Now()) == Elems(free) && Planned(Now(), Kmap(data), i + 1) && Affords(Now(), free)
      ensures !ok ==> Gone() && Elems(kmem.free) == Elems(free) && |free| < KERNEL_PAGES
    {
      hide Good, Chain, Elems, Lookup, Pool, Kmap, Planned, Tables, Opened, Affords, RunMapped, Count, InHand, DataOk;
      ghost var s := Now();
      var k := Kmap(data)[i];
      KmapSize(data);
      RegionOk(data, i, s, kmem.first);
      ghost var n;
      var m;
      m, n := MapPages(k.va, k.size, k.pa, k.perm);
      assert Pool(Now()) == Pool(s) by { KernelFrames(k.va / PGSIZE, n, k.pa / PGSIZE); }
      assert !m.Remap? by { if n < Count(k.va, k.size) { PlanFree(data, s, i, n); } }
      AffordMore(data, i, s, Now(), free, n);
      if !m.Mapped? {
        AffordLess(data, i, Now(), free, n);
        FreeVm();
        return false;
      }
      PlanMore(s, Now(), Kmap(data), i);
      return true;
    }

    /** The start of setupkvm: a zeroed directory page. */
    method NewDirectory() returns (ok: bool)
      requires Gone()
      modifies this, kmem
      ensures ok <==> old(kmem.free) != []
      ensures ok ==> Valid() && Pool(Now()) == old(Elems(kmem.free)) && Affords(Now(), old(kmem.free))
      ensures ok ==> forall w: nat :: w < VPAGES ==> Lookup(Now(), w).Absent?
      ensures !ok ==> Gone() && kmem.free == old(kmem.free)
    {
      hide Good, Chain, Elems, Lookup, Pool, Affords, Blank, Shape;
      ghost var free := kmem.free;
      var mem := kmem.Kalloc();
      if mem.None? { return false; }
      pgdir := mem.value;
      dir, tabs, owner := Blank(NPDENTRIES), map[], map[pgdir := DirSlot];
      FreshGood(Now(), free);
      AffordNone(Now(), free);
      return true;
    }

    /** setupkvm. data is the physical address where the kernel's data starts. */
    method SetupKvm(data: nat) returns (ok: bool)
      requires Gone() && DataOk(data)
      modifies this, kmem, kmem.next
      ensures ok <==> old(|kmem.free|) >= KERNEL_PAGES
      ensures ok ==> Valid() && Pool(Now()) == old(Elems(kmem.free))
      ensures ok ==> forall w: nat :: w < VPAGES ==> Lookup(Now(), w) == KernelEntry(data, w)
      ensures !ok ==> Gone() && Elems(kmem.free) == old(Elems(kmem.free))
    {
      hide Good, Chain, Elems, Lookup, Pool, Kmap, Planned, KernelEntry, Affords, Blank, Shape, Sized, DataOk;
      ghost var free := kmem.free;
      ok := NewDirectory();
      if !ok { return; }
      var i := 0;
      KmapSize(data);
      PlanNone(Now(), Kmap(data));
      while i < 4
        invariant i <= 4 && Valid() && Pool(Now()) == Elems(free) && Planned(Now(), Kmap(data), i) && Affords(Now(), free)
      {
        ok := MapRegion(data, i, free);
        if !ok { return; }
        i := i + 1;
      }
      PlanMeans(data, Now());
      AffordAll(data, Now(), free);
      return true;
    }
  }

  lemma ChainNoDup(head: nat, next: seq<nat>, free: seq<nat>)
    requires Chain(head, next, free)
    ensures NoDup(free)
  {
  }

  /** Pages needed for sz bytes: PGROUNDUP(sz) / PGSIZE. */
  function Pages(sz: nat): (n: nat)
    ensures sz <= n * PGSIZE < sz + PGSIZE
  {
    (sz + PGSIZE - 1) / PGSIZE
  }

  /** How many pages va .. va+size-1 touches. */
  function Count(va: nat, size: nat): (n: nat)
    requires size > 0
  {
    (va + size - 1) / PGSIZE - va / PGSIZE + 1
  }

  lemma CountLast(va: nat, size: nat)
    requires size > 0 && va + size <= 0x1_0000_0000
    ensures Count(va, size) > 0 && (va + size - 1) / PGSIZE == va / PGSIZE + Count(va, size) - 1 < VPAGES
  {
  }

  /** The user pages among k pages mapped from v to base. */
  ghost function Frames(v: nat, k: nat, base: nat): (r: set<nat>) {
    if k == 0 then {} else Frames(v, k - 1, base) + (if v + k - 1 < UPAGES then {base + k - 1} else {})
  }

  ghost predicate HandAt(s: Space, first: nat, v: nat, base: nat, j: nat) {
    v + j < UPAGES ==> base + j !in Pool(s) && first <= base + j < TOP
  }

  /** Pages to be mapped for the user are in nobody's use. */
  ghost predicate InHand(s: Space, first: nat, v: nat, n: nat, base: nat) { forall j: nat :: j < n ==> HandAt(s, first, v, base, j) }

  ghost predicate RunMapped(s: Space, s': Space, v: nat, k: nat, base: nat, perm: Perm) {
    && Shape(s) && Shape(s')
    && forall w: nat :: w < VPAGES ==>
         if v <= w < v + k then Lookup(s, w).Absent? && Lookup(s', w) == Present(base + (w - v), perm)
         else Lookup(s', w) == Lookup(s, w)
  }

  lemma NoFrames(s: Space, v: nat, base: nat, perm: Perm)
    requires Shape(s)
    ensures Frames(v, 0, base) == {} && RunMapped(s, s, v, 0, base, perm)
    ensures Pool(s) == Pool(s) + Frames(v, 0, base)
  {
  }

  lemma {:induction false} FramesBelow(v: nat, k: nat, base: nat)
    ensures forall f :: f in Frames(v, k, base) ==> f < base + k
  {
    if k > 0 { FramesBelow(v, k - 1, base); }
  }

  lemma HandLeft(s0: Space, s: Space, first: nat, v: nat, n: nat, base: nat, k: nat)
    requires InHand(s0, first, v, n, base) && k < n && Pool(s) == Pool(s0) + Frames(v, k, base)
    ensures v + k < UPAGES ==> base + k !in Pool(s) && first <= base + k < TOP
  {
    assert HandAt(s0, first, v, base, k);
    FramesBelow(v, k, base);
  }

  lemma RunMore(s0: Space, s: Space, s': Space, v: nat, k: nat, base: nat, perm: Perm)
    requires RunMapped(s0, s, v, k, base, perm) && MappedAt(s, s', v + k, Present(base + k, perm)) && v + k < VPAGES
    requires Lookup(s, v + k).Absent?
    requires Pool(s) == Pool(s0) + Frames(v, k, base)
    requires Pool(s') == Pool(s) + (if v + k < UPAGES then {base + k} else {})
    ensures RunMapped(s0, s', v, k + 1, base, perm) && Pool(s') == Pool(s0) + Frames(v, k + 1, base)
  {
    hide Lookup, Pool, Shape;
  }

  lemma RunStopped(s0: Space, s: Space, s': Space, v: nat, k: nat, base: nat, perm: Perm, r: MapResult)
    requires RunMapped(s0, s, v, k, base, perm) && v + k < VPAGES && Extends(s, s')
    requires r.Remap? ==> Lookup(s, v + k).Present?
    requires Pool(s) == Pool(s0) + Frames(v, k, base)
    ensures RunMapped(s0, s', v, k, base, perm) && Pool(s') == Pool(s0) + Frames(v, k, base)
    ensures r.Remap? ==> Lookup(s0, v + k).Present?
  {
    hide Lookup, Pool, Shape, Elems;
  }

  lemma MapThrough(s0: Space, s: Space, s': Space, v: nat, e: Entry)
    requires Extends(s0, s) && MappedAt(s, s', v, e)
    ensures MappedAt(s0, s', v, e)
  {
    hide Lookup, Pool, Shape, Elems;
  }

  lemma GoodShape(s: Space)
    requires Good(s)
    ensures Shape(s)
  {
  }

  lemma TableEntry(s: Space, v: nat)
    requires Good(s) && v < VPAGES && PDX(v) < |s.dir| && s.dir[PDX(v)].Present?
    ensures var f := s.dir[PDX(v)].frame;
      f in s.tabs && PTX(v) < |s.tabs[f]| && s.tabs[f][PTX(v)] == Lookup(s, v)
  {
    PageIndex(v);
    assert TabOk(s, PDX(v));
  }

  lemma ClearNone(s: Space, v: nat, hi: nat)
    requires Good(s) && NoDup(s.free) && v >= hi && hi <= UPAGES
    ensures ClearPages(s, v, hi) == s
  {
  }

  lemma ClearStep(s: Space, v: nat, hi: nat)
    requires Good(s) && NoDup(s.free) && v < hi <= UPAGES
    ensures Good(ClearOne(s, v)) && NoDup(ClearOne(s, v).free)
    ensures ClearPages(s, v, hi) == ClearPages(ClearOne(s, v), v + 1, hi)
  {
    ClearGood(s, v);
  }

  lemma ClearOwner(s: Space, v: nat)
    requires Good(s) && v < UPAGES && Lookup(s, v).Present?
    ensures var f := Lookup(s, v).frame; f in s.owner && f !in s.free
  {
    assert Owns(s, PageSlot(v));
    assert Owned(s, Lookup(s, v).frame);
  }

  lemma ClearOneIs(s: Space, v: nat, s': Space)
    requires Good(s) && v < UPAGES && Lookup(s, v).Present? && PDX(v) < |s.dir| && s.dir[PDX(v)].Present?
    requires var t, f := s.dir[PDX(v)].frame, Lookup(s, v).frame;
      t in s.tabs && PTX(v) < |s.tabs[t]| &&
      s' == Space([f] + s.free, s.pgdir, s.dir, s.tabs[t := s.tabs[t][PTX(v) := Absent]], s.owner - {f})
    ensures s' == ClearOne(s, v)
  {
  }

  lemma ClearOneSame(s: Space, v: nat)
    requires Good(s) && v < UPAGES && Lookup(s, v).Absent?
    ensures s == ClearOne(s, v)
  {
  }

  datatype AllocResult = Size(n: nat) | Panicked

  /** Pages lo .. hi-1 are now mapped, writable by the user, to pages that were free;
      nothing else changed. */
  ghost predicate Grown(s: Space, s': Space, lo: nat, hi: nat) {
    && Shape(s) && Shape(s') && Elems(s'.free) <= Elems(s.free)
    && forall w: nat :: w < VPAGES ==> GrownAt(s, s', lo, hi, w)
  }

  ghost predicate GrownAt(s: Space, s': Space, lo: nat, hi: nat, w: nat)
    requires Shape(s) && Shape(s') && w < VPAGES
  {
    if lo <= w < hi then
      Lookup(s, w).Absent? && Lookup(s', w).Present? && Lookup(s', w).perm == Perm(true, true) && Lookup(s', w).frame in Elems(s.free)
    else Lookup(s', w) == Lookup(s, w)
  }

  /** Pages lo .. hi-1 are unmapped; nothing else changed. */
  ghost predicate Cleared(s: Space, s': Space, lo: nat, hi: nat) {
    && Shape(s) && Shape(s')
    && forall w: nat :: w < VPAGES ==> Lookup(s', w) == if lo <= w < hi then Absent else Lookup(s, w)
  }

  ghost predicate InUse(s: Space, lo: nat, hi: nat) {
    Shape(s) && exists w: nat :: lo <= w < hi && w < VPAGES && Lookup(s, w).Present?
  }

  /** A failed allocuvm leaves the mapping as it was if and only if nothing in the range it
      was asked to fill was mapped. */
  lemma RollbackExact(s: Space, s': Space, lo: nat, hi: nat)
    requires Cleared(s, s', lo, hi)
    ensures SameMapping(s, s') <==> !InUse(s, lo, hi)
  {
    hide Lookup, Shape;
  }

  lemma HandOut(s: Space, s': Space, f: nat)
    requires Good(s) && s.free == [f] + s'.free && s' == s.(free := s'.free) && f !in s'.free
    ensures Good(s') && Pool(s) == Pool(s') + {f} && f !in Pool(s') && SameMapping(s, s')
    ensures f in Elems(s.free) && Elems(s'.free) <= Elems(s.free)
  {
    SameShape(s, s');
    assert f !in s.owner by { assert f in s.free && Owned(s, f); }
    forall slot ensures Owns(s', slot) { SameHeld(s, s', slot); assert Owns(s, slot); }
    forall g: nat ensures Owned(s', g) {
      assert Owned(s, g);
      if g in s'.owner { SameHeld(s, s', s'.owner[g]); }
    }
    assert forall g :: g in Pool(s) <==> g in Pool(s') || g == f;
  }

  lemma OnePage(v: nat, f: nat)
    requires v < UPAGES
    ensures (v * PGSIZE) / PGSIZE == v && (f * PGSIZE) / PGSIZE == f && (f * PGSIZE) % PGSIZE == 0
    ensures Count(v * PGSIZE, PGSIZE) == 1 && v * PGSIZE + PGSIZE <= 0x1_0000_0000
  {
  }

  lemma OneFrame(s: Space, s1: Space, s': Space, v: nat, k: nat, f: nat)
    requires v < UPAGES && SameMapping(s, s1) && k <= 1 && RunMapped(s1, s', v, k, f, Perm(true, true))
    ensures k == 1 ==> Lookup(s, v).Absent?
    ensures Frames(v, k, f) == if k == 0 then {} else {f}
    ensures k == 0 ==> SameMapping(s, s')
    ensures k == 1 ==> MappedAt(s, s', v, Present(f, Perm(true, true)))
  {
    hide Lookup, Shape;
    if k == 1 { assert Frames(v, 0, f) == {}; }
  }

  lemma GrownNone(s: Space, lo: nat)
    requires Good(s)
    ensures Grown(s, s, lo, lo)
  {
  }

  lemma GrownMore(s0: Space, s: Space, s': Space, lo: nat, v: nat, f: nat)
    requires Grown(s0, s, lo, v) && lo <= v < UPAGES && MappedAt(s, s', v, Present(f, Perm(true, true)))
    requires Lookup(s, v).Absent? && f in Elems(s.free) && Elems(s'.free) <= Elems(s.free)
    ensures Grown(s0, s', lo, v + 1)
  {
    hide Lookup, Shape, Elems;
    var v' := v + 1;
    forall w: nat | w < VPAGES ensures GrownAt(s0, s', lo, v', w) { assert GrownAt(s0, s, lo, v, w); }
  }

  lemma RollbackClears(s0: Space, s: Space, s1: Space, lo: nat, v: nat, hi: nat)
    requires Grown(s0, s, lo, v) && SameMapping(s, s1) && v <= hi <= UPAGES && Good(s1) && NoDup(s1.free)
    ensures var s2 := ClearPages(s1, lo, hi); Pool(s2) == Pool(s1) && Cleared(s0, s2, lo, hi)
  {
    ClearPagesGood(s1, lo, hi);
    var s2 := ClearPages(s1, lo, hi);
    GoodShape(s2);
    hide Lookup, Shape, Good, ClearPages, Pool;
    forall w: nat | w < VPAGES ensures Lookup(s2, w) == if lo <= w < hi then Absent else Lookup(s0, w) {
      assert GrownAt(s0, s, lo, v, w);
    }
  }

  lemma HandBack(s0: Space, s: Space, s': Space, f: nat, lo: nat, hi: nat)
    requires Good(s) && f !in Pool(s) && s' == s.(free := [f] + s.free) && Cleared(s0, s, lo, hi)
    ensures Good(s') && Pool(s') == Pool(s) + {f} && Cleared(s0, s', lo, hi)
  {
    SameShape(s, s');
    forall slot ensures Owns(s', slot) { SameHeld(s, s', slot); assert Owns(s, slot); }
    forall g: nat ensures Owned(s', g) {
      assert Owned(s, g);
      if g in s'.owner { SameHeld(s, s', s'.owner[g]); }
    }
    assert forall g :: g in Pool(s') <==> g in Pool(s) || g == f;
    forall w: nat | w < VPAGES ensures Lookup(s', w) == Lookup(s, w) { SameLookup(s, s', w); }
  }

  // ----- freevm -----

  ghost predicate OnlyTables(s: Space) { Good(s) && forall v: nat :: v < UPAGES ==> Lookup(s, v).Absent? }

  ghost function TableFrames(dir: seq<Entry>, n: nat): (r: set<nat>)
    requires n <= |dir|
  {
    if n == 0 then {} else TableFrames(dir, n - 1) + (if dir[n-1].Present? then {dir[n-1].frame} else {})
  }

  lemma {:induction false} InTables(dir: seq<Entry>, n: nat, f: nat)
    requires n <= |dir|
    ensures f in TableFrames(dir, n) <==> exists d: nat :: d < n && dir[d].Present? && dir[d].frame == f
  {
    if n > 0 { InTables(dir, n - 1, f); }
  }

  lemma Emptied(s: Space)
    requires Good(s) && NoDup(s.free)
    ensures Pages(KERNBASE) == UPAGES && Pages(0) == 0
    ensures var s' := ClearPages(s, 0, UPAGES); Pool(s') == Pool(s) && OnlyTables(s')
  {
    ClearPagesGood(s, 0, UPAGES);
  }

  /** Tables not yet freed, and the directory, are not on the free list. */
  lemma TablesLeft(s: Space, n: nat)
    requires Good(s) && n <= NPDENTRIES
    ensures |s.dir| == NPDENTRIES && s.pgdir in s.owner && s.pgdir !in Elems(s.free) + TableFrames(s.dir, n)
    ensures n < NPDENTRIES && s.dir[n].Present? ==>
      s.dir[n].frame in s.owner && s.dir[n].frame !in Elems(s.free) + TableFrames(s.dir, n)
  {
    assert Owns(s, DirSlot) && Owned(s, s.pgdir);
    InTables(s.dir, n, s.pgdir);
    forall d: nat | d < n && s.dir[d].Present? ensures s.dir[d].frame != s.pgdir { assert Owns(s, TableSlot(d)); }
    if n < NPDENTRIES && s.dir[n].Present? {
      assert Owns(s, TableSlot(n)) && Owned(s, s.dir[n].frame);
      InTables(s.dir, n, s.dir[n].frame);
      forall d: nat | d < n && s.dir[d].Present? ensures s.dir[d].frame != s.dir[n].frame { TablesApart(s, d, n); }
    }
  }

  lemma AllFreed(s: Space, rest: seq<nat>)
    requires OnlyTables(s) && |s.dir| == NPDENTRIES
    requires Elems(rest) == Elems(s.free) + TableFrames(s.dir, NPDENTRIES)
    ensures Elems([s.pgdir] + rest) == Pool(s)
  {
    assert Owns(s, DirSlot);
    forall f: nat ensures f in Pool(s) <==> f in Elems(s.free) || f in TableFrames(s.dir, NPDENTRIES) || f == s.pgdir {
      InTables(s.dir, NPDENTRIES, f);
      forall d: nat | d < NPDENTRIES && s.dir[d].Present? && s.dir[d].frame == f ensures f in s.owner { assert Owns(s, TableSlot(d)); }
      if f in s.owner { assert Owned(s, f); }
    }
    assert Elems([s.pgdir] + rest) == Elems(rest) + {s.pgdir};
  }

  // ----- setupkvm -----

  const EXTMEM: nat := 0x10_0000
  const PHYSTOP: nat := 0xE00_0000
  const DEVSPACE: nat := 0xFE00_0000

  datatype Region = Region(va: nat, pa: nat, size: nat, perm: Perm)

  /** The linker aligns the kernel's data to a page, after its text. */
  predicate DataOk(data: nat) { data % PGSIZE == 0 && EXTMEM < data < PHYSTOP }

  function Kmap(data: nat): (ks: seq<Region>)
    requires DataOk(data)
  {
    [Region(KERNBASE, 0, EXTMEM, Perm(true, false)),
     Region(KERNBASE + EXTMEM, EXTMEM, data - EXTMEM, Perm(false, false)),
     Region(KERNBASE + data, data, PHYSTOP - data, Perm(true, false)),
     Region(DEVSPACE, DEVSPACE, 0x1_0000_0000 - DEVSPACE, Perm(true, false))]
  }

  /** The kernel part of every address space (vm.c:88-98), by virtual page. */
  function KernelEntry(data: nat, w: nat): (e: Entry) {
    var base := KERNBASE / PGSIZE;
    if base <= w < base + EXTMEM / PGSIZE then Present(w - base, Perm(true, false))
    else if base + EXTMEM / PGSIZE <= w < base + data / PGSIZE then Present(w - base, Perm(false, false))
    else if base + data / PGSIZE <= w < base + PHYSTOP / PGSIZE then Present(w - base, Perm(true, false))
    else if DEVSPACE / PGSIZE <= w < VPAGES then Present(w, Perm(true, false))
    else Absent
  }

  predicate Within(k: Region, w: nat)
    requires k.size > 0
  {
    k.va / PGSIZE <= w < k.va / PGSIZE + Count(k.va, k.size)
  }

  predicate Sized(ks: seq<Region>) { forall i :: 0 <= i < |ks| ==> ks[i].size > 0 }

  /** What the first i regions map page w to. */
  function Plan(ks: seq<Region>, i: nat, w: nat): (e: Entry)
    requires i <= |ks| && Sized(ks)
  {
    if i == 0 then Absent
    else if Within(ks[i-1], w) then Present(ks[i-1].pa / PGSIZE + (w - ks[i-1].va / PGSIZE), ks[i-1].perm)
    else Plan(ks, i - 1, w)
  }

  ghost predicate Planned(s: Space, ks: seq<Region>, i: nat) {
    Shape(s) && i <= |ks| && Sized(ks) && forall w: nat :: w < VPAGES ==> Lookup(s, w) == Plan(ks, i, w)
  }

  lemma KmapSize(data: nat)
    requires DataOk(data)
    ensures |Kmap(data)| == 4 && Sized(Kmap(data))
  {
  }

  /** A new directory page, all zero, translates nothing. */
  lemma FreshGood(s: Space, free: seq<nat>)
    requires free == [s.pgdir] + s.free && s.pgdir !in s.free
    requires s.dir == Blank(NPDENTRIES) && s.tabs == map[] && s.owner == map[s.pgdir := DirSlot]
    ensures Good(s) && Pool(s) == Elems(free) && forall w: nat :: w < VPAGES ==> Lookup(s, w).Absent?
  {
    forall d: nat | d < NPDENTRIES ensures TabOk(s, d) && s.dir[d].Absent? {}
    forall w: nat | w < VPAGES ensures Lookup(s, w).Absent? { PageIndex(w); }
    hide Lookup, Shape, Blank;
    forall slot ensures Owns(s, slot) {}
    forall f: nat ensures Owned(s, f) {}
    assert forall f :: f in Pool(s) <==> f in Elems(free);
  }

  lemma PlanNone(s: Space, ks: seq<Region>)
    requires Good(s) && Sized(ks) && forall w: nat :: w < VPAGES ==> Lookup(s, w).Absent?
    ensures Planned(s, ks, 0)
  {
  }

  lemma RegionOk(data: nat, i: nat, s: Space, first: nat)
    requires DataOk(data) && i < |Kmap(data)|
    ensures var k := Kmap(data)[i];
      && 0 < k.size && k.va + k.size <= 0x1_0000_0000 && k.pa % PGSIZE == 0 && k.va / PGSIZE >= UPAGES
      && k.va / PGSIZE + Count(k.va, k.size) <= VPAGES
      && InHand(s, first, k.va / PGSIZE, Count(k.va, k.size), k.pa / PGSIZE)
  {
    var k := Kmap(data)[i];
    forall j: nat | j < Count(k.va, k.size) ensures HandAt(s, first, k.va / PGSIZE, k.pa / PGSIZE, j) {}
  }

  lemma {:induction false} KernelFrames(v: nat, n: nat, base: nat)
    requires v >= UPAGES
    ensures Frames(v, n, base) == {}
  {
    if n > 0 { KernelFrames(v, n - 1, base); }
  }

  lemma {:induction false} PlanAbsent(ks: seq<Region>, i: nat, w: nat)
    requires i <= |ks| && Sized(ks) && forall j :: 0 <= j < i ==> !Within(ks[j], w)
    ensures Plan(ks, i, w) == Absent
  {
    if i > 0 { PlanAbsent(ks, i - 1, w); }
  }

  /** The regions of kmap do not overlap. */
  lemma RegionsApart(data: nat, i: nat, j: nat, w: nat)
    requires DataOk(data) && j < i < |Kmap(data)| && Sized(Kmap(data)) && Within(Kmap(data)[i], w)
    ensures !Within(Kmap(data)[j], w)
  {
  }

  lemma PlanFree(data: nat, s: Space, i: nat, n: nat)
    requires DataOk(data) && Sized(Kmap(data)) && i < |Kmap(data)| && Planned(s, Kmap(data), i)
    requires var k := Kmap(data)[i]; n < Count(k.va, k.size) && k.va / PGSIZE + n < VPAGES
    ensures var k := Kmap(data)[i]; Lookup(s, k.va / PGSIZE + n).Absent?
  {
    var ks := Kmap(data);
    var w := ks[i].va / PGSIZE + n;
    hide Lookup, Shape, Kmap, Count;
    forall j | 0 <= j < i ensures !Within(ks[j], w) { RegionsApart(data, i, j, w); }
    PlanAbsent(ks, i, w);
  }

  lemma PlanMore(s: Space, s': Space, ks: seq<Region>, i: nat)
    requires i < |ks| && Planned(s, ks, i)
    requires var k := ks[i]; RunMapped(s, s', k.va / PGSIZE, Count(k.va, k.size), k.pa / PGSIZE, k.perm)
    ensures Planned(s', ks, i + 1)
  {
    hide Lookup, Shape, Count;
  }

  lemma PlanMeans(data: nat, s: Space)
    requires DataOk(data) && Planned(s, Kmap(data), 4)
    ensures Shape(s) && forall w: nat :: w < VPAGES ==> Lookup(s, w) == KernelEntry(data, w)
  {
    var ks := Kmap(data);
    hide Lookup, Shape;
    forall w: nat | w < VPAGES ensures Plan(ks, 4, w) == KernelEntry(data, w) {
      assert Plan(ks, 1, w) == if Within(ks[0], w) then Present(w - KERNBASE / PGSIZE, Perm(true, false)) else Absent;
      assert Plan(ks, 2, w) == if Within(ks[1], w) then Present(w - KERNBASE / PGSIZE, Perm(false, false)) else Plan(ks, 1, w);
      assert Plan(ks, 3, w) == if Within(ks[2], w) then Present(w - KERNBASE / PGSIZE, Perm(true, false)) else Plan(ks, 2, w);
    }
  }

  // ----- how many pages setupkvm takes -----

  lemma OpenNone(s: Space, v: nat)
    ensures Opened(s, s, v, 0)
  {
  }

  lemma SpentTables(s: Space, s': Space, v: nat, failed: bool)
    requires Spent(s, s', v, failed)
    ensures Tables(s') == Tables(s) + (if failed then {} else {PDX(v)})
    ensures |s.free| + |Tables(s)| == |s'.free| + |Tables(s')|
    ensures failed ==> s.free == s'.free == [] && PDX(v) !in Tables(s')
  {
    assert Tables(s') == Tables(s) + (if failed then {} else {PDX(v)});
    assert PDX(v) in Tables(s) ==> Tables(s) + {PDX(v)} == Tables(s);
  }

  lemma OpenMore(s0: Space, s: Space, s': Space, v: nat, k: nat, failed: bool)
    requires Opened(s0, s, v, k) && Spent(s, s', v + k, failed)
    ensures Opened(s0, s', v, if failed then k else k + 1)
    ensures failed ==> s'.free == [] && PDX(v + k) !in Tables(s')
  {
    SpentTables(s, s', v + k, failed);
    hide Spent, Tables;
    assert PDX(v) <= PDX(v + k) && (0 < k ==> PDX(v + k - 1) <= PDX(v + k));
  }

  /** A directory and the tables of 0x8000_0000 to 0x8E00_0000 and of 0xFE00_0000 up. */
  const KERNEL_PAGES: nat := 1 + 56 + 8

  /** The tables of the kernel's part. */
  function KernelTables(): (r: set<nat>) { Span(512, 568) + Span(1016, 1024) }

  function Span(lo: nat, hi: nat): (r: set<nat>)
    requires lo <= hi
    ensures |r| == hi - lo && forall d :: d in r <==> lo <= d < hi
    decreases hi
  {
    if lo == hi then {} else Span(lo, hi - 1) + {hi - 1}
  }

  /** The directory and the tables so far, all of them the kernel's, came off the list. */
  ghost predicate Affords(s: Space, free: seq<nat>) {
    |s.dir| == NPDENTRIES && Tables(s) <= KernelTables() && |free| == |s.free| + 1 + |Tables(s)|
  }

  lemma AffordNone(s: Space, free: seq<nat>)
    requires s.dir == Blank(NPDENTRIES) && |free| == |s.free| + 1
    ensures Affords(s, free)
  {
    assert Tables(s) == {};
  }

  /** Page n of region i of kmap lies in one of those tables. */
  lemma RegionTables(data: nat, i: nat, n: nat)
    requires DataOk(data) && i < |Kmap(data)| && Kmap(data)[i].size > 0 && n < Count(Kmap(data)[i].va, Kmap(data)[i].size)
    ensures PDX(Kmap(data)[i].va / PGSIZE + n) in KernelTables()
    ensures forall d: nat :: PDX(Kmap(data)[i].va / PGSIZE) <= d <= PDX(Kmap(data)[i].va / PGSIZE + n) ==> d in KernelTables()
  {
    hide Span;
    assert i == 0 || i == 1 || i == 2 || i == 3;
  }

  lemma AffordMore(data: nat, i: nat, s: Space, s': Space, free: seq<nat>, n: nat)
    requires DataOk(data) && i < |Kmap(data)| && Kmap(data)[i].size > 0 && n <= Count(Kmap(data)[i].va, Kmap(data)[i].size)
    requires Affords(s, free) && Opened(s, s', Kmap(data)[i].va / PGSIZE, n)
    ensures Affords(s', free)
  {
    if n > 0 { RegionTables(data, i, n - 1); }
    hide Kmap, Count, KernelTables, Tables;
  }

  lemma AffordLess(data: nat, i: nat, s: Space, free: seq<nat>, n: nat)
    requires DataOk(data) && i < |Kmap(data)| && Kmap(data)[i].size > 0 && n < Count(Kmap(data)[i].va, Kmap(data)[i].size)
    requires Affords(s, free) && s.free == [] && PDX(Kmap(data)[i].va / PGSIZE + n) !in Tables(s)
    ensures |free| < KERNEL_PAGES
  {
    RegionTables(data, i, n);
    hide Kmap, Count, Span, Tables;
    Fewer(Tables(s), KernelTables(), PDX(Kmap(data)[i].va / PGSIZE + n));
    KernelCount();
  }

  lemma KernelCount()
    ensures |KernelTables()| + 1 == KERNEL_PAGES
  {
    hide Span;
    assert Span(512, 568) !! Span(1016, 1024);
  }

  lemma Fewer(a: set<nat>, b: set<nat>, d: nat)
    requires a <= b && d in b && d !in a
    ensures |a| < |b|
  {
    Subset(a, b - {d});
  }

  lemma TableUsed(data: nat, s: Space, d: nat)
    requires |s.dir| == NPDENTRIES && Shape(s) && DataOk(data) && d in KernelTables()
    requires forall w: nat :: w < VPAGES ==> Lookup(s, w) == KernelEntry(data, w)
    ensures d in Tables(s)
  {
    hide Span, TabOk;
    assert 512 <= d < 568 || 1016 <= d < 1024;
    var w := d * NPTENTRIES;
    assert w < VPAGES && KernelEntry(data, w).Present? by { hide Lookup, Shape; }
    assert Lookup(s, w).Present?;
    assert PDX(w) == d;
    hide KernelEntry;
  }

  /** The kernel's mappings use every one of those tables. */
  lemma AffordAll(data: nat, s: Space, free: seq<nat>)
    requires Affords(s, free) && Shape(s) && DataOk(data)
    requires forall w: nat :: w < VPAGES ==> Lookup(s, w) == KernelEntry(data, w)
    ensures |free| >= KERNEL_PAGES
  {
    hide Lookup, Shape, KernelEntry, Span, Tables, KernelTables;
    forall d | d in KernelTables() ensures d in Tables(s) { TableUsed(data, s, d); }
    assert Tables(s) == KernelTables();
    KernelCount();
  }

  // ----- how many pages allocuvm takes -----

  /** What one turn of allocuvm does to the free list and the directory. */
  ghost predicate Paid(s: Space, s': Space, v: nat, r: MapResult) {
    && PDX(v) < |s.dir| && |s'.dir| == |s.dir|
    && var fee := if s.dir[PDX(v)].Absent? then 2 else 1;
    && (r.NoMemory? <==> |s.free| < fee)
    && (r.Mapped? ==>
          && |s.free| == |s'.free| + fee && s'.dir[PDX(v)].Present?
          && forall d: nat :: d < |s.dir| && d != PDX(v) ==> s'.dir[d] == s.dir[d])
  }

  lemma PaidMap(s: Space, s1: Space, s': Space, v: nat, r: MapResult)
    requires s1.dir == s.dir && |s.free| == |s1.free| + 1 && Spent(s1, s', v, r.NoMemory?)
    ensures Paid(s, s', v, r)
  {
  }

  /** Free pages used for page v: one for it, one for its table if this is the first page
      of the range in a missing table. */
  ghost function Fee(s: Space, lo: nat, v: nat): (n: nat)
    requires Shape(s) && v < UPAGES
  {
    PageIndex(v);
    if s.dir[PDX(v)].Absent? && (v <= lo || PDX(v - 1) != PDX(v)) then 2 else 1
  }

  ghost function Need(s: Space, lo: nat, hi: nat): (n: nat)
    requires Shape(s) && hi <= UPAGES
    decreases hi
  {
    if hi <= lo then 0 else Need(s, lo, hi - 1) + Fee(s, lo, hi - 1)
  }

  lemma {:induction false} NeedMore(s: Space, lo: nat, v: nat, hi: nat)
    requires Shape(s) && v <= hi <= UPAGES
    ensures Need(s, lo, v) <= Need(s, lo, hi)
    decreases hi - v
  {
    hide Fee, Shape;
    if v < hi { NeedMore(s, lo, v, hi - 1); }
  }

  /** The range was free and there are pages enough. */
  ghost predicate Fits(s: Space, lo: nat, hi: nat) {
    Shape(s) && hi <= UPAGES && !InUse(s, lo, hi) && |s.free| >= Need(s, lo, hi)
  }

  /** w is the first mapped page of the range. */
  ghost predicate FirstUsed(s: Space, lo: nat, hi: nat, w: nat) {
    && Shape(s) && lo <= w < hi <= UPAGES && Lookup(s, w).Present?
    && (forall u: nat :: lo <= u < w ==> Lookup(s, u).Absent?)
  }

  ghost predicate PanicsAt(s: Space, lo: nat, hi: nat, w: nat) { FirstUsed(s, lo, hi, w) && |s.free| > Need(s, lo, w) }

  /** The pages last until the first mapped page of the range. */
  ghost predicate Panics(s: Space, lo: nat, hi: nat) { exists w: nat :: PanicsAt(s, lo, hi, w) }

  ghost predicate Budgeted(s0: Space, s: Space, lo: nat, v: nat) {
    && Shape(s0) && v <= UPAGES && |s.dir| == NPDENTRIES && |s0.free| == |s.free| + Need(s0, lo, v)
    && forall d: nat :: d < NPDENTRIES ==>
         (s.dir[d].Present? <==> s0.dir[d].Present? || (lo < v && PDX(lo) <= d <= PDX(v - 1)))
  }

  lemma BudgetNone(s: Space, lo: nat)
    requires Good(s)
    ensures lo <= UPAGES ==> Budgeted(s, s, lo, lo)
  {
  }

  lemma PdxNext(lo: nat, v: nat)
    requires lo < v
    ensures PDX(lo) <= PDX(v - 1) <= PDX(v) <= PDX(v - 1) + 1
  {
  }

  /** The table of page v is missing exactly when it is charged for. */
  lemma FeeIs(s0: Space, s: Space, lo: nat, v: nat)
    requires Budgeted(s0, s, lo, v) && lo <= v < UPAGES
    ensures PDX(v) < NPDENTRIES && Fee(s0, lo, v) == if s.dir[PDX(v)].Absent? then 2 else 1
  {
    hide Need;
    PageIndex(v);
    if lo < v { PdxNext(lo, v); }
  }

  lemma BudgetMore(s0: Space, s: Space, s': Space, lo: nat, v: nat)
    requires Budgeted(s0, s, lo, v) && lo <= v < UPAGES && Paid(s, s', v, Mapped)
    ensures Budgeted(s0, s', lo, v + 1)
  {
    hide Fee;
    FeeIs(s0, s, lo, v);
    if lo < v { PdxNext(lo, v); }
    forall d: nat | d < NPDENTRIES
      ensures s'.dir[d].Present? <==> s0.dir[d].Present? || (PDX(lo) <= d <= PDX(v))
    {
      if d != PDX(v) { assert s'.dir[d] == s.dir[d]; }
    }
  }

  lemma GrownAbsent(s0: Space, s: Space, lo: nat, v: nat)
    requires Grown(s0, s, lo, v) && v <= UPAGES
    ensures forall u: nat :: lo <= u < v ==> Lookup(s0, u).Absent?
    ensures v < UPAGES ==> Lookup(s, v) == Lookup(s0, v)
  {
    hide Lookup, Shape, Elems;
    forall u: nat | u < v && lo <= u ensures Lookup(s0, u).Absent? { assert GrownAt(s0, s, lo, v, u); }
    if v < UPAGES { assert GrownAt(s0, s, lo, v, v); }
  }

  lemma PanicsHere(s0: Space, s: Space, s': Space, lo: nat, v: nat, hi: nat)
    requires Grown(s0, s, lo, v) && Budgeted(s0, s, lo, v) && lo <= v < hi <= UPAGES
    requires Lookup(s, v).Present? && Paid(s, s', v, Remap)
    ensures Panics(s0, lo, hi)
  {
    GrownAbsent(s0, s, lo, v);
    hide Lookup, Shape, Grown, Need;
    assert PanicsAt(s0, lo, hi, v);
  }

  lemma RunsOut(s0: Space, s: Space, s': Space, lo: nat, v: nat, hi: nat)
    requires Grown(s0, s, lo, v) && Budgeted(s0, s, lo, v) && lo <= v < hi <= UPAGES && Paid(s, s', v, NoMemory)
    ensures !Panics(s0, lo, hi) && !Fits(s0, lo, hi)
  {
    GrownAbsent(s0, s, lo, v);
    FeeIs(s0, s, lo, v);
    NeedMore(s0, lo, v + 1, hi);
    assert |s0.free| < Need(s0, lo, v + 1) <= Need(s0, lo, hi) by { hide Lookup, Shape, Fee; }
    assert Lookup(s, v).Present? ==> |s.free| == 0 by { PageIndex(v); }
    hide Lookup, Shape, Grown, Need, Fee, Paid;
    forall w: nat ensures !PanicsAt(s0, lo, hi, w) {
      if v < w <= hi { NeedMore(s0, lo, v + 1, w); }
    }
  }

  lemma AllFits(s0: Space, s: Space, lo: nat, hi: nat)
    requires Grown(s0, s, lo, hi) && Budgeted(s0, s, lo, hi) && lo <= hi <= UPAGES
    ensures Fits(s0, lo, hi) && !Panics(s0, lo, hi)
  {
    GrownAbsent(s0, s, lo, hi);
    hide Lookup, Shape, Grown, Need;
    forall w: nat ensures !PanicsAt(s0, lo, hi, w) {}
  }

  lemma {:induction false} FirstOf(s: Space, lo: nat, v: nat) returns (w: nat)
    requires Shape(s) && lo <= v < UPAGES && Lookup(s, v).Present?
    ensures lo <= w <= v && FirstUsed(s, lo, v + 1, w)
    decreases v
  {
    hide Lookup, Shape;
    if u: nat :| lo <= u < v && Lookup(s, u).Present? {
      w := FirstOf(s, lo, u);
    } else {
      w := v;
    }
  }

  ghost predicate LosesAt(s: Space, lo: nat, hi: nat, w: nat) { FirstUsed(s, lo, hi, w) && |s.free| <= Need(s, lo, w) }

  /** When allocuvm returns 0 and has unmapped pages that were mapped before: exactly when
      the free pages do not last until the first mapped page of the range. */
  lemma LosesIff(s: Space, s': Space, lo: nat, hi: nat)
    requires Good(s) && lo <= hi <= UPAGES && Cleared(s, s', lo, hi)
    ensures !Fits(s, lo, hi) && !Panics(s, lo, hi) && !SameMapping(s, s') <==> exists w: nat :: LosesAt(s, lo, hi, w)
  {
    RollbackExact(s, s', lo, hi);
    hide Lookup, Shape, Good, Need, Cleared, SameMapping;
    if InUse(s, lo, hi) {
      var v: nat :| lo <= v < hi && v < VPAGES && Lookup(s, v).Present?;
      var w := FirstOf(s, lo, v);
      assert FirstUsed(s, lo, hi, w);
      forall u: nat | FirstUsed(s, lo, hi, u) ensures u == w {}
      assert LosesAt(s, lo, hi, w) || PanicsAt(s, lo, hi, w);
    }
  }

  // ----- a mapping lost -----

  /** Frame 1 is the directory, 2 its first table, 3 is mapped at page 1; nothing is free. */
  ghost predicate Full(s: Space) {
    && s.free == [] && s.pgdir == 1 && s.dir == Blank(NPDENTRIES)[0 := Present(2, TABLE_PERM)]
    && s.tabs == map[2 := Blank(NPTENTRIES)[1 := Present(3, Perm(true, true))]]
    && s.owner == map[1 := DirSlot, 2 := TableSlot(0), 3 := PageSlot(1)]
  }

  lemma FullLookup(s: Space)
    requires Full(s)
    ensures Shape(s) && forall w: nat :: w < VPAGES ==> Lookup(s, w) == if w == 1 then Present(3, Perm(true, true)) else Absent
  {
    forall d: nat | d < NPDENTRIES ensures TabOk(s, d) {}
    forall w: nat | w < VPAGES ensures Lookup(s, w) == if w == 1 then Present(3, Perm(true, true)) else Absent {
      PageIndex(w);
    }
  }

  lemma FullGood(s: Space)
    requires Full(s)
    ensures Good(s)
  {
    FullLookup(s);
    hide Lookup, Shape, Blank;
    assert s.dir[0] == Present(2, TABLE_PERM) && forall d: nat :: 0 < d < NPDENTRIES ==> s.dir[d].Absent?;
    forall slot ensures Owns(s, slot) {}
    forall f: nat ensures Owned(s, f) {}
  }

  /** Growing from 0 to two pages fails for want of memory, and page 1 loses its mapping. */
  lemma FullFails(s: Space)
    requires Full(s)
    ensures Pages(0) == 0 && Pages(2 * PGSIZE) == 2 && !Fits(s, 0, 2) && !Panics(s, 0, 2)
  {
    FullLookup(s);
    hide Lookup, Shape;
    assert Lookup(s, 1).Present?;
    assert Need(s, 0, 0) == 0 && Need(s, 0, 1) > 0;
    forall w: nat ensures !PanicsAt(s, 0, 2, w) {}
  }

  /** A failed allocuvm that unmaps a page it did not map. */
  method LostMapping() returns (a: AddressSpace, r: AllocResult, ghost before: Space)
    ensures a.Valid() && r == Size(0) && Shape(before) && Lookup(before, 1) == Present(3, Perm(true, true))
    ensures Good(a.Now()) && Lookup(a.Now(), 1).Absent? && !SameMapping(before, a.Now())
  {
    hide Good, Lookup, Fits, Panics, Pool, Chain, Grown;
    var kmem := new Kmem(1);
    a := new AddressSpace(kmem);
    a.pgdir, a.dir := 1, Blank(NPDENTRIES)[0 := Present(2, TABLE_PERM)];
    a.tabs := map[2 := Blank(NPTENTRIES)[1 := Present(3, Perm(true, true))]];
    a.owner := map[1 := DirSlot, 2 := TableSlot(0), 3 := PageSlot(1)];
    before := a.Now();
    FullGood(before);
    FullLookup(before);
    FullFails(before);
    r := a.AllocUvm(0, 2 * PGSIZE);
  }
}
