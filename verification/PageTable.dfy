/** Two-level page tables (vm.c, mmu.h:105-147) as maps from virtual page to entry, with the
    owner of every physical page. Virtual and physical pages are numbered by address
    divided by PGSIZE. */
module PageTable {
  import opened Basics
  import opened Kalloc

  const NPDENTRIES: nat := 1024
  const NPTENTRIES: nat := 1024
  const KERNBASE: nat := 0x8000_0000

  /** Pages below KERNBASE belong to the user. */
  const UPAGES: nat := 512 * NPTENTRIES
  const VPAGES: nat := NPDENTRIES * NPTENTRIES

  /** PTE_W and PTE_U. */
  datatype Perm = Perm(writable: bool, user: bool)

  datatype Entry = Absent | Present(frame: nat, perm: Perm)

  /** What holds a reference to a page: the address space itself, entry d of the page
      directory, or the mapping of user page v. */
  datatype Slot = DirSlot | TableSlot(d: nat) | PageSlot(v: nat)

  /** One address space and the free list. tabs gives the contents of page-table pages. */
  datatype Space = Space(free: seq<nat>, pgdir: nat, dir: seq<Entry>, tabs: map<nat, seq<Entry>>, owner: map<nat, Slot>)

  function PDX(v: nat): (d: nat) { v / NPTENTRIES }
  function PTX(v: nat): (t: nat) { v % NPTENTRIES }

  lemma PageIndex(v: nat)
    ensures v == PDX(v) * NPTENTRIES + PTX(v) && PTX(v) < NPTENTRIES
    ensures v < VPAGES <==> PDX(v) < NPDENTRIES
  {
  }

  /** A present directory entry leads to a table and takes no permission away. */
  predicate TabOk(s: Space, d: nat)
    requires d < |s.dir|
  {
    s.dir[d].Present? ==>
      && s.dir[d].frame in s.tabs && |s.tabs[s.dir[d].frame]| == NPTENTRIES
      && s.dir[d].perm.writable && s.dir[d].perm.user
  }

  /** What the processor makes of a directory entry and the table entry behind it: the page
      of the latter, with the permissions that both give. */
  function Through(d: Entry, e: Entry): (r: Entry) {
    if d.Absent? || e.Absent? then Absent
    else Present(e.frame, Perm(d.perm.writable && e.perm.writable, d.perm.user && e.perm.user))
  }

  ghost predicate Shape(s: Space) { |s.dir| == NPDENTRIES && forall d: nat :: d < NPDENTRIES ==> TabOk(s, d) }

  /** The translation of virtual page v. */
  ghost function Lookup(s: Space, v: nat): (e: Entry)
    requires Shape(s) && v < VPAGES
  {
    PageIndex(v);
    assert TabOk(s, PDX(v));
    if s.dir[PDX(v)].Absent? then Absent else Through(s.dir[PDX(v)], s.tabs[s.dir[PDX(v)].frame][PTX(v)])
  }

  ghost function Held(s: Space, slot: Slot): (e: Option<nat>)
    requires Shape(s)
  {
    match slot
    case DirSlot => Some(s.pgdir)
    case TableSlot(d) => if d < NPDENTRIES && s.dir[d].Present? then Some(s.dir[d].frame) else None
    case PageSlot(v) => if v < UPAGES && Lookup(s, v).Present? then Some(Lookup(s, v).frame) else None
  }

  ghost predicate Owns(s: Space, slot: Slot)
    requires Shape(s)
  {
    Held(s, slot).Some? ==> Held(s, slot).value in s.owner && s.owner[Held(s, slot).value] == slot
  }

  ghost predicate Owned(s: Space, f: nat)
    requires Shape(s)
  {
    f in s.owner ==> Held(s, s.owner[f]) == Some(f) && f !in s.free
  }

  /** Every page has at most one use, and it is the recorded one. */
  ghost predicate Good(s: Space) {
    && Shape(s)
    && (forall slot :: Owns(s, slot))
    && (forall f: nat :: Owned(s, f))
  }

  ghost function Pool(s: Space): (r: set<nat>) { Elems(s.free) + s.owner.Keys }

  // ----- the four changes -----

  function Blank(n: nat): (r: seq<Entry>)
    ensures |r| == n && forall k :: 0 <= k < n ==> r[k] == Absent
  {
    seq(n, _ => Absent)
  }

  const TABLE_PERM: Perm := Perm(true, true)

  /** A page taken off the free list becomes the table for directory entry d. */
  ghost function AddTable(s: Space, d: nat): (s': Space)
    requires Shape(s) && d < NPDENTRIES && s.free != []
  {
    var f := s.free[0];
    s.(free := s.free[1..], dir := s.dir[d := Present(f, TABLE_PERM)], tabs := s.tabs[f := Blank(NPTENTRIES)],
       owner := s.owner[f := TableSlot(d)])
  }

  ghost function SetEntry(s: Space, v: nat, e: Entry): (s': Space)
    requires Shape(s) && v < VPAGES && s.dir[PDX(v)].Present?
  {
    PageIndex(v);
    assert TabOk(s, PDX(v));
    var f := s.dir[PDX(v)].frame;
    s.(tabs := s.tabs[f := s.tabs[f][PTX(v) := e]])
  }

  /** Page f, in nobody's use, is mapped at v: a user page becomes the owner of f. */
  ghost function MapAt(s: Space, v: nat, f: nat, perm: Perm): (s': Space)
    requires Shape(s) && v < VPAGES && s.dir[PDX(v)].Present?
  {
    SetEntry(s, v, Present(f, perm)).(owner := if v < UPAGES then s.owner[f := PageSlot(v)] else s.owner)
  }

  /** User page v is unmapped and its page freed. */
  ghost function ClearOne(s: Space, v: nat): (s': Space)
    requires Shape(s) && v < VPAGES
  {
    if Lookup(s, v).Absent? then s
    else SetEntry(s, v, Absent).(free := [Lookup(s, v).frame] + s.free, owner := s.owner - {Lookup(s, v).frame})
  }

  ghost predicate SameTabs(s: Space, s': Space) { s'.dir == s.dir && s'.tabs == s.tabs && s'.pgdir == s.pgdir }

  lemma TablesApart(s: Space, d: nat, d': nat)
    requires Good(s) && d < NPDENTRIES && d' < NPDENTRIES && s.dir[d].Present? && s.dir[d'].Present? && d != d'
    ensures s.dir[d].frame != s.dir[d'].frame
  {
    assert Owns(s, TableSlot(d)) && Owns(s, TableSlot(d'));
  }

  lemma SetLookup(s: Space, v: nat, e: Entry, w: nat)
    requires Good(s) && v < VPAGES && w < VPAGES && s.dir[PDX(v)].Present?
    ensures var s' := SetEntry(s, v, e); Shape(s') && Lookup(s', w) == if w == v then e else Lookup(s, w)
  {
    SetShape(s, v, e);
    PageIndex(v);
    PageIndex(w);
    assert TabOk(s, PDX(v)) && TabOk(s, PDX(w));
    if PDX(w) != PDX(v) && s.dir[PDX(w)].Present? { TablesApart(s, PDX(v), PDX(w)); }
  }

  lemma SetShape(s: Space, v: nat, e: Entry)
    requires Shape(s) && v < VPAGES && s.dir[PDX(v)].Present?
    ensures Shape(SetEntry(s, v, e))
  {
    var s' := SetEntry(s, v, e);
    PageIndex(v);
    forall d: nat | d < NPDENTRIES ensures TabOk(s', d) { assert TabOk(s, d) && TabOk(s, PDX(v)); }
  }

  lemma SetHeld(s: Space, v: nat, e: Entry, slot: Slot)
    requires Good(s) && v < VPAGES && s.dir[PDX(v)].Present?
    ensures var s' := SetEntry(s, v, e);
      Shape(s') && Held(s', slot) ==
        if slot == PageSlot(v) && v < UPAGES then (if e.Present? then Some(e.frame) else None) else Held(s, slot)
  {
    SetShape(s, v, e);
    match slot
    case DirSlot =>
    case TableSlot(d) =>
    case PageSlot(w) => if w < UPAGES { SetLookup(s, v, e, w); }
  }

  /** Mapping keeps every page in one use. */
  lemma MapGood(s: Space, v: nat, f: nat, perm: Perm)
    requires Good(s) && v < VPAGES && s.dir[PDX(v)].Present? && Lookup(s, v).Absent?
    requires v < UPAGES ==> f !in Pool(s)
    ensures var s' := MapAt(s, v, f, perm);
      && Good(s') && Pool(s') == (if v < UPAGES then Pool(s) + {f} else Pool(s))
      && forall w: nat :: w < VPAGES ==> Lookup(s', w) == if w == v then Present(f, perm) else Lookup(s, w)
  {
    var e := Present(f, perm);
    var s' := MapAt(s, v, f, perm);
    SetShape(s, v, e);
    SameShape(SetEntry(s, v, e), s');
    hide SetEntry, Shape, Elems;
    forall slot ensures Owns(s', slot) {
      SetHeld(s, v, e, slot);
      SameHeld(SetEntry(s, v, e), s', slot);
      assert Owns(s, slot);
    }
    forall g: nat ensures Owned(s', g) {
      if g in s'.owner {
        SetHeld(s, v, e, s'.owner[g]);
        SameHeld(SetEntry(s, v, e), s', s'.owner[g]);
        assert Owned(s, g);
        assert f in s.free ==> f in Pool(s) by { InPool(s, f); }
      }
    }
    forall w: nat | w < VPAGES ensures Lookup(s', w) == if w == v then e else Lookup(s, w) {
      SetLookup(s, v, e, w);
      SameLookup(SetEntry(s, v, e), s', w);
    }
    assert s'.free == s.free;
  }

  lemma InPool(s: Space, f: nat)
    ensures f in Pool(s) <==> f in s.free || f in s.owner
  {
  }

  lemma SameShape(s: Space, s': Space)
    requires Shape(s) && SameTabs(s, s')
    ensures Shape(s')
  {
    forall d: nat | d < NPDENTRIES ensures TabOk(s', d) { assert TabOk(s, d); }
  }

  lemma SameLookup(s: Space, s': Space, w: nat)
    requires Shape(s) && Shape(s') && SameTabs(s, s') && w < VPAGES
    ensures Lookup(s', w) == Lookup(s, w)
  {
  }

  lemma SameHeld(s: Space, s': Space, slot: Slot)
    requires Shape(s) && Shape(s') && SameTabs(s, s')
    ensures Held(s', slot) == Held(s, slot)
  {
  }

  /** A fresh table changes no translation and no user of a page. */
  lemma TableShape(s: Space, d: nat)
    requires Good(s) && d < NPDENTRIES && s.free != [] && s.dir[d].Absent?
    ensures Shape(AddTable(s, d))
    ensures forall d': nat :: d' < NPDENTRIES && s.dir[d'].Present? ==> s.dir[d'].frame != s.free[0]
  {
    var s', f := AddTable(s, d), s.free[0];
    assert f in s.free;
    forall d': nat | d' < NPDENTRIES && s.dir[d'].Present? ensures s.dir[d'].frame != f {
      assert Owns(s, TableSlot(d'));
      assert Owned(s, s.dir[d'].frame);
    }
    forall d': nat | d' < NPDENTRIES ensures TabOk(s', d') { assert TabOk(s, d'); }
  }

  lemma TableLookup(s: Space, d: nat, w: nat)
    requires Good(s) && d < NPDENTRIES && s.free != [] && s.dir[d].Absent? && w < VPAGES
    ensures Shape(AddTable(s, d)) && Lookup(AddTable(s, d), w) == Lookup(s, w)
  {
    TableShape(s, d);
    PageIndex(w);
    assert TabOk(s, PDX(w)) && TabOk(AddTable(s, d), PDX(w));
  }

  lemma TableHeld(s: Space, d: nat, slot: Slot)
    requires Good(s) && d < NPDENTRIES && s.free != [] && s.dir[d].Absent?
    ensures Shape(AddTable(s, d))
    ensures Held(AddTable(s, d), slot) == if slot == TableSlot(d) then Some(s.free[0]) else Held(s, slot)
  {
    TableShape(s, d);
    match slot
    case DirSlot =>
    case TableSlot(_) =>
    case PageSlot(w) => if w < UPAGES { TableLookup(s, d, w); }
  }

  lemma TableGood(s: Space, d: nat)
    requires Good(s) && d < NPDENTRIES && s.free != [] && s.dir[d].Absent? && NoDup(s.free)
    ensures var s' := AddTable(s, d);
      && Good(s') && Pool(s') == Pool(s)
      && forall w: nat :: w < VPAGES ==> Lookup(s', w) == Lookup(s, w)
  {
    var s', f := AddTable(s, d), s.free[0];
    TableShape(s, d);
    assert f in s.free && s.free == [f] + s.free[1..];
    assert f !in s.owner by { assert Owned(s, f); }
    forall slot ensures Owns(s', slot) {
      TableHeld(s, d, slot);
      assert Owns(s, slot);
    }
    forall g: nat ensures Owned(s', g) {
      if g in s'.owner {
        TableHeld(s, d, s'.owner[g]);
        assert Owned(s, g);
      }
    }
    forall w: nat | w < VPAGES ensures Lookup(s', w) == Lookup(s, w) { TableLookup(s, d, w); }
    assert forall g :: g in Pool(s') <==> g in Pool(s);
  }

  /** Unmapping a user page gives its page back. */
  lemma ClearGood(s: Space, v: nat)
    requires Good(s) && v < UPAGES && NoDup(s.free)
    ensures var s' := ClearOne(s, v);
      && Good(s') && Pool(s') == Pool(s) && NoDup(s'.free) && SameDir(s, s')
      && forall w: nat :: w < VPAGES ==> Lookup(s', w) == if w == v then Absent else Lookup(s, w)
  {
    var s', e := ClearOne(s, v), Lookup(s, v);
    if e.Present? {
      var f := e.frame;
      assert Owns(s, PageSlot(v)) && Owned(s, f);
      assert Held(s, PageSlot(v)) == Some(f);
      assert s.dir[PDX(v)].Present?;
      SetShape(s, v, Absent);
      SameShape(SetEntry(s, v, Absent), s');
      ClearOwners(s, v);
      forall w: nat | w < VPAGES ensures Lookup(s', w) == if w == v then Absent else Lookup(s, w) {
        SetLookup(s, v, Absent, w);
        SameLookup(SetEntry(s, v, Absent), s', w);
      }
      assert forall g :: g in Pool(s') <==> g in Pool(s);
    }
  }

  ghost predicate SameDir(s: Space, s': Space) { s'.dir == s.dir && s'.pgdir == s.pgdir }

  lemma ClearOwners(s: Space, v: nat)
    requires Good(s) && v < UPAGES && Lookup(s, v).Present?
    requires Owns(s, PageSlot(v)) && Held(s, PageSlot(v)) == Some(Lookup(s, v).frame)
    requires Shape(ClearOne(s, v))
    ensures Good(ClearOne(s, v))
  {
    var s', f := ClearOne(s, v), Lookup(s, v).frame;
    hide Lookup, Shape;
    forall slot ensures Owns(s', slot) {
      SetHeld(s, v, Absent, slot);
      SameHeld(SetEntry(s, v, Absent), s', slot);
      assert Owns(s, slot);
    }
    forall g: nat ensures Owned(s', g) {
      if g in s'.owner {
        SetHeld(s, v, Absent, s'.owner[g]);
        SameHeld(SetEntry(s, v, Absent), s', s'.owner[g]);
        assert Owned(s, g);
      }
    }
  }

  // ----- clearing a range -----

  /** Page by page from v up to hi. */
  ghost function ClearPages(s: Space, v: nat, hi: nat): (s': Space)
    requires Good(s) && NoDup(s.free) && hi <= UPAGES
    decreases hi - v
  {
    if v >= hi then s else ClearGood(s, v); ClearPages(ClearOne(s, v), v + 1, hi)
  }

  lemma {:induction false} ClearPagesGood(s: Space, v: nat, hi: nat)
    requires Good(s) && NoDup(s.free) && hi <= UPAGES
    ensures var s' := ClearPages(s, v, hi);
      && Good(s') && Pool(s') == Pool(s) && NoDup(s'.free) && SameDir(s, s')
      && forall w: nat :: w < VPAGES ==> Lookup(s', w) == if v <= w < hi then Absent else Lookup(s, w)
    decreases hi - v
  {
    if v < hi {
      ClearGood(s, v);
      hide ClearOne, Good, Lookup, Pool;
      ClearPagesGood(ClearOne(s, v), v + 1, hi);
    }
  }

  /** A missing table: no page below it is mapped, so skipping it clears the same pages. */
  lemma {:induction false} SkipTable(s: Space, v: nat, hi: nat)
    requires Good(s) && NoDup(s.free) && hi <= UPAGES && v < hi && s.dir[PDX(v)].Absent?
    ensures ClearPages(s, v, hi) == ClearPages(s, (PDX(v) + 1) * NPTENTRIES, hi)
    decreases hi - v
  {
    PageIndex(v);
    assert ClearOne(s, v) == s;
    var end := (PDX(v) + 1) * NPTENTRIES;
    if v + 1 < end && v + 1 < hi {
      assert PDX(v + 1) == PDX(v);
      SkipTable(s, v + 1, hi);
    }
  }
}
