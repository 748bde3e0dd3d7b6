/** The buffer cache (bio.c) over a disk (memide.c) and log_write's pinning (log.c:231), as
    a machine whose steps are the atomic parts of bget, bread, bwrite, log_write and brelse,
    interleaved by any number of processes. */
module BufMachine {
  import opened Basics
  import opened Blocks
  import opened BufRing

  datatype Buf = Buf(dev: nat, blockno: nat, refcnt: nat, valid: bool, dirty: bool, holder: Option<nat>, data: Block)

  /** ring is the list order; stamps[i] is when buffer i was last released to count zero;
      refs[i] is who holds a reference to it; view[k] is what was last logged or written
      for block k. */
  datatype Cache = Cache(bufs: seq<Buf>, disk: seq<Block>,
                         ring: seq<nat>, stamps: seq<nat>, clock: nat, refs: seq<multiset<nat>>, view: seq<Block>)

  predicate HasKey(b: Buf, dev: nat, blockno: nat) { b.dev == dev && b.blockno == blockno }

  predicate Free(b: Buf) { b.refcnt == 0 && !b.dirty }

  ghost predicate Uncached(s: Cache, dev: nat, blockno: nat) {
    forall i :: 0 <= i < |s.bufs| ==> !HasKey(s.bufs[i], dev, blockno)
  }

  /** i is free and was released before every other free buffer. */
  ghost predicate Oldest(s: Cache, i: nat)
    requires |s.stamps| == |s.bufs|
  {
    && i < |s.bufs| && Free(s.bufs[i])
    && forall j :: 0 <= j < |s.bufs| && Free(s.bufs[j]) ==> s.stamps[i] <= s.stamps[j]
  }

  // ----- steps -----

  datatype Action =
    | Hit(p: nat, i: nat, dev: nat, blockno: nat)
    | Miss(p: nat, i: nat, dev: nat, blockno: nat)
    | Lock(p: nat, i: nat)
    | Fill(p: nat, i: nat)
    | Edit(p: nat, i: nat, data: Block)
    | Log(p: nat, i: nat)
    | Write(p: nat, i: nat)
    | Unlock(p: nat, i: nat)
    | Drop(p: nat, i: nat)

  predicate Addressable(s: Cache, b: Buf) { b.dev == 1 && b.blockno < |s.disk| }

  predicate Shape(s: Cache) {
    |s.stamps| == |s.bufs| && |s.refs| == |s.bufs| && |s.ring| == |s.bufs| && |s.view| == |s.disk|
  }

  predicate Settled(s: Cache, b: Buf)
    requires Shape(s)
  {
    b.valid ==> Addressable(s, b) && b.data == s.view[b.blockno]
  }

  /** A process that changed a buffer logs or writes it before releasing it. */
  ghost predicate Enabled(s: Cache, a: Action) {
    Shape(s) && a.i < |s.bufs| && var b := s.bufs[a.i];
    match a
    case Hit(p, i, dev, blockno) => HasKey(b, dev, blockno)
    case Miss(p, i, dev, blockno) => Uncached(s, dev, blockno) && Oldest(s, i)
    case Lock(p, i) => p in s.refs[i] && b.holder.None?
    case Fill(p, i) => b.holder == Some(p) && !b.valid && Addressable(s, b)
    case Edit(p, i, data) => b.holder == Some(p)
    case Log(p, i) => b.holder == Some(p) && b.valid && Addressable(s, b)
    case Write(p, i) => b.holder == Some(p) && Addressable(s, b)
    case Unlock(p, i) => b.holder == Some(p) && Settled(s, b)
    case Drop(p, i) => p in s.refs[i] && b.holder != Some(p) && b.refcnt > 0 && i in s.ring
  }

  function Put(s: Cache, i: nat, b: Buf): (s': Cache)
    requires i < |s.bufs|
  {
    s.(bufs := s.bufs[i := b])
  }

  function Taken(s: Cache, p: nat, i: nat): (s': Cache)
    requires Shape(s) && i < |s.bufs|
  {
    Put(s, i, s.bufs[i].(refcnt := s.bufs[i].refcnt + 1)).(refs := s.refs[i := s.refs[i] + multiset{p}])
  }

  function Recycled(s: Cache, p: nat, i: nat, dev: nat, blockno: nat): (s': Cache)
    requires Shape(s) && i < |s.bufs|
  {
    Put(s, i, s.bufs[i].(dev := dev, blockno := blockno, valid := false, dirty := false, refcnt := 1))
      .(refs := s.refs[i := multiset{p}])
  }

  function PosIn(ring: seq<nat>, i: nat): (k: nat)
    requires i in ring
    ensures k < |ring| && ring[k] == i
  {
    if ring[0] == i then 0 else 1 + PosIn(ring[1..], i)
  }

  /** One reference less on the count; at zero the buffer moves to the front. */
  function Uncounted(s: Cache, i: nat): (s': Cache)
    requires Shape(s) && i < |s.bufs| && s.bufs[i].refcnt > 0 && i in s.ring
  {
    var b := s.bufs[i].(refcnt := s.bufs[i].refcnt - 1);
    if b.refcnt > 0 then Put(s, i, b)
    else Put(s, i, b).(ring := ToFront(s.ring, PosIn(s.ring, i)), stamps := s.stamps[i := s.clock], clock := s.clock + 1)
  }

  /** The second half of brelse, by a process that gives up its reference. */
  function Dropped(s: Cache, p: nat, i: nat): (s': Cache)
    requires Shape(s) && i < |s.bufs| && s.bufs[i].refcnt > 0 && i in s.ring
  {
    Uncounted(s, i).(refs := s.refs[i := s.refs[i] - multiset{p}])
  }

  ghost function Next(s: Cache, a: Action): (s': Cache)
    requires Enabled(s, a)
  {
    var b := s.bufs[a.i];
    match a
    case Hit(p, i, _, _) => Taken(s, p, i)
    case Miss(p, i, dev, blockno) => Recycled(s, p, i, dev, blockno)
    case Lock(p, i) => Put(s, i, b.(holder := Some(p)))
    case Fill(p, i) => Put(s, i, b.(data := s.disk[b.blockno], valid := true))
    case Edit(p, i, data) => Put(s, i, b.(data := data))
    case Log(p, i) => Put(s, i, b.(dirty := true)).(view := s.view[b.blockno := b.data])
    case Write(p, i) => Put(s, i, b.(dirty := false, valid := true))
      .(disk := s.disk[b.blockno := b.data], view := s.view[b.blockno := b.data])
    case Unlock(p, i) => Put(s, i, b.(holder := None))
    case Drop(p, i) => Dropped(s, p, i)
  }

  // ----- invariant -----

  ghost predicate RefOk(s: Cache, i: nat)
    requires Shape(s) && i < |s.bufs|
  {
    var b := s.bufs[i];
    b.refcnt == |s.refs[i]| && (b.holder.Some? ==> b.holder.value in s.refs[i])
  }

  predicate DataOk(s: Cache, i: nat)
    requires Shape(s) && i < |s.bufs|
  {
    var b := s.bufs[i];
    && (b.dirty ==> b.valid)
    && (b.valid ==> Addressable(s, b))
    && (b.valid && b.holder.None? ==> b.data == s.view[b.blockno])
  }

  /** Two buffers share an identity only if it is the one buffers have before first use. */
  ghost predicate KeysOk(s: Cache) {
    forall i, j :: 0 <= i < j < |s.bufs| && HasKey(s.bufs[i], s.bufs[j].dev, s.bufs[j].blockno) ==>
      HasKey(s.bufs[i], 0, 0)
  }

  predicate PinnedBy(s: Cache, i: nat, k: nat) { i < |s.bufs| && s.bufs[i].dirty && HasKey(s.bufs[i], 1, k) }

  /** The disk is behind only for blocks pinned in the cache. */
  ghost predicate SyncOk(s: Cache, k: nat)
    requires Shape(s) && k < |s.disk|
  {
    s.disk[k] == s.view[k] || exists i: nat :: PinnedBy(s, i, k)
  }

  predicate Newer(s: Cache, j: nat, k: nat)
    requires Shape(s) && j < |s.ring| && k < |s.ring|
  {
    s.ring[j] < |s.bufs| && s.ring[k] < |s.bufs| && s.stamps[s.ring[j]] > s.stamps[s.ring[k]]
  }

  /** The list holds every buffer once, most recently released first. */
  ghost predicate OrderOk(s: Cache)
    requires Shape(s)
  {
    && NoDup(s.ring)
    && (forall i: nat :: i < |s.bufs| ==> i in s.ring && s.stamps[i] < s.clock)
    && (forall k: nat :: k < |s.ring| ==> s.ring[k] < |s.bufs|)
    && (forall j: nat, k: nat :: j < k < |s.ring| ==> Newer(s, j, k))
  }

  ghost predicate Inv(s: Cache) {
    && Shape(s) && KeysOk(s) && OrderOk(s)
    && (forall i: nat :: i < |s.bufs| ==> RefOk(s, i))
    && (forall i: nat :: i < |s.bufs| ==> DataOk(s, i))
    && (forall k: nat :: k < |s.disk| ==> SyncOk(s, k))
  }

  lemma StepShape(s: Cache, a: Action)
    requires Enabled(s, a)
    ensures var s' := Next(s, a); Shape(s') && |s'.bufs| == |s.bufs| && |s'.disk| == |s.disk| && a.i < |s.bufs|
  {
  }

  lemma StepRef(s: Cache, a: Action, i: nat)
    requires Enabled(s, a) && i < |s.bufs| && RefOk(s, i)
    ensures var s' := Next(s, a); Shape(s') && i < |s'.bufs| && RefOk(s', i)
  {
  }

  lemma SameKeys(s: Cache, s': Cache)
    requires KeysOk(s) && |s'.bufs| == |s.bufs|
    requires forall i :: 0 <= i < |s.bufs| ==> HasKey(s'.bufs[i], s.bufs[i].dev, s.bufs[i].blockno)
    ensures KeysOk(s')
  {
  }

  lemma NewKey(s: Cache, p: nat, i: nat, dev: nat, blockno: nat)
    requires Enabled(s, Miss(p, i, dev, blockno)) && KeysOk(s)
    ensures KeysOk(Recycled(s, p, i, dev, blockno))
  {
    hide Oldest;
  }

  lemma StepKeys(s: Cache, a: Action)
    requires Enabled(s, a) && KeysOk(s)
    ensures KeysOk(Next(s, a))
  {
    hide KeysOk, Uncached, Oldest;
    if a.Miss? { NewKey(s, a.p, a.i, a.dev, a.blockno); } else { SameKeys(s, Next(s, a)); }
  }

  /** The list and stamps of s after the last reference to buffer i is dropped. */
  ghost predicate Fronted(s: Cache, s': Cache, i: nat) {
    && Shape(s) && Shape(s') && i in s.ring && i < |s.bufs| == |s'.bufs|
    && s'.ring == ToFront(s.ring, PosIn(s.ring, i)) && s'.stamps == s.stamps[i := s.clock] && s'.clock == s.clock + 1
  }

  /** Where position y of the new order was in the old one. */
  function Was(k: nat, y: nat): (x: nat) { if y == 0 then k else if y - 1 < k then y - 1 else y }

  lemma FrontAt(ring: seq<nat>, k: nat, y: nat)
    requires k < |ring| && y < |ring|
    ensures |ToFront(ring, k)| == |ring| && ToFront(ring, k)[y] == ring[Was(k, y)]
  {
  }

  lemma OrderAt(s: Cache, x: nat, y: nat)
    requires OrderLike(s) && x < |s.ring| && y < |s.ring| && x != y
    ensures s.ring[x] < |s.bufs| && s.ring[y] < |s.bufs| && s.ring[x] != s.ring[y] && s.stamps[s.ring[y]] < s.clock
    ensures x < y ==> Newer(s, x, y)
  {
  }

  lemma FrontNewer(s: Cache, s': Cache, i: nat, x: nat, y: nat)
    requires OrderLike(s) && Fronted(s, s', i) && x < y < |s'.ring|
    ensures Newer(s', x, y)
  {
    hide OrderLike, ToFront, PosIn;
    var k := PosIn(s.ring, i);
    FrontAt(s.ring, k, x);
    FrontAt(s.ring, k, y);
    OrderAt(s, Was(k, x), Was(k, y));
    OrderAt(s, k, Was(k, y));
    if x > 0 { OrderAt(s, k, Was(k, x)); }
  }

  ghost predicate OrderLike(s: Cache) { Shape(s) && OrderOk(s) }

  lemma FrontNoDup(ring: seq<nat>, k: nat)
    requires NoDup(ring) && k < |ring|
    ensures var r := ToFront(ring, k); NoDup(r) && forall x :: x in r <==> x in ring
  {
    NoDupDrop(ring, k);
    var d, r := Removed(ring, k), ToFront(ring, k);
    hide Removed;
    assert r == [ring[k]] + d;
    forall j, l | 0 <= j < l < |r| ensures r[j] != r[l] {
      assert r[l] == d[l-1] && r[l] in d;
      if j > 0 { assert r[j] == d[j-1]; }
    }
  }

  lemma FrontOrder(s: Cache, s': Cache, i: nat)
    requires OrderLike(s) && Fronted(s, s', i)
    ensures OrderOk(s')
  {
    forall x: nat, y: nat | x < y < |s'.ring| ensures Newer(s', x, y) { FrontNewer(s, s', i, x, y); }
    FrontNoDup(s.ring, PosIn(s.ring, i));
    hide PosIn, Removed, Newer, ToFront;
    forall l: nat | l < |s'.ring| ensures s'.ring[l] < |s'.bufs| { assert s'.ring[l] in s.ring; }
  }

  lemma SameOrder(s: Cache, s': Cache)
    requires OrderLike(s) && Shape(s') && |s'.bufs| == |s.bufs|
    requires s'.ring == s.ring && s'.stamps == s.stamps && s'.clock == s.clock
    ensures OrderOk(s')
  {
    forall x: nat, y: nat | x < y < |s'.ring| ensures Newer(s', x, y) { assert Newer(s, x, y); }
  }

  lemma StepOrder(s: Cache, a: Action)
    requires Enabled(s, a) && OrderOk(s)
    ensures Shape(Next(s, a)) && OrderOk(Next(s, a))
  {
    hide OrderOk;
    var s' := Next(s, a);
    StepShape(s, a);
    if a.Drop? && s.bufs[a.i].refcnt == 1 {
      assert Fronted(s, s', a.i) by { hide PosIn, ToFront; }
      FrontOrder(s, s', a.i);
    } else {
      SameOrder(s, s');
    }
  }

  lemma StepData(s: Cache, a: Action, i: nat)
    requires Enabled(s, a) && i < |s.bufs| && DataOk(s, i) && DataOk(s, a.i) && KeysOk(s)
    requires forall k: nat :: k < |s.disk| ==> SyncOk(s, k)
    requires RefOk(s, a.i)
    ensures var s' := Next(s, a); Shape(s') && i < |s'.bufs| && DataOk(s', i)
  {
  }

  lemma StepSync(s: Cache, a: Action, k: nat)
    requires Enabled(s, a) && k < |s.disk| && SyncOk(s, k) && DataOk(s, a.i) && KeysOk(s)
    ensures var s' := Next(s, a); Shape(s') && k < |s'.disk| && SyncOk(s', k)
  {
    var s' := Next(s, a);
    if s.disk[k] == s.view[k] {
      assert a.Log? && s.bufs[a.i].blockno == k ==> PinnedBy(s', a.i, k);
    } else {
      var i: nat :| PinnedBy(s, i, k);
      assert PinnedBy(s', i, k) || (a.Write? && s'.disk[k] == s'.view[k]);
    }
  }

  lemma InvStep(s: Cache, a: Action)
    requires Inv(s) && Enabled(s, a)
    ensures Inv(Next(s, a))
  {
    hide RefOk, DataOk, SyncOk, KeysOk, OrderOk, Next, Enabled;
    var s' := Next(s, a);
    StepShape(s, a);
    StepKeys(s, a);
    StepOrder(s, a);
    forall i: nat | i < |s'.bufs| ensures RefOk(s', i) && DataOk(s', i) { StepRef(s, a, i); StepData(s, a, i); }
    forall k: nat | k < |s'.disk| ensures SyncOk(s', k) { StepSync(s, a, k); }
  }

  // ----- runs -----

  ghost predicate Init(s: Cache) {
    && Shape(s) && OrderOk(s) && s.view == s.disk
    && forall i: nat :: i < |s.bufs| ==> s.bufs[i] == Buf(0, 0, 0, false, false, None, ZERO) && s.refs[i] == multiset{}
  }

  lemma InitInv(s: Cache)
    requires Init(s)
    ensures Inv(s)
  {
    hide OrderOk;
    forall i: nat | i < |s.bufs| ensures RefOk(s, i) && DataOk(s, i) && HasKey(s.bufs[i], 0, 0) {}
  }

  ghost predicate Step(s: Cache, a: Action, s': Cache) { Enabled(s, a) && s' == Next(s, a) }

  ghost predicate Run(run: seq<Cache>, acts: seq<Action>) {
    |run| == |acts| + 1 && Init(run[0]) && forall t :: 0 <= t < |acts| ==> Step(run[t], acts[t], run[t+1])
  }

  lemma {:induction false} RunInv(run: seq<Cache>, acts: seq<Action>, t: nat)
    requires Run(run, acts) && t < |run|
    ensures Inv(run[t]) && |run[t].bufs| == |run[0].bufs| && |run[t].disk| == |run[0].disk|
  {
    hide Inv, Next, Enabled;
    if t == 0 {
      InitInv(run[0]);
    } else {
      RunInv(run, acts, t - 1);
      assert Step(run[t-1], acts[t-1], run[t]);
      StepShape(run[t-1], acts[t-1]);
      InvStep(run[t-1], acts[t-1]);
    }
  }

  /** Step a, taken in s, logs or writes a buffer for block k. */
  predicate Puts(s: Cache, a: Action, k: nat) {
    (a.Log? || a.Write?) && a.i < |s.bufs| && HasKey(s.bufs[a.i], 1, k)
  }

  /** What run said last about block k before time t: the data of the last buffer for k
      that was logged or written, or what the disk held at the start. */
  ghost function LastPut(run: seq<Cache>, acts: seq<Action>, k: nat, t: nat): (d: Block)
    requires |run| == |acts| + 1 && t < |run| && k < |run[0].disk|
    decreases t
  {
    if t == 0 then run[0].disk[k]
    else if Puts(run[t-1], acts[t-1], k) then run[t-1].bufs[acts[t-1].i].data
    else LastPut(run, acts, k, t - 1)
  }

  lemma ViewStep(s: Cache, a: Action, k: nat)
    requires Enabled(s, a) && k < |s.view|
    ensures var s' := Next(s, a);
      |s'.view| == |s.view| && s'.view[k] == if Puts(s, a, k) then s.bufs[a.i].data else s.view[k]
  {
  }

  lemma {:induction false} ViewIsLast(run: seq<Cache>, acts: seq<Action>, k: nat, t: nat)
    requires Run(run, acts) && t < |run| && k < |run[0].disk|
    ensures |run[t].view| == |run[0].disk| && run[t].view[k] == LastPut(run, acts, k, t)
    decreases t
  {
    hide Next, Enabled, Puts;
    if t > 0 {
      ViewIsLast(run, acts, k, t - 1);
      assert Step(run[t-1], acts[t-1], run[t]);
      ViewStep(run[t-1], acts[t-1], k);
    }
  }

  /** A buffer that is referenced or pinned keeps its identity. */
  lemma KeyKept(s: Cache, a: Action, i: nat)
    requires Inv(s) && Enabled(s, a) && i < |s.bufs| && (s.refs[i] != multiset{} || s.bufs[i].dirty)
    ensures var s' := Next(s, a); i < |s'.bufs| && HasKey(s'.bufs[i], s.bufs[i].dev, s.bufs[i].blockno)
  {
    assert RefOk(s, i);
  }

  /** A reference is given up only by dropping it. */
  lemma RefKept(s: Cache, a: Action, p: nat, i: nat)
    requires Inv(s) && Enabled(s, a) && i < |s.bufs| && p in s.refs[i] && a != Drop(p, i)
    ensures var s' := Next(s, a); |s'.refs| == |s.bufs| && p in s'.refs[i]
  {
    assert RefOk(s, i);
    assert s.refs[i] != multiset{};
  }

  /** From bget until it drops the reference, a process's buffer stands for the block it asked for,
      whatever other processes do. */
  lemma {:induction false} KeyHeld(run: seq<Cache>, acts: seq<Action>, p: nat, i: nat, t: nat, u: nat)
    requires Run(run, acts) && t < u < |run|
    requires (acts[t].Hit? || acts[t].Miss?) && acts[t].p == p && acts[t].i == i
    requires forall v :: t < v < u ==> acts[v] != Drop(p, i)
    ensures |run[u].refs| == |run[u].bufs| && i < |run[u].bufs| && p in run[u].refs[i]
    ensures HasKey(run[u].bufs[i], acts[t].dev, acts[t].blockno)
    decreases u - t
  {
    assert Step(run[u-1], acts[u-1], run[u]);
    RunInv(run, acts, u - 1);
    hide Inv;
    StepShape(run[u-1], acts[u-1]);
    if t < u - 1 {
      hide Enabled, Next;
      KeyHeld(run, acts, p, i, t, u - 1);
      RefKept(run[u-1], acts[u-1], p, i);
      KeyKept(run[u-1], acts[u-1], i);
    }
  }

  /** bread of a cached block: when the lock is obtained, the buffer stands for the block
      asked for and, if valid, holds what was last logged or written to it. */
  lemma CachedIsLatest(run: seq<Cache>, acts: seq<Action>, p: nat, i: nat, t: nat, u: nat)
    requires Run(run, acts) && t < u < |acts| && acts[u] == Lock(p, i)
    requires (acts[t].Hit? || acts[t].Miss?) && acts[t].p == p && acts[t].i == i
    requires forall v :: t < v < u ==> acts[v] != Drop(p, i)
    ensures i < |run[u+1].bufs| && var b := run[u+1].bufs[i];
      && b.holder == Some(p) && HasKey(b, acts[t].dev, acts[t].blockno)
      && (b.valid ==> b.blockno < |run[0].disk| && b.data == LastPut(run, acts, b.blockno, u + 1))
  {
    hide LastPut;
    KeyHeld(run, acts, p, i, t, u);
    RunInv(run, acts, u);
    assert Step(run[u], acts[u], run[u+1]);
    var b := run[u+1].bufs[i];
    assert DataOk(run[u], i);
    if b.valid { ViewIsLast(run, acts, b.blockno, u + 1); }
  }

  /** bread of a block not yet read: the disk gives what was last logged or written. */
  lemma FilledIsLatest(run: seq<Cache>, acts: seq<Action>, p: nat, i: nat, u: nat)
    requires Run(run, acts) && u < |acts| && acts[u] == Fill(p, i)
    ensures i < |run[u+1].bufs| && var b := run[u+1].bufs[i];
      && b.valid && b.holder == Some(p) && b.dev == 1
      && b.blockno < |run[0].disk| && b.data == LastPut(run, acts, b.blockno, u + 1)
  {
    hide LastPut;
    RunInv(run, acts, u);
    assert Step(run[u], acts[u], run[u+1]);
    var s, k := run[u], run[u].bufs[i].blockno;
    assert SyncOk(s, k) && DataOk(s, i);
    assert forall j: nat :: PinnedBy(s, j, k) ==> j == i;
    assert !PinnedBy(s, i, k);
    ViewIsLast(run, acts, k, u + 1);
  }

  /** No two buffers ever stand for the same block of a disk. */
  lemma OneBufferPerBlock(run: seq<Cache>, acts: seq<Action>, t: nat, i: nat, j: nat)
    requires Run(run, acts) && t < |run| && i < j < |run[t].bufs| && run[t].bufs[i].dev != 0
    ensures !HasKey(run[t].bufs[i], run[t].bufs[j].dev, run[t].bufs[j].blockno)
  {
    RunInv(run, acts, t);
    hide OrderOk;
  }
}
