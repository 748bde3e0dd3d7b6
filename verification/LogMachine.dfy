/** The whole logging system as an interleaved state machine: any number of
    processes reading, modifying and logging blocks inside begin_op/end_op, buffer
    eviction, the block-by-block commit, crashes at any point and recovery. */
module LogMachine {
  import opened Basics
  import opened Blocks
  import opened Log

  /** A process: inside a transaction or not, the blocks it has logged in it, the
      buffers it holds locked, those it has modified but not yet logged, and the
      block for which it has passed the unlocked guard of log_write. */
  datatype Proc = Proc(inOp: bool, logged: set<nat>, held: set<nat>, unlogged: set<nat>, checked: Option<nat>)

  const IDLE: Proc := Proc(false, {}, {}, {}, None)

  /** Committing(k) and Recovering(k) have made k disk writes; Finishing is the end of
      end_op after commit() returned; Boot precedes read_head. */
  datatype Phase = Normal | Committing(k: nat) | Finishing | Boot | Recovering(k: nat) | Panicked

  datatype State = State(disk: Disk, cache: Cache, lh: seq<nat>, outstanding: nat,
                         phase: Phase, procs: seq<Proc>)

  datatype Action =
    | Begin(p: nat)
    | Read(p: nat, b: nat)
    | Modify(p: nat, b: nat, data: Block)
    | Check(p: nat, b: nat)
    | Append(p: nat)
    | Release(p: nat, b: nat)
    | End(p: nat)
    | Commit
    | Finish
    | Evict(b: nat)
    | Crash
    | ReadHead
    | Recover

  function At(s: State, b: nat): (data: Block)
    requires b < |s.disk|
  {
    Shown(s.cache, s.disk, b)
  }

  /** Contents as bread returns them. */
  function View(s: State): (v: Disk)
    ensures |v| == |s.disk|
    ensures forall b :: 0 <= b < |s.disk| ==> v[b] == At(s, b)
  {
    seq(|s.disk|, b requires 0 <= b < |s.disk| => At(s, b))
  }

  predicate Up(s: State) { s.phase.Normal? || s.phase.Committing? || s.phase.Finishing? }

  ghost predicate Held(s: State, b: nat) { exists p :: 0 <= p < |s.procs| && b in s.procs[p].held }
  ghost predicate Unlogged(s: State, b: nat) { exists p :: 0 <= p < |s.procs| && b in s.procs[p].unlogged }

  /** Write k of a commit of n blocks locks the blocks it copies from and to, if any. */
  ghost predicate Unheld(L: Layout, s: State, k: nat, n: nat)
    requires n == |s.lh|
  {
    && (k < n ==> !Held(s, s.lh[k]) && !Held(s, L.start + 1 + k) && s.lh[k] != L.start + 1 + k)
    && (n < k <= 2 * n ==>
          !Held(s, s.lh[k - n - 1]) && !Held(s, L.start + k - n) && s.lh[k - n - 1] != L.start + k - n)
  }

  ghost predicate Enabled(L: Layout, s: State, a: Action) {
    && L.Ok() && |s.disk| == L.nblocks
    && match a
       case Begin(p) =>
         && s.phase.Normal? && p < |s.procs| && !s.procs[p].inOp && s.procs[p].held == {}
         && |s.lh| + (s.outstanding + 1) * MAXOPBLOCKS <= LOGSIZE
       case Read(p, b) => Up(s) && p < |s.procs| && L.Home(b) && !Held(s, b)
       case Modify(p, b, data) => s.phase.Normal? && p < |s.procs| && s.procs[p].inOp && b in s.procs[p].held && b in s.cache
       case Check(p, b) =>
         s.phase.Normal? && p < |s.procs| && s.procs[p].inOp && s.procs[p].checked.None? && b in s.procs[p].held
       case Append(p) =>
         && s.phase.Normal? && p < |s.procs| && s.procs[p].inOp && s.procs[p].checked.Some?
         && s.procs[p].checked.value in s.cache
         && |s.procs[p].logged + {s.procs[p].checked.value}| <= MAXOPBLOCKS
       case Release(p, b) =>
         Up(s) && p < |s.procs| && b in s.procs[p].held - s.procs[p].unlogged && s.procs[p].checked != Some(b)
       case End(p) =>
         s.phase.Normal? && p < |s.procs| && s.procs[p].inOp && s.procs[p].held == {} && s.outstanding > 0
       case Commit =>
         s.phase.Committing? && Writable(L, s.lh) && s.phase.k < 2 * |s.lh| + 2 && Unheld(L, s, s.phase.k, |s.lh|)
       case Finish => s.phase.Finishing?
       case Evict(b) => Up(s) && b in s.cache && !s.cache[b].dirty && !Held(s, b)
       case Crash => true
       case ReadHead => s.phase.Boot? && HeadOk(s.disk[L.start])
       case Recover => s.phase.Recovering? && Writable(L, s.lh) && s.phase.k <= |s.lh|
  }

  /** The panics of log_write, tested before log.lock is taken. */
  predicate GuardFails(L: Layout, s: State) {
    |s.lh| >= LOGSIZE || |s.lh| >= L.size - 1 || s.outstanding < 1
  }

  ghost function Next(L: Layout, s: State, a: Action): (s': State)
    requires Enabled(L, s, a)
  {
    match a
    case Begin(p) =>
      s.(outstanding := s.outstanding + 1, procs := s.procs[p := IDLE.(inOp := true)])
    case Read(p, b) =>
      s.(cache := s.cache[b := if b in s.cache then s.cache[b] else Buf(s.disk[b], false)],
         procs := s.procs[p := s.procs[p].(held := s.procs[p].held + {b})])
    case Modify(p, b, data) =>
      s.(cache := s.cache[b := s.cache[b].(data := data)],
         procs := s.procs[p := s.procs[p].(unlogged := s.procs[p].unlogged + {b})])
    case Check(p, b) =>
      if GuardFails(L, s) then s.(phase := Panicked)
      else s.(procs := s.procs[p := s.procs[p].(checked := Some(b))])
    case Append(p) =>
      var b := s.procs[p].checked.value;
      s.(lh := if b in s.lh then s.lh else s.lh + [b],
         cache := s.cache[b := s.cache[b].(dirty := true)],
         procs := s.procs[p := s.procs[p].(logged := s.procs[p].logged + {b},
                                           unlogged := s.procs[p].unlogged - {b}, checked := None)])
    case Release(p, b) =>
      s.(procs := s.procs[p := s.procs[p].(held := s.procs[p].held - {b})])
    case End(p) =>
      s.(outstanding := s.outstanding - 1, procs := s.procs[p := IDLE],
         phase := if s.outstanding > 1 then Normal else if s.lh == [] then Finishing else Committing(0))
    // A log slot past the end of the log area is a home block, and cached like one.
    case Commit =>
      var k, n := s.phase.k, |s.lh|;
      var w := CommitWrite(L, s.disk, View(s), s.lh, k);
      var d := Put(s.disk, w);
      if k <= n then
        s.(disk := d, cache := if L.Home(w.0) then s.cache[w.0 := Buf(w.1, false)] else s.cache, phase := Committing(k + 1))
      else if k <= 2 * n then s.(disk := d, cache := s.cache[w.0 := Buf(w.1, false)], phase := Committing(k + 1))
      else s.(disk := d, lh := [], phase := Finishing)
    case Finish => s.(phase := Normal)
    case Evict(b) => s.(cache := s.cache - {b})
    case Crash => State(s.disk, map[], [], 0, Boot, seq(|s.procs|, _ => IDLE))
    case ReadHead => s.(lh := HeadList(s.disk[L.start]), phase := Recovering(0))
    case Recover =>
      var w := RecoverWrite(L, s.disk, s.lh, s.phase.k);
      var d := Put(s.disk, w);
      if s.phase.k < |s.lh| then s.(disk := d, cache := s.cache[w.0 := Buf(w.1, false)], phase := Recovering(s.phase.k + 1))
      else s.(disk := d, lh := [], phase := Normal)
  }

  ghost predicate Init(L: Layout, s: State) {
    && Recoverable(L, s.disk)
    && s == State(s.disk, map[], [], 0, Boot, seq(|s.procs|, _ => IDLE))
  }

  ghost predicate Step(L: Layout, s: State, s': State) {
    exists a :: Enabled(L, s, a) && s' == Next(L, s, a)
  }

  ghost predicate Run(L: Layout, run: seq<State>) {
    && |run| > 0 && Init(L, run[0])
    && forall i :: 0 < i < |run| ==> Step(L, run[i-1], run[i])
  }

  // ----- invariant -----

  function Share(q: Proc): (r: (nat, int)) {
    if q.inOp then (1, MAXOPBLOCKS - |q.logged|) else (0, 0)
  }

  /** Number of open transactions, and the log space they have not yet used. */
  function Active(ps: seq<Proc>): (r: nat) {
    if ps == [] then 0 else Active(ps[..|ps|-1]) + Share(ps[|ps|-1]).0
  }

  function Unused(ps: seq<Proc>): (r: int) {
    if ps == [] then 0 else Unused(ps[..|ps|-1]) + Share(ps[|ps|-1]).1
  }

  ghost predicate ProcOk(s: State, q: Proc) {
    && q.held <= s.cache.Keys && q.unlogged <= q.held
    && (q.checked.Some? ==> q.checked.value in q.held)
    && (forall b :: b in q.logged ==> b in s.lh) && |q.logged| <= MAXOPBLOCKS
    && (!q.inOp ==> q.unlogged == {} && q.checked.None? && q.logged == {})
  }

  ghost predicate Disjoint(ps: seq<Proc>) {
    forall p, q, b :: 0 <= p < q < |ps| && b in ps[p].held ==> b !in ps[q].held
  }

  ghost predicate Locks(s: State) {
    && (forall p :: 0 <= p < |s.procs| ==> ProcOk(s, s.procs[p]))
    && Disjoint(s.procs)
  }

  /** Cached blocks are home blocks; dirty ones are listed; clean ones agree with the
      disk unless their holder is in the middle of changing them. */
  ghost predicate CacheOk(L: Layout, s: State) {
    && |s.disk| == L.nblocks
    && forall b :: b in s.cache ==>
         && L.Home(b) && (s.cache[b].dirty ==> b in s.lh)
         && (!s.cache[b].dirty && !Unlogged(s, b) ==> s.cache[b].data == s.disk[b])
  }

  ghost predicate Reserved(s: State) {
    s.outstanding == Active(s.procs) && |s.lh| + Unused(s.procs) <= LOGSIZE
  }

  /** Only list entries from m on are still dirty. */
  ghost predicate Pinned(s: State, m: nat) {
    forall b :: b in s.cache && s.cache[b].dirty ==> exists t :: m <= t < |s.lh| && s.lh[t] == b
  }

  ghost predicate PhaseOk(L: Layout, s: State) {
    && (!s.phase.Normal? && !s.phase.Panicked? ==> s.outstanding == 0)
    && match s.phase
       case Normal => CleanLog(L, s.disk)
       case Committing(k) =>
         && s.lh != [] && k <= 2 * |s.lh| + 1 && Stage(L, s.disk, View(s), s.lh, k)
         && Pinned(s, if k <= |s.lh| then 0 else k - |s.lh| - 1)
       case Finishing => CleanLog(L, s.disk) && s.lh == []
       case Boot => Recoverable(L, s.disk) && s.lh == [] && s.cache == map[]
       case Recovering(k) =>
         && Recoverable(L, s.disk) && s.lh == HeadList(s.disk[L.start]) && k <= |s.lh|
         && Pinned(s, |s.lh|)
         && forall t :: 0 <= t < k ==> s.disk[s.lh[t]] == s.disk[L.start + 1 + t]
       case Panicked => CleanLog(L, s.disk)
  }

  /** No transaction is open and no commit is under way: end_op of the last one has
      returned, or is about to. */
  predicate Rests(s: State) { (s.phase.Normal? && s.outstanding == 0) || s.phase.Finishing? }

  /** The last end_op has committed: nothing stays on the list. */
  predicate Drained(s: State) { Rests(s) ==> s.lh == [] }

  ghost predicate Inv(L: Layout, s: State) {
    && L.Ok() && |s.disk| == L.nblocks && ListOk(L, s.lh)
    && Locks(s) && CacheOk(L, s) && Reserved(s) && Drained(s) && PhaseOk(L, s)
  }

  // ----- reservation -----

  lemma {:induction false} SharesUpdate(ps: seq<Proc>, p: nat, q: Proc)
    requires p < |ps|
    ensures Active(ps[p := q]) == Active(ps) - Share(ps[p]).0 + Share(q).0
    ensures Unused(ps[p := q]) == Unused(ps) - Share(ps[p]).1 + Share(q).1
  {
    var m := |ps| - 1;
    if p < m {
      SharesUpdate(ps[..m], p, q);
      assert ps[p := q][..m] == ps[..m][p := q];
    } else {
      assert ps[p := q][..m] == ps[..m];
    }
  }

  lemma {:induction false} SharesIdle(ps: seq<Proc>)
    requires forall p :: 0 <= p < |ps| ==> ps[p] == IDLE
    ensures Active(ps) == 0 && Unused(ps) == 0
  {
    if ps != [] { SharesIdle(ps[..|ps|-1]); }
  }

  lemma {:induction false} SharesBound(ps: seq<Proc>)
    requires forall p :: 0 <= p < |ps| ==> |ps[p].logged| <= MAXOPBLOCKS
    ensures 0 <= Unused(ps) <= Active(ps) * MAXOPBLOCKS
    ensures forall p :: 0 <= p < |ps| && ps[p].inOp ==> Active(ps) > 0 && MAXOPBLOCKS - |ps[p].logged| <= Unused(ps)
  {
    if ps != [] {
      SharesBound(ps[..|ps|-1]);
      forall p | 0 <= p < |ps| && ps[p].inOp
        ensures Active(ps) > 0 && MAXOPBLOCKS - |ps[p].logged| <= Unused(ps)
      {
        if p < |ps| - 1 { assert ps[..|ps|-1][p] == ps[p]; }
      }
    }
  }

  ghost predicate LoggedOk(s: State) {
    forall p :: 0 <= p < |s.procs| ==>
      |s.procs[p].logged| <= MAXOPBLOCKS && forall b :: b in s.procs[p].logged ==> b in s.lh
  }

  lemma ReservedAppend(L: Layout, s: State, p: nat)
    requires Enabled(L, s, Append(p)) && LoggedOk(s) && Reserved(s)
    ensures Reserved(Next(L, s, Append(p)))
  {
    var b, q := s.procs[p].checked.value, s.procs[p];
    SharesUpdate(s.procs, p, Next(L, s, Append(p)).procs[p]);
    assert |q.logged + {b}| == if b in q.logged then |q.logged| else |q.logged| + 1 by {
      if b in q.logged { assert q.logged + {b} == q.logged; }
    }
  }

  lemma ReservedProc(L: Layout, s: State, a: Action)
    requires Enabled(L, s, a) && LoggedOk(s) && Reserved(s)
    requires a.Begin? || a.Read? || a.Modify? || a.Check? || a.Release? || a.End?
    ensures Reserved(Next(L, s, a))
  {
    hide Held;
    var s' := Next(L, s, a);
    SharesBound(s.procs);
    SharesUpdate(s.procs, a.p, s'.procs[a.p]);
    assert s'.procs == s.procs[a.p := s'.procs[a.p]];
  }

  lemma ReservedStep(L: Layout, s: State, a: Action)
    requires Enabled(L, s, a) && LoggedOk(s) && Reserved(s)
    requires s.phase.Boot? ==> s.outstanding == 0
    ensures Reserved(Next(L, s, a))
  {
    hide Held, CommitWrite, RecoverWrite;
    if a.Append? {
      ReservedAppend(L, s, a.p);
    } else if a.Begin? || a.Read? || a.Modify? || a.Check? || a.Release? || a.End? {
      ReservedProc(L, s, a);
    } else {
      SharesBound(s.procs);
      if a.Crash? { SharesIdle(Next(L, s, a).procs); }
    }
  }

  // ----- locks, list and cache -----

  /** The list fits behind the head in the log area. LogFits says when it always does. */
  predicate Room(L: Layout, s: State) { |s.lh| < L.size || L.size > LOGSIZE }

  lemma ListStep(L: Layout, s: State, a: Action)
    requires Inv(L, s) && Enabled(L, s, a) && Room(L, Next(L, s, a))
    requires Reserved(Next(L, s, a))
    ensures ListOk(L, Next(L, s, a).lh)
  {
    hide Stage, Reserved;
    if a.Append? {
      var s' := Next(L, s, a);
      assert ProcOk(s, s.procs[a.p]);
      assert |s'.lh| <= LOGSIZE by { AppendFits(L, s, a.p); }
    }
  }

  lemma AppendFits(L: Layout, s: State, p: nat)
    requires Enabled(L, s, Append(p)) && LoggedOk(s) && Reserved(s)
    ensures |Next(L, s, Append(p)).lh| <= LOGSIZE
  {
    var s' := Next(L, s, Append(p));
    ReservedAppend(L, s, p);
    SharesBound(s'.procs);
  }

  lemma DisjointStep(L: Layout, s: State, a: Action)
    requires Disjoint(s.procs) && Enabled(L, s, a)
    ensures Disjoint(Next(L, s, a).procs)
  {
    hide CommitWrite, RecoverWrite, HeadList, GuardFails;
    var s' := Next(L, s, a);
    assert a.Read? ==> forall p :: 0 <= p < |s.procs| ==> a.b !in s.procs[p].held;
  }

  /** No transaction is open when the log list is about to be dropped or replaced. */
  ghost predicate ListBusy(s: State, a: Action) {
    s.phase.Boot? || a.Recover? || a.Commit?
  }

  lemma ProcsStep(L: Layout, s: State, a: Action, p: nat)
    requires Enabled(L, s, a) && p < |s.procs| && ProcOk(s, s.procs[p])
    requires ListBusy(s, a) ==> s.procs[p].logged == {}
    requires a.Evict? ==> a.b !in s.procs[p].held
    ensures ProcOk(Next(L, s, a), Next(L, s, a).procs[p])
  {
    hide CommitWrite, RecoverWrite, HeadList, GuardFails, Held, Writable, Unheld, Up;
  }

  lemma LocksStep(L: Layout, s: State, a: Action)
    requires Locks(s) && Enabled(L, s, a)
    requires ListBusy(s, a) ==> forall p :: 0 <= p < |s.procs| ==> s.procs[p].logged == {}
    ensures Locks(Next(L, s, a))
  {
    hide CommitWrite, RecoverWrite, HeadList, GuardFails, ProcOk;
    var s' := Next(L, s, a);
    DisjointStep(L, s, a);
    forall p | 0 <= p < |s'.procs| ensures ProcOk(s', s'.procs[p]) {
      ProcsStep(L, s, a, p);
    }
  }

  /** Once no transaction is open, no process has unlogged or logged blocks. */
  lemma {:induction false} NoneActive(ps: seq<Proc>, p: nat)
    requires Active(ps) == 0 && p < |ps|
    ensures !ps[p].inOp
  {
    if p < |ps| - 1 { NoneActive(ps[..|ps|-1], p); }
  }

  lemma UnloggedStep(L: Layout, s: State, a: Action, b: nat)
    requires Locks(s) && Enabled(L, s, a) && Unlogged(s, b)
    ensures Unlogged(Next(L, s, a), b) || a.Crash? || (a.Append? && s.procs[a.p].checked == Some(b))
  {
    hide CommitWrite, RecoverWrite, HeadList, GuardFails, Held;
    var p :| 0 <= p < |s.procs| && b in s.procs[p].unlogged;
    assert ProcOk(s, s.procs[p]);
    var s' := Next(L, s, a);
    assert !a.Crash? && !(a.Append? && s.procs[a.p].checked == Some(b)) ==> b in s'.procs[p].unlogged;
  }

  ghost predicate BufOk(L: Layout, s: State, b: nat)
    requires b in s.cache && |s.disk| == L.nblocks
  {
    L.Home(b) && (!s.cache[b].dirty && !Unlogged(s, b) ==> s.cache[b].data == s.disk[b])
  }

  lemma BufProc(L: Layout, s: State, a: Action, b: nat)
    requires Locks(s) && Enabled(L, s, a) && !a.Commit? && !a.Recover?
    requires b in s.cache ==> BufOk(L, s, b)
    requires b in Next(L, s, a).cache
    ensures BufOk(L, Next(L, s, a), b)
  {
    hide HeadBlock, HeadList, Held, CommitWrite, RecoverWrite;
    var s' := Next(L, s, a);
    if Unlogged(s, b) { UnloggedStep(L, s, a, b); }
    if a.Modify? && a.b == b { assert b in s'.procs[a.p].unlogged; }
  }

  /** Commit and recovery update the cache along with each home block they write. */
  lemma BufDisk(L: Layout, s: State, a: Action, b: nat)
    requires Enabled(L, s, a) && (a.Commit? || a.Recover?) && ListOk(L, s.lh)
    requires b in s.cache ==> BufOk(L, s, b)
    requires b in Next(L, s, a).cache
    ensures BufOk(L, Next(L, s, a), b)
  {
    hide HeadBlock, HeadList, Held;
    var s' := Next(L, s, a);
    assert Unlogged(s', b) == Unlogged(s, b) by { assert s'.procs == s.procs; }
  }

  lemma DirtyStep(L: Layout, s: State, a: Action, b: nat)
    requires CacheOk(L, s) && Enabled(L, s, a) && PhaseOk(L, s)
    requires b in Next(L, s, a).cache && Next(L, s, a).cache[b].dirty
    ensures b in Next(L, s, a).lh
  {
    hide HeadBlock, HeadList, Held, Stage;
  }

  lemma CacheStep(L: Layout, s: State, a: Action)
    requires Locks(s) && CacheOk(L, s) && Enabled(L, s, a) && PhaseOk(L, s) && ListOk(L, s.lh)
    ensures CacheOk(L, Next(L, s, a))
  {
    hide PhaseOk, Held, Unlogged;
    var s' := Next(L, s, a);
    forall b | b in s'.cache ensures BufOk(L, s', b) && (s'.cache[b].dirty ==> b in s'.lh) {
      if s'.cache[b].dirty { DirtyStep(L, s, a, b); }
      if a.Commit? || a.Recover? { BufDisk(L, s, a, b); } else { BufProc(L, s, a, b); }
    }
  }

  // ----- what bread returns -----

  lemma FreeIsLogged(s: State, b: nat)
    requires Locks(s) && !Held(s, b)
    ensures !Unlogged(s, b)
  {
    forall p | 0 <= p < |s.procs| ensures b !in s.procs[p].unlogged { assert ProcOk(s, s.procs[p]); }
  }

  /** Only an operation changing a block it holds changes what bread returns:
      eviction, logging and every write of commit leave all home blocks as they read. */
  lemma ViewStep(L: Layout, s: State, a: Action, b: nat)
    requires Locks(s) && CacheOk(L, s) && PhaseOk(L, s) && Enabled(L, s, a) && L.Home(b)
    requires !a.Crash? && !a.Recover? && !(a.Modify? && a.b == b)
    ensures At(Next(L, s, a), b) == At(s, b)
  {
    if a.Commit? {
      ViewCommit(L, s, b);
    } else {
      hide HeadBlock, HeadList, HeadOk, Pinned, CleanLog, Recoverable, Stage, CommitWrite, PhaseOk, ListOk;
      if a.Evict? { FreeIsLogged(s, a.b); }
    }
  }

  lemma ViewLog(L: Layout, s: State, b: nat)
    requires |s.disk| == L.nblocks && ListOk(L, s.lh) && Enabled(L, s, Commit) && L.Home(b)
    requires s.phase.k <= |s.lh| || s.phase.k == 2 * |s.lh| + 1
    ensures At(Next(L, s, Commit), b) == At(s, b)
  {
    hide HeadBlock, Distinct, Unheld;
  }

  lemma ViewInstall(L: Layout, s: State, b: nat)
    requires |s.disk| == L.nblocks && Enabled(L, s, Commit) && L.Home(b) && |s.lh| < s.phase.k <= 2 * |s.lh|
    requires Stage(L, s.disk, View(s), s.lh, s.phase.k)
    ensures At(Next(L, s, Commit), b) == At(s, b)
  {
    hide HeadBlock, HeadList, HeadOk, Distinct, Unheld;
  }

  lemma ViewCommit(L: Layout, s: State, b: nat)
    requires CacheOk(L, s) && PhaseOk(L, s) && Enabled(L, s, Commit) && L.Home(b)
    ensures At(Next(L, s, Commit), b) == At(s, b)
  {
    assert Stage(L, s.disk, View(s), s.lh, s.phase.k) && ListOk(L, s.lh);
    hide PhaseOk, CacheOk, Stage, Enabled, Next, ListOk;
    assert s.phase.k < 2 * |s.lh| + 2 by { StageK(L, s); }
    if |s.lh| < s.phase.k <= 2 * |s.lh| { ViewInstall(L, s, b); } else { ViewLog(L, s, b); }
  }

  lemma StageK(L: Layout, s: State)
    requires Enabled(L, s, Commit)
    ensures s.phase.k < 2 * |s.lh| + 2
  {
  }

  lemma StageView(L: Layout, d: Disk, v: Disk, w: Disk, lh: seq<nat>, k: nat)
    requires Stage(L, d, v, lh, k) && |w| == L.nblocks && SameHome(L, v, w)
    ensures Stage(L, d, w, lh, k)
  {
  }

  lemma ViewSame(L: Layout, s: State, a: Action)
    requires Locks(s) && CacheOk(L, s) && PhaseOk(L, s) && Enabled(L, s, a)
    requires !a.Crash? && !a.Recover? && !a.Modify?
    ensures |Next(L, s, a).disk| == L.nblocks && SameHome(L, View(s), View(Next(L, s, a)))
  {
    hide PhaseOk, CacheOk, Held, CommitWrite;
    var s' := Next(L, s, a);
    forall b | 0 <= b < L.nblocks && L.Home(b) ensures View(s)[b] == View(s')[b] {
      ViewStep(L, s, a, b);
    }
  }

  // ----- phases -----

  lemma CommitStage(L: Layout, s: State)
    requires Inv(L, s) && Enabled(L, s, Commit)
    ensures Stage(L, Next(L, s, Commit).disk, View(Next(L, s, Commit)), s.lh, s.phase.k + 1)
  {
    hide HeadBlock, Locks, CacheOk, Reserved, Stage, CommitWrite;
    var s', k := Next(L, s, Commit), s.phase.k;
    StageStep(L, s.disk, View(s), s.lh, k);
    ViewSame(L, s, Commit);
    StageView(L, s'.disk, View(s), View(s'), s.lh, k + 1);
  }

  lemma CommitPins(L: Layout, s: State)
    requires Enabled(L, s, Commit) && s.phase.k <= 2 * |s.lh|
    requires Pinned(s, if s.phase.k <= |s.lh| then 0 else s.phase.k - |s.lh| - 1)
    ensures Pinned(Next(L, s, Commit), if s.phase.k + 1 <= |s.lh| then 0 else s.phase.k - |s.lh|)
  {
    hide HeadBlock, Stage;
    var s', m := Next(L, s, Commit), if s.phase.k + 1 <= |s.lh| then 0 else s.phase.k - |s.lh|;
    forall b | b in s'.cache && s'.cache[b].dirty ensures exists t :: m <= t < |s.lh| && s.lh[t] == b {
      assert s.cache[b].dirty;
      var t :| (if s.phase.k <= |s.lh| then 0 else s.phase.k - |s.lh| - 1) <= t < |s.lh| && s.lh[t] == b;
    }
  }

  lemma PhaseCommit(L: Layout, s: State)
    requires Inv(L, s) && Enabled(L, s, Commit)
    ensures PhaseOk(L, Next(L, s, Commit))
  {
    hide HeadBlock, Locks, CacheOk, Reserved, Stage, CommitWrite, Pinned;
    CommitStage(L, s);
    if s.phase.k <= 2 * |s.lh| {
      CommitPins(L, s);
    } else {
      StageEnd(L, Next(L, s, Commit).disk, View(Next(L, s, Commit)), s.lh);
    }
  }

  lemma StageEnd(L: Layout, d: Disk, v: Disk, lh: seq<nat>)
    requires Stage(L, d, v, lh, 2 * |lh| + 2)
    ensures CleanLog(L, d)
  {
  }

  /** At every moment the disk holds a header that recovery can follow. */
  lemma AlwaysRecoverable(L: Layout, s: State)
    requires Inv(L, s)
    ensures Recoverable(L, s.disk)
  {
    hide Locks, CacheOk, Reserved, HeadBlock;
  }

  lemma PhaseReplay(L: Layout, s: State)
    requires Inv(L, s) && Enabled(L, s, Recover) && s.phase.k < |s.lh|
    ensures PhaseOk(L, Next(L, s, Recover))
  {
    hide HeadBlock, HeadList, HeadOk, Locks, CacheOk, Reserved, Stage, SameHome, Below, Distinct;
    var d, k := s.disk, s.phase.k;
    var v :| RecoversTo(L, d, v) by { RedoExists(L, d); }
    RecoverStep(L, d, v, k);
  }

  lemma PhaseCleared(L: Layout, s: State)
    requires Inv(L, s) && Enabled(L, s, Recover) && s.phase.k == |s.lh|
    ensures PhaseOk(L, Next(L, s, Recover))
  {
    hide HeadBlock, Locks, CacheOk, Reserved, Stage, SameHome, Distinct;
    var d, k := s.disk, s.phase.k;
    var v :| RecoversTo(L, d, v) by { RedoExists(L, d); }
    RecoverStep(L, d, v, k);
  }

  lemma PhaseRecover(L: Layout, s: State)
    requires Inv(L, s) && Enabled(L, s, Recover)
    ensures PhaseOk(L, Next(L, s, Recover))
  {
    hide Inv, PhaseOk, RecoverWrite;
    if s.phase.k < |s.lh| { PhaseReplay(L, s); } else { PhaseCleared(L, s); }
  }

  /** With no transaction open, unlisted blocks read as they are on disk. */
  lemma QuietHomes(L: Layout, s: State, b: nat)
    requires Locks(s) && CacheOk(L, s) && Active(s.procs) == 0 && L.Home(b) && b !in s.lh
    ensures At(s, b) == s.disk[b]
  {
    if Unlogged(s, b) {
      var p :| 0 <= p < |s.procs| && b in s.procs[p].unlogged;
      assert ProcOk(s, s.procs[p]);
      NoneActive(s.procs, p);
    }
  }

  lemma PhaseEnd(L: Layout, s: State, p: nat)
    requires Inv(L, s) && Enabled(L, s, End(p))
    requires var s' := Next(L, s, End(p)); Locks(s') && CacheOk(L, s') && Reserved(s')
    ensures PhaseOk(L, Next(L, s, End(p)))
  {
    var s' := Next(L, s, End(p));
    if s'.phase.Committing? {
      forall b | 0 <= b < L.nblocks && L.Home(b) && b !in s'.lh ensures s'.disk[b] == View(s')[b] {
        QuietHomes(L, s', b);
      }
    }
  }

  lemma PhaseOther(L: Layout, s: State, a: Action)
    requires Inv(L, s) && Enabled(L, s, a) && !a.Commit? && !a.Recover? && !a.End?
    ensures PhaseOk(L, Next(L, s, a))
  {
    hide HeadBlock, Locks, CacheOk, Reserved, Stage, Held;
    AlwaysRecoverable(L, s);
    if s.phase.Committing? && !a.Crash? {
      ViewSame(L, s, a);
      StageView(L, s.disk, View(s), View(Next(L, s, a)), s.lh, s.phase.k);
    }
  }

  lemma InvBudget(L: Layout, s: State)
    requires Inv(L, s)
    ensures Budget(s)
  {
    hide Locks, Reserved;
  }

  lemma InvStep(L: Layout, s: State, a: Action)
    requires Inv(L, s) && Enabled(L, s, a) && Room(L, Next(L, s, a))
    ensures Inv(L, Next(L, s, a))
  {
    InvBudget(L, s);
    BudgetStep(L, s, a);
    hide Locks, Reserved, LoggedOk, CacheOk, PhaseOk, Distinct, Stage, Held, CommitWrite, RecoverWrite, HeadBlock, HeadList;
    ListStep(L, s, a);
    CacheStep(L, s, a);
    if a.Commit? { PhaseCommit(L, s); }
    else if a.Recover? { PhaseRecover(L, s); }
    else if a.End? { PhaseEnd(L, s, a.p); }
    else { PhaseOther(L, s, a); }
  }

  // ----- whole runs -----

  ghost predicate Quiescent(s: State) { s.outstanding == 0 && !s.phase.Panicked? }

  /** v is the logical disk of s: what bread returns while the system is up, what
      replay describes before and during recovery. */
  ghost predicate Logical(L: Layout, s: State, v: Disk) {
    && |s.disk| == |v| == L.nblocks
    && if s.phase.Boot? || s.phase.Recovering? then RecoversTo(L, s.disk, v) else SameHome(L, View(s), v)
  }

  /** A step keeps what the disk recovers to, or it is the header write of a commit,
      which switches to the logical disk of a moment without open transactions. */
  lemma DurableStep(L: Layout, s: State, a: Action, v: Disk)
    requires Inv(L, s) && Enabled(L, s, a) && RecoversTo(L, s.disk, v)
    requires Inv(L, Next(L, s, a))
    ensures RecoversTo(L, Next(L, s, a).disk, v)
         || (Up(s) && Quiescent(s) && Logical(L, s, View(s)) && RecoversTo(L, Next(L, s, a).disk, View(s)))
  {
    hide HeadBlock, Locks, CacheOk, Reserved, Stage, HeadList, HeadOk, Held;
    if a.Recover? {
      DurableRecover(L, s, v);
    } else if a.Commit? {
      DurableCommit(L, s, v);
    }
  }

  lemma DurableRecover(L: Layout, s: State, v: Disk)
    requires Inv(L, s) && Enabled(L, s, Recover) && RecoversTo(L, s.disk, v)
    ensures RecoversTo(L, Next(L, s, Recover).disk, v)
  {
    hide HeadBlock, Locks, CacheOk, Reserved, Stage;
    RecoverStep(L, s.disk, v, s.phase.k);
  }

  lemma DurableCommit(L: Layout, s: State, v: Disk)
    requires Inv(L, s) && Enabled(L, s, Commit) && RecoversTo(L, s.disk, v)
    ensures var d := Next(L, s, Commit).disk;
      if s.phase.k == |s.lh| then RecoversTo(L, d, View(s)) else RecoversTo(L, d, v)
  {
    hide HeadBlock, Locks, CacheOk, Reserved, Stage, CommitWrite, HeadList;
    var k, n, d := s.phase.k, |s.lh|, Next(L, s, Commit).disk;
    StageStep(L, s.disk, View(s), s.lh, k);
    StageRecovers(L, s.disk, View(s), s.lh, k);
    StageRecovers(L, d, View(s), s.lh, k + 1);
    if k < n {
      LogBlockKeeps(L, s, v);
    } else if k > n {
      RecoversToUnique(L, s.disk, v, View(s));
      SameRecovery(L, d, View(s), v);
    }
  }

  lemma LogBlockKeeps(L: Layout, s: State, v: Disk)
    requires Inv(L, s) && Enabled(L, s, Commit) && s.phase.k < |s.lh| && RecoversTo(L, s.disk, v)
    ensures RecoversTo(L, Next(L, s, Commit).disk, v)
  {
    hide HeadBlock, Locks, CacheOk, Reserved;
  }

  lemma SameRecovery(L: Layout, d: Disk, v: Disk, w: Disk)
    requires RecoversTo(L, d, v) && |w| == L.nblocks && SameHome(L, v, w)
    ensures RecoversTo(L, d, w)
  {
  }

  /** Durability: when end_op of the last open operation has returned, the disk recovers to
      what bread returns. */
  lemma RestDurable(L: Layout, s: State)
    requires Inv(L, s) && Rests(s)
    ensures RecoversTo(L, s.disk, View(s))
  {
    hide HeadBlock, Stage;
    forall b | 0 <= b < L.nblocks && L.Home(b) ensures View(s)[b] == s.disk[b] { QuietHomes(L, s, b); }
  }

  lemma {:induction false} RunInv(L: Layout, run: seq<State>, i: nat)
    requires Run(L, run) && i < |run| && forall k :: 0 <= k <= i ==> Room(L, run[k])
    ensures Inv(L, run[i])
  {
    if i == 0 {
      SharesIdle(run[0].procs);
    } else {
      RunInv(L, run, i - 1);
      assert Step(L, run[i-1], run[i]);
      var a :| Enabled(L, run[i-1], a) && run[i] == Next(L, run[i-1], a);
      InvStep(L, run[i-1], a);
    }
  }

  /** The disk at moment n recovers to v, which is what bread returned at moment j, when the
      system was up and no transaction was open, or what the disk described at the start;
      and j is not before any moment at which end_op of the last operation had returned. */
  ghost predicate Explains(L: Layout, run: seq<State>, n: nat, j: nat, v: Disk)
    requires n < |run|
  {
    && j <= n && (j == 0 || Up(run[j])) && Quiescent(run[j]) && Logical(L, run[j], v) && RecoversTo(L, run[n].disk, v)
    && forall i :: 0 <= i <= n && Rests(run[i]) ==> i <= j
  }

  lemma RestLogical(L: Layout, s: State)
    requires Inv(L, s) && Rests(s)
    ensures Up(s) && Quiescent(s) && Logical(L, s, View(s))
  {
    hide HeadBlock, Stage, Locks, CacheOk;
  }

  lemma ExplainsStep(L: Layout, run: seq<State>, n: nat, j: nat, v: Disk) returns (j': nat, v': Disk)
    requires 0 < n < |run| && Inv(L, run[n-1]) && Inv(L, run[n]) && Step(L, run[n-1], run[n])
    requires Explains(L, run, n - 1, j, v)
    ensures Explains(L, run, n, j', v')
  {
    hide Inv, Logical, RecoversTo, Quiescent, Enabled, Next, Rests;
    var s := run[n-1];
    var a :| Enabled(L, s, a) && run[n] == Next(L, s, a);
    DurableStep(L, s, a, v);
    if Rests(run[n]) {
      RestDurable(L, run[n]);
      RestLogical(L, run[n]);
      j', v' := n, View(run[n]);
    } else if RecoversTo(L, run[n].disk, v) {
      j', v' := j, v;
    } else {
      j', v' := n - 1, View(s);
    }
  }

  /** Group commit: at any moment of any run, whatever has crashed before and wherever
      it crashes now, the disk recovers to what bread returned at some moment at which the
      system was up and no transaction was open (or to what it described at the start), so
      no operation is half visible; and that moment is not before any at which no operation
      was open, so whatever an operation wrote is durable once end_op of the last operation
      open beside it has returned, however many crashes and recoveries follow. */
  lemma {:induction false} GroupCommit(L: Layout, run: seq<State>, n: nat)
    requires Run(L, run) && n < |run| && forall k :: 0 <= k <= n ==> Room(L, run[k])
    ensures exists j, v :: Explains(L, run, n, j, v)
  {
    hide Inv, Step;
    RunInv(L, run, n);
    if n == 0 {
      RedoExists(L, run[0].disk);
      var v :| RecoversTo(L, run[0].disk, v);
      assert Explains(L, run, 0, 0, v);
    } else {
      GroupCommit(L, run, n - 1);
      var j, v :| Explains(L, run, n - 1, j, v);
      RunInv(L, run, n - 1);
      var j', v' := ExplainsStep(L, run, n, j, v);
    }
  }

  /** A recovery that completes brings up exactly the contents the disk recovered to. */
  lemma RecoveryBringsUp(L: Layout, s: State, v: Disk)
    requires Inv(L, s) && Enabled(L, s, Recover) && RecoversTo(L, s.disk, v) && s.phase.k == |s.lh|
    requires Inv(L, Next(L, s, Recover))
    ensures var s' := Next(L, s, Recover); s'.phase.Normal? && s'.lh == [] && SameHome(L, View(s'), v)
  {
    hide HeadBlock, Stage;
    var s' := Next(L, s, Recover);
    RecoverStep(L, s.disk, v, s.phase.k);
    forall b | 0 <= b < L.nblocks && L.Home(b) ensures View(s')[b] == v[b] { QuietHomes(L, s', b); }
  }

  // ----- how long the list gets -----

  /** What the reservation of begin_op rests on, whatever the size of the log area. */
  ghost predicate Budget(s: State) {
    && Locks(s) && Reserved(s) && Drained(s) && |s.lh| <= LOGSIZE
    && (!s.phase.Normal? && !s.phase.Panicked? ==> s.outstanding == 0)
  }

  lemma BudgetLogged(s: State)
    requires Budget(s)
    ensures LoggedOk(s)
    ensures s.outstanding == 0 ==> forall p :: 0 <= p < |s.procs| ==> s.procs[p].logged == {}
  {
    forall p | 0 <= p < |s.procs|
      ensures |s.procs[p].logged| <= MAXOPBLOCKS && (forall b :: b in s.procs[p].logged ==> b in s.lh)
      ensures s.outstanding == 0 ==> s.procs[p].logged == {}
    {
      assert ProcOk(s, s.procs[p]);
      if s.outstanding == 0 { NoneActive(s.procs, p); }
    }
  }

  lemma BudgetStep(L: Layout, s: State, a: Action)
    requires Budget(s) && Enabled(L, s, a)
    ensures Budget(Next(L, s, a))
  {
    hide Locks, Reserved, LoggedOk, CommitWrite, RecoverWrite, Held;
    BudgetLogged(s);
    ReservedStep(L, s, a);
    LocksStep(L, s, a);
    if a.Append? { AppendFits(L, s, a.p); }
    DrainStep(L, s, a);
  }

  lemma DrainStep(L: Layout, s: State, a: Action)
    requires Reserved(s) && Drained(s) && LoggedOk(s) && Enabled(L, s, a)
    ensures Drained(Next(L, s, a))
  {
    hide CommitWrite, RecoverWrite, Held;
    SharesBound(s.procs);
  }

  /** Log reservation: in every state of every run, for a log area of any size, the list and
      the unused budgets of the open operations stay within LOGSIZE, so log.lh.block is
      never overrun although the guard is read before the lock is taken. */
  lemma {:induction false} Reservation(L: Layout, run: seq<State>, i: nat)
    requires Run(L, run) && i < |run|
    ensures Budget(run[i]) && |run[i].lh| <= LOGSIZE && |run[i].lh| + Unused(run[i].procs) <= LOGSIZE
  {
    hide Enabled, Next;
    if i == 0 {
      SharesIdle(run[0].procs);
    } else {
      Reservation(L, run, i - 1);
      assert Step(L, run[i-1], run[i]);
      var a :| Enabled(L, run[i-1], a) && run[i] == Next(L, run[i-1], a);
      BudgetStep(L, run[i-1], a);
    }
  }

  /** The last end_op commits: in every state of every run with no transaction open and no
      commit under way the list is empty, for a log area of any size. */
  lemma LastEndCommits(L: Layout, run: seq<State>, i: nat)
    requires Run(L, run) && i < |run|
    ensures run[i].phase.Normal? && run[i].outstanding == 0 ==> run[i].lh == []
    ensures run[i].phase.Finishing? ==> run[i].lh == []
  {
    hide Run;
    Reservation(L, run, i);
  }

  /** When the area has a block for the header and LOGSIZE more, the list also stays inside
      the log area. */
  lemma LogFits(L: Layout, run: seq<State>, i: nat)
    requires Run(L, run) && i < |run| && L.size > LOGSIZE
    ensures |run[i].lh| < L.size
  {
    hide Run;
    Reservation(L, run, i);
  }
}
