/** What happens in a log area of at most LOGSIZE blocks, as mkfs makes it: the guard of
    log_write lets the list outgrow the area, and a commit then overwrites a home block. */
module LogOverrun {
  import opened Basics
  import opened Blocks
  import opened Log
  import opened LogMachine

  ghost predicate Reachable(L: Layout, s: State) { exists run :: Run(L, run) && run[|run|-1] == s }

  /** Block x still reads as zero, and replay would not change that. */
  ghost predicate Untouched(L: Layout, s: State, x: nat) {
    && L.Ok() && |s.disk| == L.nblocks && L.Home(x) && At(s, x) == ZERO
    && (s.phase.Boot? || s.phase.Recovering? ==> CleanLog(L, s.disk) && s.disk[x] == ZERO)
  }

  ghost predicate Leads(L: Layout, run: seq<State>, s: State, x: nat) {
    Run(L, run) && run[|run|-1] == s && forall i :: 0 <= i < |run| ==> Untouched(L, run[i], x)
  }

  /** Some run leads to s with block x untouched all along. */
  ghost predicate Reached(L: Layout, s: State, x: nat) { exists run :: Leads(L, run, s, x) }

  lemma ReachedIs(L: Layout, s: State, x: nat)
    requires Reached(L, s, x)
    ensures Reachable(L, s) && Untouched(L, s, x)
  {
    hide Untouched, Step, Init;
    var run :| Leads(L, run, s, x);
    assert Untouched(L, run[|run|-1], x);
  }

  lemma ExtendRun(L: Layout, run: seq<State>, a: Action)
    requires Run(L, run) && Enabled(L, run[|run|-1], a)
    ensures Run(L, run + [Next(L, run[|run|-1], a)])
  {
    hide Enabled, Next, Init;
    var run' := run + [Next(L, run[|run|-1], a)];
    forall i | 0 < i < |run'| ensures Step(L, run'[i-1], run'[i]) {
      if i < |run| { assert Step(L, run[i-1], run[i]); }
    }
  }

  lemma ReachStep(L: Layout, s: State, a: Action, x: nat) returns (s': State)
    requires Reached(L, s, x) && Enabled(L, s, a) && Untouched(L, Next(L, s, a), x)
    ensures s' == Next(L, s, a) && Reached(L, s', x)
  {
    hide Enabled, Next, Untouched, Run;
    s' := Next(L, s, a);
    var run :| Leads(L, run, s, x);
    ExtendRun(L, run, a);
    assert Leads(L, run + [s'], s', x);
  }

  /** Steps that change nothing bread returns. */
  lemma QuietStep(L: Layout, s: State, a: Action, x: nat) returns (s': State)
    requires Reached(L, s, x) && Enabled(L, s, a)
    requires a.Begin? || a.Read? || a.Check? || a.Append? || a.Release? || a.End? || (a.Modify? && a.b != x)
    requires !s.phase.Boot? && !s.phase.Recovering?
    ensures s' == Next(L, s, a) && Reached(L, s', x) && s'.disk == s.disk
  {
    ReachedIs(L, s, x);
    hide Reached, Held;
    s' := ReachStep(L, s, a, x);
  }

  ghost predicate Calm(L: Layout, s: State, x: nat, p: nat) {
    && L.Ok() && |s.disk| == L.nblocks && Reached(L, s, x) && Blank(L, s.disk)
    && s.phase.Normal? && p < |s.procs| && s.procs[p].inOp
  }

  /** Home blocks are zero and the log is empty. */
  ghost predicate Blank(L: Layout, d: Disk) { CleanLog(L, d) && forall b: nat :: L.Home(b) ==> d[b] == ZERO }

  /** Process p reads block y and passes the guard of log_write. */
  lemma PassGuard(L: Layout, s: State, x: nat, p: nat, y: nat) returns (s': State)
    requires Calm(L, s, x, p) && s.procs[p].checked.None? && L.Home(y) && !Held(s, y) && !GuardFails(L, s)
    ensures Calm(L, s', x, p) && s'.lh == s.lh && s'.outstanding == s.outstanding
    ensures s'.cache.Keys == s.cache.Keys + {y} && forall z :: z in s.cache ==> s'.cache[z] == s.cache[z]
    ensures s'.procs == s.procs[p := s.procs[p].(held := s.procs[p].held + {y}, checked := Some(y))]
  {
    hide Reached, Blank;
    s' := QuietStep(L, s, Read(p, y), x);
    s' := QuietStep(L, s', Check(p, y), x);
    assert s'.procs == s.procs[p := s.procs[p].(held := s.procs[p].held + {y}, checked := Some(y))];
  }

  lemma AppendNew(L: Layout, s: State, x: nat, p: nat) returns (s': State)
    requires Calm(L, s, x, p) && s.procs[p].checked.Some? && |s.procs[p].logged| < MAXOPBLOCKS
    requires var y := s.procs[p].checked.value; y in s.cache && y !in s.lh
    ensures var y, q := s.procs[p].checked.value, s.procs[p];
      && Calm(L, s', x, p) && s'.lh == s.lh + [y] && s'.outstanding == s.outstanding
      && s'.procs == s.procs[p := q.(logged := q.logged + {y}, unlogged := q.unlogged - {y}, checked := None)]
      && s'.cache == s.cache[y := s.cache[y].(dirty := true)]
  {
    hide Reached, Blank;
    s' := QuietStep(L, s, Append(p), x);
  }

  lemma ReleaseOne(L: Layout, s: State, x: nat, p: nat, y: nat) returns (s': State)
    requires Calm(L, s, x, p) && s.procs[p].checked.None? && s.procs[p].held == {y} && s.procs[p].unlogged == {}
    ensures Calm(L, s', x, p) && s'.lh == s.lh && s'.outstanding == s.outstanding && s'.cache == s.cache
    ensures s'.procs == s.procs[p := s.procs[p].(held := {})]
  {
    hide Reached, Blank;
    assert {y} - {y} == {};
    s' := QuietStep(L, s, Release(p, y), x);
  }

  /** Three open transactions that have together logged i blocks, from b to b + i. */
  ghost predicate Filled(L: Layout, s: State, x: nat, b: nat, i: nat) {
    && L.Ok() && |s.disk| == L.nblocks && Reached(L, s, x) && Blank(L, s.disk)
    && s.phase.Normal? && |s.procs| == 3 && s.outstanding == 3 && |s.lh| == i
    && (forall t :: 0 <= t < i ==> b <= s.lh[t] < b + i)
    && forall p :: 0 <= p < 3 ==>
         var q := s.procs[p];
         q.inOp && q.held == {} && q.unlogged == {} && q.checked == None && |q.logged| <= (i + 2 - p) / 3
  }

  lemma Turns(i: nat, p: nat)
    requires p < 3
    ensures (i + 3 - p) / 3 == (i + 2 - p) / 3 + if p == i % 3 then 1 else 0
  {
  }

  lemma FillOne(L: Layout, s: State, x: nat, b: nat, i: nat) returns (s': State)
    requires Filled(L, s, x, b, i) && L.Home(b + i) && i < LOGSIZE - 1 && i < L.size - 1
    ensures Filled(L, s', x, b, i + 1)
  {
    hide Reached, Enabled, Next, Blank;
    var p := i % 3;
    var q := s.procs[p];
    Turns(i, p);
    s' := PassGuard(L, s, x, p, b + i);
    s' := AppendNew(L, s', x, p);
    assert q.held + {b + i} == {b + i} && q.unlogged - {b + i} == {};
    s' := ReleaseOne(L, s', x, p, b + i);
    assert s'.procs == s.procs[p := q.(held := {}, unlogged := {}, logged := q.logged + {b + i})];
    forall r | 0 <= r < 3 ensures |s'.procs[r].logged| <= (i + 3 - r) / 3 { Turns(i, r); }
  }

  lemma {:induction false} FillMany(L: Layout, s: State, x: nat, b: nat, n: nat) returns (s': State)
    requires Filled(L, s, x, b, 0) && n < LOGSIZE && n < L.size
    requires forall y :: b <= y < b + n ==> L.Home(y)
    ensures Filled(L, s', x, b, n)
    decreases n
  {
    hide Filled;
    if n == 0 {
      s' := s;
    } else {
      s' := FillMany(L, s, x, b, n - 1);
      s' := FillOne(L, s', x, b, n - 1);
    }
  }

  /** An all-zero disk at power-on. */
  lemma PowerOn(L: Layout, x: nat) returns (s: State)
    requires L.Ok() && L.Home(x)
    ensures Reached(L, s, x) && s == State(s.disk, map[], [], 0, Boot, [IDLE, IDLE, IDLE]) && Blank(L, s.disk)
  {
    hide HeadBlock, Step;
    var disk: Disk := seq(L.nblocks, _ => ZERO);
    assert Word(ZERO, 0) == 0;
    s := State(disk, map[], [], 0, Boot, [IDLE, IDLE, IDLE]);
    assert s.procs == seq(3, _ => IDLE);
    assert Run(L, [s]);
    assert Leads(L, [s], s, x);
  }

  /** The same disk after recovery. */
  lemma Booted(L: Layout, x: nat) returns (s: State)
    requires L.Ok() && L.Home(x)
    ensures Reached(L, s, x) && Blank(L, s.disk) && s.phase.Normal? && s.outstanding == 0 && s.lh == []
    ensures s.procs == [IDLE, IDLE, IDLE] && s.cache == map[]
  {
    hide Reached, HeadBlock, HeadList, HeadOk;
    s := PowerOn(L, x);
    s := ReachStep(L, s, ReadHead, x);
    HeadRoundTrip(s.disk[L.start], []);
    s := ReachStep(L, s, Recover, x);
  }

  lemma ThreeBegun(L: Layout, x: nat, b: nat) returns (s: State)
    requires L.Ok() && L.Home(x)
    ensures Filled(L, s, x, b, 0)
  {
    hide Reached;
    s := Booted(L, x);
    hide Blank;
    s := QuietStep(L, s, Begin(0), x);
    s := QuietStep(L, s, Begin(1), x);
    s := QuietStep(L, s, Begin(2), x);
  }

  lemma Spare(n: nat)
    requires n < LOGSIZE - 1
    ensures (n + 2 - n % 3) / 3 < MAXOPBLOCKS && (n + 2 - (n + 1) % 3) / 3 < MAXOPBLOCKS
  {
  }

  /** Process p has nothing locked and room in its budget. */
  ghost predicate Idle(s: State, p: nat) {
    && p < |s.procs| && s.procs[p].inOp && s.procs[p].held == {} && s.procs[p].unlogged == {}
    && s.procs[p].checked.None? && |s.procs[p].logged| < MAXOPBLOCKS
  }

  /** Three open transactions and no buffer locked. */
  ghost predicate Unlocked(s: State) {
    |s.procs| == 3 && s.outstanding == 3 && forall r :: 0 <= r < 3 ==> s.procs[r].inOp && s.procs[r].held == {}
  }

  lemma FilledCalm(L: Layout, s: State, x: nat, b: nat, n: nat)
    requires Filled(L, s, x, b, n) && n < LOGSIZE - 1 && n < L.size - 1
    ensures Calm(L, s, x, n % 3) && Idle(s, n % 3) && Idle(s, (n + 1) % 3)
    ensures Unlocked(s) && !GuardFails(L, s)
    ensures |s.lh| == n && forall t :: 0 <= t < n ==> b <= s.lh[t] < b + n
  {
    Spare(n);
  }

  /** Process p has only block y locked and has passed the guard for it. */
  ghost predicate Passed(s: State, p: nat, y: nat) {
    && p < |s.procs| && s.procs[p].inOp && s.procs[p].checked == Some(y) && s.procs[p].held == {y}
    && s.procs[p].unlogged == {} && |s.procs[p].logged| < MAXOPBLOCKS && y in s.cache
  }

  ghost predicate OthersSame(s: State, s': State, p: nat) {
    && |s'.procs| == |s.procs| && s'.lh == s.lh && s'.outstanding == s.outstanding && s.cache.Keys <= s'.cache.Keys
    && forall r :: 0 <= r < |s.procs| && r != p ==> s'.procs[r] == s.procs[r]
  }

  lemma OnePass(L: Layout, s: State, x: nat, p: nat, y: nat, z: nat) returns (s': State)
    requires Calm(L, s, x, p) && Idle(s, p) && L.Home(y) && !Held(s, y) && !GuardFails(L, s)
    ensures Calm(L, s', x, p) && Passed(s', p, y) && OthersSame(s, s', p) && !GuardFails(L, s')
    ensures y != z && !Held(s, z) ==> !Held(s', z)
  {
    hide Reached, Enabled, Next, Blank;
    s' := PassGuard(L, s, x, p, y);
    assert s.procs[p].held + {y} == {y};
  }

  /** Two processes have passed the guard with one block of room, each for a new block. */
  ghost predicate Racing(L: Layout, s: State, x: nat, b: nat, n: nat, p: nat, q: nat) {
    && p < 3 && q < 3 && p != q && n + 2 == L.size && |s.procs| == 3 && s.outstanding == 3
    && Calm(L, s, x, q) && |s.lh| == n && (forall t :: 0 <= t < n ==> b <= s.lh[t] < b + n)
    && Passed(s, p, b + n) && Passed(s, q, b + n + 1)
    && forall r :: 0 <= r < 3 && r != p && r != q ==> s.procs[r].inOp && s.procs[r].held == {}
  }

  lemma IdleStays(L: Layout, s: State, s': State, x: nat, p: nat, q: nat)
    requires Calm(L, s', x, p) && OthersSame(s, s', p) && Idle(s, q) && p != q
    ensures Calm(L, s', x, q) && Idle(s', q)
  {
    hide Reached, Blank;
  }

  lemma PassedStays(s: State, s': State, p: nat, q: nat, y: nat)
    requires Passed(s, p, y) && OthersSame(s, s', q) && p != q
    ensures Passed(s', p, y)
  {
  }

  lemma BothPass(L: Layout, s: State, x: nat, b: nat, n: nat, p: nat, q: nat) returns (s': State)
    requires p < 3 && q < 3 && p != q && n + 2 == L.size && Calm(L, s, x, p) && Idle(s, p) && Idle(s, q)
    requires Unlocked(s) && !GuardFails(L, s) && L.Home(b + n) && L.Home(b + n + 1)
    requires |s.lh| == n && forall t :: 0 <= t < n ==> b <= s.lh[t] < b + n
    ensures Racing(L, s', x, b, n, p, q)
  {
    assert !Held(s, b + n) && !Held(s, b + n + 1);
    hide Calm, Idle, Passed, GuardFails, Held;
    var s1 := OnePass(L, s, x, p, b + n, b + n + 1);
    IdleStays(L, s, s1, x, p, q);
    s' := OnePass(L, s1, x, q, b + n + 1, 0);
    PassedStays(s1, s', p, q, b + n);
  }

  // ----- committing the overgrown list -----

  const ONES: Block := ZERO[0 := 1]

  /** The list has outgrown the area, which ends at x; its last entry holds ONES, nothing of
      it is on the disk yet and nobody holds a buffer. */
  ghost predicate Overgrown(L: Layout, s: State, x: nat) {
    && L.Ok() && |s.disk| == L.nblocks && x == L.start + L.size && 2 <= L.size <= LOGSIZE && x + L.size <= L.nblocks
    && Reached(L, s, x) && Blank(L, s.disk)
    && |s.lh| == L.size && (forall t :: 0 <= t < L.size ==> x <= s.lh[t] < x + L.size)
    && s.lh[L.size - 1] == x + L.size - 1
    && x + L.size - 1 in s.cache && s.cache[x + L.size - 1].data == ONES
    && forall r :: 0 <= r < |s.procs| ==> s.procs[r].held == {}
  }

  /** i transactions are still open. */
  ghost predicate Ready(L: Layout, s: State, x: nat, i: nat) {
    && Overgrown(L, s, x) && s.phase.Normal? && |s.procs| == 3 && s.outstanding == i && 0 < i <= 3
    && forall r :: 0 <= r < i ==> s.procs[r].inOp
  }

  /** The commit has written k log slots. */
  ghost predicate Torn(L: Layout, s: State, x: nat, k: nat) {
    Overgrown(L, s, x) && s.phase == Committing(k) && k < L.size
  }

  /** The second of the two modifies its block; both append and release theirs. */
  lemma BothAppend(L: Layout, s: State, x: nat, n: nat, p: nat, q: nat) returns (s': State)
    requires Racing(L, s, x, x, n, p, q)
    requires x == L.start + L.size && L.size <= LOGSIZE && x + L.size <= L.nblocks
    ensures Ready(L, s', x, 3)
  {
    hide Reached, Blank, Held;
    var z := x + n + 1;
    s' := QuietStep(L, s, Modify(q, z, ONES), x);
    hide Enabled, Next;
    s' := AppendNew(L, s', x, p);
    s' := AppendNew(L, s', x, q);
    s' := ReleaseOne(L, s', x, p, x + n);
    s' := ReleaseOne(L, s', x, q, z);
  }

  lemma CloseOne(L: Layout, s: State, x: nat, i: nat) returns (s': State)
    requires Ready(L, s, x, i)
    ensures if i > 1 then Ready(L, s', x, i - 1) else Torn(L, s', x, 0)
  {
    hide Reached, Blank;
    s' := QuietStep(L, s, End(i - 1), x);
  }

  /** A log write of this commit; the last one overwrites block x. */
  lemma SlotStep(L: Layout, s: State, x: nat, k: nat)
    requires Torn(L, s, x, k)
    ensures Enabled(L, s, Commit) && At(s, s.lh[k]) == View(s)[s.lh[k]]
    ensures Next(L, s, Commit) ==
      var slot, data := L.start + 1 + k, At(s, s.lh[k]);
      s.(disk := s.disk[slot := data], phase := Committing(k + 1),
         cache := if slot == x then s.cache[x := Buf(data, false)] else s.cache)
  {
    hide Reached, Blank, HeadBlock;
  }

  lemma BlankSlot(L: Layout, d: Disk, slot: nat, data: Block)
    requires L.Ok() && |d| == L.nblocks && Blank(L, d) && L.start < slot < L.start + L.size
    ensures Blank(L, d[slot := data])
  {
    hide HeadList, HeadOk;
  }

  lemma CommitSlot(L: Layout, s: State, x: nat, k: nat) returns (s': State)
    requires Torn(L, s, x, k) && k + 1 < L.size
    ensures Torn(L, s', x, k + 1)
  {
    ReachedIs(L, s, x);
    SlotStep(L, s, x, k);
    BlankSlot(L, s.disk, L.start + 1 + k, At(s, s.lh[k]));
    hide Reached, Enabled, Next, Blank;
    s' := ReachStep(L, s, Commit, x);
  }

  lemma {:induction false} CommitSlots(L: Layout, s: State, x: nat, k: nat) returns (s': State)
    requires Torn(L, s, x, 0) && k < L.size
    ensures Torn(L, s', x, k)
    decreases k
  {
    hide Torn;
    if k == 0 {
      s' := s;
    } else {
      s' := CommitSlots(L, s, x, k - 1);
      s' := CommitSlot(L, s', x, k - 1);
    }
  }

  lemma ReachTorn(L: Layout) returns (s: State)
    requires L.Ok() && 2 <= L.size <= LOGSIZE && L.start + 2 * L.size <= L.nblocks
    ensures Torn(L, s, L.start + L.size, L.size - 1)
  {
    hide Filled, Calm, Idle, Unlocked, GuardFails, Racing, Ready, Torn;
    var x, n := L.start + L.size, L.size - 2;
    s := ThreeBegun(L, x, x);
    s := FillMany(L, s, x, x, n);
    FilledCalm(L, s, x, x, n);
    s := BothPass(L, s, x, x, n, n % 3, (n + 1) % 3);
    s := BothAppend(L, s, x, n, n % 3, (n + 1) % 3);
    s := CloseOne(L, s, x, 3);
    s := CloseOne(L, s, x, 2);
    s := CloseOne(L, s, x, 1);
    s := CommitSlots(L, s, x, L.size - 1);
  }

  /** The guard does not keep the list inside a smaller log area: two processes can pass
      it with one block of room and then both append. The log slot of the last entry is
      then a home block. mkfs makes log.size == LOGSIZE. */
  lemma LogOverflow(L: Layout) returns (s: State)
    requires L.Ok() && 2 <= L.size <= LOGSIZE && L.start + 2 * L.size <= L.nblocks
    ensures Reachable(L, s) && |s.lh| == L.size && L.Home(L.start + |s.lh|)
  {
    s := ReachTorn(L);
    ReachedIs(L, s, L.start + L.size);
  }

  /** The log layer stays inside its area in every run if and only if the area has room for
      the head and LOGSIZE blocks. */
  lemma LogFitsIff(L: Layout)
    requires L.Ok() && 2 <= L.size && L.start + 2 * L.size <= L.nblocks
    ensures (forall s :: Reachable(L, s) ==> |s.lh| < L.size) <==> L.size > LOGSIZE
  {
    hide Step, Init;
    if L.size > LOGSIZE {
      forall s | Reachable(L, s) ensures |s.lh| < L.size {
        var run :| Run(L, run) && run[|run|-1] == s;
        LogFits(L, run, |run| - 1);
      }
    } else {
      var s := LogOverflow(L);
    }
  }

  /** Nothing bread returned so far explains a disk on which x is no longer zero. */
  lemma NoMoment(L: Layout, s: State, x: nat, v: Disk)
    requires Untouched(L, s, x) && Logical(L, s, v)
    ensures |v| == L.nblocks && v[x] == ZERO
  {
  }

  lemma LastSlot(L: Layout, s: State, x: nat)
    requires L.size >= 2 && Torn(L, s, x, L.size - 1)
    ensures Enabled(L, s, Commit)
    ensures var s' := Next(L, s, Commit);
      |s'.disk| == L.nblocks && s'.disk == s.disk[x := ONES] && s'.phase.Committing? && At(s', x + L.size - 1) == ONES
  {
    SlotStep(L, s, x, L.size - 1);
    hide Reached, Enabled, Next, Blank;
  }

  /** The disk at moment n recovers to the contents of some earlier moment. */
  ghost predicate Explained(L: Layout, run: seq<State>, n: nat)
    requires n < |run|
  {
    exists j: nat, v :: Explains(L, run, n, j, v)
  }

  lemma Unexplained(L: Layout, run: seq<State>, s: State, x: nat, j: nat, v: Disk)
    requires L.size >= 2 && Torn(L, s, x, L.size - 1) && Leads(L, run, s, x) && Enabled(L, s, Commit)
    ensures !Explains(L, run + [Next(L, s, Commit)], |run|, j, v)
  {
    LastSlot(L, s, x);
    assert ONES[0] != ZERO[0];
    assert !Logical(L, Next(L, s, Commit), v) || !RecoversTo(L, Next(L, s, Commit).disk, v);
    hide Run, Enabled, Next, Reached, Untouched, Logical, Rests, Quiescent, HeadList, HeadOk;
    var run' := run + [Next(L, s, Commit)];
    if Explains(L, run', |run|, j, v) && j < |run| {
      assert run'[j] == run[j];
      NoMoment(L, run[j], x, v);
    }
  }

  /** In a log area of 2 to LOGSIZE blocks there is a run whose disk no moment explains: a
      commit, cut before it writes the header, has overwritten the home block after the area. */
  lemma GroupCommitFails(L: Layout) returns (run: seq<State>, n: nat)
    requires L.Ok() && 2 <= L.size <= LOGSIZE && L.start + 2 * L.size <= L.nblocks
    ensures Run(L, run) && n < |run| && !Explained(L, run, n)
  {
    var x := L.start + L.size;
    var s := ReachTorn(L);
    LastSlot(L, s, x);
    var pre :| Leads(L, pre, s, x);
    hide Torn, Enabled, Next, Untouched, Explains;
    ExtendRun(L, pre, Commit);
    run, n := pre + [Next(L, s, Commit)], |pre|;
    forall j: nat, v ensures !Explains(L, run, n, j, v) { Unexplained(L, pre, s, x, j, v); }
  }

  /** Group commit holds of every run if and only if the log area has room for the header
      and LOGSIZE blocks. */
  lemma GroupCommitIff(L: Layout)
    requires L.Ok() && 2 <= L.size && L.start + 2 * L.size <= L.nblocks
    ensures (forall run, n: nat :: n < |run| && Run(L, run) ==> Explained(L, run, n)) <==> L.size > LOGSIZE
  {
    hide Step, Init, Explains;
    if L.size > LOGSIZE {
      forall run, n: nat | n < |run| && Run(L, run) ensures Explained(L, run, n) {
        forall k | 0 <= k <= n ensures Room(L, run[k]) { LogFits(L, run, k); }
        GroupCommit(L, run, n);
      }
    } else {
      var run, n := GroupCommitFails(L);
    }
  }
}
