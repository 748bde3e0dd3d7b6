/** The calls of the log layer do their work: what log_write changes, when it panics, and
    that begin_op, end_op and recovery get to their end. */
module LogProgress {
  import opened Basics
  import opened Paths
  import opened Blocks
  import opened Log
  import opened LogMachine

  /** A process that changes a block it holds changes what bread returns for that block,
      to what it wrote, and for no other. */
  lemma ModifyShows(L: Layout, s: State, p: nat, b: nat, data: Block)
    requires Inv(L, s) && Enabled(L, s, Modify(p, b, data))
    ensures b < L.nblocks && View(Next(L, s, Modify(p, b, data))) == View(s)[b := data]
  {
    hide HeadBlock, Stage, Locks, PhaseOk;
    var s' := Next(L, s, Modify(p, b, data));
    assert forall x :: 0 <= x < L.nblocks ==> At(s', x) == if x == b then data else At(s, x);
  }

  /** bread of a block nobody holds does not wait, commit under way or not, and gives the
      process the block with the contents it is credited with. */
  lemma ReadShows(L: Layout, s: State, p: nat, b: nat)
    requires Inv(L, s) && Up(s) && p < |s.procs| && L.Home(b) && !Held(s, b)
    ensures Enabled(L, s, Read(p, b))
    ensures var s' := Next(L, s, Read(p, b));
      |s'.procs| == |s.procs| && b in s'.procs[p].held && b in s'.cache && s'.cache[b].data == At(s, b)
  {
    hide HeadBlock, Stage, Locks, PhaseOk;
  }

  /** Inside an operation, with a log area large enough, log_write panics exactly when the
      list is full, and then every open operation has used up its budget. */
  lemma PanicsIff(L: Layout, s: State, p: nat, b: nat)
    requires Inv(L, s) && L.size > LOGSIZE && Enabled(L, s, Check(p, b))
    ensures Next(L, s, Check(p, b)).phase.Panicked? <==> |s.lh| == LOGSIZE
    ensures Next(L, s, Check(p, b)).phase.Panicked? ==>
      forall q :: 0 <= q < |s.procs| && s.procs[q].inOp ==> |s.procs[q].logged| == MAXOPBLOCKS
  {
    hide HeadBlock, Stage, CacheOk, PhaseOk;
    forall q | 0 <= q < |s.procs| ensures |s.procs[q].logged| <= MAXOPBLOCKS { assert ProcOk(s, s.procs[q]); }
    SharesBound(s.procs);
  }

  /** A clean buffer that nobody holds can be given up, and bread then returns the same. */
  lemma EvictKeeps(L: Layout, s: State, b: nat)
    requires Inv(L, s) && Up(s) && b in s.cache && !s.cache[b].dirty && !Held(s, b)
    ensures Enabled(L, s, Evict(b)) && b !in Next(L, s, Evict(b)).cache && L.Home(b) && b < |Next(L, s, Evict(b)).disk|
    ensures At(Next(L, s, Evict(b)), b) == At(s, b)
  {
    ViewStep(L, s, Evict(b), b);
    hide HeadBlock, Stage, PhaseOk, Reserved;
  }

  /** With no operation open begin_op does not wait. */
  lemma BeginReady(L: Layout, s: State, p: nat)
    requires Inv(L, s) && s.phase.Normal? && s.outstanding == 0 && p < |s.procs| && s.procs[p].held == {}
    ensures Enabled(L, s, Begin(p)) && Next(L, s, Begin(p)).procs[p].inOp
  {
    hide HeadBlock, Stage, CacheOk, PhaseOk;
    NoneActive(s.procs, p);
  }

  ghost function Steps(L: Layout): (step: (State, State) -> bool) { (s, s') => Step(L, s, s') }

  lemma Go(L: Layout, s: State, a: Action, s': State)
    requires Enabled(L, s, a) && Leads(Steps(L), Next(L, s, a), s')
    ensures Leads(Steps(L), s, s')
  {
    hide Enabled, Next;
    assert Step(L, s, Next(L, s, a));
    LeadsOn(Steps(L), s, Next(L, s, a), s');
  }

  ghost predicate NoneHeld(s: State) { forall p :: 0 <= p < |s.procs| ==> s.procs[p].held == {} }

  lemma NobodyHolds(s: State, b: nat)
    requires NoneHeld(s)
    ensures !Held(s, b)
  {
  }

  lemma Unlocked(L: Layout, s: State, k: nat)
    requires L.Ok() && ListOk(L, s.lh) && NoneHeld(s)
    ensures Writable(L, s.lh) && Unheld(L, s, k, |s.lh|)
  {
    hide Held, NoneHeld, Distinct;
    forall b: nat ensures !Held(s, b) { NobodyHolds(s, b); }
  }

  lemma CommitReady(L: Layout, s: State)
    requires Inv(L, s) && s.phase.Committing? && NoneHeld(s)
    ensures Enabled(L, s, Commit) && ListOk(L, s.lh)
  {
    assert ListOk(L, s.lh) && s.phase.k <= 2 * |s.lh| + 1;
    hide Inv, Unheld, Writable, ListOk, NoneHeld;
    Unlocked(L, s, s.phase.k);
  }

  lemma CommitMoves(L: Layout, s: State)
    requires Enabled(L, s, Commit) && ListOk(L, s.lh)
    ensures var s', k := Next(L, s, Commit), s.phase.k;
      && Room(L, s') && s'.procs == s.procs
      && if k <= 2 * |s.lh| then s'.lh == s.lh && s'.phase == Committing(k + 1) else s'.phase.Finishing?
  {
    hide CommitWrite, Unheld, Writable;
  }

  /** A commit that nobody keeps from the buffers it needs finishes, and changes nothing
      bread returns. */
  lemma {:induction false} CommitFinishes(L: Layout, s: State) returns (s': State)
    requires Inv(L, s) && s.phase.Committing? && NoneHeld(s)
    ensures Leads(Steps(L), s, s') && Inv(L, s') && s'.phase.Finishing? && SameHome(L, View(s), View(s'))
    decreases 2 * |s.lh| + 2 - s.phase.k
  {
    assert s.phase.k <= 2 * |s.lh| + 1;
    CommitReady(L, s);
    CommitMoves(L, s);
    InvStep(L, s, Commit);
    InvParts(L, s);
    ViewSame(L, s, Commit);
    hide Inv, Enabled, Next, NoneHeld;
    var t := Next(L, s, Commit);
    if t.phase.Finishing? {
      s' := t;
      LeadsSelf(Steps(L), t);
    } else {
      s' := CommitFinishes(L, t);
    }
    Go(L, s, Commit, s');
  }

  lemma InvParts(L: Layout, s: State)
    requires Inv(L, s)
    ensures Locks(s) && CacheOk(L, s) && PhaseOk(L, s) && |s.disk| == L.nblocks
  {
  }

  lemma EndReady(L: Layout, s: State, p: nat)
    requires Inv(L, s) && s.phase.Normal? && s.outstanding == 1 && p < |s.procs| && s.procs[p].inOp && NoneHeld(s)
    ensures Enabled(L, s, End(p)) && Room(L, Next(L, s, End(p))) && NoneHeld(Next(L, s, End(p)))
    ensures var s' := Next(L, s, End(p)); s'.phase.Finishing? || s'.phase.Committing?
  {
    hide HeadBlock, Stage, CacheOk, Locks, Reserved;
  }

  lemma FinishReady(L: Layout, s: State)
    requires Inv(L, s) && s.phase.Finishing?
    ensures Enabled(L, s, Finish) && Inv(L, Next(L, s, Finish))
    ensures var s' := Next(L, s, Finish); s'.phase.Normal? && s'.outstanding == 0 && s'.disk == s.disk
  {
    hide HeadBlock, Stage, CacheOk, Locks, Reserved;
    InvStep(L, s, Finish);
  }

  /** end_op of the last open operation, with no buffer left locked, can return, and what
      bread returned before it is then on the disk. */
  lemma EndReturns(L: Layout, s: State, p: nat) returns (s': State)
    requires Inv(L, s) && s.phase.Normal? && s.outstanding == 1 && p < |s.procs| && s.procs[p].inOp && NoneHeld(s)
    ensures Leads(Steps(L), s, s') && Inv(L, s') && s'.phase.Normal? && s'.outstanding == 0
    ensures RecoversTo(L, s'.disk, View(s))
  {
    EndReady(L, s, p);
    InvStep(L, s, End(p));
    InvParts(L, s);
    ViewSame(L, s, End(p));
    var t := Next(L, s, End(p));
    hide Inv, Enabled, Next, NoneHeld, RecoversTo, Leads;
    InvParts(L, t);
    var f := t;
    if t.phase.Committing? { f := CommitFinishes(L, t); } else { LeadsSelf(Steps(L), t); }
    FinishReady(L, f);
    s' := Next(L, f, Finish);
    assert Step(L, f, s');
    LeadsMore(Steps(L), t, f, s');
    Go(L, s, End(p), s');
    RestDurable(L, f);
    InvParts(L, f);
    SameRecovery(L, f.disk, View(f), View(s));
  }

  lemma ReplayReady(L: Layout, s: State, v: Disk)
    requires Inv(L, s) && s.phase.Recovering? && RecoversTo(L, s.disk, v)
    ensures Enabled(L, s, Recover) && Room(L, Next(L, s, Recover)) && RecoversTo(L, Next(L, s, Recover).disk, v)
    ensures s.phase.k <= |s.lh|
    ensures var s', k := Next(L, s, Recover), s.phase.k;
      if k < |s.lh| then s'.lh == s.lh && s'.phase == Recovering(k + 1) else s'.phase.Normal?
  {
    DurableRecover(L, s, v);
    hide HeadBlock, CacheOk, Locks, Reserved, Stage, SameHome, HeadList, HeadOk, RecoversTo;
  }

  lemma {:induction false} ReplayFinishes(L: Layout, s: State, v: Disk) returns (s': State)
    requires Inv(L, s) && s.phase.Recovering? && RecoversTo(L, s.disk, v)
    ensures Leads(Steps(L), s, s') && Inv(L, s') && s'.phase.Normal? && s'.outstanding == 0 && SameHome(L, View(s'), v)
    decreases |s.lh| - s.phase.k
  {
    ReplayReady(L, s, v);
    InvStep(L, s, Recover);
    var t := Next(L, s, Recover);
    if s.phase.k == |s.lh| {
      RecoveryBringsUp(L, s, v);
      s' := t;
      LeadsSelf(Steps(L), t);
    } else {
      s' := ReplayFinishes(L, t, v);
    }
    hide Inv, Enabled, Next, RecoversTo, Leads;
    Go(L, s, Recover, s');
  }

  /** Recovery from any disk left by a crash can finish, and then bread returns what the
      disk described. */
  lemma BootReturns(L: Layout, s: State, v: Disk) returns (s': State)
    requires Inv(L, s) && s.phase.Boot? && RecoversTo(L, s.disk, v)
    ensures Leads(Steps(L), s, s') && Inv(L, s') && s'.phase.Normal? && s'.outstanding == 0 && SameHome(L, View(s'), v)
  {
    assert Enabled(L, s, ReadHead) && Room(L, Next(L, s, ReadHead));
    InvStep(L, s, ReadHead);
    assert Next(L, s, ReadHead).phase.Recovering? && Next(L, s, ReadHead).disk == s.disk;
    hide Inv, Enabled, Next, RecoversTo, Leads;
    s' := ReplayFinishes(L, Next(L, s, ReadHead), v);
    Go(L, s, ReadHead, s');
  }
}
