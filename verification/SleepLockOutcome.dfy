/** What acquiresleep and releasesleep achieve: whoever comes out of acquiresleep has the
    lock, a free lock can be had, and releasing it lets the sleepers go on. */
module SleepLockOutcome {
  import opened Basics
  import opened Paths
  import opened SleepLock

  /** In acquiresleep, without the lock. */
  predicate Acquiring(pc: Pc) {
    || pc.Want? || pc.Test? || pc.Sleep1? || pc.Sleep2? || pc.Sleep3?
    || pc.Asleep? || pc.Woken? || pc.Unlock? || pc.Relock?
  }

  lemma OwnAdvance(s: State, p: nat)
    requires p < |s.procs| && CanAdvance(s, p) && Acquiring(s.procs[p].pc)
    ensures |Advanced(s, p).procs| == |s.procs|
    ensures Acquiring(Advanced(s, p).procs[p].pc) || Advanced(s, p).procs[p].pc.Leave?
  {
  }

  lemma OthersAcquire(s: State, a: nat, p: nat)
    requires a < |s.procs| && CanAdvance(s, a) && p < |s.procs| && p != a && !Releasing(s.procs[a].pc)
    ensures |Advanced(s, a).procs| == |s.procs| && Advanced(s, a).procs[p] == s.procs[p]
  {
  }

  lemma OthersRelease(s: State, a: nat, p: nat)
    requires a < |s.procs| && CanAdvance(s, a) && p < |s.procs| && p != a && Releasing(s.procs[a].pc)
    ensures |Advanced(s, a).procs| == |s.procs| && Advanced(s, a).procs[p].pc == s.procs[p].pc
  {
  }

  lemma PcStep(s: State, a: Action, p: nat)
    requires Enabled(s, a) && p < |s.procs| && Acquiring(s.procs[p].pc)
    ensures |Next(s, a).procs| == |s.procs|
    ensures Acquiring(Next(s, a).procs[p].pc) || Next(s, a).procs[p].pc.Leave?
  {
    hide Advanced, CanAdvance;
    if a.Advance? {
      if a.p == p { OwnAdvance(s, p); }
      else if Releasing(s.procs[a.p].pc) { OthersRelease(s, a.p, p); }
      else { OthersAcquire(s, a.p, p); }
    }
  }

  /** acquiresleep returns with the lock: whatever step of a run takes p out of it leaves p
      the one owner, with locked set and pid naming p. */
  lemma AcquireReturns(run: seq<State>, n: nat, a: Action, p: nat)
    requires Run(run) && n < |run| && Enabled(run[n], a) && p < |run[n].procs| && Acquiring(run[n].procs[p].pc)
    ensures var s' := Next(run[n], a);
      && |s'.procs| == |run[n].procs|
      && (!Acquiring(s'.procs[p].pc) ==>
            && Owns(s'.procs[p].pc) && s'.locked && s'.pid == Some(p)
            && forall q :: 0 <= q < |s'.procs| && q != p ==> !Owns(s'.procs[q].pc))
  {
    RunInv(run, n);
    InvStep(run[n], a);
    PcStep(run[n], a, p);
    hide Run, Next, Enabled, WaitOk;
    var s' := Next(run[n], a);
    if !Acquiring(s'.procs[p].pc) {
      assert LocksOk(s', p);
      forall q | 0 <= q < |s'.procs| && q != p ensures !Owns(s'.procs[q].pc) { assert LocksOk(s', q); }
    }
  }

  /** kill makes its target runnable if it slept. */
  lemma KillWakes(s: State, p: nat)
    requires p < |s.procs| && s.procs[p].pc.KillDo? && s.procs[p].st.Running? && s.procs[p].pc.target < |s.procs|
    ensures Enabled(s, Advance(p))
    ensures var s', t := Next(s, Advance(p)), s.procs[p].pc.target;
      |s'.procs| == |s.procs| && !s'.procs[t].st.Sleeping? && (s.procs[t].st.Sleeping? ==> s'.procs[t].st.Runnable?)
  {
  }

  // ----- the calls get to their end -----

  lemma Go(s: State, a: Action, s': State)
    requires Enabled(s, a) && Leads(Step, Next(s, a), s')
    ensures Leads(Step, s, s')
  {
    hide Enabled, Next;
    assert Step(s, Next(s, a));
    LeadsOn(Step, s, Next(s, a), s');
  }

  /** The state with the lock given to p. */
  function Given(s: State, p: nat): (s': State)
    requires p < |s.procs|
  {
    s.(locked := true, pid := Some(p), procs := s.procs[p := Proc(Holding, Running)])
  }

  /** From the test of a free lock, with the spinlock held. */
  lemma TestGives(s: State, p: nat)
    requires p < |s.procs| && s.procs[p] == Proc(Test, Running) && !s.locked
    ensures Leads(Step, s, Given(s, p).(lk := None))
  {
    hide Leads;
    var s1 := Put(s, p, Leave).(locked := true, pid := Some(p));
    var s2 := Given(s, p).(lk := None);
    LeadsSelf(Step, s2);
    assert Next(s1, Advance(p)) == s2;
    Go(s1, Advance(p), s2);
    assert Next(s, Advance(p)) == s1;
    Go(s, Advance(p), s2);
  }

  /** acquiresleep of a free lock can return with it, and changes nothing else. */
  lemma FreeIsHad(s: State, p: nat)
    requires p < |s.procs| && s.procs[p] == Proc(Outside, Running) && !s.locked && s.lk.None?
    ensures Leads(Step, s, Given(s, p))
  {
    hide Leads;
    var s1 := Put(s, p, Want);
    var s2 := Put(s, p, Test).(lk := Some(p));
    TestGives(s2, p);
    assert Given(s2, p).(lk := None) == Given(s, p);
    assert Next(s1, Advance(p)) == s2;
    Go(s1, Advance(p), Given(s, p));
    Go(s, Acquire(p), Given(s, p));
  }

  /** acquiresleep of a held lock can go to sleep, with both spinlocks released. */
  lemma HeldIsSleptOn(s: State, p: nat)
    requires p < |s.procs| && s.procs[p] == Proc(Outside, Running) && s.locked && s.lk.None? && s.pt.None?
    ensures Leads(Step, s, s.(procs := s.procs[p := Proc(Asleep, Sleeping)]))
  {
    hide Leads;
    var s' := s.(procs := s.procs[p := Proc(Asleep, Sleeping)]);
    var s1 := Put(s, p, Want);
    var s2 := Put(s, p, Test).(lk := Some(p));
    var s3 := Put(s, p, Sleep1).(lk := Some(p));
    var s4 := Put(s, p, Sleep2).(lk := Some(p), pt := Some(p));
    var s5 := Put(s, p, Sleep3).(pt := Some(p));
    LeadsSelf(Step, s');
    assert Next(s5, Advance(p)) == s';
    Go(s5, Advance(p), s');
    assert Next(s4, Advance(p)) == s5;
    Go(s4, Advance(p), s');
    assert Next(s3, Advance(p)) == s4;
    Go(s3, Advance(p), s');
    assert Next(s2, Advance(p)) == s3;
    Go(s2, Advance(p), s');
    assert Next(s1, Advance(p)) == s2;
    Go(s1, Advance(p), s');
    Go(s, Acquire(p), s');
  }

  /** A process that was woken from its sleep on the lock can go on to take it. */
  lemma WokenHasIt(s: State, p: nat)
    requires p < |s.procs| && s.procs[p] == Proc(Asleep, Runnable) && !s.locked && s.lk.None? && s.pt.None?
    ensures Leads(Step, s, Given(s, p))
  {
    hide Leads;
    var s1 := s.(procs := s.procs[p := Proc(Woken, Running)], pt := Some(p));
    var s2 := s.(procs := s.procs[p := Proc(Unlock, Running)], pt := Some(p));
    var s3 := s.(procs := s.procs[p := Proc(Relock, Running)]);
    var s4 := s.(procs := s.procs[p := Proc(Test, Running)], lk := Some(p));
    TestGives(s4, p);
    assert Given(s4, p).(lk := None) == Given(s, p);
    assert Next(s3, Advance(p)) == s4;
    Go(s3, Advance(p), Given(s, p));
    assert Next(s2, Advance(p)) == s3;
    Go(s2, Advance(p), Given(s, p));
    assert Next(s1, Advance(p)) == s2;
    Go(s1, Advance(p), Given(s, p));
    assert Next(s, Dispatch(p)) == s1;
    Go(s, Dispatch(p), Given(s, p));
  }

  /** Every process from slot k on that slept on the lock is runnable. */
  function AllWoken(ps: seq<Proc>, k: nat): (r: seq<Proc>)
    requires k <= |ps|
    ensures |r| == |ps|
    ensures forall i :: 0 <= i < |ps| ==>
      r[i] == if k <= i && ps[i] == Proc(Asleep, Sleeping) then Proc(Asleep, Runnable) else ps[i]
  {
    seq(|ps|, i requires 0 <= i < |ps| =>
      if k <= i && ps[i] == Proc(Asleep, Sleeping) then Proc(Asleep, Runnable) else ps[i])
  }

  lemma {:induction false} ScanWakes(s: State, p: nat, k: nat)
    requires p < |s.procs| && s.procs[p] == Proc(Scan(k), Running) && k <= |s.procs|
    ensures Leads(Step, s, s.(procs := AllWoken(s.procs, k)[p := Proc(Outside, Running)], lk := None, pt := None))
    decreases |s.procs| - k
  {
    hide Leads;
    var s' := s.(procs := AllWoken(s.procs, k)[p := Proc(Outside, Running)], lk := None, pt := None);
    var t := Next(s, Advance(p));
    if k < |s.procs| {
      ScanWakes(t, p, k + 1);
      assert AllWoken(t.procs, k + 1)[p := Proc(Outside, Running)] == AllWoken(s.procs, k)[p := Proc(Outside, Running)];
    } else {
      assert AllWoken(s.procs, k) == s.procs;
      var t1 := Put(s, p, Finish).(pt := None);
      LeadsSelf(Step, s');
      assert Next(t1, Advance(p)) == s';
      Go(t1, Advance(p), s');
      assert Next(t, Advance(p)) == t1;
      Go(t, Advance(p), s');
    }
    Go(s, Advance(p), s');
  }

  /** releasesleep can return: the lock is free and everyone who slept on it is runnable. */
  lemma ReleaseReturns(s: State, p: nat)
    requires p < |s.procs| && s.procs[p] == Proc(Holding, Running) && s.lk.None? && s.pt.None?
    ensures Leads(Step, s, s.(locked := false, pid := None, procs := AllWoken(s.procs, 0)[p := Proc(Outside, Running)]))
  {
    hide Leads;
    var s' := s.(locked := false, pid := None, procs := AllWoken(s.procs, 0)[p := Proc(Outside, Running)]);
    var s1 := Put(s, p, Drop);
    var s2 := Put(s, p, Clear).(lk := Some(p));
    var s3 := Put(s, p, Wake).(lk := Some(p), locked := false, pid := None);
    var s4 := Put(s, p, Scan(0)).(lk := Some(p), pt := Some(p), locked := false, pid := None);
    ScanWakes(s4, p, 0);
    assert AllWoken(s4.procs, 0)[p := Proc(Outside, Running)] == AllWoken(s.procs, 0)[p := Proc(Outside, Running)];
    assert Next(s3, Advance(p)) == s4;
    Go(s3, Advance(p), s');
    assert Next(s2, Advance(p)) == s3;
    Go(s2, Advance(p), s');
    assert Next(s1, Advance(p)) == s2;
    Go(s1, Advance(p), s');
    assert Next(s, Release(p)) == s1;
    Go(s, Release(p), s');
  }
}
