/** acquiresleep and releasesleep over sleep and wakeup (sleeplock.c, proc.c), as an
    interleaving of any number of processes, one shared-memory step at a time, with
    spurious wakeups by kill and preemption of processes that hold no spinlock. */
module SleepLock {
  import opened Basics

  /** Where a process is. Comments name the spinlocks it holds: lk is lk->lk and pt is
      ptable.lock. */
  datatype Pc =
    | Outside
    | Want                     // acquire(&lk->lk)
    | Test                     // lk: while (lk->locked)
    | Sleep1                   // lk: sleep() acquires ptable.lock
    | Sleep2                   // lk, pt: release(lk)
    | Sleep3                   // pt: chan = lk, state = SLEEPING, sched()
    | Asleep                   // in sched(), until dispatched
    | Woken                    // pt: chan = 0
    | Unlock                   // pt: release(&ptable.lock)
    | Relock                   // acquire(lk), back to Test
    | Leave                    // lk: locked is 1; release(&lk->lk)
    | Holding                  // has the sleep lock
    | Drop                     // releasesleep: acquire(&lk->lk)
    | Clear                    // lk: locked = 0
    | Wake                     // lk: wakeup() acquires ptable.lock
    | Scan(i: nat)             // lk, pt: wakeup1 is at table slot i
    | WakeDone                 // lk, pt: release(&ptable.lock)
    | Finish                   // lk: release(&lk->lk)
    | Kill(target: nat)        // kill() acquires ptable.lock
    | KillDo(target: nat)      // pt: wake the target if it sleeps
    | KillDone                 // pt: release(&ptable.lock)

  datatype RunState = Running | Runnable | Sleeping

  datatype Proc = Proc(pc: Pc, st: RunState)

  /** pid is lk->pid, set exactly while lk->locked. */
  datatype State = State(locked: bool, pid: Option<nat>, lk: Option<nat>, pt: Option<nat>, procs: seq<Proc>)

  predicate HoldsLk(pc: Pc) {
    pc.Test? || pc.Sleep1? || pc.Sleep2? || pc.Leave? || pc.Clear? || pc.Wake? || pc.Scan? || pc.WakeDone? || pc.Finish?
  }

  predicate HoldsPt(pc: Pc) {
    pc.Sleep2? || pc.Sleep3? || pc.Woken? || pc.Unlock? || pc.Scan? || pc.WakeDone? || pc.KillDo? || pc.KillDone?
  }

  /** Between locked = 1 and locked = 0. */
  predicate Owns(pc: Pc) { pc.Leave? || pc.Holding? || pc.Drop? || pc.Clear? }

  datatype Action =
    | Acquire(p: nat)          // call acquiresleep
    | Release(p: nat)          // the holder calls releasesleep
    | Killing(p: nat, target: nat)
    | Advance(p: nat)          // the next step of p
    | OtherSleep(p: nat)       // p, holding the lock or not, sleeps on another channel
    | OtherWake(p: nat)        // and is woken from it
    | Preempt(p: nat)
    | Dispatch(p: nat)

  /** Whether process p's next step can happen: lock acquisitions wait for the lock. */
  predicate CanAdvance(s: State, p: nat)
    requires p < |s.procs|
  {
    var pc := s.procs[p].pc;
    && !pc.Outside? && !pc.Asleep? && !pc.Holding?
    && (pc.Want? || pc.Relock? || pc.Drop? ==> s.lk.None?)
    && (pc.Sleep1? || pc.Wake? || pc.Kill? ==> s.pt.None?)
  }

  predicate Enabled(s: State, a: Action) {
    a.p < |s.procs| && var q := s.procs[a.p];
    match a
    case Acquire(p) => q.st.Running? && q.pc.Outside?
    case Release(p) => q.st.Running? && q.pc.Holding?
    case Killing(p, target) => q.st.Running? && q.pc.Outside?
    case Advance(p) => q.st.Running? && CanAdvance(s, p)
    case OtherSleep(p) => q.st.Running? && (q.pc.Outside? || q.pc.Holding?) && s.pt.None?
    case OtherWake(p) => q.st.Sleeping? && (q.pc.Outside? || q.pc.Holding?) && s.pt.None?
    case Preempt(p) => q.st.Running? && !HoldsLk(q.pc) && !HoldsPt(q.pc) && s.pt.None?
    case Dispatch(p) => q.st.Runnable? && s.pt.None?
  }

  function Put(s: State, p: nat, pc: Pc): (s': State)
    requires p < |s.procs|
  {
    s.(procs := s.procs[p := s.procs[p].(pc := pc)])
  }

  function SetState(s: State, p: nat, st: RunState): (s': State)
    requires p < |s.procs|
  {
    s.(procs := s.procs[p := s.procs[p].(st := st)])
  }

  /** wakeup1 at slot i: a process sleeping on this lock becomes RUNNABLE. */
  function WakeSlot(s: State, i: nat): (s': State)
    requires i < |s.procs|
  {
    if s.procs[i].st.Sleeping? && s.procs[i].pc.Asleep? then SetState(s, i, Runnable) else s
  }

  /** The step of process p itself. */
  function Advanced(s: State, p: nat): (s': State)
    requires p < |s.procs| && CanAdvance(s, p)
  {
    match s.procs[p].pc
    case Want => Put(s, p, Test).(lk := Some(p))
    case Test => if s.locked then Put(s, p, Sleep1) else Put(s, p, Leave).(locked := true, pid := Some(p))
    case Sleep1 => Put(s, p, Sleep2).(pt := Some(p))
    case Sleep2 => Put(s, p, Sleep3).(lk := None)
    case Sleep3 => SetState(Put(s, p, Asleep), p, Sleeping).(pt := None)
    case Woken => Put(s, p, Unlock)
    case Unlock => Put(s, p, Relock).(pt := None)
    case Relock => Put(s, p, Test).(lk := Some(p))
    case Leave => Put(s, p, Holding).(lk := None)
    case Drop => Put(s, p, Clear).(lk := Some(p))
    case Clear => Put(s, p, Wake).(locked := false, pid := None)
    case Wake => Put(s, p, Scan(0)).(pt := Some(p))
    case Scan(i) => if i < |s.procs| then Put(WakeSlot(s, i), p, Scan(i + 1)) else Put(s, p, WakeDone)
    case WakeDone => Put(s, p, Finish).(pt := None)
    case Finish => Put(s, p, Outside).(lk := None)
    case Kill(target) => Put(s, p, KillDo(target)).(pt := Some(p))
    case KillDo(target) =>
      var s1 := if target < |s.procs| && s.procs[target].st.Sleeping? then SetState(s, target, Runnable) else s;
      Put(s1, p, KillDone)
    case KillDone => Put(s, p, Outside).(pt := None)
    case _ => s
  }

  function Next(s: State, a: Action): (s': State)
    requires Enabled(s, a)
  {
    match a
    case Acquire(p) => Put(s, p, Want)
    case Release(p) => Put(s, p, Drop)
    case Killing(p, target) => Put(s, p, Kill(target))
    case Advance(p) => Advanced(s, p)
    case OtherSleep(p) => SetState(s, p, Sleeping)
    case OtherWake(p) => SetState(s, p, Runnable)
    case Preempt(p) => SetState(s, p, Runnable)
    case Dispatch(p) =>
      var s1 := SetState(s, p, Running);
      if s.procs[p].pc.Asleep? then Put(s1, p, Woken).(pt := Some(p)) else s1
  }

  ghost predicate Init(s: State) {
    && !s.locked && s.pid.None? && s.lk.None? && s.pt.None?
    && forall p :: 0 <= p < |s.procs| ==> s.procs[p] == Proc(Outside, Running)
  }

  // ----- invariant -----

  /** On the way to sleep on this lock, or asleep on it. */
  predicate Waiting(q: Proc) { q.pc.Sleep3? || (q.pc.Asleep? && q.st.Sleeping?) }

  /** Someone has cleared the lock and its wakeup has yet to reach slot p. */
  predicate WakeupComing(s: State, p: nat) {
    && s.lk.Some? && s.lk.value < |s.procs|
    && var pc := s.procs[s.lk.value].pc; pc.Wake? || (pc.Scan? && pc.i <= p)
  }

  /** Program counters agree with who holds the locks, and lock holders are running. */
  predicate LocksOk(s: State, p: nat)
    requires p < |s.procs|
  {
    var q := s.procs[p];
    && (HoldsLk(q.pc) <==> s.lk == Some(p))
    && (HoldsPt(q.pc) <==> s.pt == Some(p))
    && (Owns(q.pc) <==> s.pid == Some(p))
    && (HoldsLk(q.pc) || HoldsPt(q.pc) ==> q.st.Running?)
    && (q.st.Sleeping? ==> q.pc.Asleep? || q.pc.Outside? || q.pc.Holding?)
    && (q.pc.Asleep? ==> !q.st.Running?)
  }

  /** A process waits only for a held lock, or for a wakeup that is coming. */
  predicate WaitOk(s: State, p: nat)
    requires p < |s.procs|
  {
    var q := s.procs[p];
    && (q.pc.Sleep1? || q.pc.Sleep2? ==> s.locked)
    && (Waiting(q) ==> s.locked || WakeupComing(s, p))
  }

  ghost predicate Inv(s: State) {
    && (s.locked <==> s.pid.Some?)
    && (s.lk.Some? ==> s.lk.value < |s.procs|)
    && (s.pid.Some? ==> s.pid.value < |s.procs|)
    && (forall p :: 0 <= p < |s.procs| ==> LocksOk(s, p))
    && (forall p :: 0 <= p < |s.procs| ==> WaitOk(s, p))
  }

  predicate Releasing(pc: Pc) {
    pc.Drop? || pc.Clear? || pc.Wake? || pc.Scan? || pc.WakeDone? || pc.Finish? || pc.Kill? || pc.KillDo? || pc.KillDone?
  }

  lemma AdvanceAcquire(s: State, p: nat)
    requires p < |s.procs| && CanAdvance(s, p) && s.procs[p].st.Running? && LocksOk(s, p)
    requires (s.locked <==> s.pid.Some?) && !Releasing(s.procs[p].pc)
    ensures LocksOk(Advanced(s, p), p)
  {
    var q := Advanced(s, p).procs[p];
    match s.procs[p].pc
    case Test => assert q.pc.Sleep1? || q.pc.Leave?;
    case _ =>
  }

  lemma AdvanceRelease(s: State, p: nat)
    requires p < |s.procs| && CanAdvance(s, p) && s.procs[p].st.Running? && LocksOk(s, p)
    requires (s.locked <==> s.pid.Some?) && Releasing(s.procs[p].pc)
    ensures LocksOk(Advanced(s, p), p)
  {
    var q := Advanced(s, p).procs[p];
    match s.procs[p].pc
    case Scan(i) => assert q.st.Running?;
    case KillDo(target) => assert q.st.Running?;
    case _ =>
  }

  lemma AdvanceSelf(s: State, p: nat)
    requires p < |s.procs| && CanAdvance(s, p) && s.procs[p].st.Running? && LocksOk(s, p)
    requires s.locked <==> s.pid.Some?
    ensures LocksOk(Advanced(s, p), p)
  {
    hide Advanced, LocksOk, CanAdvance;
    if Releasing(s.procs[p].pc) { AdvanceRelease(s, p); } else { AdvanceAcquire(s, p); }
  }

  lemma LocksSelf(s: State, a: Action)
    requires Enabled(s, a) && LocksOk(s, a.p) && (s.locked <==> s.pid.Some?)
    ensures LocksOk(Next(s, a), a.p)
  {
    hide Advanced;
    if a.Advance? { AdvanceSelf(s, a.p); }
  }

  lemma AcquireOther(s: State, a: nat, p: nat)
    requires a < |s.procs| && CanAdvance(s, a) && s.procs[a].st.Running? && p < |s.procs| && p != a
    requires LocksOk(s, p) && LocksOk(s, a) && (s.locked <==> s.pid.Some?) && !Releasing(s.procs[a].pc)
    ensures LocksOk(Advanced(s, a), p)
  {
  }

  lemma ReleaseOther(s: State, a: nat, p: nat)
    requires a < |s.procs| && CanAdvance(s, a) && s.procs[a].st.Running? && p < |s.procs| && p != a
    requires LocksOk(s, p) && LocksOk(s, a) && (s.locked <==> s.pid.Some?) && Releasing(s.procs[a].pc)
    ensures LocksOk(Advanced(s, a), p)
  {
  }

  lemma LocksOther(s: State, a: Action, p: nat)
    requires Enabled(s, a) && p < |s.procs| && p != a.p && LocksOk(s, p) && LocksOk(s, a.p) && (s.locked <==> s.pid.Some?)
    ensures LocksOk(Next(s, a), p)
  {
    hide Advanced, CanAdvance;
    if a.Advance? {
      if Releasing(s.procs[a.p].pc) { ReleaseOther(s, a.p, p); } else { AcquireOther(s, a.p, p); }
    }
  }

  lemma WaitSelf(s: State, a: Action)
    requires Enabled(s, a) && LocksOk(s, a.p) && WaitOk(s, a.p)
    ensures WaitOk(Next(s, a), a.p)
  {
  }

  lemma WaitOther(s: State, a: Action, p: nat)
    requires Enabled(s, a) && p < |s.procs| && p != a.p && WaitOk(s, p) && LocksOk(s, p) && LocksOk(s, a.p)
    requires s.lk.Some? ==> s.lk.value < |s.procs| && LocksOk(s, s.lk.value)
    ensures WaitOk(Next(s, a), p)
  {
  }

  lemma GlobalStep(s: State, a: Action)
    requires Enabled(s, a) && (s.locked <==> s.pid.Some?) && LocksOk(s, a.p)
    requires (s.lk.Some? ==> s.lk.value < |s.procs|) && (s.pid.Some? ==> s.pid.value < |s.procs|)
    ensures var s' := Next(s, a);
      && |s'.procs| == |s.procs| && (s'.locked <==> s'.pid.Some?)
      && (s'.lk.Some? ==> s'.lk.value < |s.procs|) && (s'.pid.Some? ==> s'.pid.value < |s.procs|)
  {
  }

  lemma InvStep(s: State, a: Action)
    requires Inv(s) && Enabled(s, a)
    ensures Inv(Next(s, a))
  {
    hide LocksOk, WaitOk, Advanced, Next, CanAdvance;
    GlobalStep(s, a);
    var s' := Next(s, a);
    forall p | 0 <= p < |s'.procs| ensures LocksOk(s', p) && WaitOk(s', p) {
      if p == a.p { LocksSelf(s, a); WaitSelf(s, a); } else { LocksOther(s, a, p); WaitOther(s, a, p); }
    }
  }

  ghost predicate Step(s: State, s': State) { exists a :: Enabled(s, a) && s' == Next(s, a) }

  ghost predicate Run(run: seq<State>) {
    |run| > 0 && Init(run[0]) && forall i :: 0 < i < |run| ==> Step(run[i-1], run[i])
  }

  lemma {:induction false} RunInv(run: seq<State>, i: nat)
    requires Run(run) && i < |run|
    ensures Inv(run[i])
  {
    if i > 0 {
      RunInv(run, i - 1);
      assert Step(run[i-1], run[i]);
      var a :| Enabled(run[i-1], a) && run[i] == Next(run[i-1], a);
      InvStep(run[i-1], a);
    }
  }

  /** In every state of every run at most one process is between acquiresleep and
      releasesleep. */
  lemma MutualExclusion(run: seq<State>, i: nat, p: nat, q: nat)
    requires Run(run) && i < |run| && p < |run[i].procs| && q < |run[i].procs|
    requires Owns(run[i].procs[p].pc) && Owns(run[i].procs[q].pc)
    ensures p == q && run[i].locked
  {
    RunInv(run, i);
    assert LocksOk(run[i], p) && LocksOk(run[i], q);
  }

  /** No lost wakeup: whenever the inner spinlock is free and the lock is not held, no
      process is asleep on it or on its way to sleep. */
  lemma NoLostWakeup(run: seq<State>, i: nat, p: nat)
    requires Run(run) && i < |run| && p < |run[i].procs|
    requires run[i].lk.None? && !run[i].locked
    ensures var q := run[i].procs[p]; !Waiting(q) && !q.pc.Sleep1? && !q.pc.Sleep2?
  {
    RunInv(run, i);
    assert WaitOk(run[i], p);
  }
}
