/** What wait, exit and kill achieve: when wait returns and with what, that a scan reaches
    the end of the table, and whom kill reaches. */
module WaitOutcome {
  import opened Basics
  import opened Paths
  import opened ExitWait

  predicate InWaitCall(pc: Pc) { pc.WaitScan? || pc.WaitSleep? }

  predicate Child(s: State, c: nat, p: nat) { c < |s.t| && s.t[c].parent == Some(p) }

  ghost predicate HasChild(s: State, p: nat) { exists c: nat :: Child(s, c, p) }

  ghost predicate SeenChild(s: State, p: nat, k: nat) { exists c: nat :: c < k && Child(s, c, p) }

  /** havekids tells whether the slots scanned so far hold a child; whoever sleeps in wait
      has a child, and has not been killed since. */
  ghost predicate KidsOk(s: State, p: nat)
    requires p < |s.t|
  {
    var q := s.t[p];
    && (q.pc.WaitScan? ==> q.pc.i <= |s.t| && (q.pc.havekids <==> SeenChild(s, p, q.pc.i)))
    && (q.pc.WaitSleep? ==> HasChild(s, p)) && (InWait(q) ==> !q.killed)
  }

  /** While p is in wait its children stay its children, until wait returns one. */
  lemma ChildKept(s: State, a: Action, c: nat, p: nat)
    requires Enabled(s, a) && p < |s.t| && c < |s.t| && InWaitCall(s.t[p].pc) && Child(s, c, p)
    requires ShapeOk(s, p) && ShapeOk(s, a.p) && ForkOk(s, a.p) && !(a.p == p && Reaps(s, a))
    ensures |Next(s, a).t| == |s.t| && Child(Next(s, a), c, p)
  {
    hide Find;
  }

  /** While p scans it gains none. */
  lemma ChildOld(s: State, a: Action, c: nat, p: nat)
    requires Enabled(s, a) && p < |s.t| && c < |s.t| && s.t[p].pc.WaitScan? && Child(Next(s, a), c, p)
    requires ShapeOk(s, p) && ShapeOk(s, a.p) && ForkOk(s, a.p)
    ensures Child(s, c, p)
  {
    hide Find;
  }

  /** What a step does to a process in wait or entering it. */
  lemma PcStep(s: State, a: Action, p: nat)
    requires Enabled(s, a) && p < |s.t| && ShapeOk(s, p) && ShapeOk(s, a.p) && ForkOk(s, a.p)
    ensures |Next(s, a).t| == |s.t|
    ensures var q, q' := s.t[p], Next(s, a).t[p];
      && (a.p != p && q'.pc != q.pc ==> q'.pc.Elsewhere?)
      && (q'.pc.WaitScan? && !q.pc.WaitScan? ==> q'.pc == WaitScan(0, false))
      && (q'.pc.WaitSleep? && !q.pc.WaitSleep? ==>
            a == ScanStep(p) && q.pc.WaitScan? && q.pc.havekids && !q.killed && !q'.killed)
      && (InWait(q') && InWait(q) ==> q'.killed == q.killed)
      && (InWait(q') && q.pc.WaitSleep? ==> InWait(q))
  {
    hide Find;
  }

  lemma SeenSame(s: State, a: Action, p: nat, k: nat)
    requires Enabled(s, a) && p < |s.t| && k <= |s.t| && s.t[p].pc.WaitScan? && !(a.p == p && Reaps(s, a))
    requires ShapeOk(s, p) && ShapeOk(s, a.p) && ForkOk(s, a.p)
    ensures SeenChild(Next(s, a), p, k) <==> SeenChild(s, p, k)
  {
    hide Next, Enabled, Child, ShapeOk, ForkOk, Reaps;
    if c: nat :| c < k && Child(s, c, p) { ChildKept(s, a, c, p); }
    if c: nat :| c < k && Child(Next(s, a), c, p) { ChildOld(s, a, c, p); }
  }

  /** One turn of wait's loop that does not end it. */
  lemma ScanTurn(s: State, p: nat)
    requires Enabled(s, ScanStep(p)) && s.t[p].pc.WaitScan? && s.t[p].pc.i < |s.t| && !Reaps(s, ScanStep(p))
    ensures var i := s.t[p].pc.i;
      Next(s, ScanStep(p)).t[p].pc == WaitScan(i + 1, s.t[p].pc.havekids || Child(s, i, p))
  {
  }

  lemma SeenMore(s: State, p: nat, k: nat)
    ensures SeenChild(s, p, k + 1) <==> SeenChild(s, p, k) || Child(s, k, p)
  {
    hide Child;
    if SeenChild(s, p, k + 1) { var c: nat :| c < k + 1 && Child(s, c, p); assert c < k || c == k; }
    if c: nat :| c < k && Child(s, c, p) { assert c < k + 1; }
  }

  lemma KidsScan(s: State, a: Action, p: nat)
    requires Enabled(s, a) && p < |s.t| && KidsOk(s, p) && ShapeOk(s, p) && ShapeOk(s, a.p) && ForkOk(s, a.p)
    requires |Next(s, a).t| == |s.t| && s.t[p].pc.WaitScan? && Next(s, a).t[p].pc.WaitScan?
    ensures KidsOk(Next(s, a), p)
  {
    assert s.t[p].st.RUNNING?;
    hide Child, SeenChild, HasChild, ShapeOk, ForkOk, Find;
    var k := s.t[p].pc.i;
    SeenSame(s, a, p, k);
    if a.p == p {
      assert k < |s.t| && !Reaps(s, a);
      ScanTurn(s, p);
      SeenMore(Next(s, a), p, k);
      SeenSame(s, a, p, k + 1);
      SeenMore(s, p, k);
    } else {
      PcStep(s, a, p);
    }
  }

  lemma KidsSleep(s: State, a: Action, p: nat)
    requires Enabled(s, a) && p < |s.t| && KidsOk(s, p) && ShapeOk(s, p) && ShapeOk(s, a.p) && ForkOk(s, a.p)
    requires |Next(s, a).t| == |s.t| && Next(s, a).t[p].pc.WaitSleep?
    ensures KidsOk(Next(s, a), p)
  {
    PcStep(s, a, p);
    hide Next, Child, ShapeOk, ForkOk;
    var c: nat :| Child(s, c, p);
    ChildIn(s, c, p);
    if a.p == p { NotReaping(s, a); }
    ChildKept(s, a, c, p);
  }

  lemma ChildIn(s: State, c: nat, p: nat)
    requires Child(s, c, p)
    ensures c < |s.t|
  {
  }

  lemma NotReaping(s: State, a: Action)
    requires Enabled(s, a) && |Next(s, a).t| == |s.t| && Next(s, a).t[a.p].pc.WaitSleep?
    ensures !Reaps(s, a)
  {
  }

  lemma KidsStep(s: State, a: Action, p: nat)
    requires TableOk(s) && Enabled(s, a) && p < |s.t| && KidsOk(s, p)
    ensures |Next(s, a).t| == |s.t| && KidsOk(Next(s, a), p)
  {
    hide ParentOk, ScanOk, NoMissed, ForksApart, ShapeOk, ForkOk, Next, HasChild, SeenChild;
    assert a.p < |s.t| by { InRange(s, a); }
    assert ShapeOk(s, p) && ShapeOk(s, a.p) && ForkOk(s, a.p);
    PcStep(s, a, p);
    var q, q' := s.t[p], Next(s, a).t[p];
    if q'.pc.WaitSleep? {
      KidsSleep(s, a, p);
    } else if q'.pc.WaitScan? && q.pc.WaitScan? {
      KidsScan(s, a, p);
    } else if q'.pc.WaitScan? {
      NoneSeen(Next(s, a), p);
    }
  }

  lemma NoneSeen(s: State, p: nat)
    ensures !SeenChild(s, p, 0)
  {
  }

  lemma {:induction false} RunKids(run: seq<State>, i: nat, p: nat)
    requires Run(run) && i < |run| && p < |run[i].t|
    ensures KidsOk(run[i], p)
  {
    hide TableOk, KidsOk, Next, Enabled;
    if i == 0 {
      KidsInit(run[0], p);
    } else {
      assert Step(run[i-1], run[i]);
      var a :| Enabled(run[i-1], a) && run[i] == Next(run[i-1], a);
      SizeStep(run[i-1], a);
      RunKids(run, i - 1, p);
      RunOk(run, i - 1);
      KidsStep(run[i-1], a, p);
    }
  }

  lemma KidsInit(s: State, p: nat)
    requires Init(s) && p < |s.t|
    ensures KidsOk(s, p)
  {
  }

  lemma OwnStep(s: State, a: Action, p: nat)
    requires Enabled(s, a) && p < |s.t| && ShapeOk(s, p) && ShapeOk(s, a.p) && ForkOk(s, a.p) && InWaitCall(s.t[p].pc)
    requires |Next(s, a).t| == |s.t| && !InWaitCall(Next(s, a).t[p].pc)
    ensures a == ScanStep(p) && s.t[p].pc.WaitScan?
  {
    hide Find;
  }

  /** At the end of its scan wait returns exactly if the caller is killed or childless;
      otherwise it goes to sleep. */
  lemma ScanEnd(s: State, p: nat)
    requires Enabled(s, ScanStep(p)) && KidsOk(s, p) && s.t[p].pc.WaitScan? && s.t[p].pc.i == |s.t|
    ensures var s' := Next(s, ScanStep(p));
      && s'.reaped == s.reaped && s'.lock.None?
      && if s.t[p].killed || !HasChild(s, p) then s'.t[p].pc.Elsewhere? else InWait(s'.t[p])
  {
    if HasChild(s, p) { var c: nat :| Child(s, c, p); assert SeenChild(s, p, |s.t|); }
  }

  /** wait returns -1 only to a caller that has been killed or has no child: whatever step
      of a run takes p out of wait is p's own, and either hands it the pid of a zombie child
      or finds it killed or childless. */
  lemma WaitReturns(run: seq<State>, n: nat, a: Action, p: nat)
    requires Run(run) && n < |run| && Enabled(run[n], a) && p < |run[n].t| && InWaitCall(run[n].t[p].pc)
    requires |Next(run[n], a).t| == |run[n].t| && !InWaitCall(Next(run[n], a).t[p].pc)
    ensures a == ScanStep(p)
    ensures var s, s' := run[n], Next(run[n], a);
      if s'.reaped == s.reaped then s.t[p].killed || !HasChild(s, p)
      else exists c: nat :: Child(s, c, p) && s.t[c].st.ZOMBIE? && s'.reaped == s.reaped + [s.t[c].pid]
  {
    var s := run[n];
    RunOk(run, n);
    RunKids(run, n, p);
    assert ShapeOk(s, p) && ShapeOk(s, a.p) && ForkOk(s, a.p);
    hide Run, TableOk, HasChild, SeenChild;
    OwnStep(s, a, p);
    if s.t[p].pc.i == |s.t| {
      ScanEnd(s, p);
    } else {
      var c := s.t[p].pc.i;
      if Reaps(s, a) { assert Child(s, c, p); } else { ScanTurn(s, p); }
    }
  }

  /** Whoever sleeps in wait has a child and has not been killed, and whenever ptable.lock is
      free none of its children is a zombie. */
  lemma WaitSleeps(run: seq<State>, n: nat, p: nat)
    requires Run(run) && n < |run| && p < |run[n].t| && InWait(run[n].t[p])
    ensures HasChild(run[n], p) && !run[n].t[p].killed
    ensures run[n].lock.None? ==> forall c: nat :: Child(run[n], c, p) ==> !run[n].t[c].st.ZOMBIE?
  {
    RunKids(run, n, p);
    hide Run;
    if run[n].lock.None? {
      forall c: nat | Child(run[n], c, p) ensures !run[n].t[c].st.ZOMBIE? { NoForgottenZombie(run, n, p, c); }
    }
  }

  // ----- the calls get to their end -----

  lemma Go(s: State, a: Action, s': State)
    requires Enabled(s, a) && Leads(Step, Next(s, a), s')
    ensures Leads(Step, s, s')
  {
    hide Enabled, Next;
    assert Step(s, Next(s, a));
    LeadsOn(Step, s, Next(s, a), s');
  }

  /** c is the first zombie child of p from slot k on. */
  ghost predicate FirstZombie(s: State, p: nat, k: nat, c: nat) {
    && k <= c < |s.t| && Child(s, c, p) && s.t[c].st.ZOMBIE?
    && forall d: nat :: k <= d < c && Child(s, d, p) ==> !s.t[d].st.ZOMBIE?
  }

  /** A scan of wait that has a zombie child before it returns the first one's pid and frees
      its slot; nothing else in the table changes. */
  lemma {:induction false} ScanFinds(s: State, p: nat, c: nat) returns (s': State)
    requires p < |s.t| && s.t[p].st.RUNNING? && s.t[p].pc.WaitScan? && c != p
    requires FirstZombie(s, p, s.t[p].pc.i, c)
    ensures Leads(Step, s, s') && s'.lock.None? && s'.reaped == s.reaped + [s.t[c].pid]
    ensures s'.t == s.t[c := Slot(UNUSED, 0, None, false, Elsewhere)][p := s.t[p].(pc := Elsewhere)]
    decreases |s.t| - s.t[p].pc.i
  {
    var k := s.t[p].pc.i;
    assert Enabled(s, ScanStep(p));
    var t := Next(s, ScanStep(p));
    if k == c {
      s' := t;
      LeadsSelf(Step, t);
    } else {
      assert !Reaps(s, ScanStep(p));
      ScanTurn(s, p);
      assert t.t == s.t[p := s.t[p].(pc := t.t[p].pc)] && t.reaped == s.reaped;
      s' := ScanFinds(t, p, c);
      assert s'.t == s.t[c := Slot(UNUSED, 0, None, false, Elsewhere)][p := s.t[p].(pc := Elsewhere)];
    }
    Go(s, ScanStep(p), s');
  }

  /** wait by a process with a zombie child, when ptable.lock is free, can return, with the
      pid of the first one in the table. */
  lemma WaitFinds(s: State, p: nat, c: nat) returns (s': State)
    requires p < |s.t| && s.t[p].st.RUNNING? && s.t[p].pc.Elsewhere? && s.lock.None? && FirstZombie(s, p, 0, c)
    ensures Leads(Step, s, s') && s'.lock.None? && s'.reaped == s.reaped + [s.t[c].pid]
    ensures s'.t == s.t[c := Slot(UNUSED, 0, None, false, Elsewhere)]
  {
    assert Enabled(s, Wait(p));
    var t := Next(s, Wait(p));
    assert t.t == s.t[p := s.t[p].(pc := WaitScan(0, false))];
    s' := ScanFinds(t, p, c);
    Go(s, Wait(p), s');
  }

  /** exit's loop from slot k on: the children left go to init, and the process becomes a
      zombie. */
  lemma {:induction false} ExitScans(s: State, p: nat) returns (s': State)
    requires p < |s.t| && s.t[p].st.RUNNING? && s.t[p].pc.ExitScan? && s.t[p].pc.i <= |s.t| && p != INIT
    requires s.t[p].parent != Some(p)
    ensures Leads(Step, s, s') && s'.lock.None? && |s'.t| == |s.t| && s'.t[p].st.ZOMBIE? && s'.reaped == s.reaped
    ensures forall c :: 0 <= c < |s.t| ==>
      && s'.t[c].parent == (if s.t[p].pc.i <= c && s.t[c].parent == Some(p) then Some(INIT) else s.t[c].parent)
      && s'.t[c].pid == s.t[c].pid && s'.t[c].killed == s.t[c].killed
    decreases |s.t| - s.t[p].pc.i
  {
    var k := s.t[p].pc.i;
    assert Enabled(s, ScanStep(p));
    var t := Next(s, ScanStep(p));
    if k == |s.t| {
      s' := t;
      LeadsSelf(Step, t);
    } else {
      s' := ExitScans(t, p);
    }
    Go(s, ScanStep(p), s');
  }

  /** exit, when ptable.lock is free, can get to its end: a zombie whose children are init's. */
  lemma ExitEnds(s: State, p: nat) returns (s': State)
    requires TableOk(s) && p < |s.t| && s.t[p].st.RUNNING? && s.t[p].pc.Elsewhere? && s.lock.None? && p != INIT
    ensures Leads(Step, s, s') && s'.lock.None? && |s'.t| == |s.t| && s'.t[p].st.ZOMBIE? && s'.reaped == s.reaped
    ensures forall c :: 0 <= c < |s.t| ==>
      && s'.t[c].parent == (if s.t[c].parent == Some(p) then Some(INIT) else s.t[c].parent)
      && s'.t[c].pid == s.t[c].pid && s'.t[c].killed == s.t[c].killed
  {
    assert ParentOk(s, p) && ShapeOk(s, p);
    hide TableOk;
    assert Enabled(s, Exit(p));
    s' := ExitScans(Next(s, Exit(p)), p);
    Go(s, Exit(p), s');
  }

  /** A process woken from its sleep in wait scans again from the start of the table. */
  lemma WokenRescans(s: State, p: nat)
    requires p < |s.t| && s.t[p].st.RUNNABLE? && s.t[p].pc.WaitSleep? && s.lock.None?
    ensures Enabled(s, Dispatch(p))
    ensures Next(s, Dispatch(p)) == s.(t := s.t[p := s.t[p].(st := RUNNING, pc := WaitScan(0, false))], lock := Some(p))
  {
  }

  /** fork, with a free slot and ptable.lock free, can return: a runnable child of the caller
      with the next pid, and nothing else changed. */
  lemma ForkMakes(s: State, p: nat, np: nat)
    requires p < |s.t| && s.t[p].st.RUNNING? && s.t[p].pc.Elsewhere? && s.lock.None?
    requires np < |s.t| && s.t[np].st.UNUSED? && np != p
    ensures var child := Slot(RUNNABLE, s.nextpid, Some(p), s.t[np].killed, Elsewhere);
      Leads(Step, s, s.(t := s.t[np := child], nextpid := s.nextpid + 1))
  {
    hide Leads, Find;
    var child := Slot(EMBRYO, s.nextpid, s.t[np].parent, s.t[np].killed, Elsewhere);
    var base := s.(nextpid := s.nextpid + 1);
    var s1 := base.(t := Put(s.t, p, ForkFill(np))[np := child]);
    var s2 := base.(t := Put(s.t, p, ForkReady(np))[np := child.(parent := Some(p))]);
    var s3 := base.(t := s.t[np := child.(parent := Some(p), st := RUNNABLE)]);
    LeadsSelf(Step, s3);
    assert Next(s2, ForkDone(p)).t == s3.t;
    Go(s2, ForkDone(p), s3);
    assert Next(s1, SetParent(p)).t == s2.t;
    Go(s1, SetParent(p), s3);
    assert Next(s, Fork(p, np)).t == s1.t;
    Go(s, Fork(p, np), s3);
  }

  // ----- kill -----

  lemma {:induction false} FindIs(t: seq<Slot>, pid: nat, i: nat, k: nat)
    requires i <= k < |t| && t[k].pid == pid && forall j :: i <= j < k ==> t[j].pid != pid
    ensures Find(t, pid, i) == k
    decreases k - i
  {
    if i < k { FindIs(t, pid, i + 1, k); }
  }

  /** kill marks the first slot with the pid, wakes it if it sleeps and changes nothing else;
      without such a slot it changes nothing. */
  lemma KillMarks(s: State, p: nat, pid: nat, k: nat)
    requires Enabled(s, Kill(p, pid)) && k < |s.t| && s.t[k].pid == pid && forall j :: 0 <= j < k ==> s.t[j].pid != pid
    ensures var s' := Next(s, Kill(p, pid));
      && |s'.t| == |s.t| && s'.t[k].killed && !s'.t[k].st.SLEEPING?
      && s' == s.(t := s.t[k := s.t[k].(killed := true, st := s'.t[k].st)])
      && (!s.t[k].st.SLEEPING? ==> s'.t[k].st == s.t[k].st)
  {
    FindIs(s.t, pid, 0, k);
    hide Find;
  }

  /** kill tests the pid alone, and 0 is the pid of every slot that was never used, so kill(0)
      marks such a slot and the next process made in it is killed from the start. */
  lemma BornKilled(s: State)
    requires Init(s) && |s.t| > 1
    ensures var t := s.t[INIT := s.t[INIT].(st := RUNNING)];
      Leads(Step, s, s.(t := t[1 := Slot(RUNNABLE, 2, Some(INIT), true, Elsewhere)], nextpid := 3))
  {
    hide Leads;
    var s1 := s.(t := s.t[INIT := s.t[INIT].(st := RUNNING)]);
    var s2 := s1.(t := s1.t[1 := Slot(UNUSED, 0, None, true, Elsewhere)]);
    var s3 := s1.(t := s1.t[1 := Slot(RUNNABLE, 2, Some(INIT), true, Elsewhere)], nextpid := 3);
    ForkMakes(s2, INIT, 1);
    assert s2.t[1 := Slot(RUNNABLE, 2, Some(INIT), true, Elsewhere)] == s3.t;
    KillMarks(s1, INIT, 0, 1);
    assert Next(s1, Kill(INIT, 0)) == s2;
    Go(s1, Kill(INIT, 0), s3);
    assert Next(s, Dispatch(INIT)) == s1;
    Go(s, Dispatch(INIT), s3);
  }
}
