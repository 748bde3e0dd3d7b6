/** fork, exit, wait, kill and the scheduler over the process table (proc.c), as an
    interleaving of the steps of all processes. Table scans of exit and wait advance one
    slot at a time while ptable.lock is held; fork writes the child's fields without it. */
module ExitWait {
  import opened Basics

  datatype St = UNUSED | EMBRYO | SLEEPING | RUNNABLE | RUNNING | ZOMBIE

  /** Kernel code a process is in. */
  datatype Pc =
    | Elsewhere                            // user code or other kernel code
    | OtherSleep                           // asleep on a channel that is not a process
    | ForkFill(np: nat)                    // child slot allocated, being filled in
    | ForkReady(np: nat)                   // child's parent set; RUNNABLE comes next
    | ExitScan(i: nat)                     // holds ptable.lock, passing children to init
    | WaitScan(i: nat, havekids: bool)     // holds ptable.lock, looking for zombies
    | WaitSleep                            // asleep on its own slot in wait()

  datatype Slot = Slot(st: St, pid: nat, parent: Option<nat>, killed: bool, pc: Pc)

  /** lock is the holder of ptable.lock between steps; reaped lists the pids returned by
      wait, dropped those of children whose fork failed, in order. */
  datatype State = State(t: seq<Slot>, lock: Option<nat>, nextpid: nat, reaped: seq<nat>, dropped: seq<nat>)

  const INIT: nat := 0

  datatype Action =
    | Fork(p: nat, np: nat)                // allocproc: EMBRYO with a new pid
    | ForkFail(p: nat)                     // no memory: slot back to UNUSED, unlocked
    | SetParent(p: nat)                    // np->parent = curproc, unlocked
    | ForkDone(p: nat)                     // np->state = RUNNABLE
    | Exit(p: nat)                         // acquire, wakeup1(curproc->parent)
    | Wait(p: nat)                         // acquire, start scanning
    | ScanStep(p: nat)                     // one table slot of exit or wait
    | Sleep(p: nat)                        // sleep on some other channel
    | Wake(p: nat)                         // wakeup of such a channel
    | Kill(p: nat, pid: nat)
    | Preempt(p: nat)
    | Dispatch(p: nat)

  predicate Alive(st: St) { st.SLEEPING? || st.RUNNABLE? || st.RUNNING? }

  predicate Enabled(s: State, a: Action) {
    a.p < |s.t| && var q := s.t[a.p];
    match a
    case Fork(p, np) => q.st.RUNNING? && q.pc.Elsewhere? && s.lock.None? && np < |s.t| && s.t[np].st.UNUSED?
    case ForkFail(p) => q.st.RUNNING? && q.pc.ForkFill? && q.pc.np < |s.t|
    case SetParent(p) => q.st.RUNNING? && q.pc.ForkFill? && q.pc.np < |s.t|
    case ForkDone(p) => q.st.RUNNING? && q.pc.ForkReady? && s.lock.None? && q.pc.np < |s.t|
    case Exit(p) => q.st.RUNNING? && q.pc.Elsewhere? && s.lock.None? && p != INIT
    case Wait(p) => q.st.RUNNING? && q.pc.Elsewhere? && s.lock.None?
    case ScanStep(p) => q.st.RUNNING? && (q.pc.ExitScan? || q.pc.WaitScan?)
    case Sleep(p) => q.st.RUNNING? && q.pc.Elsewhere? && s.lock.None?
    case Wake(p) => q.st.SLEEPING? && q.pc.OtherSleep? && s.lock.None?
    case Kill(p, pid) => q.st.RUNNING? && q.pc.Elsewhere? && s.lock.None?
    case Preempt(p) => q.st.RUNNING? && !q.pc.ExitScan? && !q.pc.WaitScan? && s.lock.None?
    case Dispatch(p) => q.st.RUNNABLE? && s.lock.None?
  }

  /** wakeup1(&proc[c]): only a process in wait() sleeps on a process slot, its own. */
  function Wakeup1(t: seq<Slot>, c: Option<nat>): (r: seq<Slot>)
    ensures |r| == |t|
  {
    if c.Some? && c.value < |t| && t[c.value].st.SLEEPING? && t[c.value].pc.WaitSleep? then
      t[c.value := t[c.value].(st := RUNNABLE)]
    else t
  }

  /** exit's loop at slot i: a child goes to init, which is woken if the child is a zombie. */
  function Adopt(t: seq<Slot>, p: nat, i: nat): (r: seq<Slot>)
    requires p < |t| && i < |t|
    ensures |r| == |t|
  {
    if t[i].parent == Some(p) then
      var t1 := t[i := t[i].(parent := Some(INIT))];
      if t[i].st.ZOMBIE? then Wakeup1(t1, Some(INIT)) else t1
    else t
  }

  /** The first slot with the given pid, as kill's loop finds it. */
  function Find(t: seq<Slot>, pid: nat, i: nat): (k: nat)
    requires i <= |t|
    ensures i <= k <= |t|
    decreases |t| - i
  {
    if i == |t| || t[i].pid == pid then i else Find(t, pid, i + 1)
  }

  function Put(t: seq<Slot>, p: nat, pc: Pc): (r: seq<Slot>)
    requires p < |t|
  {
    t[p := t[p].(pc := pc)]
  }

  /** wait's loop at slot i. */
  function WaitStep(s: State, p: nat, i: nat, havekids: bool): (s': State)
    requires p < |s.t|
  {
    if i < |s.t| then
      if s.t[i].parent != Some(p) then s.(t := Put(s.t, p, WaitScan(i + 1, havekids)))
      else if !s.t[i].st.ZOMBIE? then s.(t := Put(s.t, p, WaitScan(i + 1, true)))
      else s.(t := Put(s.t[i := Slot(UNUSED, 0, None, false, Elsewhere)], p, Elsewhere),
              lock := None, reaped := s.reaped + [s.t[i].pid])
    else if !havekids || s.t[p].killed then s.(t := Put(s.t, p, Elsewhere), lock := None)
    else s.(t := s.t[p := s.t[p].(st := SLEEPING, pc := WaitSleep)], lock := None)
  }

  function Next(s: State, a: Action): (s': State)
    requires Enabled(s, a)
  {
    var p := a.p;
    var q := s.t[p];
    match a
    case Fork(_, np) =>
      s.(t := Put(s.t, p, ForkFill(np))[np := s.t[np].(st := EMBRYO, pid := s.nextpid, pc := Elsewhere)],
         nextpid := s.nextpid + 1)
    case ForkFail(_) =>
      s.(t := Put(s.t, p, Elsewhere)[q.pc.np := s.t[q.pc.np].(st := UNUSED)], dropped := s.dropped + [s.t[q.pc.np].pid])
    case SetParent(_) =>
      s.(t := Put(s.t, p, ForkReady(q.pc.np))[q.pc.np := s.t[q.pc.np].(parent := Some(p))])
    case ForkDone(_) =>
      s.(t := Put(s.t, p, Elsewhere)[q.pc.np := s.t[q.pc.np].(st := RUNNABLE)])
    case Exit(_) => s.(t := Put(Wakeup1(s.t, q.parent), p, ExitScan(0)), lock := Some(p))
    case Wait(_) => s.(t := Put(s.t, p, WaitScan(0, false)), lock := Some(p))
    case ScanStep(_) =>
      (match q.pc
       case ExitScan(i) =>
         if i < |s.t| then s.(t := Put(Adopt(s.t, p, i), p, ExitScan(i + 1)))
         else s.(t := s.t[p := q.(st := ZOMBIE, pc := Elsewhere)], lock := None)
       case WaitScan(i, havekids) => WaitStep(s, p, i, havekids)
       case _ => s)
    case Sleep(_) => s.(t := s.t[p := q.(st := SLEEPING, pc := OtherSleep)])
    case Wake(_) => s.(t := s.t[p := q.(st := RUNNABLE)])
    case Kill(_, pid) =>
      var k := Find(s.t, pid, 0);
      if k == |s.t| then s
      else s.(t := s.t[k := s.t[k].(killed := true, st := if s.t[k].st.SLEEPING? then RUNNABLE else s.t[k].st)])
    case Preempt(_) => s.(t := s.t[p := q.(st := RUNNABLE)])
    case Dispatch(_) =>
      if q.pc.WaitSleep? then s.(t := s.t[p := q.(st := RUNNING, pc := WaitScan(0, false))], lock := Some(p))
      else s.(t := s.t[p := q.(st := RUNNING, pc := if q.pc.OtherSleep? then Elsewhere else q.pc)])
  }

  /** After userinit: init alone, RUNNABLE, with pid 1. */
  ghost predicate Init(s: State) {
    && |s.t| > 0 && s.lock.None? && s.nextpid == 2 && s.reaped == [] && s.dropped == []
    && s.t[INIT] == Slot(RUNNABLE, 1, None, false, Elsewhere)
    && forall i :: 0 < i < |s.t| ==> s.t[i] == Slot(UNUSED, 0, None, false, Elsewhere)
  }

  // ----- invariant -----

  predicate Scanning(pc: Pc) { pc.ExitScan? || pc.WaitScan? }

  /** State, code and lock ownership of one slot agree. */
  predicate ShapeOk(s: State, i: nat)
    requires i < |s.t|
  {
    var q := s.t[i];
    && (Scanning(q.pc) <==> s.lock == Some(i)) && (Scanning(q.pc) ==> q.st.RUNNING?)
    && (!q.pc.Elsewhere? ==> Alive(q.st))
    && (q.st.SLEEPING? <==> (q.pc.WaitSleep? || q.pc.OtherSleep?) && !q.st.RUNNABLE?)
    && (q.pc.ExitScan? ==> i != INIT) && (i == INIT ==> Alive(q.st))
  }

  predicate Forking(pc: Pc) { pc.ForkFill? || pc.ForkReady? }

  /** A child being made is EMBRYO, and has its parent set in the second half of fork. */
  predicate ForkOk(s: State, i: nat)
    requires i < |s.t|
  {
    var pc := s.t[i].pc;
    Forking(pc) ==>
      && pc.np < |s.t| && s.t[pc.np].st.EMBRYO?
      && s.t[pc.np].parent == if pc.ForkFill? then None else Some(i)
  }

  /** No two processes fill the same child. */
  ghost predicate ForksApart(s: State) {
    forall i, j :: 0 <= i < j < |s.t| && Forking(s.t[i].pc) && Forking(s.t[j].pc) ==> s.t[i].pc.np != s.t[j].pc.np
  }

  /** A parent pointer names another slot, with a process that is alive. */
  predicate ParentOk(s: State, i: nat)
    requires i < |s.t|
  {
    var q := s.t[i];
    && (q.st.UNUSED? || i == INIT ==> q.parent.None?)
    && (q.parent.Some? ==> q.parent.value < |s.t| && q.parent.value != i && Alive(s.t[q.parent.value].st))
  }

  /** exit has passed on the children in the slots it has seen; wait has seen no zombie. */
  predicate ScanOk(s: State, i: nat, j: nat)
    requires i < |s.t| && j < |s.t|
  {
    var pc := s.t[i].pc;
    && (pc.ExitScan? && j < pc.i ==> s.t[j].parent != Some(i))
    && (pc.WaitScan? && j < pc.i && s.t[j].parent == Some(i) ==> !s.t[j].st.ZOMBIE?)
  }

  predicate InWait(q: Slot) { q.st.SLEEPING? && q.pc.WaitSleep? }

  /** The parent of a process that has exited, or is past exit's wakeup, is not asleep in
      wait. */
  predicate NoMissed(s: State, i: nat)
    requires i < |s.t|
  {
    var q := s.t[i];
    (q.st.ZOMBIE? || q.pc.ExitScan?) && q.parent.Some? && q.parent.value < |s.t| ==> !InWait(s.t[q.parent.value])
  }

  ghost predicate TableOk(s: State) {
    && |s.t| > 0 && ForksApart(s)
    && (forall i :: 0 <= i < |s.t| ==> ShapeOk(s, i))
    && (forall i :: 0 <= i < |s.t| ==> ForkOk(s, i))
    && (forall i :: 0 <= i < |s.t| ==> ParentOk(s, i))
    && (forall i, j :: 0 <= i < |s.t| && 0 <= j < |s.t| ==> ScanOk(s, i, j))
    && (forall i :: 0 <= i < |s.t| ==> NoMissed(s, i))
  }

  lemma SizeStep(s: State, a: Action)
    requires Enabled(s, a)
    ensures |Next(s, a).t| == |s.t|
  {
  }

  predicate ForkAction(a: Action) { a.Fork? || a.ForkFail? || a.SetParent? || a.ForkDone? }
  predicate ScanAction(a: Action) { a.Exit? || a.Wait? || a.ScanStep? }

  lemma ShapeFork(s: State, a: Action, i: nat)
    requires Enabled(s, a) && ForkAction(a) && i < |s.t| && ShapeOk(s, i) && ShapeOk(s, a.p) && ForkOk(s, a.p)
    ensures |Next(s, a).t| == |s.t| && ShapeOk(Next(s, a), i)
  {
  }

  lemma ShapeScan(s: State, a: Action, i: nat)
    requires Enabled(s, a) && ScanAction(a) && i < |s.t| && ShapeOk(s, i) && ShapeOk(s, a.p)
    requires ParentOk(s, i) && ParentOk(s, a.p) && (s.t[i].st.ZOMBIE? ==> i != INIT)
    ensures |Next(s, a).t| == |s.t| && ShapeOk(Next(s, a), i)
  {
  }

  lemma ShapeRest(s: State, a: Action, i: nat)
    requires Enabled(s, a) && !ScanAction(a) && !ForkAction(a) && i < |s.t| && ShapeOk(s, i) && ShapeOk(s, a.p)
    ensures |Next(s, a).t| == |s.t| && ShapeOk(Next(s, a), i)
  {
    hide Find;
  }

  lemma ParentFork(s: State, a: Action, i: nat)
    requires Enabled(s, a) && ForkAction(a) && i < |s.t| && ParentOk(s, i) && ShapeOk(s, a.p) && ForkOk(s, a.p)
    requires ShapeOk(s, INIT)
    ensures |Next(s, a).t| == |s.t| && ParentOk(Next(s, a), i)
  {
  }

  lemma ParentScan(s: State, a: Action, i: nat)
    requires Enabled(s, a) && ScanAction(a) && i < |s.t| && ParentOk(s, i) && ShapeOk(s, a.p) && ScanOk(s, a.p, i)
    requires ShapeOk(s, INIT) && ParentOk(s, INIT)
    ensures |Next(s, a).t| == |s.t| && ParentOk(Next(s, a), i)
  {
  }

  lemma ParentRest(s: State, a: Action, i: nat)
    requires Enabled(s, a) && !ScanAction(a) && !ForkAction(a) && i < |s.t| && ParentOk(s, i)
    ensures |Next(s, a).t| == |s.t| && ParentOk(Next(s, a), i)
  {
    hide Find;
  }

  lemma ForkFork(s: State, a: Action, i: nat)
    requires Enabled(s, a) && ForkAction(a) && i < |s.t| && ForkOk(s, i) && ForkOk(s, a.p) && ForksApart(s)
    requires ShapeOk(s, a.p) && ShapeOk(s, i)
    requires forall j :: 0 <= j < |s.t| ==> ParentOk(s, j)
    ensures |Next(s, a).t| == |s.t| && ForkOk(Next(s, a), i)
  {
    if a.Fork? { assert ParentOk(s, a.np); }
    if i < a.p && Forking(s.t[i].pc) && Forking(s.t[a.p].pc) { assert s.t[i].pc.np != s.t[a.p].pc.np; }
  }

  lemma ForkScan(s: State, a: Action, i: nat)
    requires Enabled(s, a) && ScanAction(a) && i < |s.t| && ForkOk(s, i) && ShapeOk(s, a.p) && ShapeOk(s, i)
    ensures |Next(s, a).t| == |s.t| && ForkOk(Next(s, a), i)
  {
  }

  lemma ForkRest(s: State, a: Action, i: nat)
    requires Enabled(s, a) && !ScanAction(a) && !ForkAction(a) && i < |s.t| && ForkOk(s, i) && ShapeOk(s, i)
    ensures |Next(s, a).t| == |s.t| && ForkOk(Next(s, a), i)
  {
    hide Find;
  }

  /** A fork under way afterwards was under way before, or is the one just begun. */
  lemma ForkingStep(s: State, a: Action, i: nat)
    requires Enabled(s, a) && i < |s.t| && ShapeOk(s, a.p)
    ensures |Next(s, a).t| == |s.t|
    ensures var pc := Next(s, a).t[i].pc;
      Forking(pc) ==> (Forking(s.t[i].pc) && pc.np == s.t[i].pc.np) || (a.Fork? && i == a.p && pc.np == a.np)
  {
    hide Find;
  }

  lemma ApartStep(s: State, a: Action)
    requires Enabled(s, a) && ForksApart(s) && ShapeOk(s, a.p)
    requires forall i :: 0 <= i < |s.t| ==> ForkOk(s, i)
    ensures ForksApart(Next(s, a))
  {
    hide Next;
    var s' := Next(s, a);
    SizeStep(s, a);
    forall i, j | 0 <= i < j < |s'.t| && Forking(s'.t[i].pc) && Forking(s'.t[j].pc) ensures s'.t[i].pc.np != s'.t[j].pc.np {
      ForkingStep(s, a, i);
      ForkingStep(s, a, j);
      assert ForkOk(s, i) && ForkOk(s, j);
    }
  }

  lemma ScanStepOk(s: State, a: Action, i: nat, j: nat)
    requires Enabled(s, a) && i < |s.t| && j < |s.t| && ScanOk(s, i, j) && ShapeOk(s, i) && ShapeOk(s, a.p) && ForkOk(s, a.p)
    ensures |Next(s, a).t| == |s.t| && ScanOk(Next(s, a), i, j)
  {
    hide Find;
  }

  lemma MissedFork(s: State, a: Action, i: nat)
    requires Enabled(s, a) && ForkAction(a) && i < |s.t| && NoMissed(s, i) && ShapeOk(s, i) && ForkOk(s, a.p) && ShapeOk(s, a.p)
    requires ParentOk(s, i)
    ensures |Next(s, a).t| == |s.t| && NoMissed(Next(s, a), i)
  {
  }

  lemma MissedScan(s: State, a: Action, i: nat)
    requires Enabled(s, a) && ScanAction(a) && i < |s.t| && NoMissed(s, i) && ShapeOk(s, i) && ShapeOk(s, a.p) && ScanOk(s, a.p, i)
    requires ParentOk(s, i)
    ensures |Next(s, a).t| == |s.t| && NoMissed(Next(s, a), i)
  {
  }

  lemma MissedRest(s: State, a: Action, i: nat)
    requires Enabled(s, a) && !ScanAction(a) && !ForkAction(a) && i < |s.t| && NoMissed(s, i) && ShapeOk(s, i) && ParentOk(s, i)
    requires ShapeOk(s, a.p)
    ensures |Next(s, a).t| == |s.t| && NoMissed(Next(s, a), i)
  {
    hide Find;
  }

  lemma SlotStep(s: State, a: Action, i: nat)
    requires TableOk(s) && Enabled(s, a) && i < |s.t|
    ensures |Next(s, a).t| == |s.t|
    ensures var s' := Next(s, a); ShapeOk(s', i) && ForkOk(s', i) && ParentOk(s', i) && NoMissed(s', i)
  {
    hide Next, Enabled, ShapeOk, ParentOk, ForkOk, NoMissed, ScanOk, ForksApart;
    var p := a.p;
    assert p < |s.t| by { InRange(s, a); }
    assert ShapeOk(s, i) && ShapeOk(s, p) && ShapeOk(s, INIT) && ParentOk(s, i) && ParentOk(s, p) && ParentOk(s, INIT);
    assert ForkOk(s, i) && ForkOk(s, p) && NoMissed(s, i) && ScanOk(s, p, i);
    InitAlive(s, i);
    if ForkAction(a) {
      ShapeFork(s, a, i); ParentFork(s, a, i); ForkFork(s, a, i); MissedFork(s, a, i);
    } else if ScanAction(a) {
      ShapeScan(s, a, i); ParentScan(s, a, i); ForkScan(s, a, i); MissedScan(s, a, i);
    } else {
      ShapeRest(s, a, i); ParentRest(s, a, i); ForkRest(s, a, i); MissedRest(s, a, i);
    }
  }

  lemma InRange(s: State, a: Action)
    requires Enabled(s, a)
    ensures a.p < |s.t|
  {
  }

  lemma InitAlive(s: State, i: nat)
    requires i < |s.t| && ShapeOk(s, i)
    ensures s.t[i].st.ZOMBIE? ==> i != INIT
  {
  }

  lemma TableStep(s: State, a: Action)
    requires TableOk(s) && Enabled(s, a)
    ensures TableOk(Next(s, a))
  {
    hide Next, Enabled, ShapeOk, ParentOk, ForkOk, NoMissed, ScanOk, ForksApart;
    var s' := Next(s, a);
    InRange(s, a);
    SizeStep(s, a);
    assert ShapeOk(s, a.p) && ForkOk(s, a.p);
    ApartStep(s, a);
    forall i | 0 <= i < |s'.t| ensures ShapeOk(s', i) && ForkOk(s', i) && ParentOk(s', i) && NoMissed(s', i) {
      SlotStep(s, a, i);
    }
    forall i, j | 0 <= i < |s'.t| && 0 <= j < |s'.t| ensures ScanOk(s', i, j) {
      assert ScanOk(s, i, j) && ShapeOk(s, i);
      ScanStepOk(s, a, i, j);
    }
  }

  // ----- pids -----

  predicate HasPid(q: Slot, pid: nat) { !q.st.UNUSED? && q.pid == pid }

  ghost predicate InTable(s: State, pid: nat) { exists i :: 0 <= i < |s.t| && HasPid(s.t[i], pid) }

  /** How often a pid is accounted for: in the table, returned by wait, or dropped. */
  ghost function Account(s: State, pid: nat): (n: nat) {
    (if InTable(s, pid) then 1 else 0) + multiset(s.reaped)[pid] + multiset(s.dropped)[pid]
  }

  ghost predicate PidsOk(s: State) {
    && s.nextpid >= 1
    && (forall i, j, pid :: 0 <= i < j < |s.t| && HasPid(s.t[i], pid) ==> !HasPid(s.t[j], pid))
    && (forall pid: nat :: Account(s, pid) == if 1 <= pid < s.nextpid then 1 else 0)
  }

  /** Only allocproc, a failed fork and a successful wait change which pids are in use. */
  lemma PidSlot(s: State, a: Action, i: nat, pid: nat)
    requires Enabled(s, a) && i < |s.t| && ShapeOk(s, a.p) && ForkOk(s, a.p)
    ensures |Next(s, a).t| == |s.t|
    ensures var s' := Next(s, a);
      && (a.Fork? ==> (HasPid(s'.t[i], pid) <==> if i == a.np then pid == s.nextpid else HasPid(s.t[i], pid)))
      && (a.ForkFail? ==> (HasPid(s'.t[i], pid) <==> i != s.t[a.p].pc.np && HasPid(s.t[i], pid)))
      && (Reaps(s, a) ==> (HasPid(s'.t[i], pid) <==> i != s.t[a.p].pc.i && HasPid(s.t[i], pid)))
      && (!a.Fork? && !a.ForkFail? && !Reaps(s, a) ==> (HasPid(s'.t[i], pid) <==> HasPid(s.t[i], pid)))
  {
    hide Find;
  }

  /** The step in which wait returns the pid of a zombie child. */
  predicate Reaps(s: State, a: Action)
    requires Enabled(s, a)
  {
    && a.ScanStep? && s.t[a.p].pc.WaitScan? && s.t[a.p].pc.i < |s.t|
    && var c := s.t[s.t[a.p].pc.i]; c.parent == Some(a.p) && c.st.ZOMBIE?
  }

  /** The slot whose pid a step retires, and where the pid goes. */
  lemma RetireAccount(s: State, s': State, k: nat, pid: nat)
    requires k < |s.t| && |s'.t| == |s.t| && !s.t[k].st.UNUSED?
    requires forall i, j, x :: 0 <= i < j < |s.t| && HasPid(s.t[i], x) ==> !HasPid(s.t[j], x)
    requires forall i :: 0 <= i < |s.t| ==> (HasPid(s'.t[i], pid) <==> i != k && HasPid(s.t[i], pid))
    requires multiset(s'.reaped) + multiset(s'.dropped) == multiset(s.reaped) + multiset(s.dropped) + multiset{s.t[k].pid}
    ensures Account(s', pid) == Account(s, pid)
  {
    var x := s.t[k].pid;
    assert HasPid(s.t[k], x);
    assert (multiset(s'.reaped) + multiset(s'.dropped))[pid] ==
           (multiset(s.reaped) + multiset(s.dropped))[pid] + if pid == x then 1 else 0;
    if pid == x {
      assert InTable(s, pid);
      assert !InTable(s', pid);
    } else if InTable(s, pid) {
      var i :| 0 <= i < |s.t| && HasPid(s.t[i], pid);
      assert HasPid(s'.t[i], pid);
    }
  }

  lemma SameAccount(s: State, s': State, pid: nat)
    requires |s'.t| == |s.t| && s'.reaped == s.reaped && s'.dropped == s.dropped
    requires forall i :: 0 <= i < |s.t| ==> (HasPid(s'.t[i], pid) <==> HasPid(s.t[i], pid))
    ensures Account(s', pid) == Account(s, pid)
  {
    if InTable(s, pid) { var i :| 0 <= i < |s.t| && HasPid(s.t[i], pid); assert HasPid(s'.t[i], pid); }
  }

  lemma NewAccount(s: State, s': State, np: nat, pid: nat)
    requires np < |s.t| && |s'.t| == |s.t| && s.t[np].st.UNUSED? && s'.reaped == s.reaped && s'.dropped == s.dropped
    requires forall i :: 0 <= i < |s.t| ==> (HasPid(s'.t[i], pid) <==> if i == np then pid == s.nextpid else HasPid(s.t[i], pid))
    requires Account(s, s.nextpid) == 0
    ensures Account(s', pid) == if pid == s.nextpid then 1 else Account(s, pid)
  {
    if pid == s.nextpid {
      assert HasPid(s'.t[np], pid);
      assert InTable(s', pid);
    } else if InTable(s, pid) {
      var i :| 0 <= i < |s.t| && HasPid(s.t[i], pid);
      assert HasPid(s'.t[i], pid);
    }
  }

  lemma AccountFork(s: State, a: Action, pid: nat)
    requires Enabled(s, a) && a.Fork? && ShapeOk(s, a.p) && ForkOk(s, a.p) && Account(s, s.nextpid) == 0
    ensures Account(Next(s, a), pid) == if pid == s.nextpid then 1 else Account(s, pid)
  {
    hide Account, ShapeOk, ForkOk, HasPid;
    var s' := Next(s, a);
    forall i | 0 <= i < |s.t|
      ensures HasPid(s'.t[i], pid) <==> if i == a.np then pid == s.nextpid else HasPid(s.t[i], pid)
    {
      PidSlot(s, a, i, pid);
    }
    NewAccount(s, s', a.np, pid);
  }

  lemma AccountFail(s: State, a: Action, pid: nat)
    requires Enabled(s, a) && a.ForkFail? && ShapeOk(s, a.p) && ForkOk(s, a.p) && PidsOk(s)
    ensures Account(Next(s, a), pid) == Account(s, pid)
  {
    hide Account, ShapeOk, ForkOk, HasPid;
    var s', k := Next(s, a), s.t[a.p].pc.np;
    ForkFacts(s, a.p);
    forall i | 0 <= i < |s.t| ensures HasPid(s'.t[i], pid) <==> i != k && HasPid(s.t[i], pid) { PidSlot(s, a, i, pid); }
    RetireAccount(s, s', k, pid);
  }

  lemma AccountReap(s: State, a: Action, pid: nat)
    requires Enabled(s, a) && Reaps(s, a) && ShapeOk(s, a.p) && ForkOk(s, a.p) && PidsOk(s)
    ensures Account(Next(s, a), pid) == Account(s, pid)
  {
    hide Account, ShapeOk, ForkOk, HasPid;
    var s', k := Next(s, a), s.t[a.p].pc.i;
    forall i | 0 <= i < |s.t| ensures HasPid(s'.t[i], pid) <==> i != k && HasPid(s.t[i], pid) { PidSlot(s, a, i, pid); }
    RetireAccount(s, s', k, pid);
  }

  lemma AccountRest(s: State, a: Action, pid: nat)
    requires Enabled(s, a) && !a.Fork? && !a.ForkFail? && !Reaps(s, a) && ShapeOk(s, a.p) && ForkOk(s, a.p)
    ensures Account(Next(s, a), pid) == Account(s, pid) && Next(s, a).nextpid == s.nextpid
  {
    hide Account, ShapeOk, ForkOk, HasPid, Find;
    var s' := Next(s, a);
    SizeStep(s, a);
    forall i | 0 <= i < |s.t| ensures HasPid(s'.t[i], pid) <==> HasPid(s.t[i], pid) { PidSlot(s, a, i, pid); }
    SameAccount(s, s', pid);
  }

  lemma AccountStep(s: State, a: Action, pid: nat)
    requires TableOk(s) && PidsOk(s) && Enabled(s, a)
    ensures Account(Next(s, a), pid) == if 1 <= pid < Next(s, a).nextpid then 1 else 0
  {
    hide Account, ShapeOk, ForkOk, ParentOk, ScanOk, NoMissed, ForksApart, HasPid, Find;
    assert ShapeOk(s, a.p) && ForkOk(s, a.p);
    assert Account(s, pid) == if 1 <= pid < s.nextpid then 1 else 0;
    if a.Fork? { assert Account(s, s.nextpid) == 0; AccountFork(s, a, pid); }
    else if a.ForkFail? { AccountFail(s, a, pid); }
    else if Reaps(s, a) { AccountReap(s, a, pid); }
    else { AccountRest(s, a, pid); }
  }

  lemma ForkFacts(s: State, p: nat)
    requires p < |s.t| && s.t[p].pc.ForkFill? && ForkOk(s, p)
    ensures s.t[p].pc.np < |s.t| && s.t[s.t[p].pc.np].st.EMBRYO?
  {
  }

  lemma UniqueStep(s: State, a: Action, i: nat, j: nat, pid: nat)
    requires TableOk(s) && PidsOk(s) && Enabled(s, a) && i < j < |s.t|
    ensures |Next(s, a).t| == |s.t|
    ensures HasPid(Next(s, a).t[i], pid) ==> !HasPid(Next(s, a).t[j], pid)
  {
    hide Next, Account, ShapeOk, ForkOk, ParentOk, ScanOk, NoMissed, ForksApart, HasPid;
    assert a.p < |s.t| by { InRange(s, a); }
    assert ShapeOk(s, a.p) && ForkOk(s, a.p);
    PidSlot(s, a, i, pid);
    PidSlot(s, a, j, pid);
    if a.Fork? && pid == s.nextpid {
      assert Account(s, pid) == 0;
      NotInTable(s, pid, i);
      NotInTable(s, pid, j);
    }
  }

  lemma NotInTable(s: State, pid: nat, i: nat)
    requires Account(s, pid) == 0 && i < |s.t|
    ensures !HasPid(s.t[i], pid)
  {
    assert !InTable(s, pid);
  }

  lemma PidsStep(s: State, a: Action)
    requires TableOk(s) && PidsOk(s) && Enabled(s, a)
    ensures PidsOk(Next(s, a))
  {
    hide TableOk, Account, HasPid;
    var s' := Next(s, a);
    SizeStep(s, a);
    forall i, j, pid | 0 <= i < j < |s'.t| && HasPid(s'.t[i], pid) ensures !HasPid(s'.t[j], pid) { UniqueStep(s, a, i, j, pid); }
    forall pid: nat ensures Account(s', pid) == if 1 <= pid < s'.nextpid then 1 else 0 { AccountStep(s, a, pid); }
  }

  // ----- runs -----

  ghost predicate Step(s: State, s': State) { exists a :: Enabled(s, a) && s' == Next(s, a) }

  ghost predicate Run(run: seq<State>) {
    |run| > 0 && Init(run[0]) && forall i :: 0 < i < |run| ==> Step(run[i-1], run[i])
  }

  lemma InitOk(s: State)
    requires Init(s)
    ensures TableOk(s) && PidsOk(s)
  {
    forall pid: nat ensures Account(s, pid) == if 1 <= pid < s.nextpid then 1 else 0 {
      if pid == 1 { assert HasPid(s.t[INIT], 1); }
    }
  }

  lemma {:induction false} RunOk(run: seq<State>, i: nat)
    requires Run(run) && i < |run|
    ensures TableOk(run[i]) && PidsOk(run[i])
  {
    hide TableOk, PidsOk, Next, Enabled;
    if i == 0 {
      InitOk(run[0]);
    } else {
      RunOk(run, i - 1);
      assert Step(run[i-1], run[i]);
      var a :| Enabled(run[i-1], a) && run[i] == Next(run[i-1], a);
      TableStep(run[i-1], a);
      PidsStep(run[i-1], a);
    }
  }

  /** In every reachable state a parent pointer names a slot that is neither UNUSED nor
      ZOMBIE (nor EMBRYO), and a free slot has none. */
  lemma ParentsAlive(run: seq<State>, i: nat, c: nat)
    requires Run(run) && i < |run| && c < |run[i].t|
    ensures var q := run[i].t[c];
      (q.parent.Some? ==> q.parent.value < |run[i].t| && Alive(run[i].t[q.parent.value].st)) && (q.st.UNUSED? ==> q.parent.None?)
  {
    RunOk(run, i);
    assert ParentOk(run[i], c);
  }

  /** Whenever ptable.lock is free, no process asleep in wait has a zombie child. */
  lemma NoForgottenZombie(run: seq<State>, i: nat, p: nat, c: nat)
    requires Run(run) && i < |run| && p < |run[i].t| && c < |run[i].t|
    requires run[i].lock.None? && InWait(run[i].t[p]) && run[i].t[c].parent == Some(p)
    ensures !run[i].t[c].st.ZOMBIE?
  {
    RunOk(run, i);
    assert NoMissed(run[i], c);
  }

  /** Every pid ever given out is, at any moment, in exactly one place: one table slot, one
      return value of wait, or one failed fork. So wait returns each pid at most once. */
  lemma PidsConserved(run: seq<State>, i: nat, pid: nat)
    requires Run(run) && i < |run| && 1 <= pid < run[i].nextpid
    ensures Account(run[i], pid) == 1
    ensures multiset(run[i].reaped)[pid] <= 1
  {
    RunOk(run, i);
    assert Account(run[i], pid) == 1;
  }

  /** wait returns only pids of zombies that were its caller's children. */
  lemma WaitReaps(s: State, a: Action)
    requires TableOk(s) && Enabled(s, a) && Next(s, a).reaped != s.reaped
    ensures Reaps(s, a) && Next(s, a).reaped == s.reaped + [s.t[s.t[a.p].pc.i].pid]
  {
    hide Find, TableOk;
  }
}
