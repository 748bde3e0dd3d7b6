/** Readers, writers and closers of one pipe (pipe.c), interleaved step by step over the
    pipe's lock and sleep/wakeup. The buffer is represented by how many bytes it holds. */
module PipeWakeup {
  import opened Basics
  import Pipe

  const PIPESIZE: nat := Pipe.PIPESIZE

  datatype Call = WriteCall(n: nat) | ReadCall(n: nat) | CloseCall(writable: bool)

  /** Steps of pipewrite, piperead and pipeclose under the pipe's lock. */
  datatype WStep = WLoop | WWakeFull | WWakeEnd
  datatype RStep = RTest | RCopy | RWake
  datatype CStep = CSet | CWake

  /** Steps of sleep(chan, &p->lock): acquire ptable.lock; release p->lock; become
      SLEEPING; wait for a wakeup; release ptable.lock; acquire p->lock. */
  datatype ZStep = GetTable | DropPipe | Mark | Asleep | DropTable | GetPipe

  /** Want(c) is about to acquire the pipe's lock for call c; Leave is about to release it. */
  datatype Pc =
    | Idle
    | Want(c: Call)
    | W(w: WStep, left: nat)
    | R(r: RStep, left: nat)
    | C(cs: CStep, writable: bool)
    | Leave
    | Z(z: ZStep, left: nat, reader: bool)

  datatype RunState = Running | Runnable | Sleeping

  datatype Proc = Proc(pc: Pc, st: RunState, killed: bool)

  /** count is nwrite - nread; rref and wref tell whether open files still refer to the read
      and the write end; lk is p->lock and pt is ptable.lock. */
  datatype State = State(count: nat, readopen: bool, writeopen: bool, rref: bool, wref: bool,
                         lk: Option<nat>, pt: Option<nat>, procs: seq<Proc>)

  predicate HoldsLk(pc: Pc) { pc.W? || pc.R? || pc.C? || pc.Leave? || (pc.Z? && (pc.z.GetTable? || pc.z.DropPipe?)) }
  predicate HoldsPt(pc: Pc) { pc.Z? && (pc.z.DropPipe? || pc.z.Mark? || pc.z.DropTable?) }
  predicate IsAsleep(pc: Pc) { pc.Z? && pc.z.Asleep? }

  /** Inside piperead, inside pipewrite. */
  predicate Reading(pc: Pc) { pc.R? || (pc.Want? && pc.c.ReadCall?) || (pc.Z? && pc.reader) }
  predicate Writing(pc: Pc) { pc.W? || (pc.Want? && pc.c.WriteCall?) || (pc.Z? && !pc.reader) }

  datatype Action =
    | Start(p: nat, c: Call)
    | Advance(p: nat)
    | Kill(p: nat)
    | Preempt(p: nat)
    | Dispatch(p: nat)

  predicate CanAdvance(s: State, pc: Pc) {
    match pc
    case Idle => false
    case Want(_) => s.lk.None?
    case W(w, _) => w.WLoop? || s.pt.None?
    case R(r, _) => !r.RWake? || s.pt.None?
    case C(cs, _) => cs.CSet? || s.pt.None?
    case Leave => true
    case Z(z, _, _) => !z.Asleep? && (z.GetTable? ==> s.pt.None?) && (z.GetPipe? ==> s.lk.None?)
  }

  predicate NoReader(s: State) { forall i :: 0 <= i < |s.procs| ==> !Reading(s.procs[i].pc) }
  predicate NoWriter(s: State) { forall i :: 0 <= i < |s.procs| ==> !Writing(s.procs[i].pc) }

  /** An end is used only through an open file; the last reference goes away only when
      nobody is inside a read or a write on it, and only then is the end closed. */
  ghost predicate Enabled(s: State, a: Action) {
    a.p < |s.procs| && var q := s.procs[a.p];
    match a
    case Start(p, c) =>
      && q.st.Running? && q.pc.Idle?
      && (match c
          case WriteCall(_) => s.wref
          case ReadCall(_) => s.rref
          case CloseCall(w) => if w then s.wref && NoWriter(s) else s.rref && NoReader(s))
    case Advance(p) => q.st.Running? && CanAdvance(s, q.pc)
    case Kill(p) => s.pt.None?
    case Preempt(p) => q.st.Running? && !HoldsLk(q.pc) && !HoldsPt(q.pc) && s.pt.None?
    case Dispatch(p) => q.st.Runnable? && s.pt.None?
  }

  function Put(s: State, p: nat, pc: Pc): (s': State)
    requires p < |s.procs|
  {
    s.(procs := s.procs[p := s.procs[p].(pc := pc)])
  }

  function WakeOne(q: Proc, reader: bool): (r: Proc) {
    if q.st.Sleeping? && IsAsleep(q.pc) && q.pc.reader == reader then q.(st := Runnable) else q
  }

  /** wakeup(&p->nread) for readers, wakeup(&p->nwrite) for writers. */
  function WakeEach(ps: seq<Proc>, reader: bool): (r: seq<Proc>)
    ensures |r| == |ps|
    ensures forall i :: 0 <= i < |ps| ==> r[i] == WakeOne(ps[i], reader)
  {
    if ps == [] then [] else WakeEach(ps[..|ps|-1], reader) + [WakeOne(ps[|ps|-1], reader)]
  }

  function WakeAll(s: State, reader: bool): (s': State) { s.(procs := WakeEach(s.procs, reader)) }

  function Enter(s: State, p: nat, c: Call): (s': State)
    requires p < |s.procs|
  {
    Put(s, p, match c case WriteCall(n) => W(WLoop, n) case ReadCall(n) => R(RTest, n) case CloseCall(w) => C(CSet, w)).(lk := Some(p))
  }

  function StepW(s: State, p: nat, w: WStep, left: nat): (s': State)
    requires p < |s.procs|
  {
    match w
    case WLoop =>
      if left == 0 then Put(s, p, W(WWakeEnd, 0))
      else if s.count == PIPESIZE then
        Put(s, p, if !s.readopen || s.procs[p].killed then Leave else W(WWakeFull, left))
      else Put(s, p, W(WLoop, left - 1)).(count := s.count + 1)
    case WWakeFull => Put(WakeAll(s, true), p, Z(GetTable, left, false))
    case WWakeEnd => Put(WakeAll(s, true), p, Leave)
  }

  function StepR(s: State, p: nat, r: RStep, left: nat): (s': State)
    requires p < |s.procs|
  {
    match r
    case RTest =>
      if s.count == 0 && s.writeopen then Put(s, p, if s.procs[p].killed then Leave else Z(GetTable, left, true))
      else Put(s, p, R(RCopy, left))
    case RCopy =>
      if left == 0 || s.count == 0 then Put(s, p, R(RWake, 0)) else Put(s, p, R(RCopy, left - 1)).(count := s.count - 1)
    case RWake => Put(WakeAll(s, false), p, Leave)
  }

  function StepC(s: State, p: nat, cs: CStep, w: bool): (s': State)
    requires p < |s.procs|
  {
    match cs
    case CSet => if w then Put(s, p, C(CWake, w)).(writeopen := false) else Put(s, p, C(CWake, w)).(readopen := false)
    case CWake => Put(WakeAll(s, w), p, Leave)
  }

  function StepZ(s: State, p: nat, z: ZStep, left: nat, r: bool): (s': State)
    requires p < |s.procs|
  {
    match z
    case GetTable => Put(s, p, Z(DropPipe, left, r)).(pt := Some(p))
    case DropPipe => Put(s, p, Z(Mark, left, r)).(lk := None)
    case Mark => s.(procs := s.procs[p := s.procs[p].(pc := Z(Asleep, left, r), st := Sleeping)], pt := None)
    case Asleep => s
    case DropTable => Put(s, p, Z(GetPipe, left, r)).(pt := None)
    case GetPipe => Put(s, p, if r then R(RTest, left) else W(WLoop, left)).(lk := Some(p))
  }

  function Advanced(s: State, p: nat): (s': State)
    requires p < |s.procs|
  {
    match s.procs[p].pc
    case Idle => s
    case Want(c) => Enter(s, p, c)
    case W(w, left) => StepW(s, p, w, left)
    case R(r, left) => StepR(s, p, r, left)
    case C(cs, w) => StepC(s, p, cs, w)
    case Leave => Put(s, p, Idle).(lk := None)
    case Z(z, left, r) => StepZ(s, p, z, left, r)
  }

  function Drop(s: State, c: Call): (s': State) {
    match c case CloseCall(w) => if w then s.(wref := false) else s.(rref := false) case _ => s
  }

  ghost function Next(s: State, a: Action): (s': State)
    requires Enabled(s, a)
  {
    var p := a.p;
    var q := s.procs[p];
    match a
    case Start(_, c) => Put(Drop(s, c), p, Want(c))
    case Advance(_) => Advanced(s, p)
    case Kill(_) => s.(procs := s.procs[p := q.(killed := true, st := if q.st.Sleeping? then Runnable else q.st)])
    case Preempt(_) => s.(procs := s.procs[p := q.(st := Runnable)])
    case Dispatch(_) =>
      if IsAsleep(q.pc) then
        s.(procs := s.procs[p := q.(st := Running, pc := Z(DropTable, q.pc.left, q.pc.reader))], pt := Some(p))
      else s.(procs := s.procs[p := q.(st := Running)])
  }

  ghost predicate Init(s: State) {
    && s.count == 0 && s.readopen && s.writeopen && s.rref && s.wref && s.lk.None? && s.pt.None?
    && forall p :: 0 <= p < |s.procs| ==> s.procs[p] == Proc(Idle, Running, false)
  }

  // ----- invariant -----

  predicate LocksOk(s: State, p: nat)
    requires p < |s.procs|
  {
    var q := s.procs[p];
    && (HoldsLk(q.pc) <==> s.lk == Some(p))
    && (HoldsPt(q.pc) <==> s.pt == Some(p))
    && (HoldsLk(q.pc) || HoldsPt(q.pc) ==> q.st.Running?)
    && (q.st.Sleeping? ==> IsAsleep(q.pc))
    && (IsAsleep(q.pc) ==> !q.st.Running?)
  }

  /** An end in use is referred to; one being closed is not. */
  predicate EndsOk(s: State, p: nat)
    requires p < |s.procs|
  {
    var pc := s.procs[p].pc;
    && (Reading(pc) ==> s.rref) && (Writing(pc) ==> s.wref)
    && (pc.Want? && pc.c.CloseCall? ==> if pc.c.writable then !s.wref else !s.rref)
    && (pc.C? ==> if pc.writable then !s.wref else !s.rref)
  }

  predicate Waiting(q: Proc, reader: bool) {
    q.pc.Z? && q.pc.reader == reader && (q.pc.z.Mark? || (q.pc.z.Asleep? && q.st.Sleeping?))
  }

  predicate WakesReaders(pc: Pc) { pc.W? || (pc.C? && pc.cs.CWake? && pc.writable) }
  predicate WakesWriters(pc: Pc) { (pc.R? && !pc.r.RTest?) || (pc.C? && pc.cs.CWake? && !pc.writable) }

  /** The lock holder will wake the readers, or the writers, before it lets go. */
  predicate Coming(s: State, reader: bool) {
    && s.lk.Some? && s.lk.value < |s.procs|
    && if reader then WakesReaders(s.procs[s.lk.value].pc) else WakesWriters(s.procs[s.lk.value].pc)
  }

  predicate WaitOk(s: State, p: nat)
    requires p < |s.procs|
  {
    var q := s.procs[p];
    && (q.pc.W? && q.pc.w.WWakeFull? ==> s.count == PIPESIZE && s.readopen)
    && (q.pc.Z? && HoldsLk(q.pc) ==> if q.pc.reader then s.count == 0 && s.writeopen else s.count == PIPESIZE && s.readopen)
    && (Waiting(q, true) ==> (s.count == 0 && s.writeopen) || Coming(s, true))
    && (Waiting(q, false) ==> (s.count == PIPESIZE && s.readopen) || Coming(s, false))
  }

  predicate ProcOk(s: State, p: nat)
    requires p < |s.procs|
  {
    LocksOk(s, p) && EndsOk(s, p) && WaitOk(s, p)
  }

  predicate GlobalOk(s: State) {
    s.count <= PIPESIZE && (s.lk.Some? ==> s.lk.value < |s.procs|) && (s.rref ==> s.readopen) && (s.wref ==> s.writeopen)
  }

  ghost predicate Inv(s: State) { GlobalOk(s) && forall p :: 0 <= p < |s.procs| ==> ProcOk(s, p) }

  /** A killed writer finds the pipe full and gives up (pipe.c:86-89) without a wakeup. */
  predicate Abandons(s: State, p: nat)
    requires p < |s.procs|
  {
    var q := s.procs[p];
    q.pc.W? && q.pc.w.WLoop? && q.pc.left > 0 && s.count == PIPESIZE && q.killed
  }

  ghost predicate ReaderWaits(s: State) { exists i :: 0 <= i < |s.procs| && Waiting(s.procs[i], true) }

  /** The steps that strand a reader. */
  ghost predicate Loses(s: State, a: Action) { a.Advance? && a.p < |s.procs| && Abandons(s, a.p) && ReaderWaits(s) }

  predicate Steps(s: State, p: nat, i: nat) {
    && GlobalOk(s) && p < |s.procs| && i < |s.procs| && ProcOk(s, p) && ProcOk(s, i)
    && CanAdvance(s, s.procs[p].pc) && s.procs[p].st.Running?
  }

  predicate Kept(s: State, s': State, i: nat) { |s'.procs| == |s.procs| && GlobalOk(s') && i < |s'.procs| && ProcOk(s', i) }

  lemma KeepWSelf(s: State, p: nat)
    requires Steps(s, p, p) && s.procs[p].pc.W?
    ensures Kept(s, StepW(s, p, s.procs[p].pc.w, s.procs[p].pc.left), p)
  {
    hide WakeEach;
  }

  lemma KeepWOther(s: State, p: nat, i: nat)
    requires Steps(s, p, i) && s.procs[p].pc.W? && i != p
    requires Abandons(s, p) ==> !Waiting(s.procs[i], true)
    ensures Kept(s, StepW(s, p, s.procs[p].pc.w, s.procs[p].pc.left), i)
  {
    hide WakeEach;
    var s' := StepW(s, p, s.procs[p].pc.w, s.procs[p].pc.left);
    assert s'.procs[i] == s.procs[i] || s'.procs[i] == WakeOne(s.procs[i], true);
    assert LocksOk(s', i) && EndsOk(s', i) by { hide WaitOk, Coming; }
    assert WaitOk(s', i);
  }

  lemma KeepW(s: State, p: nat, i: nat)
    requires Steps(s, p, i) && s.procs[p].pc.W?
    requires Abandons(s, p) ==> !Waiting(s.procs[i], true)
    ensures Kept(s, StepW(s, p, s.procs[p].pc.w, s.procs[p].pc.left), i)
  {
    hide StepW, ProcOk, GlobalOk;
    if i == p { KeepWSelf(s, p); } else { KeepWOther(s, p, i); }
  }

  lemma KeepRSelf(s: State, p: nat)
    requires Steps(s, p, p) && s.procs[p].pc.R?
    ensures Kept(s, StepR(s, p, s.procs[p].pc.r, s.procs[p].pc.left), p)
  {
    hide WakeEach;
  }

  lemma KeepROther(s: State, p: nat, i: nat)
    requires Steps(s, p, i) && s.procs[p].pc.R? && i != p
    ensures Kept(s, StepR(s, p, s.procs[p].pc.r, s.procs[p].pc.left), i)
  {
    hide WakeEach;
    var s' := StepR(s, p, s.procs[p].pc.r, s.procs[p].pc.left);
    assert s'.procs[i] == s.procs[i] || s'.procs[i] == WakeOne(s.procs[i], false);
    assert LocksOk(s', i) && EndsOk(s', i) by { hide WaitOk, Coming; }
    assert WaitOk(s', i);
  }

  lemma KeepR(s: State, p: nat, i: nat)
    requires Steps(s, p, i) && s.procs[p].pc.R?
    ensures Kept(s, StepR(s, p, s.procs[p].pc.r, s.procs[p].pc.left), i)
  {
    hide StepR, ProcOk, GlobalOk;
    if i == p { KeepRSelf(s, p); } else { KeepROther(s, p, i); }
  }

  lemma KeepC(s: State, p: nat, i: nat)
    requires Steps(s, p, i) && s.procs[p].pc.C?
    ensures Kept(s, StepC(s, p, s.procs[p].pc.cs, s.procs[p].pc.writable), i)
  {
    hide WakeEach;
  }

  lemma KeepSleeper(s: State, p: nat)
    requires Steps(s, p, p) && s.procs[p].pc.Z?
    ensures Kept(s, StepZ(s, p, s.procs[p].pc.z, s.procs[p].pc.left, s.procs[p].pc.reader), p)
  {
    var s' := StepZ(s, p, s.procs[p].pc.z, s.procs[p].pc.left, s.procs[p].pc.reader);
    assert LocksOk(s', p) && EndsOk(s', p) by { hide WaitOk, GlobalOk; }
    assert WaitOk(s', p) by { hide EndsOk; }
  }

  lemma KeepZ(s: State, p: nat, i: nat)
    requires Steps(s, p, i) && s.procs[p].pc.Z?
    ensures Kept(s, StepZ(s, p, s.procs[p].pc.z, s.procs[p].pc.left, s.procs[p].pc.reader), i)
  {
    if i == p {
      hide StepZ;
      KeepSleeper(s, p);
    } else {
      var s' := StepZ(s, p, s.procs[p].pc.z, s.procs[p].pc.left, s.procs[p].pc.reader);
      assert s'.procs[i] == s.procs[i];
      assert LocksOk(s', i) && EndsOk(s', i);
    }
  }

  lemma KeepAdvance(s: State, p: nat, i: nat)
    requires Steps(s, p, i)
    requires Abandons(s, p) ==> !Waiting(s.procs[i], true)
    ensures Kept(s, Advanced(s, p), i)
  {
    hide StepW, StepR, StepC, StepZ;
    match s.procs[p].pc
    case Idle => 
    case Want(c) =>
    case W(w, left) => KeepW(s, p, i);
    case R(r, left) => KeepR(s, p, i);
    case C(cs, w) => KeepC(s, p, i);
    case Leave =>
    case Z(z, left, r) => KeepZ(s, p, i);
  }

  lemma KeepStart(s: State, a: Action, i: nat)
    requires GlobalOk(s) && Enabled(s, a) && i < |s.procs| && ProcOk(s, a.p) && ProcOk(s, i) && a.Start?
    ensures Kept(s, Next(s, a), i)
  {
    var s' := Next(s, a);
    if i != a.p { assert s'.procs[i] == s.procs[i]; }
  }

  lemma KeepSchedule(s: State, a: Action, i: nat)
    requires GlobalOk(s) && Enabled(s, a) && i < |s.procs| && ProcOk(s, a.p) && ProcOk(s, i) && !a.Advance? && !a.Start?
    ensures Kept(s, Next(s, a), i)
  {
    var s' := Next(s, a);
    if i != a.p { assert s'.procs[i] == s.procs[i]; }
  }

  lemma InvKept(s: State, a: Action)
    requires Inv(s) && Enabled(s, a) && !Loses(s, a)
    ensures Inv(Next(s, a))
  {
    hide ProcOk, GlobalOk, Advanced;
    var s' := Next(s, a);
    assert ProcOk(s, a.p);
    forall i: nat | i < |s.procs| ensures Kept(s, s', i) {
      assert ProcOk(s, i);
      if a.Advance? { KeepAdvance(s, a.p, i); } else if a.Start? { KeepStart(s, a, i); } else { KeepSchedule(s, a, i); }
    }
    assert Kept(s, s', a.p);
    forall i: nat | i < |s'.procs| ensures ProcOk(s', i) { assert Kept(s, s', i); }
  }

  lemma InvLost(s: State, a: Action)
    requires Inv(s) && Enabled(s, a) && Loses(s, a)
    ensures !Inv(Next(s, a))
  {
    var i :| 0 <= i < |s.procs| && Waiting(s.procs[i], true);
    assert ProcOk(s, a.p) && ProcOk(s, i);
    var s' := Next(s, a);
    assert i != a.p && s'.procs[i] == s.procs[i];
    assert !ProcOk(s', i);
  }

  /** A step keeps the invariant if and only if it is not a killed writer giving up on a
      full pipe while a reader waits. */
  lemma InvStep(s: State, a: Action)
    requires Inv(s) && Enabled(s, a)
    ensures Inv(Next(s, a)) <==> !Loses(s, a)
  {
    hide Inv, Next, Enabled, Loses;
    if Loses(s, a) { InvLost(s, a); } else { InvKept(s, a); }
  }

  // ----- runs -----

  ghost predicate Step(s: State, a: Action, s': State) { Enabled(s, a) && s' == Next(s, a) }

  ghost predicate Run(run: seq<State>, acts: seq<Action>) {
    |run| == |acts| + 1 && Init(run[0]) && forall i :: 0 <= i < |acts| ==> Step(run[i], acts[i], run[i+1])
  }

  lemma {:induction false} RunInv(run: seq<State>, acts: seq<Action>, n: nat)
    requires Run(run, acts) && n < |run|
    requires forall i :: 0 <= i < n ==> !Loses(run[i], acts[i])
    ensures Inv(run[n])
  {
    hide Next, Enabled, Loses;
    if n > 0 {
      RunInv(run, acts, n - 1);
      assert Step(run[n-1], acts[n-1], run[n]);
      InvStep(run[n-1], acts[n-1]);
    }
  }

  /** No lost wakeup: with the pipe's lock free, a process asleep in piperead (or about to
      be) has an empty pipe with an open write end, and one in pipewrite has a full pipe
      with an open read end. */
  lemma NoLostWakeup(run: seq<State>, acts: seq<Action>, n: nat, p: nat)
    requires Run(run, acts) && n < |run| && p < |run[n].procs| && run[n].lk.None?
    requires forall i :: 0 <= i < n ==> !Loses(run[i], acts[i])
    ensures Waiting(run[n].procs[p], true) ==> run[n].count == 0 && run[n].writeopen
    ensures Waiting(run[n].procs[p], false) ==> run[n].count == PIPESIZE && run[n].readopen
  {
    RunInv(run, acts, n);
    assert ProcOk(run[n], p);
  }

  // ----- the stranded reader -----

  ghost predicate Reachable(s: State) { exists run, acts :: Run(run, acts) && run[|acts|] == s }

  lemma ReachStep(s: State, a: Action) returns (s': State)
    requires Reachable(s) && Enabled(s, a)
    ensures s' == Next(s, a) && Reachable(s')
  {
    hide Enabled, Next;
    s' := Next(s, a);
    var run, acts :| Run(run, acts) && run[|acts|] == s;
    var run', acts' := run + [s'], acts + [a];
    forall i | 0 <= i < |acts'| ensures Step(run'[i], acts'[i], run'[i+1]) {
      if i < |acts| { assert Step(run[i], acts[i], run[i+1]); }
    }
    assert Run(run', acts');
  }

  const SLEEPER: Proc := Proc(Z(Asleep, 1, true), Sleeping, false)

  /** Two processes, the first asleep in piperead, the second in state w. */
  function Pair(w: Proc, count: nat, lk: Option<nat>): (s: State) {
    State(count, true, true, true, true, lk, None, [SLEEPER, w])
  }

  lemma FallAsleep()
    ensures Reachable(Pair(Proc(Idle, Running, false), 0, None))
  {
    hide Reachable;
    var idle := Proc(Idle, Running, false);
    var s := State(0, true, true, true, true, None, None, [idle, idle]);
    assert Reachable(s) by { Start0(s); }
    s := ReachStep(s, Start(0, ReadCall(1)));
    s := ReachStep(s, Advance(0));
    s := ReachStep(s, Advance(0));
    assert s == State(0, true, true, true, true, Some(0), None, [Proc(Z(GetTable, 1, true), Running, false), idle]);
    s := ReachStep(s, Advance(0));
    s := ReachStep(s, Advance(0));
    s := ReachStep(s, Advance(0));
    assert s.procs == [SLEEPER, idle];
  }

  lemma Start0(s: State)
    requires Init(s)
    ensures Reachable(s)
  {
    var run, acts: seq<Action> := [s], [];
    assert Run(run, acts) && run[|acts|] == s;
  }

  lemma {:induction false} WriteBytes(n: nat, k: nat)
    requires k <= n && k <= PIPESIZE
    requires Reachable(Pair(Proc(Idle, Running, false), 0, None))
    ensures Reachable(Pair(Proc(W(WLoop, n - k), Running, false), k, Some(1)))
  {
    hide Reachable;
    if k == 0 {
      var s := Pair(Proc(Idle, Running, false), 0, None);
      s := ReachStep(s, Start(1, WriteCall(n)));
      s := ReachStep(s, Advance(1));
      assert s == Pair(Proc(W(WLoop, n), Running, false), 0, Some(1));
    } else {
      WriteBytes(n, k - 1);
      var s := Pair(Proc(W(WLoop, n - (k - 1)), Running, false), k - 1, Some(1));
      s := ReachStep(s, Advance(1));
      assert s == Pair(Proc(W(WLoop, n - k), Running, false), k, Some(1));
    }
  }

  /** A run that ends with the pipe full, nobody inside it, and a reader asleep: a writer
      of more than PIPESIZE bytes is killed after filling the pipe. */
  lemma StrandedReader() returns (s: State)
    ensures Reachable(s) && s.lk.None? && s.pt.None? && s.count == PIPESIZE
    ensures |s.procs| == 2 && Waiting(s.procs[0], true) && s.procs[1].pc.Idle?
  {
    hide Reachable;
    FallAsleep();
    WriteBytes(PIPESIZE + 1, PIPESIZE);
    s := Pair(Proc(W(WLoop, 1), Running, false), PIPESIZE, Some(1));
    s := ReachStep(s, Kill(1));
    assert s == Pair(Proc(W(WLoop, 1), Running, true), PIPESIZE, Some(1));
    s := ReachStep(s, Advance(1));
    s := ReachStep(s, Advance(1));
  }
}
