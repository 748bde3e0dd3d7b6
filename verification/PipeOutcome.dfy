/** What pipewrite, piperead and pipeclose achieve: when a call returns, that bytes are
    neither made nor lost, and that a call nothing keeps from going on gets to its end. */
module PipeOutcome {
  import opened Basics
  import opened Paths
  import opened PipeWakeup

  /** Bytes that the call a process is in has still to write, or to read. */
  function Left(pc: Pc): (n: nat) {
    match pc
    case Want(c) => if c.CloseCall? then 0 else c.n
    case W(_, n) => n
    case R(_, n) => n
    case Z(_, n, _) => n
    case _ => 0
  }

  predicate InCall(pc: Pc) { Writing(pc) || Reading(pc) }

  lemma WakesKeepPc(s: State, reader: bool, p: nat)
    requires p < |s.procs|
    ensures |WakeAll(s, reader).procs| == |s.procs| && WakeAll(s, reader).procs[p].pc == s.procs[p].pc
    ensures WakeAll(s, reader).count == s.count
  {
  }

  lemma OtherW(s: State, q: nat, p: nat)
    requires q < |s.procs| && p < |s.procs| && p != q && s.procs[q].pc.W?
    ensures |Advanced(s, q).procs| == |s.procs| && Advanced(s, q).procs[p].pc == s.procs[p].pc
  {
    WakesKeepPc(s, true, p);
    hide WakeAll;
  }

  lemma OtherR(s: State, q: nat, p: nat)
    requires q < |s.procs| && p < |s.procs| && p != q && s.procs[q].pc.R?
    ensures |Advanced(s, q).procs| == |s.procs| && Advanced(s, q).procs[p].pc == s.procs[p].pc
  {
    WakesKeepPc(s, false, p);
    hide WakeAll;
  }

  lemma OtherZ(s: State, q: nat, p: nat, z: ZStep, n: nat, r: bool)
    requires q < |s.procs| && p < |s.procs| && p != q
    ensures |StepZ(s, q, z, n, r).procs| == |s.procs| && StepZ(s, q, z, n, r).procs[p] == s.procs[p]
  {
  }

  lemma OtherSleep(s: State, q: nat, p: nat)
    requires q < |s.procs| && p < |s.procs| && p != q && s.procs[q].pc.Z?
    ensures |Advanced(s, q).procs| == |s.procs| && Advanced(s, q).procs[p].pc == s.procs[p].pc
  {
    var pc := s.procs[q].pc;
    OtherZ(s, q, p, pc.z, pc.left, pc.reader);
    hide StepZ, WakeAll, StepW, StepR, StepC, Enter;
  }

  lemma OtherC(s: State, q: nat, p: nat, cs: CStep, w: bool)
    requires q < |s.procs| && p < |s.procs| && p != q
    ensures |StepC(s, q, cs, w).procs| == |s.procs| && StepC(s, q, cs, w).procs[p].pc == s.procs[p].pc
  {
    WakesKeepPc(s, w, p);
    hide WakeAll;
  }

  lemma OtherRest(s: State, q: nat, p: nat)
    requires q < |s.procs| && p < |s.procs| && p != q && !s.procs[q].pc.W? && !s.procs[q].pc.R? && !s.procs[q].pc.Z?
    ensures |Advanced(s, q).procs| == |s.procs| && Advanced(s, q).procs[p].pc == s.procs[p].pc
  {
    hide WakeAll, StepW, StepR, StepZ, StepC;
    if s.procs[q].pc.C? { OtherC(s, q, p, s.procs[q].pc.cs, s.procs[q].pc.writable); }
  }

  /** No other process's step moves p in its call. */
  lemma OtherStep(s: State, a: Action, p: nat)
    requires Enabled(s, a) && p < |s.procs| && a.p != p
    ensures |Next(s, a).procs| == |s.procs| && Next(s, a).procs[p].pc == s.procs[p].pc
  {
    hide Advanced, CanAdvance;
    if a.Advance? {
      if s.procs[a.p].pc.W? { OtherW(s, a.p, p); }
      else if s.procs[a.p].pc.R? { OtherR(s, a.p, p); }
      else if s.procs[a.p].pc.Z? { OtherSleep(s, a.p, p); }
      else { OtherRest(s, a.p, p); }
    }
  }

  /** What p's own step does: how it moves in its call, and the bytes it moves. */
  predicate Moved(pc: Pc, pc': Pc, n: nat, n': nat, killed: bool, readopen: bool, writeopen: bool) {
    if Writing(pc) then
      if Writing(pc') then
        && n' == n + Left(pc) - Left(pc') && Left(pc) - 1 <= Left(pc') <= Left(pc)
        && (pc'.W? && pc'.w.WWakeEnd? && !(pc.W? && pc.w.WWakeEnd?) ==> Left(pc') == 0)
      else
        && !Reading(pc') && n' == n
        && ((pc.W? && pc.w.WWakeEnd?) || (Left(pc) > 0 && n == PIPESIZE && (!readopen || killed)))
    else if Reading(pc) then
      if Reading(pc') then
        if pc' == R(RWake, 0) && pc.R? && pc.r.RCopy? then n' == n && (Left(pc) == 0 || n == 0)
        else n' == n + Left(pc') - Left(pc) && Left(pc) - 1 <= Left(pc') <= Left(pc)
      else
        !Writing(pc') && n' == n && ((pc.R? && pc.r.RWake?) || (n == 0 && writeopen && killed))
    else n' == n
  }

  ghost predicate Moves(s: State, s': State, p: nat) {
    && p < |s.procs| && |s'.procs| == |s.procs|
    && Moved(s.procs[p].pc, s'.procs[p].pc, s.count, s'.count, s.procs[p].killed, s.readopen, s.writeopen)
  }

  lemma StepWIs(s: State, p: nat, w: WStep, n: nat)
    requires p < |s.procs|
    ensures var s' := StepW(s, p, w, n);
      && |s'.procs| == |s.procs|
      && s'.count == (if w.WLoop? && n > 0 && s.count != PIPESIZE then s.count + 1 else s.count)
      && s'.procs[p].pc ==
           match w
           case WLoop =>
             if n == 0 then W(WWakeEnd, 0)
             else if s.count < PIPESIZE || s.count > PIPESIZE then W(WLoop, n - 1)
             else if s.readopen && !s.procs[p].killed then W(WWakeFull, n) else Leave
           case WWakeFull => Z(GetTable, n, false)
           case WWakeEnd => Leave
  {
    WakesKeepPc(s, true, p);
    hide WakeAll;
  }

  lemma MovesW(s: State, p: nat)
    requires p < |s.procs| && s.procs[p].pc.W?
    ensures Moves(s, Advanced(s, p), p)
  {
    StepWIs(s, p, s.procs[p].pc.w, s.procs[p].pc.left);
    hide WakeAll, StepW, StepR, StepZ, StepC, Enter;
  }

  lemma StepRIs(s: State, p: nat, r: RStep, n: nat)
    requires p < |s.procs|
    ensures var s' := StepR(s, p, r, n);
      && |s'.procs| == |s.procs|
      && s'.count == (if r.RCopy? && n > 0 && s.count > 0 then s.count - 1 else s.count)
      && s'.procs[p].pc ==
           match r
           case RTest =>
             if s.count > 0 || !s.writeopen then R(RCopy, n) else if s.procs[p].killed then Leave else Z(GetTable, n, true)
           case RCopy => if n > 0 && s.count > 0 then R(RCopy, n - 1) else R(RWake, 0)
           case RWake => Leave
  {
    WakesKeepPc(s, false, p);
    hide WakeAll;
  }

  lemma MovesR(s: State, p: nat)
    requires p < |s.procs| && s.procs[p].pc.R?
    ensures Moves(s, Advanced(s, p), p)
  {
    StepRIs(s, p, s.procs[p].pc.r, s.procs[p].pc.left);
    hide WakeAll, StepW, StepR, StepZ, StepC, Enter;
  }

  /** The steps of sleep keep the call and its bytes. */
  lemma StepZIs(s: State, p: nat, z: ZStep, n: nat, r: bool)
    requires p < |s.procs|
    ensures var s' := StepZ(s, p, z, n, r);
      && |s'.procs| == |s.procs| && s'.count == s.count
      && (s.procs[p].pc == Z(z, n, r) ==>
            if z.GetPipe? then s'.procs[p].pc == (if r then R(RTest, n) else W(WLoop, n))
            else s'.procs[p].pc.Z? && s'.procs[p].pc.left == n && s'.procs[p].pc.reader == r)
  {
  }

  lemma MovesZ(s: State, p: nat)
    requires p < |s.procs| && s.procs[p].pc.Z?
    ensures Moves(s, Advanced(s, p), p)
  {
    var pc := s.procs[p].pc;
    StepZIs(s, p, pc.z, pc.left, pc.reader);
    hide StepZ, WakeAll, StepW, StepR, StepC, Enter;
  }

  lemma StepCIs(s: State, p: nat, cs: CStep, w: bool)
    requires p < |s.procs|
    ensures var s' := StepC(s, p, cs, w);
      |s'.procs| == |s.procs| && s'.count == s.count && s'.procs[p].pc == if cs.CSet? then C(CWake, w) else Leave
  {
    WakesKeepPc(s, w, p);
    hide WakeAll;
  }

  lemma MovesRest(s: State, p: nat)
    requires p < |s.procs| && !s.procs[p].pc.W? && !s.procs[p].pc.R? && !s.procs[p].pc.Z?
    ensures Moves(s, Advanced(s, p), p)
  {
    hide WakeAll, StepW, StepR, StepZ, StepC;
    if s.procs[p].pc.C? { StepCIs(s, p, s.procs[p].pc.cs, s.procs[p].pc.writable); }
  }

  /** Every step of a process moves it in its call, and the bytes, as Moves says: pipewrite
      returns only when it has put all its bytes in the pipe, or when the pipe is full and its
      read end closed or the caller killed; piperead returns only when it has its bytes or the
      pipe ran empty, or when it is killed on an empty pipe whose write end is open. */
  lemma OwnStep(s: State, a: Action)
    requires Enabled(s, a)
    ensures Moves(s, Next(s, a), a.p)
  {
    hide Advanced, CanAdvance, Moves;
    var p := a.p;
    if a.Advance? {
      if s.procs[p].pc.W? { MovesW(s, p); } else if s.procs[p].pc.R? { MovesR(s, p); }
      else if s.procs[p].pc.Z? { MovesZ(s, p); } else { MovesRest(s, p); }
    } else {
      MovesQuiet(s, a);
    }
  }

  lemma MovesQuiet(s: State, a: Action)
    requires Enabled(s, a) && !a.Advance?
    ensures Moves(s, Next(s, a), a.p)
  {
    hide Advanced, CanAdvance, NoReader, NoWriter;
    var q, q' := s.procs[a.p], Next(s, a).procs[a.p];
    assert Next(s, a).count == s.count;
    assert !a.Start? ==> InCall(q'.pc) == InCall(q.pc) && Left(q'.pc) == Left(q.pc);
  }

  // ----- the calls get to their end -----

  ghost predicate Goes(s: State, s': State) { exists a :: Step(s, a, s') }

  lemma Go(s: State, a: Action, s': State)
    requires Enabled(s, a) && Leads(Goes, Next(s, a), s')
    ensures Leads(Goes, s, s')
  {
    hide Enabled, Next;
    assert Step(s, a, Next(s, a));
    LeadsOn(Goes, s, Next(s, a), s');
  }

  /** The state after the call of p has returned, having woken the readers or the writers. */
  function Returned(s: State, p: nat, reader: bool, count: nat): (s': State)
    requires p < |s.procs|
  {
    s.(count := count, lk := None, procs := WakeEach(s.procs, reader)[p := s.procs[p].(pc := Idle)])
  }

  lemma WakeOnes(s: State, reader: bool, p: nat, pc: Pc)
    requires p < |s.procs| && !IsAsleep(pc) && !IsAsleep(s.procs[p].pc)
    ensures WakeEach(s.procs[p := s.procs[p].(pc := pc)], reader) == WakeEach(s.procs, reader)[p := s.procs[p].(pc := pc)]
  {
  }

  lemma SameReturn(s: State, p: nat, reader: bool, pc: Pc, n: nat, count: nat)
    requires p < |s.procs| && !IsAsleep(pc) && !IsAsleep(s.procs[p].pc)
    ensures Returned(Put(s, p, pc).(count := n), p, reader, count) == Returned(s, p, reader, count)
  {
    WakeOnes(s, reader, p, pc);
    hide WakeEach;
  }

  /** The last steps of each call: wake the other side, release the lock. */
  lemma LastSteps(s: State, p: nat, reader: bool)
    requires p < |s.procs| && s.procs[p].st.Running? && s.pt.None?
    requires s.procs[p].pc == (if reader then W(WWakeEnd, 0) else R(RWake, 0)) || s.procs[p].pc == C(CWake, reader)
    ensures Leads(Goes, s, Returned(s, p, reader, s.count))
  {
    hide Leads, WakeEach;
    var s' := Returned(s, p, reader, s.count);
    var t := Put(WakeAll(s, reader), p, Leave);
    assert Next(s, Advance(p)) == t;
    LeadsSelf(Goes, s');
    assert Next(t, Advance(p)) == s';
    Go(t, Advance(p), s');
    Go(s, Advance(p), s');
  }

  lemma LoopStep(s: State, p: nat, n: nat)
    requires p < |s.procs| && s.procs[p].pc == W(WLoop, n) && s.procs[p].st.Running? && (n == 0 || s.count < PIPESIZE)
    ensures Enabled(s, Advance(p))
    ensures Next(s, Advance(p)) ==
      if n == 0 then Put(s, p, W(WWakeEnd, 0)) else Put(s, p, W(WLoop, n - 1)).(count := s.count + 1)
  {
  }

  lemma {:induction false} WriteLoops(s: State, p: nat, n: nat)
    requires p < |s.procs| && s.procs[p].pc == W(WLoop, n) && s.procs[p].st.Running?
    requires s.count + n <= PIPESIZE && s.lk == Some(p) && s.pt.None?
    ensures Leads(Goes, s, Returned(s, p, true, s.count + n))
    decreases n
  {
    LoopStep(s, p, n);
    hide Leads, Enabled, Next, Returned;
    if n == 0 {
      LastSteps(Put(s, p, W(WWakeEnd, 0)), p, true);
      SameReturn(s, p, true, W(WWakeEnd, 0), s.count, s.count);
    } else {
      WriteLoops(Put(s, p, W(WLoop, n - 1)).(count := s.count + 1), p, n - 1);
      SameReturn(s, p, true, W(WLoop, n - 1), s.count + 1, s.count + n);
    }
    Go(s, Advance(p), Returned(s, p, true, s.count + n));
  }

  /** pipewrite of bytes for which there is room can return, with all of them in the pipe and
      every sleeping reader runnable. */
  lemma WriteEnds(s: State, p: nat, n: nat)
    requires p < |s.procs| && s.procs[p].pc.Idle? && s.procs[p].st.Running? && s.wref && s.lk.None? && s.pt.None?
    requires s.count + n <= PIPESIZE
    ensures Leads(Goes, s, Returned(s, p, true, s.count + n))
  {
    hide Leads, WakeEach;
    var s' := Returned(s, p, true, s.count + n);
    var s1 := Put(s, p, Want(WriteCall(n)));
    var s2 := Put(s, p, W(WLoop, n)).(lk := Some(p));
    WriteLoops(s2, p, n);
    WakeOnes(s, true, p, W(WLoop, n));
    assert Returned(s2, p, true, s.count + n) == s';
    assert Next(s1, Advance(p)) == s2;
    Go(s1, Advance(p), s');
    Go(s, Start(p, WriteCall(n)), s');
  }

  function Taken(count: nat, n: nat): (r: nat) { if n < count then count - n else 0 }

  lemma CopyStep(s: State, p: nat, n: nat)
    requires p < |s.procs| && s.procs[p].pc == R(RCopy, n) && s.procs[p].st.Running?
    ensures Enabled(s, Advance(p))
    ensures Next(s, Advance(p)) ==
      if n == 0 || s.count == 0 then Put(s, p, R(RWake, 0)) else Put(s, p, R(RCopy, n - 1)).(count := s.count - 1)
  {
  }

  lemma {:induction false} ReadCopies(s: State, p: nat, n: nat)
    requires p < |s.procs| && s.procs[p].pc == R(RCopy, n) && s.procs[p].st.Running? && s.lk == Some(p) && s.pt.None?
    ensures Leads(Goes, s, Returned(s, p, false, Taken(s.count, n)))
    decreases n
  {
    CopyStep(s, p, n);
    hide Leads, Enabled, Next, Returned;
    var count := Taken(s.count, n);
    if n == 0 || s.count == 0 {
      LastSteps(Put(s, p, R(RWake, 0)), p, false);
      SameReturn(s, p, false, R(RWake, 0), s.count, count);
    } else {
      ReadCopies(Put(s, p, R(RCopy, n - 1)).(count := s.count - 1), p, n - 1);
      SameReturn(s, p, false, R(RCopy, n - 1), s.count - 1, count);
    }
    Go(s, Advance(p), Returned(s, p, false, count));
  }

  /** piperead of a pipe that holds bytes, or whose write end is closed, can return, with as
      many bytes as were asked for and are there, and every sleeping writer runnable. */
  lemma ReadEnds(s: State, p: nat, n: nat)
    requires p < |s.procs| && s.procs[p].pc.Idle? && s.procs[p].st.Running? && s.rref && s.lk.None? && s.pt.None?
    requires s.count > 0 || !s.writeopen
    ensures Leads(Goes, s, Returned(s, p, false, Taken(s.count, n)))
  {
    hide Leads, WakeEach;
    var s' := Returned(s, p, false, Taken(s.count, n));
    var s1 := Put(s, p, Want(ReadCall(n)));
    var s2 := Put(s, p, R(RTest, n)).(lk := Some(p));
    var s3 := Put(s, p, R(RCopy, n)).(lk := Some(p));
    ReadCopies(s3, p, n);
    WakeOnes(s, false, p, R(RCopy, n));
    assert Returned(s3, p, false, Taken(s.count, n)) == s';
    assert Next(s2, Advance(p)) == s3;
    Go(s2, Advance(p), s');
    assert Next(s1, Advance(p)) == s2;
    Go(s1, Advance(p), s');
    Go(s, Start(p, ReadCall(n)), s');
  }

  /** pipeclose can return: the end is closed and the other end's sleepers are runnable. */
  lemma CloseEnds(s: State, p: nat, w: bool)
    requires p < |s.procs| && s.procs[p].pc.Idle? && s.procs[p].st.Running? && s.lk.None? && s.pt.None?
    requires if w then s.wref && NoWriter(s) else s.rref && NoReader(s)
    ensures var e := if w then s.(wref := false, writeopen := false) else s.(rref := false, readopen := false);
      Leads(Goes, s, Returned(e, p, w, s.count))
  {
    hide Leads, WakeEach, NoReader, NoWriter;
    var e := if w then s.(wref := false, writeopen := false) else s.(rref := false, readopen := false);
    var s' := Returned(e, p, w, s.count);
    var s1 := Next(s, Start(p, CloseCall(w)));
    var s2 := Put(s1, p, C(CSet, w)).(lk := Some(p));
    var s3 := Put(e, p, C(CWake, w)).(lk := Some(p));
    LastSteps(s3, p, w);
    WakeOnes(e, w, p, C(CWake, w));
    assert Returned(s3, p, w, s.count) == s';
    assert Next(s2, Advance(p)) == s3;
    Go(s2, Advance(p), s');
    assert Next(s1, Advance(p)) == s2;
    Go(s1, Advance(p), s');
    Go(s, Start(p, CloseCall(w)), s');
  }

  /** sleep gets to sleep, with both locks released. */
  lemma FallsAsleep(s: State, p: nat, n: nat, reader: bool)
    requires p < |s.procs| && s.procs[p].pc == Z(GetTable, n, reader) && s.procs[p].st.Running? && s.pt.None?
    ensures Leads(Goes, s, s.(lk := None, procs := s.procs[p := s.procs[p].(pc := Z(Asleep, n, reader), st := Sleeping)]))
  {
    hide Leads;
    var s' := s.(lk := None, procs := s.procs[p := s.procs[p].(pc := Z(Asleep, n, reader), st := Sleeping)]);
    var s1 := Put(s, p, Z(DropPipe, n, reader)).(pt := Some(p));
    var s2 := Put(s, p, Z(Mark, n, reader)).(pt := Some(p), lk := None);
    LeadsSelf(Goes, s');
    assert Next(s2, Advance(p)) == s';
    Go(s2, Advance(p), s');
    assert Next(s1, Advance(p)) == s2;
    Go(s1, Advance(p), s');
    assert Next(s, Advance(p)) == s1;
    Go(s, Advance(p), s');
  }

  /** piperead of an empty pipe whose write end is open can wait for bytes. */
  lemma ReadSleeps(s: State, p: nat, n: nat)
    requires p < |s.procs| && s.procs[p] == Proc(Idle, Running, false) && s.rref && s.lk.None? && s.pt.None?
    requires s.count == 0 && s.writeopen
    ensures Leads(Goes, s, s.(procs := s.procs[p := Proc(Z(Asleep, n, true), Sleeping, false)]))
  {
    hide Leads;
    var s' := s.(procs := s.procs[p := Proc(Z(Asleep, n, true), Sleeping, false)]);
    var s1 := Put(s, p, Want(ReadCall(n)));
    var s2 := Put(s, p, R(RTest, n)).(lk := Some(p));
    var s3 := Put(s, p, Z(GetTable, n, true)).(lk := Some(p));
    FallsAsleep(s3, p, n, true);
    assert s3.(lk := None, procs := s3.procs[p := s3.procs[p].(pc := Z(Asleep, n, true), st := Sleeping)]) == s';
    assert Next(s2, Advance(p)) == s3;
    Go(s2, Advance(p), s');
    assert Next(s1, Advance(p)) == s2;
    Go(s1, Advance(p), s');
    Go(s, Start(p, ReadCall(n)), s');
  }

  /** pipewrite to a full pipe whose read end is open can wait for room, and wakes the
      readers first. */
  lemma WriteSleeps(s: State, p: nat, n: nat)
    requires p < |s.procs| && s.procs[p] == Proc(Idle, Running, false) && s.wref && s.lk.None? && s.pt.None?
    requires n > 0 && s.count == PIPESIZE && s.readopen
    ensures Leads(Goes, s, s.(procs := WakeEach(s.procs, true)[p := Proc(Z(Asleep, n, false), Sleeping, false)]))
  {
    hide Leads, WakeEach;
    var s' := s.(procs := WakeEach(s.procs, true)[p := Proc(Z(Asleep, n, false), Sleeping, false)]);
    var s1 := Put(s, p, Want(WriteCall(n)));
    var s2 := Put(s, p, W(WLoop, n)).(lk := Some(p));
    var s3 := Put(s, p, W(WWakeFull, n)).(lk := Some(p));
    var s4 := Put(WakeAll(s3, true), p, Z(GetTable, n, false));
    WakeOnes(s, true, p, W(WWakeFull, n));
    FallsAsleep(s4, p, n, false);
    assert s4.(lk := None, procs := s4.procs[p := s4.procs[p].(pc := Z(Asleep, n, false), st := Sleeping)]) == s';
    assert Next(s3, Advance(p)) == s4;
    Go(s3, Advance(p), s');
    assert Next(s2, Advance(p)) == s3;
    Go(s2, Advance(p), s');
    assert Next(s1, Advance(p)) == s2;
    Go(s1, Advance(p), s');
    Go(s, Start(p, WriteCall(n)), s');
  }

  lemma Relocks(s: State, p: nat, n: nat, reader: bool)
    requires p < |s.procs| && s.procs[p].pc == Z(DropTable, n, reader) && s.procs[p].st.Running? && s.lk.None?
    ensures Leads(Goes, s, Put(s, p, if reader then R(RTest, n) else W(WLoop, n)).(lk := Some(p), pt := None))
  {
    hide Leads;
    var s' := Put(s, p, if reader then R(RTest, n) else W(WLoop, n)).(lk := Some(p), pt := None);
    var s1 := Put(s, p, Z(GetPipe, n, reader)).(pt := None);
    LeadsSelf(Goes, s');
    assert Next(s1, Advance(p)) == s';
    Go(s1, Advance(p), s');
    assert Next(s, Advance(p)) == s1;
    Go(s, Advance(p), s');
  }

  /** A process that was woken can go on with its call, at the test it slept after. */
  lemma WokenRetries(s: State, p: nat, n: nat, reader: bool)
    requires p < |s.procs| && s.procs[p].pc == Z(Asleep, n, reader) && s.procs[p].st.Runnable? && s.lk.None? && s.pt.None?
    ensures var pc := if reader then R(RTest, n) else W(WLoop, n);
      Leads(Goes, s, s.(lk := Some(p), procs := s.procs[p := s.procs[p].(pc := pc, st := Running)]))
  {
    hide Leads, Advanced;
    var q := s.procs[p].(st := Running);
    var s' := s.(lk := Some(p), procs := s.procs[p := q.(pc := if reader then R(RTest, n) else W(WLoop, n))]);
    var s1 := s.(pt := Some(p), procs := s.procs[p := q.(pc := Z(DropTable, n, reader))]);
    Relocks(s1, p, n, reader);
    assert Put(s1, p, if reader then R(RTest, n) else W(WLoop, n)).(lk := Some(p), pt := None) == s';
    assert Next(s, Dispatch(p)) == s1;
    Go(s, Dispatch(p), s');
  }
}
