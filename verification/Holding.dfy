/**
 A lock that its holder does not release: what a call that returns with the lock held, like
 get_a_page without a frame, does to every other thread.
 */
module Holding {
  import opened Scheduler
  import opened Machine
  import opened Invariants
  import opened Runs

  /** Thread t holds lock l, and is not in lock_release of it. */
  predicate Holds(s: State, t: Tid, l: Lid) {
    t in s.ctl && HoldsBy(s.ctl[t], l)
  }

  predicate HoldsBy(c: Ctl, l: Lid) { c.Depth(l) > 0 && !Releasing(c.pc, l) }

  /** The statements of lock_release on l. */
  predicate Releasing(pc: Pc, l: Lid) { pc in {RelAssert(l), RelTest(l), RelDec(l), RelLast(l), RelClear(l), RelZero(l), RelUp(l)} }

  /** In a run from s, thread t never calls lock_release on l. */
  ghost predicate NeverReleases(s: State, acts: seq<Action>, t: Tid, l: Lid)
    requires ValidRun(s, acts)
    decreases |acts|
  {
    acts == [] || (!(s.Cur() == t && acts[0] == CallRelease(l)) && NeverReleases(Step(s, acts[0]), acts[1..], t, l))
  }

  /** A statement of the current thread keeps what it holds. */
  lemma StatementKeepsHold(t: Tid, c: Ctl, lk: Lock, l: Lid)
    requires HasLock(c.pc) && !c.pc.AcqDown? && !c.pc.RelUp? && HoldsBy(c, l)
    ensures Statement(t, c, lk).Next? ==> HoldsBy(Statement(t, c, lk).c, l)
  {
  }

  lemma DownKeepsHold(s: State, k: Lid, saved: bool, l: Lid)
    requires Typed(s) && k in s.locks && Holds(s, s.Cur(), l)
    ensures Holds(DownLoop(s, k, saved), s.Cur(), l)
  {
    hide BlockCurrent;
  }

  lemma ExecKeepsHold(s: State, t: Tid, l: Lid)
    requires Typed(s) && s.fault == NoFault && HasLock(s.ctl[s.Cur()].pc) && Holds(s, t, l)
    ensures Holds(ExecStep(s), t, l)
  {
    hide Statement, DownLoop, SemaUp, HoldsBy;
    ExecMoves(s);
    var c := s.ctl[s.Cur()];
    if s.Cur() == t {
      if c.pc.AcqDown? { DownKeepsHold(s.(intr := false), c.pc.l, s.intr, l); }
      else if c.pc.RelUp? { UpKeepsHold(s, c.pc.l, l); }
      else { StatementKeepsHold(t, c, s.locks[c.pc.l], l); }
    }
  }

  lemma UpKeepsHold(s: State, k: Lid, l: Lid)
    requires Typed(s) && s.fault == NoFault && k in s.locks && Holds(s, s.Cur(), l) && s.ctl[s.Cur()].pc == RelUp(k)
    ensures Holds(SemaUp(s, k), s.Cur(), l)
  {
    hide Unblock;
    SemaUpMoves(s, k);
  }

  lemma ResumeKeepsHold(s: State, t: Tid, l: Lid)
    requires Typed(s) && Holds(s, t, l)
    ensures Holds(ResumeStep(s), t, l)
  {
    hide DownLoop;
    ResumeMoves(s);
    var c := s.ctl[s.Cur()];
    if s.Cur() == t && c.frame.InSema? { DownKeepsHold(s, c.pc.l, c.frame.saved, l); }
  }

  lemma LeaveKeepsControl(s: State, f: Frame, o: Outcome, t: Tid)
    requires s.Cur() in s.ctl && t in s.ctl
    ensures t in Leave(s, f, o).ctl && Leave(s, f, o).ctl[t].pc == s.ctl[t].pc && Leave(s, f, o).ctl[t].depth == s.ctl[t].depth
  {
  }

  lemma StepKeepsHold(s: State, a: Action, t: Tid, l: Lid)
    requires Typed(s) && Enabled(s, a) && Holds(s, t, l) && !(s.Cur() == t && a == CallRelease(l))
    ensures Holds(Step(s, a), t, l)
  {
    hide ExecStep, ResumeStep, BlockCurrent, TimerTick, Unblock, StartThread, Leave;
    match a
    case Exec => ExecKeepsHold(s, t, l);
    case Resume => ResumeKeepsHold(s, t, l);
    case Timer => LeaveKeepsControl(s.(intr := false), Preempted, TimerTick(s.sched), t);
    case Block(stat) => LeaveKeepsControl(s.(intr := false), InBlock(s.intr), BlockCurrent(s.sched, stat), t);
    case _ =>
  }

  // ----- the others

  /** Thread u waits in lock_acquire of l: it has not got through sema_down. */
  predicate InDown(s: State, u: Tid, l: Lid) { u in s.ctl && s.ctl[u].pc == AcqDown(l) }

  lemma DownStaysDown(s: State, l: Lid, saved: bool)
    requires Typed(s) && l in s.locks && s.ctl[s.Cur()].pc == AcqDown(l) && s.locks[l].value == 0
    ensures InDown(DownLoop(s, l, saved), s.Cur(), l)
  {
    hide BlockCurrent;
  }

  lemma ExecKeepsDown(s: State, u: Tid, l: Lid)
    requires Typed(s) && HasLock(s.ctl[s.Cur()].pc) && InDown(s, u, l) && l in s.locks && s.locks[l].value == 0
    ensures InDown(ExecStep(s), u, l)
  {
    hide Statement, DownLoop, SemaUp;
    ExecMoves(s);
    if s.Cur() == u { DownStaysDown(s.(intr := false), l, s.intr); }
  }

  lemma ResumeKeepsDown(s: State, u: Tid, l: Lid)
    requires Typed(s) && InDown(s, u, l) && l in s.locks && s.locks[l].value == 0
    ensures InDown(ResumeStep(s), u, l)
  {
    hide DownLoop;
    ResumeMoves(s);
    if s.Cur() == u && s.ctl[u].frame.InSema? { DownStaysDown(s, l, s.ctl[u].frame.saved); }
  }

  lemma StepKeepsDown(s: State, a: Action, u: Tid, l: Lid)
    requires Typed(s) && Enabled(s, a) && InDown(s, u, l) && l in s.locks && s.locks[l].value == 0
    ensures InDown(Step(s, a), u, l)
  {
    hide ExecStep, ResumeStep, BlockCurrent, TimerTick, Unblock, StartThread, Leave;
    match a
    case Exec => ExecKeepsDown(s, u, l);
    case Resume => ResumeKeepsDown(s, u, l);
    case Timer => LeaveKeepsControl(s.(intr := false), Preempted, TimerTick(s.sched), u);
    case Block(stat) => LeaveKeepsControl(s.(intr := false), InBlock(s.intr), BlockCurrent(s.sched, stat), u);
    case _ =>
  }

  /** While somebody holds the lock, its semaphore is down. */
  lemma HeldIsDown(s: State, t: Tid, l: Lid)
    requires Safe(s) && Holds(s, t, l) && l in s.locks
    ensures s.locks[l].value == 0 && forall u :: Owns(s, u, l) ==> u == t
  {
    hide SchedInv, CtlInv, WaitersOk, WakeOk;
    assert LockInv(s, l) && Owns(s, t, l);
  }

  lemma LocksStay(s: State, a: Action, l: Lid)
    requires Typed(s) && Enabled(s, a) && l in s.locks && Step(s, a).fault == NoFault
    ensures l in Step(s, a).locks
  {
    WaitersAreFifo(s, a, l);
  }

  /**
   In every run in which the holder of a lock does not release it, no other thread gets it: a thread that
   waits for it in lock_acquire is still there at the end.
   */
  lemma {:induction false} HolderShutsOut(s: State, acts: seq<Action>, t: Tid, u: Tid, l: Lid)
    requires Inv(s) && s.fault == NoFault && l in s.locks && Holds(s, t, l) && u != t
    requires ValidRun(s, acts) && NeverReleases(s, acts, t, l) && StateAt(s, acts, |acts|).fault == NoFault
    ensures var s' := StateAt(s, acts, |acts|);
            Holds(s', t, l) && l in s'.locks && !Owns(s', u, l) && (InDown(s, u, l) ==> InDown(s', u, l))
    decreases |acts|
  {
    hide Safe, Step, Holds, InDown, Owns, Enabled, Disciplined, Typed;
    HeldIsDown(s, t, l);
    if acts != [] {
      StepKeepsInv(s, acts[0]);
      StepKeepsHold(s, acts[0], t, l);
      if InDown(s, u, l) { StepKeepsDown(s, acts[0], u, l); }
      FaultStays(Step(s, acts[0]), acts[1..], |acts| - 1);
      LocksStay(s, acts[0], l);
      HolderShutsOut(Step(s, acts[0]), acts[1..], t, u, l);
    }
  }
}
