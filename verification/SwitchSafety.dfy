/** The steps that involve the scheduler: timer, blocking, waking, starting and coming back. */
module SwitchSafety {
  import opened Scheduler
  import opened Machine
  import opened Invariants

  // ----- how schedule() moves statuses

  /** From sc to sc' the current thread got status `stat`, then the thread sc'.cur was made to run. */
  ghost predicate Moved(sc: Sched, sc': Sched, stat: Status) {
    && sc.cur in sc.tcb && sc'.cur in sc.tcb
    && sc'.tcb.Keys == sc.tcb.Keys
    && (sc'.cur == sc.cur ==> stat == Ready)
    && (sc'.cur != sc.cur ==> sc.tcb[sc'.cur].status == Ready)
    && (forall t :: t in sc.tcb ==>
          sc'.tcb[t].status == (if t == sc'.cur then Running else if t == sc.cur then stat else sc.tcb[t].status))
  }

  lemma BlockMoves(sc: Sched, stat: Status)
    requires SchedInv(sc) && stat in {Blocked, Waiting, Hanging} && BlockCurrent(sc, stat).Go?
    ensures Moved(sc, BlockCurrent(sc, stat).s, stat)
  {
    assert sc.ready[0] in sc.ready;
  }

  lemma YieldMoves(sc: Sched)
    requires SchedInv(sc) && sc.tcb[sc.cur].ticks == 0 && TimerTick(sc).Go?
    ensures Moved(sc, TimerTick(sc).s, Ready)
  {
    var q := sc.ready + [sc.cur];
    assert TimerTick(sc).s.cur == q[0];
    if sc.ready != [] { assert sc.ready[0] in sc.ready; }
  }

  // ----- control states after a switch

  /** s' is s after the current thread left with frame f and status stat; the locks may have changed. */
  ghost predicate Left(s: State, s': State, f: Frame, stat: Status) {
    && s.Cur() in s.ctl
    && Moved(s.sched, s'.sched, stat)
    && s'.locks.Keys == s.locks.Keys
    && s'.ctl == s.ctl[s.Cur() := s.ctl[s.Cur()].(frame := f)]
    && !s'.intr
  }

  /** The frame a thread leaves fits its own code and its new status. */
  predicate FrameFits(c: Ctl, f: Frame, stat: Status) {
    match f
    case Active => false
    case Preempted => c.own && stat == Ready
    case Fresh => false
    case InSema(saved) => saved == c.own && c.pc.AcqDown? && stat == Blocked
    case InBlock(saved) => saved == c.own && c.pc == Client
  }

  lemma LeaveKeepsCtl(s: State, s': State, f: Frame, stat: Status)
    requires CtlInv(s) && SchedInv(s.sched) && Left(s, s', f, stat) && FrameFits(s.ctl[s.Cur()], f, stat)
    ensures CtlInv(s')
  {
    forall t | t in s'.ctl ensures CtlOk(s', t) {
      assert CtlOk(s, t);
      assert CtlOk(s, s.Cur());
    }
  }

  /** A thread that leaves in a way that does not concern semaphores keeps what is said about the locks. */
  lemma LeaveKeepsStanding(s: State, s': State, f: Frame, stat: Status)
    requires CtlInv(s) && Left(s, s', f, stat) && !f.InSema? && !s.ctl[s.Cur()].frame.InSema?
    ensures forall t :: t in s.ctl ==> SameStanding(s, s', t)
  {
    forall t | t in s.ctl ensures SameStanding(s, s', t) { assert CtlOk(s, t); }
  }

  lemma CurrentRuns(sc: Sched)
    requires SchedInv(sc)
    ensures sc.cur in sc.tcb && sc.tcb[sc.cur].status == Running
  {
  }

  // ----- the timer

  lemma PreemptKeepsSafe(s: State)
    requires Safe(s) && Typed(s) && s.fault == NoFault && s.intr && s.sched.tcb[s.Cur()].ticks == 0
    ensures TimerStep(s).fault == NoFault && Safe(TimerStep(s))
  {
    hide SchedInv, LockInv, Moved;
    var s' := TimerStep(s);
    TimerTickKeepsInv(s.sched);
    YieldMoves(s.sched);
    assert CtlOk(s, s.Cur());
    assert Left(s, s', Preempted, Ready);
    LeaveKeepsCtl(s, s', Preempted, Ready);
    LeaveKeepsStanding(s, s', Preempted, Ready);
    StandingKeepsSafe(s, s');
  }

  /** s' differs from s in scheduler data other than current thread and statuses. */
  lemma SameStatusKeepsSafe(s: State, s': State)
    requires Safe(s) && SchedInv(s'.sched) && s' == s.(sched := s'.sched)
    requires s'.sched.cur == s.sched.cur && s'.sched.tcb.Keys == s.sched.tcb.Keys
    requires forall t :: t in s.sched.tcb ==> s'.sched.tcb[t].status == s.sched.tcb[t].status
    ensures Safe(s')
  {
    hide SchedInv, LockInv;
    forall t | t in s'.ctl ensures CtlOk(s', t) { assert CtlOk(s, t); }
    StandingKeepsSafe(s, s');
  }

  lemma TimerKeepsSafe(s: State)
    requires Safe(s) && Typed(s) && s.fault == NoFault && s.intr
    ensures TimerStep(s).fault == NoFault && Safe(TimerStep(s))
  {
    if s.sched.tcb[s.Cur()].ticks == 0 {
      PreemptKeepsSafe(s);
    } else {
      TimerTickKeepsInv(s.sched);
      hide SchedInv, CtlInv, LockInv;
      SameStatusKeepsSafe(s, TimerStep(s));
    }
  }

  // ----- thread_block and thread_unblock called by client code

  lemma BlockStepKeepsInv(s: State, stat: Status)
    requires Safe(s) && Typed(s) && Enabled(s, Block(stat)) && Disciplined(s, Block(stat))
    ensures Inv(Step(s, Block(stat)))
    ensures Step(s, Block(stat)).fault == ThreadC(117) <==> s.sched.ready == []
  {
    hide SchedInv, LockInv, Moved;
    var s' := Step(s, Block(stat));
    BlockKeepsInv(s.sched, stat);
    assert CtlOk(s, s.Cur());
    if s.sched.ready != [] {
      BlockMoves(s.sched, stat);
      assert Left(s, s', InBlock(s.intr), stat);
      LeaveKeepsCtl(s, s', InBlock(s.intr), stat);
      LeaveKeepsStanding(s, s', InBlock(s.intr), stat);
      StandingKeepsSafe(s, s');
    }
  }

  /** thread_unblock makes one blocked thread ready. */
  lemma UnblockMoves(sc: Sched, u: Tid)
    requires SchedInv(sc) && u in sc.tcb && Unblock(sc, u).Go?
    ensures var sc' := Unblock(sc, u).s;
            sc'.cur == sc.cur && sc.cur in sc.tcb && u != sc.cur && sc'.tcb == sc.tcb[u := sc.tcb[u].(status := Ready)]
  {
  }

  /** One thread under the wake-up of u: blocked by thread_block, and ready afterwards. */
  lemma WakeKeepsThread(s: State, s': State, u: Tid, t: Tid)
    requires t in s.ctl && t in s.sched.tcb && CtlOk(s, t) && Asleep(s, u) && u != s.Cur()
    requires s' == s.(sched := s'.sched) && s'.sched.cur == s.sched.cur
    requires s'.sched.tcb == s.sched.tcb[u := s.sched.tcb[u].(status := Ready)]
    ensures CtlOk(s', t) && SameStanding(s, s', t)
  {
  }

  lemma WakeStepKeepsSafe(s: State, u: Tid)
    requires Safe(s) && Typed(s) && Enabled(s, Wake(u)) && Disciplined(s, Wake(u))
    ensures Step(s, Wake(u)).fault == NoFault && Safe(Step(s, Wake(u)))
  {
    hide SchedInv, LockInv, Unblock, CtlOk, SameStanding, Newcomer, Typed;
    var s' := Step(s, Wake(u));
    UnblockKeepsInv(s.sched, u);
    UnblockMoves(s.sched, u);
    forall t | t in s'.ctl ensures CtlOk(s', t) && SameStanding(s, s', t) { WakeKeepsThread(s, s', u, t); }
    StandingKeepsSafe(s, s');
  }

  lemma StartMoves(sc: Sched, u: Tid, prio: nat)
    requires StartThread(sc, u, prio).Go?
    ensures var sc' := StartThread(sc, u, prio).s;
            sc'.cur == sc.cur && sc'.tcb == sc.tcb[u := Tcb(Ready, prio % 256, 0, 0)]
  {
  }

  /** One thread under the start of u. */
  lemma StartKeepsThread(s: State, s': State, u: Tid, prio: nat, t: Tid)
    requires s.ctl.Keys == s.sched.tcb.Keys && u !in s.ctl && (t == u || (t in s.ctl && CtlOk(s, t)))
    requires s' == s.(sched := s'.sched, ctl := s.ctl[u := Ctl(Client, Fresh, true, map[])]) && s'.sched.cur == s.sched.cur
    requires s'.sched.tcb == s.sched.tcb[u := Tcb(Ready, prio % 256, 0, 0)] && s.Cur() in s.ctl
    ensures CtlOk(s', t) && if t == u then Newcomer(s', t) else SameStanding(s, s', t)
  {
  }

  lemma StartStepKeepsSafe(s: State, u: Tid, prio: nat)
    requires Safe(s) && Typed(s) && Enabled(s, Start(u, prio))
    ensures Step(s, Start(u, prio)).fault == NoFault && Safe(Step(s, Start(u, prio)))
  {
    hide SchedInv, LockInv, StartThread, CtlOk, SameStanding, Newcomer, Typed;
    var s' := Step(s, Start(u, prio));
    StartThreadKeepsInv(s.sched, u, prio);
    StartMoves(s.sched, u, prio);
    CurrentRuns(s.sched);
    forall t | t in s'.ctl ensures CtlOk(s', t) && if t == u then Newcomer(s', t) else SameStanding(s, s', t) {
      StartKeepsThread(s, s', u, prio, t);
    }
    StandingKeepsSafe(s, s');
  }

  // ----- coming back from switch_to, and the client's own changes of the interrupt flag

  /** Only the current thread's frame, its own flag and the interrupt flag change; the thread waits on no semaphore. */
  lemma FlagChangeKeepsSafe(s: State, s': State)
    requires Safe(s) && s.Cur() in s.ctl && s.Cur() in s'.ctl
    requires var c := s.ctl[s.Cur()]; var c' := s'.ctl[s.Cur()];
             && s' == s.(ctl := s.ctl[s.Cur() := c'], intr := s'.intr)
             && c' == c.(frame := Active, own := c'.own) && s'.intr == c'.own && !c.frame.InSema?
    ensures Safe(s')
  {
    hide SchedInv, LockInv;
    forall t | t in s'.ctl ensures CtlOk(s', t) {
      assert CtlOk(s, t);
      assert CtlOk(s, s.Cur());
    }
    StandingKeepsSafe(s, s');
  }

  lemma ReturnKeepsSafe(s: State)
    requires Safe(s) && Typed(s) && s.ctl[s.Cur()].frame != Active && !s.ctl[s.Cur()].frame.InSema?
    ensures ResumeStep(s).fault == s.fault && Safe(ResumeStep(s))
  {
    hide SchedInv, LockInv;
    assert CtlOk(s, s.Cur());
    FlagChangeKeepsSafe(s, ResumeStep(s));
  }

  lemma SetIntrKeepsSafe(s: State, on: bool)
    requires Safe(s) && Typed(s) && Enabled(s, SetIntr(on))
    ensures Safe(Step(s, SetIntr(on)))
  {
    hide SchedInv, LockInv, CtlInv;
    FlagChangeKeepsSafe(s, Step(s, SetIntr(on)));
  }
}
