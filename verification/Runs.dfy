/**
 What holds in every reachable state of the kernel machine, over every
 interleaving of any number of threads and locks.
 */
module Runs {
  import opened Options
  import opened Scheduler
  import opened Machine
  import opened Invariants
  import opened StepSafety
  import opened SwitchSafety
  import opened SemaSafety

  /** The actions can happen one after the other from s, and the callers respect the kernel's demands. */
  ghost predicate ValidRun(s: State, acts: seq<Action>)
    decreases |acts|
  {
    acts == [] ||
    (Typed(s) && Enabled(s, acts[0]) && Disciplined(s, acts[0]) && ValidRun(Step(s, acts[0]), acts[1..]))
  }

  /** The state after the first n actions. */
  ghost function StateAt(s: State, acts: seq<Action>, n: nat): State
    requires ValidRun(s, acts) && n <= |acts|
    decreases n
  {
    if n == 0 then s else StateAt(Step(s, acts[0]), acts[1..], n - 1)
  }

  /** The step makes the current thread give up the processor and wait. */
  predicate MustWait(s: State, a: Action) {
    && s.Cur() in s.ctl
    && var c := s.ctl[s.Cur()];
       || a.Block?
       || (((a.Exec? && c.frame == Active) || (a.Resume? && c.frame.InSema?))
           && c.pc.AcqDown? && c.pc.l in s.locks && s.locks[c.pc.l].value == 0)
  }

  lemma ExecKeepsInv(s: State)
    requires Safe(s) && Typed(s) && Enabled(s, Exec)
    ensures Inv(Step(s, Exec))
    ensures Step(s, Exec).fault == ThreadC(117) <==> MustWait(s, Exec) && s.sched.ready == []
  {
    hide Safe, DownLoop, SemaUp, Statement, BlockCurrent;
    var c := s.ctl[s.Cur()];
    var l := c.pc.l;
    if c.pc.AcqDown? {
      ActiveFlag(s);
      DownLoopKeepsInv(s, l);
    } else if c.pc.RelUp? {
      SemaUpKeepsSafe(s, l);
    } else {
      StatementKeepsSafe(s);
    }
  }

  lemma ActiveFlag(s: State)
    requires Safe(s) && s.Cur() in s.ctl
    ensures s.ctl[s.Cur()].frame == Active ==> s.intr == s.ctl[s.Cur()].own
    ensures s.ctl[s.Cur()].frame != Active ==> !s.intr
    ensures s.ctl[s.Cur()].frame.InSema? ==> s.ctl[s.Cur()].frame.saved == s.ctl[s.Cur()].own
  {
    assert CtlOk(s, s.Cur());
  }

  lemma ResumeKeepsInv(s: State)
    requires Safe(s) && Typed(s) && Enabled(s, Resume)
    ensures Inv(Step(s, Resume))
    ensures Step(s, Resume).fault == ThreadC(117) <==> MustWait(s, Resume) && s.sched.ready == []
  {
    hide Safe, DownLoop;
    var c := s.ctl[s.Cur()];
    ActiveFlag(s);
    if c.frame.InSema? {
      assert s.(intr := false) == s;
      DownLoopKeepsInv(s, c.pc.l);
    } else {
      ReturnKeepsSafe(s);
    }
  }

  /** One step: the invariant is kept, and the kernel halts only when the last runnable thread must wait. */
  lemma StepKeepsInv(s: State, a: Action)
    requires Safe(s) && Typed(s) && Enabled(s, a) && Disciplined(s, a)
    ensures Inv(Step(s, a))
    ensures Step(s, a).fault == ThreadC(117) <==> MustWait(s, a) && s.sched.ready == []
  {
    hide Safe, TimerStep, ResumeStep, ExecStep;
    match a
    case Timer => TimerKeepsSafe(s);
    case Resume => ResumeKeepsInv(s);
    case Exec => ExecKeepsInv(s);
    case CallAcquire(l) => CallKeepsSafe(s, a);
    case CallRelease(l) => CallKeepsSafe(s, a);
    case SetIntr(on) => SetIntrKeepsSafe(s, on);
    case Block(stat) => BlockStepKeepsInv(s, stat);
    case Wake(t) => WakeStepKeepsSafe(s, t);
    case Start(t, prio) => StartStepKeepsSafe(s, t, prio);
  }

  lemma {:induction false} RunKeepsInv(s: State, acts: seq<Action>, n: nat)
    requires Inv(s) && ValidRun(s, acts) && n <= |acts|
    ensures Inv(StateAt(s, acts, n))
    decreases n
  {
    hide Safe, Step;
    if n > 0 {
      StepKeepsInv(s, acts[0]);
      RunKeepsInv(Step(s, acts[0]), acts[1..], n - 1);
    }
  }

  /** A halted kernel takes no more steps. */
  lemma FaultStays(s: State, acts: seq<Action>, n: nat)
    requires ValidRun(s, acts) && n <= |acts| && StateAt(s, acts, n).fault == NoFault
    ensures s.fault == NoFault
  {
    hide Step, Typed, Disciplined;
  }

  /** s can be reached from the boot state. */
  ghost predicate Reachable(s: State) {
    exists main: Tid, lids: set<Lid>, acts: seq<Action> :: ReachedBy(s, main, lids, acts)
  }

  ghost predicate ReachedBy(s: State, main: Tid, lids: set<Lid>, acts: seq<Action>) {
    ValidRun(Initial(main, lids), acts) && StateAt(Initial(main, lids), acts, |acts|) == s
  }

  lemma ReachableInv(s: State)
    requires Reachable(s)
    ensures Inv(s)
  {
    var main: Tid, lids: set<Lid>, acts: seq<Action> :| ReachedBy(s, main, lids, acts);
    InitialIsSafe(main, lids);
    RunKeepsInv(Initial(main, lids), acts, |acts|);
  }

  // ----- the main theorems, in the kernel's own terms

  /** No ASSERT of sync.c or thread.c ever fails, except thread.c:117 when every thread waits. */
  lemma AssertsHold(s: State)
    requires Reachable(s)
    ensures s.fault == NoFault || s.fault == ThreadC(117)
  {
    ReachableInv(s);
  }

  /** Mutual exclusion, the holder field, the repeat count and the semaphore value, in every reachable state. */
  lemma MutualExclusion(s: State, l: Lid)
    requires Reachable(s) && s.fault == NoFault && l in s.locks
    ensures forall t, u :: Owns(s, t, l) && Owns(s, u, l) ==> t == u
    ensures s.locks[l].value in {0, 1}
    ensures s.locks[l].value == 0 <==> exists t :: Owns(s, t, l)
    ensures s.locks[l].value == 1 ==> s.locks[l].holder == None && s.locks[l].repeat == 0
    ensures forall t :: s.locks[l].holder == Some(t) ==> Owns(s, t, l)
    ensures forall t :: Owns(s, t, l) && !HolderUnset(s.ctl[t].pc, l) ==> s.locks[l].holder == Some(t)
    ensures forall t :: Owns(s, t, l) && !(s.ctl[t].pc.RelUp? && s.ctl[t].pc.l == l) ==>
              s.locks[l].repeat == s.ctl[t].Depth(l)
  {
    hide Reachable, SchedInv, WaitersOk, WakeOk;
    ReachableInv(s);
    assert LockInv(s, l);
    forall t | Owns(s, t, l) ensures s.ctl[t].pc in {AcqOwn(l), AcqAssert(l), AcqCount(l)} ==> s.ctl[t].Depth(l) == 0 {
      assert CtlOk(s, t);
    }
  }

  /** No lost wake-up: a free semaphore with waiters has a thread that was woken, can run, and will test it again. */
  lemma NoLostWakeUp(s: State, l: Lid)
    requires Reachable(s) && s.fault == NoFault && l in s.locks
    requires s.locks[l].value == 1 && s.locks[l].waiters != []
    ensures exists t :: Woken(s, t, l) && t !in s.locks[l].waiters && (t == s.Cur() || t in s.sched.ready)
  {
    ReachableInv(s);
    assert LockInv(s, l);
    var t :| Woken(s, t, l);
    assert !Waits(s, t, l);
  }

  /** Exactly one thread is running, the current one, and the ready list holds exactly the ready threads, once each. */
  lemma OneRunningThread(s: State)
    requires Reachable(s) && s.fault == NoFault
    ensures s.Cur() in s.sched.tcb && s.sched.tcb[s.Cur()].status == Running
    ensures forall t :: t in s.sched.tcb && s.sched.tcb[t].status == Running ==> t == s.Cur()
    ensures NoDuplicates(s.sched.ready)
    ensures forall t :: t in s.sched.ready <==> t in s.sched.tcb && s.sched.tcb[t].status == Ready
  {
    ReachableInv(s);
  }

  /** A general_tag is in at most one list: a waiter is in one waiters list, once, and never in the ready list. */
  lemma TagsAreInOneList(s: State, l: Lid, t: Tid)
    requires Reachable(s) && s.fault == NoFault && l in s.locks && t in s.locks[l].waiters
    ensures t in s.sched.tcb && s.sched.tcb[t].status == Blocked && t !in s.sched.ready && t != s.Cur()
    ensures NoDuplicates(s.locks[l].waiters)
    ensures forall k :: k in s.locks && t in s.locks[k].waiters ==> k == l
  {
    ReachableInv(s);
    assert LockInv(s, l) && Waits(s, t, l);
    forall k | k in s.locks && t in s.locks[k].waiters ensures k == l { assert LockInv(s, k) && Waits(s, t, k); }
    OneRunningThread(s);
  }

  /** What one step does to a waiters list: nothing, the current thread joins at the back, or the first waiter is made ready, ahead of all others. */
  ghost predicate FifoStep(s: State, s': State, l: Lid)
    requires l in s.locks && l in s'.locks
  {
    var q, q' := s.locks[l].waiters, s'.locks[l].waiters;
    || q' == q
    || (q' == q + [s.Cur()] && s.locks[l].value == 0)
    || (q != [] && q' == q[1..] && s'.sched.ready == [q[0]] + s.sched.ready && s'.locks[l].value == 1)
  }

  /** Waiters are served in the order in which they came. */
  lemma WaitersAreFifo(s: State, a: Action, l: Lid)
    requires Typed(s) && Enabled(s, a) && l in s.locks && Step(s, a).fault == NoFault
    ensures l in Step(s, a).locks && FifoStep(s, Step(s, a), l)
  {
    hide BlockCurrent, TimerTick, Schedule, StartThread, Statement, ExecStep, DownLoop;
    if a.Exec? { ExecIsFifo(s, l); }
    if a.Resume? && s.ctl[s.Cur()].frame.InSema? { DownIsFifo(s, s.ctl[s.Cur()].pc.l, s.ctl[s.Cur()].frame.saved, l); }
  }

  lemma DownIsFifo(s: State, k: Lid, saved: bool, l: Lid)
    requires Typed(s) && k in s.locks && l in s.locks
    ensures l in DownLoop(s, k, saved).locks
    ensures DownLoop(s, k, saved).fault == NoFault ==> FifoStep(s, DownLoop(s, k, saved), l)
  {
    hide BlockCurrent;
  }

  lemma UpIsFifo(s: State, k: Lid, l: Lid)
    requires Typed(s) && k in s.locks && l in s.locks
    ensures l in SemaUp(s, k).locks
    ensures SemaUp(s, k).fault == NoFault ==> FifoStep(s, SemaUp(s, k), l)
  {
  }

  lemma StatementKeepsWaiters(t: Tid, c: Ctl, lk: Lock)
    requires HasLock(c.pc) && !c.pc.AcqDown? && !c.pc.RelUp?
    ensures Statement(t, c, lk).Next? ==> Statement(t, c, lk).lk.waiters == lk.waiters
  {
  }

  lemma ExecIsFifo(s: State, l: Lid)
    requires Typed(s) && HasLock(s.ctl[s.Cur()].pc) && l in s.locks && ExecStep(s).fault == NoFault
    ensures l in ExecStep(s).locks && FifoStep(s, ExecStep(s), l)
  {
    hide DownLoop, SemaUp, Statement;
    var c := s.ctl[s.Cur()];
    var k := c.pc.l;
    if c.pc.AcqDown? { DownIsFifo(s.(intr := false), k, s.intr, l); }
    else if c.pc.RelUp? { UpIsFifo(s, k, l); }
    else { StatementKeepsWaiters(s.Cur(), c, s.locks[k]); }
  }

  /** Every thread blocked in sema_down is in a waiters list. */
  lemma BlockedThreadsAreQueued(s: State, t: Tid)
    requires Reachable(s) && s.fault == NoFault
    requires t in s.sched.tcb && s.sched.tcb[t].status == Blocked && t in s.ctl && s.ctl[t].frame.InSema?
    ensures s.ctl[t].pc.AcqDown? && s.ctl[t].pc.l in s.locks && t in s.locks[s.ctl[t].pc.l].waiters
  {
    ReachableInv(s);
    assert CtlOk(s, t);
    assert LockInv(s, s.ctl[t].pc.l) && Waits(s, t, s.ctl[t].pc.l);
  }

  /** In every reachable state the global tick count is the sum of all elapsed counts, modulo 2^32. */
  lemma TicksAreConserved(s: State)
    requires Reachable(s) && s.fault == NoFault
    ensures NoDuplicates(s.sched.all) && (forall t :: t in s.sched.all <==> t in s.sched.tcb)
    ensures s.sched.total == Wrap(ElapsedSum(s.sched.tcb, s.sched.all))
  {
    ReachableInv(s);
  }

  // ----- the interrupt flag

  lemma StatementKeepsOwn(t: Tid, c: Ctl, lk: Lock)
    requires HasLock(c.pc) && !c.pc.AcqDown? && !c.pc.RelUp?
    ensures Statement(t, c, lk).Next? ==> Statement(t, c, lk).c.own == c.own
  {
  }

  /** The control states after a step that is not a client call: only the current thread's changes. */
  ghost predicate OnlyCurrentMoves(s: State, s': State) {
    s.Cur() in s.ctl && s.Cur() in s'.ctl && s'.ctl == s.ctl[s.Cur() := s'.ctl[s.Cur()]]
    && s'.ctl[s.Cur()].own == s.ctl[s.Cur()].own
  }

  lemma DownLoopMoves(s: State, l: Lid, saved: bool)
    requires Typed(s) && l in s.locks
    ensures OnlyCurrentMoves(s, DownLoop(s, l, saved))
  {
    hide BlockCurrent;
  }

  lemma SemaUpMoves(s: State, l: Lid)
    requires Typed(s) && l in s.locks
    ensures OnlyCurrentMoves(s, SemaUp(s, l))
    ensures SemaUp(s, l).fault == NoFault ==> SemaUp(s, l).ctl[s.Cur()] == Released(s.ctl[s.Cur()], l)
    ensures SemaUp(s, l).fault != NoFault ==> SemaUp(s, l).ctl == s.ctl || s.fault != NoFault
  {
    hide Unblock;
  }

  lemma ExecMoves(s: State)
    requires Typed(s) && HasLock(s.ctl[s.Cur()].pc)
    ensures OnlyCurrentMoves(s, ExecStep(s))
  {
    hide Statement, DownLoop, SemaUp;
    var c := s.ctl[s.Cur()];
    if c.pc.AcqDown? { DownLoopMoves(s.(intr := false), c.pc.l, s.intr); }
    else if c.pc.RelUp? { SemaUpMoves(s, c.pc.l); }
    else { StatementKeepsOwn(s.Cur(), c, s.locks[c.pc.l]); }
  }

  lemma ResumeMoves(s: State)
    requires Typed(s)
    ensures OnlyCurrentMoves(s, ResumeStep(s))
  {
    hide DownLoop;
    var c := s.ctl[s.Cur()];
    if c.frame.InSema? { DownLoopMoves(s, c.pc.l, c.frame.saved); }
  }

  /** A thread's own view of the flag changes only when its own code sets it. */
  lemma OwnFlagChangesOnlyByOwner(s: State, a: Action, t: Tid)
    requires Typed(s) && Enabled(s, a) && t in s.ctl
    ensures t in Step(s, a).ctl
    ensures Step(s, a).ctl[t].own == s.ctl[t].own || (t == s.Cur() && a.SetIntr?)
  {
    hide ExecStep, ResumeStep, BlockCurrent, TimerTick, Unblock, StartThread;
    if a.Exec? { ExecMoves(s); }
    if a.Resume? { ResumeMoves(s); }
  }

  /** In a run from s, thread t never sets the interrupt flag itself. */
  ghost predicate LeavesFlagAlone(s: State, acts: seq<Action>, t: Tid)
    requires ValidRun(s, acts)
    decreases |acts|
  {
    acts == [] ||
    (!(s.Cur() == t && acts[0].SetIntr?) && LeavesFlagAlone(Step(s, acts[0]), acts[1..], t))
  }

  lemma {:induction false} OwnFlagThroughRun(s: State, acts: seq<Action>, t: Tid)
    requires ValidRun(s, acts) && t in s.ctl && LeavesFlagAlone(s, acts, t)
    ensures t in StateAt(s, acts, |acts|).ctl && StateAt(s, acts, |acts|).ctl[t].own == s.ctl[t].own
    decreases |acts|
  {
    hide Step;
    if acts != [] {
      OwnFlagChangesOnlyByOwner(s, acts[0], t);
      OwnFlagThroughRun(Step(s, acts[0]), acts[1..], t);
    }
  }

  /**
   A thread that runs its own code at both ends of a run, and has not set the flag
   itself, finds the flag as it left it, however many threads ran in between: so
   lock_acquire, lock_release, thread_block and thread_unblock return with the caller's flag.
   */
  lemma CallsReturnWithCallersFlag(s: State, acts: seq<Action>, t: Tid)
    requires Reachable(s) && s.fault == NoFault && ValidRun(s, acts) && LeavesFlagAlone(s, acts, t)
    requires var s' := StateAt(s, acts, |acts|);
             && s.Cur() == t && t in s.ctl && s.ctl[t].frame == Active
             && s'.fault == NoFault && s'.Cur() == t && t in s'.ctl && s'.ctl[t].frame == Active
    ensures StateAt(s, acts, |acts|).intr == s.intr
  {
    hide Step, Safe, LeavesFlagAlone, StateAt, ValidRun, Reachable;
    ReachableInv(s);
    RunKeepsInv(s, acts, |acts|);
    OwnFlagThroughRun(s, acts, t);
    ActiveFlag(s);
    ActiveFlag(StateAt(s, acts, |acts|));
  }

  /**
   Whenever a thread runs its own code (in particular when sema_down, sema_up,
   thread_block or thread_unblock have just returned to it) the processor's flag is
   the one its own code last set, whatever ran in between; whenever a thread has just
   been switched to, the flag is off.
   */
  lemma InterruptFlagDiscipline(s: State)
    requires Reachable(s) && s.fault == NoFault
    ensures s.Cur() in s.ctl
    ensures s.ctl[s.Cur()].frame == Active ==> s.intr == s.ctl[s.Cur()].own
    ensures s.ctl[s.Cur()].frame != Active ==> !s.intr
    ensures forall t :: t in s.ctl && t != s.Cur() ==> s.ctl[t].frame != Active
    ensures forall t :: t in s.ctl && s.ctl[t].frame.InSema? ==> s.ctl[t].frame.saved == s.ctl[t].own
  {
    ReachableInv(s);
    forall t | t in s.ctl ensures CtlOk(s, t) {}
  }

  /** A thread that comes back from thread_block inside sema_down tests and takes the semaphore in one step. */
  lemma RetestIsAtomic(s: State)
    requires Reachable(s) && s.fault == NoFault && s.Cur() in s.ctl && s.ctl[s.Cur()].frame.InSema?
    ensures Typed(s) && Enabled(s, Resume) && !s.intr
    ensures var l := s.ctl[s.Cur()].pc.l; var s' := Step(s, Resume);
            l in s.locks &&
            (s.locks[l].value == 1 ==> s' == Taken(s, l, s.ctl[s.Cur()].own) && Owns(s', s.Cur(), l))
  {
    hide Safe, Reachable;
    ReachableInv(s);
    SafeIsTyped(s);
    ActiveFlag(s);
  }

  // ----- a thread that never blocks

  /** In a run from s, thread m never calls lock_acquire or thread_block. */
  ghost predicate NeverBlocks(s: State, acts: seq<Action>, m: Tid)
    requires ValidRun(s, acts)
    decreases |acts|
  {
    acts == [] ||
    (!(s.Cur() == m && (acts[0].CallAcquire? || acts[0].Block?)) && NeverBlocks(Step(s, acts[0]), acts[1..], m))
  }

  /** m is outside every lock operation and not asleep. */
  predicate Awake(s: State, m: Tid) {
    m in s.ctl && !s.ctl[m].frame.InBlock? && !s.ctl[m].frame.InSema?
    && (s.ctl[m].pc.Client? || s.ctl[m].pc.RelAssert? || s.ctl[m].pc.RelTest? || s.ctl[m].pc.RelDec?
        || s.ctl[m].pc.RelLast? || s.ctl[m].pc.RelClear? || s.ctl[m].pc.RelZero? || s.ctl[m].pc.RelUp?)
  }

  lemma StatementKeepsReleasing(t: Tid, c: Ctl, lk: Lock)
    requires HasLock(c.pc) && !c.pc.AcqTest? && !c.pc.AcqNest? && !c.pc.AcqDown? && !c.pc.AcqOwn? && !c.pc.AcqAssert?
             && !c.pc.AcqCount? && !c.pc.RelUp?
    ensures Statement(t, c, lk).Next? ==>
              var c' := Statement(t, c, lk).c;
              c'.frame == c.frame && (c'.pc.Client? || c'.pc.RelTest? || c'.pc.RelDec? || c'.pc.RelLast?
                                      || c'.pc.RelClear? || c'.pc.RelZero? || c'.pc.RelUp?)
  {
  }

  lemma ExecKeepsAwake(s: State, m: Tid)
    requires Typed(s) && HasLock(s.ctl[s.Cur()].pc) && s.fault == NoFault && Awake(s, m)
    ensures Awake(ExecStep(s), m)
  {
    hide Statement, DownLoop, SemaUp;
    ExecMoves(s);
    var c := s.ctl[s.Cur()];
    if s.Cur() == m {
      if c.pc.RelUp? { SemaUpMoves(s, c.pc.l); } else { StatementKeepsReleasing(m, c, s.locks[c.pc.l]); }
    }
  }

  lemma ResumeKeepsAwake(s: State, m: Tid)
    requires Typed(s) && Awake(s, m) && s.fault == NoFault
    ensures Awake(ResumeStep(s), m)
  {
    hide DownLoop;
    ResumeMoves(s);
  }

  lemma LeaveKeepsAwake(s: State, f: Frame, o: Outcome, m: Tid)
    requires s.Cur() in s.ctl && Awake(s, m) && (s.Cur() != m || f == Preempted)
    ensures Awake(Leave(s, f, o), m)
  {
  }

  lemma StepKeepsAwake(s: State, a: Action, m: Tid)
    requires Typed(s) && Enabled(s, a) && Awake(s, m) && !(s.Cur() == m && (a.CallAcquire? || a.Block?))
    ensures Awake(Step(s, a), m)
  {
    hide ExecStep, ResumeStep, BlockCurrent, TimerTick, Unblock, StartThread, Leave;
    match a
    case Exec => ExecKeepsAwake(s, m);
    case Resume => ResumeKeepsAwake(s, m);
    case Timer => LeaveKeepsAwake(s.(intr := false), Preempted, TimerTick(s.sched), m);
    case Block(stat) => LeaveKeepsAwake(s.(intr := false), InBlock(s.intr), BlockCurrent(s.sched, stat), m);
    case _ =>
  }

  lemma AwakeIsRunnable(s: State, m: Tid)
    requires Safe(s) && Awake(s, m) && s.Cur() != m
    ensures m in s.sched.ready
  {
    assert CtlOk(s, m);
  }

  lemma AwakeNeverWaits(s: State, a: Action)
    requires Awake(s, s.Cur()) && !a.Block?
    ensures !MustWait(s, a)
  {
  }

  lemma {:induction false} AwakeRunNeverHalts(s: State, acts: seq<Action>, m: Tid)
    requires s.fault == NoFault && Safe(s) && ValidRun(s, acts) && Awake(s, m) && NeverBlocks(s, acts, m)
    ensures StateAt(s, acts, |acts|).fault == NoFault
    decreases |acts|
  {
    hide Safe, Step, Awake, MustWait;
    if acts != [] {
      var a := acts[0];
      StepKeepsInv(s, a);
      StepKeepsAwake(s, a, m);
      if s.Cur() == m { AwakeNeverWaits(s, a); } else { AwakeIsRunnable(s, m); }
      AwakeRunNeverHalts(Step(s, a), acts[1..], m);
    }
  }

  /** If main never blocks, as in main.c, no ASSERT at all ever fails. */
  lemma IdleMainNeverHalts(main: Tid, lids: set<Lid>, acts: seq<Action>)
    requires ValidRun(Initial(main, lids), acts) && NeverBlocks(Initial(main, lids), acts, main)
    ensures StateAt(Initial(main, lids), acts, |acts|).fault == NoFault
  {
    InitialIsSafe(main, lids);
    AwakeRunNeverHalts(Initial(main, lids), acts, main);
  }
}
