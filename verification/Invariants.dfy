/**
 What every step of the kernel machine keeps: the scheduler partition, the
 interrupt-flag discipline, the waiter lists, mutual exclusion and the absence of
 lost wake-ups.
 */
module Invariants {
  import opened Options
  import opened Scheduler
  import opened Machine

  /**
   Thread t is between its completed sema_down and its sema_up on lock l: it
   holds the lock as client code sees it, or lock_acquire is about to return.
   */
  predicate Owns(s: State, t: Tid, l: Lid) { t in s.ctl && OwnsBy(s.ctl[t], l) }

  predicate OwnsBy(c: Ctl, l: Lid) { c.Depth(l) > 0 || c.pc in {AcqOwn(l), AcqAssert(l), AcqCount(l)} }

  /** The points at which the owner of l is not recorded in `holder`: just after sema_down, just before sema_up. */
  predicate HolderUnset(pc: Pc, l: Lid) { pc in {AcqOwn(l), RelZero(l), RelUp(l)} }

  /** holder_repeat_nr for an owner of l: its depth, except inside the two update windows. */
  function CountOf(c: Ctl, l: Lid): nat {
    if c.pc in {AcqOwn(l), AcqAssert(l), AcqCount(l), RelUp(l)} then 0 else c.Depth(l)
  }

  /** What the point in lock_acquire or lock_release tells about the thread's depth. */
  predicate PcOk(c: Ctl) {
    match c.pc
    case Client => true
    case AcqTest(l) => c.Depth(l) < 0xffff_ffff
    case AcqNest(l) => 0 < c.Depth(l) < 0xffff_ffff
    case AcqDown(l) => c.Depth(l) == 0
    case AcqOwn(l) => c.Depth(l) == 0
    case AcqAssert(l) => c.Depth(l) == 0
    case AcqCount(l) => c.Depth(l) == 0
    case RelAssert(l) => c.Depth(l) > 0
    case RelTest(l) => c.Depth(l) > 0
    case RelDec(l) => c.Depth(l) > 1
    case RelLast(l) => c.Depth(l) == 1
    case RelClear(l) => c.Depth(l) == 1
    case RelZero(l) => c.Depth(l) == 1
    case RelUp(l) => c.Depth(l) == 1
  }

  /** Frame, status and interrupt flag of one thread. */
  ghost predicate CtlOk(s: State, t: Tid)
    requires t in s.ctl && t in s.sched.tcb
  {
    var c := s.ctl[t];
    var st := s.sched.tcb[t].status;
    && (HasLock(c.pc) ==> c.pc.l in s.locks)
    && PcOk(c)
    && (t == s.Cur() && c.frame != Active ==> !s.intr)
    && match c.frame
       case Active => t == s.Cur() && s.intr == c.own
       case Preempted => c.own && st in {Running, Ready}
       case Fresh => c.own && c.pc == Client && st in {Running, Ready}
       case InSema(saved) => saved == c.own && c.pc.AcqDown? && st in {Running, Ready, Blocked}
       case InBlock(saved) => saved == c.own && c.pc == Client
  }

  ghost predicate CtlInv(s: State) {
    && s.ctl.Keys == s.sched.tcb.Keys
    && (forall t :: t in s.ctl ==> CtlOk(s, t))
  }

  /** Thread t is blocked in sema_down on l. */
  predicate Waits(s: State, t: Tid, l: Lid) {
    && t in s.ctl && t in s.sched.tcb
    && s.ctl[t].frame.InSema? && s.ctl[t].pc == AcqDown(l) && s.sched.tcb[t].status == Blocked
  }

  /** Thread t was popped by sema_up on l, can run, and has not yet tested the loop condition again. */
  predicate Woken(s: State, t: Tid, l: Lid) {
    && t in s.ctl && t in s.sched.tcb
    && s.ctl[t].frame.InSema? && s.ctl[t].pc == AcqDown(l) && s.sched.tcb[t].status in {Ready, Running}
  }

  ghost predicate WaitersOk(s: State, l: Lid)
    requires l in s.locks
  {
    && NoDuplicates(s.locks[l].waiters)
    && (forall t :: t in s.locks[l].waiters <==> Waits(s, t, l))
  }

  /** Mutual exclusion on l, with `holder`, `holder_repeat_nr` and `value` tied to the one owner. */
  ghost predicate LockOk(s: State, l: Lid)
    requires l in s.locks
  {
    var lk := s.locks[l];
    && lk.value <= 1
    && (lk.value == 0 ==> exists t :: Owns(s, t, l))
    && (forall t, u :: Owns(s, t, l) && Owns(s, u, l) ==> t == u)
    && (forall t :: Owns(s, t, l) ==>
          && lk.value == 0
          && lk.repeat == CountOf(s.ctl[t], l)
          && lk.repeat <= 0xffff_ffff
          && lk.holder == (if HolderUnset(s.ctl[t].pc, l) then None else Some(t)))
    && (lk.value == 1 ==> lk.holder == None && lk.repeat == 0)
  }

  /** No lost wake-up on l. */
  ghost predicate WakeOk(s: State, l: Lid)
    requires l in s.locks
  {
    s.locks[l].value == 1 && s.locks[l].waiters != [] ==> exists t :: Woken(s, t, l)
  }

  ghost predicate LockInv(s: State, l: Lid)
    requires l in s.locks
  {
    WaitersOk(s, l) && LockOk(s, l) && WakeOk(s, l)
  }

  ghost predicate Safe(s: State) {
    && SchedInv(s.sched)
    && CtlInv(s)
    && (forall l :: l in s.locks ==> LockInv(s, l))
  }

  /** The kernel is running and safe, or it halted because the last runnable thread blocked. */
  ghost predicate Inv(s: State) {
    s.fault == ThreadC(117) || (s.fault == NoFault && Safe(s))
  }

  lemma SafeIsTyped(s: State)
    requires Safe(s)
    ensures Typed(s)
  {
    forall l, t | l in s.locks && t in s.locks[l].waiters ensures t in s.sched.tcb {
      assert LockInv(s, l) && Waits(s, t, l);
    }
  }

  lemma InitialIsSafe(main: Tid, lids: set<Lid>)
    ensures Safe(Initial(main, lids))
  {
    var s := Initial(main, lids);
    InitialSchedInv(main);
    forall l | l in s.locks ensures LockInv(s, l) {
      assert s.locks[l] == Lock(1, [], None, 0);
    }
  }

  // ----- what a step leaves alone

  /** All a thread's links with lock l are the same in s and s'. */
  predicate SameForLock(s: State, s': State, t: Tid, l: Lid) {
    && t in s.ctl && t in s'.ctl
    && s'.ctl[t].Depth(l) == s.ctl[t].Depth(l)
    && (s'.ctl[t].pc == s.ctl[t].pc || (!OfLock(s.ctl[t].pc, l) && !OfLock(s'.ctl[t].pc, l)))
  }

  predicate OfLock(pc: Pc, l: Lid) { HasLock(pc) && pc.l == l }

  lemma SameOwner(s: State, s': State, t: Tid, l: Lid)
    requires SameForLock(s, s', t, l)
    ensures Owns(s', t, l) <==> Owns(s, t, l)
    ensures CountOf(s'.ctl[t], l) == CountOf(s.ctl[t], l)
    ensures HolderUnset(s'.ctl[t].pc, l) == HolderUnset(s.ctl[t].pc, l)
  {
  }

  /** Exclusion on l survives any step that does not touch l's record or any thread's links with l. */
  lemma LockOkFrame(s: State, s': State, l: Lid)
    requires l in s.locks && l in s'.locks && LockOk(s, l)
    requires s'.locks[l].(waiters := s.locks[l].waiters) == s.locks[l]
    requires forall t :: t in s.ctl ==> SameForLock(s, s', t, l)
    requires forall t :: t in s'.ctl && t !in s.ctl ==> !Owns(s', t, l)
    ensures LockOk(s', l)
  {
    forall t ensures Owns(s', t, l) <==> Owns(s, t, l) {
      if t in s.ctl { SameOwner(s, s', t, l); }
    }
    forall t | t in s.ctl ensures CountOf(s'.ctl[t], l) == CountOf(s.ctl[t], l) && HolderUnset(s'.ctl[t].pc, l) == HolderUnset(s.ctl[t].pc, l) {
      SameOwner(s, s', t, l);
    }
  }

  lemma WaitersOkFrame(s: State, s': State, l: Lid)
    requires l in s.locks && l in s'.locks && WaitersOk(s, l) && s'.locks[l].waiters == s.locks[l].waiters
    requires forall t :: Waits(s', t, l) <==> Waits(s, t, l)
    ensures WaitersOk(s', l)
  {
  }

  lemma WakeOkFrame(s: State, s': State, l: Lid)
    requires l in s.locks && l in s'.locks && WakeOk(s, l)
    requires s'.locks[l].value == s.locks[l].value && s'.locks[l].waiters == s.locks[l].waiters
    requires forall t :: Woken(s, t, l) ==> Woken(s', t, l)
    ensures WakeOk(s', l)
  {
  }

  /** Thread t stands to the locks in s' as it did in s. */
  predicate SameStanding(s: State, s': State, t: Tid) {
    && t in s.ctl && t in s'.ctl && t in s.sched.tcb && t in s'.sched.tcb
    && s'.ctl[t].pc == s.ctl[t].pc && s'.ctl[t].depth == s.ctl[t].depth
    && (if s'.ctl[t].frame.InSema? then
          && s.ctl[t].frame.InSema?
          && (s'.sched.tcb[t].status == Blocked <==> s.sched.tcb[t].status == Blocked)
          && (s.sched.tcb[t].status in {Ready, Running} ==> s'.sched.tcb[t].status in {Ready, Running})
        else !s.ctl[t].frame.InSema?)
  }

  /** A thread that has just been started. */
  predicate Newcomer(s: State, t: Tid) {
    t in s.ctl && s.ctl[t].pc == Client && s.ctl[t].depth == map[]
  }

  /** A step that leaves every thread's standing and the locks alone keeps what is said about the locks. */
  lemma StandingKeepsLocks(s: State, s': State, l: Lid)
    requires l in s.locks && LockInv(s, l) && s'.locks == s.locks
    requires forall t :: t in s.ctl ==> SameStanding(s, s', t)
    requires forall t :: t in s'.ctl && t !in s.ctl ==> Newcomer(s', t)
    ensures LockInv(s', l)
  {
    hide LockOk, NoDuplicates;
    forall t ensures (Waits(s', t, l) <==> Waits(s, t, l)) && (Woken(s, t, l) ==> Woken(s', t, l)) {
      assert t in s.ctl ==> SameStanding(s, s', t);
      assert t in s'.ctl && t !in s.ctl ==> Newcomer(s', t);
    }
    WaitersOkFrame(s, s', l);
    WakeOkFrame(s, s', l);
    assert forall t :: t in s'.ctl && t !in s.ctl ==> !Owns(s', t, l) by {
      forall t | t in s'.ctl && t !in s.ctl ensures !Owns(s', t, l) { assert Newcomer(s', t); }
    }
    LockOkFrame(s, s', l);
  }

  lemma StandingKeepsSafe(s: State, s': State)
    requires Safe(s) && SchedInv(s'.sched) && CtlInv(s') && s'.locks == s.locks
    requires forall t :: t in s.ctl ==> SameStanding(s, s', t)
    requires forall t :: t in s'.ctl && t !in s.ctl ==> Newcomer(s', t)
    ensures Safe(s')
  {
    hide SchedInv, CtlInv, LockInv, SameStanding, Newcomer;
    forall l | l in s'.locks ensures LockInv(s', l) { StandingKeepsLocks(s, s', l); }
  }
}
