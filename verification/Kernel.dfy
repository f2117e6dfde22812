/**
 The kernel's threads, scheduler and locks as they are written: a global state
 that the functions of thread.c, sync.c, timer.c and interrupt.c update in place.
 Each method is one atomic stretch of that code, proved to do what the machine of
 module Machine does; with it the methods inherit the invariant.
 */
module Kernel {
  import opened Options
  import opened Scheduler
  import opened Machine
  import opened Invariants
  import opened Runs
  import opened Interrupts

  /** Both halted in the same ASSERT, or equal. */
  predicate Alike(s: State, spec: State) {
    if spec.fault == NoFault then s == spec else s.fault == spec.fault && !s.intr
  }

  class Kernel {
    var cur: Tid
    var ready: seq<Tid>
    var all: seq<Tid>
    var tcb: map<Tid, Tcb>
    var total: nat
    var locks: map<Lid, Lock>
    var ctl: map<Tid, Ctl>
    const flags: Eflags
    var fault: Fault

    function View(): State
      reads this, flags
    {
      State(Sched(cur, ready, all, tcb, total), locks, ctl, flags.on, fault)
    }

    /** thread_init(), lock_init() for every lock. */
    constructor (main: Tid, lids: set<Lid>)
      ensures View() == Initial(main, lids) && Safe(View()) && fresh(flags)
    {
      cur := main;
      ready := [];
      all := [main];
      tcb := map[main := Tcb(Running, 8, 0, 0)];
      total := 0;
      locks := map l | l in lids :: Lock(1, [], None, 0);
      ctl := map[main := Ctl(Client, Active, false, map[])];
      flags := new Eflags(false);
      fault := NoFault;
      new;
      InitialIsSafe(main, lids);
    }

    /** panic_spin(). */
    method Panic(f: Fault)
      modifies flags, this`fault
      ensures View() == Fail(old(View()), f)
    {
      var _ := flags.IntrDisable();
      fault := f;
    }

    /** schedule(), second half: pop the first ready thread and switch to it. */
    method SwitchToFirst(frame: Frame)
      requires PointersValid(View().sched) && cur in ctl && fault == NoFault && !flags.on
      modifies this`cur, this`ready, this`tcb, this`ctl, flags, this`fault
      ensures Alike(View(), Leave(old(View()), frame, SwitchToNext(old(View().sched))))
    {
      if ready == [] {
        Panic(ThreadC(117));
        return;
      }
      var next := ready[0];
      ready := ready[1..];
      tcb := tcb[next := tcb[next].(status := Running)];
      ctl := ctl[cur := ctl[cur].(frame := frame)];
      cur := next;
    }

    /** schedule(), up to and including the switch; `frame` is what the caller leaves on the stack. */
    method Schedule(frame: Frame)
      requires PointersValid(View().sched) && cur in ctl && fault == NoFault
      modifies this`cur, this`ready, this`tcb, this`ctl, flags, this`fault
      ensures Alike(View(), Leave(old(View()), frame, Scheduler.Schedule(old(View().sched))))
    {
      hide SwitchToNext;
      if flags.on {
        Panic(ThreadC(102));
        return;
      }
      if tcb[cur].status == Running {
        if cur in ready {
          Panic(ThreadC(107));
          return;
        }
        ready := ready + [cur];
        tcb := tcb[cur := tcb[cur].(ticks := tcb[cur].priority, status := Ready)];
      }
      SwitchToFirst(frame);
    }

    /** thread_block(stat), up to the switch. */
    method ThreadBlock(stat: Status, frame: Frame)
      requires PointersValid(View().sched) && cur in ctl && fault == NoFault
      modifies this`cur, this`ready, this`tcb, this`ctl, flags, this`fault
      ensures Alike(View(), Leave(old(View()).(intr := false), frame, BlockCurrent(old(View().sched), stat)))
    {
      hide Scheduler.Schedule;
      if stat != Blocked && stat != Waiting && stat != Hanging {
        Panic(ThreadC(130));
        return;
      }
      var _ := flags.IntrDisable();
      tcb := tcb[cur := tcb[cur].(status := stat)];
      Schedule(frame);
    }

    /** thread_unblock(t). */
    method ThreadUnblock(t: Tid)
      requires t in tcb && fault == NoFault
      modifies this`ready, this`tcb, flags, this`fault
      ensures match Unblock(old(View().sched), t)
              case Halt(line) => fault == ThreadC(line) && !flags.on
              case Go(sc) => View() == old(View()).(sched := sc)
    {
      var was := flags.IntrDisable();
      if tcb[t].status != Blocked && tcb[t].status != Waiting && tcb[t].status != Hanging {
        Panic(ThreadC(141));
        return;
      }
      if t in ready {
        Panic(ThreadC(144));
        return;
      }
      ready := [t] + ready;
      tcb := tcb[t := tcb[t].(status := Ready)];
      var _ := flags.IntrSetStatus(was);
    }

    /** thread_start(): the new control block joins both lists. */
    method ThreadStart(t: Tid, prio: nat)
      requires fault == NoFault
      modifies this`ready, this`all, this`tcb, this`ctl, flags, this`fault
      ensures match StartThread(old(View().sched), t, prio)
              case Halt(line) => fault == ThreadC(line) && !flags.on
              case Go(sc) => View() == old(View()).(sched := sc, ctl := old(ctl)[t := Ctl(Client, Fresh, true, map[])])
    {
      if t in ready {
        Panic(ThreadC(78));
        return;
      }
      tcb := tcb[t := Tcb(Ready, prio % 256, 0, 0)];
      ctl := ctl[t := Ctl(Client, Fresh, true, map[])];
      ready := ready + [t];
      all := all + [t];
    }

    /** intr_timer_handler(), entered through an interrupt gate and left by iretd. */
    method TimerHandler()
      requires Typed(View()) && fault == NoFault && flags.on
      modifies this, flags
      ensures Alike(View(), TimerStep(old(View())))
    {
      hide Scheduler.Schedule, Wrap;
      flags.on := false;
      tcb := tcb[cur := tcb[cur].(elapsed := Wrap(tcb[cur].elapsed + 1))];
      total := Wrap(total + 1);
      if tcb[cur].ticks == 0 {
        Schedule(Preempted);
      } else {
        tcb := tcb[cur := tcb[cur].(ticks := tcb[cur].ticks - 1)];
        flags.on := true;
      }
    }

    /** The loop of sema_down, once around; `saved` is its old_status. Interrupts are off. */
    method DownLoopOnce(l: Lid, saved: bool)
      requires Typed(View()) && fault == NoFault && l in locks && !flags.on
      modifies this, flags
      ensures Alike(View(), DownLoop(old(View()), l, saved))
    {
      var t := cur;
      if locks[l].value == 0 {
        if t in locks[l].waiters {
          Panic(SyncC(26));
          return;
        }
        locks := locks[l := locks[l].(waiters := locks[l].waiters + [t])];
        ThreadBlock(Blocked, InSema(saved));
      } else {
        locks := locks[l := locks[l].(value := locks[l].value - 1)];
        if locks[l].value != 0 {
          Panic(SyncC(31));
          return;
        }
        var _ := flags.IntrSetStatus(saved);
        ctl := ctl[t := ctl[t].(pc := AcqOwn(l), frame := Active)];
      }
    }

    /** sema_up(l). */
    method SemaUp(l: Lid)
      requires Typed(View()) && fault == NoFault && l in locks
      modifies this, flags
      ensures Alike(View(), Machine.SemaUp(old(View()), l))
    {
      hide Unblock, Released;
      var was := flags.IntrDisable();
      if locks[l].value != 0 {
        Panic(SyncC(38));
        return;
      }
      if locks[l].waiters != [] {
        var w := locks[l].waiters[0];
        locks := locks[l := locks[l].(waiters := locks[l].waiters[1..])];
        ThreadUnblock(w);
        if fault != NoFault { return; }
      }
      locks := locks[l := locks[l].(value := locks[l].value + 1)];
      assert locks[l].value == 1;  // the ASSERT of sync.c:46 cannot fail here
      var _ := flags.IntrSetStatus(was);
      ctl := ctl[cur := Released(ctl[cur], l)];
    }

    /** The current thread goes on at `pc`. */
    method Goto(pc: Pc)
      requires cur in ctl
      modifies this`ctl
      ensures ctl == old(ctl)[cur := old(ctl)[cur].(pc := pc)]
    {
      ctl := ctl[cur := ctl[cur].(pc := pc)];
    }

    method SetHolder(l: Lid, holder: Option<Tid>)
      requires l in locks
      modifies this`locks
      ensures locks == old(locks)[l := old(locks)[l].(holder := holder)]
    {
      locks := locks[l := locks[l].(holder := holder)];
    }

    method SetRepeat(l: Lid, repeat: nat)
      requires l in locks
      modifies this`locks
      ensures locks == old(locks)[l := old(locks)[l].(repeat := repeat)]
    {
      locks := locks[l := locks[l].(repeat := repeat)];
    }

    /** The statements of lock_acquire other than sema_down. */
    method AcquireStatement()
      requires Typed(View()) && fault == NoFault
      requires ctl[cur].pc.AcqTest? || ctl[cur].pc.AcqNest? || ctl[cur].pc.AcqOwn? || ctl[cur].pc.AcqAssert? || ctl[cur].pc.AcqCount?
      modifies this, flags
      ensures Alike(View(), ExecStep(old(View())))
    {
      hide Wrap, DownLoop, Machine.SemaUp;
      var l := ctl[cur].pc.l;
      match ctl[cur].pc
      case AcqTest(_) =>
        if locks[l].holder != Some(cur) { Goto(AcqDown(l)); } else { Goto(AcqNest(l)); }
      case AcqNest(_) =>
        SetRepeat(l, Wrap(locks[l].repeat + 1));
        ctl := ctl[cur := Acquired(ctl[cur], l)];
      case AcqOwn(_) =>
        SetHolder(l, Some(cur));
        Goto(AcqAssert(l));
      case AcqAssert(_) =>
        if locks[l].repeat != 0 { Panic(SyncC(57)); } else { Goto(AcqCount(l)); }
      case AcqCount(_) =>
        SetRepeat(l, 1);
        ctl := ctl[cur := Acquired(ctl[cur], l)];
    }

    /** lock_release, up to the decrement of a nested lock. */
    method ReleaseNested()
      requires Typed(View()) && fault == NoFault
      requires ctl[cur].pc.RelAssert? || ctl[cur].pc.RelTest? || ctl[cur].pc.RelDec?
      modifies this, flags
      ensures Alike(View(), ExecStep(old(View())))
    {
      hide Wrap, DownLoop, Machine.SemaUp;
      var l := ctl[cur].pc.l;
      match ctl[cur].pc
      case RelAssert(_) =>
        if locks[l].holder != Some(cur) { Panic(SyncC(68)); } else { Goto(RelTest(l)); }
      case RelTest(_) =>
        if locks[l].repeat > 1 { Goto(RelDec(l)); } else { Goto(RelLast(l)); }
      case RelDec(_) =>
        SetRepeat(l, if locks[l].repeat == 0 then 0xffff_ffff else locks[l].repeat - 1);
        ctl := ctl[cur := Released(ctl[cur], l)];
    }

    /** lock_release of the last hold, up to sema_up. */
    method ReleaseFinal()
      requires Typed(View()) && fault == NoFault
      requires ctl[cur].pc.RelLast? || ctl[cur].pc.RelClear? || ctl[cur].pc.RelZero?
      modifies this, flags
      ensures Alike(View(), ExecStep(old(View())))
    {
      hide Wrap, DownLoop, Machine.SemaUp;
      var l := ctl[cur].pc.l;
      match ctl[cur].pc
      case RelLast(_) =>
        if locks[l].repeat != 1 { Panic(SyncC(74)); } else { Goto(RelClear(l)); }
      case RelClear(_) =>
        SetHolder(l, None);
        Goto(RelZero(l));
      case RelZero(_) =>
        SetRepeat(l, 0);
        Goto(RelUp(l));
    }

    /** The statements of lock_release other than sema_up. */
    method ReleaseStatement()
      requires Typed(View()) && fault == NoFault
      requires var pc := ctl[cur].pc; pc.RelAssert? || pc.RelTest? || pc.RelDec? || pc.RelLast? || pc.RelClear? || pc.RelZero?
      modifies this, flags
      ensures Alike(View(), ExecStep(old(View())))
    {
      hide ExecStep;
      var pc := ctl[cur].pc;
      if pc.RelLast? || pc.RelClear? || pc.RelZero? { ReleaseFinal(); } else { ReleaseNested(); }
    }

    /** The statement of lock_acquire or lock_release that the current thread has reached. */
    method LockStatement()
      requires Typed(View()) && fault == NoFault && HasLock(ctl[cur].pc)
      modifies this, flags
      ensures Alike(View(), ExecStep(old(View())))
    {
      hide Statement;
      var pc := ctl[cur].pc;
      if pc.AcqDown? {
        var was := flags.IntrDisable();
        DownLoopOnce(pc.l, was);
      } else if pc.RelUp? {
        SemaUp(pc.l);
      } else if pc.AcqTest? || pc.AcqNest? || pc.AcqOwn? || pc.AcqAssert? || pc.AcqCount? {
        AcquireStatement();
      } else {
        ReleaseStatement();
      }
    }

    /** The current thread comes back from switch_to. */
    method ComeBack()
      requires Typed(View()) && fault == NoFault && ctl[cur].frame != Active && !flags.on
      modifies this, flags
      ensures Alike(View(), ResumeStep(old(View())))
    {
      var c := ctl[cur];
      if c.frame.InSema? {
        DownLoopOnce(c.pc.l, c.frame.saved);
      } else if c.frame.InBlock? {
        ctl := ctl[cur := c.(frame := Active)];
        var _ := flags.IntrSetStatus(c.frame.saved);
      } else {
        ctl := ctl[cur := c.(frame := Active)];
        flags.on := true;
      }
    }

    /** One step of the running kernel keeps it safe: no ASSERT fails but the one on an empty ready list. */
    method Advance(a: Action)
      requires fault == NoFault && Safe(View())
      requires Typed(View()) && Enabled(View(), a) && Disciplined(View(), a)
      modifies this, flags
      ensures Alike(View(), Step(old(View()), a))
      ensures fault == NoFault ==> Safe(View())
      ensures fault != NoFault ==> fault == ThreadC(117) && old(ready) == [] && MustWait(old(View()), a)
    {
      hide Safe, TimerStep, ResumeStep, ExecStep, BlockCurrent, Unblock, StartThread, Leave, MustWait, Disciplined;
      StepKeepsInv(View(), a);
      ActiveFlag(View());
      match a
      case Timer => TimerHandler();
      case Resume => ComeBack();
      case Exec => LockStatement();
      case CallAcquire(l) => ctl := ctl[cur := ctl[cur].(pc := AcqTest(l))];
      case CallRelease(l) => ctl := ctl[cur := ctl[cur].(pc := RelAssert(l))];
      case SetIntr(on) =>
        ctl := ctl[cur := ctl[cur].(own := on)];
        var _ := flags.IntrSetStatus(on);
      case Block(stat) =>
        var was := flags.on;
        ThreadBlock(stat, InBlock(was));
      case Wake(t) => ThreadUnblock(t);
      case Start(t, prio) => ThreadStart(t, prio);
    }
  }
}
