/**
 The kernel as a machine of atomic steps over any number of threads and locks:
 thread/sync.c and thread/thread.c, with the interrupt flag of
 kernel/interrupt.c and the timer of device/timer.c.

 One step is one C statement that runs with interrupts possibly on, or one whole
 stretch of code between intr_disable and either intr_set_status or the switch to
 another thread. A timer interrupt can come between any two steps while the
 interrupt flag is set.
 */
module Machine {
  import opened Options
  import opened Scheduler

  type Lid = nat

  /** struct lock with its semaphore: the repeat count is a uint32_t. */
  datatype Lock = Lock(value: nat, waiters: seq<Tid>, holder: Option<Tid>, repeat: nat)

  /** Where a thread is inside lock_acquire and lock_release; Client is anywhere else. */
  datatype Pc =
    | Client
    | AcqTest(l: Lid)    // sync.c:52  holder != running_thread()
    | AcqNest(l: Lid)    // sync.c:62  holder_repeat_nr++
    | AcqDown(l: Lid)    // sync.c:55  sema_down
    | AcqOwn(l: Lid)     // sync.c:56  holder = running_thread()
    | AcqAssert(l: Lid)  // sync.c:57
    | AcqCount(l: Lid)   // sync.c:58  holder_repeat_nr = 1
    | RelAssert(l: Lid)  // sync.c:68
    | RelTest(l: Lid)    // sync.c:69  holder_repeat_nr > 1
    | RelDec(l: Lid)     // sync.c:71  holder_repeat_nr--
    | RelLast(l: Lid)    // sync.c:74
    | RelClear(l: Lid)   // sync.c:75  holder = NULL
    | RelZero(l: Lid)    // sync.c:76  holder_repeat_nr = 0
    | RelUp(l: Lid)      // sync.c:77  sema_up

  /**
   What lies on top of a thread's kernel stack. Only the current thread can be
   Active; the others sit in switch_to, below the timer handler, below
   thread_block (called by sema_down or by client code), or have never run.
   `saved` is the old_status that the caller of schedule will restore.
   */
  datatype Frame = Active | Preempted | InSema(saved: bool) | InBlock(saved: bool) | Fresh

  /**
   A thread's control state. `own` is the interrupt flag as the thread's own code
   last set it; `depth` counts, per lock, the thread's lock_acquire calls that
   have returned minus its lock_release calls that have returned.
   */
  datatype Ctl = Ctl(pc: Pc, frame: Frame, own: bool, depth: map<Lid, nat>) {
    function Depth(l: Lid): nat { if l in depth then depth[l] else 0 }
  }

  /** The ASSERT in which the kernel has halted, if it has. */
  datatype Fault = NoFault | ThreadC(line: nat) | SyncC(line: nat)

  datatype State = State(sched: Sched, locks: map<Lid, Lock>, ctl: map<Tid, Ctl>, intr: bool, fault: Fault) {
    function Cur(): Tid { sched.cur }
  }

  predicate HasLock(pc: Pc) { pc != Client }

  /** Every pointer in use is valid. */
  ghost predicate Typed(s: State) {
    && PointersValid(s.sched)
    && s.ctl.Keys == s.sched.tcb.Keys
    && (forall t :: t in s.ctl && HasLock(s.ctl[t].pc) ==> s.ctl[t].pc.l in s.locks)
    && (forall l, t :: l in s.locks && t in s.locks[l].waiters ==> t in s.sched.tcb)
    && (forall t :: t in s.ctl && s.ctl[t].frame.InSema? ==> s.ctl[t].pc.AcqDown?)
  }

  /** ASSERT failed: panic_spin turns interrupts off and spins. */
  function Fail(s: State, f: Fault): State { s.(intr := false, fault := f) }

  function SetCtl(s: State, c: Ctl): State { s.(ctl := s.ctl[s.Cur() := c]) }

  /** schedule() as its callers see it: the current thread is left with `frame` on its stack. */
  function Leave(s: State, frame: Frame, o: Outcome): State
    requires s.Cur() in s.ctl
  {
    if s.intr then Fail(s, ThreadC(102))
    else match o
      case Halt(line) => Fail(s, ThreadC(line))
      case Go(sc) => SetCtl(s, s.ctl[s.Cur()].(frame := frame)).(sched := sc)
  }

  /** A timer interrupt: the gate clears the flag, iretd sets it again. */
  function TimerStep(s: State): State
    requires Typed(s)
  {
    var o := TimerTick(s.sched);
    if s.sched.tcb[s.Cur()].ticks == 0 then Leave(s.(intr := false), Preempted, o)
    else s.(sched := o.s)
  }

  /** The loop of sema_down, entered with interrupts off; `saved` is its old_status. */
  function DownLoop(s: State, l: Lid, saved: bool): State
    requires Typed(s) && l in s.locks
  {
    var lk := s.locks[l];
    var t := s.Cur();
    if lk.value == 0 then
      if t in lk.waiters then Fail(s, SyncC(26))
      else Leave(s.(locks := s.locks[l := lk.(waiters := lk.waiters + [t])]), InSema(saved), BlockCurrent(s.sched, Blocked))
    else if lk.value != 1 then Fail(s, SyncC(31))
    else SetCtl(s, s.ctl[t].(pc := AcqOwn(l), frame := Active)).(locks := s.locks[l := lk.(value := 0)], intr := saved)
  }

  /** The current thread comes back from switch_to and goes on until its next step or switch. */
  function ResumeStep(s: State): State
    requires Typed(s)
  {
    var c := s.ctl[s.Cur()];
    match c.frame
    case Active => s
    case Preempted => SetCtl(s, c.(frame := Active)).(intr := true)
    case Fresh => SetCtl(s, c.(frame := Active)).(intr := true)
    case InBlock(saved) => SetCtl(s, c.(frame := Active)).(intr := saved)
    case InSema(saved) => DownLoop(s, c.pc.l, saved)
  }

  /** lock_acquire returns. */
  function Acquired(c: Ctl, l: Lid): Ctl { c.(pc := Client, depth := c.depth[l := c.Depth(l) + 1]) }

  /** lock_release returns. */
  function Released(c: Ctl, l: Lid): Ctl {
    c.(pc := Client, depth := c.depth[l := if c.Depth(l) > 0 then c.Depth(l) - 1 else 0])
  }

  /** sema_up(), which never switches: interrupts are off from start to end. */
  function SemaUp(s: State, l: Lid): State
    requires Typed(s) && l in s.locks
  {
    var lk := s.locks[l];
    var c := Released(s.ctl[s.Cur()], l);
    if lk.value != 0 then Fail(s, SyncC(38))
    else if lk.waiters == [] then SetCtl(s, c).(locks := s.locks[l := lk.(value := 1)])
    else match Unblock(s.sched, lk.waiters[0])
      case Halt(line) => Fail(s, ThreadC(line))
      case Go(sc) => SetCtl(s, c).(sched := sc, locks := s.locks[l := lk.(value := 1, waiters := lk.waiters[1..])])
  }

  /** The effect of one statement on the running thread's control state and the lock, or the line of its ASSERT. */
  datatype Effect = Next(c: Ctl, lk: Lock) | Bad(line: nat)

  /** The statements of lock_acquire and lock_release other than the two semaphore calls. */
  function Statement(t: Tid, c: Ctl, lk: Lock): Effect
    requires HasLock(c.pc) && !c.pc.AcqDown? && !c.pc.RelUp?
  {
    var l := c.pc.l;
    match c.pc
    case AcqTest(_) => Next(c.(pc := if lk.holder == Some(t) then AcqNest(l) else AcqDown(l)), lk)
    case AcqNest(_) => Next(Acquired(c, l), lk.(repeat := Wrap(lk.repeat + 1)))
    case AcqOwn(_) => Next(c.(pc := AcqAssert(l)), lk.(holder := Some(t)))
    case AcqAssert(_) => if lk.repeat != 0 then Bad(57) else Next(c.(pc := AcqCount(l)), lk)
    case AcqCount(_) => Next(Acquired(c, l), lk.(repeat := 1))
    case RelAssert(_) => if lk.holder != Some(t) then Bad(68) else Next(c.(pc := RelTest(l)), lk)
    case RelTest(_) => Next(c.(pc := if lk.repeat > 1 then RelDec(l) else RelLast(l)), lk)
    case RelDec(_) => Next(Released(c, l), lk.(repeat := if lk.repeat > 0 then lk.repeat - 1 else 0xffff_ffff))
    case RelLast(_) => if lk.repeat != 1 then Bad(74) else Next(c.(pc := RelClear(l)), lk)
    case RelClear(_) => Next(c.(pc := RelZero(l)), lk.(holder := None))
    case RelZero(_) => Next(c.(pc := RelUp(l)), lk.(repeat := 0))
  }

  /** The next statement of lock_acquire or lock_release of the current thread. */
  function ExecStep(s: State): State
    requires Typed(s) && HasLock(s.ctl[s.Cur()].pc)
  {
    var c := s.ctl[s.Cur()];
    var l := c.pc.l;
    if c.pc.AcqDown? then DownLoop(s.(intr := false), l, s.intr)
    else if c.pc.RelUp? then SemaUp(s, l)
    else match Statement(s.Cur(), c, s.locks[l])
      case Bad(line) => Fail(s, SyncC(line))
      case Next(c', lk') => SetCtl(s, c').(locks := s.locks[l := lk'])
  }

  /** What can happen next: hardware, the kernel going on, or client code calling into it. */
  datatype Action =
    | Timer
    | Resume
    | Exec
    | CallAcquire(l: Lid)
    | CallRelease(l: Lid)
    | SetIntr(on: bool)
    | Block(stat: Status)
    | Wake(t: Tid)
    | Start(t: Tid, prio: nat)

  /** When the machine can take a step; thread_start is called with interrupts off (main.c:20-23). */
  ghost predicate Enabled(s: State, a: Action)
    requires Typed(s)
  {
    var c := s.ctl[s.Cur()];
    && s.fault == NoFault
    && match a
       case Timer => s.intr
       case Resume => c.frame != Active
       case Exec => c.frame == Active && HasLock(c.pc)
       case CallAcquire(l) => c.frame == Active && c.pc == Client && l in s.locks
       case CallRelease(l) => c.frame == Active && c.pc == Client && l in s.locks
       case SetIntr(_) => c.frame == Active && c.pc == Client
       case Block(_) => c.frame == Active && c.pc == Client
       case Wake(t) => c.frame == Active && c.pc == Client && t in s.sched.tcb
       case Start(t, _) => c.frame == Active && c.pc == Client && !s.intr && t !in s.sched.tcb
  }

  /** A thread that client code put to sleep with thread_block, outside any semaphore. */
  predicate Asleep(s: State, t: Tid) {
    t in s.ctl && t in s.sched.tcb && s.ctl[t].frame.InBlock? && s.sched.tcb[t].status in {Blocked, Waiting, Hanging}
  }

  /**
   What the kernel demands of its callers: release only a lock you hold, do not
   nest deeper than the 32-bit count, block with a blocked status, and wake only
   threads that went to sleep by thread_block.
   */
  ghost predicate Disciplined(s: State, a: Action)
    requires Typed(s)
  {
    var c := s.ctl[s.Cur()];
    match a
    case CallAcquire(l) => c.Depth(l) < 0xffff_ffff
    case CallRelease(l) => c.Depth(l) > 0
    case Block(stat) => stat in {Blocked, Waiting, Hanging}
    case Wake(t) => Asleep(s, t)
    case _ => true
  }

  function Step(s: State, a: Action): State
    requires Typed(s) && Enabled(s, a)
  {
    var c := s.ctl[s.Cur()];
    match a
    case Timer => TimerStep(s)
    case Resume => ResumeStep(s)
    case Exec => ExecStep(s)
    case CallAcquire(l) => SetCtl(s, c.(pc := AcqTest(l)))
    case CallRelease(l) => SetCtl(s, c.(pc := RelAssert(l)))
    case SetIntr(on) => SetCtl(s, c.(own := on)).(intr := on)
    case Block(stat) => Leave(s.(intr := false), InBlock(s.intr), BlockCurrent(s.sched, stat))
    case Wake(t) =>
      (match Unblock(s.sched, t)
       case Halt(line) => Fail(s, ThreadC(line))
       case Go(sc) => s.(sched := sc))
    case Start(t, prio) =>
      match StartThread(s.sched, t, prio)
      case Halt(line) => Fail(s, ThreadC(line))
      case Go(sc) => s.(sched := sc, ctl := s.ctl[t := Ctl(Client, Fresh, true, map[])])
  }

  /** After thread_init and lock_init: only main exists and interrupts are off. */
  function Initial(main: Tid, lids: set<Lid>): State {
    State(InitialSched(main), map l | l in lids :: Lock(1, [], None, 0),
          map[main := Ctl(Client, Active, false, map[])], false, NoFault)
  }
}
