/**
 The two steps of palloc as client code on the kernel machine, under the timer and the scheduler: what the
 callers have to do so that no two threads get one frame. Either every caller has interrupts off when it
 scans, or every caller holds the lock of the pool.
 */
module PallocGuard {
  import opened Scheduler
  import opened Machine
  import opened Invariants
  import Runs
  import opened Holding
  import opened Options
  import M = Memory
  import R = PallocRace

  datatype Policy = IntrOff | LockHeld(l: Lid) | Unguarded

  datatype World = World(s: State, race: R.Race) {
    function Cur(): Tid { s.Cur() }
  }

  /** A step of the kernel or of other client code, or a step of palloc by the current thread. */
  datatype Event = Kernel(a: Action) | Palloc(turn: R.Turn)

  /** The current thread's own code makes a call or changes the flag. */
  predicate OwnCall(a: Action) { !a.Timer? && !a.Resume? && !a.Exec? }

  /** What the policy asks for when palloc scans the bitmap. */
  predicate Guarded(p: Policy, s: State) {
    match p
    case IntrOff => !s.intr
    case LockHeld(l) => l in s.locks && Holds(s, s.Cur(), l)
    case Unguarded => true
  }

  /** Between its scan and its mark palloc makes no calls and leaves the interrupt flag alone. */
  ghost predicate Legal(p: Policy, w: World, e: Event) {
    && Typed(w.s) && w.s.fault == NoFault
    && match e
       case Kernel(a) => Enabled(w.s, a) && Disciplined(w.s, a) && (OwnCall(a) ==> w.Cur() !in w.race.seen)
       case Palloc(a) =>
         && a.t == w.Cur() && w.s.ctl[w.Cur()].frame == Active && w.s.ctl[w.Cur()].pc == Client
         && R.CanTake(w.race, a) && (a.Scan? ==> Guarded(p, w.s))
  }

  ghost function Next(p: Policy, w: World, e: Event): World
    requires Legal(p, w, e)
  {
    match e
    case Kernel(a) => w.(s := Step(w.s, a))
    case Palloc(a) => w.(race := R.Take(w.race, a))
  }

  /** A thread between its scan and its mark is still guarded. */
  predicate PendingOk(p: Policy, s: State, t: Tid) {
    match p
    case IntrOff => t == s.Cur() && t in s.ctl && s.ctl[t].frame == Active && s.ctl[t].pc == Client && !s.intr
    case LockHeld(l) => l in s.locks && Holds(s, t, l)
    case Unguarded => false
  }

  ghost predicate GuardInv(p: Policy, w: World) {
    && !p.Unguarded?
    && Inv(w.s) && R.Tidy(w.race)
    && (w.s.fault == NoFault ==> forall t :: t in w.race.seen ==> PendingOk(p, w.s, t))
  }

  /** While a thread is under way with interrupts off, nothing but its mark can happen. */
  lemma KernelWaits(w: World, a: Action, t: Tid)
    requires Legal(IntrOff, w, Kernel(a)) && PendingOk(IntrOff, w.s, t)
    ensures t !in w.race.seen
  {
  }

  /** A holder that makes no call of its own does not release. */
  lemma PendingStays(p: Policy, w: World, a: Action, t: Tid)
    requires Safe(w.s) && Legal(p, w, Kernel(a)) && t in w.race.seen && PendingOk(p, w.s, t) && Step(w.s, a).fault == NoFault
    ensures PendingOk(p, Step(w.s, a), t)
  {
    hide Safe, Step, Holds, Enabled, Disciplined, Typed;
    match p
    case IntrOff => KernelWaits(w, a, t);
    case LockHeld(l) =>
      StepKeepsHold(w.s, a, t, l);
      LocksStay(w.s, a, l);
    case _ =>
  }

  lemma KernelKeepsGuard(p: Policy, w: World, a: Action)
    requires GuardInv(p, w) && Legal(p, w, Kernel(a))
    ensures GuardInv(p, Next(p, w, Kernel(a)))
  {
    hide Safe, Step, Enabled, Disciplined, Typed, PendingOk, R.Tidy;
    Runs.StepKeepsInv(w.s, a);
    if Step(w.s, a).fault == NoFault {
      forall t | t in w.race.seen ensures PendingOk(p, Step(w.s, a), t) { PendingStays(p, w, a, t); }
    }
  }

  /** Nobody else is under way when palloc scans. */
  lemma ScanIsAlone(p: Policy, w: World, a: R.Turn)
    requires GuardInv(p, w) && Legal(p, w, Palloc(a)) && a.Scan?
    ensures w.race.seen == map[]
  {
    hide Safe, Typed, R.Tidy, Holds;
    forall t | t in w.race.seen ensures false {
      assert PendingOk(p, w.s, t);
      if p.LockHeld? {
        HeldIsDown(w.s, t, p.l);
        HolderOwns(w.s, w.Cur(), p.l);
      }
    }
  }

  lemma HolderOwns(s: State, t: Tid, l: Lid)
    requires Holds(s, t, l)
    ensures Owns(s, t, l)
  {
  }

  lemma CurrentHasControl(s: State)
    requires Typed(s)
    ensures s.Cur() in s.ctl
  {
  }

  lemma PallocKeepsGuard(p: Policy, w: World, a: R.Turn)
    requires GuardInv(p, w) && Legal(p, w, Palloc(a))
    ensures GuardInv(p, Next(p, w, Palloc(a)))
  {
    hide Safe, Typed, R.Tidy, Holds, M.Find;
    if a.Scan? { ScanIsAlone(p, w, a); }
    R.TurnKeepsTidy(w.race, a);
    var w' := Next(p, w, Palloc(a));
    CurrentHasControl(w.s);
    forall t | t in w'.race.seen ensures PendingOk(p, w'.s, t) {
      if t in w.race.seen { assert PendingOk(p, w.s, t); } else { assert t == w.Cur() && Guarded(p, w.s); }
    }
  }

  ghost predicate Run(p: Policy, w: World, es: seq<Event>)
    decreases |es|
  {
    es == [] || (Legal(p, w, es[0]) && Run(p, Next(p, w, es[0]), es[1..]))
  }

  ghost function After(p: Policy, w: World, es: seq<Event>): World
    requires Run(p, w, es)
    decreases |es|
  {
    if es == [] then w else After(p, Next(p, w, es[0]), es[1..])
  }

  lemma {:induction false} RunKeepsGuard(p: Policy, w: World, es: seq<Event>)
    requires GuardInv(p, w) && Run(p, w, es)
    ensures GuardInv(p, After(p, w, es))
    decreases |es|
  {
    hide GuardInv, Legal, Next;
    if es != [] {
      match es[0] {
        case Kernel(a) => KernelKeepsGuard(p, w, a);
        case Palloc(a) => PallocKeepsGuard(p, w, a);
      }
      RunKeepsGuard(p, Next(p, w, es[0]), es[1..]);
    }
  }

  /**
   Over every interleaving of any number of threads, from boot: if every caller of palloc has interrupts off, or
   every caller holds the pool's lock, the frames handed out are pairwise distinct.
   */
  lemma GuardedFramesAreDistinct(p: Policy, main: Tid, lids: set<Lid>, used: seq<bool>, es: seq<Event>)
    requires !p.Unguarded? && Run(p, World(Initial(main, lids), R.Race(used, map[], [])), es)
    ensures R.Distinct(After(p, World(Initial(main, lids), R.Race(used, map[], [])), es).race.got)
  {
    hide Safe, Run, After, Legal;
    InitialIsSafe(main, lids);
    RunKeepsGuard(p, World(Initial(main, lids), R.Race(used, map[], [])), es);
  }

  // ----- without a guard

  /** Main and one other thread, with interrupts possibly on. */
  function Two(cur: Tid, ready: seq<Tid>, t0: Tcb, t1: Tcb, total: nat, f0: Frame, f1: Frame, intr: bool): State {
    State(Sched(cur, ready, [0, 1], map[0 := t0, 1 := t1], total), map[],
          map[0 := Ctl(Client, f0, true, map[]), 1 := Ctl(Client, f1, true, map[])], intr, NoFault)
  }

  /** The scheduling part of a timer interrupt at the end of a slice. */
  lemma LastTick(sc: Sched, other: Tid)
    requires sc.cur in sc.tcb && other in sc.tcb && other != sc.cur && sc.ready == [other] && sc.total < 10
    requires var c := sc.tcb[sc.cur]; c.status == Running && c.ticks == 0 && c.elapsed < 10
    ensures PointersValid(sc)
    ensures var c := sc.tcb[sc.cur];
            TimerTick(sc) == Go(sc.(cur := other, ready := [sc.cur], total := sc.total + 1,
                                    tcb := sc.tcb[sc.cur := c.(elapsed := c.elapsed + 1)][sc.cur := c.(elapsed := c.elapsed + 1, status := Ready, ticks := c.priority)]
                                           [other := sc.tcb[other].(status := Running)]))
  {
    assert ([other] + [sc.cur])[1..] == [sc.cur];
  }

  lemma TwoTyped(cur: Tid, ready: seq<Tid>, t0: Tcb, t1: Tcb, total: nat, f0: Frame, f1: Frame, intr: bool)
    requires cur in {0, 1} && (forall t <- ready :: t in {0, 1}) && !f0.InSema? && !f1.InSema?
    ensures Typed(Two(cur, ready, t0, t1, total, f0, f1, intr))
  {
  }

  /** The timer interrupts main at the end of its slice, and the other thread runs. */
  lemma TimerFromMain(f1: Frame)
    requires f1 in {Fresh, Preempted}
    ensures var s := Two(0, [1], Tcb(Running, 8, 0, 0), Tcb(Ready, 31, 0, 0), 0, Active, f1, true);
            && Typed(s) && Enabled(s, Timer)
            && Step(s, Timer) == Two(1, [0], Tcb(Ready, 8, 8, 1), Tcb(Running, 31, 0, 0), 1, Preempted, f1, false)
  {
    hide TimerTick, Typed;
    var t0, t1 := Tcb(Running, 8, 0, 0), Tcb(Ready, 31, 0, 0);
    var s := Two(0, [1], t0, t1, 0, Active, f1, true);
    TwoTyped(0, [1], t0, t1, 0, Active, f1, true);
    LastTick(s.sched, 1);
    var s' := Step(s, Timer);
    assert s'.sched.tcb == map[0 := Tcb(Ready, 8, 8, 1), 1 := Tcb(Running, 31, 0, 0)];
    assert s'.ctl == map[0 := Ctl(Client, Preempted, true, map[]), 1 := Ctl(Client, f1, true, map[])];
  }

  /** And back. */
  lemma TimerFromOther()
    ensures var s := Two(1, [0], Tcb(Ready, 8, 8, 1), Tcb(Running, 31, 0, 0), 1, Preempted, Active, true);
            && Typed(s) && Enabled(s, Timer)
            && Step(s, Timer) == Two(0, [1], Tcb(Running, 8, 8, 1), Tcb(Ready, 31, 31, 1), 2, Preempted, Preempted, false)
  {
    hide TimerTick, Typed;
    var t0, t1 := Tcb(Ready, 8, 8, 1), Tcb(Running, 31, 0, 0);
    var s := Two(1, [0], t0, t1, 1, Preempted, Active, true);
    TwoTyped(1, [0], t0, t1, 1, Preempted, Active, true);
    LastTick(s.sched, 0);
    var s' := Step(s, Timer);
    assert s'.sched.tcb == map[0 := Tcb(Running, 8, 8, 1), 1 := Tcb(Ready, 31, 31, 1)];
    assert s'.ctl == map[0 := Ctl(Client, Preempted, true, map[]), 1 := Ctl(Client, Preempted, true, map[])];
  }

  /** The thread that was switched to comes back from switch_to. */
  lemma ResumeTwo(cur: Tid, ready: seq<Tid>, t0: Tcb, t1: Tcb, total: nat, f0: Frame, f1: Frame)
    requires cur in {0, 1} && (forall t <- ready :: t in {0, 1}) && f0 in {Fresh, Preempted} && f1 in {Fresh, Preempted}
    ensures var s := Two(cur, ready, t0, t1, total, f0, f1, false);
            && Typed(s) && Enabled(s, Resume)
            && Step(s, Resume) == Two(cur, ready, t0, t1, total, if cur == 0 then Active else f0, if cur == 1 then Active else f1, true)
  {
    hide Typed;
    var s := Two(cur, ready, t0, t1, total, f0, f1, false);
    TwoTyped(cur, ready, t0, t1, total, f0, f1, false);
    assert Step(s, Resume).ctl == map[0 := Ctl(Client, if cur == 0 then Active else f0, true, map[]),
                                      1 := Ctl(Client, if cur == 1 then Active else f1, true, map[])];
  }

  /** The boot state after thread_start of thread 1 and sti. */
  lemma TwoFromBoot()
    ensures var s := Initial(0, {}); Typed(s) && Enabled(s, Start(1, 31)) && Disciplined(s, Start(1, 31))
    ensures var s := Step(Initial(0, {}), Start(1, 31));
            && Typed(s) && Enabled(s, SetIntr(true)) && Disciplined(s, SetIntr(true))
            && Step(s, SetIntr(true)) == Two(0, [1], Tcb(Running, 8, 0, 0), Tcb(Ready, 31, 0, 0), 0, Active, Fresh, true)
  {
    MainAlone();
    ThreadStarted();
  }

  lemma MainAlone()
    ensures var s := Initial(0, {}); Typed(s) && Enabled(s, Start(1, 31)) && Disciplined(s, Start(1, 31))
    ensures Step(Initial(0, {}), Start(1, 31)) == WithOther()
  {
    var s := Step(Initial(0, {}), Start(1, 31));
    assert s.sched == Sched(0, [1], [0, 1], map[0 := Tcb(Running, 8, 0, 0), 1 := Tcb(Ready, 31, 0, 0)], 0);
    assert s.locks == map[];
  }

  /** After thread_start, before sti. */
  function WithOther(): State {
    State(Sched(0, [1], [0, 1], map[0 := Tcb(Running, 8, 0, 0), 1 := Tcb(Ready, 31, 0, 0)], 0), map[],
          map[0 := Ctl(Client, Active, false, map[]), 1 := Ctl(Client, Fresh, true, map[])], false, NoFault)
  }

  lemma ThreadStarted()
    ensures var s := WithOther();
            && Typed(s) && Enabled(s, SetIntr(true)) && Disciplined(s, SetIntr(true))
            && Step(s, SetIntr(true)) == Two(0, [1], Tcb(Running, 8, 0, 0), Tcb(Ready, 31, 0, 0), 0, Active, Fresh, true)
  {
    assert Step(WithOther(), SetIntr(true)).ctl == map[0 := Ctl(Client, Active, true, map[]), 1 := Ctl(Client, Fresh, true, map[])];
  }

  /** One more event at the end of a run. */
  lemma {:induction false} OneMore(p: Policy, w: World, es: seq<Event>, e: Event)
    requires Run(p, w, es) && Legal(p, After(p, w, es), e)
    ensures Run(p, w, es + [e]) && After(p, w, es + [e]) == Next(p, After(p, w, es), e)
    decreases |es|
  {
    hide Legal, Next;
    if es == [] {
      assert es + [e] == [e] && [e][1..] == [];
      assert Run(p, Next(p, w, e), []) && After(p, Next(p, w, e), []) == Next(p, w, e);
    } else {
      assert (es + [e])[1..] == es[1..] + [e];
      OneMore(p, Next(p, w, es[0]), es[1..], e);
    }
  }

  /** A timer interrupt and the return from the switch; palloc is left where it is. */
  lemma SwitchInRun(w0: World, es: seq<Event>, s1: State, s2: State) returns (es': seq<Event>)
    requires Run(Unguarded, w0, es)
    requires var s := After(Unguarded, w0, es).s; Typed(s) && Enabled(s, Timer) && Step(s, Timer) == s1
    requires Typed(s1) && Enabled(s1, Resume) && Step(s1, Resume) == s2
    ensures Run(Unguarded, w0, es') && After(Unguarded, w0, es') == World(s2, After(Unguarded, w0, es).race)
  {
    hide Step, Enabled, Typed, Run, After;
    EnabledRuns(After(Unguarded, w0, es).s, Timer);
    EnabledRuns(s1, Resume);
    OneMore(Unguarded, w0, es, Kernel(Timer));
    es' := es + [Kernel(Timer)];
    OneMore(Unguarded, w0, es', Kernel(Resume));
    es' := es' + [Kernel(Resume)];
  }

  lemma EnabledRuns(s: State, a: Action)
    requires Typed(s) && Enabled(s, a)
    ensures s.fault == NoFault
  {
  }

  lemma PallocInRun(w0: World, es: seq<Event>, a: R.Turn)
    requires Run(Unguarded, w0, es)
    requires var w := After(Unguarded, w0, es);
             && Typed(w.s) && w.s.fault == NoFault && a.t == w.Cur() && w.s.ctl[w.Cur()].frame == Active && w.s.ctl[w.Cur()].pc == Client
             && R.CanTake(w.race, a)
    ensures Run(Unguarded, w0, es + [Palloc(a)])
    ensures After(Unguarded, w0, es + [Palloc(a)]) == World(After(Unguarded, w0, es).s, R.Take(After(Unguarded, w0, es).race, a))
  {
    hide Run, After, Typed;
    OneMore(Unguarded, w0, es, Palloc(a));
  }

  lemma StartInRun(w0: World) returns (es: seq<Event>)
    requires w0.s == Initial(0, {}) && w0.race.seen == map[]
    ensures Run(Unguarded, w0, es)
    ensures After(Unguarded, w0, es) == World(Two(0, [1], Tcb(Running, 8, 0, 0), Tcb(Ready, 31, 0, 0), 0, Active, Fresh, true), w0.race)
  {
    hide Step, Enabled, Typed, Disciplined;
    TwoFromBoot();
    EnabledRuns(Initial(0, {}), Start(1, 31));
    EnabledRuns(Step(Initial(0, {}), Start(1, 31)), SetIntr(true));
    OneMore(Unguarded, w0, [], Kernel(Start(1, 31)));
    OneMore(Unguarded, w0, [] + [Kernel(Start(1, 31))], Kernel(SetIntr(true)));
    es := [] + [Kernel(Start(1, 31))] + [Kernel(SetIntr(true))];
  }

  /**
   Without a guard two threads get one frame: main scans, the timer switches to the other thread, which
   scans and marks, and the timer switches back to main, which marks.
   */
  lemma UnguardedFramesClash(used: seq<bool>, k: nat) returns (es: seq<Event>)
    requires M.Find(used, 1) == Some(k)
    ensures var w := World(Initial(0, {}), R.Race(used, map[], [])); Run(Unguarded, w, es) && After(Unguarded, w, es).race.got == [k, k]
  {
    hide Step, Enabled, Typed, Disciplined, Run, After, M.Find, Initial;
    var w := World(Initial(0, {}), R.Race(used, map[], []));
    R.FoundInRange(used, k);
    var s1 := Two(1, [0], Tcb(Ready, 8, 8, 1), Tcb(Running, 31, 0, 0), 1, Preempted, Fresh, false);
    var s2 := Two(1, [0], Tcb(Ready, 8, 8, 1), Tcb(Running, 31, 0, 0), 1, Preempted, Active, true);
    var s3 := Two(0, [1], Tcb(Running, 8, 8, 1), Tcb(Ready, 31, 31, 1), 2, Preempted, Preempted, false);
    var s4 := Two(0, [1], Tcb(Running, 8, 8, 1), Tcb(Ready, 31, 31, 1), 2, Active, Preempted, true);
    TimerFromMain(Fresh);
    ResumeTwo(1, [0], Tcb(Ready, 8, 8, 1), Tcb(Running, 31, 0, 0), 1, Preempted, Fresh);
    TimerFromOther();
    ResumeTwo(0, [1], Tcb(Running, 8, 8, 1), Tcb(Ready, 31, 31, 1), 2, Preempted, Preempted);
    TwoTyped(0, [1], Tcb(Running, 8, 8, 1), Tcb(Ready, 31, 31, 1), 2, Active, Preempted, true);
    es := StartInRun(w);
    PallocInRun(w, es, R.Scan(0));
    es := es + [Palloc(R.Scan(0))];
    es := SwitchInRun(w, es, s1, s2);
    PallocInRun(w, es, R.Scan(1));
    es := es + [Palloc(R.Scan(1))];
    PallocInRun(w, es, R.Mark(1));
    es := es + [Palloc(R.Mark(1))];
    es := SwitchInRun(w, es, s3, s4);
    PallocInRun(w, es, R.Mark(0));
    es := es + [Palloc(R.Mark(0))];
  }
}
