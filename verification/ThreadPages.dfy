/**
 The machine of threads on the pages of their stacks: every schedule() of the machine is a call of switch_to
 between two pages, and between two switches the running thread moves its registers and memory as it likes.
 So the machine's current thread is the one that running_thread() reads off esp, and a thread that the machine
 resumes goes on where it stopped.
 */
module ThreadPages {
  import opened Scheduler
  import opened Machine
  import opened Invariants
  import opened Runs
  import C = ContextSwitch

  /** Where the linker put kernel_thread, and the instruction behind the call of switch_to in schedule. */
  datatype Code = Code(kernelThread: nat, afterSwitch: nat)

  /** The machine, the processor with its memory, and the page of each thread. */
  datatype Kernel = Kernel(s: State, w: C.World, page: map<Tid, nat>, code: Code)

  /** The processor when the C code of a step is through, and the page and arguments of a thread that it creates. */
  datatype Detail = Detail(cpu: C.Cpu, page: nat, name: seq<nat>, fn: nat, arg: nat)

  datatype Turn = Turn(a: Action, d: Detail)

  /** The step calls schedule(). */
  predicate Switches(s: State, a: Action) {
    MustWait(s, a) || (a.Timer? && s.Cur() in s.sched.tcb && s.sched.tcb[s.Cur()].ticks == 0)
  }

  /** Where a suspended thread goes on. */
  function GoesOnAt(code: Code, f: Frame): nat { if f.Fresh? then code.kernelThread else code.afterSwitch }

  /** Thread t is suspended on its page, in switch_to or before its first instruction. */
  predicate OnPage(k: Kernel, t: Tid) {
    && t in k.page && t in k.s.ctl && k.page[t] in k.w.saved
    && k.w.saved[k.page[t]].eip == GoesOnAt(k.code, k.s.ctl[t].frame)
  }

  predicate OwnPages(page: map<Tid, nat>) { forall t, u :: t in page && u in page && page[t] == page[u] ==> t == u }

  ghost predicate Linked(k: Kernel) {
    && k.s.fault == NoFault && Safe(k.s) && C.Inv(k.w)
    && k.page.Keys == k.s.ctl.Keys && OwnPages(k.page)
    && k.s.Cur() in k.page && k.w.cur == k.page[k.s.Cur()]
    && (forall t :: t in k.page && t != k.s.Cur() ==> OnPage(k, t))
  }

  /**
   A step of the machine that does not halt. Its code leaves the stacks of other threads and every stack_magic alone,
   and switch_to finds room on the stack.
   */
  ghost predicate Possible(k: Kernel, t: Turn) {
    && Typed(k.s) && Enabled(k.s, t.a) && Disciplined(k.s, t.a) && Step(k.s, t.a).fault == NoFault
    && C.Legal(k.w, C.Go(t.d.cpu))
    && (Switches(k.s, t.a) ==> k.w.cur + C.PCB + 28 <= t.d.cpu.esp)
    && (t.a.Start? ==> C.Legal(k.w.(cpu := t.d.cpu), Creation(k, t)))
  }

  function Creation(k: Kernel, t: Turn): C.Event
    requires t.a.Start?
  {
    C.Create(t.d.page, t.d.name, t.a.prio, k.code.kernelThread, t.d.fn, t.d.arg)
  }

  /** What the processor does in one step: the C code, and then a switch or the creation of a thread. */
  function Events(k: Kernel, t: Turn): seq<C.Event>
    requires Typed(k.s) && Enabled(k.s, t.a)
  {
    var next := Step(k.s, t.a).Cur();
    if Switches(k.s, t.a) then [C.Go(t.d.cpu), C.Switch(if next in k.page then k.page[next] else 0, k.code.afterSwitch)]
    else if t.a.Start? then [C.Go(t.d.cpu), Creation(k, t)]
    else [C.Go(t.d.cpu)]
  }

  function Pages(k: Kernel, t: Turn): map<Tid, nat> { if t.a.Start? then k.page[t.a.t := t.d.page] else k.page }

  // ----- one step

  /** What a step does to the control states: the current thread leaves with a frame on its stack exactly when it switches. */
  ghost predicate SwitchedOrNot(s: State, a: Action, s': State) {
    && s.Cur() in s.ctl
    && s'.ctl.Keys == s.ctl.Keys + (if a.Start? then {a.t} else {})
    && (forall t :: t in s.ctl && t != s.Cur() ==> s'.ctl[t] == s.ctl[t])
    && (a.Start? ==> a.t !in s.ctl && s'.ctl[a.t].frame.Fresh? && !Switches(s, a))
    && (if Switches(s, a) then s'.Cur() in s.ctl && !s'.ctl[s.Cur()].frame.Fresh? else s'.Cur() == s.Cur())
  }

  lemma NextIsThread(s: State, frame: Frame, o: Outcome)
    requires s.Cur() in s.ctl && !frame.Fresh? && s.fault == NoFault && Leave(s, frame, o).fault == NoFault
    requires o.Go? ==> o.s.cur in s.ctl
    ensures var s' := Leave(s, frame, o);
            && s'.ctl.Keys == s.ctl.Keys && s'.Cur() in s.ctl && s'.ctl[s.Cur()].frame == frame
            && forall t :: t in s.ctl && t != s.Cur() ==> s'.ctl[t] == s.ctl[t]
  {
  }

  lemma ScheduleTakesThread(sc: Sched, stat: Status)
    requires SchedInv(sc)
    ensures TimerTick(sc).Go? ==> TimerTick(sc).s.cur in sc.tcb
    ensures sc.tcb[sc.cur].ticks != 0 && TimerTick(sc).Go? ==> TimerTick(sc).s.cur == sc.cur
    ensures BlockCurrent(sc, stat).Go? ==> BlockCurrent(sc, stat).s.cur in sc.tcb
  {
    assert forall t <- sc.ready :: t in sc.tcb;
  }

  lemma DownSwitches(s: State, l: Lid, saved: bool)
    requires Typed(s) && SchedInv(s.sched) && l in s.locks && s.fault == NoFault && DownLoop(s, l, saved).fault == NoFault
    ensures var s' := DownLoop(s, l, saved);
            && s'.ctl.Keys == s.ctl.Keys && (forall t :: t in s.ctl && t != s.Cur() ==> s'.ctl[t] == s.ctl[t])
            && if s.locks[l].value == 0 then s'.Cur() in s.ctl && !s'.ctl[s.Cur()].frame.Fresh? else s'.Cur() == s.Cur()
  {
    hide BlockCurrent, SchedInv;
    ScheduleTakesThread(s.sched, Blocked);
  }

  lemma ExecSwitches(s: State)
    requires Typed(s) && SchedInv(s.sched) && Enabled(s, Exec) && ExecStep(s).fault == NoFault
    ensures SwitchedOrNot(s, Exec, ExecStep(s))
  {
    hide DownLoop, SemaUp, Statement, SchedInv;
    var c := s.ctl[s.Cur()];
    if c.pc.AcqDown? { DownSwitches(s.(intr := false), c.pc.l, s.intr); }
    else if c.pc.RelUp? { SemaUpMoves(s, c.pc.l); UpStays(s, c.pc.l); }
  }

  lemma UpStays(s: State, l: Lid)
    requires Typed(s) && l in s.locks && SemaUp(s, l).fault == NoFault && s.fault == NoFault
    ensures SemaUp(s, l).Cur() == s.Cur()
  {
  }

  lemma ResumeSwitches(s: State)
    requires Typed(s) && SchedInv(s.sched) && Enabled(s, Resume) && ResumeStep(s).fault == NoFault
    ensures SwitchedOrNot(s, Resume, ResumeStep(s))
  {
    hide DownLoop, SchedInv;
    var c := s.ctl[s.Cur()];
    if c.frame.InSema? { DownSwitches(s, c.pc.l, c.frame.saved); }
  }

  lemma TimerSwitches(s: State)
    requires Typed(s) && SchedInv(s.sched) && Enabled(s, Timer) && TimerStep(s).fault == NoFault
    ensures SwitchedOrNot(s, Timer, TimerStep(s))
  {
    hide TimerTick, SchedInv, Leave;
    ScheduleTakesThread(s.sched, Blocked);
    if s.sched.tcb[s.Cur()].ticks == 0 {
      NextIsThread(s.(intr := false), Preempted, TimerTick(s.sched));
    } else {
      TickStays(s.sched);
    }
  }

  lemma TickStays(sc: Sched)
    requires SchedInv(sc) && sc.tcb[sc.cur].ticks != 0
    ensures TimerTick(sc).Go? && TimerTick(sc).s.cur == sc.cur
  {
  }

  lemma BlockSwitches(s: State, stat: Status)
    requires Typed(s) && SchedInv(s.sched) && Enabled(s, Block(stat)) && Step(s, Block(stat)).fault == NoFault
    ensures SwitchedOrNot(s, Block(stat), Step(s, Block(stat)))
  {
    hide BlockCurrent, SchedInv, Leave;
    ScheduleTakesThread(s.sched, stat);
    NextIsThread(s.(intr := false), InBlock(s.intr), BlockCurrent(s.sched, stat));
  }

  lemma CallStays(s: State, a: Action)
    requires Typed(s) && Enabled(s, a) && Step(s, a).fault == NoFault && !a.Exec? && !a.Resume? && !a.Timer? && !a.Block?
    ensures SwitchedOrNot(s, a, Step(s, a))
  {
    if a.Wake? { UnblockStays(s.sched, a.t); }
  }

  lemma StepSwitches(s: State, a: Action)
    requires Safe(s) && Typed(s) && Enabled(s, a) && Step(s, a).fault == NoFault
    ensures SwitchedOrNot(s, a, Step(s, a))
  {
    hide Safe, SchedInv, Typed, Enabled, SwitchedOrNot, ExecStep, ResumeStep, BlockCurrent, TimerStep, Leave, Unblock, StartThread;
    SafeSched(s);
    match a
    case Exec => ExecSwitches(s);
    case Resume => ResumeSwitches(s);
    case Timer => TimerSwitches(s);
    case Block(stat) => BlockSwitches(s, stat);
    case _ => CallStays(s, a);
  }

  lemma SafeSched(s: State)
    requires Safe(s)
    ensures SchedInv(s.sched) && s.ctl.Keys == s.sched.tcb.Keys && s.Cur() in s.ctl
  {
  }

  lemma UnblockStays(sc: Sched, t: Tid)
    requires t in sc.tcb
    ensures Unblock(sc, t).Go? ==> Unblock(sc, t).s.cur == sc.cur
  {
  }

  lemma OneEvent(w: C.World, e: C.Event)
    requires C.Legal(w, e)
    ensures C.Run(w, [e]) && C.After(w, [e]) == C.Step(w, e)
  {
    hide C.Legal, C.Step;
    assert C.Run(C.Step(w, e), []);
  }

  lemma TwoEvents(w: C.World, e1: C.Event, e2: C.Event)
    requires C.Legal(w, e1) && C.Legal(C.Step(w, e1), e2)
    ensures C.Run(w, [e1, e2]) && C.After(w, [e1, e2]) == C.Step(C.Step(w, e1), e2)
  {
    hide C.Legal, C.Step;
    OneEvent(C.Step(w, e1), e2);
    assert [e1, e2][1..] == [e2];
  }

  lemma SwitchSaves(w: C.World, next: nat, ret: nat)
    requires C.Legal(w, C.Switch(next, ret))
    ensures var w' := C.Step(w, C.Switch(next, ret));
            && w'.cur == next && (next != w.cur ==> w.cur in w'.saved && w'.saved[w.cur].eip == ret)
            && (forall p :: p in w.saved && p != next && p != w.cur ==> p in w'.saved && w'.saved[p] == w.saved[p])
  {
    hide C.Switched, C.CallSwitch;
  }

  lemma CreateSaves(w: C.World, e: C.Event)
    requires C.Legal(w, e) && e.Create?
    ensures var w' := C.Step(w, e);
            && w'.cur == w.cur && e.page in w'.saved && w'.saved[e.page].eip == e.entry
            && (forall p :: p in w.saved ==> p in w'.saved && w'.saved[p] == w.saved[p])
  {
    hide C.NewThread;
  }

  /** The next thread is the current one or suspended on its page. */
  lemma NextCanRun(k: Kernel, t: Turn)
    requires Linked(k) && Possible(k, t) && Switches(k.s, t.a) && Step(k.s, t.a).Cur() in k.page
    ensures var w1 := C.Step(k.w, C.Go(t.d.cpu));
            w1 == k.w.(cpu := t.d.cpu) && C.Legal(w1, C.Switch(k.page[Step(k.s, t.a).Cur()], k.code.afterSwitch))
  {
    hide Safe, Step, C.Inv, C.LeavesOthers, C.OnStack, C.MagicIntact, Enabled, Disciplined, Typed, Switches;
    var u := Step(k.s, t.a).Cur();
    if u != k.s.Cur() { assert OnPage(k, u); }
  }

  /** The threads' pages before and after a switch. */
  lemma SwitchKeepsPages(k: Kernel, t: Turn)
    requires Linked(k) && Possible(k, t) && Switches(k.s, t.a)
    ensures C.Run(k.w, Events(k, t)) && Linked(Kernel(Step(k.s, t.a), C.After(k.w, Events(k, t)), Pages(k, t), k.code))
    ensures Step(k.s, t.a).Cur() in k.page && Events(k, t)[1] == C.Switch(k.page[Step(k.s, t.a).Cur()], k.code.afterSwitch)
  {
    hide Safe, Step, C.Inv, C.Step, C.Legal, Enabled, Disciplined, Typed, Switches;
    var s' := Step(k.s, t.a);
    StepKeepsInv(k.s, t.a);
    StepSwitches(k.s, t.a);
    SafeSched(s');
    var w1 := C.Step(k.w, C.Go(t.d.cpu));
    C.StepKeepsInv(k.w, C.Go(t.d.cpu));
    var next := k.page[s'.Cur()];
    NextCanRun(k, t);
    C.StepKeepsInv(w1, C.Switch(next, k.code.afterSwitch));
    SwitchSaves(w1, next, k.code.afterSwitch);
    TwoEvents(k.w, C.Go(t.d.cpu), C.Switch(next, k.code.afterSwitch));
    var k' := Kernel(s', C.Step(w1, C.Switch(next, k.code.afterSwitch)), k.page, k.code);
    forall u | u in k'.page && u != s'.Cur() ensures OnPage(k', u) {
      if u != k.s.Cur() { assert OnPage(k, u); }
    }
  }

  lemma NewPageIsOwn(k: Kernel, t: Turn)
    requires Linked(k) && Possible(k, t) && t.a.Start?
    ensures var w1 := C.Step(k.w, C.Go(t.d.cpu)); w1 == k.w.(cpu := t.d.cpu) && C.Legal(w1, Creation(k, t))
    ensures (forall u :: u in k.page ==> k.page[u] != t.d.page) && OwnPages(Pages(k, t))
  {
    hide Safe, Step, C.Inv, C.LeavesOthers, C.OnStack, C.MagicIntact, Enabled, Disciplined, Typed, Switches;
    forall u | u in k.page ensures k.page[u] != t.d.page { if u != k.s.Cur() { assert OnPage(k, u); } }
  }

  /** thread_start on the machine: the new thread is the only new one, and nobody else moves. */
  lemma StartOnMachine(k: Kernel, t: Turn)
    requires Linked(k) && Possible(k, t) && t.a.Start?
    ensures var s' := Step(k.s, t.a);
            && !Switches(k.s, t.a)
            && Safe(s') && s'.fault == NoFault && s'.Cur() == k.s.Cur() && s'.Cur() in s'.ctl && t.a.t !in k.s.ctl
            && s'.ctl.Keys == k.s.ctl.Keys + {t.a.t} && s'.ctl[t.a.t].frame.Fresh?
            && forall u :: u in k.s.ctl && u != k.s.Cur() ==> s'.ctl[u] == k.s.ctl[u]
  {
    hide OwnPages, Safe, Step, C.Inv, C.Legal, Enabled, Disciplined, Typed, Switches, OnPage;
    StepKeepsInv(k.s, t.a);
    StepSwitches(k.s, t.a);
    SafeSched(Step(k.s, t.a));
  }

  lemma StartKeepsPages(k: Kernel, t: Turn)
    requires Linked(k) && Possible(k, t) && t.a.Start?
    ensures C.Run(k.w, Events(k, t)) && Linked(Kernel(Step(k.s, t.a), C.After(k.w, Events(k, t)), Pages(k, t), k.code))
  {
    hide OwnPages, Safe, Step, C.Inv, C.Step, C.Legal, Enabled, Disciplined, Typed, Switches;
    var s' := Step(k.s, t.a);
    StartOnMachine(k, t);
    NewPageIsOwn(k, t);
    var w1 := C.Step(k.w, C.Go(t.d.cpu));
    C.StepKeepsInv(k.w, C.Go(t.d.cpu));
    C.StepKeepsInv(w1, Creation(k, t));
    CreateSaves(w1, Creation(k, t));
    TwoEvents(k.w, C.Go(t.d.cpu), Creation(k, t));
    var k' := Kernel(s', C.Step(w1, Creation(k, t)), Pages(k, t), k.code);
    forall u | u in k'.page && u != s'.Cur() ensures OnPage(k', u) { if u != t.a.t { assert OnPage(k, u); } }
  }

  lemma CodeKeepsPages(k: Kernel, t: Turn)
    requires Linked(k) && Possible(k, t) && !Switches(k.s, t.a) && !t.a.Start?
    ensures C.Run(k.w, Events(k, t)) && Linked(Kernel(Step(k.s, t.a), C.After(k.w, Events(k, t)), Pages(k, t), k.code))
  {
    hide Safe, Step, C.Inv, C.LeavesOthers, Enabled, Disciplined, Typed, Switches;
    var s' := Step(k.s, t.a);
    StepKeepsInv(k.s, t.a);
    StepSwitches(k.s, t.a);
    SafeSched(s');
    C.StepKeepsInv(k.w, C.Go(t.d.cpu));
    OneEvent(k.w, C.Go(t.d.cpu));
    var k' := Kernel(s', C.Step(k.w, C.Go(t.d.cpu)), k.page, k.code);
    forall u | u in k'.page && u != s'.Cur() ensures OnPage(k', u) { assert OnPage(k, u); }
  }

  /** Every step of the machine is something that switch_to and the code between two switches can do. */
  lemma TurnKeepsLinked(k: Kernel, t: Turn)
    requires Linked(k) && Possible(k, t)
    ensures C.Run(k.w, Events(k, t)) && Linked(Kernel(Step(k.s, t.a), C.After(k.w, Events(k, t)), Pages(k, t), k.code))
  {
    hide Linked, Possible, Switches, Step;
    if Switches(k.s, t.a) { SwitchKeepsPages(k, t); }
    else if t.a.Start? { StartKeepsPages(k, t); }
    else { CodeKeepsPages(k, t); }
  }

  ghost function Next(k: Kernel, t: Turn): (k': Kernel)
    requires Linked(k) && Possible(k, t)
    ensures Linked(k')
  {
    TurnKeepsLinked(k, t);
    Kernel(Step(k.s, t.a), C.After(k.w, Events(k, t)), Pages(k, t), k.code)
  }

  // ----- whole runs

  ghost predicate Turns(k: Kernel, ts: seq<Turn>)
    requires Linked(k)
    decreases |ts|
  {
    ts == [] || (Possible(k, ts[0]) && Turns(Next(k, ts[0]), ts[1..]))
  }

  ghost function After(k: Kernel, ts: seq<Turn>): (k': Kernel)
    requires Linked(k) && Turns(k, ts)
    ensures Linked(k')
    decreases |ts|
  {
    if ts == [] then k else After(Next(k, ts[0]), ts[1..])
  }

  /** After thread_init: main runs on its own page. */
  ghost function Booted(main: Tid, lids: set<Lid>, cpu: C.Cpu, page: nat, name: seq<nat>, code: Code): (k: Kernel)
    requires page % C.PAGE == 0 && C.OnStack(page, cpu.esp) && |name| < 16
    ensures Linked(k)
  {
    var mem := C.WithPcb(cpu.mem, page, name, 8, C.TASK_RUNNING);
    InitialIsSafe(main, lids);
    C.MainAlone(cpu, page, name, 8);
    Kernel(Initial(main, lids), C.World(cpu.(mem := mem), page, map[]), map[main := page], code)
  }

  lemma CurrentPage(k: Kernel)
    requires Linked(k)
    ensures C.RunningThread(k.w.cpu) == k.page[k.s.Cur()]
    ensures forall t :: t in k.page ==> C.MagicIntact(k.w.cpu.mem, k.page[t])
  {
    hide Safe;
    forall t | t in k.page ensures C.MagicIntact(k.w.cpu.mem, k.page[t]) {
      if t != k.s.Cur() { assert OnPage(k, t); }
    }
  }

  /**
   In every run of the kernel from boot, running_thread() is the page of the machine's current thread, distinct threads
   have distinct pages, and the ASSERT of timer.c:46 holds for every thread.
   */
  lemma RunningThreadIsCurrent(main: Tid, lids: set<Lid>, cpu: C.Cpu, page: nat, name: seq<nat>, code: Code, ts: seq<Turn>)
    requires page % C.PAGE == 0 && C.OnStack(page, cpu.esp) && |name| < 16
    requires Turns(Booted(main, lids, cpu, page, name, code), ts)
    ensures var k := After(Booted(main, lids, cpu, page, name, code), ts);
            && k.page.Keys == k.s.ctl.Keys && OwnPages(k.page) && k.s.Cur() in k.page
            && C.RunningThread(k.w.cpu) == k.page[k.s.Cur()]
            && forall t :: t in k.page ==> C.MagicIntact(k.w.cpu.mem, k.page[t])
  {
    hide Linked, Turns, After, Booted, OwnPages;
    var k := After(Booted(main, lids, cpu, page, name, code), ts);
    LinkedPages(k);
    CurrentPage(k);
  }

  lemma LinkedPages(k: Kernel)
    requires Linked(k)
    ensures k.page.Keys == k.s.ctl.Keys && OwnPages(k.page) && k.s.Cur() in k.page && k.w.cur == k.page[k.s.Cur()] && C.Inv(k.w)
  {
  }

  // ----- from the machine's runs to those of the processor

  /** What the processor does in a run. */
  ghost function Trace(k: Kernel, ts: seq<Turn>): seq<C.Event>
    requires Linked(k) && Turns(k, ts)
    decreases |ts|
  {
    if ts == [] then [] else Events(k, ts[0]) + Trace(Next(k, ts[0]), ts[1..])
  }

  lemma {:induction false} RunAppend(w: C.World, es: seq<C.Event>, fs: seq<C.Event>)
    requires C.Run(w, es) && C.Run(C.After(w, es), fs)
    ensures C.Run(w, es + fs) && C.After(w, es + fs) == C.After(C.After(w, es), fs)
    decreases |es|
  {
    hide C.Legal, C.Step;
    if es == [] {
      assert es + fs == fs;
    } else {
      assert (es + fs)[1..] == es[1..] + fs;
      RunAppend(C.Step(w, es[0]), es[1..], fs);
    }
  }

  lemma {:induction false} TraceIsRun(k: Kernel, ts: seq<Turn>)
    requires Linked(k) && Turns(k, ts)
    ensures C.Run(k.w, Trace(k, ts)) && C.After(k.w, Trace(k, ts)) == After(k, ts).w
    decreases |ts|
  {
    hide Linked, Switches, Step, C.Legal, C.Step;
    if ts != [] {
      TurnKeepsLinked(k, ts[0]);
      var k1 := Next(k, ts[0]);
      TraceIsRun(k1, ts[1..]);
      RunAppend(k.w, Events(k, ts[0]), Trace(k1, ts[1..]));
    }
  }

  /** Thread t is not the current one anywhere in the run. */
  ghost predicate NeverRuns(k: Kernel, ts: seq<Turn>, t: Tid)
    requires Linked(k) && Turns(k, ts)
    decreases |ts|
  {
    k.s.Cur() != t && (ts == [] || NeverRuns(Next(k, ts[0]), ts[1..], t))
  }

  /** A step keeps the pages of the threads that there are, and switches to the page of its new current thread. */
  lemma TurnPages(k: Kernel, t: Turn, u: Tid)
    requires Linked(k) && Possible(k, t) && u in k.page && Next(k, t).s.Cur() != u
    ensures u in Next(k, t).page && Next(k, t).page[u] == k.page[u] && C.Away(Events(k, t), k.page[u])
  {
    hide Step, Safe, C.Run, C.After, C.Inv, C.Legal, Switches, Enabled, Disciplined, Typed;
    if t.a.Start? { StartIsNew(k.s, t.a); }
    if Switches(k.s, t.a) { SwitchKeepsPages(k, t); }
  }

  lemma StartIsNew(s: State, a: Action)
    requires Typed(s) && Enabled(s, a) && a.Start?
    ensures a.t !in s.ctl
  {
  }

  lemma {:induction false} RunPages(k: Kernel, ts: seq<Turn>, u: Tid)
    requires Linked(k) && Turns(k, ts) && u in k.page && NeverRuns(k, ts, u)
    ensures u in After(k, ts).page && After(k, ts).page[u] == k.page[u] && C.Away(Trace(k, ts), k.page[u]) && After(k, ts).s.Cur() != u
    decreases |ts|
  {
    hide Linked, Possible, Events, Next;
    if ts != [] {
      var k1 := Next(k, ts[0]);
      assert k1.s.Cur() != u;
      TurnPages(k, ts[0], u);
      RunPages(k1, ts[1..], u);
    }
  }

  // ----- a thread that is resumed goes on where it stopped

  /** The turn `back` makes u the current thread by a call of switch_to, after it was away from k on. */
  ghost predicate ComesBack(k: Kernel, ts: seq<Turn>, back: Turn, u: Tid)
    requires Linked(k) && Turns(k, ts)
  {
    var k2 := After(k, ts);
    NeverRuns(k, ts, u) && u in k.page && Possible(k2, back) && Switches(k2.s, back.a) && Next(k2, back).s.Cur() == u
  }

  /** Seen from the processor: events that do not resume u, and then a switch to its page. */
  lemma BackIsSwitch(k: Kernel, ts: seq<Turn>, back: Turn, u: Tid)
    requires Linked(k) && Turns(k, ts) && ComesBack(k, ts, back, u)
    ensures var es := Trace(k, ts) + [C.Go(back.d.cpu)]; var e := C.Switch(k.page[u], k.code.afterSwitch);
            && C.Run(k.w, es) && C.Away(es, k.page[u]) && C.Legal(C.After(k.w, es), e)
            && Next(After(k, ts), back).w == C.Step(C.After(k.w, es), e)
  {
    hide Linked, Possible, Events, C.Step, C.Legal, Switches, Turns, NeverRuns, Trace, After;
    var k2 := After(k, ts);
    RunPages(k, ts, u);
    TraceIsRun(k, ts);
    CodeStays(k, ts);
    var e := C.Switch(k.page[u], k.code.afterSwitch);
    LastTurn(k2, back, u);
    OneEvent(k2.w, C.Go(back.d.cpu));
    RunAppend(k.w, Trace(k, ts), [C.Go(back.d.cpu)]);
  }

  lemma LastTurn(k: Kernel, t: Turn, u: Tid)
    requires Linked(k) && Possible(k, t) && Switches(k.s, t.a) && Next(k, t).s.Cur() == u && u in k.page
    ensures var w1 := C.Step(k.w, C.Go(t.d.cpu)); var e := C.Switch(k.page[u], k.code.afterSwitch);
            C.Legal(k.w, C.Go(t.d.cpu)) && C.Legal(w1, e) && Next(k, t).w == C.Step(w1, e)
  {
    hide Safe, Step, C.Inv, C.Step, Enabled, Disciplined, Typed, Switches;
    SwitchKeepsPages(k, t);
    NextCanRun(k, t);
    TwoEvents(k.w, C.Go(t.d.cpu), C.Switch(k.page[u], k.code.afterSwitch));
  }

  lemma {:induction false} CodeStays(k: Kernel, ts: seq<Turn>)
    requires Linked(k) && Turns(k, ts)
    ensures After(k, ts).code == k.code
    decreases |ts|
  {
    hide Linked, Possible, Events;
    if ts != [] { CodeStays(Next(k, ts[0]), ts[1..]); }
  }

  /**
   A thread gives up the processor in schedule(), anything happens, and schedule() takes it up again: it then has the
   registers, the return address and the stack that it had when it called switch_to.
   */
  lemma ThreadGoesOn(k: Kernel, out: Turn, ts: seq<Turn>, back: Turn)
    requires Linked(k) && Possible(k, out) && Switches(k.s, out.a)
    requires Turns(Next(k, out), ts) && ComesBack(Next(k, out), ts, back, k.s.Cur())
    ensures var c := Next(After(Next(k, out), ts), back).w.cpu; var c0 := out.d.cpu;
            && c.ebp == c0.ebp && c.ebx == c0.ebx && c.esi == c0.esi && c.edi == c0.edi && c.eip == k.code.afterSwitch
            && c.esp == c0.esp - 8 && C.RunningThread(c) == k.page[k.s.Cur()]
            && (forall a: nat :: c0.esp <= a < k.page[k.s.Cur()] + C.PAGE ==> C.At(c.mem, a) == C.At(c0.mem, a))
  {
    hide Linked, Possible, Events, C.Step, C.Inv, Switches, Turns, NeverRuns, Trace, After, C.Run, C.After, C.Away;
    var u := k.s.Cur();
    var k1 := Next(k, out);
    LinkedPages(k);
    PossibleCode(k, out);
    var w := C.Step(k.w, C.Go(out.d.cpu));
    C.StepKeepsInv(k.w, C.Go(out.d.cpu));
    AwayIsOther(k1, ts, u);
    LinkedPages(k1);
    OutPages(k, out);
    LastTurn(k, out, k1.s.Cur());
    BackIsSwitch(k1, ts, back, u);
    C.RoundTrip(w, k1.page[k1.s.Cur()], k.code.afterSwitch, Trace(k1, ts) + [C.Go(back.d.cpu)], k.code.afterSwitch);
  }

  lemma PossibleCode(k: Kernel, t: Turn)
    requires Possible(k, t)
    ensures C.Legal(k.w, C.Go(t.d.cpu)) && C.Step(k.w, C.Go(t.d.cpu)) == k.w.(cpu := t.d.cpu)
  {
  }

  lemma AwayIsOther(k: Kernel, ts: seq<Turn>, u: Tid)
    requires Linked(k) && Turns(k, ts) && NeverRuns(k, ts, u)
    ensures k.s.Cur() != u
  {
  }

  /** A switch changes no page, and goes to a thread that there was. */
  lemma OutPages(k: Kernel, t: Turn)
    requires Linked(k) && Possible(k, t) && Switches(k.s, t.a)
    ensures Next(k, t).page == k.page && Next(k, t).code == k.code && Next(k, t).s.Cur() in k.page
    ensures Next(k, t).s.Cur() != k.s.Cur() ==> k.page[Next(k, t).s.Cur()] != k.page[k.s.Cur()]
  {
    hide Safe, Step, C.Inv, C.Step, C.Legal, Enabled, Disciplined, Typed, C.Run, C.After;
    SwitchKeepsPages(k, t);
    StepSwitches(k.s, t.a);
  }

  /** A thread that thread_start has created enters kernel_thread with its own function and argument when it is first scheduled. */
  lemma NewThreadEnters(k: Kernel, start: Turn, ts: seq<Turn>, back: Turn)
    requires Linked(k) && Possible(k, start) && start.a.Start?
    requires Turns(Next(k, start), ts) && ComesBack(Next(k, start), ts, back, start.a.t)
    ensures var c := Next(After(Next(k, start), ts), back).w.cpu;
            && c.eip == k.code.kernelThread && C.At(c.mem, c.esp + 4) == start.d.fn && C.At(c.mem, c.esp + 8) == start.d.arg
            && c.ebp == c.ebx == c.esi == c.edi == 0 && C.RunningThread(c) == start.d.page
  {
    hide Linked, Possible, Events, C.Step, C.Inv, Switches, Turns, NeverRuns, Trace, After, C.Run, C.After, C.Away, C.Legal;
    var k1 := Next(k, start);
    LinkedPages(k);
    PossibleCode(k, start);
    var w := C.Step(k.w, C.Go(start.d.cpu));
    C.StepKeepsInv(k.w, C.Go(start.d.cpu));
    StartTurn(k, start);
    BackIsSwitch(k1, ts, back, start.a.t);
    C.NewThreadStarts(w, start.d.page, start.d.name, start.a.prio, k.code.kernelThread, start.d.fn, start.d.arg,
                      Trace(k1, ts) + [C.Go(back.d.cpu)], k.code.afterSwitch);
  }

  lemma StartTurn(k: Kernel, t: Turn)
    requires Linked(k) && Possible(k, t) && t.a.Start?
    ensures var w1 := C.Step(k.w, C.Go(t.d.cpu)); C.Legal(w1, Creation(k, t)) && Next(k, t).w == C.Step(w1, Creation(k, t))
    ensures Next(k, t).page == k.page[t.a.t := t.d.page] && Next(k, t).code == k.code
  {
    hide Safe, Step, C.Inv, C.Step, Enabled, Disciplined, Typed, C.Run, C.After;
    StepSwitches(k.s, t.a);
    NewPageIsOwn(k, t);
    PossibleCode(k, t);
    TwoEvents(k.w, C.Go(t.d.cpu), Creation(k, t));
  }

  /** The PCB that thread_start writes shows what the machine's thread_start puts into its table. */
  lemma NewPcbShowsTable(mem: C.Words, page: nat, name: seq<nat>, prio: nat, entry: nat, fn: nat, arg: nat, sc: Sched, t: Tid)
    requires page % C.PAGE == 0 && |name| < 16 && StartThread(sc, t, prio).Go?
    ensures var m := C.NewThread(mem, page, name, prio, entry, fn, arg); var c := StartThread(sc, t, prio).s.tcb[t];
            && c.status.Ready? && C.At(m, page + 4) == C.TASK_READY && C.At(m, page + 8) == c.priority
            && C.At(m, page + 25) == c.ticks && C.At(m, page + 28) == c.elapsed
  {
    hide C.NewThread, C.WithPcb;
    C.NewThreadSuspended(mem, page, name, prio, entry, fn, arg);
    C.PcbWritten(mem, page, name, prio, C.TASK_READY, page + 4);
    C.PcbWritten(mem, page, name, prio, C.TASK_READY, page + 8);
    C.PcbWritten(mem, page, name, prio, C.TASK_READY, page + 25);
    C.PcbWritten(mem, page, name, prio, C.TASK_READY, page + 28);
  }

  /** The same for the PCB that make_main_thread writes. */
  lemma MainPcbShowsTable(mem: C.Words, page: nat, name: seq<nat>, main: Tid)
    requires page % C.PAGE == 0 && |name| < 16
    ensures var m := C.WithPcb(mem, page, name, 8, C.TASK_RUNNING); var c := InitialSched(main).tcb[main];
            && c.status.Running? && C.At(m, page + 4) == C.TASK_RUNNING && C.At(m, page + 8) == c.priority
            && C.At(m, page + 25) == c.ticks && C.At(m, page + 28) == c.elapsed
  {
    hide C.WithPcb;
    C.PcbWritten(mem, page, name, 8, C.TASK_RUNNING, page + 4);
    C.PcbWritten(mem, page, name, 8, C.TASK_RUNNING, page + 8);
    C.PcbWritten(mem, page, name, 8, C.TASK_RUNNING, page + 25);
    C.PcbWritten(mem, page, name, 8, C.TASK_RUNNING, page + 28);
  }
}
