/**
 The consumer threads of kernel/main.c on top of the kernel machine: each turns
 interrupts off, looks into the keyboard queue, and prints its tag and one byte through
 the console lock of device/console.c. Any number of consumers, any interleaving with the
 timer and the keyboard.
 */
module Consumers {
  import opened Options
  import opened Scheduler
  import opened Machine
  import opened Invariants
  import Runs
  import Q = IoQueue
  import K = Keyboard

  const CONSOLE: Lid := 0

  /** What appears on the screen: the argument string of a consumer, a character, or "unknown key" from the keyboard handler. */
  datatype Item = Tag(t: Tid) | Ch(b: char) | Unknown

  /** Where a consumer is: the named lock calls are in progress, or about to be followed by the next statement. */
  datatype Stage =
    | Top                 // main.c:38 intr_disable
    | Check               // main.c:39 ioq_empty
    | TagLock             // console.c:26 in console_put_str
    | TagUnlock           // console.c:28
    | CharLock(b: char)   // console.c:32 in console_put_char
    | CharUnlock          // console.c:34
    | Restore             // main.c:45 intr_set_status

  datatype Task = Task(stage: Stage, saved: bool)

  /**
   `kb` are the flags of the keyboard handler, `scanned` the scancodes it has seen and `dropped` the
   characters it could not store because the queue was full. `halted` is the line of the ASSERT of
   ioqueue.c in which the kernel has halted, or 0; a consumer that reaches ioq_wait halts in line 36.
   */
  datatype World = World(s: State, q: Q.Queue, main: Tid, task: map<Tid, Task>, out: seq<Item>,
                         kb: K.Flags, scanned: seq<nat>, dropped: nat, stored: seq<char>, read: seq<char>, halted: nat) {
    function Cur(): Tid { s.Cur() }
  }

  /** A timer interrupt, a keyboard interrupt, the return from switch_to, the next step of a consumer, or main. */
  datatype Event = Tick | Scan(code: nat) | Back | Move | Launch(t: Tid, prio: nat) | Sti

  /** The machine action of the current consumer's next statement, if it has one. */
  function Todo(w: World): Option<Action>
    requires w.Cur() in w.s.ctl && w.Cur() in w.task
  {
    if w.s.ctl[w.Cur()].pc != Client then Some(Exec)
    else match w.task[w.Cur()].stage
      case Top => Some(SetIntr(false))
      case Check => if w.s.intr || w.q.Empty() then None else Some(CallAcquire(CONSOLE))
      case TagLock => Some(CallRelease(CONSOLE))
      case TagUnlock => if w.s.intr || w.q.Empty() then None else Some(CallAcquire(CONSOLE))
      case CharLock(_) => Some(CallRelease(CONSOLE))
      case CharUnlock => None
      case Restore => Some(SetIntr(w.task[w.Cur()].saved))
  }

  function At(w: World, stage: Stage): World
    requires w.Cur() in w.task
  {
    w.(task := w.task[w.Cur() := w.task[w.Cur()].(stage := stage)])
  }

  /** What the statement does besides: the queue, the screen, and where the consumer goes. */
  function Local(w: World): World
    requires w.Cur() in w.s.ctl && w.Cur() in w.task && w.q.Ok()
  {
    if w.s.ctl[w.Cur()].pc != Client then w
    else match w.task[w.Cur()].stage
      case Top => w.(task := w.task[w.Cur() := Task(Check, w.s.intr)])
      case Check => if w.s.intr then w.(halted := 30) else At(w, if w.q.Empty() then Restore else TagLock)
      case TagLock => At(w, TagUnlock).(out := w.out + [Tag(w.Cur())])
      case TagUnlock =>
        if w.s.intr then w.(halted := 50)
        else if w.q.Empty() then w.(halted := 36)
        else
          var b := w.q.buffer[w.q.tail];
          At(w, CharLock(b)).(q := Q.Get(w.q), read := w.read + [b])
      case CharLock(b) => At(w, CharUnlock).(out := w.out + [Ch(b)])
      case CharUnlock => At(w, Restore)
      case Restore => At(w, Top)
  }

  ghost predicate Legal(w: World, e: Event) {
    && Typed(w.s) && w.q.Ok() && w.s.fault == NoFault && w.halted == 0
    && match e
       case Tick => Enabled(w.s, Timer)
       case Scan(code) => w.s.intr && code < 0x100
       case Back => Enabled(w.s, Resume)
       case Move => w.Cur() in w.task && w.s.ctl[w.Cur()].frame == Active
                    && (Todo(w).Some? ==> Enabled(w.s, Todo(w).value))
       case Launch(t, prio) => w.Cur() == w.main && Enabled(w.s, Start(t, prio))
       case Sti => w.Cur() == w.main && Enabled(w.s, SetIntr(true))
  }

  /** The keyboard handler: it stores the character it decodes unless ioq_full, and reports unknown keys on the screen. */
  function Handled(w: World, code: nat): World
    requires w.q.Ok()
  {
    var r := K.Handle(w.kb, code);
    var w1 := w.(kb := r.k, scanned := w.scanned + [code], out := if r.unknown then w.out + [Unknown] else w.out);
    if r.offered == K.NUL then w1
    else if w.s.intr then w1.(halted := 24)
    else if w.q.Full() then w1.(dropped := w.dropped + 1)
    else w1.(q := Q.Put(w.q, r.offered), stored := w.stored + [r.offered])
  }

  /** A keyboard interrupt: the gate clears the flag, the handler runs, iretd restores the flag. */
  function Scanned(w: World, code: nat): World
    requires w.q.Ok()
  {
    var h := Handled(w.(s := w.s.(intr := false)), code);
    if h.halted != 0 then h else h.(s := w.s)
  }

  ghost function Next(w: World, e: Event): World
    requires Legal(w, e)
  {
    match e
    case Tick => w.(s := Step(w.s, Timer))
    case Scan(code) => Scanned(w, code)
    case Back => w.(s := Step(w.s, Resume))
    case Move => Local(w).(s := if Todo(w).Some? then Step(w.s, Todo(w).value) else w.s)
    case Launch(t, prio) => w.(s := Step(w.s, Start(t, prio)), task := w.task[t := Task(Top, true)])
    case Sti => w.(s := Step(w.s, SetIntr(true)))
  }

  // ----- the invariant

  const FREE := Lock(1, [], None, 0)

  /** The thread holds nothing and is at the top of its loop (or is main). */
  predicate Idle(w: World, t: Tid)
    requires t in w.s.ctl
  {
    w.s.ctl[t].pc == Client && w.s.ctl[t].Depth(CONSOLE) == 0 && (t in w.task ==> w.task[t].stage == Top)
  }

  /** lock_acquire by t, with nobody else near the lock: the lock at each statement, and after the return. */
  predicate Acquiring(t: Tid, c: Ctl, lk: Lock) {
    match c.pc
    case AcqTest(l) => l == CONSOLE && lk == FREE && c.Depth(CONSOLE) == 0
    case AcqDown(l) => l == CONSOLE && lk == FREE && c.Depth(CONSOLE) == 0
    case AcqOwn(l) => l == CONSOLE && lk == Lock(0, [], None, 0) && c.Depth(CONSOLE) == 0
    case AcqAssert(l) => l == CONSOLE && lk == Lock(0, [], Some(t), 0) && c.Depth(CONSOLE) == 0
    case AcqCount(l) => l == CONSOLE && lk == Lock(0, [], Some(t), 0) && c.Depth(CONSOLE) == 0
    case Client => lk == Lock(0, [], Some(t), 1) && c.Depth(CONSOLE) == 1
    case _ => false
  }

  /** The same for lock_release. */
  predicate Releasing(t: Tid, c: Ctl, lk: Lock) {
    match c.pc
    case RelAssert(l) => l == CONSOLE && lk == Lock(0, [], Some(t), 1) && c.Depth(CONSOLE) == 1
    case RelTest(l) => l == CONSOLE && lk == Lock(0, [], Some(t), 1) && c.Depth(CONSOLE) == 1
    case RelLast(l) => l == CONSOLE && lk == Lock(0, [], Some(t), 1) && c.Depth(CONSOLE) == 1
    case RelClear(l) => l == CONSOLE && lk == Lock(0, [], Some(t), 1) && c.Depth(CONSOLE) == 1
    case RelZero(l) => l == CONSOLE && lk == Lock(0, [], None, 1) && c.Depth(CONSOLE) == 1
    case RelUp(l) => l == CONSOLE && lk == Lock(0, [], None, 0) && c.Depth(CONSOLE) == 1
    case Client => lk == FREE && c.Depth(CONSOLE) == 0
    case _ => false
  }

  /** The current consumer, by its stage: interrupts are off except at the top, and the queue is not empty until it reads. */
  predicate StageOk(w: World)
    requires w.Cur() in w.s.ctl && w.Cur() in w.task && CONSOLE in w.s.locks
  {
    var c := w.s.ctl[w.Cur()];
    var lk := w.s.locks[CONSOLE];
    var k := w.task[w.Cur()];
    && (k.stage != Top ==> !w.s.intr && k.saved)
    && match k.stage
       case Top => Idle(w, w.Cur()) && lk == FREE && w.s.intr
       case Check => c.pc == Client && c.Depth(CONSOLE) == 0 && lk == FREE
       case TagLock => Acquiring(w.Cur(), c, lk) && !w.q.Empty()
       case TagUnlock => Releasing(w.Cur(), c, lk) && !w.q.Empty()
       case CharLock(_) => Acquiring(w.Cur(), c, lk)
       case CharUnlock => Releasing(w.Cur(), c, lk)
       case Restore => c.pc == Client && c.Depth(CONSOLE) == 0 && lk == FREE
  }

  /** The current thread. */
  predicate CurrentOk(w: World)
    requires w.Cur() in w.s.ctl && CONSOLE in w.s.locks
  {
    if w.s.ctl[w.Cur()].frame == Active && w.Cur() in w.task then StageOk(w)
    else Idle(w, w.Cur()) && w.s.locks[CONSOLE] == FREE && w.s.ctl[w.Cur()].frame in {Active, Preempted, Fresh}
  }

  /** A thread that does not run was pre-empted at the top of its loop, or never ran. */
  predicate OtherOk(w: World, t: Tid)
    requires t in w.s.ctl
  {
    Idle(w, t) && w.s.ctl[t].frame in {Preempted, Fresh}
  }

  /** The output is made of pairs of a tag and a character, and of reports of unknown keys between them. */
  predicate Paired(out: seq<Item>) {
    || out == []
    || (out[|out| - 1].Unknown? && Paired(out[..|out| - 1]))
    || (|out| >= 2 && out[|out| - 2].Tag? && out[|out| - 1].Ch? && Paired(out[..|out| - 2]))
  }

  /** The characters in the output. */
  function Bytes(out: seq<Item>): seq<char> {
    if out == [] then []
    else Bytes(out[..|out| - 1]) + if out[|out| - 1].Ch? then [out[|out| - 1].b] else []
  }

  /** The output without a last tag that is still alone. */
  function Complete(out: seq<Item>): seq<Item> {
    if out != [] && out[|out| - 1].Tag? then out[..|out| - 1] else out
  }

  /** Every tag is followed by a character at once, and every character stands behind a tag. */
  ghost predicate TagsMeetBytes(out: seq<Item>) {
    && (forall i: nat :: i < |out| && out[i].Tag? ==> i + 1 < |out| && out[i + 1].Ch?)
    && (forall i: nat :: i < |out| && out[i].Ch? ==> i > 0 && out[i - 1].Tag?)
  }

  lemma {:induction false} PairedMeets(out: seq<Item>)
    requires Paired(out)
    ensures TagsMeetBytes(out)
    decreases |out|
  {
    if out != [] {
      var k := if out[|out| - 1].Unknown? then |out| - 1 else |out| - 2;
      var init := out[..k];
      PairedMeets(init);
      forall i: nat | i < |out| && out[i].Tag? ensures i + 1 < |out| && out[i + 1].Ch? {
        if i < k { assert init[i].Tag? && init[i + 1].Ch?; }
      }
      forall i: nat | i < |out| && out[i].Ch? ensures i > 0 && out[i - 1].Tag? {
        if i < k { assert init[i].Ch? && init[i - 1].Tag?; }
      }
    }
  }

  /** The stage of the current thread, as far as the screen is concerned. */
  function Printing(w: World): Stage {
    if w.Cur() in w.task && w.Cur() in w.s.ctl && w.s.ctl[w.Cur()].frame == Active then w.task[w.Cur()].stage else Top
  }

  /** The screen shows tag and byte side by side; what was printed is what was read, but for the byte in hand. */
  predicate ScreenOk(w: World) { ScreenFits(Printing(w), w.Cur(), w.out, w.read) }

  predicate ScreenFits(stage: Stage, cur: Tid, out: seq<Item>, read: seq<char>) {
    var n := |out|;
    match stage
    case TagUnlock => n > 0 && out[n - 1] == Tag(cur) && Paired(out[..n - 1]) && Bytes(out[..n - 1]) == read
    case CharLock(b) => n > 0 && out[n - 1] == Tag(cur) && Paired(out[..n - 1]) && Bytes(out[..n - 1]) + [b] == read
    case _ => Paired(out) && Bytes(out) == read
  }

  /** The control part: who is where. */
  ghost predicate ControlOk(w: World) {
    && CONSOLE in w.s.locks && w.main !in w.task && w.s.ctl.Keys == w.task.Keys + {w.main}
    && w.Cur() in w.s.ctl && CurrentOk(w)
    && (forall t :: t in w.s.ctl && t != w.Cur() ==> OtherOk(w, t))
  }

  const NO_KEYS := K.Flags(false, false, false, false, false)

  /** The flags are those of the scancodes seen, and what was stored is what they spell unless some was dropped. */
  predicate KeysOk(kb: K.Flags, scanned: seq<nat>, dropped: nat, stored: seq<char>) {
    kb == K.Feed(NO_KEYS, scanned) && (dropped == 0 ==> stored == K.Offers(NO_KEYS, scanned))
  }

  ghost predicate ConsumersInv(w: World) {
    && w.s.fault == NoFault && Safe(w.s) && w.halted == 0
    && ControlOk(w) && Q.LogOk(Q.Log(w.q, w.stored, w.read)) && ScreenOk(w)
    && KeysOk(w.kb, w.scanned, w.dropped, w.stored)
  }

  // ----- interrupts

  /** While interrupts are on, the current thread is main or at the top of its loop. */
  lemma IntrMeansTop(w: World)
    requires ConsumersInv(w) && w.s.intr
    ensures w.s.ctl[w.Cur()].frame == Active && Idle(w, w.Cur()) && w.s.locks[CONSOLE] == FREE && Printing(w) == Top
  {
    hide Safe, KeysOk, ScreenOk;
    Runs.ActiveFlag(w.s);
  }

  lemma MachineStep(w: World, a: Action)
    requires ConsumersInv(w) && Typed(w.s) && Enabled(w.s, a) && Disciplined(w.s, a) && !Runs.MustWait(w.s, a)
    ensures Step(w.s, a).fault == NoFault && Safe(Step(w.s, a))
  {
    hide Safe, KeysOk, Step, ScreenOk, ControlOk;
    Runs.StepKeepsInv(w.s, a);
  }

  /** The timer: the current thread goes on or is pre-empted at the top of its loop. */
  lemma TimerEffect(s: State)
    requires Typed(s) && s.fault == NoFault && s.intr && Step(s, Timer).fault == NoFault
    ensures var s' := Step(s, Timer);
            && s'.locks == s.locks && s'.ctl.Keys == s.ctl.Keys
            && (forall t :: t in s.ctl && t != s.Cur() ==> s'.ctl[t] == s.ctl[t])
            && ((s' == s.(sched := s'.sched) && s'.Cur() == s.Cur())
                || s'.ctl[s.Cur()] == s.ctl[s.Cur()].(frame := Preempted))
  {
  }

  lemma TickKeeps(w: World)
    requires ConsumersInv(w) && Legal(w, Tick)
    ensures ConsumersInv(Next(w, Tick))
  {
    hide Safe, KeysOk, Paired, Bytes, Step, Typed;
    IntrMeansTop(w);
    MachineStep(w, Timer);
    TimerEffect(w.s);
    var w' := Next(w, Tick);
    CurrentIsThread(w'.s);
    forall t | t in w'.s.ctl && t != w'.Cur() ensures OtherOk(w', t) {
      assert t != w.Cur() ==> OtherOk(w, t);
    }
    assert w'.Cur() != w.Cur() ==> OtherOk(w, w'.Cur());
  }

  lemma CurrentIsThread(s: State)
    requires Safe(s)
    ensures s.Cur() in s.ctl
  {
  }

  /** Threads that do not run are as before when only the current one changes. */
  lemma OthersKept(w: World, w': World)
    requires ControlOk(w) && w'.Cur() == w.Cur() && w'.s.ctl.Keys == w.s.ctl.Keys && w'.task.Keys == w.task.Keys
    requires forall t :: t in w.s.ctl && t != w.Cur() ==> w'.s.ctl[t] == w.s.ctl[t]
    requires forall t :: t in w.task && t != w.Cur() ==> w'.task[t] == w.task[t]
    ensures forall t :: t in w'.s.ctl && t != w'.Cur() ==> OtherOk(w', t)
  {
    hide CurrentOk;
    forall t | t in w'.s.ctl && t != w'.Cur() ensures OtherOk(w', t) { assert OtherOk(w, t); }
  }

  lemma ResumeEffect(s: State)
    requires Typed(s) && Enabled(s, Resume) && s.ctl[s.Cur()].frame in {Preempted, Fresh}
    ensures Step(s, Resume) == s.(ctl := s.ctl[s.Cur() := s.ctl[s.Cur()].(frame := Active)], intr := true)
  {
  }

  lemma BackKeeps(w: World)
    requires ConsumersInv(w) && Legal(w, Back)
    ensures ConsumersInv(Next(w, Back))
  {
    hide Safe, KeysOk, Paired, Bytes, Typed, Step, OtherOk, Acquiring, Releasing, Q.LogOk;
    MachineStep(w, Resume);
    ResumeEffect(w.s);
    OthersKept(w, Next(w, Back));
  }

  lemma ScanKeepsKeys(w: World, code: nat)
    requires w.q.Ok() && KeysOk(w.kb, w.scanned, w.dropped, w.stored)
    ensures var w' := Scanned(w, code); w'.halted == w.halted && KeysOk(w'.kb, w'.scanned, w'.dropped, w'.stored)
  {
    hide K.Handle;
    var bytes := w.scanned + [code];
    assert bytes[..|bytes| - 1] == w.scanned;
  }

  /** A keyboard interrupt leaves the threads alone and changes queue and screen in a simple way. */
  lemma ScanEffect(w: World, code: nat)
    requires w.q.Ok() && w.halted == 0
    ensures var w' := Scanned(w, code);
            && w'.s == w.s && w'.main == w.main && w'.task == w.task && w'.halted == 0
            && (w'.out == w.out || w'.out == w.out + [Unknown])
            && var l := Q.Log(w.q, w.stored, w.read); var l' := Q.Log(w'.q, w'.stored, w'.read);
               l' == l || l' == Q.Do(l, Q.Key(K.Handle(w.kb, code).offered))
  {
    hide K.Handle;
  }

  lemma ScanKeeps(w: World, code: nat)
    requires ConsumersInv(w) && Legal(w, Scan(code))
    ensures ConsumersInv(Next(w, Scan(code)))
  {
    hide Safe, Paired, Bytes, Q.LogOk, Typed, OtherOk, CurrentOk, KeysOk, K.Handle, Scanned;
    IntrMeansTop(w);
    var w' := Next(w, Scan(code));
    ScanEffect(w, code);
    ScanKeepsKeys(w, code);
    Q.DoKeepsLog(Q.Log(w.q, w.stored, w.read), Q.Key(K.Handle(w.kb, code).offered));
    ScanCurrent(w, w');
    ScanScreen(w, w');
    OthersKept(w, w');
  }

  lemma ScanCurrent(w: World, w': World)
    requires w.Cur() in w.s.ctl && Idle(w, w.Cur()) && w.s.intr && CONSOLE in w.s.locks && w.s.locks[CONSOLE] == FREE
    requires w.s.ctl[w.Cur()].frame == Active && w'.s == w.s && w'.task == w.task
    ensures CurrentOk(w')
  {
  }

  lemma ScanScreen(w: World, w': World)
    requires ScreenOk(w) && Printing(w) == Top && w'.s == w.s && w'.task == w.task && w'.read == w.read
    requires w'.out == w.out || w'.out == w.out + [Unknown]
    ensures ScreenOk(w')
  {
    hide ScreenFits;
    UnknownFits(w.Cur(), w.out, w.read);
  }

  lemma UnknownFits(cur: Tid, out: seq<Item>, read: seq<char>)
    requires ScreenFits(Top, cur, out, read)
    ensures ScreenFits(Top, cur, out + [Unknown], read)
  {
    hide Paired, Bytes;
    PrintUnknown(out);
  }

  lemma StartEffect(s: State, t: Tid, prio: nat)
    requires Typed(s) && Enabled(s, Start(t, prio)) && Step(s, Start(t, prio)).fault == NoFault
    ensures var s' := Step(s, Start(t, prio));
            t !in s.ctl && s'.Cur() == s.Cur()
            && s' == s.(sched := s'.sched, ctl := s.ctl[t := Ctl(Client, Fresh, true, map[])])
  {
  }

  lemma LaunchKeeps(w: World, t: Tid, prio: nat)
    requires ConsumersInv(w) && Legal(w, Launch(t, prio))
    ensures ConsumersInv(Next(w, Launch(t, prio)))
  {
    hide Safe, KeysOk, Paired, Bytes, Acquiring, Releasing, Q.LogOk, Typed, Step;
    MachineStep(w, Start(t, prio));
    StartEffect(w.s, t, prio);
    var w' := Next(w, Launch(t, prio));
    forall u | u in w'.s.ctl && u != w'.Cur() ensures OtherOk(w', u) { assert u != t ==> OtherOk(w, u); }
  }

  lemma StiKeeps(w: World)
    requires ConsumersInv(w) && Legal(w, Sti)
    ensures ConsumersInv(Next(w, Sti))
  {
    hide Safe, KeysOk, Paired, Bytes, Typed, OtherOk, Acquiring, Releasing, Q.LogOk;
    MachineStep(w, SetIntr(true));
    OthersKept(w, Next(w, Sti));
  }

  // ----- the steps of a consumer

  /** s' is s after the current thread's own statement: it goes on in control state c, and the console lock becomes lk. */
  predicate OwnStep(s: State, s': State, c: Ctl, lk: Lock) {
    s' == s.(ctl := s.ctl[s.Cur() := c], locks := s.locks[CONSOLE := lk])
  }

  /** One plain statement of lock_acquire or lock_release by t, with nobody else near the lock. */
  lemma PlainStatement(t: Tid, c: Ctl, lk: Lock)
    requires c.pc != Client && !c.pc.AcqDown? && !c.pc.RelUp? && (Acquiring(t, c, lk) || Releasing(t, c, lk))
    ensures Statement(t, c, lk).Next? && Statement(t, c, lk).c.frame == c.frame
    ensures Acquiring(t, c, lk) ==> Acquiring(t, Statement(t, c, lk).c, Statement(t, c, lk).lk)
    ensures Releasing(t, c, lk) ==> Releasing(t, Statement(t, c, lk).c, Statement(t, c, lk).lk)
  {
  }

  /** The lock is at a statement of the current thread, with interrupts off. */
  predicate InLockCall(s: State) {
    && s.fault == NoFault && !s.intr && CONSOLE in s.locks && s.Cur() in s.ctl
    && s.ctl[s.Cur()].frame == Active && s.ctl[s.Cur()].pc != Client
    && (Acquiring(s.Cur(), s.ctl[s.Cur()], s.locks[CONSOLE]) || Releasing(s.Cur(), s.ctl[s.Cur()], s.locks[CONSOLE]))
  }

  lemma AtConsole(s: State)
    requires InLockCall(s)
    ensures s.ctl[s.Cur()].pc.l == CONSOLE && !Runs.MustWait(s, Exec)
    ensures s.ctl[s.Cur()].pc.AcqDown? ==> s.locks[CONSOLE] == FREE && s.ctl[s.Cur()].Depth(CONSOLE) == 0
    ensures s.ctl[s.Cur()].pc.RelUp? ==> s.locks[CONSOLE] == Lock(0, [], None, 0) && s.ctl[s.Cur()].Depth(CONSOLE) == 1
  {
  }

  lemma AcquiringAt(t: Tid, c: Ctl, lk: Lock)
    requires c.pc == AcqOwn(CONSOLE) && lk == Lock(0, [], None, 0) && c.Depth(CONSOLE) == 0
    ensures Acquiring(t, c, lk)
  {
  }

  lemma ReleasedAt(t: Tid, c: Ctl)
    requires c.pc == Client && c.Depth(CONSOLE) == 0
    ensures Releasing(t, c, FREE)
  {
  }

  /** The kind of call does not change before it returns. */
  lemma OneKind(t: Tid, c: Ctl, lk: Lock)
    requires c.pc != Client
    ensures !(Acquiring(t, c, lk) && Releasing(t, c, lk))
    ensures c.pc.AcqDown? ==> !Releasing(t, c, lk)
    ensures c.pc.RelUp? ==> !Acquiring(t, c, lk)
  {
  }

  /** A statement of lock_acquire or lock_release with interrupts off and nobody else near the lock: it never waits. */
  lemma LockStatement(s: State)
    requires Typed(s) && InLockCall(s)
    ensures Enabled(s, Exec) && !Runs.MustWait(s, Exec)
    ensures var c := s.ctl[s.Cur()]; var lk := s.locks[CONSOLE]; var s' := Step(s, Exec);
            && s'.Cur() in s'.ctl && CONSOLE in s'.locks
            && var c' := s'.ctl[s.Cur()]; var lk' := s'.locks[CONSOLE];
            && OwnStep(s, s', c', lk') && c'.frame == Active
            && (Acquiring(s.Cur(), c, lk) ==> Acquiring(s.Cur(), c', lk'))
            && (Releasing(s.Cur(), c, lk) ==> Releasing(s.Cur(), c', lk'))
  {
    hide Acquiring, Releasing, Statement, Typed, Leave, BlockCurrent, Unblock;
    var t, c, lk := s.Cur(), s.ctl[s.Cur()], s.locks[CONSOLE];
    AtConsole(s);
    OneKind(t, c, lk);
    if c.pc.AcqDown? {
      AcquiringAt(t, c.(pc := AcqOwn(CONSOLE), frame := Active), lk.(value := 0));
    } else if c.pc.RelUp? {
      ReleasedAt(t, Released(c, CONSOLE));
    } else {
      PlainStatement(t, c, lk);
    }
  }

  lemma LockKeeps(w: World)
    requires ConsumersInv(w) && Legal(w, Move) && w.s.ctl[w.Cur()].pc != Client
    ensures ConsumersInv(Next(w, Move))
  {
    hide Safe, KeysOk, Paired, Bytes, Typed, Step, OtherOk, Acquiring, Releasing, Q.LogOk;
    LockStatement(w.s);
    MachineStep(w, Exec);
    OthersKept(w, Next(w, Move));
  }

  /** The state after a client's own action: it sets the flag, or enters lock_acquire or lock_release. */
  function AfterClient(s: State, a: Option<Action>): State
    requires s.Cur() in s.ctl
  {
    var c := s.ctl[s.Cur()];
    match a
    case Some(SetIntr(on)) => s.(ctl := s.ctl[s.Cur() := c.(own := on)], intr := on)
    case Some(CallAcquire(l)) => s.(ctl := s.ctl[s.Cur() := c.(pc := AcqTest(l))])
    case Some(CallRelease(l)) => s.(ctl := s.ctl[s.Cur() := c.(pc := RelAssert(l))])
    case _ => s
  }

  /** The consumer is about to take a step outside the lock calls. */
  ghost predicate ClientMove(w: World) {
    ConsumersInv(w) && Legal(w, Move) && w.s.ctl[w.Cur()].pc == Client
  }

  /** The machine's part of a statement outside the lock calls. */
  lemma ClientEffect(w: World)
    requires ClientMove(w)
    ensures w.Cur() in w.s.ctl && w.Cur() in w.task && Legal(w, Move)
    ensures var s' := Next(w, Move).s; s'.fault == NoFault && Safe(s') && s' == AfterClient(w.s, Todo(w))
  {
    hide Safe, KeysOk, Paired, Bytes, Typed, OtherOk, Q.LogOk, ScreenOk;
    if Todo(w).Some? { MachineStep(w, Todo(w).value); }
  }

  /** A statement of the consumer leaves the keyboard and the other consumers alone. */
  lemma LocalFrame(w: World)
    requires w.Cur() in w.s.ctl && w.Cur() in w.task && w.q.Ok()
    ensures var w' := Local(w);
            && w'.main == w.main && w'.kb == w.kb && w'.scanned == w.scanned && w'.dropped == w.dropped && w'.stored == w.stored
            && w'.task.Keys == w.task.Keys && (forall t :: t in w.task && t != w.Cur() ==> w'.task[t] == w.task[t])
  {
  }

  /** Only the current thread changes, and the lock does not. */
  lemma ClientFrame(w: World)
    requires ClientMove(w)
    ensures var s' := Next(w, Move).s;
            && s'.Cur() == w.Cur() && s'.ctl.Keys == w.s.ctl.Keys && s'.locks == w.s.locks
            && (forall t :: t in w.s.ctl && t != w.Cur() ==> s'.ctl[t] == w.s.ctl[t])
  {
    hide Safe, KeysOk, Typed, OtherOk, Q.LogOk, ScreenOk, Step, CurrentOk, Local, Next;
    ClientEffect(w);
  }

  /** A lock call has just begun, or a stage was passed without one. */
  lemma ClientCurrent(w: World)
    requires ClientMove(w)
    ensures var w' := Next(w, Move); w'.Cur() in w'.s.ctl && w'.s.locks == w.s.locks && CurrentOk(w') && w'.halted == 0
  {
    hide Safe, KeysOk, Typed, OtherOk, Q.LogOk, ScreenOk, Step, Acquiring, Releasing;
    ClientEffect(w);
    var c := w.s.ctl[w.Cur()];
    CallReturned(w.Cur(), c, w.s.locks[CONSOLE]);
    CallBegins(w.Cur(), c);
  }

  /** What the two calls leave when they have returned. */
  lemma CallReturned(t: Tid, c: Ctl, lk: Lock)
    requires c.pc == Client
    ensures Acquiring(t, c, lk) ==> lk == Lock(0, [], Some(t), 1) && c.Depth(CONSOLE) == 1
    ensures Releasing(t, c, lk) ==> lk == FREE && c.Depth(CONSOLE) == 0
  {
  }

  /** Where they start. */
  lemma CallBegins(t: Tid, c: Ctl)
    ensures c.Depth(CONSOLE) == 0 ==> Acquiring(t, c.(pc := AcqTest(CONSOLE)), FREE)
    ensures c.Depth(CONSOLE) == 1 ==> Releasing(t, c.(pc := RelAssert(CONSOLE)), Lock(0, [], Some(t), 1))
  {
  }

  /** Where the consumer is after its statement. */
  lemma ClientControl(w: World)
    requires ClientMove(w)
    ensures ControlOk(Next(w, Move)) && Next(w, Move).halted == 0
  {
    hide Safe, KeysOk, Typed, OtherOk, Q.LogOk, ScreenOk, CurrentOk, Local, Step, Todo;
    LocalFrame(w);
    ClientFrame(w);
    ClientCurrent(w);
    OthersKept(w, Next(w, Move));
  }

  lemma PrintTag(out: seq<Item>, t: Tid)
    ensures (out + [Tag(t)])[..|out|] == out
  {
  }

  lemma PrintChar(out: seq<Item>, t: Tid, b: char)
    requires |out| > 0 && out[|out| - 1] == Tag(t) && Paired(out[..|out| - 1])
    ensures Paired(out + [Ch(b)]) && Bytes(out + [Ch(b)]) == Bytes(out[..|out| - 1]) + [b]
  {
    var o := out + [Ch(b)];
    assert o[..|o| - 2] == out[..|out| - 1] && o[..|o| - 1] == out;
  }

  lemma PrintUnknown(out: seq<Item>)
    requires Paired(out)
    ensures Paired(out + [Unknown]) && Bytes(out + [Unknown]) == Bytes(out)
  {
    var o := out + [Unknown];
    assert o[..|o| - 1] == out;
  }

  /** What the screen and the queue show after it. */
  lemma ClientScreen(w: World)
    requires ClientMove(w)
    ensures var w' := Next(w, Move); ScreenOk(w') && Q.LogOk(Q.Log(w'.q, w'.stored, w'.read))
  {
    hide Safe, KeysOk, Paired, Bytes, Typed, OtherOk, Q.LogOk, Step, Acquiring, Releasing;
    ClientEffect(w);
    PrintTag(w.out, w.Cur());
    if w.task[w.Cur()].stage.CharLock? { PrintChar(w.out, w.Cur(), w.task[w.Cur()].stage.b); }
    if w.task[w.Cur()].stage.TagUnlock? { Q.DoKeepsLog(Q.Log(w.q, w.stored, w.read), Q.Read); }
  }

  lemma NextKeeps(w: World, e: Event)
    requires ConsumersInv(w) && Legal(w, e)
    ensures ConsumersInv(Next(w, e))
  {
    hide ConsumersInv, Legal, Next;
    match e
    case Tick => TickKeeps(w);
    case Scan(code) => ScanKeeps(w, code);
    case Back => BackKeeps(w);
    case Move => MoveKeeps(w);
    case Launch(t, prio) => LaunchKeeps(w, t, prio);
    case Sti => StiKeeps(w);
  }

  lemma MoveKeeps(w: World)
    requires ConsumersInv(w) && Legal(w, Move)
    ensures ConsumersInv(Next(w, Move))
  {
    hide Safe, KeysOk, ControlOk, ScreenOk, Q.LogOk, Local, Step, Todo, Typed;
    CurrentIsThread(w.s);
    if w.s.ctl[w.Cur()].pc != Client {
      LockKeeps(w);
    } else {
      ClientEffect(w);
      LocalFrame(w);
      ClientControl(w);
      ClientScreen(w);
    }
  }

  // ----- whole runs

  ghost predicate Run(w: World, es: seq<Event>)
    decreases |es|
  {
    es == [] || (Legal(w, es[0]) && Run(Next(w, es[0]), es[1..]))
  }

  ghost function After(w: World, es: seq<Event>): World
    requires Run(w, es)
    decreases |es|
  {
    if es == [] then w else After(Next(w, es[0]), es[1..])
  }

  /** After init_all: main runs with interrupts off, no consumer exists, the queue is empty. */
  ghost predicate Start0(w: World, lids: set<Lid>) {
    CONSOLE in lids && Q.Fresh(w.q) && w == World(Initial(w.main, lids), w.q, w.main, map[], [], NO_KEYS, [], 0, [], [], 0)
  }

  lemma {:induction false} RunKeepsConsumers(w: World, es: seq<Event>)
    requires ConsumersInv(w) && Run(w, es)
    ensures ConsumersInv(After(w, es))
    decreases |es|
  {
    hide ConsumersInv, Legal, Next;
    if es != [] {
      NextKeeps(w, es[0]);
      RunKeepsConsumers(Next(w, es[0]), es[1..]);
    }
  }

  lemma StartIsSafe(w: World, lids: set<Lid>)
    requires Start0(w, lids)
    ensures ConsumersInv(w)
  {
    hide Safe;
    InitialIsSafe(w.main, lids);
  }

  /**
   Over every run: no ASSERT fails, of ioqueue.c neither, so ioq_wait is never reached; bytes are read in the order they were
   stored, at most one is unread; and the console lock is free whenever interrupts are on.
   */
  lemma ConsumersAreSafe(w: World, lids: set<Lid>, es: seq<Event>)
    requires Start0(w, lids) && Run(w, es)
    ensures var w' := After(w, es);
            && w'.s.fault == NoFault && w'.halted == 0 && w'.q.Ok()
            && w'.stored == w'.read + w'.q.Unread() && |w'.q.Unread()| <= 1
            && CONSOLE in w'.s.locks && (w'.s.intr ==> w'.s.locks[CONSOLE] == Lock(1, [], None, 0))
  {
    hide Safe, KeysOk;
    StartIsSafe(w, lids);
    RunKeepsConsumers(w, es);
    if After(w, es).s.intr { IntrMeansTop(After(w, es)); }
  }

  /**
   Over every run: the screen shows each tag next to its byte, with reports of unknown keys only between
   such pairs, except that the last tag may still wait for its byte; and the bytes shown are those read, in
   order, but for one in the hand of a consumer.
   */
  lemma ScreenIsPaired(w: World, lids: set<Lid>, es: seq<Event>)
    requires Start0(w, lids) && Run(w, es)
    ensures var w' := After(w, es); var shown := Complete(w'.out);
            && Paired(shown) && TagsMeetBytes(shown) && (shown != w'.out ==> w'.out == shown + [Tag(w'.Cur())])
            && Bytes(shown) <= w'.read && |w'.read| <= |Bytes(shown)| + 1
            && (w'.s.intr ==> shown == w'.out && Bytes(shown) == w'.read)
  {
    hide Paired, Bytes, ConsumersInv, Run, After, Start0, Complete, ScreenOk, Printing, TagsMeetBytes;
    StartIsSafe(w, lids);
    RunKeepsConsumers(w, es);
    ScreenWhenOn(After(w, es));
    ScreenShape(After(w, es));
    PairedMeets(Complete(After(w, es).out));
  }

  lemma ScreenShape(w: World)
    requires ScreenOk(w)
    ensures var shown := Complete(w.out);
            && Paired(shown) && (shown != w.out ==> w.out == shown + [Tag(w.Cur())])
            && Bytes(shown) <= w.read && |w.read| <= |Bytes(shown)| + 1
            && (Printing(w) == Top ==> shown == w.out && Bytes(shown) == w.read)
  {
    hide Paired, Bytes, Printing;
    if !Printing(w).TagUnlock? && !Printing(w).CharLock? { PairedEnd(w.out); }
  }

  lemma PairedEnd(out: seq<Item>)
    requires Paired(out)
    ensures out != [] ==> !out[|out| - 1].Tag?
  {
  }

  lemma ScreenWhenOn(w: World)
    requires ConsumersInv(w)
    ensures ScreenOk(w) && (w.s.intr ==> Printing(w) == Top)
  {
    hide Safe, KeysOk, Printing, ScreenOk;
    if w.s.intr { IntrMeansTop(w); }
  }

  /** The emptiness check of main.c:39 still holds when the consumer comes to its ioq_getchar. */
  lemma CheckStillHolds(w: World, lids: set<Lid>, es: seq<Event>)
    requires Start0(w, lids) && Run(w, es)
    ensures var w' := After(w, es); var t := w'.Cur();
            t in w'.task && t in w'.s.ctl && w'.s.ctl[t].frame == Active && w'.task[t].stage in {TagLock, TagUnlock}
            ==> !w'.q.Empty() && !w'.s.intr
  {
    hide Safe, KeysOk, Paired, Bytes;
    StartIsSafe(w, lids);
    RunKeepsConsumers(w, es);
  }

  // ----- from the keyboard to the screen

  /** A character arrives while the last one is still unread. */
  predicate Overrun(w: World, e: Event)
    requires w.q.Ok()
  {
    e.Scan? && K.Handle(w.kb, e.code).offered != K.NUL && w.q.Unread() != []
  }

  /** No character of the run arrives while the last one is still unread. */
  ghost predicate NoOverrun(w: World, es: seq<Event>)
    requires Run(w, es)
    decreases |es|
  {
    es == [] || (!Overrun(w, es[0]) && NoOverrun(Next(w, es[0]), es[1..]))
  }

  lemma DropsOnOverrun(w: World, e: Event)
    requires ConsumersInv(w) && Legal(w, e)
    ensures Next(w, e).dropped == w.dropped + if Overrun(w, e) then 1 else 0
  {
    hide Safe, ControlOk, ScreenOk, KeysOk, K.Handle, Step, Typed, Enabled;
    Q.FullMeansOne(w.q);
  }

  /** Characters are lost exactly on overrun. */
  lemma {:induction false} LossExactlyOnOverrun(w: World, es: seq<Event>)
    requires ConsumersInv(w) && Run(w, es)
    ensures After(w, es).dropped >= w.dropped
    ensures After(w, es).dropped == w.dropped <==> NoOverrun(w, es)
    decreases |es|
  {
    hide ConsumersInv, Legal, Next, Overrun;
    if es != [] {
      QueueIsSound(w);
      NextKeeps(w, es[0]);
      DropsOnOverrun(w, es[0]);
      LossExactlyOnOverrun(Next(w, es[0]), es[1..]);
    }
  }

  /** The character that an event brings, if it brings one. */
  function Arriving(kb: K.Flags, e: Event): string {
    if e.Scan? && K.Handle(kb, e.code).offered != K.NUL then [K.Handle(kb, e.code).offered] else ""
  }

  /** The characters of a run that arrive while none is unread, in order. */
  ghost function InTime(w: World, es: seq<Event>): string
    requires Run(w, es)
    decreases |es|
  {
    if es == [] then ""
    else (if Overrun(w, es[0]) then "" else Arriving(w.kb, es[0])) + InTime(Next(w, es[0]), es[1..])
  }

  lemma EventStores(w: World, e: Event)
    requires ConsumersInv(w) && Legal(w, e)
    ensures Next(w, e).stored == w.stored + if Overrun(w, e) then "" else Arriving(w.kb, e)
  {
    hide Safe, ControlOk, ScreenOk, KeysOk, K.Handle, Step, Typed, Enabled;
    Q.FullMeansOne(w.q);
  }

  /** What is stored over a run, with losses or without: exactly the characters that arrive while none is unread. */
  lemma {:induction false} StoredIsInTime(w: World, es: seq<Event>)
    requires ConsumersInv(w) && Run(w, es)
    ensures After(w, es).stored == w.stored + InTime(w, es)
    decreases |es|
  {
    hide ConsumersInv, Legal, Next, Overrun, Arriving;
    if es != [] {
      QueueIsSound(w);
      NextKeeps(w, es[0]);
      EventStores(w, es[0]);
      StoredIsInTime(Next(w, es[0]), es[1..]);
    }
  }

  /** The scancodes of a run. */
  function Codes(es: seq<Event>): seq<nat> {
    if es == [] then [] else (if es[0].Scan? then [es[0].code] else []) + Codes(es[1..])
  }

  /** The reports of unknown keys on the screen. */
  function Unknowns(out: seq<Item>): nat {
    if out == [] then 0 else Unknowns(out[..|out| - 1]) + if out[|out| - 1].Unknown? then 1 else 0
  }

  lemma PrintOne(out: seq<Item>, i: Item)
    ensures Unknowns(out + [i]) == Unknowns(out) + if i.Unknown? then 1 else 0
  {
    assert (out + [i])[..|out + [i]| - 1] == out;
  }

  /** What one event does to the flags, the log of scancodes and the reports: only a scancode counts. */
  lemma EventOnKeys(w: World, e: Event)
    requires ConsumersInv(w) && Legal(w, e)
    ensures var w' := Next(w, e);
            && w'.scanned == w.scanned + Codes([e])
            && w'.kb == K.Feed(w.kb, Codes([e]))
            && Unknowns(w'.out) == Unknowns(w.out) + K.Reports(w.kb, Codes([e]))
            && K.AreBytes(Codes([e]))
  {
    hide Safe, ControlOk, ScreenOk, KeysOk, K.Handle, Step, Typed, Enabled, K.Feed, K.Reports, Unknowns, Local;
    assert Codes([e]) == if e.Scan? then [e.code] else [];
    if e.Scan? {
      K.FeedOne(w.kb, e.code);
      PrintOne(w.out, Unknown);
    } else {
      K.NothingFed(w.kb);
      CurrentIsThread(w.s);
      if e.Move? { LocalPrints(w); }
    }
  }

  lemma LocalPrints(w: World)
    requires w.Cur() in w.s.ctl && w.Cur() in w.task && w.q.Ok()
    ensures var w' := Local(w); w'.scanned == w.scanned && w'.kb == w.kb && Unknowns(w'.out) == Unknowns(w.out)
  {
    hide Unknowns;
    PrintOne(w.out, Tag(w.Cur()));
    if w.task[w.Cur()].stage.CharLock? { PrintOne(w.out, Ch(w.task[w.Cur()].stage.b)); }
  }

  lemma {:induction false} RunOnKeys(w: World, es: seq<Event>)
    requires ConsumersInv(w) && Run(w, es)
    ensures var w' := After(w, es);
            && w'.scanned == w.scanned + Codes(es) && w'.kb == K.Feed(w.kb, Codes(es)) && K.AreBytes(Codes(es))
            && Unknowns(w'.out) == Unknowns(w.out) + K.Reports(w.kb, Codes(es))
    decreases |es|
  {
    hide ConsumersInv, Legal, Next, K.Feed, K.Offers, K.Reports, K.AreBytes, Unknowns, Codes;
    NoCodes();
    if es == [] {
      K.NothingFed(w.kb);
    } else {
      NextKeeps(w, es[0]);
      EventOnKeys(w, es[0]);
      RunOnKeys(Next(w, es[0]), es[1..]);
      FirstCode(es);
      K.FeedAppend(w.kb, Codes([es[0]]), Codes(es[1..]));
    }
  }

  lemma NoCodes()
    ensures Codes([]) == [] && K.AreBytes([])
  {
  }

  lemma FirstCode(es: seq<Event>)
    requires es != []
    ensures Codes(es) == Codes([es[0]]) + Codes(es[1..])
    ensures K.AreBytes(Codes([es[0]])) && K.AreBytes(Codes(es[1..])) ==> K.AreBytes(Codes(es))
  {
    assert [es[0]][1..] == [];
  }

  /**
   Over every run the keyboard handler sees the scancodes of the keyboard, all of them in order: its flags are what they
   make of the flags before, and the screen shows one more report for each press of an unknown key among them.
   */
  lemma EveryCodeCounts(w: World, es: seq<Event>)
    requires ConsumersInv(w) && Run(w, es)
    ensures var w' := After(w, es);
            && w'.scanned == w.scanned + Codes(es)
            && w'.kb == K.Fold(w.kb, K.Parse(w.kb.ext, Codes(es))).(ext := K.Pending(w.kb.ext, Codes(es)))
            && Unknowns(w'.out) == Unknowns(w.out) + K.UnknownKeys(K.Parse(w.kb.ext, Codes(es)))
  {
    hide ConsumersInv, Run, After, K.Feed, K.Reports, K.Parse, K.Fold, K.UnknownKeys, Unknowns;
    RunOnKeys(w, es);
    K.HandlerIsFold(w.kb, Codes(es));
    K.ReportsAreUnknownKeys(w.kb, Codes(es));
  }

  lemma QueueIsSound(w: World)
    requires ConsumersInv(w)
    ensures w.q.Ok()
  {
  }

  /** End to end: typing a string without overrun, the consumers read and print that string, in order, but for what is still on its way. */
  lemma TypedStringIsPrinted(w: World, lids: set<Lid>, es: seq<Event>, typed: string)
    requires Start0(w, lids) && Run(w, es) && NoOverrun(w, es)
    requires K.AllTypable(typed) && Codes(es) == K.Encode(typed, false)
    ensures var w' := After(w, es);
            && w'.q.Ok() && typed == w'.read + w'.q.Unread() && Bytes(Complete(w'.out)) <= typed
            && (w'.s.intr && w'.q.Empty() ==> Bytes(w'.out) == typed)
  {
    hide Run, After, Start0, K.Encode, K.AllTypable, Q.Fresh, Paired, Bytes, K.Offers, K.Feed, NoOverrun, TagsMeetBytes;
    ConsumersAreSafe(w, lids, es);
    ScreenIsPaired(w, lids, es);
    var w' := After(w, es);
    StoredIsTyped(w, lids, es);
    K.TypingRoundTrip(NO_KEYS, typed);
    Q.FullMeansOne(w'.q);
  }

  lemma StoredIsTyped(w: World, lids: set<Lid>, es: seq<Event>)
    requires Start0(w, lids) && Run(w, es) && NoOverrun(w, es)
    ensures After(w, es).stored == K.Offers(NO_KEYS, Codes(es))
  {
    hide Codes, K.Offers, K.Feed, Safe, ControlOk, ScreenOk, Run, After, NoOverrun;
    StartIsSafe(w, lids);
    RunKeepsConsumers(w, es);
    LossExactlyOnOverrun(w, es);
    RunOnKeys(w, es);
    assert After(w, es).scanned == Codes(es);
  }

  // ----- a character is lost

  lemma ThreeEvents(w: World, a: Event, b: Event, c: Event)
    requires Legal(w, a) && Legal(Next(w, a), b) && Legal(Next(Next(w, a), b), c)
    ensures Run(w, [a, b, c]) && After(w, [a, b, c]) == Next(Next(Next(w, a), b), c)
  {
    hide Legal, Next;
    var w1 := Next(w, a);
    var w2 := Next(w1, b);
    assert [a, b, c][1..] == [b, c] && [b, c][1..] == [c] && [c][1..] == [];
    assert Run(Next(w2, c), []) && After(Next(w2, c), []) == Next(w2, c);
    assert Run(w2, [c]) && After(w2, [c]) == Next(w2, c);
    assert Run(w1, [b, c]) && After(w1, [b, c]) == Next(w2, c);
  }

  /** The first key finds an empty queue. */
  lemma FirstKey(w: World)
    requires w.kb == NO_KEYS && Q.Fresh(w.q) && w.stored == [] && w.halted == 0
    ensures var w' := Scanned(w, 0x10);
            w'.s == w.s && w'.kb == NO_KEYS && w'.q.Full() && w'.stored == ['q'] && w'.dropped == w.dropped
  {
  }

  /** The second one finds it full. */
  lemma SecondKey(w: World)
    requires w.kb == NO_KEYS && w.q.Ok() && w.q.Full()
    ensures var w' := Scanned(w, 0x11); w'.stored == w.stored && w'.dropped == w.dropped + 1
  {
  }

  lemma StiEffect(w: World, lids: set<Lid>)
    requires Start0(w, lids)
    ensures Legal(w, Sti)
    ensures var w' := Next(w, Sti);
            w'.s.intr && w'.kb == NO_KEYS && w'.q == w.q && w'.stored == [] && w'.dropped == 0 && w'.halted == 0
  {
  }

  /** With interrupts on and nobody reading, the second of two characters is dropped: 'q' is stored, 'w' is lost. */
  lemma SecondKeyIsLost(w: World, lids: set<Lid>)
    requires Start0(w, lids)
    ensures var es := [Sti, Scan(0x10), Scan(0x11)];
            Run(w, es) && After(w, es).stored == ['q'] && After(w, es).dropped == 1 && !NoOverrun(w, es)
  {
    hide ConsumersInv, Scanned, NoOverrun, Run, After, Typed, Step;
    StartIsSafe(w, lids);
    StiEffect(w, lids);
    StiKeeps(w);
    var w1 := Next(w, Sti);
    StillTyped(w1);
    FirstKey(w1);
    ScanKeeps(w1, 0x10);
    var w2 := Next(w1, Scan(0x10));
    StillTyped(w2);
    SecondKey(w2);
    ThreeEvents(w, Sti, Scan(0x10), Scan(0x11));
    LossExactlyOnOverrun(w, [Sti, Scan(0x10), Scan(0x11)]);
  }

  lemma StillTyped(w: World)
    requires ConsumersInv(w)
    ensures Typed(w.s) && w.q.Ok() && w.s.fault == NoFault && w.halted == 0
  {
    hide Safe, ControlOk, ScreenOk, KeysOk;
    SafeIsTyped(w.s);
  }
}
