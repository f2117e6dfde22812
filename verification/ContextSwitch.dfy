/**
 Context switches: switch_to of thread/switch.S, and init_thread, thread_create and
 running_thread of thread/thread.c. Memory holds, at an address, what the code accesses there
 as one object: a 32-bit word, or a byte of a PCB. A thread is named by the address of its
 page: the PCB is at its bottom, the stack comes down from its top.
 */
module ContextSwitch {

  type Words = map<nat, nat>

  function At(mem: Words, a: nat): nat { if a in mem then mem[a] else 0 }

  const PAGE: nat := 4096
  const PCB: nat := 68              // sizeof(struct task_struct)
  const NEW_STACK: nat := 3664      // 4096 - 4 * 76 - 4 * 32
  const MAGIC_AT: nat := 64         // the offset of stack_magic, the last field of the PCB
  const STACK_MAGIC: nat := 0x1234_5678

  /** The registers that switch_to deals with, and the memory; eax is scratch. */
  datatype Cpu = Cpu(mem: Words, esp: nat, ebp: nat, ebx: nat, esi: nat, edi: nat, eip: nat)

  /** running_thread(): esp & 0xfffff000. */
  function RunningThread(c: Cpu): nat { c.esp - c.esp % PAGE }

  function Push(c: Cpu, x: nat): Cpu
    requires c.esp >= 4
  {
    c.(esp := c.esp - 4, mem := c.mem[c.esp - 4 := x])
  }

  /** The call switch_to(cur, next): both arguments and the return address are pushed. */
  function CallSwitch(c: Cpu, cur: nat, next: nat, ret: nat): Cpu
    requires c.esp >= 12
  {
    Push(Push(Push(c, next), cur), ret)
  }

  /** The pops and the ret at the end of switch_to. */
  function PopAll(mem: Words, sp: nat): Cpu {
    Cpu(mem, sp + 20, At(mem, sp), At(mem, sp + 4), At(mem, sp + 12), At(mem, sp + 8), At(mem, sp + 16))
  }

  /** The first half of switch_to: push the registers, and store esp in the PCB of the first argument. */
  function Pushed(c: Cpu): Cpu
    requires c.esp >= 16
  {
    var s := Push(Push(Push(Push(c, c.esi), c.edi), c.ebx), c.ebp);
    s.(mem := s.mem[At(s.mem, s.esp + 20) := s.esp])
  }

  /** switch_to(), from its first instruction to its ret. */
  function Switched(c: Cpu): Cpu
    requires c.esp >= 16
  {
    var s := Pushed(c);
    PopAll(s.mem, At(s.mem, At(s.mem, s.esp + 24)))
  }

  /** memset(p, 0, n). */
  function Cleared(mem: Words, p: nat, n: nat): Words {
    if n == 0 then mem else Cleared(mem, p, n - 1)[p + n - 1 := 0]
  }

  /** The bytes xs stored from p on. */
  function Stored(mem: Words, p: nat, xs: seq<nat>): Words {
    if xs == [] then mem else Stored(mem, p, xs[..|xs| - 1])[p + |xs| - 1 := xs[|xs| - 1]]
  }

  lemma {:induction false} ClearedReads(mem: Words, p: nat, n: nat, a: nat)
    ensures At(Cleared(mem, p, n), a) == if p <= a < p + n then 0 else At(mem, a)
    decreases n
  {
    if n > 0 { ClearedReads(mem, p, n - 1, a); }
  }

  lemma {:induction false} StoredReads(mem: Words, p: nat, xs: seq<nat>, a: nat)
    ensures At(Stored(mem, p, xs), a) == if p <= a < p + |xs| then xs[a - p] else At(mem, a)
    decreases |xs|
  {
    if xs != [] { StoredReads(mem, p, xs[..|xs| - 1], a); }
  }

  /** init_thread(). */
  function WithPcb(mem: Words, page: nat, name: seq<nat>, prio: nat, status: nat): Words {
    Stored(Cleared(mem, page, PCB), page + 9, name + [0])
      [page + 4 := status][page + 8 := prio % 256][page := page + PAGE][page + 25 := 0][page + 28 := 0][page + 48 := 0]
      [page + MAGIC_AT := STACK_MAGIC]
  }

  /** thread_create(): the thread_stack at k, which is stored in self_kstack. */
  function WithStack(mem: Words, page: nat, k: nat, entry: nat, fn: nat, arg: nat): Words {
    mem[page := k][k + 16 := entry][k + 24 := fn][k + 28 := arg][k := 0][k + 4 := 0][k + 8 := 0][k + 12 := 0]
  }

  const TASK_RUNNING: nat := 0
  const TASK_READY: nat := 1

  /** The page of a new thread after init_thread and thread_create. */
  function NewThread(mem: Words, page: nat, name: seq<nat>, prio: nat, entry: nat, fn: nat, arg: nat): Words {
    WithStack(WithPcb(mem, page, name, prio, TASK_READY), page, page + NEW_STACK, entry, fn, arg)
  }

  /** What init_thread leaves at address a; the name has to fit its 16 bytes. */
  lemma PcbWritten(mem: Words, page: nat, name: seq<nat>, prio: nat, status: nat, a: nat)
    requires |name| < 16
    ensures At(WithPcb(mem, page, name, prio, status), a) ==
            if a < page || page + PCB <= a then At(mem, a)
            else if a == page then page + PAGE
            else if a == page + 4 then status
            else if a == page + 8 then prio % 256
            else if page + 9 <= a < page + 9 + |name| then name[a - page - 9]
            else if a == page + MAGIC_AT then STACK_MAGIC
            else 0
  {
    hide Cleared, Stored;
    ClearedReads(mem, page, PCB, a);
    StoredReads(Cleared(mem, page, PCB), page + 9, name + [0], a);
  }

  // ----- threads on their pages

  /** Where a thread goes on when it is resumed, with the memory at the time it was switched out. */
  datatype Context = Context(esp: nat, ebp: nat, ebx: nat, esi: nat, edi: nat, eip: nat, mem: Words)

  datatype World = World(cpu: Cpu, cur: nat, saved: map<nat, Context>)

  /** Execution by the running thread up to `cpu`, a call of switch_to, or the creation of a thread. */
  datatype Event = Go(cpu: Cpu) | Switch(next: nat, ret: nat) | Create(page: nat, name: seq<nat>, prio: nat, entry: nat, fn: nat, arg: nat)

  /** esp points into the stack part of the page. */
  predicate OnStack(page: nat, esp: nat) { page <= esp < page + PAGE && esp % 4 == 0 }

  /** A word that belongs to the suspended context of `page`: self_kstack, stack_magic, or the stack in use. */
  predicate Protected(page: nat, ctx: Context, a: nat) { a == page || a == page + MAGIC_AT || ctx.esp - 20 <= a < page + PAGE }

  /** A suspended thread has its five words between its PCB and the end of its page. */
  predicate FrameFits(page: nat, esp: nat) { page + PCB + 20 <= esp < page + PAGE && esp % 4 == 0 }

  /** The context is laid out on the page as switch_to expects it, and the stack above it is as it was. */
  ghost predicate Suspended(mem: Words, page: nat, ctx: Context) {
    && FrameFits(page, ctx.esp)
    && At(mem, page) == ctx.esp - 20 && At(mem, page + MAGIC_AT) == STACK_MAGIC
    && At(mem, ctx.esp - 20) == ctx.ebp && At(mem, ctx.esp - 16) == ctx.ebx
    && At(mem, ctx.esp - 12) == ctx.edi && At(mem, ctx.esp - 8) == ctx.esi && At(mem, ctx.esp - 4) == ctx.eip
    && (forall a: nat :: ctx.esp <= a < page + PAGE ==> At(mem, a) == At(ctx.mem, a))
  }

  /** The ASSERT of timer.c:46, for the thread on `page`. */
  predicate MagicIntact(mem: Words, page: nat) { At(mem, page + MAGIC_AT) == STACK_MAGIC }

  ghost predicate Inv(w: World) {
    && w.cur % PAGE == 0 && OnStack(w.cur, w.cpu.esp) && w.cur !in w.saved && MagicIntact(w.cpu.mem, w.cur)
    && (forall t :: t in w.saved ==> t % PAGE == 0 && Suspended(w.cpu.mem, t, w.saved[t]))
  }

  /** The running thread leaves the stacks of others alone; it may change most of their PCB fields and all other memory. */
  ghost predicate LeavesOthers(w: World, mem: Words) {
    forall t, a: nat :: t in w.saved && Protected(t, w.saved[t], a) ==> At(mem, a) == At(w.cpu.mem, a)
  }

  ghost predicate Legal(w: World, e: Event) {
    match e
    case Go(cpu) => OnStack(w.cur, cpu.esp) && LeavesOthers(w, cpu.mem) && MagicIntact(cpu.mem, w.cur)
    case Switch(next, _) => (next in w.saved || next == w.cur) && w.cur + PCB + 28 <= w.cpu.esp
    case Create(page, name, _, _, _, _) => page % PAGE == 0 && page !in w.saved && page != w.cur && |name| < 16
  }

  /** What a thread that calls switch_to now has to find when it is resumed. */
  function OwnContext(w: World, next: nat, ret: nat): Context
    requires w.cpu.esp >= 12
  {
    Context(w.cpu.esp - 8, w.cpu.ebp, w.cpu.ebx, w.cpu.esi, w.cpu.edi, ret, CallSwitch(w.cpu, w.cur, next, ret).mem)
  }

  ghost function Step(w: World, e: Event): World
    requires Legal(w, e)
  {
    match e
    case Go(cpu) => w.(cpu := cpu)
    case Switch(next, ret) =>
      World(Switched(CallSwitch(w.cpu, w.cur, next, ret)), next, w.saved[w.cur := OwnContext(w, next, ret)] - {next})
    case Create(page, name, prio, entry, fn, arg) =>
      var mem := NewThread(w.cpu.mem, page, name, prio, entry, fn, arg);
      World(w.cpu.(mem := mem), w.cur, w.saved[page := Context(page + NEW_STACK + 20, 0, 0, 0, 0, entry, mem)])
  }

  /** The registers and the stack are those of the context. */
  ghost predicate Resumed(c: Cpu, page: nat, ctx: Context) {
    && c.esp == ctx.esp && c.ebp == ctx.ebp && c.ebx == ctx.ebx && c.esi == ctx.esi && c.edi == ctx.edi && c.eip == ctx.eip
    && (forall a: nat :: ctx.esp <= a < page + PAGE ==> At(c.mem, a) == At(ctx.mem, a))
  }

  // ----- one step

  /** A suspended context does not notice writes outside its page. */
  lemma SuspendedElsewhere(mem: Words, mem': Words, page: nat, ctx: Context)
    requires Suspended(mem, page, ctx)
    requires forall a: nat :: Protected(page, ctx, a) ==> At(mem', a) == At(mem, a)
    ensures Suspended(mem', page, ctx)
  {
    assert forall a: nat :: ctx.esp - 20 <= a < page + PAGE ==> Protected(page, ctx, a);
    assert Protected(page, ctx, page) && Protected(page, ctx, page + MAGIC_AT);
  }

  /** The memory after the pushes of the call and of switch_to, and the store to self_kstack. */
  function SavedMem(c: Cpu, cur: nat, next: nat, ret: nat): Words
    requires c.esp >= 28
  {
    c.mem[c.esp - 4 := next][c.esp - 8 := cur][c.esp - 12 := ret]
      [c.esp - 16 := c.esi][c.esp - 20 := c.edi][c.esp - 24 := c.ebx][c.esp - 28 := c.ebp][cur := c.esp - 28]
  }

  lemma SwitchUnfolds(c: Cpu, cur: nat, next: nat, ret: nat)
    requires cur + PCB + 28 <= c.esp
    ensures var mem := SavedMem(c, cur, next, ret);
            Switched(CallSwitch(c, cur, next, ret)) == PopAll(mem, At(mem, next))
  {
    hide PopAll;
  }

  /** What SavedMem holds on the stack of the thread that called switch_to. */
  lemma SavedWords(c: Cpu, cur: nat, next: nat, ret: nat)
    requires cur + PCB + 28 <= c.esp
    ensures var mem := SavedMem(c, cur, next, ret); var k := c.esp - 28;
            && At(mem, cur + MAGIC_AT) == At(c.mem, cur + MAGIC_AT)
            && At(mem, cur) == k && At(mem, k) == c.ebp && At(mem, k + 4) == c.ebx && At(mem, k + 8) == c.edi
            && At(mem, k + 12) == c.esi && At(mem, k + 16) == ret
  {
  }

  lemma SavedAbove(c: Cpu, cur: nat, next: nat, ret: nat, a: nat)
    requires cur + PCB + 28 <= c.esp && c.esp - 8 <= a
    ensures At(SavedMem(c, cur, next, ret), a) == At(CallSwitch(c, cur, next, ret).mem, a)
  {
  }

  lemma RoomToSave(page: nat, esp: nat)
    requires OnStack(page, esp) && page + PCB + 28 <= esp
    ensures FrameFits(page, esp - 8) && esp < page + PAGE
  {
  }

  /** The thread that called switch_to is suspended as it wants to be resumed. */
  lemma SavesCurrent(w: World, next: nat, ret: nat)
    requires Inv(w) && Legal(w, Switch(next, ret))
    ensures Suspended(SavedMem(w.cpu, w.cur, next, ret), w.cur, OwnContext(w, next, ret))
  {
    hide SavedMem, CallSwitch, At, OnStack, FrameFits;
    var mem, ctx := SavedMem(w.cpu, w.cur, next, ret), OwnContext(w, next, ret);
    RoomToSave(w.cur, w.cpu.esp);
    SavedWords(w.cpu, w.cur, next, ret);
    assert At(mem, w.cur + MAGIC_AT) == STACK_MAGIC;
    hide Inv;
    forall a: nat | ctx.esp <= a < w.cur + PAGE ensures At(mem, a) == At(ctx.mem, a) { SavedAbove(w.cpu, w.cur, next, ret, a); }
  }

  lemma SavesOthers(w: World, next: nat, ret: nat, t: nat)
    requires Inv(w) && Legal(w, Switch(next, ret)) && t in w.saved
    ensures Suspended(SavedMem(w.cpu, w.cur, next, ret), t, w.saved[t])
  {
    hide Suspended;
    var mem := SavedMem(w.cpu, w.cur, next, ret);
    SuspendedBounds(w.cpu.mem, t, w.saved[t]);
    forall a: nat | Protected(t, w.saved[t], a) ensures At(mem, a) == At(w.cpu.mem, a) {
      OwnPageWrites(w, next, ret, t, a);
    }
    SuspendedElsewhere(w.cpu.mem, mem, t, w.saved[t]);
  }

  lemma SuspendedBounds(mem: Words, page: nat, ctx: Context)
    requires Suspended(mem, page, ctx)
    ensures page + PCB + 20 <= ctx.esp < page + PAGE
  {
  }

  lemma PagesApart(page: nat, other: nat, a: nat)
    requires page % PAGE == 0 && other % PAGE == 0 && page != other && page <= a < page + PAGE
    ensures a < other || other + PAGE <= a
  {
  }

  lemma OwnPageWrites(w: World, next: nat, ret: nat, t: nat, a: nat)
    requires Inv(w) && Legal(w, Switch(next, ret)) && t in w.saved && t <= a < t + PAGE
    ensures At(SavedMem(w.cpu, w.cur, next, ret), a) == At(w.cpu.mem, a)
  {
    hide Suspended;
    PagesApart(t, w.cur, a);
  }

  /** Popping a suspended context resumes it. */
  lemma PopResumes(mem: Words, page: nat, ctx: Context)
    requires Suspended(mem, page, ctx) && page % PAGE == 0
    ensures Resumed(PopAll(mem, At(mem, page)), page, ctx) && RunningThread(PopAll(mem, At(mem, page))) == page
    ensures PopAll(mem, At(mem, page)).mem == mem && OnStack(page, PopAll(mem, At(mem, page)).esp) && MagicIntact(mem, page)
  {
  }

  /** One call of switch_to: the next thread gets its own context back, and running_thread() names it. */
  lemma SwitchResumes(w: World, next: nat, ret: nat)
    requires Inv(w) && Legal(w, Switch(next, ret))
    ensures var w' := Step(w, Switch(next, ret));
            && Inv(w') && RunningThread(w'.cpu) == next
            && Resumed(w'.cpu, next, if next == w.cur then OwnContext(w, next, ret) else w.saved[next])
  {
    hide Suspended, Resumed, PopAll, Switched, CallSwitch;
    var mem := SavedMem(w.cpu, w.cur, next, ret);
    SwitchUnfolds(w.cpu, w.cur, next, ret);
    SavesCurrent(w, next, ret);
    forall t | t in w.saved ensures Suspended(mem, t, w.saved[t]) { SavesOthers(w, next, ret, t); }
    PopResumes(mem, next, if next == w.cur then OwnContext(w, next, ret) else w.saved[next]);
  }

  /** What thread_create leaves at address a. */
  lemma StackWritten(mem: Words, page: nat, k: nat, entry: nat, fn: nat, arg: nat, a: nat)
    requires page + 28 < k
    ensures At(WithStack(mem, page, k, entry, fn, arg), a) ==
            if a == page then k
            else if a == k + 16 then entry
            else if a == k + 24 then fn
            else if a == k + 28 then arg
            else if a in {k, k + 4, k + 8, k + 12} then 0
            else At(mem, a)
  {
  }

  lemma NewFrameFits(page: nat)
    requires page % PAGE == 0
    ensures FrameFits(page, page + NEW_STACK + 20)
  {
  }

  lemma NewThreadSuspended(mem: Words, page: nat, name: seq<nat>, prio: nat, entry: nat, fn: nat, arg: nat)
    requires page % PAGE == 0 && |name| < 16
    ensures var mem' := NewThread(mem, page, name, prio, entry, fn, arg);
            && Suspended(mem', page, Context(page + NEW_STACK + 20, 0, 0, 0, 0, entry, mem'))
            && (forall a: nat :: a < page || page + PAGE <= a ==> At(mem', a) == At(mem, a))
            && (forall a: nat :: page < a < page + PCB ==> At(mem', a) == At(WithPcb(mem, page, name, prio, TASK_READY), a))
            && At(mem', page + NEW_STACK + 24) == fn && At(mem', page + NEW_STACK + 28) == arg
  {
    hide WithPcb, WithStack, At, FrameFits;
    NewFrameFits(page);
    var pcb, k := WithPcb(mem, page, name, prio, TASK_READY), page + NEW_STACK;
    PcbWritten(mem, page, name, prio, TASK_READY, page + MAGIC_AT);
    forall a: nat ensures At(NewThread(mem, page, name, prio, entry, fn, arg), a) ==
        if a == page then k else if a == k + 16 then entry else if a == k + 24 then fn else if a == k + 28 then arg
        else if a in {k, k + 4, k + 8, k + 12} then 0 else At(pcb, a)
    {
      StackWritten(pcb, page, k, entry, fn, arg, a);
    }
    forall a: nat | a < page || page + PAGE <= a ensures At(pcb, a) == At(mem, a) { PcbWritten(mem, page, name, prio, TASK_READY, a); }
  }

  lemma CreateKeepsInv(w: World, e: Event)
    requires Inv(w) && Legal(w, e) && e.Create?
    ensures Inv(Step(w, e))
  {
    hide Suspended, NewThread, OnStack;
    var mem := NewThread(w.cpu.mem, e.page, e.name, e.prio, e.entry, e.fn, e.arg);
    NewThreadSuspended(w.cpu.mem, e.page, e.name, e.prio, e.entry, e.fn, e.arg);
    forall t | t in w.saved ensures Suspended(mem, t, w.saved[t]) {
      SuspendedBounds(w.cpu.mem, t, w.saved[t]);
      forall a: nat | Protected(t, w.saved[t], a) ensures At(mem, a) == At(w.cpu.mem, a) {
        PagesApart(t, e.page, a);
      }
      SuspendedElsewhere(w.cpu.mem, mem, t, w.saved[t]);
    }
  }

  lemma StepKeepsInv(w: World, e: Event)
    requires Inv(w) && Legal(w, e)
    ensures Inv(Step(w, e))
  {
    hide Suspended, Resumed, Switched, CallSwitch, NewThread;
    match e
    case Go(cpu) =>
      forall t | t in w.saved ensures Suspended(cpu.mem, t, w.saved[t]) {
        SuspendedElsewhere(w.cpu.mem, cpu.mem, t, w.saved[t]);
      }
    case Switch(next, ret) => SwitchResumes(w, next, ret);
    case Create(_, _, _, _, _, _) => CreateKeepsInv(w, e);
  }

  // ----- whole runs

  ghost predicate Run(w: World, es: seq<Event>)
    decreases |es|
  {
    es == [] || (Legal(w, es[0]) && Run(Step(w, es[0]), es[1..]))
  }

  ghost function After(w: World, es: seq<Event>): World
    requires Run(w, es)
    decreases |es|
  {
    if es == [] then w else After(Step(w, es[0]), es[1..])
  }

  /** No event resumes thread t. */
  predicate Away(es: seq<Event>, t: nat) { forall e <- es :: e.Switch? ==> e.next != t }

  /** While thread t is away its context is kept. */
  lemma {:induction false} ContextIsKept(w: World, es: seq<Event>, t: nat)
    requires Inv(w) && Run(w, es) && t in w.saved && Away(es, t)
    ensures Inv(After(w, es)) && t in After(w, es).saved && After(w, es).saved[t] == w.saved[t]
    decreases |es|
  {
    hide Inv, Switched, CallSwitch, NewThread, OwnContext, LeavesOthers;
    if es != [] {
      StepKeepsInv(w, es[0]);
      NotCurrent(w, t);
      assert es[0] in es && forall e <- es[1..] :: e in es;
      ContextIsKept(Step(w, es[0]), es[1..], t);
    }
  }

  lemma NotCurrent(w: World, t: nat)
    requires Inv(w) && t in w.saved
    ensures t != w.cur
  {
  }

  /**
   Context round trip: a thread calls switch_to, any number of threads run, are switched and created,
   and somebody switches back to it. It then has its own ebp, ebx, esi, edi, return address and stack.
   */
  lemma RoundTrip(w: World, next: nat, ret: nat, es: seq<Event>, ret2: nat)
    requires Inv(w) && Legal(w, Switch(next, ret)) && next != w.cur
    requires var w1 := Step(w, Switch(next, ret)); Run(w1, es) && Away(es, w.cur) && Legal(After(w1, es), Switch(w.cur, ret2))
    ensures var w1 := Step(w, Switch(next, ret));
            var c := Step(After(w1, es), Switch(w.cur, ret2)).cpu;
            && c.ebp == w.cpu.ebp && c.ebx == w.cpu.ebx && c.esi == w.cpu.esi && c.edi == w.cpu.edi
            && c.eip == ret && c.esp == w.cpu.esp - 8 && RunningThread(c) == w.cur
            && (forall a: nat :: w.cpu.esp <= a < w.cur + PAGE ==> At(c.mem, a) == At(w.cpu.mem, a))
  {
    hide Inv, Switched, Run, After, Suspended, LeavesOthers;
    SwitchResumes(w, next, ret);
    var w1 := Step(w, Switch(next, ret));
    ContextIsKept(w1, es, w.cur);
    var w2 := After(w1, es);
    NotCurrent(w2, w.cur);
    SwitchResumes(w2, w.cur, ret2);
  }

  /** A new thread enters `entry` (kernel_thread) with its own function and argument where a callee looks for them. */
  lemma NewThreadStarts(w: World, page: nat, name: seq<nat>, prio: nat, entry: nat, fn: nat, arg: nat, es: seq<Event>, ret: nat)
    requires Inv(w) && Legal(w, Create(page, name, prio, entry, fn, arg))
    requires var w1 := Step(w, Create(page, name, prio, entry, fn, arg)); Run(w1, es) && Away(es, page) && Legal(After(w1, es), Switch(page, ret))
    ensures var w1 := Step(w, Create(page, name, prio, entry, fn, arg));
            var c := Step(After(w1, es), Switch(page, ret)).cpu;
            && c.eip == entry && At(c.mem, c.esp + 4) == fn && At(c.mem, c.esp + 8) == arg
            && c.ebp == c.ebx == c.esi == c.edi == 0 && RunningThread(c) == page
  {
    hide Inv, Switched, Run, After, Suspended, LeavesOthers;
    var e := Create(page, name, prio, entry, fn, arg);
    StepKeepsInv(w, e);
    var w1 := Step(w, e);
    ContextIsKept(w1, es, page);
    var w2 := After(w1, es);
    NotCurrent(w2, page);
    SwitchResumes(w2, page, ret);
  }

  lemma PageOfStack(c: Cpu, page: nat)
    requires page % PAGE == 0 && OnStack(page, c.esp)
    ensures RunningThread(c) == page
  {
  }

  /** make_main_thread(): a thread that runs on its own page, its PCB initialised, starts a run. */
  lemma MainAlone(c: Cpu, page: nat, name: seq<nat>, prio: nat)
    requires page % PAGE == 0 && OnStack(page, c.esp) && |name| < 16
    ensures Inv(World(c.(mem := WithPcb(c.mem, page, name, prio, TASK_RUNNING)), page, map[])) && RunningThread(c) == page
  {
    hide WithPcb, OnStack, RunningThread;
    PageOfStack(c, page);
    PcbWritten(c.mem, page, name, prio, TASK_RUNNING, page + MAGIC_AT);
  }

  /** In every run from a single running thread, running_thread() is the thread that was switched to last, and its stack_magic is intact. */
  lemma {:induction false} RunningThreadIsCurrent(w: World, es: seq<Event>)
    requires Inv(w) && Run(w, es)
    ensures Inv(After(w, es)) && RunningThread(After(w, es).cpu) == After(w, es).cur
    ensures MagicIntact(After(w, es).cpu.mem, RunningThread(After(w, es).cpu))
    decreases |es|
  {
    hide Suspended, Switched, CallSwitch, NewThread, LeavesOthers, Legal, Step;
    if es != [] {
      StepKeepsInv(w, es[0]);
      RunningThreadIsCurrent(Step(w, es[0]), es[1..]);
    }
  }

  // ----- the instructions

  class Processor {
    var mem: Words
    var esp: nat
    var ebp: nat
    var ebx: nat
    var esi: nat
    var edi: nat
    var eax: nat
    var eip: nat

    ghost function View(): Cpu
      reads this
    {
      Cpu(mem, esp, ebp, ebx, esi, edi, eip)
    }

    method PushWord(x: nat)
      requires esp >= 4
      modifies this`mem, this`esp
      ensures View() == Push(old(View()), x)
    {
      esp := esp - 4;
      mem := mem[esp := x];
    }

    method PopWord() returns (x: nat)
      modifies this`esp
      ensures x == At(mem, old(esp)) && esp == old(esp) + 4
    {
      x := At(mem, esp);
      esp := esp + 4;
    }

    /** switch_to, instruction by instruction. */
    method SwitchTo()
      requires esp >= 16
      modifies this
      ensures View() == Switched(old(View()))
    {
      hide At;
      SaveContext();
      eax := At(mem, esp + 24);
      esp := At(mem, eax);
      LoadContext();
    }

    method SaveContext()
      requires esp >= 16
      modifies this
      ensures View() == Pushed(old(View()))
    {
      hide At;
      PushWord(esi);
      PushWord(edi);
      PushWord(ebx);
      PushWord(ebp);
      eax := At(mem, esp + 20);
      mem := mem[eax := esp];
    }

    method LoadContext()
      modifies this
      ensures View() == PopAll(old(mem), old(esp))
    {
      hide At;
      ebp := PopWord();
      ebx := PopWord();
      edi := PopWord();
      esi := PopWord();
      eip := PopWord();
    }

    /** running_thread(). */
    method CurrentThread() returns (page: nat)
      ensures page == RunningThread(View()) && page % PAGE == 0 && page <= esp < page + PAGE
    {
      page := esp / PAGE * PAGE;
    }

    /** memset(p, 0, n). */
    method Memset(p: nat, n: nat)
      modifies this`mem
      ensures mem == Cleared(old(mem), p, n)
    {
      for i := 0 to n
        invariant mem == Cleared(old(mem), p, i)
      {
        mem := mem[p + i := 0];
      }
    }

    /** strcpy(p, name): the bytes and the zero behind them. */
    method Strcpy(p: nat, name: seq<nat>)
      modifies this`mem
      ensures mem == Stored(old(mem), p, name + [0])
    {
      var bytes := name + [0];
      for i := 0 to |bytes|
        invariant mem == Stored(old(mem), p, bytes[..i])
      {
        assert bytes[..i + 1][..i] == bytes[..i];
        mem := mem[p + i := bytes[i]];
      }
      assert bytes[..|bytes|] == bytes;
    }

    /** init_thread(). */
    method InitThread(page: nat, name: seq<nat>, prio: nat, isMain: bool)
      requires |name| < 16
      modifies this`mem
      ensures mem == WithPcb(old(mem), page, name, prio, if isMain then TASK_RUNNING else TASK_READY)
    {
      Memset(page, PCB);
      Strcpy(page + 9, name);
      if isMain { mem := mem[page + 4 := TASK_RUNNING]; } else { mem := mem[page + 4 := TASK_READY]; }
      mem := mem[page + 8 := prio % 256];
      mem := mem[page := page + PAGE];
      mem := mem[page + 25 := 0];
      mem := mem[page + 28 := 0];
      mem := mem[page + 48 := 0];
      mem := mem[page + MAGIC_AT := STACK_MAGIC];
    }

    /** thread_create(); pointer arithmetic on uint32_t* counts in words. */
    method ThreadCreate(page: nat, entry: nat, fn: nat, arg: nat)
      requires At(mem, page) >= page + 4 * 76 + 4 * 32 + PCB
      modifies this`mem
      ensures mem == WithStack(old(mem), page, At(old(mem), page) - 4 * 76 - 4 * 32, entry, fn, arg)
    {
      hide At;
      mem := mem[page := At(mem, page) - 4 * 76];
      AtWritten(old(mem), page, At(old(mem), page) - 4 * 76);
      mem := mem[page := At(mem, page) - 4 * 32];
      AtWritten(old(mem), page, At(old(mem), page) - 4 * 76 - 4 * 32);
      var kstack := At(mem, page);
      mem := mem[kstack + 16 := entry];
      mem := mem[kstack + 24 := fn];
      mem := mem[kstack + 28 := arg];
      mem := mem[kstack := 0][kstack + 4 := 0][kstack + 8 := 0][kstack + 12 := 0];
    }

    /** init_thread and thread_create, as thread_start calls them. */
    method MakeThread(page: nat, name: seq<nat>, prio: nat, entry: nat, fn: nat, arg: nat)
      requires |name| < 16
      modifies this`mem
      ensures mem == NewThread(old(mem), page, name, prio, entry, fn, arg)
    {
      hide WithPcb, WithStack, At;
      PcbWritten(mem, page, name, prio, TASK_READY, page);
      InitThread(page, name, prio, false);
      ThreadCreate(page, entry, fn, arg);
    }
  }

  lemma AtWritten(mem: Words, a: nat, x: nat)
    ensures At(mem[a := x], a) == x && forall y: nat {:trigger mem[a := x][a := y]} :: mem[a := x][a := y] == mem[a := y]
  {
  }
}
