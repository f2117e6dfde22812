/**
 One turn of a consumer's loop: with a byte in the queue it prints its tag and that byte and comes back to the top,
 with an empty queue it comes back with nothing changed; nothing can come in between.
 */
module ConsumerTurn {
  import opened Options
  import opened Machine
  import opened Invariants
  import L = KernelCalls
  import Q = IoQueue
  import C = Consumers
  import opened Consumers

  function Moves(n: nat): seq<Event> { seq(n, i requires 0 <= i < n => Move) }

  function Execs(n: nat): seq<Action> { seq(n, i requires 0 <= i < n => Exec) }

  /** The current thread is a consumer that runs its own code, at this stage. */
  ghost predicate AtStage(w: World, stage: Stage) {
    && ConsumersInv(w) && w.Cur() in w.task && w.Cur() in w.s.ctl
    && w.s.ctl[w.Cur()].frame == Active && w.s.ctl[w.Cur()].pc == Client && w.task[w.Cur()].stage == stage
  }

  /** The events lead from w to w'. */
  ghost predicate Leads(w: World, es: seq<Event>, w': World) { Run(w, es) && After(w, es) == w' }

  lemma {:induction false} LeadsOn(w: World, es: seq<Event>, w1: World, fs: seq<Event>, w2: World)
    requires Leads(w, es, w1) && Leads(w1, fs, w2)
    ensures Leads(w, es + fs, w2)
    decreases |es|
  {
    hide Legal, C.Next;
    if es == [] {
      assert es + fs == fs;
    } else {
      assert (es + fs)[1..] == es[1..] + fs;
      LeadsOn(C.Next(w, es[0]), es[1..], w1, fs, w2);
    }
  }

  lemma MoreMoves(w: World, m: nat, w1: World, n: nat, w2: World)
    requires Leads(w, Moves(m), w1) && Leads(w1, Moves(n), w2)
    ensures Leads(w, Moves(m + n), w2)
  {
    LeadsOn(w, Moves(m), w1, Moves(n), w2);
    assert Moves(m) + Moves(n) == Moves(m + n);
  }

  lemma OneMove(w: World)
    requires Legal(w, Move)
    ensures Leads(w, Moves(1), C.Next(w, Move))
  {
    hide Legal, C.Next;
    assert Moves(1)[1..] == [];
    assert Run(C.Next(w, Move), []);
  }

  // ----- inside a lock call

  /** A statement of the call is a move of the consumer. */
  lemma ExecIsMove(w: World)
    requires ConsumersInv(w) && Typed(w.s) && Enabled(w.s, Exec)
    ensures Legal(w, Move) && C.Next(w, Move) == w.(s := Step(w.s, Exec)) && ConsumersInv(C.Next(w, Move))
  {
    hide Safe, KeysOk, ScreenOk, Acquiring, Releasing, OtherOk, Step, Typed;
    MustBeConsumer(w);
    MoveKeeps(w);
  }

  lemma MustBeConsumer(w: World)
    requires ConsumersInv(w) && w.Cur() in w.s.ctl && w.s.ctl[w.Cur()].pc != Client && w.s.ctl[w.Cur()].frame == Active
    ensures w.Cur() in w.task && w.q.Ok() && w.halted == 0 && w.s.fault == NoFault
  {
    hide Safe, KeysOk, ScreenOk;
  }

  lemma {:induction false} ExecsAreMoves(w: World, n: nat, s': State)
    requires ConsumersInv(w) && L.Does(w.s, Execs(n), s')
    ensures Leads(w, Moves(n), w.(s := s')) && ConsumersInv(w.(s := s'))
    decreases n
  {
    hide ConsumersInv, Legal, C.Next, Step, Typed, Enabled, Disciplined;
    if n == 0 {
      assert Execs(0) == [] && Moves(0) == [];
      assert w.(s := s') == w;
    } else {
      assert Execs(n)[0] == Exec && Execs(n)[1..] == Execs(n - 1);
      assert Moves(n)[0] == Move && Moves(n)[1..] == Moves(n - 1);
      ExecIsMove(w);
      ExecsAreMoves(C.Next(w, Move), n - 1, s');
    }
  }

  /** What is left of a lock call after it has begun. */
  lemma Begun(s: State, a: Action, n: nat, s': State)
    requires L.Does(s, [a] + Execs(n), s')
    ensures Typed(s) && Enabled(s, a) && L.Does(Step(s, a), Execs(n), s')
  {
    hide Step, Typed, Enabled, Disciplined;
    assert ([a] + Execs(n))[1..] == Execs(n);
  }

  /** A consumer between two lock calls: interrupts are off, and it holds the console lock or nobody does. */
  ghost predicate Between(w: World, stage: Stage, depth: nat) {
    && AtStage(w, stage) && !w.s.intr && w.task[w.Cur()].saved
    && CONSOLE in w.s.locks && L.InClient(w.s, CONSOLE, depth)
    && w.s.locks[CONSOLE] == if depth == 0 then FREE else Lock(0, [], Some(w.Cur()), 1)
  }

  lemma IsBetween(w: World, stage: Stage)
    requires AtStage(w, stage) && stage != Top
    ensures Between(w, stage, if stage.TagLock? || stage.CharLock? then 1 else 0)
    ensures stage.TagLock? || stage.TagUnlock? ==> !w.q.Empty()
  {
    hide Safe, KeysOk, ScreenOk, OtherOk, Acquiring, Releasing;
    CallReturned(w.Cur(), w.s.ctl[w.Cur()], w.s.locks[CONSOLE]);
  }

  /** The move that begins a lock call, or goes on without one. */
  lemma OwnMove(w: World, stage: Stage)
    requires AtStage(w, stage)
    requires Typed(w.s) && (Todo(w).Some? ==> Enabled(w.s, Todo(w).value))
    ensures Legal(w, Move) && ConsumersInv(C.Next(w, Move))
    ensures C.Next(w, Move) == Local(w).(s := if Todo(w).Some? then Step(w.s, Todo(w).value) else w.s)
  {
    hide Safe, KeysOk, ScreenOk, ControlOk, Step, Typed, Enabled, Todo, Local;
    MoveKeeps(w);
  }

  /** A whole lock call, from the move that begins it, when the call by itself leads from w.s to s'. */
  lemma CallMoves(w: World, stage: Stage, a: Action, n: nat, s': State)
    requires AtStage(w, stage) && Todo(w) == Some(a) && L.Does(w.s, [a] + Execs(n), s')
    ensures Leads(w, Moves(n + 1), Local(w).(s := s')) && ConsumersInv(Local(w).(s := s'))
  {
    hide ConsumersInv, Legal, Step, Typed, Enabled, Todo, Local, Leads;
    Begun(w.s, a, n, s');
    QueueIsSound(w);
    OwnMove(w, stage);
    OneMove(w);
    var w1 := C.Next(w, Move);
    ExecsAreMoves(w1, n, s');
    MoreMoves(w, 1, w1, n, w1.(s := s'));
  }

  /** lock_acquire from stage Check or TagUnlock. */
  lemma AcquireMoves(w: World, stage: Stage) returns (w': World)
    requires AtStage(w, stage) && (stage.Check? || stage.TagUnlock?) && !w.q.Empty() && w.q.Ok()
    ensures Leads(w, Moves(6), w') && w' == Local(w).(s := w'.s) && w'.s.sched == w.s.sched
    ensures AtStage(w', if stage.Check? then TagLock else CharLock(w.q.buffer[w.q.tail]))
  {
    hide Safe, KeysOk, ScreenOk, ControlOk, Step, Typed, L.Does, Leads, L.InClient, Acquired, ConsumersInv;
    IsBetween(w, stage);
    L.AcquireFree(w.s, CONSOLE);
    var s' := L.With(w.s, Acquired(w.s.ctl[w.Cur()], CONSOLE), CONSOLE, Lock(0, w.s.locks[CONSOLE].waiters, Some(w.Cur()), 1));
    assert [CallAcquire(CONSOLE), Exec, Exec, Exec, Exec, Exec] == [CallAcquire(CONSOLE)] + Execs(5);
    CallMoves(w, stage, CallAcquire(CONSOLE), 5, s');
    AcquiredRuns(w.s.ctl[w.Cur()]);
    w' := Local(w).(s := s');
  }

  lemma AcquiredRuns(c: Ctl)
    ensures Acquired(c, CONSOLE).pc == Client && Acquired(c, CONSOLE).frame == c.frame
    ensures Released(c, CONSOLE).pc == Client && Released(c, CONSOLE).frame == c.frame
  {
  }

  /** lock_release from stage TagLock or CharLock. */
  lemma ReleaseMoves(w: World, stage: Stage) returns (w': World)
    requires AtStage(w, stage) && (stage.TagLock? || stage.CharLock?) && w.q.Ok()
    ensures Leads(w, Moves(7), w') && w' == Local(w).(s := w'.s) && w'.s.sched == w.s.sched
    ensures AtStage(w', if stage.TagLock? then TagUnlock else CharUnlock)
  {
    hide Safe, KeysOk, ScreenOk, ControlOk, Step, Typed, L.Does, Leads, L.InClient, Released, ConsumersInv;
    IsBetween(w, stage);
    L.ReleaseLast(w.s, CONSOLE);
    var s' := L.FreedTo(w.s, CONSOLE);
    assert [CallRelease(CONSOLE), Exec, Exec, Exec, Exec, Exec, Exec] == [CallRelease(CONSOLE)] + Execs(6);
    CallMoves(w, stage, CallRelease(CONSOLE), 6, s');
    AcquiredRuns(w.s.ctl[w.Cur()]);
    w' := Local(w).(s := s');
  }

  /** intr_disable at the top of the loop. */
  lemma TopMove(w: World) returns (w': World)
    requires AtStage(w, Top) && w.q.Ok()
    ensures Leads(w, Moves(1), w') && w' == Local(w).(s := w'.s) && w'.s.sched == w.s.sched && AtStage(w', Check)
  {
    hide Safe, KeysOk, ScreenOk, Leads, OtherOk, Acquiring, Releasing;
    FlagCanChange(w, Top);
    OwnMove(w, Top);
    OneMove(w);
    w' := C.Next(w, Move);
  }

  lemma FlagCanChange(w: World, stage: Stage)
    requires AtStage(w, stage) && (stage.Top? || stage.Restore?)
    ensures Typed(w.s) && Todo(w).Some? && Todo(w).value.SetIntr? && Enabled(w.s, Todo(w).value)
  {
    hide Safe, KeysOk, ScreenOk, ControlOk;
    SafeIsTyped(w.s);
  }

  /** The rest of the turn, after the second console call or an empty queue. */
  lemma RestoreMove(w: World) returns (w': World)
    requires AtStage(w, Restore) && w.q.Ok()
    ensures Leads(w, Moves(1), w') && w' == Local(w).(s := w'.s) && w'.s.sched == w.s.sched && AtStage(w', Top) && w'.s.intr
  {
    hide Safe, KeysOk, ScreenOk, Leads, OtherOk, Acquiring, Releasing;
    IsBetween(w, Restore);
    FlagCanChange(w, Restore);
    OwnMove(w, Restore);
    OneMove(w);
    w' := C.Next(w, Move);
  }

  /** A stage that is passed without a machine step. */
  lemma PassMove(w: World, stage: Stage) returns (w': World)
    requires AtStage(w, stage) && w.q.Ok() && (stage.CharUnlock? || (stage.Check? && w.q.Empty()))
    ensures Leads(w, Moves(1), w') && w' == Local(w) && AtStage(w', Restore)
  {
    hide Safe, KeysOk, ScreenOk, ControlOk, Leads, Step;
    IsBetween(w, stage);
    SafeIsTyped(w.s);
    OwnMove(w, stage);
    OneMove(w);
    w' := C.Next(w, Move);
  }

  /** From the first move of a turn to its last, in the lock calls too, the consumer's own moves are the only events that can happen. */
  lemma NothingBetween(w: World, e: Event)
    requires ConsumersInv(w) && w.Cur() in w.task && w.Cur() in w.s.ctl && w.s.ctl[w.Cur()].frame == Active
    requires w.task[w.Cur()].stage != Top && Legal(w, e)
    ensures e == Move
  {
    hide Safe, KeysOk, ScreenOk, OtherOk, Acquiring, Releasing, Typed, Todo;
  }

  /** Only what the consumer reads and prints has changed. */
  predicate OnlyPrints(w: World, w': World) {
    w'.s.sched == w.s.sched && w'.kb == w.kb && w'.stored == w.stored && w'.dropped == w.dropped
  }

  /** console_put_str(). */
  lemma TagIsPrinted(w: World) returns (w': World)
    requires AtStage(w, Check) && w.q.Ok() && !w.q.Empty()
    ensures Leads(w, Moves(13), w') && AtStage(w', TagUnlock) && OnlyPrints(w, w')
    ensures w'.out == w.out + [Tag(w.Cur())] && w'.read == w.read && w'.q == w.q
  {
    hide AtStage, Leads;
    QueueStaysOk(w, Check);
    var w1 := AcquireMoves(w, Check);
    QueueStaysOk(w1, TagLock);
    w' := ReleaseMoves(w1, TagLock);
    MoreMoves(w, 6, w1, 7, w');
  }

  /** ioq_getchar() and console_put_char(). */
  lemma ByteIsPrinted(w: World) returns (w': World)
    requires AtStage(w, TagUnlock) && w.q.Ok() && !w.q.Empty()
    ensures Leads(w, Moves(13), w') && AtStage(w', CharUnlock) && OnlyPrints(w, w')
    ensures var b := w.q.buffer[w.q.tail]; w'.out == w.out + [Ch(b)] && w'.read == w.read + [b] && w'.q == Q.Get(w.q)
  {
    hide AtStage, Leads;
    QueueStaysOk(w, TagUnlock);
    var b := w.q.buffer[w.q.tail];
    var w1 := AcquireMoves(w, TagUnlock);
    QueueStaysOk(w1, CharLock(b));
    w' := ReleaseMoves(w1, CharLock(b));
    MoreMoves(w, 6, w1, 7, w');
  }

  /** With a byte in the queue, one turn of the loop prints the consumer's tag and the oldest byte, which it takes, and comes back to the top. */
  lemma TurnPrints(w: World) returns (w': World)
    requires AtStage(w, Top) && w.q.Ok() && !w.q.Empty()
    ensures Leads(w, Moves(29), w') && AtStage(w', Top) && w'.s.intr && OnlyPrints(w, w')
    ensures var b := w.q.buffer[w.q.tail];
            w'.out == w.out + [Tag(w.Cur()), Ch(b)] && w'.read == w.read + [b] && w'.q == Q.Get(w.q)
  {
    hide AtStage, Leads, Q.Get;
    QueueStaysOk(w, Top);
    var w1 := TopMove(w);
    QueueStaysOk(w1, Check);
    var w2 := TagIsPrinted(w1);
    QueueStaysOk(w2, TagUnlock);
    var w3 := ByteIsPrinted(w2);
    QueueStaysOk(w3, CharUnlock);
    var w4 := PassMove(w3, CharUnlock);
    QueueStaysOk(w4, Restore);
    w' := RestoreMove(w4);
    MoreMoves(w, 1, w1, 13, w2);
    MoreMoves(w, 14, w2, 13, w3);
    MoreMoves(w, 27, w3, 1, w4);
    MoreMoves(w, 28, w4, 1, w');
  }

  lemma QueueStaysOk(w: World, stage: Stage)
    requires AtStage(w, stage)
    ensures w.q.Ok() && w.Cur() in w.task && w.Cur() in w.s.ctl && w.s.ctl[w.Cur()].pc == Client && w.task[w.Cur()].stage == stage
    ensures stage != Top ==> !w.s.intr
  {
    hide Safe, KeysOk, ScreenOk, OtherOk, Acquiring, Releasing;
  }

  /** With an empty queue it comes back to the top, and neither screen nor queue has changed. */
  lemma TurnIdles(w: World) returns (w': World)
    requires AtStage(w, Top) && w.q.Ok() && w.q.Empty()
    ensures Leads(w, Moves(3), w') && AtStage(w', Top) && w'.s.intr && OnlyPrints(w, w')
    ensures w'.out == w.out && w'.read == w.read && w'.q == w.q
  {
    hide AtStage, Leads;
    QueueStaysOk(w, Top);
    var w1 := TopMove(w);
    QueueStaysOk(w1, Check);
    var w2 := PassMove(w1, Check);
    QueueStaysOk(w2, Restore);
    w' := RestoreMove(w2);
    MoreMoves(w, 1, w1, 1, w2);
    MoreMoves(w, 2, w2, 1, w');
  }
}
