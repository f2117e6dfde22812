/**
 What calls of lock_acquire and lock_release amount to: over every run a thread's depth is the number of its
 calls of the one minus those of the other, and each call by itself, in every safe state, does what it is for;
 so do thread_block and thread_unblock.
 */
module KernelCalls {
  import opened Options
  import opened Scheduler
  import opened Machine
  import opened Invariants
  import opened Runs

  // ----- counting calls

  /** What an action adds to the calls of thread t: 1 for lock_acquire on l, -1 for lock_release on l. */
  function CallOn(s: State, a: Action, t: Tid, l: Lid): int {
    if s.Cur() != t then 0 else if a == CallAcquire(l) then 1 else if a == CallRelease(l) then -1 else 0
  }

  /** How many more lock_acquire than lock_release calls on l thread t makes in a run. */
  ghost function NetCalls(s: State, acts: seq<Action>, t: Tid, l: Lid): int
    requires ValidRun(s, acts)
    decreases |acts|
  {
    if acts == [] then 0 else CallOn(s, acts[0], t, l) + NetCalls(Step(s, acts[0]), acts[1..], t, l)
  }

  /** The call that a thread is in: 1 for lock_acquire on l, -1 for lock_release on l. */
  function InCall(pc: Pc, l: Lid): int {
    if pc in {AcqTest(l), AcqNest(l), AcqDown(l), AcqOwn(l), AcqAssert(l), AcqCount(l)} then 1
    else if pc in {RelAssert(l), RelTest(l), RelDec(l), RelLast(l), RelClear(l), RelZero(l), RelUp(l)} then -1
    else 0
  }

  function BalanceBy(c: Ctl, l: Lid): int { c.Depth(l) + InCall(c.pc, l) }

  /** The depth of thread t once the call it is in has returned. */
  function Balance(s: State, t: Tid, l: Lid): int { if t in s.ctl then BalanceBy(s.ctl[t], l) else 0 }

  lemma StatementKeepsBalance(t: Tid, c: Ctl, lk: Lock, l: Lid)
    requires HasLock(c.pc) && !c.pc.AcqDown? && !c.pc.RelUp? && PcOk(c)
    ensures Statement(t, c, lk).Next? ==> BalanceBy(Statement(t, c, lk).c, l) == BalanceBy(c, l)
  {
  }

  lemma DownKeepsBalance(s: State, k: Lid, saved: bool, l: Lid)
    requires Typed(s) && k in s.locks && s.ctl[s.Cur()].pc == AcqDown(k)
    ensures Balance(DownLoop(s, k, saved), s.Cur(), l) == Balance(s, s.Cur(), l)
  {
    hide BlockCurrent;
  }

  lemma UpKeepsBalance(s: State, k: Lid, l: Lid)
    requires Typed(s) && s.fault == NoFault && k in s.locks && s.ctl[s.Cur()].pc == RelUp(k) && PcOk(s.ctl[s.Cur()])
    ensures Balance(SemaUp(s, k), s.Cur(), l) == Balance(s, s.Cur(), l)
  {
    hide SemaUp, Typed;
    SemaUpMoves(s, k);
  }

  lemma ExecKeepsBalance(s: State, t: Tid, l: Lid)
    requires Safe(s) && Typed(s) && s.fault == NoFault && HasLock(s.ctl[s.Cur()].pc)
    ensures Balance(ExecStep(s), t, l) == Balance(s, t, l)
  {
    hide Statement, DownLoop, SemaUp, BalanceBy, PcOk;
    ExecMoves(s);
    assert CtlOk(s, s.Cur());
    var c := s.ctl[s.Cur()];
    if s.Cur() == t {
      if c.pc.AcqDown? { DownKeepsBalance(s.(intr := false), c.pc.l, s.intr, l); }
      else if c.pc.RelUp? { UpKeepsBalance(s, c.pc.l, l); }
      else { StatementKeepsBalance(t, c, s.locks[c.pc.l], l); }
    }
  }

  lemma ResumeKeepsBalance(s: State, t: Tid, l: Lid)
    requires Safe(s) && Typed(s)
    ensures Balance(ResumeStep(s), t, l) == Balance(s, t, l)
  {
    hide DownLoop;
    ResumeMoves(s);
    assert CtlOk(s, s.Cur());
    var c := s.ctl[s.Cur()];
    if s.Cur() == t && c.frame.InSema? { DownKeepsBalance(s, c.pc.l, c.frame.saved, l); }
  }

  lemma LeaveKeepsBalance(s: State, f: Frame, o: Outcome, t: Tid, l: Lid)
    requires s.Cur() in s.ctl
    ensures Balance(Leave(s, f, o), t, l) == Balance(s, t, l)
  {
  }

  lemma CallBalances(c: Ctl, k: Lid, l: Lid)
    requires c.pc == Client
    ensures BalanceBy(c.(pc := AcqTest(k)), l) == BalanceBy(c, l) + if k == l then 1 else 0
    ensures BalanceBy(c.(pc := RelAssert(k)), l) == BalanceBy(c, l) - if k == l then 1 else 0
  {
  }

  lemma NewBalance(l: Lid)
    ensures BalanceBy(Ctl(Client, Fresh, true, map[]), l) == 0
  {
  }

  /** Every step adds to the balance of each thread exactly the call that the thread makes in it. */
  lemma StepBalances(s: State, a: Action, t: Tid, l: Lid)
    requires Safe(s) && Typed(s) && Enabled(s, a)
    ensures Balance(Step(s, a), t, l) == Balance(s, t, l) + CallOn(s, a, t, l)
  {
    hide Safe, ExecStep, ResumeStep, BlockCurrent, TimerTick, Unblock, StartThread, Leave, InCall;
    CurrentExists(s);
    match a
    case Exec => ExecKeepsBalance(s, t, l);
    case CallAcquire(k) => CallBalances(s.ctl[s.Cur()], k, l);
    case CallRelease(k) => CallBalances(s.ctl[s.Cur()], k, l);
    case Start(u, prio) => NewBalance(l);
    case Resume => ResumeKeepsBalance(s, t, l);
    case Timer => LeaveKeepsBalance(s.(intr := false), Preempted, TimerTick(s.sched), t, l);
    case Block(stat) => LeaveKeepsBalance(s.(intr := false), InBlock(s.intr), BlockCurrent(s.sched, stat), t, l);
    case _ =>
  }

  /** Over every run from a safe state each thread's balance grows by its calls. */
  lemma {:induction false} RunBalances(s: State, acts: seq<Action>, t: Tid, l: Lid)
    requires Inv(s) && s.fault == NoFault && ValidRun(s, acts) && StateAt(s, acts, |acts|).fault == NoFault
    ensures Balance(StateAt(s, acts, |acts|), t, l) == Balance(s, t, l) + NetCalls(s, acts, t, l)
    decreases |acts|
  {
    hide Safe, Step, Typed, Enabled, Disciplined, Balance, CallOn;
    if acts != [] {
      StepKeepsInv(s, acts[0]);
      StepBalances(s, acts[0], t, l);
      FaultStays(Step(s, acts[0]), acts[1..], |acts| - 1);
      RunBalances(Step(s, acts[0]), acts[1..], t, l);
    }
  }

  /**
   In every run from boot, a thread that runs its own code has each lock as often as it has called lock_acquire more often than
   lock_release: it owns the lock, and is recorded with that count, exactly if it has done so at least once.
   */
  lemma DepthCountsCalls(main: Tid, lids: set<Lid>, acts: seq<Action>, t: Tid, l: Lid)
    requires ValidRun(Initial(main, lids), acts) && StateAt(Initial(main, lids), acts, |acts|).fault == NoFault
    requires var s := StateAt(Initial(main, lids), acts, |acts|); l in s.locks && t in s.ctl && s.ctl[t].pc == Client
    ensures var s := StateAt(Initial(main, lids), acts, |acts|); var n := NetCalls(Initial(main, lids), acts, t, l);
            && s.ctl[t].Depth(l) == n
            && (Owns(s, t, l) <==> n > 0)
            && (n > 0 ==> s.locks[l] == Lock(0, s.locks[l].waiters, Some(t), n))
            && (n == 0 ==> s.locks[l].holder != Some(t))
  {
    hide Safe, Step, StateAt, ValidRun, NetCalls, Reachable;
    var s0 := Initial(main, lids);
    var s := StateAt(s0, acts, |acts|);
    InitialIsSafe(main, lids);
    RunBalances(s0, acts, t, l);
    assert ReachedBy(s, main, lids, acts);
    ReachableBy(s, main, lids, acts);
    MutualExclusion(s, l);
  }

  lemma ReachableBy(s: State, main: Tid, lids: set<Lid>, acts: seq<Action>)
    requires ReachedBy(s, main, lids, acts)
    ensures Reachable(s)
  {
  }

  /**
   Between any two states of a run in which a thread runs its own code and holds the lock, whatever others do in between,
   holder_repeat_nr has grown by its lock_acquire calls and fallen by its lock_release calls.
   */
  lemma RepeatCountsCalls(s: State, acts: seq<Action>, t: Tid, l: Lid)
    requires Inv(s) && s.fault == NoFault && ValidRun(s, acts) && StateAt(s, acts, |acts|).fault == NoFault
    requires var s' := StateAt(s, acts, |acts|);
             && l in s.locks && Owns(s, t, l) && s.ctl[t].pc == Client
             && l in s'.locks && Owns(s', t, l) && s'.ctl[t].pc == Client
    ensures StateAt(s, acts, |acts|).locks[l].repeat == s.locks[l].repeat + NetCalls(s, acts, t, l)
  {
    hide SchedInv, CtlInv, WaitersOk, WakeOk, Step, StateAt, ValidRun, NetCalls;
    RunBalances(s, acts, t, l);
    RunKeepsInv(s, acts, |acts|);
    assert LockInv(s, l) && LockInv(StateAt(s, acts, |acts|), l);
  }

  // ----- one call by itself

  /** The actions, one after the other, lead from s to s'. */
  ghost predicate Does(s: State, acts: seq<Action>, s': State) { ValidRun(s, acts) && StateAt(s, acts, |acts|) == s' }

  lemma DoesNothing(s: State)
    ensures Does(s, [], s)
  {
  }

  lemma Then(s: State, a: Action, acts: seq<Action>, s': State)
    requires Typed(s) && Enabled(s, a) && Disciplined(s, a) && Does(Step(s, a), acts, s')
    ensures Does(s, [a] + acts, s')
  {
    hide Step, Typed, Enabled, Disciplined;
    assert ([a] + acts)[1..] == acts;
  }

  /** s with the current thread in control state c and lock l in state lk. */
  function With(s: State, c: Ctl, l: Lid, lk: Lock): State
    requires s.Cur() in s.ctl
  {
    SetCtl(s, c).(locks := s.locks[l := lk])
  }

  /** The current thread runs, in its own code or in a call on l. */
  ghost predicate RunsOn(s: State, c: Ctl, l: Lid, lk: Lock) {
    && Typed(s) && s.fault == NoFault && l in s.locks && c.frame == Active && (HasLock(c.pc) ==> c.pc.l == l)
    && lk.waiters == s.locks[l].waiters
  }

  lemma WithTyped(s: State, c: Ctl, l: Lid, lk: Lock)
    requires RunsOn(s, c, l, lk)
    ensures Typed(With(s, c, l, lk))
  {
  }

  /** One statement of the call, followed by the rest of it. */
  lemma ThenStatement(s: State, c: Ctl, l: Lid, lk: Lock, acts: seq<Action>, s': State)
    requires RunsOn(s, c, l, lk) && HasLock(c.pc) && !c.pc.AcqDown? && !c.pc.RelUp? && Statement(s.Cur(), c, lk).Next?
    requires Does(With(s, Statement(s.Cur(), c, lk).c, l, Statement(s.Cur(), c, lk).lk), acts, s')
    ensures Does(With(s, c, l, lk), [Exec] + acts, s')
  {
    hide Statement, Typed, Does;
    CurrentExists(s);
    WithTyped(s, c, l, lk);
    OverWith(s, c, l, lk, Statement(s.Cur(), c, lk).c, Statement(s.Cur(), c, lk).lk);
    assert Step(With(s, c, l, lk), Exec) == With(s, Statement(s.Cur(), c, lk).c, l, Statement(s.Cur(), c, lk).lk);
    Then(With(s, c, l, lk), Exec, acts, s');
  }

  lemma OverWith(s: State, c: Ctl, l: Lid, lk: Lock, c': Ctl, lk': Lock)
    requires s.Cur() in s.ctl
    ensures With(With(s, c, l, lk), c', l, lk') == With(s, c', l, lk')
  {
    assert s.ctl[s.Cur() := c][s.Cur() := c'] == s.ctl[s.Cur() := c'];
    assert s.locks[l := lk][l := lk'] == s.locks[l := lk'];
  }

  lemma CurrentExists(s: State)
    requires Typed(s)
    ensures s.Cur() in s.ctl
  {
  }

  /** The current thread runs its own code, and n is its depth on l. */
  ghost predicate InClient(s: State, l: Lid, n: nat) {
    && Safe(s) && s.fault == NoFault && l in s.locks
    && s.Cur() in s.ctl && s.ctl[s.Cur()].frame == Active && s.ctl[s.Cur()].pc == Client && s.ctl[s.Cur()].Depth(l) == n
  }

  /** What that says about the lock. */
  lemma LockSeen(s: State, l: Lid, n: nat)
    requires InClient(s, l, n)
    ensures var c := s.ctl[s.Cur()]; forall pc :: (HasLock(pc) ==> pc.l == l) ==> RunsOn(s, c.(pc := pc), l, s.locks[l])
    ensures var lk := s.locks[l]; if n > 0 then lk == Lock(0, lk.waiters, Some(s.Cur()), n) else lk.holder != Some(s.Cur())
    ensures var lk := s.locks[l]; lk.value == 1 ==> lk == Lock(1, lk.waiters, None, 0)
    ensures s.locks[l].value == 0 || s.locks[l].value == 1
    ensures s.Cur() !in s.locks[l].waiters
  {
    hide WakeOk;
    SafeIsTyped(s);
    assert LockInv(s, l) && CtlOk(s, s.Cur());
    if n > 0 { assert Owns(s, s.Cur(), l); }
    if s.locks[l].value == 0 {
      var t :| Owns(s, t, l);
      assert CtlOk(s, t);
    }
    assert !Waits(s, s.Cur(), l);
  }

  /** The call itself. */
  lemma ThenBody(s: State, l: Lid, acquire: bool, acts: seq<Action>, s': State)
    requires Typed(s) && s.fault == NoFault && l in s.locks && s.ctl[s.Cur()].frame == Active && s.ctl[s.Cur()].pc == Client
    requires var n := s.ctl[s.Cur()].Depth(l); if acquire then n < 0xffff_ffff else n > 0
    requires Does(With(s, s.ctl[s.Cur()].(pc := if acquire then AcqTest(l) else RelAssert(l)), l, s.locks[l]), acts, s')
    ensures Does(s, [if acquire then CallAcquire(l) else CallRelease(l)] + acts, s')
  {
    hide Typed, Does;
    assert s.locks[l := s.locks[l]] == s.locks;
    Then(s, if acquire then CallAcquire(l) else CallRelease(l), acts, s');
  }

  /** lock_acquire by the holder: the count and the depth grow by one, and nothing else changes. */
  lemma AcquireAgain(s: State, l: Lid, n: nat)
    requires InClient(s, l, n) && 0 < n < 0xffff_ffff
    ensures var t := s.Cur();
            Does(s, [CallAcquire(l), Exec, Exec], With(s, Acquired(s.ctl[t], l), l, s.locks[l].(repeat := n + 1)))
  {
    hide Safe, Typed, Does, RunsOn, With;
    LockSeen(s, l, n);
    var c, lk := s.ctl[s.Cur()], s.locks[l];
    var end := With(s, Acquired(c, l), l, lk.(repeat := n + 1));
    DoesNothing(end);
    ThenStatement(s, c.(pc := AcqNest(l)), l, lk, [], end);
    ThenStatement(s, c.(pc := AcqTest(l)), l, lk, [Exec] + [], end);
    SafeIsTyped(s);
    ThenBody(s, l, true, [Exec] + ([Exec] + []), end);
    assert [CallAcquire(l)] + ([Exec] + ([Exec] + [])) == [CallAcquire(l), Exec, Exec];
  }

  /** lock_acquire of a free lock: the caller has it, with count and depth 1, and nothing else changes. */
  lemma AcquireFree(s: State, l: Lid)
    requires InClient(s, l, 0) && s.locks[l].value == 1
    ensures var t := s.Cur();
            Does(s, [CallAcquire(l), Exec, Exec, Exec, Exec, Exec],
                 With(s, Acquired(s.ctl[t], l), l, Lock(0, s.locks[l].waiters, Some(t), 1)))
  {
    hide Safe, Typed, Does, RunsOn, With;
    LockSeen(s, l, 0);
    var c, lk := s.ctl[s.Cur()], s.locks[l];
    var own := Lock(0, lk.waiters, Some(s.Cur()), 0);
    var end := With(s, Acquired(c, l), l, own.(repeat := 1));
    SameLock(s, c, l, lk, lk.(value := 0));
    SameLock(s, c, l, lk, own);
    DoesNothing(end);
    ThenStatement(s, c.(pc := AcqCount(l)), l, own, [], end);
    ThenStatement(s, c.(pc := AcqAssert(l)), l, own, [Exec] + [], end);
    ThenStatement(s, c.(pc := AcqOwn(l)), l, lk.(value := 0), [Exec] + ([Exec] + []), end);
    ThenTakes(s, c.(pc := AcqDown(l)), l, lk, [Exec] + ([Exec] + ([Exec] + [])), end);
    ThenStatement(s, c.(pc := AcqTest(l)), l, lk, [Exec] + ([Exec] + ([Exec] + ([Exec] + []))), end);
    SafeIsTyped(s);
    ThenBody(s, l, true, [Exec] + ([Exec] + ([Exec] + ([Exec] + ([Exec] + [])))), end);
    assert [CallAcquire(l)] + ([Exec] + ([Exec] + ([Exec] + ([Exec] + ([Exec] + [])))))
           == [CallAcquire(l), Exec, Exec, Exec, Exec, Exec];
  }

  /** Being in a call on l does not depend on the other fields of the lock. */
  lemma SameLock(s: State, c: Ctl, l: Lid, lk: Lock, lk': Lock)
    requires lk'.waiters == lk.waiters
    ensures forall pc :: RunsOn(s, c.(pc := pc), l, lk) ==> RunsOn(s, c.(pc := pc), l, lk')
  {
  }

  /** sema_down of a semaphore that is up. */
  lemma ThenTakes(s: State, c: Ctl, l: Lid, lk: Lock, acts: seq<Action>, s': State)
    requires RunsOn(s, c, l, lk) && c.pc == AcqDown(l) && lk.value == 1
    requires Does(With(s, c.(pc := AcqOwn(l)), l, lk.(value := 0)), acts, s')
    ensures Does(With(s, c, l, lk), [Exec] + acts, s')
  {
    hide Typed, Does;
    CurrentExists(s);
    WithTyped(s, c, l, lk);
    OverWith(s, c, l, lk, c.(pc := AcqOwn(l)), lk.(value := 0));
    Then(With(s, c, l, lk), Exec, acts, s');
  }

  /** lock_release of a nested acquisition: the count and the depth fall by one, and nothing else changes. */
  lemma ReleaseOnce(s: State, l: Lid, n: nat)
    requires InClient(s, l, n) && n > 1
    ensures var t := s.Cur();
            Does(s, [CallRelease(l), Exec, Exec, Exec], With(s, Released(s.ctl[t], l), l, s.locks[l].(repeat := n - 1)))
  {
    hide Safe, Typed, Does, RunsOn, With;
    LockSeen(s, l, n);
    var c, lk := s.ctl[s.Cur()], s.locks[l];
    var end := With(s, Released(c, l), l, lk.(repeat := n - 1));
    DoesNothing(end);
    ThenStatement(s, c.(pc := RelDec(l)), l, lk, [], end);
    ThenStatement(s, c.(pc := RelTest(l)), l, lk, [Exec] + [], end);
    ThenStatement(s, c.(pc := RelAssert(l)), l, lk, [Exec] + ([Exec] + []), end);
    SafeIsTyped(s);
    ThenBody(s, l, false, [Exec] + ([Exec] + ([Exec] + [])), end);
    assert [CallRelease(l)] + ([Exec] + ([Exec] + ([Exec] + []))) == [CallRelease(l), Exec, Exec, Exec];
  }

  /** The scheduler after sema_up has popped the first waiter, if there is one: it is ready, ahead of all others. */
  function Woke(sc: Sched, waiters: seq<Tid>): Sched
    requires waiters != [] ==> waiters[0] in sc.tcb
  {
    if waiters == [] then sc
    else sc.(ready := [waiters[0]] + sc.ready, tcb := sc.tcb[waiters[0] := sc.tcb[waiters[0]].(status := Ready)])
  }

  /** The current thread without lock l, which is free with nobody recorded, and whose first waiter is ready. */
  function FreedTo(s: State, l: Lid): State
    requires s.Cur() in s.ctl && l in s.locks && (s.locks[l].waiters != [] ==> s.locks[l].waiters[0] in s.sched.tcb)
  {
    var ws := s.locks[l].waiters;
    With(s, Released(s.ctl[s.Cur()], l), l, Lock(1, if ws == [] then [] else ws[1..], None, 0)).(sched := Woke(s.sched, ws))
  }

  /** The last lock_release: the lock is free with nobody recorded, and its first waiter is ready, ahead of all others. */
  lemma ReleaseLast(s: State, l: Lid)
    requires InClient(s, l, 1)
    ensures s.locks[l].waiters != [] ==> s.locks[l].waiters[0] in s.sched.tcb
    ensures Does(s, [CallRelease(l), Exec, Exec, Exec, Exec, Exec, Exec], FreedTo(s, l))
  {
    hide Safe, Typed, Does, RunsOn, With, FreedTo;
    LockSeen(s, l, 1);
    FirstWaits(s, l);
    var c, lk := s.ctl[s.Cur()], s.locks[l];
    var end := FreedTo(s, l);
    FreeingEnds(s, c, l, lk);
    ThenStatement(s, c.(pc := RelLast(l)), l, lk, [Exec] + ([Exec] + ([Exec] + [])), end);
    ThenStatement(s, c.(pc := RelTest(l)), l, lk, [Exec] + ([Exec] + ([Exec] + ([Exec] + []))), end);
    ThenStatement(s, c.(pc := RelAssert(l)), l, lk, [Exec] + ([Exec] + ([Exec] + ([Exec] + ([Exec] + [])))), end);
    SafeIsTyped(s);
    ThenBody(s, l, false, [Exec] + ([Exec] + ([Exec] + ([Exec] + ([Exec] + ([Exec] + []))))), end);
    assert [CallRelease(l)] + ([Exec] + ([Exec] + ([Exec] + ([Exec] + ([Exec] + ([Exec] + []))))))
           == [CallRelease(l), Exec, Exec, Exec, Exec, Exec, Exec];
  }

  /** The statements from line 75 on. */
  lemma FreeingEnds(s: State, c: Ctl, l: Lid, lk: Lock)
    requires s.Cur() in s.ctl && c == s.ctl[s.Cur()] && l in s.locks && lk == s.locks[l] && lk == Lock(0, lk.waiters, Some(s.Cur()), 1)
    requires forall pc :: (HasLock(pc) ==> pc.l == l) ==> RunsOn(s, c.(pc := pc), l, lk)
    requires var ws := lk.waiters; ws != [] ==> ws[0] in s.sched.tcb && s.sched.tcb[ws[0]].status == Blocked && ws[0] !in s.sched.ready
    ensures Does(With(s, c.(pc := RelClear(l)), l, lk), [Exec] + ([Exec] + ([Exec] + [])), FreedTo(s, l))
  {
    hide Typed, Does, RunsOn, With, Woke;
    var end := FreedTo(s, l);
    SameLock(s, c, l, lk, lk.(holder := None));
    SameLock(s, c, l, lk, lk.(holder := None, repeat := 0));
    ReleasesUp(s, c.(pc := RelUp(l)), l, lk.(holder := None, repeat := 0));
    assert Released(c.(pc := RelUp(l)), l) == Released(c, l);
    DoesNothing(end);
    Then(With(s, c.(pc := RelUp(l)), l, lk.(holder := None, repeat := 0)), Exec, [], end);
    ThenStatement(s, c.(pc := RelZero(l)), l, lk.(holder := None), [Exec] + [], end);
    ThenStatement(s, c.(pc := RelClear(l)), l, lk, [Exec] + ([Exec] + []), end);
  }

  /** The first waiter is a blocked thread. */
  lemma FirstWaits(s: State, l: Lid)
    requires Safe(s) && l in s.locks
    ensures var ws := s.locks[l].waiters;
            ws != [] ==> ws[0] in s.sched.tcb && s.sched.tcb[ws[0]].status == Blocked && ws[0] !in s.sched.ready
  {
    var ws := s.locks[l].waiters;
    assert LockInv(s, l);
    if ws != [] { assert ws[0] in ws && Waits(s, ws[0], l); }
  }

  /** sema_up of a semaphore that is down. */
  lemma ReleasesUp(s: State, c: Ctl, l: Lid, lk: Lock)
    requires RunsOn(s, c, l, lk) && c.pc == RelUp(l) && lk.value == 0
    requires lk.waiters != [] ==> lk.waiters[0] in s.sched.tcb && s.sched.tcb[lk.waiters[0]].status == Blocked
                                  && lk.waiters[0] !in s.sched.ready
    ensures Typed(With(s, c, l, lk)) && Enabled(With(s, c, l, lk), Exec) && Disciplined(With(s, c, l, lk), Exec)
    ensures Step(With(s, c, l, lk), Exec)
            == With(s, Released(c, l), l, lk.(value := 1, waiters := if lk.waiters == [] then [] else lk.waiters[1..]))
               .(sched := Woke(s.sched, lk.waiters))
  {
    hide Typed, Released;
    CurrentExists(s);
    WithTyped(s, c, l, lk);
    OverWith(s, c, l, lk, Released(c, l), lk.(value := 1, waiters := if lk.waiters == [] then [] else lk.waiters[1..]));
  }

  /** The caller of lock_acquire gives up the processor to the first ready thread and waits, last in line. */
  ghost predicate Queued(s: State, s': State, l: Lid)
    requires l in s.locks && s.Cur() in s.ctl
  {
    var t := s.Cur();
    && s.sched.ready != []
    && s'.Cur() == s.sched.ready[0] && s'.sched.ready == s.sched.ready[1..] && Waits(s', t, l)
    && s'.locks == s.locks[l := s.locks[l].(waiters := s.locks[l].waiters + [t])]
    && s'.ctl == s.ctl[t := s.ctl[t].(pc := AcqDown(l), frame := InSema(s.intr))]
    && s'.fault == NoFault && !s'.intr
  }

  /** lock_acquire of a lock that another thread holds: the caller waits, last in line, or the kernel halts if nobody can run. */
  lemma AcquireHeld(s: State, l: Lid) returns (s': State)
    requires InClient(s, l, 0) && s.locks[l].value == 0
    ensures Does(s, [CallAcquire(l), Exec, Exec], s')
    ensures if s.sched.ready != [] then Queued(s, s', l) else s'.fault == ThreadC(117)
  {
    hide Safe, Typed, Does, RunsOn, With;
    LockSeen(s, l, 0);
    var c, lk := s.ctl[s.Cur()], s.locks[l];
    SafeIsTyped(s);
    SafeSchedule(s);
    WaitsInLine(s, c.(pc := AcqDown(l)), l, lk);
    s' := Step(With(s, c.(pc := AcqDown(l)), l, lk), Exec);
    DoesNothing(s');
    Then(With(s, c.(pc := AcqDown(l)), l, lk), Exec, [], s');
    ThenStatement(s, c.(pc := AcqTest(l)), l, lk, [Exec] + [], s');
    ThenBody(s, l, true, [Exec] + ([Exec] + []), s');
    assert [CallAcquire(l)] + ([Exec] + ([Exec] + [])) == [CallAcquire(l), Exec, Exec];
  }

  /** sema_down of a semaphore that is down. */
  lemma WaitsInLine(s: State, c: Ctl, l: Lid, lk: Lock)
    requires SchedInv(s.sched) && RunsOn(s, c, l, lk) && lk == s.locks[l] && c == s.ctl[s.Cur()].(pc := AcqDown(l))
    requires lk.value == 0 && s.Cur() !in lk.waiters
    ensures Typed(With(s, c, l, lk)) && Enabled(With(s, c, l, lk), Exec)
    ensures var s' := Step(With(s, c, l, lk), Exec);
            if s.sched.ready != [] then Queued(s, s', l) else s'.fault == ThreadC(117)
  {
    hide SchedInv, BlockCurrent, Queued, Typed;
    BlockExactly(s.sched, Blocked);
    CurrentExists(s);
    WithTyped(s, c, l, lk);
    var c', lk' := c.(frame := InSema(s.intr)), lk.(waiters := lk.waiters + [s.Cur()]);
    assert s.ctl[s.Cur() := c][s.Cur() := c'] == s.ctl[s.Cur() := c'];
    assert s.locks[l := lk][l := lk'] == s.locks[l := lk'];
    if s.sched.ready != [] {
      var s' := With(s, c', l, lk').(intr := false, sched := AfterBlock(s.sched, Blocked));
      assert Step(With(s, c, l, lk), Exec) == s';
      IsQueued(s, s', l);
    }
  }

  lemma IsQueued(s: State, s': State, l: Lid)
    requires l in s.locks && s.Cur() in s.ctl && s.Cur() in s.sched.tcb && s.fault == NoFault
    requires s.sched.ready != [] && s.sched.ready[0] in s.sched.tcb && s.sched.ready[0] != s.Cur()
    requires var c', lk' := s.ctl[s.Cur()].(pc := AcqDown(l), frame := InSema(s.intr)), s.locks[l].(waiters := s.locks[l].waiters + [s.Cur()]);
             s' == With(s, c', l, lk').(intr := false, sched := AfterBlock(s.sched, Blocked))
    ensures Queued(s, s', l)
  {
  }

  // ----- thread_block and thread_unblock

  /** thread_block(stat): the caller gives up the processor to the first ready thread, in that state and with its flag saved. */
  lemma BlockGivesUp(s: State, stat: Status)
    requires Safe(s) && Typed(s) && Enabled(s, Block(stat)) && Disciplined(s, Block(stat)) && s.sched.ready != []
    ensures var t := s.Cur();
            Step(s, Block(stat)) == s.(intr := false, ctl := s.ctl[t := s.ctl[t].(frame := InBlock(s.ctl[t].own))],
                                       sched := AfterBlock(s.sched, stat))
  {
    hide Safe, BlockCurrent, AfterBlock, SchedInv;
    ActiveFlag(s);
    SafeSchedule(s);
    BlockExactly(s.sched, stat);
  }

  lemma SafeSchedule(s: State)
    requires Safe(s)
    ensures SchedInv(s.sched)
  {
  }

  /** thread_unblock(t): it is ready, ahead of all others, and nothing else changes. */
  lemma WakeMakesFirst(s: State, t: Tid)
    requires Safe(s) && Typed(s) && Enabled(s, Wake(t)) && Disciplined(s, Wake(t))
    ensures Step(s, Wake(t)) == s.(sched := Woke(s.sched, [t]))
  {
    assert t !in s.sched.ready;
  }
}
