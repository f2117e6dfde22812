/**
 The limit on nesting: holder_repeat_nr is a uint32_t. Below 2^32 - 1 nested
 acquisitions the count is exact (Runs.MutualExclusion); one acquisition more wraps
 it to zero and the next lock_release halts the kernel.
 */
module Nesting {
  import opened Options
  import opened Scheduler
  import opened Machine
  import opened Invariants
  import opened Runs

  const MAX_DEPTH: nat := 0xffff_ffff

  /** The kernel just after boot with one lock, except for that lock's record and main's control state. */
  function Solo(lk: Lock, c: Ctl): State {
    State(InitialSched(0), map[0 := lk], map[0 := c], false, NoFault)
  }

  /** Main at pc, holding the lock n times. */
  function MainAt(pc: Pc, n: nat): Ctl { Ctl(pc, Active, false, if n == 0 then map[] else map[0 := n]) }

  function FreeLock(): Lock { Lock(1, [], None, 0) }

  function HeldLock(count: nat): Lock { Lock(0, [], Some(0), count) }

  lemma {:induction false} RunExtends(s: State, acts: seq<Action>, a: Action)
    requires ValidRun(s, acts)
    requires var m := StateAt(s, acts, |acts|); Typed(m) && Enabled(m, a) && Disciplined(m, a)
    ensures ValidRun(s, acts + [a])
    ensures StateAt(s, acts + [a], |acts| + 1) == Step(StateAt(s, acts, |acts|), a)
    decreases |acts|
  {
    hide Step, Enabled, Disciplined, Typed;
    if acts == [] {
      assert acts + [a] == [a];
      assert ValidRun(Step(s, a), []);
      assert StateAt(Step(s, a), [], 0) == Step(s, a);
    } else {
      assert (acts + [a])[1..] == acts[1..] + [a];
      RunExtends(Step(s, acts[0]), acts[1..], a);
    }
  }

  lemma ReachableStep(s: State, a: Action)
    requires Reachable(s) && Typed(s) && Enabled(s, a) && Disciplined(s, a)
    ensures Reachable(Step(s, a))
  {
    hide Step, Enabled, Disciplined, Typed;
    var main: Tid, lids: set<Lid>, acts: seq<Action> :| ReachedBy(s, main, lids, acts);
    RunExtends(Initial(main, lids), acts, a);
    assert ReachedBy(Step(s, a), main, lids, acts + [a]);
  }

  lemma BootIsReachable()
    ensures Reachable(Solo(FreeLock(), MainAt(Client, 0)))
  {
    var s := Initial(0, {0});
    assert s.locks == map[0 := Lock(1, [], None, 0)];
    assert s == Solo(FreeLock(), MainAt(Client, 0));
    assert ValidRun(s, []) && StateAt(s, [], 0) == s;
    assert ReachedBy(s, 0, {0}, []);
  }

  predicate SoloOk(lk: Lock, c: Ctl) { lk.waiters == [] && c.frame == Active && (HasLock(c.pc) ==> c.pc.l == 0) }

  lemma SoloTyped(lk: Lock, c: Ctl)
    requires SoloOk(lk, c)
    ensures Typed(Solo(lk, c))
  {
  }

  /** One statement of lock_acquire or lock_release, run by main alone. */
  lemma SoloStatement(lk: Lock, c: Ctl)
    requires SoloOk(lk, c) && HasLock(c.pc) && !c.pc.AcqDown? && !c.pc.RelUp?
    ensures Typed(Solo(lk, c)) && Enabled(Solo(lk, c), Exec) && Disciplined(Solo(lk, c), Exec)
    ensures match Statement(0, c, lk)
            case Bad(line) => Step(Solo(lk, c), Exec).fault == SyncC(line)
            case Next(c', lk') => Step(Solo(lk, c), Exec) == Solo(lk', c')
  {
    hide Statement, InitialSched;
    SoloTyped(lk, c);
    var s := Solo(lk, c);
    var s' := Step(s, Exec);
    match Statement(0, c, lk)
    case Bad(line) =>
    case Next(c', lk') =>
      assert s'.ctl == map[0 := c'] && s'.locks == map[0 := lk'];
  }

  lemma SoloDown(c: Ctl)
    requires SoloOk(FreeLock(), c) && c.pc == AcqDown(0)
    ensures var s := Solo(FreeLock(), c); Typed(s) && Enabled(s, Exec) && Disciplined(s, Exec)
    ensures Step(Solo(FreeLock(), c), Exec) == Solo(FreeLock().(value := 0), c.(pc := AcqOwn(0)))
  {
    hide InitialSched;
    SoloTyped(FreeLock(), c);
    var s' := Step(Solo(FreeLock(), c), Exec);
    assert s'.ctl == map[0 := c.(pc := AcqOwn(0))] && s'.locks == map[0 := FreeLock().(value := 0)];
  }

  lemma SoloCall(lk: Lock, c: Ctl)
    requires SoloOk(lk, c) && c.pc == Client
    ensures var s := Solo(lk, c); Typed(s) && Enabled(s, CallAcquire(0)) && Enabled(s, CallRelease(0))
    ensures Disciplined(Solo(lk, c), CallAcquire(0)) <==> c.Depth(0) < MAX_DEPTH
    ensures Step(Solo(lk, c), CallAcquire(0)) == Solo(lk, c.(pc := AcqTest(0)))
    ensures Step(Solo(lk, c), CallRelease(0)) == Solo(lk, c.(pc := RelAssert(0)))
  {
    hide InitialSched;
    SoloTyped(lk, c);
    assert Step(Solo(lk, c), CallAcquire(0)).ctl == map[0 := c.(pc := AcqTest(0))];
    assert Step(Solo(lk, c), CallRelease(0)).ctl == map[0 := c.(pc := RelAssert(0))];
  }

  lemma FirstAcquire()
    ensures Reachable(Solo(HeldLock(1), MainAt(Client, 1)))
  {
    hide Step, Reachable, Typed, Enabled, Disciplined, Solo;
    BootIsReachable();
    SoloCall(FreeLock(), MainAt(Client, 0));
    ReachableStep(Solo(FreeLock(), MainAt(Client, 0)), CallAcquire(0));
    SoloStatement(FreeLock(), MainAt(AcqTest(0), 0));
    ReachableStep(Solo(FreeLock(), MainAt(AcqTest(0), 0)), Exec);
    SoloDown(MainAt(AcqDown(0), 0));
    ReachableStep(Solo(FreeLock(), MainAt(AcqDown(0), 0)), Exec);
    var taken := FreeLock().(value := 0);
    SoloStatement(taken, MainAt(AcqOwn(0), 0));
    ReachableStep(Solo(taken, MainAt(AcqOwn(0), 0)), Exec);
    SoloStatement(HeldLock(0), MainAt(AcqAssert(0), 0));
    ReachableStep(Solo(HeldLock(0), MainAt(AcqAssert(0), 0)), Exec);
    SoloStatement(HeldLock(0), MainAt(AcqCount(0), 0));
    ReachableStep(Solo(HeldLock(0), MainAt(AcqCount(0), 0)), Exec);
    assert Acquired(MainAt(AcqCount(0), 0), 0) == MainAt(Client, 1);
  }

  /** One more acquisition at depth n, statement by statement. */
  lemma NestOnce(n: nat)
    requires n > 0
    ensures var s := Solo(HeldLock(n), MainAt(Client, n));
            Typed(s) && Enabled(s, CallAcquire(0)) && (Disciplined(s, CallAcquire(0)) <==> n < MAX_DEPTH)
            && Step(s, CallAcquire(0)) == Solo(HeldLock(n), MainAt(AcqTest(0), n))
    ensures var s := Solo(HeldLock(n), MainAt(AcqTest(0), n));
            Typed(s) && Enabled(s, Exec) && Disciplined(s, Exec)
            && Step(s, Exec) == Solo(HeldLock(n), MainAt(AcqNest(0), n))
    ensures var s := Solo(HeldLock(n), MainAt(AcqNest(0), n));
            Typed(s) && Enabled(s, Exec) && Disciplined(s, Exec)
            && Step(s, Exec) == Solo(HeldLock(Wrap(n + 1)), MainAt(Client, n + 1))
  {
    hide Step, Typed, Enabled, Disciplined, Solo, Wrap;
    SoloCall(HeldLock(n), MainAt(Client, n));
    SoloStatement(HeldLock(n), MainAt(AcqTest(0), n));
    SoloStatement(HeldLock(n), MainAt(AcqNest(0), n));
    assert map[0 := n][0 := n + 1] == map[0 := n + 1];
    assert Acquired(MainAt(AcqNest(0), n), 0) == MainAt(Client, n + 1);
  }

  lemma {:induction false} DepthIsReachable(n: nat)
    requires 1 <= n <= MAX_DEPTH
    ensures Reachable(Solo(HeldLock(n), MainAt(Client, n)))
    decreases n
  {
    hide Step, Reachable, Typed, Enabled, Disciplined, Solo;
    if n == 1 {
      FirstAcquire();
    } else {
      DepthIsReachable(n - 1);
      NestOnce(n - 1);
      ReachableStep(Solo(HeldLock(n - 1), MainAt(Client, n - 1)), CallAcquire(0));
      ReachableStep(Solo(HeldLock(n - 1), MainAt(AcqTest(0), n - 1)), Exec);
      ReachableStep(Solo(HeldLock(n - 1), MainAt(AcqNest(0), n - 1)), Exec);
    }
  }

  /** lock_release with the count at zero, statement by statement. */
  lemma ReleaseAtZeroHalts(n: nat)
    ensures var s := Solo(HeldLock(0), MainAt(Client, n));
            Typed(s) && Enabled(s, CallRelease(0)) && Step(s, CallRelease(0)) == Solo(HeldLock(0), MainAt(RelAssert(0), n))
    ensures var s := Solo(HeldLock(0), MainAt(RelAssert(0), n));
            Typed(s) && Enabled(s, Exec) && Step(s, Exec) == Solo(HeldLock(0), MainAt(RelTest(0), n))
    ensures var s := Solo(HeldLock(0), MainAt(RelTest(0), n));
            Typed(s) && Enabled(s, Exec) && Step(s, Exec) == Solo(HeldLock(0), MainAt(RelLast(0), n))
    ensures var s := Solo(HeldLock(0), MainAt(RelLast(0), n));
            Typed(s) && Enabled(s, Exec) && Step(s, Exec).fault == SyncC(74)
  {
    hide Step, Typed, Enabled, Disciplined, Solo;
    SoloCall(HeldLock(0), MainAt(Client, n));
    SoloStatement(HeldLock(0), MainAt(RelAssert(0), n));
    SoloStatement(HeldLock(0), MainAt(RelTest(0), n));
    SoloStatement(HeldLock(0), MainAt(RelLast(0), n));
  }

  /**
   Depth 2^32 - 1 is reachable, and there one more lock_acquire wraps the count to
   zero, from where lock_release halts in sync.c:74 (ReleaseAtZeroHalts).
   */
  lemma NestingOverflow()
    ensures Reachable(Solo(HeldLock(MAX_DEPTH), MainAt(Client, MAX_DEPTH)))
    ensures var s := Solo(HeldLock(MAX_DEPTH), MainAt(AcqNest(0), MAX_DEPTH));
            Typed(s) && Enabled(s, Exec) && Step(s, Exec) == Solo(HeldLock(0), MainAt(Client, MAX_DEPTH + 1))
  {
    hide Step, Reachable, Typed, Enabled, Disciplined, Solo;
    DepthIsReachable(MAX_DEPTH);
    NestOnce(MAX_DEPTH);
  }

  /** The current thread moved to pc. */
  function At(s: State, pc: Pc): State
    requires s.Cur() in s.ctl
  {
    SetCtl(s, s.ctl[s.Cur()].(pc := pc))
  }

  lemma TypedCurrent(s: State)
    requires Typed(s)
    ensures s.Cur() in s.ctl
  {
  }

  lemma AtTyped(s: State, pc: Pc)
    requires Typed(s) && s.ctl[s.Cur()].frame == Active && (HasLock(pc) ==> pc.l in s.locks)
    ensures Typed(At(s, pc))
  {
  }

  /** What the safe state says about the lock of an owner that runs client code. */
  lemma OwnerCounts(s: State, l: Lid)
    requires Safe(s) && l in s.locks && s.Cur() in s.ctl && s.ctl[s.Cur()].pc == Client && s.ctl[s.Cur()].Depth(l) > 0
    ensures s.locks[l].holder == Some(s.Cur()) && s.locks[l].repeat == s.ctl[s.Cur()].Depth(l) <= MAX_DEPTH
  {
    hide SchedInv, CtlInv, WaitersOk, WakeOk;
    assert LockInv(s, l) && Owns(s, s.Cur(), l);
  }

  /** sync.c:52 and sync.c:62 for a thread that holds the lock. */
  lemma NestedStatements(s: State, l: Lid)
    requires Typed(s) && s.fault == NoFault && l in s.locks && s.ctl[s.Cur()].frame == Active
    requires s.locks[l].holder == Some(s.Cur())
    ensures Typed(At(s, AcqTest(l))) && Enabled(At(s, AcqTest(l)), Exec)
    ensures Step(At(s, AcqTest(l)), Exec) == At(s, AcqNest(l))
    ensures Typed(At(s, AcqNest(l))) && Enabled(At(s, AcqNest(l)), Exec)
    ensures var c := s.ctl[s.Cur()].(pc := AcqNest(l));
            Step(At(s, AcqNest(l)), Exec)
            == SetCtl(s, Acquired(c, l)).(locks := s.locks[l := s.locks[l].(repeat := Wrap(s.locks[l].repeat + 1))])
  {
    hide Typed, Wrap;
    TypedCurrent(s);
    AtTyped(s, AcqTest(l));
    AtTyped(s, AcqNest(l));
    assert s.locks[l := s.locks[l]] == s.locks;
    var c := s.ctl[s.Cur()];
    assert s.ctl[s.Cur() := c.(pc := AcqTest(l))][s.Cur() := c.(pc := AcqNest(l))] == s.ctl[s.Cur() := c.(pc := AcqNest(l))];
    assert s.ctl[s.Cur() := c.(pc := AcqNest(l))][s.Cur() := Acquired(c.(pc := AcqNest(l)), l)]
           == s.ctl[s.Cur() := Acquired(c.(pc := AcqNest(l)), l)];
  }

  /**
   In every safe state one more nested lock_acquire, statement by statement, keeps the count equal to the
   depth if and only if the depth is below 2^32 - 1.
   */
  lemma NestingCountExactly(s: State, l: Lid, s1: State, s2: State, s3: State)
    requires Safe(s) && Typed(s) && s.fault == NoFault && l in s.locks
    requires s.ctl[s.Cur()].frame == Active && s.ctl[s.Cur()].pc == Client && s.ctl[s.Cur()].Depth(l) > 0
    requires Enabled(s, CallAcquire(l)) && s1 == Step(s, CallAcquire(l))
    requires Typed(s1) && Enabled(s1, Exec) && s2 == Step(s1, Exec)
    requires Typed(s2) && Enabled(s2, Exec) && s3 == Step(s2, Exec)
    ensures s3.Cur() == s.Cur() && s.Cur() in s3.ctl && l in s3.locks && s3.ctl[s.Cur()].pc == Client
    ensures s3.ctl[s.Cur()].Depth(l) == s.ctl[s.Cur()].Depth(l) + 1
    ensures s3.locks[l].repeat == s3.ctl[s.Cur()].Depth(l) <==> s.ctl[s.Cur()].Depth(l) < MAX_DEPTH
  {
    hide Safe, Typed, ExecStep;
    TypedCurrent(s);
    OwnerCounts(s, l);
    NestedStatements(s, l);
    assert s1 == At(s, AcqTest(l));
  }
}
