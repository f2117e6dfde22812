/** sema_down and sema_up keep the invariant. */
module SemaSafety {
  import opened Scheduler
  import opened Machine
  import opened Invariants
  import opened SwitchSafety

  /** The current thread is about to test the loop condition of sema_down on l. */
  predicate AtDownLoop(s: State, l: Lid) {
    && l in s.locks && s.Cur() in s.ctl
    && s.ctl[s.Cur()].pc == AcqDown(l) && (s.ctl[s.Cur()].frame == Active || s.ctl[s.Cur()].frame.InSema?)
  }

  /** Locks other than l: no thread's standing changes, except that the thread u may go through the semaphore of l. */
  ghost predicate OnlyLock(s: State, s': State, l: Lid) {
    && s'.locks.Keys == s.locks.Keys
    && s'.ctl.Keys == s.ctl.Keys
    && (forall k :: k in s.locks && k != l ==> s'.locks[k] == s.locks[k])
    && (forall t, k :: t in s.ctl && k != l ==> SameForLock(s, s', t, k))
    && (forall t, k :: k != l ==> (Waits(s', t, k) <==> Waits(s, t, k)) && (Woken(s, t, k) ==> Woken(s', t, k)))
  }

  lemma OtherLocksKept(s: State, s': State, l: Lid, k: Lid)
    requires OnlyLock(s, s', l) && k in s.locks && k != l && LockInv(s, k)
    ensures LockInv(s', k)
  {
    WaitersOkFrame(s, s', k);
    WakeOkFrame(s, s', k);
    LockOkFrame(s, s', k);
  }

  lemma SafeFrom(s: State, s': State, l: Lid)
    requires Safe(s) && OnlyLock(s, s', l) && SchedInv(s'.sched) && CtlInv(s')
    requires l in s'.locks && LockInv(s', l)
    ensures Safe(s')
  {
    hide SchedInv, CtlInv, LockInv, OnlyLock;
    assert s'.locks.Keys == s.locks.Keys by { KeysOf(s, s', l); }
    forall k | k in s'.locks ensures LockInv(s', k) {
      if k != l { OtherLocksKept(s, s', l, k); }
    }
  }

  lemma KeysOf(s: State, s': State, l: Lid)
    requires OnlyLock(s, s', l)
    ensures s'.locks.Keys == s.locks.Keys
  {
  }

  // ----- the semaphore is free: take it

  function Taken(s: State, l: Lid, saved: bool): State
    requires l in s.locks && s.Cur() in s.ctl
  {
    SetCtl(s, s.ctl[s.Cur()].(pc := AcqOwn(l), frame := Active))
      .(locks := s.locks[l := s.locks[l].(value := 0)], intr := saved)
  }

  lemma TakeKeepsLock(s: State, l: Lid, saved: bool)
    requires AtDownLoop(s, l) && LockInv(s, l) && s.locks[l].value == 1
    requires s.Cur() in s.sched.tcb && s.sched.tcb[s.Cur()].status == Running && PcOk(s.ctl[s.Cur()])
    ensures LockInv(Taken(s, l, saved), l)
  {
    var s' := Taken(s, l, saved);
    assert Owns(s', s.Cur(), l);
    forall t ensures Waits(s', t, l) <==> Waits(s, t, l) {}
    WaitersOkFrame(s, s', l);
  }

  lemma TakeKeepsOthers(s: State, l: Lid, saved: bool)
    requires AtDownLoop(s, l) && s.Cur() in s.sched.tcb
    ensures OnlyLock(s, Taken(s, l, saved), l)
  {
  }

  lemma TakeKeepsSafe(s: State, l: Lid)
    requires Safe(s) && AtDownLoop(s, l) && s.locks[l].value == 1
    ensures Safe(Taken(s, l, s.ctl[s.Cur()].own))
  {
    hide SchedInv, LockInv, OnlyLock;
    var s' := Taken(s, l, s.ctl[s.Cur()].own);
    assert CtlOk(s, s.Cur());
    CurrentRuns(s.sched);
    forall t | t in s'.ctl ensures CtlOk(s', t) { assert CtlOk(s, t); }
    TakeKeepsLock(s, l, s.ctl[s.Cur()].own);
    TakeKeepsOthers(s, l, s.ctl[s.Cur()].own);
    SafeFrom(s, s', l);
  }

  // ----- the semaphore is taken: queue up and block

  /** s' is s after the current thread joined the waiters of l and left. */
  ghost predicate Queued(s: State, s': State, l: Lid, saved: bool) {
    && l in s.locks
    && Left(s, s', InSema(saved), Blocked)
    && s'.locks == s.locks[l := s.locks[l].(waiters := s.locks[l].waiters + [s.Cur()])]
  }

  lemma QueueKeepsLock(s: State, s': State, l: Lid, saved: bool)
    requires CtlInv(s) && AtDownLoop(s, l) && LockInv(s, l) && Queued(s, s', l, saved) && s.locks[l].value == 0
    requires s.sched.tcb[s.Cur()].status == Running
    ensures LockInv(s', l)
  {
    hide LockOk, PcOk;
    forall t ensures Waits(s', t, l) <==> t == s.Cur() || Waits(s, t, l) {
      if t in s.ctl { assert CtlOk(s, t); }
    }
    AppendNoDuplicates(s.locks[l].waiters, s.Cur());
    LockOkFrame(s, s', l);
  }

  lemma QueueKeepsOthers(s: State, s': State, l: Lid, saved: bool)
    requires CtlInv(s) && AtDownLoop(s, l) && Queued(s, s', l, saved)
    ensures OnlyLock(s, s', l)
  {
    forall t, k | k != l ensures (Waits(s', t, k) <==> Waits(s, t, k)) && (Woken(s, t, k) ==> Woken(s', t, k)) {
      if t in s.ctl { assert CtlOk(s, t); }
    }
  }

  lemma QueueKeepsSafe(s: State, s': State, l: Lid)
    requires Safe(s) && AtDownLoop(s, l) && s.locks[l].value == 0
    requires Queued(s, s', l, s.ctl[s.Cur()].own) && SchedInv(s'.sched)
    ensures Safe(s')
  {
    hide SchedInv, LockInv, OnlyLock;
    var own := s.ctl[s.Cur()].own;
    CurrentRuns(s.sched);
    QueueKeepsLock(s, s', l, own);
    QueueKeepsOthers(s, s', l, own);
    LeaveKeepsCtl(s, s', InSema(own), Blocked);
    SafeFrom(s, s', l);
  }

  /** What one pass of the loop of sema_down does. */
  lemma DownLoopDoes(s: State, l: Lid)
    requires Safe(s) && Typed(s) && s.fault == NoFault && AtDownLoop(s, l)
    ensures s.locks[l].value in {0, 1}
    ensures var own := s.ctl[s.Cur()].own; var s' := DownLoop(s.(intr := false), l, own); var lk := s.locks[l];
            if lk.value == 1 then s' == Taken(s, l, own)
            else s' == Leave(s.(intr := false, locks := s.locks[l := lk.(waiters := lk.waiters + [s.Cur()])]), InSema(own),
                             BlockCurrent(s.sched, Blocked))
  {
    hide SchedInv, LockOk, WakeOk, BlockCurrent, CtlInv, Leave;
    assert LockInv(s, l);
    LockValue(s, l);
    CurrentRuns(s.sched);
    assert !Waits(s, s.Cur(), l);
  }

  /** One pass of the loop of sema_down: it halts only if the caller must wait and no thread is ready. */
  lemma DownLoopKeepsInv(s: State, l: Lid)
    requires Safe(s) && Typed(s) && s.fault == NoFault && AtDownLoop(s, l)
    ensures var s' := DownLoop(s.(intr := false), l, s.ctl[s.Cur()].own);
            Inv(s') && (s'.fault == ThreadC(117) <==> s.locks[l].value == 0 && s.sched.ready == [])
  {
    hide SchedInv, LockInv, Moved, BlockCurrent, DownLoop, CtlInv;
    DownLoopDoes(s, l);
    var s' := DownLoop(s.(intr := false), l, s.ctl[s.Cur()].own);
    if s.locks[l].value == 1 {
      TakeKeepsSafe(s, l);
    } else {
      BlockKeepsInv(s.sched, Blocked);
      if s.sched.ready != [] {
        BlockMoves(s.sched, Blocked);
        QueueKeepsSafe(s, s', l);
      }
    }
  }

  lemma LockValue(s: State, l: Lid)
    requires l in s.locks && LockInv(s, l)
    ensures s.locks[l].value == 0 || s.locks[l].value == 1
  {
  }

  // ----- sema_up

  /** The lock record and control state that sema_up leaves, and the thread it wakes, if any. */
  ghost predicate Upped(s: State, s': State, l: Lid) {
    && l in s.locks && s.Cur() in s.ctl && s.Cur() in s.sched.tcb
    && s'.ctl == s.ctl[s.Cur() := Released(s.ctl[s.Cur()], l)]
    && s'.intr == s.intr
    && var ws := s.locks[l].waiters;
       if ws == [] then
         s'.sched == s.sched && s'.locks == s.locks[l := s.locks[l].(value := 1)]
       else
         && ws[0] in s.sched.tcb && ws[0] != s.Cur()
         && s'.sched.cur == s.sched.cur
         && s'.sched.tcb == s.sched.tcb[ws[0] := s.sched.tcb[ws[0]].(status := Ready)]
         && s'.locks == s.locks[l := s.locks[l].(value := 1, waiters := ws[1..])]
  }

  predicate AtUp(s: State, l: Lid) {
    l in s.locks && s.Cur() in s.ctl && s.ctl[s.Cur()].pc == RelUp(l) && s.ctl[s.Cur()].frame == Active
  }

  lemma UpKeepsWaiters(s: State, s': State, l: Lid)
    requires CtlInv(s) && AtUp(s, l) && WaitersOk(s, l) && Upped(s, s', l)
    ensures WaitersOk(s', l) && WakeOk(s', l)
  {
    var ws := s.locks[l].waiters;
    if ws == [] {
      forall t ensures Waits(s', t, l) <==> Waits(s, t, l) {}
    } else {
      assert ws == [ws[0]] + ws[1..];
      assert Waits(s, ws[0], l);
      forall t ensures Waits(s', t, l) <==> t != ws[0] && Waits(s, t, l) {}
      assert Woken(s', ws[0], l);
    }
  }

  lemma UpKeepsExclusion(s: State, s': State, l: Lid)
    requires AtUp(s, l) && LockOk(s, l) && PcOk(s.ctl[s.Cur()]) && Upped(s, s', l)
    ensures s.locks[l].value == 0 && LockOk(s', l)
  {
    assert Owns(s, s.Cur(), l);
    forall t ensures !Owns(s', t, l) {
      if Owns(s, t, l) { assert t == s.Cur(); }
    }
  }

  lemma UpKeepsOthers(s: State, s': State, l: Lid)
    requires CtlInv(s) && AtUp(s, l) && WaitersOk(s, l) && Upped(s, s', l)
    ensures OnlyLock(s, s', l)
  {
    if s.locks[l].waiters != [] { assert Waits(s, s.locks[l].waiters[0], l); }
    forall t, k | k != l ensures (Waits(s', t, k) <==> Waits(s, t, k)) && (Woken(s, t, k) ==> Woken(s', t, k)) {}
  }

  lemma UpKeepsCtl(s: State, s': State, l: Lid)
    requires CtlInv(s) && AtUp(s, l) && WaitersOk(s, l) && Upped(s, s', l)
    ensures CtlInv(s')
  {
    if s.locks[l].waiters != [] { assert Waits(s, s.locks[l].waiters[0], l); }
    forall t | t in s'.ctl ensures CtlOk(s', t) { assert CtlOk(s, t); }
  }

  /** sema_up never halts: ASSERTs at sync.c:38, thread.c:141 and thread.c:144 hold. */
  lemma SemaUpKeepsSafe(s: State, l: Lid)
    requires Safe(s) && Typed(s) && s.fault == NoFault && AtUp(s, l)
    ensures SemaUp(s, l).fault == NoFault && Safe(SemaUp(s, l))
  {
    hide SchedInv, LockOk, WaitersOk, CtlInv, WakeOk, Unblock, OnlyLock, Upped;
    assert LockInv(s, l);
    var s' := SemaUp(s, l);
    UpIsUpped(s, l);
    UpKeepsCtl(s, s', l);
    CurrentPc(s);
    UpKeepsExclusion(s, s', l);
    UpKeepsWaiters(s, s', l);
    UpKeepsOthers(s, s', l);
    assert l in s'.locks by { KeysOf(s, s', l); }
    SafeFrom(s, s', l);
  }

  lemma CurrentPc(s: State)
    requires CtlInv(s) && s.Cur() in s.ctl
    ensures PcOk(s.ctl[s.Cur()])
  {
    assert CtlOk(s, s.Cur());
  }

  /** What sema_up finds: the semaphore is taken and the first waiter, if any, is blocked. */
  lemma UpFinds(s: State, l: Lid)
    requires Safe(s) && AtUp(s, l)
    ensures s.locks[l].value == 0
    ensures var ws := s.locks[l].waiters;
            ws != [] ==> ws[0] in s.sched.tcb && ws[0] in s.ctl && s.sched.tcb[ws[0]].status == Blocked
  {
    hide SchedInv;
    assert LockInv(s, l);
    assert CtlOk(s, s.Cur());
    assert Owns(s, s.Cur(), l);
    if s.locks[l].waiters != [] { assert Waits(s, s.locks[l].waiters[0], l); }
  }

  lemma UpIsUpped(s: State, l: Lid)
    requires Safe(s) && Typed(s) && s.fault == NoFault && AtUp(s, l)
    ensures SemaUp(s, l).fault == NoFault && Upped(s, SemaUp(s, l), l) && SchedInv(SemaUp(s, l).sched)
  {
    hide SchedInv, Unblock, CtlInv, LockInv;
    UpFinds(s, l);
    CurrentRuns(s.sched);
    if s.locks[l].waiters != [] {
      UnblockKeepsInv(s.sched, s.locks[l].waiters[0]);
      UnblockMoves(s.sched, s.locks[l].waiters[0]);
    }
  }
}
