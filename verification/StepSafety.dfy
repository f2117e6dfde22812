/** Every disciplined step of the kernel machine keeps the invariant. */
module StepSafety {
  import opened Options
  import opened Scheduler
  import opened Machine
  import opened Invariants

  // ----- steps inside lock_acquire and lock_release that change neither the semaphore nor the scheduler

  /** s' is s with the current thread's control state and lock l's record replaced. */
  predicate LocalChange(s: State, s': State, l: Lid, c': Ctl, lk': Lock) {
    && l in s.locks && s.Cur() in s.ctl
    && s' == s.(ctl := s.ctl[s.Cur() := c'], locks := s.locks[l := lk'])
    && lk'.value == s.locks[l].value && lk'.waiters == s.locks[l].waiters
    && c'.frame == s.ctl[s.Cur()].frame == Active && c'.own == s.ctl[s.Cur()].own && PcOk(c')
    && (HasLock(s.ctl[s.Cur()].pc) ==> s.ctl[s.Cur()].pc.l == l)
    && (HasLock(c'.pc) ==> c'.pc.l == l)
  }

  /** The record of l fits the current thread after the change. */
  predicate FitsOwner(s: State, s': State, l: Lid, c': Ctl, lk': Lock)
    requires l in s.locks
  {
    && (Owns(s', s.Cur(), l) <==> Owns(s, s.Cur(), l))
    && (if Owns(s, s.Cur(), l) then
          && lk'.repeat == CountOf(c', l) <= 0xffff_ffff
          && lk'.holder == (if HolderUnset(c'.pc, l) then None else Some(s.Cur()))
        else lk' == s.locks[l])
  }

  lemma LocalLockOk(s: State, s': State, l: Lid, c': Ctl, lk': Lock)
    requires LocalChange(s, s', l, c', lk') && LockOk(s, l) && FitsOwner(s, s', l, c', lk')
    ensures LockOk(s', l)
  {
    forall t ensures Owns(s', t, l) <==> Owns(s, t, l) {
    }
  }

  lemma LocalKeepsLock(s: State, s': State, l: Lid, c': Ctl, lk': Lock, k: Lid)
    requires LocalChange(s, s', l, c', lk') && k in s.locks && LockInv(s, k)
    requires k == l ==> FitsOwner(s, s', l, c', lk')
    requires k != l ==> c'.Depth(k) == s.ctl[s.Cur()].Depth(k)
    ensures LockInv(s', k)
  {
    forall t ensures (Waits(s', t, k) <==> Waits(s, t, k)) && (Woken(s', t, k) <==> Woken(s, t, k)) {
    }
    WaitersOkFrame(s, s', k);
    WakeOkFrame(s, s', k);
    if k == l {
      LocalLockOk(s, s', l, c', lk');
    } else {
      LockOkFrame(s, s', k);
    }
  }

  lemma LocalKeepsSafe(s: State, s': State, l: Lid, c': Ctl, lk': Lock)
    requires Safe(s) && LocalChange(s, s', l, c', lk') && FitsOwner(s, s', l, c', lk')
    requires forall k :: k != l ==> c'.Depth(k) == s.ctl[s.Cur()].Depth(k)
    ensures Safe(s')
  {
    hide SchedInv, LockInv;
    forall t | t in s'.ctl ensures CtlOk(s', t) {
      assert CtlOk(s, t);
      assert CtlOk(s, s.Cur());
    }
    forall k | k in s'.locks ensures LockInv(s', k) {
      LocalKeepsLock(s, s', l, c', lk', k);
    }
  }

  lemma CallKeepsSafe(s: State, a: Action)
    requires Safe(s) && Typed(s) && (a.CallAcquire? || a.CallRelease?) && Enabled(s, a) && Disciplined(s, a)
    ensures Safe(Step(s, a))
  {
    hide Safe;
    var c := s.ctl[s.Cur()];
    var c' := c.(pc := if a.CallAcquire? then AcqTest(a.l) else RelAssert(a.l));
    var s' := Step(s, a);
    var lk := s.locks[a.l];
    OwnerFacts(s, a.l);
    assert s'.locks == s.locks[a.l := lk];
    LocalKeepsSafe(s, s', a.l, c', lk);
  }

  /** What the invariant says about the current thread and one lock. */
  lemma OwnerFacts(s: State, l: Lid)
    requires Safe(s) && l in s.locks
    ensures s.Cur() in s.ctl && PcOk(s.ctl[s.Cur()])
    ensures var lk := s.locks[l]; var c := s.ctl[s.Cur()];
            if Owns(s, s.Cur(), l) then
              && lk.value == 0 && lk.repeat == CountOf(c, l) <= 0xffff_ffff
              && lk.holder == (if HolderUnset(c.pc, l) then None else Some(s.Cur()))
            else lk.holder != Some(s.Cur())
  {
    assert LockInv(s, l) && CtlOk(s, s.Cur());
  }

  /** What one statement does, for the running thread t at lock l, given that t owns the lock or not. */
  lemma StatementFits(t: Tid, c: Ctl, lk: Lock)
    requires HasLock(c.pc) && !c.pc.AcqDown? && !c.pc.RelUp? && PcOk(c)
    requires if OwnsBy(c, c.pc.l)
             then lk.repeat == CountOf(c, c.pc.l) <= 0xffff_ffff
                  && lk.holder == (if HolderUnset(c.pc, c.pc.l) then None else Some(t))
             else lk.holder != Some(t)
    ensures var l := c.pc.l;
            match Statement(t, c, lk)
            case Bad(_) => false
            case Next(c', lk') =>
              && PcOk(c') && c'.frame == c.frame && c'.own == c.own && (HasLock(c'.pc) ==> c'.pc.l == l)
              && lk'.value == lk.value && lk'.waiters == lk.waiters
              && (forall k :: k != l ==> c'.Depth(k) == c.Depth(k))
              && (OwnsBy(c', l) <==> OwnsBy(c, l))
              && (if OwnsBy(c, l)
                  then lk'.repeat == CountOf(c', l) <= 0xffff_ffff
                       && lk'.holder == (if HolderUnset(c'.pc, l) then None else Some(t))
                  else lk' == lk)
  {
  }

  /** The statement does not halt and keeps the invariant. */
  lemma StatementKeepsSafe(s: State)
    requires Safe(s) && Typed(s) && s.fault == NoFault
    requires s.ctl[s.Cur()].frame == Active && HasLock(s.ctl[s.Cur()].pc)
    requires !s.ctl[s.Cur()].pc.AcqDown? && !s.ctl[s.Cur()].pc.RelUp?
    ensures ExecStep(s).fault == NoFault && Safe(ExecStep(s))
  {
    hide Safe, Statement, PcOk, CountOf, HolderUnset;
    var c := s.ctl[s.Cur()];
    var l := c.pc.l;
    OwnerFacts(s, l);
    StatementFits(s.Cur(), c, s.locks[l]);
    var e := Statement(s.Cur(), c, s.locks[l]);
    var s' := ExecStep(s);
    LocalKeepsSafe(s, s', l, e.c, e.lk);
  }
}
