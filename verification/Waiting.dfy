/**
 Bounded waiting over runs in which threads also block, take locks and are
 created: a ready thread runs after at most its wait in timer interrupts, as long
 as nobody is woken to the front of the ready list.
 */
module Waiting {
  import opened Scheduler
  import opened TimeSlices
  import opened Machine
  import opened Invariants
  import opened Runs

  /** The step puts a thread at the front of the ready list. */
  predicate WakesSomebody(s: State, a: Action) {
    || a.Wake?
    || (a.Exec? && s.Cur() in s.ctl && s.ctl[s.Cur()].pc.RelUp? && s.ctl[s.Cur()].pc.l in s.locks
        && s.locks[s.ctl[s.Cur()].pc.l].waiters != [])
  }

  ghost predicate NobodyWoken(s: State, acts: seq<Action>)
    requires ValidRun(s, acts)
    decreases |acts|
  {
    acts == [] || (!WakesSomebody(s, acts[0]) && NobodyWoken(Step(s, acts[0]), acts[1..]))
  }

  /** The number of timer interrupts delivered in a run. */
  function TimerCount(acts: seq<Action>): nat {
    if acts == [] then 0 else (if acts[0].Timer? then 1 else 0) + TimerCount(acts[1..])
  }

  /** Thread t has got the processor, or it is ready in sc' and waits at most w interrupts. */
  ghost predicate WaitsAtMost(sc': Sched, t: Tid, w: int)
    requires SchedInv(sc')
  {
    sc'.cur == t || exists k: nat :: ReadyWithin(sc', k, t, w)
  }

  ghost predicate ReadyWithin(sc: Sched, k: nat, t: Tid, w: int)
    requires SchedInv(sc)
  {
    k < |sc.ready| && sc.ready[k] == t && Wait(sc, k) <= w
  }

  lemma BlockShortensWait(sc: Sched, stat: Status, i: nat)
    requires SchedInv(sc) && i < |sc.ready| && stat in {Blocked, Waiting, Hanging}
    requires BlockCurrent(sc, stat).Go? && SchedInv(BlockCurrent(sc, stat).s)
    ensures WaitsAtMost(BlockCurrent(sc, stat).s, sc.ready[i], Wait(sc, i))
  {
    hide SchedInv, NoDuplicates;
    QueueIsSound(sc);
    var sc' := BlockCurrent(sc, stat).s;
    if i > 0 {
      var first := sc.ready[..i];
      assert sc'.ready[..i - 1] == first[1..];
      forall x | x in first ensures x in sc.tcb && x in sc'.tcb && sc'.tcb[x].ticks == sc.tcb[x].ticks {
        assert x in Queue(sc);
      }
      SliceSumFrame(sc.tcb, sc'.tcb, first[1..]);
      assert ReadyWithin(sc', i - 1, sc.ready[i], Wait(sc, i));
    }
  }

  lemma StartKeepsWait(sc: Sched, t: Tid, prio: nat, i: nat)
    requires SchedInv(sc) && i < |sc.ready| && t !in sc.tcb
    requires StartThread(sc, t, prio).Go? && SchedInv(StartThread(sc, t, prio).s)
    ensures WaitsAtMost(StartThread(sc, t, prio).s, sc.ready[i], Wait(sc, i))
  {
    hide SchedInv, NoDuplicates;
    QueueIsSound(sc);
    var sc' := StartThread(sc, t, prio).s;
    assert sc'.ready[..i] == sc.ready[..i];
    forall x | x in sc.ready[..i] ensures x in sc.tcb && x in sc'.tcb && sc'.tcb[x].ticks == sc.tcb[x].ticks {
      assert x in Queue(sc);
    }
    SliceSumFrame(sc.tcb, sc'.tcb, sc.ready[..i]);
    assert ReadyWithin(sc', i, sc.ready[i], Wait(sc, i));
  }

  lemma TimerShortensWait(sc: Sched, i: nat)
    requires SchedInv(sc) && i < |sc.ready|
    ensures WaitsAtMost(Tick(sc), sc.ready[i], Wait(sc, i) - 1)
  {
    hide SchedInv, Tick, Wait;
    TickShortensWait(sc, i);
    WaitIsPositive(sc, i);
    if Wait(sc, i) > 1 {
      var k: nat :| WaitsOneLess(sc, i, Tick(sc), k);
      assert ReadyWithin(Tick(sc), k, sc.ready[i], Wait(sc, i) - 1);
    }
  }

  /** What a step that wakes nobody does to the scheduler. */
  lemma StepOnSched(s: State, a: Action)
    requires Typed(s) && Enabled(s, a) && !WakesSomebody(s, a) && Step(s, a).fault == NoFault
    ensures var sc := s.sched; var sc' := Step(s, a).sched;
            if a.Timer? then TimerTick(sc).Go? && sc' == TimerTick(sc).s
            else if a.Start? then StartThread(sc, a.t, a.prio).Go? && sc' == StartThread(sc, a.t, a.prio).s
            else if a.Block? then BlockCurrent(sc, a.stat).Go? && sc' == BlockCurrent(sc, a.stat).s
            else sc' == sc || (BlockCurrent(sc, Blocked).Go? && sc' == BlockCurrent(sc, Blocked).s)
  {
    hide Statement, BlockCurrent, Unblock, StartThread;
  }

  lemma StepKeepsWait(s: State, a: Action, i: nat)
    requires Safe(s) && Typed(s) && Enabled(s, a) && Disciplined(s, a) && !WakesSomebody(s, a)
    requires i < |s.sched.ready| && Step(s, a).fault == NoFault && SchedInv(Step(s, a).sched)
    ensures WaitsAtMost(Step(s, a).sched, s.sched.ready[i], Wait(s.sched, i) - if a.Timer? then 1 else 0)
  {
    hide Step, CtlInv, LockInv, SchedInv, TimerTick, BlockCurrent, StartThread, Wait, ReadyWithin;
    StepOnSched(s, a);
    if a.Timer? {
      TimerShortensWait(s.sched, i);
    } else if a.Start? {
      StartKeepsWait(s.sched, a.t, a.prio, i);
    } else if Step(s, a).sched == s.sched {
      ReadyNow(s.sched, i);
    } else {
      BlockShortensWait(s.sched, if a.Block? then a.stat else Blocked, i);
    }
  }

  lemma ReadyNow(sc: Sched, i: nat)
    requires SchedInv(sc) && i < |sc.ready|
    ensures ReadyWithin(sc, i, sc.ready[i], Wait(sc, i))
  {
  }

  /** Over any run that wakes nobody, a ready thread has run once the delivered interrupts reach its wait. */
  lemma {:induction false} BoundedWaiting(s: State, acts: seq<Action>, i: nat)
    requires Inv(s) && s.fault == NoFault && ValidRun(s, acts) && NobodyWoken(s, acts) && i < |s.sched.ready|
    requires TimerCount(acts) >= Wait(s.sched, i)
    ensures exists n: nat :: n <= |acts| && StateAt(s, acts, n).Cur() == s.sched.ready[i]
    decreases |acts|
  {
    hide Safe, Step, Wait, ReadyWithin, Enabled, Disciplined, Typed;
    SafeSched(s);
    WaitIsPositive(s.sched, i);
    var t := s.sched.ready[i];
    var a := acts[0];
    var s' := Step(s, a);
    StepKeepsInv(s, a);
    SafeSched(s');
    StepKeepsWait(s, a, i);
    if s'.Cur() == t {
      assert StateAt(s', acts[1..], 0) == s';
      assert StateAt(s, acts, 1).Cur() == t;
    } else {
      var k: nat :| ReadyWithin(s'.sched, k, t, Wait(s.sched, i) - if a.Timer? then 1 else 0);
      ReadyWithinGives(s'.sched, k, t, Wait(s.sched, i) - if a.Timer? then 1 else 0);
      BoundedWaiting(s', acts[1..], k);
      var n: nat :| n <= |acts[1..]| && StateAt(s', acts[1..], n).Cur() == t;
      assert StateAt(s, acts, n + 1) == StateAt(s', acts[1..], n);
    }
  }

  lemma ReadyWithinGives(sc: Sched, k: nat, t: Tid, w: int)
    requires SchedInv(sc) && ReadyWithin(sc, k, t, w)
    ensures k < |sc.ready| && sc.ready[k] == t && Wait(sc, k) <= w
  {
  }

  lemma SafeSched(s: State)
    requires Safe(s)
    ensures SchedInv(s.sched)
  {
  }
}
