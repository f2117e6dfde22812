/**
 The ready list, the time slices and the tick accounting of the kernel
 (thread/thread.c and device/timer.c), as functions on values.

 A thread is named by a number. The two intrusive lists appear as sequences of
 thread names: `ready` is thread_ready_list, `all` is thread_all_list.
 */
module Scheduler {

  /** uint32_t arithmetic. */
  function Wrap(x: nat): nat { x % 0x1_0000_0000 }

  type Tid = nat

  datatype Status = Running | Ready | Blocked | Waiting | Hanging | Died

  /** The scheduling part of a task_struct. The two tick counters wrap like uint32_t. */
  datatype Tcb = Tcb(status: Status, priority: nat, ticks: nat, elapsed: nat)

  datatype Sched = Sched(cur: Tid, ready: seq<Tid>, all: seq<Tid>, tcb: map<Tid, Tcb>, total: nat)

  /** What a piece of kernel code does: go on in a new state, or halt in the ASSERT on a line of thread.c. */
  datatype Outcome = Go(s: Sched) | Halt(line: nat)

  /** Every thread pointer in use points at a task_struct. */
  ghost predicate PointersValid(s: Sched) {
    s.cur in s.tcb && (forall t <- s.ready :: t in s.tcb)
  }

  /** schedule(), second half: take the first ready thread and make it run. */
  function SwitchToNext(s: Sched): Outcome
    requires PointersValid(s)
  {
    if s.ready == [] then Halt(117)
    else
      var next := s.ready[0];
      Go(s.(cur := next, ready := s.ready[1..], tcb := s.tcb[next := s.tcb[next].(status := Running)]))
  }

  /** schedule(): a thread that still counts as running goes to the back with a new slice. */
  function Schedule(s: Sched): Outcome
    requires PointersValid(s)
  {
    var c := s.tcb[s.cur];
    if c.status != Running then SwitchToNext(s)
    else if s.cur in s.ready then Halt(107)
    else SwitchToNext(s.(ready := s.ready + [s.cur],
                         tcb := s.tcb[s.cur := c.(status := Ready, ticks := c.priority)]))
  }

  /** Counting one tick for the current thread: elapsed_ticks++ and ticks++, each modulo 2^32. */
  function CountTick(s: Sched): Sched
    requires s.cur in s.tcb
  {
    s.(tcb := s.tcb[s.cur := s.tcb[s.cur].(elapsed := Wrap(s.tcb[s.cur].elapsed + 1))],
       total := Wrap(s.total + 1))
  }

  /** intr_timer_handler(). */
  function TimerTick(s: Sched): Outcome
    requires PointersValid(s)
  {
    var s1 := CountTick(s);
    var c := s1.tcb[s.cur];
    if c.ticks == 0 then Schedule(s1)
    else Go(s1.(tcb := s1.tcb[s.cur := c.(ticks := c.ticks - 1)]))
  }

  /** thread_block(stat) up to the switch: the caller leaves the processor. */
  function BlockCurrent(s: Sched, stat: Status): Outcome
    requires PointersValid(s)
  {
    if stat != Blocked && stat != Waiting && stat != Hanging then Halt(130)
    else Schedule(s.(tcb := s.tcb[s.cur := s.tcb[s.cur].(status := stat)]))
  }

  /** thread_unblock(t): a blocked thread goes to the front of the ready list. */
  function Unblock(s: Sched, t: Tid): Outcome
    requires t in s.tcb
  {
    var st := s.tcb[t].status;
    if st != Blocked && st != Waiting && st != Hanging then Halt(141)
    else if t in s.ready then Halt(144)
    else Go(s.(ready := [t] + s.ready, tcb := s.tcb[t := s.tcb[t].(status := Ready)]))
  }

  /** thread_start(): a new thread joins both lists at the back. The priority is stored in a uint8_t. */
  function StartThread(s: Sched, t: Tid, prio: nat): Outcome {
    if t in s.ready then Halt(78)
    else Go(s.(ready := s.ready + [t], all := s.all + [t], tcb := s.tcb[t := Tcb(Ready, prio % 256, 0, 0)]))
  }

  /** make_main_thread(). */
  function InitialSched(main: Tid): Sched {
    Sched(main, [], [main], map[main := Tcb(Running, 8, 0, 0)], 0)
  }

  ghost predicate NoDuplicates(xs: seq<Tid>) {
    forall i, j :: 0 <= i < j < |xs| ==> xs[i] != xs[j]
  }

  function ElapsedSum(tcb: map<Tid, Tcb>, xs: seq<Tid>): nat
    requires forall x <- xs :: x in tcb
  {
    if xs == [] then 0 else tcb[xs[0]].elapsed + ElapsedSum(tcb, xs[1..])
  }

  /** The scheduler partition: one running thread, the current one, and the ready list holds exactly the ready ones. */
  ghost predicate Partition(s: Sched) {
    && s.cur in s.tcb
    && NoDuplicates(s.ready)
    && (forall t :: t in s.ready <==> t in s.tcb && s.tcb[t].status == Ready)
    && (forall t :: t in s.tcb ==> (s.tcb[t].status == Running <==> t == s.cur))
  }

  /** thread_all_list names every thread once, and the global tick count is the sum of all elapsed counts. */
  ghost predicate Accounted(s: Sched) {
    && NoDuplicates(s.all)
    && (forall t :: t in s.all <==> t in s.tcb)
    && s.total == Wrap(ElapsedSum(s.tcb, s.all))
  }

  ghost predicate SchedInv(s: Sched) { Partition(s) && Accounted(s) }

  lemma {:induction false} ElapsedSumFrame(tcb: map<Tid, Tcb>, tcb': map<Tid, Tcb>, xs: seq<Tid>)
    requires forall x <- xs :: x in tcb && x in tcb' && tcb[x].elapsed == tcb'[x].elapsed
    ensures ElapsedSum(tcb, xs) == ElapsedSum(tcb', xs)
  {
    if xs != [] { ElapsedSumFrame(tcb, tcb', xs[1..]); }
  }

  lemma {:induction false} ElapsedSumBump(tcb: map<Tid, Tcb>, tcb': map<Tid, Tcb>, xs: seq<Tid>, t: Tid)
    requires NoDuplicates(xs) && t in xs
    requires forall x <- xs :: x in tcb && x in tcb' && (x != t ==> tcb[x].elapsed == tcb'[x].elapsed)
    ensures ElapsedSum(tcb', xs) == ElapsedSum(tcb, xs) - tcb[t].elapsed + tcb'[t].elapsed
  {
    if xs[0] == t {
      ElapsedSumFrame(tcb, tcb', xs[1..]);
    } else {
      ElapsedSumBump(tcb, tcb', xs[1..], t);
    }
  }

  lemma {:induction false} ElapsedSumAppend(tcb: map<Tid, Tcb>, xs: seq<Tid>, t: Tid)
    requires t in tcb && forall x <- xs :: x in tcb
    ensures ElapsedSum(tcb, xs + [t]) == ElapsedSum(tcb, xs) + tcb[t].elapsed
  {
    if xs == [] {
      assert [] + [t] == [t];
    } else {
      assert (xs + [t])[1..] == xs[1..] + [t];
      ElapsedSumAppend(tcb, xs[1..], t);
    }
  }

  lemma InitialSchedInv(main: Tid)
    ensures SchedInv(InitialSched(main))
  {
    var s := InitialSched(main);
    assert ElapsedSum(s.tcb, s.all) == 0;
  }

  /** Changing statuses and slices, but no elapsed count, keeps the tick account. */
  lemma AccountFrame(s: Sched, s': Sched)
    requires Accounted(s) && s'.all == s.all && s'.total == s.total && s'.tcb.Keys == s.tcb.Keys
    requires forall t :: t in s.tcb ==> s'.tcb[t].elapsed == s.tcb[t].elapsed
    ensures Accounted(s')
  {
    ElapsedSumFrame(s.tcb, s'.tcb, s.all);
  }

  /** In the middle of schedule(): nobody runs. */
  ghost predicate Vacant(s: Sched) {
    && s.cur in s.tcb
    && NoDuplicates(s.ready)
    && (forall t :: t in s.ready <==> t in s.tcb && s.tcb[t].status == Ready)
    && (forall t :: t in s.tcb ==> s.tcb[t].status != Running)
  }

  lemma SwitchFillsVacancy(s: Sched)
    requires Vacant(s) && s.ready != []
    ensures Partition(SwitchToNext(s).s)
  {
    var s' := SwitchToNext(s).s;
    assert s.ready == [s'.cur] + s'.ready;
  }

  lemma AppendNoDuplicates(xs: seq<Tid>, t: Tid)
    requires NoDuplicates(xs) && t !in xs
    ensures NoDuplicates(xs + [t])
  {
  }

  lemma YieldLeavesVacancy(s: Sched)
    requires Partition(s)
    ensures Vacant(s.(ready := s.ready + [s.cur],
                      tcb := s.tcb[s.cur := s.tcb[s.cur].(status := Ready, ticks := s.tcb[s.cur].priority)]))
  {
    AppendNoDuplicates(s.ready, s.cur);
  }

  /** schedule() for a thread whose slice has run out. */
  lemma YieldKeepsInv(s: Sched)
    requires SchedInv(s)
    ensures Schedule(s).Go? && SchedInv(Schedule(s).s)
  {
    hide SchedInv, Vacant, ElapsedSum, NoDuplicates, Accounted, Partition;
    YieldUnfolds(s);
    YieldLeavesVacancy(s);
    var b := s.(ready := s.ready + [s.cur],
                tcb := s.tcb[s.cur := s.tcb[s.cur].(status := Ready, ticks := s.tcb[s.cur].priority)]);
    SwitchFillsVacancy(b);
    AccountFrame(s, Schedule(s).s);
    SchedInvFrom(Schedule(s).s);
  }

  lemma YieldUnfolds(s: Sched)
    requires SchedInv(s)
    ensures Partition(s) && Accounted(s) && PointersValid(s) && s.tcb[s.cur].status == Running && s.cur !in s.ready
  {
  }

  lemma SchedInvFrom(s: Sched)
    requires Partition(s) && Accounted(s)
    ensures SchedInv(s)
  {
  }

  /** thread_block(): it halts exactly when no other thread is ready. */
  lemma BlockKeepsInv(s: Sched, stat: Status)
    requires SchedInv(s) && stat in {Blocked, Waiting, Hanging}
    ensures match BlockCurrent(s, stat)
            case Halt(line) => line == 117 && s.ready == []
            case Go(s') => SchedInv(s') && s.ready != []
  {
    var b := s.(tcb := s.tcb[s.cur := s.tcb[s.cur].(status := stat)]);
    assert Vacant(b);
    if s.ready != [] {
      SwitchFillsVacancy(b);
      AccountFrame(s, BlockCurrent(s, stat).s);
    }
  }

  /** The caller waits with status stat, and the first ready thread runs. */
  function AfterBlock(s: Sched, stat: Status): Sched
    requires s.cur in s.tcb && s.ready != [] && s.ready[0] in s.tcb
  {
    var next := s.ready[0];
    s.(cur := next, ready := s.ready[1..],
       tcb := s.tcb[s.cur := s.tcb[s.cur].(status := stat)][next := s.tcb[next].(status := Running)])
  }

  /** thread_block for any status: which ASSERT it halts in, and what becomes of the caller and the next thread otherwise. */
  lemma BlockExactly(s: Sched, stat: Status)
    requires SchedInv(s)
    ensures s.ready != [] ==> s.ready[0] in s.tcb && s.ready[0] != s.cur
    ensures BlockCurrent(s, stat) == if stat !in {Blocked, Waiting, Hanging} then Halt(130)
                                     else if s.ready == [] then Halt(117) else Go(AfterBlock(s, stat))
  {
    if s.ready != [] { assert s.ready[0] in s.ready && s.ready[0] != s.cur; }
  }

  lemma WrappedCounts(sum: nat, e: nat)
    requires e <= sum
    ensures Wrap(Wrap(sum) + 1) == Wrap(sum - e + Wrap(e + 1))
  {
    var q := (e + 1) / 0x1_0000_0000;
    assert Wrap(e + 1) == e + 1 - q * 0x1_0000_0000;
    assert sum - e + Wrap(e + 1) == sum + 1 - q * 0x1_0000_0000;
  }

  lemma {:induction false} ElapsedAtMostSum(tcb: map<Tid, Tcb>, xs: seq<Tid>, t: Tid)
    requires t in xs && forall x <- xs :: x in tcb
    ensures tcb[t].elapsed <= ElapsedSum(tcb, xs)
  {
    if xs[0] != t { ElapsedAtMostSum(tcb, xs[1..], t); }
  }

  lemma CountTickKeepsInv(s: Sched)
    requires SchedInv(s)
    ensures SchedInv(CountTick(s))
  {
    var s1 := CountTick(s);
    ElapsedSumBump(s.tcb, s1.tcb, s.all, s.cur);
    ElapsedAtMostSum(s.tcb, s.all, s.cur);
    WrappedCounts(ElapsedSum(s.tcb, s.all), s.tcb[s.cur].elapsed);
  }

  lemma TimerTickKeepsInv(s: Sched)
    requires SchedInv(s)
    ensures TimerTick(s).Go? && SchedInv(TimerTick(s).s)
  {
    var s1 := CountTick(s);
    CountTickKeepsInv(s);
    if s.tcb[s.cur].ticks == 0 {
      YieldKeepsInv(s1);
    } else {
      AccountFrame(s1, TimerTick(s).s);
    }
  }

  lemma UnblockKeepsInv(s: Sched, t: Tid)
    requires SchedInv(s) && t in s.tcb
    ensures Unblock(s, t).Go? <==> s.tcb[t].status in {Blocked, Waiting, Hanging}
    ensures Unblock(s, t).Go? ==> SchedInv(Unblock(s, t).s)
  {
    if s.tcb[t].status in {Blocked, Waiting, Hanging} {
      var s' := Unblock(s, t).s;
      assert s'.ready[1..] == s.ready;
      AccountFrame(s, s');
    }
  }

  lemma StartThreadKeepsInv(s: Sched, t: Tid, prio: nat)
    requires SchedInv(s) && t !in s.tcb
    ensures StartThread(s, t, prio).Go? && SchedInv(StartThread(s, t, prio).s)
  {
    var s' := StartThread(s, t, prio).s;
    ElapsedSumFrame(s.tcb, s'.tcb, s.all);
    ElapsedSumAppend(s'.tcb, s.all, t);
  }
}
