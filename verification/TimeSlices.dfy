/**
 How long a ready thread waits and how much processor time each thread gets,
 counted in delivered timer interrupts (device/timer.c over thread/thread.c).
 */
module TimeSlices {
  import opened Scheduler

  /** One delivered timer interrupt; under the partition the handler never halts. */
  function Tick(s: Sched): (s': Sched)
    requires SchedInv(s)
    ensures SchedInv(s')
  {
    TimerTickKeepsInv(s);
    TimerTick(s).s
  }

  function Ticks(s: Sched, n: nat): (s': Sched)
    requires SchedInv(s)
    ensures SchedInv(s')
    decreases n
  {
    if n == 0 then s else Ticks(Tick(s), n - 1)
  }

  lemma {:induction false} TicksCompose(s: Sched, m: nat, n: nat)
    requires SchedInv(s)
    ensures Ticks(s, m + n) == Ticks(Ticks(s, m), n)
    decreases m
  {
    hide SchedInv, Tick;
    if m > 0 { TicksCompose(Tick(s), m - 1, n); }
  }

  /** The interrupts that the remaining slices of some threads take: ticks + 1 for each. */
  function SliceSum(tcb: map<Tid, Tcb>, xs: seq<Tid>): nat
    requires forall x <- xs :: x in tcb
  {
    if xs == [] then 0 else tcb[xs[0]].ticks + 1 + SliceSum(tcb, xs[1..])
  }

  lemma {:induction false} SliceSumFrame(tcb: map<Tid, Tcb>, tcb': map<Tid, Tcb>, xs: seq<Tid>)
    requires forall x <- xs :: x in tcb && x in tcb' && tcb'[x].ticks == tcb[x].ticks
    ensures SliceSum(tcb', xs) == SliceSum(tcb, xs)
  {
    if xs != [] { SliceSumFrame(tcb, tcb', xs[1..]); }
  }

  /** The wait of the thread at position i of the ready list. */
  function Wait(s: Sched, i: nat): nat
    requires SchedInv(s) && i < |s.ready|
  {
    s.tcb[s.cur].ticks + 1 + SliceSum(s.tcb, s.ready[..i])
  }

  /** The thread at position k of s' waits one interrupt less than thread t at position i of s. */
  ghost predicate WaitsOneLess(s: Sched, i: nat, s': Sched, k: nat)
    requires SchedInv(s) && SchedInv(s') && i < |s.ready|
  {
    k < |s'.ready| && s'.ready[k] == s.ready[i] && s'.cur != s.ready[i] && Wait(s', k) == Wait(s, i) - 1
  }

  lemma MidSliceShortensWait(s: Sched, i: nat)
    requires SchedInv(s) && i < |s.ready| && s.tcb[s.cur].ticks > 0
    ensures WaitsOneLess(s, i, Tick(s), i)
  {
    TickMidSlice(s);
    SliceSumFrame(s.tcb, Tick(s).tcb, s.ready[..i]);
    assert s.ready[i] in s.ready;
  }

  lemma EndSliceShortensWait(s: Sched, i: nat)
    requires SchedInv(s) && 0 < i < |s.ready| && s.tcb[s.cur].ticks == 0
    ensures WaitsOneLess(s, i, Tick(s), i - 1)
  {
    hide Tick, SchedInv, NoDuplicates, Wrap;
    TickEndSlice(s);
    QueueIsSound(s);
    ReadyIsNotCurrent(s, i);
    var s' := Tick(s);
    assert s'.cur == Queue(s')[0] && s'.ready == Queue(s')[1..];
    assert s'.ready == s.ready[1..] + [s.cur];
    var first := s.ready[..i];
    assert s'.ready[..i - 1] == first[1..];
    forall x | x in first ensures x in s.tcb && x in s'.tcb && s'.tcb[x].ticks == s.tcb[x].ticks {
      assert x in Queue(s);
      var j :| 0 <= j < i && x == s.ready[j];
      ReadyIsNotCurrent(s, j);
    }
    SliceSumFrame(s.tcb, s'.tcb, first[1..]);
  }

  lemma ReadyIsNotCurrent(s: Sched, i: nat)
    requires SchedInv(s) && i < |s.ready|
    ensures s.ready[i] != s.cur && (i > 0 ==> s.ready[i] != s.ready[0])
  {
    assert s.ready[i] in s.ready;
  }

  /** One interrupt either uses up a tick of the running slice or starts the next thread: the wait drops by one. */
  lemma TickShortensWait(s: Sched, i: nat)
    requires SchedInv(s) && i < |s.ready|
    ensures Wait(s, i) == 1 ==> Tick(s).cur == s.ready[i]
    ensures Wait(s, i) > 1 ==> exists k: nat :: WaitsOneLess(s, i, Tick(s), k)
  {
    if s.tcb[s.cur].ticks > 0 {
      MidSliceShortensWait(s, i);
    } else if i > 0 {
      EndSliceShortensWait(s, i);
    } else {
      TickEndSlice(s);
      assert Tick(s).cur == Queue(Tick(s))[0];
    }
  }

  lemma WaitIsPositive(s: Sched, i: nat)
    requires SchedInv(s) && i < |s.ready|
    ensures Wait(s, i) >= 1
  {
  }

  /** In a timer-only run the thread at position i starts after exactly its wait, and not before. */
  lemma {:induction false} ReadyThreadStartsExactlyAfterWait(s: Sched, i: nat)
    requires SchedInv(s) && i < |s.ready|
    ensures Ticks(s, Wait(s, i)).cur == s.ready[i]
    ensures forall m: nat :: m < Wait(s, i) ==> Ticks(s, m).cur != s.ready[i]
    decreases Wait(s, i)
  {
    hide SchedInv, Tick, SliceSum;
    TickShortensWait(s, i);
    ReadyIsNotCurrent(s, i);
    WaitIsPositive(s, i);
    var n := Wait(s, i);
    var s' := Tick(s);
    if n == 1 {
      assert Ticks(s', 0) == s';
      assert Ticks(s, 1) == s';
    } else {
      var k: nat :| WaitsOneLess(s, i, s', k);
      ReadyThreadStartsExactlyAfterWait(s', k);
      forall m: nat | m < n ensures Ticks(s, m).cur != s.ready[i] {
        if m > 0 { assert Ticks(s, m) == Ticks(s', m - 1); }
      }
    }
  }

  /** An unblocked thread is the next to run: it starts when the current slice ends, and not before. */
  lemma UnblockedRunsNext(s: Sched, t: Tid)
    requires SchedInv(s) && t in s.tcb && Unblock(s, t).Go?
    ensures var s' := Unblock(s, t).s; var n := s.tcb[s.cur].ticks + 1;
            && SchedInv(s') && Ticks(s', n).cur == t
            && (forall m: nat :: m < n ==> Ticks(s', m).cur != t)
  {
    hide Tick, Ticks;
    UnblockKeepsInv(s, t);
    var s' := Unblock(s, t).s;
    assert Wait(s', 0) == s.tcb[s.cur].ticks + 1;
    ReadyThreadStartsExactlyAfterWait(s', 0);
  }

  // ----- proportional share

  /** The threads in the order in which they will run: the current one, then the ready list. */
  function Queue(s: Sched): seq<Tid> { [s.cur] + s.ready }

  /** Every thread in the queue is at the start of a full slice. */
  ghost predicate FullSlices(s: Sched)
    requires SchedInv(s)
  {
    forall t <- Queue(s) :: s.tcb[t].ticks == s.tcb[t].priority
  }

  /** The queue after k slices. */
  function Rotated(q: seq<Tid>, k: nat): seq<Tid>
    requires k <= |q|
  {
    q[k..] + q[..k]
  }

  lemma RotateOnce(q: seq<Tid>, k: nat)
    requires k < |q|
    ensures Rotated(q, k)[0] == q[k]
    ensures Rotated(q, k + 1) == Rotated(q, k)[1..] + [q[k]]
    ensures q[..k + 1] == q[..k] + [q[k]]
    ensures NoDuplicates(q) ==> q[k] !in q[..k]
  {
  }

  lemma RotatedMembers(q: seq<Tid>, k: nat, x: Tid)
    requires k <= |q|
    ensures x in Rotated(q, k) <==> x in q
  {
    assert q == q[..k] + q[k..];
  }

  /** The accounts of thread x after the first k threads of queue q have each run one full slice. */
  ghost predicate ThreadAfterSlices(s: Sched, s': Sched, q: seq<Tid>, k: nat, x: Tid)
    requires k <= |q| && x in s.tcb
  {
    && x in s'.tcb
    && s'.tcb[x].priority == s.tcb[x].priority && s'.tcb[x].ticks == s.tcb[x].ticks
    && s'.tcb[x].elapsed == (if x in q[..k] then Wrap(s.tcb[x].elapsed + s.tcb[x].priority + 1) else s.tcb[x].elapsed)
    && (x !in q ==> s'.tcb[x].status == s.tcb[x].status)
  }

  /** s' is s after the first k threads of the queue have each run one full slice. */
  ghost predicate AfterSlices(s: Sched, s': Sched, k: nat)
    requires k <= |Queue(s)|
  {
    && SchedInv(s')
    && Queue(s') == Rotated(Queue(s), k)
    && s'.all == s.all
    && s'.tcb.Keys == s.tcb.Keys
    && (forall x :: x in s.tcb ==> ThreadAfterSlices(s, s', Queue(s), k, x))
  }

  lemma QueueIsSound(s: Sched)
    requires SchedInv(s)
    ensures NoDuplicates(Queue(s)) && s.cur in s.tcb && forall t <- Queue(s) :: t in s.tcb
  {
  }

  /** One interrupt in the middle of a slice. */
  lemma TickMidSlice(s: Sched)
    requires SchedInv(s) && s.tcb[s.cur].ticks > 0
    ensures var c := s.tcb[s.cur];
            Tick(s) == s.(tcb := s.tcb[s.cur := c.(ticks := c.ticks - 1, elapsed := Wrap(c.elapsed + 1))],
                          total := Wrap(s.total + 1))
  {
    var c := s.tcb[s.cur];
    assert Tick(s).tcb == s.tcb[s.cur := c.(ticks := c.ticks - 1, elapsed := Wrap(c.elapsed + 1))];
  }

  /** What one slice of the running thread changes; n is the number of ticks it is charged. */
  ghost predicate SliceRan(s: Sched, s': Sched, n: nat)
    requires s.cur in s.tcb
  {
    && Queue(s') == s.ready + [s.cur] && s'.all == s.all && s'.tcb.Keys == s.tcb.Keys
    && s'.tcb[s.cur].elapsed == Wrap(s.tcb[s.cur].elapsed + n)
    && s'.tcb[s.cur].ticks == s'.tcb[s.cur].priority == s.tcb[s.cur].priority
    && (forall t :: t in s.tcb && t != s.cur ==> s'.tcb[t].(status := s.tcb[t].status) == s.tcb[t])
    && (forall t :: t in s.tcb && t !in Queue(s) ==> s'.tcb[t].status == s.tcb[t].status)
  }

  lemma TickEndSlice(s: Sched)
    requires SchedInv(s) && s.tcb[s.cur].ticks == 0
    ensures SliceRan(s, Tick(s), 1)
  {
    hide Accounted, Wrap, NoDuplicates;
  }

  lemma SliceRanLater(s: Sched, s1: Sched, s': Sched, n: nat)
    requires s.cur in s.tcb && n > 0
    requires var c := s.tcb[s.cur];
             s1 == s.(tcb := s.tcb[s.cur := c.(ticks := n - 1, elapsed := Wrap(c.elapsed + 1))], total := s1.total)
    requires SliceRan(s1, s', n)
    ensures SliceRan(s, s', n + 1)
  {
    ModStep(s.tcb[s.cur].elapsed, n);
    hide Wrap;
    assert Queue(s1) == Queue(s);
  }

  /** The running thread uses up its slice: ticks + 1 interrupts later the next thread runs. */
  lemma {:induction false} OneSlice(s: Sched)
    requires SchedInv(s)
    ensures SliceRan(s, Ticks(s, s.tcb[s.cur].ticks + 1), s.tcb[s.cur].ticks + 1)
    decreases s.tcb[s.cur].ticks
  {
    hide SchedInv, Tick, SliceRan, Wrap;
    QueueIsSound(s);
    var n := s.tcb[s.cur].ticks;
    var s1 := Tick(s);
    assert Ticks(s, n + 1) == Ticks(s1, n);
    if n == 0 {
      TickEndSlice(s);
      assert Ticks(s1, 0) == s1;
    } else {
      TickMidSlice(s);
      OneSlice(s1);
      SliceRanLater(s, s1, Ticks(s1, n), n);
    }
  }

  lemma ModStep(e: nat, n: nat)
    ensures Wrap(Wrap(e + 1) + n) == Wrap(e + n + 1)
  {
    var q := (e + 1) / 0x1_0000_0000;
    assert Wrap(e + 1) + n == e + n + 1 - q * 0x1_0000_0000;
  }

  /** Interrupts taken by the first k full slices of the queue. */
  function FullSliceSum(tcb: map<Tid, Tcb>, xs: seq<Tid>): nat
    requires forall x <- xs :: x in tcb
  {
    if xs == [] then 0
    else FullSliceSum(tcb, xs[..|xs| - 1]) + tcb[xs[|xs| - 1]].priority + 1
  }

  lemma NoSlices(s: Sched)
    requires SchedInv(s)
    ensures Ticks(s, 0) == s && AfterSlices(s, s, 0) && SlicesRenewed(s, s, 0)
  {
    assert Rotated(Queue(s), 0) == Queue(s);
  }

  lemma AfterSlicesHead(s: Sched, m: Sched, k: nat)
    requires SchedInv(s) && FullSlices(s) && k < |Queue(s)| && AfterSlices(s, m, k)
    ensures m.cur == Queue(s)[k] && m.cur in m.tcb && m.cur in s.tcb
    ensures m.tcb[m.cur].ticks == s.tcb[m.cur].priority
  {
    RotateOnce(Queue(s), k);
    assert m.cur == Queue(m)[0];
  }

  lemma {:induction false} RunSlices(s: Sched, k: nat)
    requires SchedInv(s) && FullSlices(s) && k <= |Queue(s)|
    ensures AfterSlices(s, Ticks(s, FullSliceSum(s.tcb, Queue(s)[..k])), k)
    decreases k
  {
    hide SchedInv, FullSlices, Tick, Ticks, AfterSlices, SliceRan;
    QueueIsSound(s);
    NoSlices(s);
    var q := Queue(s);
    if k > 0 {
      var before := FullSliceSum(s.tcb, q[..k - 1]);
      RunSlices(s, k - 1);
      var m := Ticks(s, before);
      AfterSlicesHead(s, m, k - 1);
      var len := m.tcb[m.cur].ticks + 1;
      OneSlice(m);
      SliceStep(s, m, Ticks(m, len), k - 1);
      TicksCompose(s, before, len);
      assert q[..k][..k - 1] == q[..k - 1];
    }
  }

  lemma SliceStepAt(s: Sched, m: Sched, s': Sched, k: nat, x: Tid)
    requires SchedInv(s) && k < |Queue(s)| && x in s.tcb
    requires Queue(m) == Rotated(Queue(s), k) && ThreadAfterSlices(s, m, Queue(s), k, x)
    requires m.cur == Queue(s)[k] && m.cur in m.tcb && m.cur in s.tcb && m.tcb[m.cur].ticks == s.tcb[m.cur].priority
    requires SliceRan(m, s', m.tcb[m.cur].ticks + 1)
    ensures ThreadAfterSlices(s, s', Queue(s), k + 1, x)
  {
    hide SchedInv, Wrap, NoDuplicates, Rotated;
    QueueIsSound(s);
    RotateOnce(Queue(s), k);
    RotatedMembers(Queue(s), k, x);
    assert Queue(s)[k] in Queue(s);
  }

  lemma SliceStep(s: Sched, m: Sched, s': Sched, k: nat)
    requires SchedInv(s) && FullSlices(s) && k < |Queue(s)| && AfterSlices(s, m, k)
    requires SchedInv(s') && m.cur in m.tcb && SliceRan(m, s', m.tcb[m.cur].ticks + 1)
    ensures AfterSlices(s, s', k + 1)
  {
    hide SchedInv, Wrap, NoDuplicates, FullSlices, Rotated, ThreadAfterSlices;
    QueueIsSound(s);
    AfterSlicesHead(s, m, k);
    RotateOnce(Queue(s), k);
    assert m.ready == Queue(m)[1..];
    forall x | x in s.tcb ensures ThreadAfterSlices(s, s', Queue(s), k + 1, x) {
      SliceStepAt(s, m, s', k, x);
    }
  }

  /** s' differs from s only in the elapsed counts: each queued thread is charged priority + 1 ticks. */
  ghost predicate RotationDone(s: Sched, s': Sched)
    requires forall t <- Queue(s) :: t in s.tcb
  {
    && s'.cur == s.cur && s'.ready == s.ready && s'.all == s.all && s'.tcb.Keys == s.tcb.Keys
    && (forall t :: t in s.tcb ==> s'.tcb[t].(elapsed := s.tcb[t].elapsed) == s.tcb[t])
    && (forall t <- Queue(s) :: s'.tcb[t].elapsed == Wrap(s.tcb[t].elapsed + s.tcb[t].priority + 1))
    && (forall t :: t in s.tcb && t !in Queue(s) ==> s'.tcb[t].elapsed == s.tcb[t].elapsed)
  }

  /** One full rotation restores the scheduler and gives every thread priority + 1 ticks. */
  lemma FullRotationIsFair(s: Sched)
    requires SchedInv(s) && FullSlices(s)
    ensures RotationDone(s, Ticks(s, FullSliceSum(s.tcb, Queue(s))))
  {
    var q := Queue(s);
    assert q[..|q|] == q;
    RunSlices(s, |q|);
    RotationFromSlices(s, Ticks(s, FullSliceSum(s.tcb, q)));
  }

  lemma RotationFromSlices(s: Sched, s': Sched)
    requires SchedInv(s) && AfterSlices(s, s', |Queue(s)|)
    ensures RotationDone(s, s')
  {
    hide Wrap;
    var q := Queue(s);
    assert q[..|q|] == q && Rotated(q, |q|) == q;
    assert s'.cur == Queue(s')[0] && s'.ready == Queue(s')[1..] && s.ready == q[1..];
    forall t | t in s.tcb ensures s'.tcb[t].status == s.tcb[t].status && s'.tcb[t].(elapsed := s.tcb[t].elapsed) == s.tcb[t] {
      assert ThreadAfterSlices(s, s', q, |q|, t);
      SameQueueSameStatus(s, s', t);
    }
    forall t <- q ensures t in s.tcb && ThreadAfterSlices(s, s', q, |q|, t) {}
  }

  lemma SameQueueSameStatus(s: Sched, s': Sched, t: Tid)
    requires SchedInv(s) && SchedInv(s') && s'.cur == s.cur && s'.ready == s.ready && t in s.tcb && t in s'.tcb
    requires t !in Queue(s) ==> s'.tcb[t].status == s.tcb[t].status
    ensures s'.tcb[t].status == s.tcb[t].status
  {
  }

  /** The first k threads of the queue have used up the slice they had. */
  ghost predicate SlicesRenewed(s: Sched, s': Sched, k: nat)
    requires k <= |Queue(s)|
  {
    && Queue(s') == Rotated(Queue(s), k)
    && (forall t <- Queue(s)[..k] :: t in s'.tcb && s'.tcb[t].ticks == s'.tcb[t].priority)
    && (forall t <- Queue(s)[k..] :: t in s.tcb && t in s'.tcb && s'.tcb[t].ticks == s.tcb[t].ticks)
  }

  lemma RenewOneSlice(s: Sched, m: Sched, s': Sched, k: nat)
    requires SchedInv(s) && k < |Queue(s)| && SlicesRenewed(s, m, k) && m.cur in m.tcb
    requires SliceRan(m, s', m.tcb[m.cur].ticks + 1)
    ensures SlicesRenewed(s, s', k + 1)
  {
    hide SchedInv, Wrap, NoDuplicates, Rotated;
    QueueIsSound(s);
    RotateOnce(Queue(s), k);
    assert m.cur == Queue(m)[0] && m.ready == Queue(m)[1..];
    forall t | t in Queue(s)[k + 1..] ensures t in Queue(s)[k..] && t != m.cur { NotAgain(Queue(s), k, t); }
  }

  lemma NotAgain(q: seq<Tid>, k: nat, t: Tid)
    requires NoDuplicates(q) && k < |q| && t in q[k + 1..]
    ensures t in q[k..] && t != q[k]
  {
    var j :| 0 <= j < |q[k + 1..]| && q[k + 1..][j] == t;
    assert t == q[k + 1 + j] && t == q[k..][j + 1];
  }

  lemma {:induction false} SliceSumAppend(tcb: map<Tid, Tcb>, xs: seq<Tid>, t: Tid)
    requires t in tcb && forall x <- xs :: x in tcb
    ensures SliceSum(tcb, xs + [t]) == SliceSum(tcb, xs) + tcb[t].ticks + 1
  {
    if xs == [] {
      assert xs + [t] == [t];
    } else {
      assert (xs + [t])[1..] == xs[1..] + [t];
      SliceSumAppend(tcb, xs[1..], t);
    }
  }

  /** After the interrupts of the first k slices of the queue those k threads have full slices. */
  lemma {:induction false} SlicesRenew(s: Sched, k: nat)
    requires SchedInv(s) && k <= |Queue(s)|
    ensures (forall t <- Queue(s)[..k] :: t in s.tcb) && SlicesRenewed(s, Ticks(s, SliceSum(s.tcb, Queue(s)[..k])), k)
    decreases k
  {
    hide SchedInv, Tick, Ticks, SliceRan, SlicesRenewed, NoDuplicates;
    QueueIsSound(s);
    NoSlices(s);
    var q := Queue(s);
    if k > 0 {
      SlicesRenew(s, k - 1);
      var n0 := SliceSum(s.tcb, q[..k - 1]);
      var m := Ticks(s, n0);
      HeadAfterSlices(s, m, k - 1);
      var len := m.tcb[m.cur].ticks + 1;
      OneSlice(m);
      RenewOneSlice(s, m, Ticks(m, len), k - 1);
      TicksCompose(s, n0, len);
      assert q[..k] == q[..k - 1] + [q[k - 1]];
      SliceSumAppend(s.tcb, q[..k - 1], q[k - 1]);
    }
  }

  lemma HeadAfterSlices(s: Sched, m: Sched, k: nat)
    requires SchedInv(s) && k < |Queue(s)| && SlicesRenewed(s, m, k)
    ensures m.cur == Queue(s)[k] && m.cur in s.tcb && m.cur in m.tcb && m.tcb[m.cur].ticks == s.tcb[m.cur].ticks
  {
    hide SchedInv;
    RotateOnce(Queue(s), k);
    assert m.cur == Queue(m)[0] && Queue(s)[k] == Queue(s)[k..][0];
  }

  /** From any state one rotation, of exactly the slices that are left, makes every slice full and restores the order of the queue. */
  lemma SlicesBecomeFull(s: Sched)
    requires SchedInv(s)
    ensures (forall t <- Queue(s) :: t in s.tcb)
    ensures var s' := Ticks(s, SliceSum(s.tcb, Queue(s))); Queue(s') == Queue(s) && FullSlices(s')
  {
    hide SchedInv, Tick, Ticks;
    SlicesRenew(s, |Queue(s)|);
    var q := Queue(s);
    assert q[|q|..] + q[..|q|] == q && q[..|q|] == q;
  }
}
