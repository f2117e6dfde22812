/**
 The ring buffer of device/ioqueue.c. Bytes are written at `head` and read at `tail`;
 the test for a full buffer compares the position after `tail` with `head`, so it
 reports a buffer as full when it holds exactly one byte.
 */
module IoQueue {

  const BUFSIZE: nat := 64

  function NextPos(pos: nat): nat { (pos + 1) % BUFSIZE }

  /** The buffer and its two positions. The pointers producer and consumer are NULL (see IoqueueBuffer.Valid). */
  datatype Queue = Queue(buffer: seq<char>, head: nat, tail: nat) {
    predicate Ok() { |buffer| == BUFSIZE && head < BUFSIZE && tail < BUFSIZE }
    predicate Full() { NextPos(tail) == head }
    predicate Empty() { head == tail }
    /** The number of unread bytes. */
    function Count(): nat
      requires Ok()
    {
      if head >= tail then head - tail else head + BUFSIZE - tail
    }
    /** The unread bytes, oldest first. */
    function Unread(): (u: seq<char>)
      requires Ok()
      ensures |u| == Count()
    {
      seq(Count(), i requires 0 <= i < Count() => buffer[(tail + i) % BUFSIZE])
    }
  }

  /** The store of ioq_putchar. */
  function Put(q: Queue, b: char): Queue
    requires q.Ok()
  {
    q.(buffer := q.buffer[q.head := b], head := NextPos(q.head))
  }

  /** The load of ioq_getchar. */
  function Get(q: Queue): Queue { q.(tail := NextPos(q.tail)) }

  lemma PutOk(q: Queue, b: char)
    requires q.Ok()
    ensures Put(q, b).Ok() && Get(q).Ok()
  {
  }

  /** A put appends one byte as long as 62 are unread at most. */
  lemma PutAppends(q: Queue, b: char)
    requires q.Ok() && q.Count() < BUFSIZE - 1
    ensures Put(q, b).Ok() && Put(q, b).Unread() == q.Unread() + [b]
  {
    PutOk(q, b);
    var q' := Put(q, b);
    var n := q.Count();
    assert q'.Count() == n + 1;
    forall i | 0 <= i < n + 1 ensures q'.Unread()[i] == (q.Unread() + [b])[i] {
      if i < n {
        assert (q.tail + i) % BUFSIZE != q.head;
      } else {
        assert (q.tail + n) % BUFSIZE == q.head;
      }
    }
  }

  /** With 63 unread bytes a put makes the buffer look empty: all of them are lost. ioq_full does not prevent it. */
  lemma PutOverruns(q: Queue, b: char)
    requires q.Ok() && q.Count() == BUFSIZE - 1
    ensures !q.Full() && Put(q, b).Ok() && Put(q, b).Unread() == []
  {
    PutOk(q, b);
  }

  /** A get takes the oldest byte. */
  lemma GetTakes(q: Queue)
    requires q.Ok() && !q.Empty()
    ensures Get(q).Ok() && [q.buffer[q.tail]] + Get(q).Unread() == q.Unread()
  {
    var q' := Get(q);
    var n := q.Count();
    assert q'.Ok() && q'.Count() == n - 1;
    assert q.Unread()[0] == q.buffer[q.tail];
    forall i | 0 <= i < n - 1 ensures q'.Unread()[i] == q.Unread()[i + 1] {
      assert (NextPos(q.tail) + i) % BUFSIZE == (q.tail + (i + 1)) % BUFSIZE;
    }
  }

  /** ioq_full as written: the buffer holds exactly one byte. */
  lemma FullMeansOne(q: Queue)
    requires q.Ok()
    ensures q.Full() <==> q.Count() == 1
    ensures q.Empty() <==> q.Unread() == []
  {
  }

  // ----- guarded puts and gets

  datatype Op = Key(b: char) | Read

  datatype Log = Log(q: Queue, stored: seq<char>, read: seq<char>)

  /** The keyboard stores a byte unless the queue is full; a consumer reads one unless it is empty. */
  function Do(l: Log, op: Op): Log
    requires l.q.Ok()
  {
    match op
    case Key(b) => if l.q.Full() then l else Log(Put(l.q, b), l.stored + [b], l.read)
    case Read => if l.q.Empty() then l else Log(Get(l.q), l.stored, l.read + [l.q.buffer[l.q.tail]])
  }

  /** What has been stored is what was read and then what is unread, which is at most one byte. */
  predicate LogOk(l: Log) { l.q.Ok() && l.stored == l.read + l.q.Unread() && |l.q.Unread()| <= 1 }

  lemma DoKeepsLog(l: Log, op: Op)
    requires LogOk(l)
    ensures LogOk(Do(l, op))
  {
    FullMeansOne(l.q);
    match op
    case Key(b) =>
      if !l.q.Full() { PutAppends(l.q, b); }
    case Read =>
      if !l.q.Empty() { GetTakes(l.q); }
  }

  function DoAll(l: Log, ops: seq<Op>): Log
    requires LogOk(l)
    decreases |ops|
  {
    if ops == [] then l else DoKeepsLog(l, ops[0]); DoAll(Do(l, ops[0]), ops[1..])
  }

  /** ioqueue_init(), on a buffer with any contents. */
  predicate Fresh(q: Queue) { q.Ok() && q.head == 0 && q.tail == 0 }

  /** Over every run of guarded puts and gets the queue is first in, first out, and holds at most one byte. */
  lemma {:induction false} QueueIsFifo(q: Queue, ops: seq<Op>)
    requires Fresh(q)
    ensures LogOk(Log(q, [], [])) && LogOk(DoAll(Log(q, [], []), ops))
  {
    LogOkStays(Log(q, [], []), ops);
  }

  lemma {:induction false} LogOkStays(l: Log, ops: seq<Op>)
    requires LogOk(l)
    ensures LogOk(DoAll(l, ops))
    decreases |ops|
  {
    if ops != [] {
      DoKeepsLog(l, ops[0]);
      LogOkStays(Do(l, ops[0]), ops[1..]);
    }
  }

  // ----- what that is: a slot for one byte

  /** A slot that holds at most one byte: a byte that comes to a full slot is refused. */
  datatype Slot = Slot(held: seq<char>, stored: seq<char>, read: seq<char>)

  function Use(s: Slot, op: Op): Slot {
    match op
    case Key(b) => if s.held == [] then Slot([b], s.stored + [b], s.read) else s
    case Read => Slot([], s.stored, s.read + s.held)
  }

  function UseAll(s: Slot, ops: seq<Op>): Slot
    decreases |ops|
  {
    if ops == [] then s else UseAll(Use(s, ops[0]), ops[1..])
  }

  /** The slot that a log shows. */
  function SlotOf(l: Log): Slot
    requires l.q.Ok()
  {
    Slot(l.q.Unread(), l.stored, l.read)
  }

  lemma DoIsUse(l: Log, op: Op)
    requires LogOk(l)
    ensures LogOk(Do(l, op)) && SlotOf(Do(l, op)) == Use(SlotOf(l), op)
  {
    DoKeepsLog(l, op);
    FullMeansOne(l.q);
    match op
    case Key(b) =>
      if !l.q.Full() { PutAppends(l.q, b); }
    case Read =>
      if !l.q.Empty() { GetTakes(l.q); }
  }

  /** Over every run of guarded puts and gets the ring of 64 bytes stores, refuses and gives back exactly what a slot for one byte does. */
  lemma {:induction false} RingIsSlot(l: Log, ops: seq<Op>)
    requires LogOk(l)
    ensures LogOk(DoAll(l, ops)) && SlotOf(DoAll(l, ops)) == UseAll(SlotOf(l), ops)
    decreases |ops|
  {
    hide Do, Use;
    if ops != [] {
      DoIsUse(l, ops[0]);
      RingIsSlot(Do(l, ops[0]), ops[1..]);
    }
  }

  /** struct ioqueue; its lock is only taken on the way to ioq_wait. */
  class IoqueueBuffer {
    var buffer: array<char>
    var head: nat
    var tail: nat
    var producer: nat   // 0 is NULL
    var consumer: nat

    /** ioq_wait is the only place that sets the two pointers, and it halts: they stay NULL. */
    ghost predicate Valid()
      reads this
    {
      buffer.Length == BUFSIZE && head < BUFSIZE && tail < BUFSIZE && producer == 0 && consumer == 0
    }

    ghost function View(): Queue
      reads this, buffer
    {
      Queue(buffer[..], head, tail)
    }

    /** ioqueue_init(). */
    constructor ()
      ensures Valid() && Fresh(View()) && fresh(buffer)
    {
      buffer := new char[BUFSIZE];
      head, tail, producer, consumer := 0, 0, 0, 0;
    }

    /** ioq_wait(): the line of its ASSERT; only a waiter that is already there would get past it. */
    method IoqWait(waiter: nat) returns (line: nat)
      ensures line == (if waiter == 0 then 36 else 0)
    {
      line := if waiter == 0 then 36 else 0;
    }

    /** ioq_full(): line is 0, or that of the ASSERT that fails. */
    method IoqFull(intr: bool) returns (line: nat, full: bool)
      requires Valid()
      ensures line == if intr then 24 else 0
      ensures line == 0 ==> (full <==> View().Count() == 1)
    {
      if intr { return 24, false; }
      FullMeansOne(View());
      return 0, (tail + 1) % BUFSIZE == head;
    }

    /** ioq_empty(): line is 0, or that of the ASSERT that fails. */
    method IoqEmpty(intr: bool) returns (line: nat, empty: bool)
      requires Valid()
      ensures line == if intr then 30 else 0
      ensures line == 0 ==> (empty <==> View().Unread() == [])
    {
      if intr { return 30, false; }
      FullMeansOne(View());
      return 0, head == tail;
    }

    /** ioq_putchar(): line is 0, or that of the ASSERT that fails. */
    method IoqPutchar(intr: bool, b: char) returns (line: nat)
      requires Valid()
      modifies this`head, buffer
      ensures Valid()
      ensures line == if intr then 72 else if old(View()).Count() == 1 then 36 else 0
      ensures line == 0 && old(View()).Count() < BUFSIZE - 1 ==> View().Unread() == old(View().Unread()) + [b]
      ensures View() == if line == 0 then Put(old(View()), b) else old(View())
    {
      if intr { return 72; }
      var full;
      line, full := IoqFull(intr);
      if full {
        line := IoqWait(producer);
        return;
      }
      ghost var q := View();
      if q.Count() < BUFSIZE - 1 { PutAppends(q, b); }
      buffer[head] := b;
      head := NextPos(head);
      assert View() == Put(q, b);
      return 0;
    }

    /** ioq_getchar(): line is 0, or that of the ASSERT that fails. */
    method IoqGetchar(intr: bool) returns (line: nat, b: char)
      requires Valid()
      modifies this`tail
      ensures Valid()
      ensures line == if intr then 50 else if old(View().Unread()) == [] then 36 else 0
      ensures line == 0 ==> [b] + View().Unread() == old(View().Unread())
      ensures View() == if line == 0 then Get(old(View())) else old(View())
    {
      b := ' ';
      if intr { return 50, b; }
      var empty;
      line, empty := IoqEmpty(intr);
      if empty {
        line := IoqWait(consumer);
        return;
      }
      FullMeansOne(View());
      GetTakes(View());
      b := buffer[tail];
      tail := NextPos(tail);
      return 0, b;
    }
  }
}
