/**
 The links of all lists under the whole kernel: the ready list and every waiters list share one general_tag
 per thread, and the list functions rewrite links without looking at the ones that a tag has left over from
 its last list. thread_all_list links the all_list_tags.
 */
module TagLinks {
  import opened Scheduler
  import opened Machine
  import opened Invariants
  import opened Runs

  /** The ready list, the waiters of a lock, or the list of all threads. */
  datatype ListId = ReadyList | Waiters(l: Lid) | AllList

  /** A sentinel of a list, or one of the two tags of a thread. */
  datatype Ref = Head(id: ListId) | Tail(id: ListId) | Tag(t: Tid) | AllTag(t: Tid)

  /** The tag with which a thread enters a list. */
  function TagOf(id: ListId, t: Tid): Ref { if id.AllList? then AllTag(t) else Tag(t) }

  datatype Links = Links(prev: map<Ref, Ref>, next: map<Ref, Ref>)

  function Next(k: Links, r: Ref): Ref { if r in k.next then k.next[r] else r }

  function Prev(k: Links, r: Ref): Ref { if r in k.prev then k.prev[r] else r }

  /** a is followed by b, in both directions. */
  predicate Linked(k: Links, a: Ref, b: Ref) { a in k.next && k.next[a] == b && b in k.prev && k.prev[b] == a }

  /** Node i of a list with elements xs: the head, the elements, the tail. */
  function NodeAt(id: ListId, xs: seq<Tid>, i: nat): Ref
    requires i <= |xs| + 1
  {
    if i == 0 then Head(id) else if i == |xs| + 1 then Tail(id) else TagOf(id, xs[i - 1])
  }

  /** The list consists of the tags of xs, with forward and backward links inverse to each other. */
  ghost predicate Shows(k: Links, id: ListId, xs: seq<Tid>) {
    forall i: nat :: i <= |xs| ==> Linked(k, NodeAt(id, xs, i), NodeAt(id, xs, i + 1))
  }

  /** list_insert_before(), write by write. */
  function InsertBefore(k: Links, before: Ref, e: Ref): Links {
    var p := Prev(k, before);
    Links(k.prev[e := p][before := e], k.next[p := e][e := before])
  }

  /** list_remove(); the element keeps its links. */
  function Unlink(k: Links, e: Ref): Links {
    Links(k.prev[Next(k, e) := Prev(k, e)], k.next[Prev(k, e) := Next(k, e)])
  }

  // ----- one list

  lemma NodesDiffer(id: ListId, xs: seq<Tid>, i: nat, j: nat)
    requires NoDuplicates(xs) && i <= |xs| + 1 && j <= |xs| + 1 && i != j
    ensures NodeAt(id, xs, i) != NodeAt(id, xs, j)
  {
  }

  /** The element enters at position n of the list. */
  lemma InsertShows(k: Links, id: ListId, xs: seq<Tid>, n: nat, t: Tid)
    requires Shows(k, id, xs) && NoDuplicates(xs) && t !in xs && n <= |xs|
    ensures NodeAt(id, xs, n + 1) in k.prev
    ensures Shows(InsertBefore(k, NodeAt(id, xs, n + 1), TagOf(id, t)), id, xs[..n] + [t] + xs[n..])
  {
    var ys := xs[..n] + [t] + xs[n..];
    assert Linked(k, NodeAt(id, xs, n), NodeAt(id, xs, n + 1));
    var k' := InsertBefore(k, NodeAt(id, xs, n + 1), TagOf(id, t));
    forall i: nat | i <= |ys| ensures Linked(k', NodeAt(id, ys, i), NodeAt(id, ys, i + 1)) {
      InsertedNodes(id, xs, n, t, i);
      if i < n {
        assert Linked(k, NodeAt(id, xs, i), NodeAt(id, xs, i + 1));
        NodesDiffer(id, xs, i, n);
        NodesDiffer(id, xs, i + 1, n + 1);
      } else if i > n + 1 {
        assert Linked(k, NodeAt(id, xs, i - 1), NodeAt(id, xs, i));
        NodesDiffer(id, xs, i - 1, n);
        NodesDiffer(id, xs, i, n + 1);
      }
    }
  }

  lemma InsertedNodes(id: ListId, xs: seq<Tid>, n: nat, t: Tid, i: nat)
    requires n <= |xs| && t !in xs && i <= |xs| + 1
    ensures var ys := xs[..n] + [t] + xs[n..];
            && NodeAt(id, ys, i) == (if i <= n then NodeAt(id, xs, i) else if i == n + 1 then TagOf(id, t) else NodeAt(id, xs, i - 1))
            && NodeAt(id, ys, i + 1) == (if i + 1 <= n then NodeAt(id, xs, i + 1) else if i == n then TagOf(id, t) else NodeAt(id, xs, i))
    ensures NodeAt(id, xs, i) != TagOf(id, t)
  {
  }

  /** The first element leaves the list. */
  lemma RemoveShows(k: Links, id: ListId, xs: seq<Tid>)
    requires Shows(k, id, xs) && NoDuplicates(xs) && xs != []
    ensures TagOf(id, xs[0]) in k.prev && TagOf(id, xs[0]) in k.next && Head(id) in k.next && k.next[Head(id)] == TagOf(id, xs[0])
    ensures Shows(Unlink(k, TagOf(id, xs[0])), id, xs[1..])
  {
    assert Linked(k, NodeAt(id, xs, 0), NodeAt(id, xs, 1)) && Linked(k, NodeAt(id, xs, 1), NodeAt(id, xs, 2));
    var k' := Unlink(k, TagOf(id, xs[0]));
    forall i: nat | i <= |xs[1..]| ensures Linked(k', NodeAt(id, xs[1..], i), NodeAt(id, xs[1..], i + 1)) {
      if i > 0 {
        assert Linked(k, NodeAt(id, xs, i + 1), NodeAt(id, xs, i + 2));
        NodesDiffer(id, xs, i + 1, 0);
        NodesDiffer(id, xs, i + 2, 2);
      }
    }
  }

  // ----- all lists

  /** The elements of every list, as the machine has them. */
  function Elems(s: State, id: ListId): seq<Tid>
    requires id.Waiters? ==> id.l in s.locks
  {
    match id
    case ReadyList => s.sched.ready
    case Waiters(l) => s.locks[l].waiters
    case AllList => s.sched.all
  }

  predicate IsList(s: State, id: ListId) { id.Waiters? ==> id.l in s.locks }

  /** No tag is in two lists, or twice in one; thread_all_list has tags of its own. */
  ghost predicate Apart(s: State) {
    && (forall id :: IsList(s, id) ==> NoDuplicates(Elems(s, id)))
    && (forall id, jd, t :: IsList(s, id) && IsList(s, jd) && !id.AllList? && !jd.AllList? && t in Elems(s, id) && t in Elems(s, jd) ==> id == jd)
  }

  ghost predicate AllShown(k: Links, s: State) { forall id :: IsList(s, id) ==> Shows(k, id, Elems(s, id)) }

  lemma SafeIsApart(s: State)
    requires Safe(s)
    ensures Apart(s)
  {
    forall id | IsList(s, id) ensures NoDuplicates(Elems(s, id)) { if id.Waiters? { assert LockInv(s, id.l); } }
    forall id, jd, t | IsList(s, id) && IsList(s, jd) && !id.AllList? && !jd.AllList? && t in Elems(s, id) && t in Elems(s, jd) ensures id == jd {
      if id.Waiters? { assert LockInv(s, id.l) && Waits(s, t, id.l); }
      if jd.Waiters? { assert LockInv(s, jd.l) && Waits(s, t, jd.l); }
    }
  }

  /** Links that a list does not use may change. */
  lemma OtherListKept(k: Links, k': Links, id: ListId, xs: seq<Tid>, touched: set<Ref>)
    requires Shows(k, id, xs) && forall i: nat :: i <= |xs| + 1 ==> NodeAt(id, xs, i) !in touched
    requires forall r :: r !in touched && r in k.next ==> r in k'.next && k'.next[r] == k.next[r]
    requires forall r :: r !in touched && r in k.prev ==> r in k'.prev && k'.prev[r] == k.prev[r]
    ensures Shows(k', id, xs)
  {
    forall i: nat | i <= |xs| ensures Linked(k', NodeAt(id, xs, i), NodeAt(id, xs, i + 1)) {
      assert Linked(k, NodeAt(id, xs, i), NodeAt(id, xs, i + 1));
    }
  }

  /** The node of one list is no node of another, nor a tag that is in no list. */
  lemma ForeignNode(s: State, id: ListId, i: nat, jd: ListId, j: nat)
    requires Apart(s) && IsList(s, id) && IsList(s, jd) && id != jd && i <= |Elems(s, id)| + 1 && j <= |Elems(s, jd)| + 1
    ensures NodeAt(id, Elems(s, id), i) != NodeAt(jd, Elems(s, jd), j)
  {
    var xs, ys := Elems(s, id), Elems(s, jd);
    if 0 < i <= |xs| && 0 < j <= |ys| { assert xs[i - 1] in xs && ys[j - 1] in ys; }
  }

  /** The general_tag of t is in no list. */
  predicate Loose(s: State, t: Tid) { t !in s.sched.ready && forall l :: l in s.locks ==> t !in s.locks[l].waiters }

  /** The tag with which t would enter the list is in no list. */
  predicate Free(s: State, id: ListId, t: Tid) { if id.AllList? then t !in s.sched.all else Loose(s, t) }

  lemma InsertKeepsOthers(k: Links, s: State, id: ListId, n: nat, t: Tid, jd: ListId)
    requires Apart(s) && AllShown(k, s) && IsList(s, id) && IsList(s, jd) && id != jd && Free(s, id, t) && n <= |Elems(s, id)|
    ensures NodeAt(id, Elems(s, id), n + 1) in k.prev
    ensures Shows(InsertBefore(k, NodeAt(id, Elems(s, id), n + 1), TagOf(id, t)), jd, Elems(s, jd))
  {
    var xs, ys := Elems(s, id), Elems(s, jd);
    assert Shows(k, id, xs) && Shows(k, jd, ys);
    assert Linked(k, NodeAt(id, xs, n), NodeAt(id, xs, n + 1));
    var touched := {TagOf(id, t), NodeAt(id, xs, n), NodeAt(id, xs, n + 1)};
    forall j: nat | j <= |ys| + 1 ensures NodeAt(jd, ys, j) !in touched {
      ForeignNode(s, id, n, jd, j);
      ForeignNode(s, id, n + 1, jd, j);
      FreeNode(s, id, jd, j, t);
    }
    OtherListKept(k, InsertBefore(k, NodeAt(id, xs, n + 1), TagOf(id, t)), jd, ys, touched);
  }

  lemma FreeNode(s: State, id: ListId, jd: ListId, j: nat, t: Tid)
    requires Free(s, id, t) && IsList(s, jd) && j <= |Elems(s, jd)| + 1
    ensures NodeAt(jd, Elems(s, jd), j) != TagOf(id, t)
  {
    var ys := Elems(s, jd);
    if 0 < j <= |ys| { assert ys[j - 1] in ys; }
  }

  lemma RemoveKeepsOthers(k: Links, s: State, id: ListId, jd: ListId)
    requires Apart(s) && AllShown(k, s) && IsList(s, id) && IsList(s, jd) && id != jd && !id.AllList? && Elems(s, id) != []
    ensures Tag(Elems(s, id)[0]) in k.prev && Tag(Elems(s, id)[0]) in k.next
    ensures Shows(Unlink(k, Tag(Elems(s, id)[0])), jd, Elems(s, jd))
  {
    var xs, ys := Elems(s, id), Elems(s, jd);
    assert Shows(k, id, xs) && Shows(k, jd, ys);
    RemoveShows(k, id, xs);
    assert Linked(k, NodeAt(id, xs, 0), NodeAt(id, xs, 1)) && Linked(k, NodeAt(id, xs, 1), NodeAt(id, xs, 2));
    var touched := {NodeAt(id, xs, 0), NodeAt(id, xs, 2)};
    forall j: nat | j <= |ys| + 1 ensures NodeAt(jd, ys, j) !in touched {
      ForeignNode(s, id, 0, jd, j);
      ForeignNode(s, id, 2, jd, j);
    }
    OtherListKept(k, Unlink(k, Tag(xs[0])), jd, ys, touched);
  }

  // ----- the list functions that the kernel calls

  /** list_append(). */
  function Append(k: Links, id: ListId, t: Tid): Links { InsertBefore(k, Tail(id), TagOf(id, t)) }

  /** list_push(). */
  function Push(k: Links, id: ListId, e: Ref): Links { InsertBefore(k, Next(k, Head(id)), e) }

  /** list_pop(). */
  function Pop(k: Links, id: ListId): Links { Unlink(k, Next(k, Head(id))) }

  /** s' has the lists of s, except that list id holds xs. */
  ghost predicate OneListChanged(s: State, s': State, id: ListId, xs: seq<Tid>) {
    && IsList(s, id) && s'.locks.Keys == s.locks.Keys && Elems(s', id) == xs
    && (forall jd :: IsList(s, jd) && jd != id ==> Elems(s', jd) == Elems(s, jd))
  }

  lemma AppendAll(k: Links, s: State, id: ListId, t: Tid, s': State)
    requires Apart(s) && AllShown(k, s) && Free(s, id, t) && IsList(s, id) && OneListChanged(s, s', id, Elems(s, id) + [t])
    ensures AllShown(Append(k, id, t), s') && Apart(s')
  {
    hide Shows, NoDuplicates;
    var xs := Elems(s, id);
    InsertShows(k, id, xs, |xs|, t) by { FreeElems(s, id, t); }
    assert xs[..|xs|] + [t] + xs[|xs|..] == xs + [t];
    forall jd | IsList(s', jd) ensures Shows(Append(k, id, t), jd, Elems(s', jd)) {
      if jd != id { InsertKeepsOthers(k, s, id, |xs|, t, jd); }
    }
    MoreApart(s, s', id, t);
  }

  lemma PushAll(k: Links, s: State, id: ListId, t: Tid, s': State)
    requires Apart(s) && AllShown(k, s) && Loose(s, t) && IsList(s, id) && !id.AllList? && OneListChanged(s, s', id, [t] + Elems(s, id))
    ensures AllShown(Push(k, id, Tag(t)), s') && Apart(s')
  {
    hide Shows, NoDuplicates;
    var xs := Elems(s, id);
    FirstNode(k, id, xs);
    InsertShows(k, id, xs, 0, t) by { FreeElems(s, id, t); }
    assert xs[..0] + [t] + xs[0..] == [t] + xs;
    forall jd | IsList(s', jd) ensures Shows(Push(k, id, Tag(t)), jd, Elems(s', jd)) {
      if jd != id { InsertKeepsOthers(k, s, id, 0, t, jd); }
    }
    MoreApart(s, s', id, t);
  }

  lemma FirstNode(k: Links, id: ListId, xs: seq<Tid>)
    requires Shows(k, id, xs)
    ensures Head(id) in k.next && k.next[Head(id)] == NodeAt(id, xs, 1)
  {
    assert Linked(k, NodeAt(id, xs, 0), NodeAt(id, xs, 1));
  }

  lemma FreeElems(s: State, id: ListId, t: Tid)
    requires Free(s, id, t) && IsList(s, id)
    ensures t !in Elems(s, id) && (!id.AllList? ==> forall jd :: IsList(s, jd) && !jd.AllList? ==> t !in Elems(s, jd))
  {
  }

  lemma MoreApart(s: State, s': State, id: ListId, t: Tid)
    requires Apart(s) && Free(s, id, t) && IsList(s, id)
    requires OneListChanged(s, s', id, Elems(s, id) + [t]) || OneListChanged(s, s', id, [t] + Elems(s, id))
    ensures Apart(s')
  {
    FreeElems(s, id, t);
    forall jd | IsList(s', jd) ensures NoDuplicates(Elems(s', jd)) {
      assert NoDuplicates(Elems(s, jd));
    }
    forall jd, kd, u | IsList(s', jd) && IsList(s', kd) && !jd.AllList? && !kd.AllList? && u in Elems(s', jd) && u in Elems(s', kd) ensures jd == kd {
      assert u != t ==> u in Elems(s, jd) && u in Elems(s, kd);
    }
  }

  lemma PopAll(k: Links, s: State, id: ListId, s': State)
    requires Apart(s) && AllShown(k, s) && IsList(s, id) && !id.AllList? && Elems(s, id) != [] && OneListChanged(s, s', id, Elems(s, id)[1..])
    ensures Next(k, Head(id)) == Tag(Elems(s, id)[0])
    ensures AllShown(Pop(k, id), s') && Apart(s') && Loose(s', Elems(s, id)[0])
  {
    hide Shows, NoDuplicates;
    var xs := Elems(s, id);
    RemoveShows(k, id, xs);
    forall jd | IsList(s', jd) ensures Shows(Pop(k, id), jd, Elems(s', jd)) {
      if jd != id { RemoveKeepsOthers(k, s, id, jd); }
    }
    LessApart(s, s', id);
  }

  lemma LessApart(s: State, s': State, id: ListId)
    requires Apart(s) && IsList(s, id) && !id.AllList? && Elems(s, id) != [] && OneListChanged(s, s', id, Elems(s, id)[1..])
    ensures Apart(s') && Loose(s', Elems(s, id)[0])
  {
    var xs := Elems(s, id);
    var t := xs[0];
    forall jd | IsList(s', jd) ensures NoDuplicates(Elems(s', jd)) && (!jd.AllList? ==> t !in Elems(s', jd)) {
      assert NoDuplicates(Elems(s, jd));
      assert t in xs;
    }
    forall jd, kd, u | IsList(s', jd) && IsList(s', kd) && !jd.AllList? && !kd.AllList? && u in Elems(s', jd) && u in Elems(s', kd) ensures jd == kd {
      assert u in Elems(s, jd) && u in Elems(s, kd);
    }
    assert IsList(s', ReadyList) && Elems(s', ReadyList) == s'.sched.ready;
    forall l | l in s'.locks ensures t !in s'.locks[l].waiters { assert IsList(s', Waiters(l)) && Elems(s', Waiters(l)) == s'.locks[l].waiters; }
  }

  // ----- the kernel's steps on the links

  /** schedule(): a thread that still runs goes to the back, and the first ready one is taken. */
  function Reschedule(k: Links, running: bool, cur: Tid): Links {
    Pop(if running then Append(k, ReadyList, cur) else k, ReadyList)
  }

  /** One turn of the loop of sema_down. */
  function DownLinks(k: Links, s: State, l: Lid): Links {
    if l in s.locks && s.locks[l].value == 0 then Reschedule(Append(k, Waiters(l), s.Cur()), false, s.Cur()) else k
  }

  /** sema_up: the tag that is popped from the waiters is pushed to the ready list, with its old links. */
  function UpLinks(k: Links, s: State, l: Lid): Links {
    if Next(k, Head(Waiters(l))) == Tail(Waiters(l)) then k
    else Push(Pop(k, Waiters(l)), ReadyList, Next(k, Head(Waiters(l))))
  }

  /** What the list functions called in a step do to the links. */
  function LinkStep(k: Links, s: State, a: Action): Links
    requires Typed(s)
  {
    var c := s.ctl[s.Cur()];
    match a
    case Timer => if s.sched.tcb[s.Cur()].ticks == 0 then Reschedule(k, true, s.Cur()) else k
    case Resume => if c.frame.InSema? then DownLinks(k, s, c.pc.l) else k
    case Exec => if c.pc.AcqDown? then DownLinks(k, s, c.pc.l) else if c.pc.RelUp? then UpLinks(k, s, c.pc.l) else k
    case Block(_) => Reschedule(k, false, s.Cur())
    case Wake(t) => Push(k, ReadyList, Tag(t))
    case Start(t, _) => Append(Append(k, ReadyList, t), AllList, t)
    case _ => k
  }

  lemma CurrentIsLoose(s: State)
    requires Safe(s)
    ensures Loose(s, s.Cur())
  {
    forall l | l in s.locks ensures s.Cur() !in s.locks[l].waiters { assert LockInv(s, l); }
  }

  lemma UnwaitingIsLoose(s: State, t: Tid)
    requires Safe(s) && (t !in s.sched.tcb || Asleep(s, t))
    ensures Loose(s, t) && (t !in s.sched.tcb ==> t !in s.sched.all)
  {
    forall l | l in s.locks ensures t !in s.locks[l].waiters { assert LockInv(s, l); }
  }

  /** The lists are those of s, but for the ready list. */
  predicate OnlyReady(s: State, s': State, xs: seq<Tid>) {
    s'.sched.ready == xs && s'.sched.all == s.sched.all && s'.locks.Keys == s.locks.Keys && forall l :: l in s.locks ==> s'.locks[l].waiters == s.locks[l].waiters
  }

  lemma ReadyChanged(s: State, s': State, xs: seq<Tid>)
    requires OnlyReady(s, s', xs)
    ensures OneListChanged(s, s', ReadyList, xs)
  {
  }

  /** The state with another ready list. */
  function WithReady(s: State, xs: seq<Tid>): State { s.(sched := s.sched.(ready := xs)) }

  function WithWaiters(s: State, l: Lid, xs: seq<Tid>): State
    requires l in s.locks
  {
    s.(locks := s.locks[l := s.locks[l].(waiters := xs)])
  }

  lemma RescheduleShown(k: Links, s: State, running: bool, s': State)
    requires Apart(s) && AllShown(k, s) && (running ==> Loose(s, s.Cur()))
    requires var xs := if running then s.sched.ready + [s.Cur()] else s.sched.ready; xs != [] && OnlyReady(s, s', xs[1..])
    ensures AllShown(Reschedule(k, running, s.Cur()), s')
  {
    hide Apart, AllShown, Loose;
    var xs := if running then s.sched.ready + [s.Cur()] else s.sched.ready;
    var s1 := WithReady(s, xs);
    var k1 := if running then Append(k, ReadyList, s.Cur()) else k;
    ReadyChanged(s, s1, xs);
    if running { AppendAll(k, s, ReadyList, s.Cur(), s1); } else { assert s1 == s; }
    ReadyChanged(s1, s', xs[1..]);
    PopAll(k1, s1, ReadyList, s');
  }

  lemma DownShown(k: Links, s: State, l: Lid, s': State)
    requires Apart(s) && AllShown(k, s) && Loose(s, s.Cur()) && l in s.locks && s.sched.ready != [] && s.locks[l].value == 0
    requires s'.sched.ready == s.sched.ready[1..] && s'.sched.all == s.sched.all && s'.locks.Keys == s.locks.Keys
    requires forall j :: j in s.locks ==> s'.locks[j].waiters == if j == l then s.locks[l].waiters + [s.Cur()] else s.locks[j].waiters
    ensures AllShown(DownLinks(k, s, l), s')
  {
    hide Apart, AllShown, Loose;
    var s1 := WithWaiters(s, l, s.locks[l].waiters + [s.Cur()]);
    WaitersChanged(s, s1, l, s.locks[l].waiters + [s.Cur()]);
    AppendAll(k, s, Waiters(l), s.Cur(), s1);
    RescheduleShown(Append(k, Waiters(l), s.Cur()), s1, false, s');
  }

  lemma WaitersChanged(s: State, s': State, l: Lid, xs: seq<Tid>)
    requires l in s.locks && s'.sched.ready == s.sched.ready && s'.sched.all == s.sched.all && s'.locks.Keys == s.locks.Keys
    requires forall j :: j in s.locks ==> s'.locks[j].waiters == if j == l then xs else s.locks[j].waiters
    ensures OneListChanged(s, s', Waiters(l), xs)
  {
  }

  lemma UpShown(k: Links, s: State, l: Lid, s': State)
    requires Apart(s) && AllShown(k, s) && l in s.locks && s'.locks.Keys == s.locks.Keys && s'.sched.all == s.sched.all
    requires var q := s.locks[l].waiters;
             && s'.sched.ready == (if q == [] then s.sched.ready else [q[0]] + s.sched.ready)
             && forall j :: j in s.locks ==> s'.locks[j].waiters == if j == l && q != [] then q[1..] else s.locks[j].waiters
    ensures AllShown(UpLinks(k, s, l), s')
  {
    hide Shows, Loose;
    var q := s.locks[l].waiters;
    assert IsList(s, Waiters(l)) && Elems(s, Waiters(l)) == q;
    FirstNode(k, Waiters(l), q);
    if q != [] {
      var s1 := WithWaiters(s, l, q[1..]);
      WaitersChanged(s, s1, l, q[1..]);
      PopAll(k, s, Waiters(l), s1);
      ReadyChanged(s1, s', [q[0]] + s.sched.ready);
      PushAll(Pop(k, Waiters(l)), s1, ReadyList, q[0], s');
    } else {
      SameLists(k, s, s');
    }
  }

  lemma SameLists(k: Links, s: State, s': State)
    requires AllShown(k, s) && OnlyReady(s, s', s.sched.ready)
    ensures AllShown(k, s')
  {
    hide Shows;
    forall id | IsList(s', id) ensures Shows(k, id, Elems(s', id)) { assert Elems(s', id) == Elems(s, id); }
  }

  // ----- what a step of the machine does to the lists

  lemma ScheduleReady(sc: Sched)
    requires PointersValid(sc) && Scheduler.Schedule(sc).Go?
    ensures var xs := if sc.tcb[sc.cur].status == Running then sc.ready + [sc.cur] else sc.ready;
            xs != [] && Scheduler.Schedule(sc).s.ready == xs[1..] && Scheduler.Schedule(sc).s.all == sc.all
  {
  }

  lemma TimerLists(s: State)
    requires Typed(s) && s.fault == NoFault && TimerStep(s).fault == NoFault && s.sched.tcb[s.Cur()].status == Running
    ensures if s.sched.tcb[s.Cur()].ticks == 0 then OnlyReady(s, TimerStep(s), (s.sched.ready + [s.Cur()])[1..])
            else OnlyReady(s, TimerStep(s), s.sched.ready)
  {
    hide Scheduler.Schedule, Wrap;
    if s.sched.tcb[s.Cur()].ticks == 0 { ScheduleReady(CountTick(s.sched)); }
  }

  lemma BlockLists(s: State, f: Frame, stat: Status)
    requires Typed(s) && s.fault == NoFault && Leave(s, f, BlockCurrent(s.sched, stat)).fault == NoFault
    ensures s.sched.ready != [] && OnlyReady(s, Leave(s, f, BlockCurrent(s.sched, stat)), s.sched.ready[1..])
  {
    hide Scheduler.Schedule;
    ScheduleReady(s.sched.(tcb := s.sched.tcb[s.Cur() := s.sched.tcb[s.Cur()].(status := stat)]));
  }

  lemma DownLists(s: State, l: Lid, saved: bool, k: Links)
    requires Typed(s) && s.fault == NoFault && l in s.locks && DownLoop(s, l, saved).fault == NoFault
    requires Apart(s) && AllShown(k, s) && Loose(s, s.Cur())
    ensures AllShown(DownLinks(k, s, l), DownLoop(s, l, saved))
  {
    hide BlockCurrent, Apart, AllShown, Loose;
    var s' := DownLoop(s, l, saved);
    if s.locks[l].value == 0 {
      var lk := s.locks[l];
      var s1 := s.(locks := s.locks[l := lk.(waiters := lk.waiters + [s.Cur()])]);
      BlockLists(s1, InSema(saved), Blocked);
      DownShown(k, s, l, s');
    } else {
      SameLists(k, s, s');
    }
  }

  lemma UpLists(s: State, l: Lid, k: Links)
    requires Typed(s) && s.fault == NoFault && l in s.locks && SemaUp(s, l).fault == NoFault && Apart(s) && AllShown(k, s)
    ensures AllShown(UpLinks(k, s, l), SemaUp(s, l))
  {
    hide Apart, AllShown, Released;
    UpShown(k, s, l, SemaUp(s, l));
  }

  /** s differs from s0 in the interrupt flag only. */
  lemma FlagIsIrrelevant(s: State, k: Links, on: bool, l: Lid)
    requires Apart(s) && AllShown(k, s) && Loose(s, s.Cur())
    ensures var s1 := s.(intr := on); Apart(s1) && AllShown(k, s1) && Loose(s1, s1.Cur()) && DownLinks(k, s1, l) == DownLinks(k, s, l)
  {
    hide Shows, NoDuplicates;
    var s1 := s.(intr := on);
    forall id | IsList(s1, id) ensures Shows(k, id, Elems(s1, id)) && NoDuplicates(Elems(s1, id)) { assert IsList(s, id) && Elems(s1, id) == Elems(s, id); }
    forall id, jd, t | IsList(s1, id) && IsList(s1, jd) && !id.AllList? && !jd.AllList? && t in Elems(s1, id) && t in Elems(s1, jd) ensures id == jd {
      assert t in Elems(s, id) && t in Elems(s, jd);
    }
  }

  lemma ExecLists(s: State, k: Links)
    requires Typed(s) && Enabled(s, Exec) && Step(s, Exec).fault == NoFault
    requires Apart(s) && AllShown(k, s) && Loose(s, s.Cur())
    ensures AllShown(LinkStep(k, s, Exec), Step(s, Exec))
  {
    hide Apart, AllShown, Loose, DownLoop, SemaUp, Statement, DownLinks, UpLinks;
    var c := s.ctl[s.Cur()];
    if c.pc.AcqDown? {
      FlagIsIrrelevant(s, k, false, c.pc.l);
      DownLists(s.(intr := false), c.pc.l, s.intr, k);
    } else if c.pc.RelUp? {
      UpLists(s, c.pc.l, k);
    } else {
      StatementKeepsWaiters(s.Cur(), c, s.locks[c.pc.l]);
      SameLists(k, s, Step(s, Exec));
    }
  }

  lemma ResumeLists(s: State, k: Links)
    requires Typed(s) && Enabled(s, Resume) && Step(s, Resume).fault == NoFault
    requires Apart(s) && AllShown(k, s) && Loose(s, s.Cur())
    ensures AllShown(LinkStep(k, s, Resume), Step(s, Resume))
  {
    hide Apart, AllShown, Loose, DownLoop, DownLinks;
    var c := s.ctl[s.Cur()];
    if c.frame.InSema? { DownLists(s, c.pc.l, c.frame.saved, k); } else { SameLists(k, s, Step(s, Resume)); }
  }

  lemma WakeLists(s: State, t: Tid, k: Links)
    requires Typed(s) && Enabled(s, Wake(t)) && Step(s, Wake(t)).fault == NoFault && Apart(s) && AllShown(k, s) && Loose(s, t)
    ensures AllShown(LinkStep(k, s, Wake(t)), Step(s, Wake(t)))
  {
    hide Apart, AllShown, Loose;
    ReadyChanged(s, Step(s, Wake(t)), [t] + s.sched.ready);
    PushAll(k, s, ReadyList, t, Step(s, Wake(t)));
  }

  lemma StartLists(s: State, t: Tid, prio: nat, k: Links)
    requires Typed(s) && Enabled(s, Start(t, prio)) && Step(s, Start(t, prio)).fault == NoFault
    requires Apart(s) && AllShown(k, s) && Loose(s, t) && t !in s.sched.all
    ensures AllShown(LinkStep(k, s, Start(t, prio)), Step(s, Start(t, prio)))
  {
    hide Apart, AllShown, Loose;
    var s1 := WithReady(s, s.sched.ready + [t]);
    ReadyChanged(s, s1, s.sched.ready + [t]);
    AppendAll(k, s, ReadyList, t, s1);
    AppendAll(Append(k, ReadyList, t), s1, AllList, t, Step(s, Start(t, prio)));
  }

  lemma TimerShown(s: State, k: Links)
    requires Typed(s) && Enabled(s, Timer) && Step(s, Timer).fault == NoFault && s.sched.tcb[s.Cur()].status == Running
    requires Apart(s) && AllShown(k, s) && Loose(s, s.Cur())
    ensures AllShown(LinkStep(k, s, Timer), Step(s, Timer))
  {
    hide Apart, AllShown, Loose, TimerStep, Reschedule;
    TimerLists(s);
    if s.sched.tcb[s.Cur()].ticks == 0 { RescheduleShown(k, s, true, Step(s, Timer)); } else { SameLists(k, s, Step(s, Timer)); }
  }

  lemma BlockShown(s: State, stat: Status, k: Links)
    requires Typed(s) && Enabled(s, Block(stat)) && Step(s, Block(stat)).fault == NoFault && Apart(s) && AllShown(k, s)
    ensures AllShown(LinkStep(k, s, Block(stat)), Step(s, Block(stat)))
  {
    hide Apart, AllShown, BlockCurrent, Reschedule;
    BlockLists(s.(intr := false), InBlock(s.intr), stat);
    RescheduleShown(k, s, false, Step(s, Block(stat)));
  }

  /** Every step of the machine, done on the links, leaves every list well formed and holding exactly the machine's threads. */
  lemma StepKeepsLinks(s: State, a: Action, k: Links)
    requires Safe(s) && Typed(s) && s.fault == NoFault && Enabled(s, a) && Disciplined(s, a) && Step(s, a).fault == NoFault
    requires AllShown(k, s)
    ensures AllShown(LinkStep(k, s, a), Step(s, a))
  {
    hide Safe, Apart, AllShown, Loose, TimerStep, ExecStep, ResumeStep, BlockCurrent, Unblock, StartThread, Leave;
    SafeIsApart(s);
    CurrentIsLoose(s);
    RunningIsCurrent(s);
    match a
    case Timer => TimerShown(s, k);
    case Resume => ResumeLists(s, k);
    case Exec => ExecLists(s, k);
    case CallAcquire(l) => SameLists(k, s, Step(s, a));
    case CallRelease(l) => SameLists(k, s, Step(s, a));
    case SetIntr(on) => SameLists(k, s, Step(s, a));
    case Block(stat) => BlockShown(s, stat, k);
    case Wake(t) => UnwaitingIsLoose(s, t); WakeLists(s, t, k);
    case Start(t, prio) => UnwaitingIsLoose(s, t); StartLists(s, t, prio, k);
  }

  lemma RunningIsCurrent(s: State)
    requires Safe(s)
    ensures s.Cur() in s.sched.tcb && s.sched.tcb[s.Cur()].status == Running
  {
  }

  // ----- whole runs

  /** The links after the first n steps of a run. */
  ghost function LinksAt(k: Links, s: State, acts: seq<Action>, n: nat): Links
    requires ValidRun(s, acts) && n <= |acts|
    decreases n
  {
    if n == 0 then k else LinksAt(LinkStep(k, s, acts[0]), Step(s, acts[0]), acts[1..], n - 1)
  }

  lemma {:induction false} RunKeepsLinks(k: Links, s: State, acts: seq<Action>, n: nat)
    requires Inv(s) && s.fault == NoFault && ValidRun(s, acts) && n <= |acts| && StateAt(s, acts, n).fault == NoFault && AllShown(k, s)
    ensures AllShown(LinksAt(k, s, acts, n), StateAt(s, acts, n))
    decreases n
  {
    hide Safe, Step, LinkStep, AllShown;
    if n > 0 {
      StepKeepsInv(s, acts[0]);
      FaultStays(Step(s, acts[0]), acts[1..], n - 1);
      StepKeepsLinks(s, acts[0], k);
      RunKeepsLinks(LinkStep(k, s, acts[0]), Step(s, acts[0]), acts[1..], n - 1);
    }
  }

  /** list_init() for every list, and make_main_thread. */
  function BootLinks(main: Tid, lids: set<Lid>): Links {
    var ids := {ReadyList, AllList} + set l | l in lids :: Waiters(l);
    Append(Links(map id | id in ids :: Tail(id) := Head(id), map id | id in ids :: Head(id) := Tail(id)), AllList, main)
  }

  lemma BootLinksShown(main: Tid, lids: set<Lid>)
    ensures AllShown(BootLinks(main, lids), Initial(main, lids))
  {
    var s, k := Initial(main, lids), BootLinks(main, lids);
    forall id | IsList(s, id) ensures Shows(k, id, Elems(s, id)) {
      assert Elems(s, id) == if id.AllList? then [main] else [];
      assert Head(id) in k.next && Tail(id) in k.prev;
    }
  }

  /**
   In every run from boot the links in memory show exactly the lists of the machine: every list is well
   formed, and no tag is in two lists, although the ready list and all waiters lists share one tag per thread.
   */
  lemma LinksShowTheLists(main: Tid, lids: set<Lid>, acts: seq<Action>)
    requires ValidRun(Initial(main, lids), acts) && StateAt(Initial(main, lids), acts, |acts|).fault == NoFault
    ensures var s := StateAt(Initial(main, lids), acts, |acts|);
            AllShown(LinksAt(BootLinks(main, lids), Initial(main, lids), acts, |acts|), s) && Apart(s)
  {
    hide Safe, Step, LinkStep, AllShown, Apart, ValidRun, StateAt, LinksAt;
    InitialIsSafe(main, lids);
    BootLinksShown(main, lids);
    RunKeepsLinks(BootLinks(main, lids), Initial(main, lids), acts, |acts|);
    RunKeepsInv(Initial(main, lids), acts, |acts|);
    SafeIsApart(StateAt(Initial(main, lids), acts, |acts|));
  }

  /** elem_find(): the tag is met on the way from the head of the list to its tail. */
  predicate Finds(k: Links, r: Ref, e: Ref, steps: nat)
    decreases steps
  {
    steps > 0 && !r.Tail? && (r == e || Finds(k, Next(k, r), e, steps - 1))
  }

  /** From node i of a list that is shown, the walk meets exactly the tags from there on. */
  lemma {:induction false} FindsExactly(k: Links, id: ListId, xs: seq<Tid>, i: nat, e: Ref)
    requires Shows(k, id, xs) && 0 < i <= |xs| + 1
    ensures Finds(k, NodeAt(id, xs, i), e, |xs| + 2 - i) <==> exists j: nat :: i <= j <= |xs| && NodeAt(id, xs, j) == e
    decreases |xs| + 1 - i
  {
    if i <= |xs| {
      assert Linked(k, NodeAt(id, xs, i), NodeAt(id, xs, i + 1));
      FindsExactly(k, id, xs, i + 1, e);
    }
  }

  /**
   The ASSERTs of thread_start (thread.c:78-79): on the links of every run from boot, elem_find meets the general_tag of a thread
   that does not exist yet neither in the ready list nor in the list of all threads.
   */
  lemma ThreadStartAsserts(main: Tid, lids: set<Lid>, acts: seq<Action>, t: Tid)
    requires ValidRun(Initial(main, lids), acts) && StateAt(Initial(main, lids), acts, |acts|).fault == NoFault
    requires t !in StateAt(Initial(main, lids), acts, |acts|).sched.tcb
    ensures var s := StateAt(Initial(main, lids), acts, |acts|);
            var k := LinksAt(BootLinks(main, lids), Initial(main, lids), acts, |acts|);
            && !Finds(k, Next(k, Head(ReadyList)), Tag(t), |s.sched.ready| + 1)
            && !Finds(k, Next(k, Head(AllList)), Tag(t), |s.sched.all| + 1)
  {
    hide Safe, Step, LinkStep, Shows, Apart, ValidRun, StateAt, LinksAt, Finds;
    LinksShowTheLists(main, lids, acts);
    InitialIsSafe(main, lids);
    RunKeepsInv(Initial(main, lids), acts, |acts|);
    var s := StateAt(Initial(main, lids), acts, |acts|);
    var k := LinksAt(BootLinks(main, lids), Initial(main, lids), acts, |acts|);
    UnwaitingIsLoose(s, t);
    assert IsList(s, ReadyList) && IsList(s, AllList);
    FirstNode(k, ReadyList, s.sched.ready);
    FirstNode(k, AllList, s.sched.all);
    FindsExactly(k, ReadyList, s.sched.ready, 1, Tag(t));
    FindsExactly(k, AllList, s.sched.all, 1, Tag(t));
  }
}
