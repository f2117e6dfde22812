/**
 The intrusive doubly linked lists of lib/kernel/list.c: two sentinels, and
 elements that live inside other records, so that an element enters and leaves lists
 by having its links rewritten.
 */
module Lists {
  import opened Interrupts

  /** struct list_elem. */
  class Node {
    var prev: Node?
    var next: Node?

    constructor ()
      ensures prev == null && next == null
    {
      prev, next := null, null;
    }
  }

  /** The links along a chain of nodes are inverse to each other, and no node occurs twice. */
  ghost predicate Linked(c: seq<Node>)
    reads c
  {
    && (forall i :: 0 <= i < |c| - 1 ==> c[i].next == c[i + 1])
    && (forall i :: 0 < i < |c| ==> c[i].prev == c[i - 1])
    && Distinct(c)
  }

  ghost predicate Distinct(c: seq<Node>) {
    forall i, j :: 0 <= i < j < |c| ==> c[i] != c[j]
  }

  /** list_insert_before(): the four link writes. The old links of elem do not matter. */
  method InsertBefore(flags: Eflags, before: Node, elem: Node)
    requires before.prev != null && elem != before && elem != before.prev && before.prev != before
    modifies before`prev, before.prev`next, elem, flags
    ensures old(before.prev).next == elem && elem.prev == old(before.prev)
    ensures elem.next == before && before.prev == elem
    ensures flags.on == old(flags.on)
  {
    var was := flags.IntrDisable();
    before.prev.next := elem;
    elem.prev := before.prev;
    elem.next := before;
    before.prev := elem;
    var _ := flags.IntrSetStatus(was);
  }

  /** list_remove(): the neighbours are linked to each other; elem keeps its stale links. */
  method Unlink(flags: Eflags, elem: Node)
    requires elem.prev != elem && elem.next != elem
    modifies (if elem.prev != null then {elem.prev} else {})`next, (if elem.next != null then {elem.next} else {})`prev, flags
    ensures elem.prev != null ==> elem.prev.next == elem.next
    ensures elem.next != null ==> elem.next.prev == elem.prev
    ensures flags.on == old(flags.on)
  {
    var was := flags.IntrDisable();
    if elem.prev != null { elem.prev.next := elem.next; }
    if elem.next != null { elem.next.prev := elem.prev; }
    var _ := flags.IntrSetStatus(was);
  }

  lemma DistinctAt(c: seq<Node>, k: nat)
    requires Distinct(c) && k < |c|
    ensures forall i :: 0 <= i < |c| && i != k ==> c[i] != c[k]
  {
  }

  lemma ChainSplit(head: Node, elems: seq<Node>, tail: Node, k: nat, elem: Node)
    requires k <= |elems|
    ensures var c := [head] + elems + [tail];
            [head] + (elems[..k] + [elem] + elems[k..]) + [tail] == c[..k + 1] + [elem] + c[k + 1..]
            && c[k + 1] == (elems + [tail])[k] && c[0] == head && c[|c| - 1] == tail
  {
  }

  lemma ChainStart(c: seq<Node>)
    requires Linked(c) && |c| > 1
    ensures c[0].next == c[1]
  {
  }

  lemma NotLinked(c: seq<Node>)
    requires |c| > 1 && c[0].next == null
    ensures !Linked(c)
  {
    assert c[0].next != c[0 + 1];
  }

  lemma LinkedDiffer(c: seq<Node>, i: nat, j: nat)
    requires Linked(c) && i < j < |c|
    ensures c[i] != c[j]
  {
  }

  lemma ChainInsert(c: seq<Node>, k: nat, e: Node, c': seq<Node>)
    requires 0 < k < |c| && e !in c && Distinct(c) && c' == c[..k] + [e] + c[k..]
    ensures Distinct(c')
  {
  }

  /** The links of a chain with e inserted at k, from the links on both sides. */
  lemma LinkedInsert(c: seq<Node>, k: nat, e: Node, c': seq<Node>)
    requires 0 < k < |c| && c' == c[..k] + [e] + c[k..] && Distinct(c')
    requires c[k - 1].next == e && e.prev == c[k - 1] && e.next == c[k] && c[k].prev == e
    requires forall i :: 0 <= i < |c| - 1 && i != k - 1 ==> c[i].next == c[i + 1]
    requires forall i :: 0 < i < |c| && i != k ==> c[i].prev == c[i - 1]
    ensures Linked(c')
  {
    forall i | 0 <= i < |c'| - 1 ensures c'[i].next == c'[i + 1] {
      if i < k - 1 { assert c'[i] == c[i]; } else if i > k { assert c'[i] == c[i - 1]; }
    }
    forall i | 0 < i < |c'| ensures c'[i].prev == c'[i - 1] {
      if i < k { assert c'[i] == c[i]; } else if i > k + 1 { assert c'[i] == c[i - 1]; }
    }
  }

  lemma ChainRemove(c: seq<Node>, k: nat, c': seq<Node>)
    requires k < |c| && Distinct(c) && c' == c[..k] + c[k + 1..]
    ensures Distinct(c') && c[k] !in c'
  {
  }

  /** The links of a chain with position k taken out. */
  lemma LinkedRemove(c: seq<Node>, k: nat, c': seq<Node>)
    requires 0 < k < |c| - 1 && c' == c[..k] + c[k + 1..] && Distinct(c')
    requires c[k - 1].next == c[k + 1] && c[k + 1].prev == c[k - 1]
    requires forall i :: 0 <= i < |c| - 1 && i != k - 1 && i != k ==> c[i].next == c[i + 1]
    requires forall i :: 0 < i < |c| && i != k && i != k + 1 ==> c[i].prev == c[i - 1]
    ensures Linked(c')
  {
    forall i | 0 <= i < |c'| - 1 ensures c'[i].next == c'[i + 1] {
      if i < k - 1 { assert c'[i] == c[i]; } else if i >= k { assert c'[i] == c[i + 1]; }
    }
    forall i | 0 < i < |c'| ensures c'[i].prev == c'[i - 1] {
      if i < k { assert c'[i] == c[i]; } else if i > k { assert c'[i] == c[i + 1]; }
    }
  }

  /** list_insert_before() in front of position k of a chain. */
  method InsertAt(flags: Eflags, before: Node, elem: Node, ghost c: seq<Node>, ghost k: nat)
    requires Linked(c) && 0 < k < |c| && c[k] == before && elem !in c
    modifies {c[k - 1]}`next, before`prev, elem, flags
    ensures flags.on == old(flags.on)
    ensures Linked(c[..k] + [elem] + c[k..])
  {
    hide Distinct;
    assert before.prev == c[k - 1];
    DistinctAt(c, k - 1);
    DistinctAt(c, k);
    InsertBefore(flags, before, elem);
    ChainInsert(c, k, elem, c[..k] + [elem] + c[k..]);
    LinkedInsert(c, k, elem, c[..k] + [elem] + c[k..]);
  }

  /** list_remove() of the element at position k of a chain; taking out the last one leaves a dangling end. */
  method UnlinkAt(flags: Eflags, elem: Node, ghost c: seq<Node>, ghost k: nat)
    requires Linked(c) && 0 < k < |c| && c[k] == elem && (k == |c| - 1 ==> elem.next == null)
    modifies {c[k - 1]}`next, (if k < |c| - 1 then {c[k + 1]} else {})`prev, flags
    ensures flags.on == old(flags.on)
    ensures k < |c| - 1 ==> Linked(c[..k] + c[k + 1..]) && elem !in c[..k] + c[k + 1..]
    ensures k == |c| - 1 ==> c[k - 1].next == null
    ensures elem.prev == old(elem.prev) && elem.next == old(elem.next)
  {
    hide Distinct;
    assert elem.prev == c[k - 1];
    DistinctAt(c, k - 1);
    DistinctAt(c, k);
    if k < |c| - 1 {
      assert elem.next == c[k + 1] && c[k + 1].prev == elem;
      DistinctAt(c, k + 1);
    }
    Unlink(flags, elem);
    if k < |c| - 1 {
      ChainRemove(c, k, c[..k] + c[k + 1..]);
      LinkedRemove(c, k, c[..k] + c[k + 1..]);
    }
  }

  class List {
    const head: Node
    const tail: Node
    const flags: Eflags
    ghost var elems: seq<Node>

    ghost function Chain(): seq<Node>
      reads this
    {
      [head] + elems + [tail]
    }

    /** The nodes of the chain: the two sentinels and the elements. */
    ghost function Nodes(): (ns: set<Node>)
      reads this
      ensures (forall n <- ns :: n in Chain()) && (forall n <- Chain() :: n in ns)
    {
      {head, tail} + set n | n in elems
    }

    ghost predicate Valid()
      reads this, Nodes()
    {
      Linked(Chain()) && head.prev == null && tail.next == null
    }

    /** list_init(). */
    constructor (flags: Eflags)
      ensures Valid() && elems == [] && fresh(head) && fresh(tail) && this.flags == flags
    {
      this.flags := flags;
      head := new Node();
      tail := new Node();
      elems := [];
      new;
      head.prev := null;
      head.next := tail;
      tail.prev := head;
      tail.next := null;
    }

    /** list_insert_before() on a list: elem enters in front of `before`, the element at position k or the tail. */
    method Insert(before: Node, elem: Node, ghost k: nat)
      requires Valid() && k <= |elems| && (elems + [tail])[k] == before && elem !in Nodes()
      modifies this`elems, Nodes(), elem, flags
      ensures flags.on == old(flags.on)
      ensures Valid() && elems == old(elems)[..k] + [elem] + old(elems)[k..]
    {
      hide Linked;
      ghost var c := Chain();
      ghost var c' := c[..k + 1] + [elem] + c[k + 1..];
      ChainSplit(head, elems, tail, k, elem);
      assert c[k + 1] == before && Linked(c);
      LinkedDiffer(c, 0, k + 1);
      LinkedDiffer(c, k, |c| - 1);
      InsertAt(flags, before, elem, c, k + 1);
      assert Linked(c');
      elems := elems[..k] + [elem] + elems[k..];
    }

    /** list_push(). */
    method Push(elem: Node)
      requires Valid() && elem !in Nodes()
      modifies this`elems, Nodes(), elem, flags
      ensures flags.on == old(flags.on)
      ensures Valid() && elems == [elem] + old(elems)
    {
      assert head == Chain()[0] && Chain()[1] == (elems + [tail])[0];
      Insert(head.next, elem, 0);
    }

    /** list_append(). */
    method Append(elem: Node)
      requires Valid() && elem !in Nodes()
      modifies this`elems, Nodes(), elem, flags
      ensures flags.on == old(flags.on)
      ensures Valid() && elems == old(elems) + [elem]
    {
      Insert(tail, elem, |elems|);
    }

    /** list_remove() of an element at position k. */
    method Remove(elem: Node, ghost k: nat)
      requires Valid() && k < |elems| && elems[k] == elem
      modifies this`elems, Nodes(), flags
      ensures flags.on == old(flags.on)
      ensures Valid() && elems == old(elems)[..k] + old(elems)[k + 1..] && elem !in Nodes()
      ensures elem.prev == old(elem.prev) && elem.next == old(elem.next)
    {
      hide Linked;
      ghost var c := Chain();
      ghost var c' := c[..k + 1] + c[k + 2..];
      assert c[k + 1] == elem && Linked(c);
      LinkedDiffer(c, 0, k + 2);
      LinkedDiffer(c, k, |c| - 1);
      UnlinkAt(flags, elem, c, k + 1);
      assert Linked(c');
      elems := elems[..k] + elems[k + 1..];
      assert Chain() == c';
    }

    /**
     list_pop(). On an empty list, which every caller rules out, it unlinks the tail sentinel and
     returns it: the list is broken.
     */
    method Pop() returns (first: Node)
      requires Valid()
      modifies this`elems, Nodes(), flags
      ensures flags.on == old(flags.on)
      ensures old(elems) != [] ==> Valid() && first == old(elems)[0] && elems == old(elems)[1..] && first !in Nodes()
      ensures old(elems) == [] ==> first == tail && head.next == null && !Valid() && elems == []
    {
      hide Linked;
      ghost var c := Chain();
      ChainStart(c);
      LinkedDiffer(c, 0, |c| - 1);
      if elems != [] {
        LinkedDiffer(c, 0, 2);
        assert [head] + elems[1..] + [tail] == c[..1] + c[2..];
      }
      first := head.next;
      UnlinkAt(flags, first, c, 1);
      elems := if elems == [] then [] else elems[1..];
      if elems == [] && first == tail { NotLinked(c); }
    }

    /** list_empty(). */
    method IsEmpty() returns (empty: bool)
      requires Valid()
      ensures empty <==> elems == []
    {
      assert head == Chain()[0] && head.next == Chain()[1];
      if elems != [] { assert Chain()[1] != Chain()[|Chain()| - 1]; }
      empty := head.next == tail;
    }

    /** elem_find(): terminates with membership. */
    method Find(elem: Node) returns (found: bool)
      requires Valid()
      ensures found <==> elem in elems
    {
      ghost var c := Chain();
      assert head == c[0] && c[|c| - 1] == tail;
      var temp := head.next;
      ghost var i := 1;
      while temp != tail
        invariant 1 <= i < |c| && temp == c[i]
        invariant elem !in elems[..i - 1]
        decreases |c| - i
      {
        assert i < |c| - 1 && c[i] == elems[i - 1];
        if temp == elem { return true; }
        assert elems[..i] == elems[..i - 1] + [elems[i - 1]];
        temp := temp.next;
        i := i + 1;
      }
      assert elems[..i - 1] == elems;
      return false;
    }

    /** list_traversal(): the first element that satisfies the test. */
    method Traverse(test: Node -> bool) returns (r: Node?)
      requires Valid()
      ensures r == null ==> forall i :: 0 <= i < |elems| ==> !test(elems[i])
      ensures r != null ==> exists i :: 0 <= i < |elems| && elems[i] == r && test(elems[i])
                                         && forall j :: 0 <= j < i ==> !test(elems[j])
    {
      var empty := IsEmpty();
      if empty { return null; }
      ghost var c := Chain();
      assert head == c[0] && c[|c| - 1] == tail;
      var temp := head.next;
      ghost var i := 1;
      while temp != tail
        invariant 1 <= i < |c| && temp == c[i]
        invariant forall j :: 0 <= j < i - 1 ==> !test(elems[j])
        decreases |c| - i
      {
        assert i < |c| - 1 && c[i] == elems[i - 1];
        if test(temp) { return temp; }
        temp := temp.next;
        i := i + 1;
      }
      return null;
    }

    /** list_len(): the length, in a uint32_t. */
    method Len() returns (len: nat)
      requires Valid()
      ensures len == |elems| % 0x1_0000_0000
    {
      ghost var c := Chain();
      assert head == c[0] && c[|c| - 1] == tail;
      len := 0;
      var temp := head.next;
      ghost var i := 1;
      while temp != tail
        invariant 1 <= i < |c| && temp == c[i]
        invariant len == (i - 1) % 0x1_0000_0000
        decreases |c| - i
      {
        len := (len + 1) % 0x1_0000_0000;
        temp := temp.next;
        i := i + 1;
      }
    }
  }

  /** The nodes of two lists do not overlap. */
  ghost predicate Disjoint(a: List, b: List)
    reads a, b
  {
    a != b && a.Nodes() !! b.Nodes()
  }

  /**
   A tag moves from one list to the back of another, carrying stale links, as in
   sema_up and schedule: both lists and any third list stay well formed, and the third
   one is unchanged.
   */
  method MoveFirst(from: List, to: List, other: List) returns (n: Node)
    requires from.Valid() && to.Valid() && other.Valid() && from.elems != []
    requires Disjoint(from, to) && Disjoint(from, other) && Disjoint(to, other)
    modifies from, to, from.Nodes(), to.Nodes(), from.flags, to.flags
    ensures n == old(from.elems)[0] && from.elems == old(from.elems)[1..] && to.elems == old(to.elems) + [n]
    ensures from.Valid() && to.Valid() && other.Valid() && other.elems == old(other.elems)
    ensures Disjoint(from, to) && Disjoint(from, other) && Disjoint(to, other)
    ensures from.flags.on == old(from.flags.on) && to.flags.on == old(to.flags.on)
  {
    hide Linked;
    n := PopApart(from, to, other);
    AppendApart(to, n, from, other);
  }

  /** list_append() leaves the lists that do not overlap alone. */
  method AppendApart(to: List, n: Node, a: List, b: List)
    requires to.Valid() && a.Valid() && b.Valid() && n !in to.Nodes() && n !in a.Nodes() && n !in b.Nodes()
    requires Disjoint(a, to) && Disjoint(to, b)
    modifies to, to.Nodes(), n, to.flags
    ensures to.flags.on == old(to.flags.on)
    ensures to.Valid() && a.Valid() && b.Valid()
    ensures to.elems == old(to.elems) + [n] && to.Nodes() == old(to.Nodes()) + {n}
    ensures a.elems == old(a.elems) && b.elems == old(b.elems) && Disjoint(a, to) && Disjoint(to, b)
  {
    hide Linked;
    to.Append(n);
    assert to.Nodes() == old(to.Nodes()) + {n};
  }

  /** list_pop() leaves the lists that do not overlap alone, and its result is in none of them. */
  method PopApart(from: List, to: List, other: List) returns (n: Node)
    requires from.Valid() && to.Valid() && other.Valid() && from.elems != []
    requires Disjoint(from, to) && Disjoint(from, other)
    modifies from, from.Nodes(), from.flags
    ensures from.flags.on == old(from.flags.on)
    ensures n == old(from.elems)[0] && from.elems == old(from.elems)[1..]
    ensures from.Valid() && to.Valid() && other.Valid() && to.elems == old(to.elems) && other.elems == old(other.elems)
    ensures n in old(from.Nodes()) && from.Nodes() == old(from.Nodes()) - {n}
  {
    hide Linked;
    n := from.Pop();
  }
}
