/**
 palloc without the atomicity that its comment asks for: the scan and the setting of the bit as two steps
 that a timer interrupt can separate, by any number of threads. get_kernel_pages takes no lock.
 */
module PallocRace {
  import opened Options
  import opened Memory

  type Tid = nat

  /** `seen` gives the frame that a thread has found free and not yet marked; `got` the frames handed out so far. */
  datatype Race = Race(used: seq<bool>, seen: map<Tid, nat>, got: seq<nat>)

  datatype Turn = Scan(t: Tid) | Mark(t: Tid)

  predicate CanTake(s: Race, a: Turn) {
    match a
    case Scan(t) => t !in s.seen
    case Mark(t) => t in s.seen && s.seen[t] < |s.used|
  }

  function Take(s: Race, a: Turn): Race
    requires CanTake(s, a)
  {
    match a
    case Scan(t) =>
      (match Find(s.used, 1)
       case None => s
       case Some(k) => s.(seen := s.seen[t := k]))
    case Mark(t) => Race(s.used[s.seen[t] := true], s.seen - {t}, s.got + [s.seen[t]])
  }

  ghost predicate Turns(s: Race, turns: seq<Turn>)
    decreases |turns|
  {
    turns == [] || (CanTake(s, turns[0]) && Turns(Take(s, turns[0]), turns[1..]))
  }

  ghost function After(s: Race, turns: seq<Turn>): Race
    requires Turns(s, turns)
    decreases |turns|
  {
    if turns == [] then s else After(Take(s, turns[0]), turns[1..])
  }

  /** A thread scans, and finds a frame, while another one is between its scan and its mark. */
  predicate Overlaps(s: Race, a: Turn) { a.Scan? && s.seen != map[] && Find(s.used, 1).Some? }

  /** Every palloc of the run is finished before the next one scans: interrupts are off, or a lock is held. */
  ghost predicate Atomic(s: Race, turns: seq<Turn>)
    requires Turns(s, turns)
    decreases |turns|
  {
    turns == [] || (!Overlaps(s, turns[0]) && Atomic(Take(s, turns[0]), turns[1..]))
  }

  /** The frames handed out are pairwise distinct. */
  predicate Distinct(got: seq<nat>) { forall i, j :: 0 <= i < j < |got| ==> got[i] != got[j] }

  // ----- atomic runs

  /** At most one thread is under way, with a frame that is free and was never handed out. */
  ghost predicate Tidy(s: Race) {
    && Distinct(s.got) && (forall k :: k in s.got ==> k < |s.used| && s.used[k])
    && (forall t :: t in s.seen ==> s.seen[t] < |s.used| && !s.used[s.seen[t]])
    && (forall t, u :: t in s.seen && u in s.seen ==> t == u)
  }

  lemma TurnKeepsTidy(s: Race, a: Turn)
    requires Tidy(s) && CanTake(s, a) && !Overlaps(s, a)
    ensures Tidy(Take(s, a))
  {
  }

  lemma {:induction false} AtomicIsDistinct(s: Race, turns: seq<Turn>)
    requires Tidy(s) && Turns(s, turns) && Atomic(s, turns)
    ensures Tidy(After(s, turns))
    decreases |turns|
  {
    hide Tidy, CanTake, Take, Overlaps;
    if turns != [] {
      TurnKeepsTidy(s, turns[0]);
      AtomicIsDistinct(Take(s, turns[0]), turns[1..]);
    }
  }

  // ----- runs that overlap

  /** The threads that are about to mark frame k. */
  function Pending(s: Race, k: nat): set<Tid> { set t | t in s.seen && s.seen[t] == k }

  /** How often frame k was handed out or is about to be. */
  function Weight(s: Race, k: nat): nat { multiset(s.got)[k] + |Pending(s, k)| }

  lemma WeightGrows(s: Race, a: Turn, k: nat)
    requires CanTake(s, a)
    ensures Weight(Take(s, a), k) >= Weight(s, k)
    ensures a.Scan? && Find(s.used, 1) == Some(k) ==> Weight(Take(s, a), k) == Weight(s, k) + 1
  {
    hide Find, Pending;
    match a
    case Scan(t) => if Find(s.used, 1).Some? { ScanPends(s, t, Find(s.used, 1).value, k); }
    case Mark(t) => MarkEnds(s, t, k);
  }

  lemma ScanPends(s: Race, t: Tid, found: nat, k: nat)
    requires t !in s.seen
    ensures |Pending(s.(seen := s.seen[t := found]), k)| == |Pending(s, k)| + if found == k then 1 else 0
  {
    assert Pending(s.(seen := s.seen[t := found]), k) == if found == k then Pending(s, k) + {t} else Pending(s, k);
  }

  lemma MarkEnds(s: Race, t: Tid, k: nat)
    requires t in s.seen && s.seen[t] < |s.used|
    ensures var s' := Race(s.used[s.seen[t] := true], s.seen - {t}, s.got + [s.seen[t]]);
            |Pending(s', k)| == |Pending(s, k)| - if s.seen[t] == k then 1 else 0
  {
    var s' := Race(s.used[s.seen[t] := true], s.seen - {t}, s.got + [s.seen[t]]);
    if s.seen[t] == k {
      assert Pending(s', k) == Pending(s, k) - {t} && t in Pending(s, k);
    } else {
      assert Pending(s', k) == Pending(s, k);
    }
  }

  lemma {:induction false} WeightStays(s: Race, turns: seq<Turn>, k: nat)
    requires Turns(s, turns)
    ensures Weight(After(s, turns), k) >= Weight(s, k)
    decreases |turns|
  {
    hide CanTake, Take, Weight;
    if turns != [] {
      WeightGrows(s, turns[0], k);
      WeightStays(Take(s, turns[0]), turns[1..], k);
    }
  }

  /** As long as nothing has overlapped, a thread under way has found the frame that the next scan finds too. */
  lemma SecondScanFindsTheSame(s: Race, t: Tid, a: Turn)
    requires Pristine(s) && t in s.seen && Overlaps(s, a)
    ensures Find(s.used, 1) == Some(s.seen[t])
  {
  }

  /** The thread under way, if any, has found the first free frame. */
  ghost predicate Pristine(s: Race) { Tidy(s) && forall t :: t in s.seen ==> Find(s.used, 1) == Some(s.seen[t]) }

  lemma TurnKeepsPristine(s: Race, a: Turn)
    requires Pristine(s) && CanTake(s, a) && !Overlaps(s, a)
    ensures Pristine(Take(s, a))
  {
    TurnKeepsTidy(s, a);
  }

  lemma TwiceIsNotDistinct(got: seq<nat>, k: nat)
    requires multiset(got)[k] >= 2
    ensures !Distinct(got)
  {
    var i :| 0 <= i < |got| && got[i] == k;
    var rest := got[..i] + got[i + 1..];
    assert got == got[..i] + [k] + got[i + 1..];
    assert multiset(rest)[k] >= 1;
    assert k in rest;
    var j :| 0 <= j < |rest| && rest[j] == k;
    var j' := if j < i then j else j + 1;
    assert got[j'] == k && j' != i;
    if j' < i { assert got[j'] == got[i]; } else { assert got[i] == got[j']; }
  }

  /** A run that overlaps and lets every thread finish hands a frame out twice. */
  lemma {:induction false} OverlapHandsOutTwice(s: Race, turns: seq<Turn>)
    requires Pristine(s) && Turns(s, turns) && !Atomic(s, turns) && After(s, turns).seen == map[]
    ensures !Distinct(After(s, turns).got)
    decreases |turns|
  {
    hide Tidy, CanTake, Take, Distinct;
    if Overlaps(s, turns[0]) {
      var t :| t in s.seen;
      var k := s.seen[t];
      SecondScanFindsTheSame(s, t, turns[0]);
      assert t in Pending(s, k);
      WeightGrows(s, turns[0], k);
      WeightStays(Take(s, turns[0]), turns[1..], k);
      var s' := After(s, turns);
      assert Pending(s', k) == {};
      TwiceIsNotDistinct(s'.got, k);
    } else {
      TurnKeepsPristine(s, turns[0]);
      OverlapHandsOutTwice(Take(s, turns[0]), turns[1..]);
    }
  }

  /** In every run in which all calls finish, the frames are pairwise distinct if and only if no call overlapped another. */
  lemma DistinctExactlyIfAtomic(used: seq<bool>, turns: seq<Turn>)
    requires Turns(Race(used, map[], []), turns) && After(Race(used, map[], []), turns).seen == map[]
    ensures Distinct(After(Race(used, map[], []), turns).got) <==> Atomic(Race(used, map[], []), turns)
  {
    hide Turns, After, Atomic;
    var s := Race(used, map[], []);
    if Atomic(s, turns) { AtomicIsDistinct(s, turns); } else { OverlapHandsOutTwice(s, turns); }
  }

  /** Two threads get one frame: both scan before either marks. */
  lemma TwoThreadsOneFrame(used: seq<bool>, k: nat)
    requires Find(used, 1) == Some(k)
    ensures var s := Race(used, map[], []); var turns := [Scan(0), Scan(1), Mark(0), Mark(1)];
            Turns(s, turns) && After(s, turns).got == [k, k]
  {
    hide Find;
    var s := Race(used, map[], []);
    FoundInRange(used, k);
    var s2 := Race(used, map[0 := k, 1 := k], []);
    var turns := [Scan(0), Scan(1), Mark(0), Mark(1)];
    assert turns[1..] == [Scan(1), Mark(0), Mark(1)] && turns[1..][1..] == [Mark(0), Mark(1)];
    assert Take(Take(s, Scan(0)), Scan(1)) == s2;
    TwoMarks(s2, k);
    assert Turns(Take(s, Scan(0)), turns[1..]) && After(Take(s, Scan(0)), turns[1..]) == After(s2, [Mark(0), Mark(1)]);
  }

  lemma FoundInRange(used: seq<bool>, k: nat)
    requires Find(used, 1) == Some(k)
    ensures k < |used|
  {
  }

  lemma TwoMarks(s: Race, k: nat)
    requires s.seen == map[0 := k, 1 := k] && s.got == [] && k < |s.used|
    ensures Turns(s, [Mark(0), Mark(1)]) && After(s, [Mark(0), Mark(1)]).got == [k, k]
  {
    assert [Mark(0), Mark(1)][1..] == [Mark(1)] && [Mark(1)][1..] == [];
    var s1 := Take(s, Mark(0));
    assert s1.seen == map[1 := k] && s1.got == [k];
    var s2 := Take(s1, Mark(1));
    assert Turns(s2, []) && After(s2, []) == s2;
    assert Turns(s1, [Mark(1)]) && After(s1, [Mark(1)]) == s2;
  }
}
