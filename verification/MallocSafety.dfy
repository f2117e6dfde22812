/** vaddr_get, malloc_page, get_kernel_pages and get_user_pages as whole calls. */
module MallocSafety {
  import opened Options
  import opened Paging
  import opened Bitmaps
  import opened Memory
  import opened MemorySafety
  import opened Mapping
  import opened Allocation

  /** The pool that vaddr_get searches. */
  function HeapOf(m: Mem, pf: Flag): Pool { if pf.PfKernel? then m.kheap else UserHeap(m) }

  function WithHeap(m: Mem, pf: Flag, p: Pool): Mem {
    if pf.PfKernel? then m.(kheap := p) else m.(uheap := m.uheap[m.dir := p])
  }

  /** Pool p' is pool p with more bits set. */
  predicate Grown(p: Pool, p': Pool) {
    p'.first == p.first && |p'.used| == |p.used| && forall i :: 0 <= i < |p.used| && p.used[i] ==> p'.used[i]
  }

  /** m1 is m with more pages reserved. */
  predicate MoreReserved(m: Mem, m1: Mem) {
    && m1.ram == m.ram && m1.own == m.own && m1.kpool == m.kpool && m1.upool == m.upool && m1.dir == m.dir
    && Grown(m.kheap, m1.kheap) && m1.uheap.Keys == m.uheap.Keys
    && (forall d :: d in m.uheap ==> Grown(m.uheap[d], m1.uheap[d]))
  }

  lemma GrownTaken(p: Pool, p': Pool, q: nat)
    requires Grown(p, p')
    ensures (p.Taken(q) ==> p'.Taken(q)) && (p.Holds(q) <==> p'.Holds(q))
  {
  }

  lemma MoreReservedKeepsPages(m: Mem, m1: Mem)
    requires MemInv(m, {}) && MoreReserved(m, m1)
    ensures forall q: nat :: KERNEL_PAGE <= q ==> KernelPageOk(m1, q)
    ensures forall d, q: nat :: d in m1.uheap ==> UserPageOk(m1, d, q)
    ensures forall f :: f in m1.own ==> FrameOk(m1, f)
  {
    hide PageFrame, Read, Grown;
    forall q: nat | KERNEL_PAGE <= q ensures KernelPageOk(m1, q) {
      assert KernelPageOk(m, q);
      GrownTaken(m.kheap, m1.kheap, q);
    }
    forall d, q: nat | d in m1.uheap ensures UserPageOk(m1, d, q) {
      assert UserPageOk(m, d, q);
      GrownTaken(m.uheap[d], m1.uheap[d], q);
    }
    forall f | f in m1.own ensures FrameOk(m1, f) {
      assert FrameOk(m, f);
      match m.own[f]
      case KPage(q) => GrownTaken(m.kheap, m1.kheap, q);
      case UPage(d, q) => GrownTaken(m.uheap[d], m1.uheap[d], q);
      case Table(d, i) =>
    }
  }

  lemma MoreReservedKeepsInv(m: Mem, m1: Mem)
    requires MemInv(m, {}) && MoreReserved(m, m1)
    ensures MemInv(m1, {}) && Kept(m, m1)
  {
    hide PageFrame, Read, KernelPageOk, UserPageOk, FrameOk;
    MoreReservedKeepsPages(m, m1);
    forall d | IsDir(m1, d) ensures DirOk(m1, d) && LowHalfOk(m1, d) {
      assert IsDir(m, d);
      assert DirOk(m, d) && LowHalfOk(m, d);
    }
  }

  /** Reserving more pages keeps the invariant. */
  lemma ReserveKeepsInv(m: Mem, pf: Flag, p: Pool)
    requires MemInv(m, {}) && Grown(HeapOf(m, pf), p) && (pf.PfUser? ==> m.dir in m.uheap)
    ensures MemInv(WithHeap(m, pf, p), {}) && Kept(m, WithHeap(m, pf, p))
  {
    hide MemInv, Kept;
    assert MoreReserved(m, WithHeap(m, pf, p));
    MoreReservedKeepsInv(m, WithHeap(m, pf, p));
  }

  /** A page whose bit was clear is not mapped. */
  lemma FreePageUnmapped(m: Mem, pf: Flag, q: nat)
    requires MemInv(m, {}) && HeapOf(m, pf).Holds(q) && !HeapOf(m, pf).Taken(q)
    ensures q >= KERNEL_PAGE <==> pf.PfKernel?
    ensures if pf.PfKernel? then !Present(Read(m.ram, KernelWord(q))) else PageFrame(m.ram, m.dir, q).None?
  {
    if pf.PfKernel? {
      assert KernelPageOk(m, q);
    } else {
      assert m.dir in m.uheap;
      assert UserPageOk(m, m.dir, q);
    }
  }

  lemma TakeGrows(p: Pool, cnt: nat)
    ensures Grown(p, Take(p, cnt).pool)
  {
  }

  /** The pages that Take hands out were clear and are set. */
  lemma TakenAt(p: Pool, cnt: nat, q: nat)
    requires Take(p, cnt).got.Some? && Take(p, cnt).got.value <= q < Take(p, cnt).got.value + cnt
    ensures p.Holds(q) && !p.Taken(q) && Take(p, cnt).pool.Taken(q)
  {
  }

  /** No page of the run is reserved. */
  ghost predicate RunClear(p: Pool, page: nat, cnt: nat) { forall q: nat :: page <= q < page + cnt ==> !p.Taken(q) }

  lemma ReservedIsReady(m: Mem, pf: Flag, cnt: nat, q: nat)
    requires MemInv(m, {}) && VaddrGet(m, pf, cnt).Reserved? && Take(HeapOf(m, pf), cnt).got.Some?
    requires var k := Take(HeapOf(m, pf), cnt).got.value; k <= q < k + cnt
    ensures PageReady(VaddrGet(m, pf, cnt).m, q) && (q >= KERNEL_PAGE <==> pf.PfKernel?)
  {
    hide MemInv, PageFrame, Read, Find, SetRun;
    TakenAt(HeapOf(m, pf), cnt, q);
    FreePageUnmapped(m, pf, q);
    UserDirIfFound(m, pf, cnt);
  }

  /** vaddr_get: the pages it hands out were free, are marked now, and are not mapped. */
  lemma VaddrGetReserves(m: Mem, pf: Flag, cnt: nat)
    requires MemInv(m, {}) && VaddrGet(m, pf, cnt).Reserved?
    ensures var r := VaddrGet(m, pf, cnt);
            && MemInv(r.m, {}) && Kept(m, r.m) && r.m.zeroTable == m.zeroTable && r.m.dir == m.dir
            && r.m.own == m.own && r.m.ram == m.ram && r.m.kpool == m.kpool && r.m.upool == m.upool
            && (r.page.None? ==> r.m == m)
            && (r.page.Some? ==> RunReady(r.m, pf, r.page.value, cnt) && RunClear(HeapOf(m, pf), r.page.value, cnt))
  {
    hide MemInv, PageFrame, Read, Find, Kept, SetRun, Grown, PageReady;
    var heap := HeapOf(m, pf);
    var g := Take(heap, cnt);
    var r := VaddrGet(m, pf, cnt);
    KeptReflexive(m);
    TakeGrows(heap, cnt);
    if g.got.Some? {
      UserDirIfFound(m, pf, cnt);
      ReserveKeepsInv(m, pf, g.pool);
      assert r.m == WithHeap(m, pf, g.pool);
      forall q: nat | g.got.value <= q < g.got.value + cnt ensures PageReady(r.m, q) && (q >= KERNEL_PAGE <==> pf.PfKernel?) {
        ReservedIsReady(m, pf, cnt, q);
      }
      assert RunReady(r.m, pf, g.got.value, cnt);
      forall q: nat | g.got.value <= q < g.got.value + cnt ensures !heap.Taken(q) { TakenAt(heap, cnt, q); }
      assert RunClear(heap, g.got.value, cnt) && r.page == g.got;
    } else {
      NothingTaken(m, pf, cnt);
    }
  }

  lemma NothingTaken(m: Mem, pf: Flag, cnt: nat)
    requires Take(HeapOf(m, pf), cnt).got.None?
    ensures VaddrGet(m, pf, cnt) == Reserved(m, None)
  {
  }

  lemma UserDirIfFound(m: Mem, pf: Flag, cnt: nat)
    requires Take(HeapOf(m, pf), cnt).got.Some?
    ensures pf.PfUser? ==> m.dir in m.uheap
  {
  }

  /** malloc_page on page 0, after a failed vaddr_get: it returns NULL if there is no frame, and halts otherwise. */
  lemma MapNothing(m: Mem, pf: Flag, cnt: nat)
    requires cnt > 0
    ensures MapRun(m, pf, 0, cnt) == if Palloc(PoolOf(m, pf)).got.None? then NoFrame(m) else Stopped(m, 101)
  {
    hide Palloc;
  }

  /** The pages of a run were unreserved, unmapped, and of the kind that pf says. */
  ghost predicate RunWasFree(m: Mem, pf: Flag, page: nat, cnt: nat) {
    forall q: nat :: page <= q < page + cnt ==> PageWasFree(m, pf, q)
  }

  predicate PageWasFree(m: Mem, pf: Flag, q: nat) {
    !HeapOf(m, pf).Taken(q) && (q >= KERNEL_PAGE <==> pf.PfKernel?) && PageFrame(m.ram, m.dir, q).None?
  }

  /** The outcome of malloc_page in terms of its argument and the pools. */
  ghost predicate MallocOk(m: Mem, pf: Flag, cnt: nat, r: Alloc) {
    match r
    case Stop(m', line) => m'.zeroTable || line in {132, 64, 101}
    case Null(m') => !m'.zeroTable ==> MemInv(m', {}) && Kept(m, m')
    case Got(m', page) =>
      !m'.zeroTable ==>
        MemInv(m', {}) && Kept(m, m') && RunMapped(m, m', page, cnt) && RunWasFree(m, pf, page, cnt)
  }

  /**
   malloc_page maps a run of pages that were free and unmapped, to frames without a
   use, and keeps all that was allocated; a call that fails half-way keeps it too.
   */
  lemma MallocPageSafe(m: Mem, pf: Flag, cnt: nat)
    requires MemInv(m, {}) && !m.zeroTable
    ensures MallocOk(m, pf, cnt, MallocPage(m, pf, cnt))
    ensures pf.PfKernel? ==> !MallocPage(m, pf, cnt).m.zeroTable
  {
    hide MemInv, MapRun, PageFrame, Kept, VaddrGet, RunMapped, Palloc;
    if 0 < cnt < 3840 {
      var v := VaddrGet(m, pf, cnt);
      if v.Reserved? {
        VaddrGetReserves(m, pf, cnt);
        if v.page.Some? {
          MapRunKeepsInv(v.m, pf, v.page.value, cnt);
          var r := MapRun(v.m, pf, v.page.value, cnt);
          if !r.m.zeroTable && !r.Stopped? { KeptTransitive(m, v.m, r.m); }
          if r.Mapped? && !r.m.zeroTable { RunMappedFrom(m, v.m, r.m, v.page.value, cnt); }
          forall q: nat | v.page.value <= q < v.page.value + cnt
            ensures PageWasFree(m, pf, q)
          {
            ReadyIsUnmapped(v.m, pf, v.page.value, cnt, q);
          }
          assert RunWasFree(m, pf, v.page.value, cnt);
        } else {
          MapNothing(m, pf, cnt);
        }
      } else {
        RefusedLine(m, pf, cnt);
      }
    }
  }

  lemma RefusedLine(m: Mem, pf: Flag, cnt: nat)
    requires VaddrGet(m, pf, cnt).Refused?
    ensures VaddrGet(m, pf, cnt).line == 64 && pf.PfUser?
  {
  }

  lemma ReadyIsUnmapped(m: Mem, pf: Flag, page: nat, cnt: nat, q: nat)
    requires MemInv(m, {}) && RunReady(m, pf, page, cnt) && page <= q < page + cnt
    ensures (q >= KERNEL_PAGE <==> pf.PfKernel?) && PageFrame(m.ram, m.dir, q).None?
  {
    hide PageFrame;
    assert PageReady(m, q);
    if q >= KERNEL_PAGE {
      assert DirOk(m, m.dir);
      KernelPageFrame(m, m.dir, q);
    }
  }

  lemma RunMappedFrom(m: Mem, m1: Mem, m': Mem, page: nat, cnt: nat)
    requires RunMapped(m1, m', page, cnt) && m1.own == m.own && m1.dir == m.dir
    ensures RunMapped(m, m', page, cnt)
  {
  }

  // ----- writing to the memory of an allocated page

  /** ram' differs from ram at most in frame f. */
  ghost predicate DiffersOnlyIn(ram: Ram, ram': Ram, f: nat) {
    forall g: nat, i: nat :: g != f && i < 1024 ==> Read(ram', Word(g, i)) == Read(ram, Word(g, i))
  }

  /** Frame f holds a page of data: it is not a page table and not a directory. */
  predicate DataFrame(m: Mem, f: nat) { f in m.own && !m.own[f].Table? && !IsDir(m, f) }

  lemma DataWriteKeepsUserPage(m: Mem, ram': Ram, f: nat, d: nat, q: nat)
    requires MemInv(m, {}) && DataFrame(m, f) && DiffersOnlyIn(m.ram, ram', f) && d in m.uheap && q < KERNEL_PAGE
    ensures PageFrame(ram', d, q) == PageFrame(m.ram, d, q)
  {
    assert d in m.own && FrameOk(m, d);
    PoolFrames(m, d);
    assert LowHalfOk(m, d);
    var i := q / 1024;
    assert Read(ram', Word(d, i)) == Read(m.ram, Word(d, i));
    if Present(Read(m.ram, Word(d, i))) {
      var t := FrameOf(Read(m.ram, Word(d, i)));
      assert t in m.own && m.own[t] == Table(d, i);
      assert Read(ram', Word(t, q % 1024)) == Read(m.ram, Word(t, q % 1024));
    }
  }

  lemma DataWriteKeepsKernelWord(m: Mem, ram': Ram, f: nat, q: nat)
    requires MemInv(m, {}) && DataFrame(m, f) && DiffersOnlyIn(m.ram, ram', f) && KERNEL_PAGE <= q < WINDOW_PAGE
    ensures Read(ram', KernelWord(q)) == Read(m.ram, KernelWord(q))
  {
    assert FrameOk(m, f);
    PoolFrames(m, f);
    KernelWordBelowPools(q);
    var t :| KTABLE <= t < 0x200 && KernelWord(q) == Word(t, q % 1024);
    assert Read(ram', Word(t, q % 1024)) == Read(m.ram, Word(t, q % 1024));
  }

  lemma DataWriteKeepsMappings(m: Mem, ram': Ram, f: nat)
    requires MemInv(m, {}) && DataFrame(m, f) && DiffersOnlyIn(m.ram, ram', f)
    ensures forall q: nat :: KERNEL_PAGE <= q < WINDOW_PAGE ==> Read(ram', KernelWord(q)) == Read(m.ram, KernelWord(q))
    ensures forall d, q: nat :: d in m.uheap && q < KERNEL_PAGE ==> PageFrame(ram', d, q) == PageFrame(m.ram, d, q)
  {
    hide MemInv, PageFrame, Read, DiffersOnlyIn, DataFrame;
    forall q: nat | KERNEL_PAGE <= q < WINDOW_PAGE ensures Read(ram', KernelWord(q)) == Read(m.ram, KernelWord(q)) {
      DataWriteKeepsKernelWord(m, ram', f, q);
    }
    forall d, q: nat | d in m.uheap && q < KERNEL_PAGE ensures PageFrame(ram', d, q) == PageFrame(m.ram, d, q) {
      DataWriteKeepsUserPage(m, ram', f, d, q);
    }
  }

  /** Data written to an allocated page changes no mapping. */
  lemma DataWriteKeepsInv(m: Mem, ram': Ram, f: nat)
    requires MemInv(m, {}) && DataFrame(m, f) && DiffersOnlyIn(m.ram, ram', f)
    ensures MemInv(m.(ram := ram'), {}) && Kept(m, m.(ram := ram'))
    ensures forall q: nat :: q < WINDOW_PAGE && (q < KERNEL_PAGE ==> m.dir in m.uheap) ==>
              PageFrame(ram', m.dir, q) == PageFrame(m.ram, m.dir, q)
  {
    hide PageFrame, Read, DiffersOnlyIn, DataFrame;
    var m' := m.(ram := ram');
    DataWriteKeepsMappings(m, ram', f);
    forall d | IsDir(m', d) ensures DirOk(m', d) && LowHalfOk(m', d) {
      DataWriteKeepsDir(m, ram', f, d);
    }
    forall q: nat | KERNEL_PAGE <= q ensures KernelPageOk(m', q) { assert KernelPageOk(m, q); }
    forall d, q: nat | d in m'.uheap ensures UserPageOk(m', d, q) { assert UserPageOk(m, d, q); }
    forall x | x in m'.own ensures FrameOk(m', x) { DataWriteKeepsFrame(m, ram', f, x); }
    forall q: nat | q < WINDOW_PAGE && (q < KERNEL_PAGE ==> m.dir in m.uheap)
      ensures PageFrame(ram', m.dir, q) == PageFrame(m.ram, m.dir, q)
    {
      if q >= KERNEL_PAGE {
        assert DirOk(m, m.dir) && DirOk(m', m.dir);
        KernelPageFrame(m, m.dir, q);
        KernelPageFrame(m', m.dir, q);
      }
    }
  }

  lemma DataWriteKeepsDir(m: Mem, ram': Ram, f: nat, d: nat)
    requires MemInv(m, {}) && DataFrame(m, f) && DiffersOnlyIn(m.ram, ram', f) && IsDir(m, d)
    ensures DirOk(m.(ram := ram'), d) && LowHalfOk(m.(ram := ram'), d)
  {
    assert DirOk(m, d) && LowHalfOk(m, d) && d != f;
    forall i: nat | i < 1024 ensures Read(ram', Word(d, i)) == Read(m.ram, Word(d, i)) {}
  }

  lemma DataWriteKeepsFrame(m: Mem, ram': Ram, f: nat, x: nat)
    requires MemInv(m, {}) && DataFrame(m, f) && DiffersOnlyIn(m.ram, ram', f) && x in m.own
    ensures FrameOk(m.(ram := ram'), x)
  {
    hide PageFrame;
    assert FrameOk(m, x);
    match m.own[x]
    case KPage(q) => DataWriteKeepsKernelWord(m, ram', f, q);
    case UPage(d, q) => DataWriteKeepsUserPage(m, ram', f, d, q);
    case Table(d, i) => assert d != f;
  }
}
