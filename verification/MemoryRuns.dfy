/**
 Runs of memory calls by any process: allocation safety, agreement of all directories
 on the kernel half, and the stories of the failing calls.
 */
module MemoryRuns {
  import opened Options
  import opened Paging
  import opened Memory
  import opened MemorySafety
  import opened Mapping
  import opened Allocation
  import opened MallocSafety
  import opened Outcomes

  // ----- memset over the new pages

  lemma ZeroedDiffers(ram: Ram, f: nat)
    ensures DiffersOnlyIn(ram, Zeroed(ram, f), f)
  {
    forall g: nat, i: nat | g != f && i < 1024 ensures Read(Zeroed(ram, f), Word(g, i)) == Read(ram, Word(g, i)) {
      ZeroedReads(ram, f, g, i);
    }
  }

  /** Page q is mapped to a data frame that records it. */
  predicate PageIsData(m: Mem, q: nat) {
    && (q < KERNEL_PAGE ==> m.dir in m.uheap) && q < WINDOW_PAGE
    && PageFrame(m.ram, m.dir, q).Some?
    && DataFrame(m, PageFrame(m.ram, m.dir, q).value)
    && m.own[PageFrame(m.ram, m.dir, q).value] == UseOf(m.dir, q)
  }

  ghost predicate RunIsData(m: Mem, page: nat, cnt: nat) {
    forall q: nat :: page <= q < page + cnt ==> PageIsData(m, q)
  }

  /** The frames of the run hold only zeros. */
  ghost predicate RunIsZero(ram: Ram, dir: nat, page: nat, cnt: nat) {
    forall q: nat, i: nat :: page <= q < page + cnt && i < 1024 && PageFrame(ram, dir, q).Some? ==>
      Read(ram, Word(PageFrame(ram, dir, q).value, i)) == 0
  }

  lemma PageWalk(ram: Ram, d: nat, q: nat)
    requires q < 0x10_0000
    ensures Walk(ram, d, 4096 * q) == match PageFrame(ram, d, q) case None => None case Some(f) => Some(4096 * f)
    ensures forall f: nat :: (4096 * f) / 4096 == f
  {
    hide Walk, PageFrame;
    assert (4096 * q) / 4096 == q && (4096 * q) % 4096 == 0;
    WalkIsPageFrame(ram, d, 4096 * q);
  }

  /** One turn of the memset over a run. */
  lemma ZeroRunStep(m: Mem, page: nat, cnt: nat)
    requires cnt > 0 && RunIsData(m, page, cnt)
    ensures PageFrame(m.ram, m.dir, page).Some?
    ensures var f := PageFrame(m.ram, m.dir, page).value;
            ZeroRun(m.ram, m.dir, page, cnt) == ZeroRun(Zeroed(m.ram, f), m.dir, page + 1, cnt - 1)
  {
    hide PageFrame, Walk, Zeroed;
    assert PageIsData(m, page);
    PageWalk(m.ram, m.dir, page);
  }

  lemma ZeroOne(m: Mem, page: nat, cnt: nat)
    requires MemInv(m, {}) && cnt > 0 && RunIsData(m, page, cnt)
    ensures PageFrame(m.ram, m.dir, page).Some?
    ensures var f := PageFrame(m.ram, m.dir, page).value;
            var m1 := m.(ram := Zeroed(m.ram, f));
            MemInv(m1, {}) && Kept(m, m1) && RunIsData(m1, page + 1, cnt - 1) && f in m.own
            && PageFrame(m1.ram, m.dir, page) == Some(f) && (forall i: nat :: i < 1024 ==> Read(m1.ram, Word(f, i)) == 0)
  {
    hide PageFrame, MemInv, Zeroed;
    assert PageIsData(m, page);
    var f := PageFrame(m.ram, m.dir, page).value;
    ZeroedDiffers(m.ram, f);
    DataWriteKeepsInv(m, Zeroed(m.ram, f), f);
    forall i: nat | i < 1024 ensures Read(Zeroed(m.ram, f), Word(f, i)) == 0 { ZeroedReads(m.ram, f, f, i); }
    forall q: nat | page + 1 <= q < page + cnt ensures PageIsData(m.(ram := Zeroed(m.ram, f)), q) {
      assert PageIsData(m, q);
    }
  }

  /** What is zero stays zero. */
  lemma {:induction false} ZeroStaysZero(m: Mem, f: nat, i: nat, page: nat, cnt: nat)
    requires MemInv(m, {}) && RunIsData(m, page, cnt) && i < 1024 && Read(m.ram, Word(f, i)) == 0
    ensures Read(ZeroRun(m.ram, m.dir, page, cnt), Word(f, i)) == 0
    decreases cnt
  {
    hide PageFrame, MemInv, Zeroed, Walk, Read, RunIsData, Kept;
    if cnt > 0 {
      ZeroRunStep(m, page, cnt);
      FirstIsMapped(m, page, cnt);
      var g := PageFrame(m.ram, m.dir, page).value;
      ZeroOne(m, page, cnt);
      ZeroedReads(m.ram, g, f, i);
      ZeroStaysZero(m.(ram := Zeroed(m.ram, g)), f, i, page + 1, cnt - 1);
    }
  }

  /** Data pages are mapped, so the memset never faults. */
  lemma {:induction false} DataNeverFaults(m: Mem, page: nat, cnt: nat)
    requires MemInv(m, {}) && RunIsData(m, page, cnt)
    ensures !Faults(m.ram, m.dir, page, cnt)
    decreases cnt
  {
    hide PageFrame, MemInv, Zeroed, Kept, RunIsData, Walk;
    if cnt > 0 {
      FirstIsMapped(m, page, cnt);
      PageWalk(m.ram, m.dir, page);
      ZeroOne(m, page, cnt);
      DataNeverFaults(m.(ram := Zeroed(m.ram, PageFrame(m.ram, m.dir, page).value)), page + 1, cnt - 1);
    }
  }

  lemma FirstIsMapped(m: Mem, page: nat, cnt: nat)
    requires cnt > 0 && RunIsData(m, page, cnt)
    ensures PageFrame(m.ram, m.dir, page).Some? && page < WINDOW_PAGE && (page < KERNEL_PAGE ==> m.dir in m.uheap)
  {
    assert PageIsData(m, page);
  }

  lemma RunIsZeroMore(ram: Ram, dir: nat, page: nat, cnt: nat, f: nat)
    requires cnt > 0 && RunIsZero(ram, dir, page + 1, cnt - 1) && PageFrame(ram, dir, page) == Some(f)
    requires forall i: nat :: i < 1024 ==> Read(ram, Word(f, i)) == 0
    ensures RunIsZero(ram, dir, page, cnt)
  {
    hide PageFrame;
  }

  /** memset clears the new pages and changes no mapping. */
  lemma {:induction false} ZeroRunKeepsInv(m: Mem, page: nat, cnt: nat)
    requires MemInv(m, {}) && RunIsData(m, page, cnt)
    ensures var m' := m.(ram := ZeroRun(m.ram, m.dir, page, cnt));
            MemInv(m', {}) && Kept(m, m') && RunIsZero(m'.ram, m.dir, page, cnt)
    decreases cnt
  {
    hide PageFrame, MemInv, Zeroed, Kept, RunIsData, Walk, RunIsZero;
    KeptReflexive(m);
    EmptyRunIsZero(m.ram, m.dir, page);
    if cnt > 0 {
      ZeroRunStep(m, page, cnt);
      FirstIsMapped(m, page, cnt);
      var f := PageFrame(m.ram, m.dir, page).value;
      var m1 := m.(ram := Zeroed(m.ram, f));
      ZeroOne(m, page, cnt);
      ZeroRunKeepsInv(m1, page + 1, cnt - 1);
      var m' := m.(ram := ZeroRun(m.ram, m.dir, page, cnt));
      KeptTransitive(m, m1, m');
      KeptMapping(m1, m', page, f);
      forall i: nat | i < 1024 ensures Read(m'.ram, Word(f, i)) == 0 { ZeroStaysZero(m1, f, i, page + 1, cnt - 1); }
      RunIsZeroMore(m'.ram, m.dir, page, cnt, f);
    }
  }

  lemma EmptyRunIsZero(ram: Ram, dir: nat, page: nat)
    ensures RunIsZero(ram, dir, page, 0)
  {
  }

  /** What a successful malloc_page leaves is data. */
  lemma MallocGivesData(m: Mem, m': Mem, page: nat, cnt: nat)
    requires MemInv(m, {}) && MemInv(m', {}) && Kept(m, m') && RunMapped(m, m', page, cnt) && cnt > 0
    ensures RunIsData(m', page, cnt)
  {
    hide PageFrame;
    forall q: nat | page <= q < page + cnt ensures PageIsData(m', q) {
      var f := PageFrame(m'.ram, m.dir, q).value;
      assert IsDir(m', f) ==> f == KDIR || f in m.own;
      assert FrameOk(m', f);
      PoolFrames(m', f);
    }
  }

  // ----- get_kernel_pages and get_user_pages

  /** A successful call: fresh zeroed pages, and all earlier allocations kept. */
  ghost predicate GotFreshPages(m: Mem, pf: Flag, cnt: nat, m': Mem, page: nat) {
    && MemInv(m', {}) && Kept(m, m') && RunMapped(m, m', page, cnt) && RunWasFree(m, pf, page, cnt)
    && RunIsData(m', page, cnt) && RunIsZero(m'.ram, m'.dir, page, cnt) && cnt > 0
  }

  ghost predicate GetOk(m: Mem, pf: Flag, cnt: nat, r: Alloc) {
    && AsForecast(m, pf, cnt, MallocForecast(m, pf, cnt), r)
    && (r.Got? && !r.m.zeroTable ==> GotFreshPages(m, pf, cnt, r.m, r.page))
  }

  lemma RunMappedKept(m: Mem, m1: Mem, m': Mem, page: nat, cnt: nat)
    requires MemInv(m1, {}) && MemInv(m', {}) && Kept(m1, m') && RunMapped(m, m1, page, cnt) && RunIsData(m1, page, cnt)
    requires m1.dir == m.dir
    ensures RunMapped(m, m', page, cnt)
  {
    hide PageFrame, MemInv;
    forall q: nat | page <= q < page + cnt
      ensures var r := PageFrame(m'.ram, m.dir, q);
              r.Some? && r.value !in m.own && r.value in m'.own && m'.own[r.value] == UseOf(m.dir, q)
    {
      assert PageIsData(m1, q);
      KeptMapping(m1, m', q, PageFrame(m1.ram, m.dir, q).value);
    }
  }

  /** get_kernel_pages and get_user_pages do what malloc_page is forecast to do, and clear the pages. */
  lemma GetPagesSafe(m: Mem, pf: Flag, cnt: nat)
    requires MemInv(m, {}) && !m.zeroTable
    ensures GetOk(m, pf, cnt, GetPages(m, pf, cnt))
    ensures pf.PfKernel? ==> !GetPages(m, pf, cnt).m.zeroTable
  {
    hide MemInv, MallocPage, Kept, RunMapped, RunWasFree, RunIsData, RunIsZero, ZeroRun, Faults, MallocForecast, Leaked;
    MallocPageSafe(m, pf, cnt);
    MallocExactly(m, pf, cnt);
    var r := MallocPage(m, pf, cnt);
    if r.Got? && !r.m.zeroTable {
      GotIsPositive(m, pf, cnt);
      MallocGivesData(m, r.m, r.page, cnt);
      ZeroRunKeepsInv(r.m, r.page, cnt);
      DataNeverFaults(r.m, r.page, cnt);
      var m' := GetPages(m, pf, cnt).m;
      KeptTransitive(m, r.m, m');
      assert r.m.dir == m.dir by { KeptDir(m, r.m); }
      RunMappedKept(m, r.m, m', r.page, cnt);
      MallocGivesData(m, m', r.page, cnt);
    }
  }

  lemma KeptDir(m: Mem, m': Mem)
    requires Kept(m, m')
    ensures m'.dir == m.dir && m'.uheap.Keys == m.uheap.Keys && Preserved(m, m')
  {
  }

  lemma GotIsPositive(m: Mem, pf: Flag, cnt: nat)
    requires MallocPage(m, pf, cnt).Got?
    ensures cnt > 0
  {
  }

  // ----- get_a_page

  /** The page is not yet mapped for the caller. */
  predicate Unmapped(m: Mem, page: nat) { PageFrame(m.ram, m.dir, page).None? }

  lemma UnmappedIsReady(m: Mem, page: nat)
    requires MemInv(m, {}) && page < WINDOW_PAGE && (if page >= KERNEL_PAGE then m.kheap.Taken(page) else m.dir in m.uheap && m.uheap[m.dir].Taken(page))
    ensures PageReady(m, page) <==> Unmapped(m, page)
  {
    hide PageFrame;
    if page >= KERNEL_PAGE {
      assert DirOk(m, m.dir);
      KernelPageFrame(m, m.dir, page);
    }
  }

  lemma MappedPageHalts(m: Mem, page: nat, f: nat)
    requires !Unmapped(m, page) && page != 0 && f != 0
    ensures PageTableAdd(m, page, f) == Halt(111)
  {
  }

  /** After get_a_page reserved the page. */
  function Marked(m: Mem, pf: Flag, page: nat): Mem
    requires HeapOf(m, pf).Holds(page)
  {
    var h := HeapOf(m, pf);
    WithHeap(m, pf, h.(used := h.used[page - h.first := true]))
  }

  /** The request is one that get_a_page accepts. */
  predicate PageRequestOk(m: Mem, pf: Flag, page: nat) {
    (pf.PfKernel? <==> m.dir == KDIR) && HeapOf(m, pf).Holds(page) && page != HeapOf(m, pf).first
  }

  lemma RequestFacts(m: Mem, pf: Flag, page: nat)
    requires MemInv(m, {}) && PageRequestOk(m, pf, page)
    ensures 0 < page < WINDOW_PAGE && (page >= KERNEL_PAGE <==> pf.PfKernel?) && (pf.PfUser? ==> m.dir in m.uheap)
  {
  }

  lemma MarkedFacts(m: Mem, pf: Flag, page: nat)
    requires MemInv(m, {}) && PageRequestOk(m, pf, page)
    ensures MemInv(Marked(m, pf, page), {}) && Kept(m, Marked(m, pf, page)) && HeapOf(Marked(m, pf, page), pf).Taken(page)
    ensures 0 < page < WINDOW_PAGE && (page >= KERNEL_PAGE <==> pf.PfKernel?) && (pf.PfUser? ==> m.dir in m.uheap)
    ensures Marked(m, pf, page).ram == m.ram && Marked(m, pf, page).zeroTable == m.zeroTable && Marked(m, pf, page).dir == m.dir
  {
    hide MemInv, Kept, LayoutOk;
    var h := HeapOf(m, pf);
    RequestFacts(m, pf, page);
    ReserveKeepsInv(m, pf, h.(used := h.used[page - h.first := true]));
  }

  /** What get_a_page will do; FailsLeaking: it returns NULL with the page reserved. */
  function PageForecast(m: Mem, pf: Flag, page: nat): Forecast {
    if pf.PfKernel? != (m.dir == KDIR) then HaltsAt(209)
    else if page == HeapOf(m, pf).first then HaltsAt(if pf.PfKernel? then 204 else 198)
    else if !HeapOf(m, pf).Holds(page) then HaltsAt(60)
    else if |FreeFrames(PoolOf(m, pf))| == 0 then FailsLeaking(page, 0)
    else if !Unmapped(m, page) then HaltsAt(111)
    else if pf.PfUser? && !Present(Read(m.ram, Word(m.dir, page / 1024))) && |FreeFrames(m.kpool)| == 0 then Short
    else Succeeds(page)
  }

  ghost predicate GetAOk(m: Mem, pf: Flag, page: nat, r: Alloc) {
    match PageForecast(m, pf, page)
    case Succeeds(p) => r.Got? && r.page == page && !r.m.zeroTable && MemInv(r.m, {}) && Kept(m, r.m) && RunMapped(m, r.m, page, 1)
    case FailsClean => false
    case FailsLeaking(_, _) => PageRequestOk(m, pf, page) && r == Null(Marked(m, pf, page)) && MemInv(r.m, {}) && Kept(m, r.m)
    case HaltsAt(line) => r.Stop? && r.line == line && !r.m.zeroTable
    case Short => r.Got? && r.page == page && r.m.zeroTable
  }

  /**
   get_a_page: what it does is decided by the request, the free frames, the mapping of the page and the
   missing tables. It maps exactly the page asked for.
   */
  lemma GetAPageSafe(m: Mem, pf: Flag, page: nat)
    requires MemInv(m, {}) && !m.zeroTable
    ensures GetAOk(m, pf, page, GetAPage(m, pf, page))
  {
    hide MemInv, Palloc, PageTableAdd, Kept, PageFrame, RunMapped, FreeFrames, TableMissing;
    if PageRequestOk(m, pf, page) {
      MarkedFacts(m, pf, page);
      NoFreeFrame(PoolOf(m, pf));
      var m1 := Marked(m, pf, page);
      var g := Palloc(PoolOf(m1, pf));
      if g.got.Some? {
        MarkedPage(m1, pf, page);
        var m2 := WithPool(m1, pf, g.pool);
        if Unmapped(m, page) {
          MapOne(m1, pf, page, 1);
          MissingExactly(m, m2, pf, page);
          var r := PageTableAdd(m2, page, g.got.value);
          if !r.m.zeroTable {
            KeptTransitive(m, m1, r.m);
            OnePageMapped(m, m1, r.m, page, g.got.value);
          }
        } else {
          TakeKeepsInv(m1, pf);
          FrameNotZero(m1, pf);
          MappedPageHalts(m2, page, g.got.value);
        }
      }
    }
  }

  /** get_a_page returns NULL exactly when the pool has no free frame. */
  lemma GetANullExactly(m: Mem, pf: Flag, page: nat)
    requires !GetAPage(m, pf, page).Stop?
    ensures GetAPage(m, pf, page).Null? <==> FreeFrames(PoolOf(m, pf)) == {}
  {
    hide Palloc, PageTableAdd, FreeFrames;
    NoFreeFrame(PoolOf(m, pf));
  }

  lemma MissingExactly(m: Mem, m2: Mem, pf: Flag, page: nat)
    requires m2.ram == m.ram && m2.dir == m.dir && (pf.PfUser? ==> m2.kpool == m.kpool)
    ensures pf.PfUser? ==> (TableMissing(m2, page) <==> !Present(Read(m.ram, Word(m.dir, page / 1024))) && |FreeFrames(m.kpool)| == 0)
  {
    hide Palloc, FreeFrames, Read, Word, Present;
    NoFreeFrame(m.kpool);
  }

  lemma FrameNotZero(m: Mem, pf: Flag)
    requires MemInv(m, {}) && Palloc(PoolOf(m, pf)).got.Some?
    ensures Palloc(PoolOf(m, pf)).got.value != 0
  {
  }

  lemma OnePageMapped(m: Mem, m1: Mem, m': Mem, page: nat, f: nat)
    requires Kept(m, m1) && f !in m1.own && PageFrame(m'.ram, m1.dir, page) == Some(f) && f in m'.own && m'.own[f] == UseOf(m1.dir, page)
    ensures RunMapped(m, m', page, 1)
  {
    hide PageFrame;
  }

  lemma MarkedPage(m: Mem, pf: Flag, page: nat)
    requires MemInv(m, {}) && HeapOf(m, pf).Taken(page) && page < WINDOW_PAGE && (page >= KERNEL_PAGE <==> pf.PfKernel?)
    requires pf.PfUser? ==> m.dir in m.uheap
    ensures Unmapped(m, page) ==> RunReady(m, pf, page, 1)
  {
    UnmappedIsReady(m, page);
  }

  // ----- create_page_dir

  /** The page range of a process that has allocated nothing. */
  predicate FreshRange(up: Pool) {
    0 < up.first && up.first + |up.used| <= KERNEL_PAGE && forall i :: 0 <= i < |up.used| ==> !up.used[i]
  }

  lemma CopyReads(ram: Ram, src: nat, f: nat, g: nat, i: nat)
    requires i < 1024 && src != f
    ensures Read(CopyKernelHalf(ram, src, f), Word(g, i)) ==
            if g != f || i < 768 then Read(ram, Word(g, i))
            else if i == 1023 then Entry(f) else Read(ram, Word(src, i))
  {
    var half := Half(ram, src, f, 1023);
    if g != f || i < 768 {
      forall j | 768 <= j < 1023 ensures Word(f, j) != Word(g, i) { WordsDiffer(f, j, g, i); }
      WordsDiffer(f, 1023, g, i);
      assert Word(g, i) !in half;
    } else if i < 1023 {
      WordsDiffer(f, 1023, f, i);
      assert Word(f, i) in half;
    }
  }

  lemma CopyDiffers(ram: Ram, src: nat, f: nat)
    requires src != f
    ensures DiffersOnlyIn(ram, CopyKernelHalf(ram, src, f), f)
  {
    hide CopyKernelHalf;
    forall g: nat, i: nat | g != f && i < 1024 ensures Read(CopyKernelHalf(ram, src, f), Word(g, i)) == Read(ram, Word(g, i)) {
      CopyReads(ram, src, f, g, i);
    }
  }

  lemma EmptyDir(m: Mem, m': Mem, f: nat)
    requires m'.ram == m.ram && f != KDIR && DirOk(m, f) && (forall i: nat :: i < 768 ==> Read(m.ram, Word(f, i)) == 0)
    ensures DirOk(m', f) && LowHalfOk(m', f)
    ensures forall q: nat :: q < KERNEL_PAGE ==> PageFrame(m.ram, f, q).None?
  {
    forall q: nat | q < KERNEL_PAGE ensures PageFrame(m.ram, f, q).None? { assert q / 1024 < 768; }
  }

  /** A frame that already looks like an empty directory becomes one. */
  lemma AddDirKeepsInv(m: Mem, f: nat, up: Pool)
    requires MemInv(m, {}) && DataFrame(m, f) && m.own[f].KPage? && FreshRange(up) && DirOk(m, f)
    requires forall i: nat :: i < 768 ==> Read(m.ram, Word(f, i)) == 0
    ensures MemInv(m.(uheap := m.uheap[f := up]), {}) && Preserved(m, m.(uheap := m.uheap[f := up]))
  {
    hide PageFrame, KernelWord, Present, Read, Word;
    var m' := m.(uheap := m.uheap[f := up]);
    EmptyDir(m, m', f);
    forall d | IsDir(m', d) ensures DirOk(m', d) && LowHalfOk(m', d) {
      if d != f { assert DirOk(m, d) && LowHalfOk(m, d); }
    }
    forall q: nat | KERNEL_PAGE <= q ensures KernelPageOk(m', q) { assert KernelPageOk(m, q); }
    forall d, q: nat | d in m'.uheap ensures UserPageOk(m', d, q) {
      if d != f { assert UserPageOk(m, d, q); }
    }
    forall x | x in m'.own ensures FrameOk(m', x) { assert FrameOk(m, x); }
  }

  /** A zeroed data frame turned into a directory: the new address space shares the kernel half and maps nothing else. */
  lemma NewDirKeepsInv(m: Mem, f: nat, up: Pool)
    requires MemInv(m, {}) && DataFrame(m, f) && m.own[f].KPage? && FreshRange(up)
    requires forall i: nat :: i < 1024 ==> Read(m.ram, Word(f, i)) == 0
    ensures var m' := m.(ram := CopyKernelHalf(m.ram, m.dir, f), uheap := m.uheap[f := up]);
            MemInv(m', {}) && Preserved(m, m') && DirOk(m', f) && EmptyUserHalf(m', f)
  {
    hide CopyKernelHalf, MemInv, Preserved, PageFrame;
    NewDirReads(m, f);
    NewDirEmpty(CopyKernelHalf(m.ram, m.dir, f), f);
    CopyDiffers(m.ram, m.dir, f);
    var m1 := m.(ram := CopyKernelHalf(m.ram, m.dir, f));
    DataWriteKeepsInv(m, m1.ram, f);
    AddDirKeepsInv(m1, f, up);
    PreservedTransitive(m, m1, m1.(uheap := m.uheap[f := up]));
  }

  /** No page below the kernel half is mapped. */
  ghost predicate EmptyUserHalf(m: Mem, d: nat) { forall q: nat :: q < KERNEL_PAGE ==> PageFrame(m.ram, d, q).None? }

  lemma NewDirEmpty(ram: Ram, f: nat)
    requires forall i: nat :: i < 768 ==> Read(ram, Word(f, i)) == 0
    ensures forall q: nat :: q < KERNEL_PAGE ==> PageFrame(ram, f, q).None?
  {
    forall q: nat | q < KERNEL_PAGE ensures PageFrame(ram, f, q).None? { assert q / 1024 < 768; }
  }

  lemma NewDirReads(m: Mem, f: nat)
    requires MemInv(m, {}) && DataFrame(m, f)
    requires forall i: nat :: i < 1024 ==> Read(m.ram, Word(f, i)) == 0
    ensures m.dir != f && DirOk(m.(ram := CopyKernelHalf(m.ram, m.dir, f)), f)
    ensures forall i: nat :: i < 768 ==> Read(CopyKernelHalf(m.ram, m.dir, f), Word(f, i)) == 0
  {
    hide CopyKernelHalf;
    assert DirOk(m, m.dir);
    forall i: nat | i < 1024
      ensures Read(CopyKernelHalf(m.ram, m.dir, f), Word(f, i)) ==
              if i < 768 then 0 else if i == 1023 then Entry(f) else Entry(KTABLE + i - 768)
    {
      CopyReads(m.ram, m.dir, f, f, i);
    }
  }

  ghost predicate CreateOk(m: Mem, up: Pool, r: Alloc) {
    match MallocForecast(m, PfKernel, 1)
    case Succeeds(page) => r.Got? && r.page == page && NewSpace(m, up, r.m, page)
    case FailsClean => r == Null(m)
    case FailsLeaking(_, _) => r.Null? && MemInv(r.m, {}) && Preserved(m, r.m) && !r.m.zeroTable
    case HaltsAt(line) => r.Stop? && r.line == line
    case Short => false
  }

  /** The page holds a new directory, on a fresh frame, that maps nothing below the kernel half; its process owns the pages of `up`. */
  ghost predicate NewSpace(m: Mem, up: Pool, m': Mem, page: nat) {
    && MemInv(m', {}) && Preserved(m, m') && !m'.zeroTable && m'.dir == m.dir && page < WINDOW_PAGE
    && PageFrame(m'.ram, m'.dir, page).Some?
    && var d := PageFrame(m'.ram, m'.dir, page).value;
       d !in m.own && m'.uheap == m.uheap[d := up] && DirOk(m', d) && EmptyUserHalf(m', d)
  }

  /** create_page_dir: a new, empty address space that sees the kernel half like every other. */
  lemma CreatePageDirSafe(m: Mem, up: Pool)
    requires MemInv(m, {}) && !m.zeroTable && FreshRange(up)
    ensures CreateOk(m, up, CreatePageDir(m, up))
  {
    hide MemInv, GetPages, Preserved, CopyKernelHalf, PageFrame, AddrV2P, Walk, RunIsZero, RunMapped, RunWasFree, DirOk,
         MallocForecast, Leaked, EmptyUserHalf;
    GetPagesSafe(m, PfKernel, 1);
    OneKernelPage(m);
    var r := GetPages(m, PfKernel, 1);
    match r
    case Stop(m', line) =>
    case Null(m') =>
    case Got(m1, page) =>
      var f := NewDirFrame(m, m1, page);
      GetKeepsProcesses(m, page, m1);
      NewDirKeepsInv(m1, f, up);
      var m' := m1.(ram := CopyKernelHalf(m1.ram, m1.dir, f), uheap := m1.uheap[f := up]);
      PreservedTransitive(m, m1, m');
      PreservedMapping(m1, m', page, f);
      assert CreatePageDir(m, up) == Got(m', page);
  }

  /** A request for one kernel page is never short of page tables. */
  lemma OneKernelPage(m: Mem)
    ensures !MallocForecast(m, PfKernel, 1).Short?
  {
    hide FreeFrames, Find;
  }

  /** get_kernel_pages leaves the processes' page ranges alone. */
  lemma GetKeepsProcesses(m: Mem, page: nat, m': Mem)
    requires GetPages(m, PfKernel, 1) == Got(m', page)
    ensures m'.uheap == m.uheap && m'.dir == m.dir
  {
    hide MapRun, Find, ZeroRun, Faults;
    var v := VaddrGet(m, PfKernel, 1);
    if v.page.Some? { LoopKeepsHeaps(v.m, PfKernel, v.page.value, 1); } else { LoopKeepsHeaps(v.m, PfKernel, 0, 1); }
  }

  lemma PreservedTransitive(m: Mem, m1: Mem, m2: Mem)
    requires Preserved(m, m1) && Preserved(m1, m2)
    ensures Preserved(m, m2)
  {
    hide PageFrame;
  }

  lemma PreservedMapping(m: Mem, m': Mem, q: nat, f: nat)
    requires MemInv(m, {}) && MemInv(m', {}) && Preserved(m, m') && m'.dir == m.dir && PageFrame(m.ram, m.dir, q) == Some(f)
    requires KERNEL_PAGE <= q < WINDOW_PAGE
    ensures PageFrame(m'.ram, m.dir, q) == Some(f)
  {
    hide PageFrame;
    assert DirOk(m, m.dir) && DirOk(m', m.dir);
    KernelPageFrame(m, m.dir, q);
    KernelPageFrame(m', m.dir, q);
  }

  /** The frame of the page that get_kernel_pages(1) returned. */
  lemma NewDirFrame(m: Mem, m1: Mem, page: nat) returns (f: nat)
    requires MemInv(m1, {}) && RunIsData(m1, page, 1) && RunIsZero(m1.ram, m1.dir, page, 1)
    requires Kept(m, m1) && RunMapped(m, m1, page, 1) && RunWasFree(m, PfKernel, page, 1)
    ensures PageFrame(m1.ram, m1.dir, page) == Some(f) && DataFrame(m1, f) && m1.own[f].KPage? && f !in m.own
    ensures AddrV2P(m1.ram, m1.dir, 4096 * page) == Some(4096 * f) && (4096 * f) / 4096 == f
    ensures (forall i: nat :: i < 1024 ==> Read(m1.ram, Word(f, i)) == 0) && KERNEL_PAGE <= page < WINDOW_PAGE
  {
    hide PageFrame, AddrV2P, Walk;
    assert PageIsData(m1, page) && PageWasFree(m, PfKernel, page);
    f := PageFrame(m1.ram, m1.dir, page).value;
    PageWalk(m1.ram, m1.dir, page);
    assert DirOk(m1, m1.dir);
    assert 4096 * page < VA_END;
    AddrV2PAgreesWithWalk(m1.ram, m1.dir, 4096 * page);
  }
}
