/**
 The kernel heap as the kernel uses it: when only get_kernel_pages draws on the
 kernel pool, both bitmaps stay prefixes of the same length and page k of the heap lies
 on frame k of the pool.
 */
module LinearHeap {
  import opened Options
  import opened Paging
  import opened Bitmaps
  import opened Memory
  import opened MemorySafety
  import opened Mapping
  import opened Allocation
  import opened MallocSafety
  import opened Outcomes
  import opened MemoryRuns
  import opened MemoryTheorems

  /** Exactly the first n bits are set. */
  predicate Prefix(bits: seq<bool>, n: nat) {
    n <= |bits| && forall i :: 0 <= i < |bits| ==> (bits[i] <==> i < n)
  }

  /** On a prefix, first fit continues where the prefix ends. */
  lemma FindAfterPrefix(bits: seq<bool>, n: nat, cnt: nat)
    requires Prefix(bits, n) && cnt > 0
    ensures Find(bits, cnt) == if n + cnt <= |bits| then Some(n) else None
    ensures n + cnt <= |bits| ==> Prefix(SetRun(bits, n, cnt), n + cnt)
  {
    forall j: nat | j < n ensures !FreeRun(bits, j, cnt) {
      assert bits[j];
    }
    assert n + cnt <= |bits| ==> FreeRun(bits, n, cnt);
  }

  /** Page k of the heap lies on frame k of the pool. */
  predicate OnFrame(m: Mem, k: nat) { Read(m.ram, KernelWord(HEAP_PAGE + k)) == Entry(m.kpool.first + k) }

  /** In the loop of malloc_page: `done` pages are mapped of the n that are reserved. */
  ghost predicate Filling(m: Mem, done: nat, n: nat, total: nat) {
    && MemInv(m, {}) && !m.zeroTable && done <= n
    && |m.kheap.used| == |m.kpool.used| == total
    && Prefix(m.kheap.used, n) && Prefix(m.kpool.used, done)
    && (forall k: nat :: k < done ==> OnFrame(m, k))
  }

  /** The heap of `total` pages has handed out n of them, page k on frame k. */
  ghost predicate Linear(m: Mem, n: nat, total: nat) { Filling(m, n, n, total) }

  lemma PallocAfterPrefix(p: Pool, n: nat)
    requires Prefix(p.used, n) && n < |p.used|
    ensures Palloc(p).got == Some(p.first + n) && Prefix(Palloc(p).pool.used, n + 1) && Palloc(p).pool.first == p.first
    ensures |Palloc(p).pool.used| == |p.used|
  {
    FindAfterPrefix(p.used, n, 1);
  }

  /** PageTableAdd of a kernel page leaves the pools and bitmaps alone. */
  lemma KernelAddKeepsPools(m: Mem, p: nat, f: nat)
    requires AddReady(m, p, f) && p >= KERNEL_PAGE
    ensures PageTableAdd(m, p, f).Ok?
    ensures var m' := PageTableAdd(m, p, f).m; m'.kpool == m.kpool && m'.kheap == m.kheap && m'.uheap == m.uheap && m'.dir == m.dir
    ensures Read(PageTableAdd(m, p, f).m.ram, KernelWord(p)) == Entry(f)
  {
    hide MemInv, MapChange;
    KernelPagePresent(m, p, f);
    AddKernelPage(m, p, f);
  }

  lemma FillOne(m: Mem, done: nat, n: nat, total: nat)
    requires Filling(m, done, n, total) && done < n && RunReady(m, PfKernel, HEAP_PAGE + done, n - done)
    ensures var g := Palloc(m.kpool);
            g.got.Some? &&
            var r := PageTableAdd(WithPool(m, PfKernel, g.pool), HEAP_PAGE + done, g.got.value);
            r.Ok? && Filling(r.m, done + 1, n, total) && RunReady(r.m, PfKernel, HEAP_PAGE + (done + 1), n - (done + 1))
  {
    hide MemInv, Palloc, PageTableAdd, TableMissing, PageFrame, RunReady, PageReady, OnFrame;
    var page := HEAP_PAGE + done;
    PallocAfterPrefix(m.kpool, done);
    var g := Palloc(m.kpool);
    var m1 := WithPool(m, PfKernel, g.pool);
    MapOne(m, PfKernel, page, n - done);
    TakeKeepsInv(m, PfKernel);
    FirstReady(m, m1, page, n - done);
    KernelAddKeepsPools(m1, page, g.got.value);
    var m2 := PageTableAdd(m1, page, g.got.value).m;
    forall k: nat | k < done + 1 ensures OnFrame(m2, k) {
      if k < done { HeapPageBound(m, k); FrameStays(m, m2, k); } else { NewOnFrame(m2, k); }
    }
  }

  lemma NewOnFrame(m: Mem, k: nat)
    requires Read(m.ram, KernelWord(HEAP_PAGE + k)) == Entry(m.kpool.first + k)
    ensures OnFrame(m, k)
  {
  }

  lemma FrameStays(m: Mem, m': Mem, k: nat)
    requires OnFrame(m, k) && Kept(m, m') && m'.kpool.first == m.kpool.first && HEAP_PAGE + k < WINDOW_PAGE
    ensures OnFrame(m', k)
  {
    hide PageFrame;
  }

  lemma HeapPageBound(m: Mem, k: nat)
    requires MemInv(m, {}) && k < |m.kheap.used|
    ensures KERNEL_PAGE <= HEAP_PAGE + k < WINDOW_PAGE
  {
  }

  lemma FirstReady(m: Mem, m1: Mem, page: nat, cnt: nat)
    requires RunReady(m, PfKernel, page, cnt) && cnt > 0 && m1.ram == m.ram && m1.kheap == m.kheap && m1.dir == m.dir && m1.uheap == m.uheap
    ensures PageReady(m1, page) && page >= KERNEL_PAGE
  {
    assert PageReady(m, page);
  }

  lemma {:induction false} FillRun(m: Mem, done: nat, n: nat, total: nat)
    requires Filling(m, done, n, total) && RunReady(m, PfKernel, HEAP_PAGE + done, n - done)
    ensures MapRun(m, PfKernel, HEAP_PAGE + done, n - done).Mapped?
    ensures Filling(MapRun(m, PfKernel, HEAP_PAGE + done, n - done).m, n, n, total)
    decreases n - done
  {
    hide Filling, RunReady, Palloc, PageTableAdd;
    FillingBound(m, done, n, total);
    if done < n {
      FillOne(m, done, n, total);
      var g := Palloc(m.kpool);
      var m1 := WithPool(m, PfKernel, g.pool);
      FillRun(PageTableAdd(m1, HEAP_PAGE + done, g.got.value).m, done + 1, n, total);
    }
  }

  lemma FillingBound(m: Mem, done: nat, n: nat, total: nat)
    requires Filling(m, done, n, total)
    ensures done <= n
  {
  }

  /** malloc_page(PF_KERNEL, cnt) on a linear heap: succeeds exactly when cnt more pages fit, and stays linear. */
  lemma LinearMalloc(m: Mem, n: nat, cnt: nat, total: nat)
    requires Linear(m, n, total) && 0 < cnt < 3840
    ensures var r := MallocPage(m, PfKernel, cnt);
            if n + cnt <= total then r.Got? && r.page == HEAP_PAGE + n && Linear(r.m, n + cnt, total)
            else if n == total then r == Null(m)
            else r == Stop(m, 101)
  {
    hide MemInv, MapRun, RunReady, Palloc, OnFrame, Find;
    FindAfterPrefix(m.kheap.used, n, cnt);
    HeapFirst(m);
    if n + cnt <= total {
      VaddrGetReserves(m, PfKernel, cnt);
      var v := VaddrGet(m, PfKernel, cnt);
      assert v.page == Some(HEAP_PAGE + n);
      forall k: nat | k < n ensures OnFrame(v.m, k) { assert OnFrame(m, k); SameOnFrame(m, v.m, k); }
      assert Filling(v.m, n, n + cnt, total);
      FillRun(v.m, n, n + cnt, total);
    } else {
      MapNothing(m, PfKernel, cnt);
      if n < total { PallocAfterPrefix(m.kpool, n); } else { PoolIsFull(m.kpool); }
    }
  }

  lemma SameOnFrame(m: Mem, m': Mem, k: nat)
    requires OnFrame(m, k) && m'.ram == m.ram && m'.kpool == m.kpool
    ensures OnFrame(m', k)
  {
  }

  lemma PoolIsFull(p: Pool)
    requires Prefix(p.used, |p.used|)
    ensures Palloc(p).got.None?
  {
    FindAfterPrefix(p.used, |p.used|, 1);
  }

  lemma HeapFirst(m: Mem)
    requires MemInv(m, {})
    ensures m.kheap.first == HEAP_PAGE && m.kpool.first == 0x200
  {
  }

  /** get_kernel_pages on a linear heap: it succeeds exactly when cnt more pages fit, and no palloc fails on the way. */
  lemma LinearGetPages(m: Mem, n: nat, cnt: nat, total: nat)
    requires Linear(m, n, total) && 0 < cnt < 3840
    ensures var r := GetPages(m, PfKernel, cnt);
            if n + cnt <= total then r.Got? && r.page == HEAP_PAGE + n && Linear(r.m, n + cnt, total)
            else if n == total then r == Null(m)
            else r == Stop(m, 101)
  {
    hide MemInv, MallocPage, ZeroRun, Faults, RunMapped, Kept, RunIsData, RunIsZero, RunWasFree, Prefix, OnFrame;
    LinearMalloc(m, n, cnt, total);
    if n + cnt <= total {
      var r := MallocPage(m, PfKernel, cnt);
      MallocPageSafe(m, PfKernel, cnt);
      MallocGivesData(m, r.m, r.page, cnt);
      ZeroRunKeepsInv(r.m, r.page, cnt);
      DataNeverFaults(r.m, r.page, cnt);
      ZeroKeepsLinear(r.m, GetPages(m, PfKernel, cnt).m, n + cnt, total);
    }
  }

  lemma ZeroKeepsLinear(m: Mem, m': Mem, n: nat, total: nat)
    requires Linear(m, n, total) && MemInv(m', {}) && Kept(m, m') && m' == m.(ram := m'.ram)
    ensures Linear(m', n, total)
  {
    hide MemInv, Kept, OnFrame;
    forall k: nat | k < n ensures OnFrame(m', k) {
      HeapPageBound(m, k);
      FrameStays(m, m', k);
    }
  }

  // ----- whole runs in which only get_kernel_pages draws on the kernel pool

  /** A bump pointer over `total` pages: the pages handed out after the requests, or None where one of them halts. */
  function Bump(n: nat, cnts: seq<nat>, total: nat): Option<nat>
    decreases |cnts|
  {
    if cnts == [] then Some(n)
    else if !(0 < cnts[0] < 3840) then None
    else if n + cnts[0] <= total then Bump(n + cnts[0], cnts[1..], total)
    else if n == total then Bump(n, cnts[1..], total)
    else None
  }

  /** The kernel pages that a call asks get_kernel_pages for; create_page_dir asks for one. */
  function Request(c: Call): seq<nat> {
    match c
    case Pages(PfKernel, cnt) => [cnt]
    case NewDir(_) => [1]
    case _ => []
  }

  function Requests(cs: seq<Call>): seq<nat> { if cs == [] then [] else Request(cs[0]) + Requests(cs[1..]) }

  predicate UserCall(c: Call) { (c.Pages? || c.PageAt?) && c.pf.PfUser? }

  /** The call draws no page table, and kernel pages only by get_kernel_pages. */
  predicate HeapCall(m: Mem, c: Call) {
    match c
    case Pages(PfUser, cnt) =>
      (match Take(UserHeap(m), cnt).got
       case None => true
       case Some(page) => NeededTables(m.ram, m.dir, page, Min(cnt, |FreeFrames(m.upool)|)) == {})
    case PageAt(PfUser, page) => Present(Read(m.ram, Word(m.dir, page / 1024)))
    case PageAt(PfKernel, _) => false
    case _ => true
  }

  ghost predicate HeapCalls(m: Mem, cs: seq<Call>)
    requires Calls(m, cs)
    decreases |cs|
  {
    cs == [] || (HeapCall(m, cs[0]) && HeapCalls(Do(m, cs[0]).m, cs[1..]))
  }

  /** The heap stays linear under anything that keeps the invariant, the mappings and the kernel's bitmaps. */
  lemma LinearFrom(m: Mem, m': Mem, n: nat, total: nat)
    requires Linear(m, n, total) && MemInv(m', {}) && !m'.zeroTable && Preserved(m, m') && m'.kheap == m.kheap && m'.kpool == m.kpool
    ensures Linear(m', n, total)
  {
    hide MemInv, PageFrame;
    forall k: nat | k < n ensures OnFrame(m', k) {
      assert OnFrame(m, k);
      HeapPageBound(m, k);
    }
  }

  /** A run of user pages whose tables exist leaves the kernel pool alone. */
  lemma {:induction false} LoopKeepsKernelPool(m: Mem, page: nat, cnt: nat)
    requires MemInv(m, {}) && !m.zeroTable && RunReady(m, PfUser, page, cnt)
    requires NeededTables(m.ram, m.dir, page, Min(cnt, |FreeFrames(m.upool)|)) == {}
    ensures MapRun(m, PfUser, page, cnt).m.kpool == m.kpool
    decreases cnt
  {
    hide Palloc, PageFrame, MemInv, PageTableAdd, FreeFrames, NeededTables, Read, Word, Present, RunReady, Kept;
    NoFreeFrame(m.upool);
    if cnt > 0 {
      var g := Palloc(m.upool);
      if g.got.Some? {
        var m1 := WithPool(m, PfUser, g.pool);
        NeededAt(m.ram, m.dir, page, Min(cnt, |FreeFrames(m.upool)|), page / 1024);
        FirstTable(page, Min(cnt, |FreeFrames(m.upool)|));
        PresentNeedsNoTable(m1, page, g.got.value);
        MapOne(m, PfUser, page, cnt);
        TurnCounts(m, PfUser, page, cnt);
        LoopKeepsKernelPool(PageTableAdd(m1, page, g.got.value).m, page + 1, cnt - 1);
      }
    }
  }

  lemma PresentNeedsNoTable(m: Mem, page: nat, f: nat)
    requires Present(Read(m.ram, Word(m.dir, page / 1024)))
    ensures !TableMissing(m, page)
    ensures PageTableAdd(m, page, f).Ok? ==> PageTableAdd(m, page, f).m.kpool == m.kpool
  {
    hide Palloc, Zeroed;
  }

  lemma UserPagesKeepKernel(m: Mem, cnt: nat)
    requires MemInv(m, {}) && !m.zeroTable && HeapCall(m, Pages(PfUser, cnt)) && !GetPages(m, PfUser, cnt).Stop?
    ensures var m' := GetPages(m, PfUser, cnt).m; m'.kpool == m.kpool && m'.kheap == m.kheap
  {
    hide MemInv, MapRun, PageFrame, Kept, VaddrGet, Palloc, FreeFrames, NeededTables, Find, ZeroRun, Faults;
    VaddrGetFinds(m, PfUser, cnt);
    var v := VaddrGet(m, PfUser, cnt);
    VaddrGetReserves(m, PfUser, cnt);
    if v.page.Some? {
      LoopKeepsKernelPool(v.m, v.page.value, cnt);
      LoopKeepsHeaps(v.m, PfUser, v.page.value, cnt);
    } else {
      MapNothing(m, PfUser, cnt);
    }
  }

  lemma UserPageKeepsKernel(m: Mem, page: nat)
    requires HeapCall(m, PageAt(PfUser, page)) && !GetAPage(m, PfUser, page).Stop?
    ensures var m' := GetAPage(m, PfUser, page).m; m'.kpool == m.kpool && m'.kheap == m.kheap
  {
    hide Palloc, PageTableAdd;
    var m1 := Marked(m, PfUser, page);
    var g := Palloc(PoolOf(m1, PfUser));
    if g.got.Some? {
      PresentNeedsNoTable(WithPool(m1, PfUser, g.pool), page, g.got.value);
      AddKeepsHeaps(WithPool(m1, PfUser, g.pool), page, g.got.value);
    }
  }

  /** create_page_dir draws one page by get_kernel_pages and leaves the kernel's bitmaps as that call does. */
  lemma NewDirDrawsOne(m: Mem, up: Pool)
    requires GetPages(m, PfKernel, 1).Got? && CreatePageDir(m, up).Got?
    ensures var m' := CreatePageDir(m, up).m; var m1 := GetPages(m, PfKernel, 1).m;
            m'.kpool == m1.kpool && m'.kheap == m1.kheap
    ensures CreatePageDir(m, up).page == GetPages(m, PfKernel, 1).page
  {
    hide GetPages, CopyKernelHalf, AddrV2P;
  }

  /** The number of pages handed out after a call that does not halt. */
  lemma HeapCallKeepsLinear(m: Mem, c: Call, n: nat, total: nat)
    requires Linear(m, n, total) && CallOk(m, c) && !ShortOfTables(m, c) && HeapCall(m, c)
    ensures Bump(n, Request(c), total).None? ==> Do(m, c).Stop?
    ensures Do(m, c).Stop? && !UserCall(c) ==> Bump(n, Request(c), total).None?
    ensures !Do(m, c).Stop? ==> Linear(Do(m, c).m, Bump(n, Request(c), total).value, total)
  {
    hide MemInv, GetPages, GetAPage, CreatePageDir, Preserved, FreeFrames, NeededTables, Prefix, OnFrame, MallocForecast, PageForecast,
         DataFrame, IsDir, FreshRange;
    if !Do(m, c).Stop? { CallKeepsInv(m, c); }
    match c
    case Pages(PfKernel, cnt) =>
      assert Request(c)[1..] == [] && Do(m, c) == GetPages(m, PfKernel, cnt);
      OneRequest(n, cnt, total);
      if 0 < cnt < 3840 { LinearGetPages(m, n, cnt, total); } else { BadCountStops(m, cnt); }
    case Pages(PfUser, cnt) => if !Do(m, c).Stop? { UserPagesKeepKernel(m, cnt); LinearFrom(m, Do(m, c).m, n, total); }
    case PageAt(_, page) => if !Do(m, c).Stop? { UserPageKeepsKernel(m, page); LinearFrom(m, Do(m, c).m, n, total); }
    case NewDir(up) => NewDirKeepsLinear(m, up, n, total);
    case Activate(_) => LinearFrom(m, Do(m, c).m, n, total);
    case Write(_, _, _) => LinearFrom(m, Do(m, c).m, n, total);
  }

  lemma OneRequest(n: nat, cnt: nat, total: nat)
    ensures Bump(n, [cnt], total) ==
            if !(0 < cnt < 3840) then None else if n + cnt <= total then Some(n + cnt) else if n == total then Some(n) else None
  {
    assert [cnt][1..] == [];
  }

  lemma NewDirKeepsLinear(m: Mem, up: Pool, n: nat, total: nat)
    requires Linear(m, n, total) && FreshRange(up)
    ensures !CreatePageDir(m, up).Stop? && Bump(n, [1], total).Some?
    ensures Linear(CreatePageDir(m, up).m, Bump(n, [1], total).value, total)
  {
    hide MemInv, GetPages, CreatePageDir, Preserved, FreeFrames, Prefix, OnFrame, FreshRange, DirOk, EmptyUserHalf, PageFrame, Find, Leaked;
    LinearGetPages(m, n, 1, total);
    GetPagesSafe(m, PfKernel, 1);
    CreatePageDirSafe(m, up);
    OneKernelPage(m);
    assert [1][1..] == [];
    LinearBound(m, n, total);
    NewDirOutcome(m, up);
    if n + 1 <= total {
      NewDirDrawsOne(m, up);
      NewDirMappings(m, up, n, total);
    }
  }

  lemma LinearBound(m: Mem, n: nat, total: nat)
    requires Linear(m, n, total)
    ensures n <= total
  {
  }

  lemma NewDirOutcome(m: Mem, up: Pool)
    ensures GetPages(m, PfKernel, 1).Null? ==> CreatePageDir(m, up) == GetPages(m, PfKernel, 1)
    ensures GetPages(m, PfKernel, 1).Got? ==> !CreatePageDir(m, up).Stop?
  {
    hide GetPages, AddrV2P, CopyKernelHalf;
  }

  lemma NewDirMappings(m: Mem, up: Pool, n: nat, total: nat)
    requires Linear(m, n, total) && FreshRange(up) && GetPages(m, PfKernel, 1).Got? && CreatePageDir(m, up).Got?
    requires Linear(GetPages(m, PfKernel, 1).m, n + 1, total)
    requires MemInv(CreatePageDir(m, up).m, {}) && !CreatePageDir(m, up).m.zeroTable
    requires var m' := CreatePageDir(m, up).m; var m1 := GetPages(m, PfKernel, 1).m; m'.kpool == m1.kpool && m'.kheap == m1.kheap
    ensures Linear(CreatePageDir(m, up).m, n + 1, total)
  {
    hide MemInv, GetPages, Preserved, Prefix, OnFrame, CopyKernelHalf, PageFrame, AddrV2P, MallocForecast, RunMapped, RunWasFree, RunIsZero,
         RunIsData, DirOk, Kept, EmptyUserHalf, DataFrame;
    GetPagesSafe(m, PfKernel, 1);
    var r := GetPages(m, PfKernel, 1);
    var f := NewDirFrame(m, r.m, r.page);
    NewDirKeepsInv(r.m, f, up);
    LinearFrom(r.m, CreatePageDir(m, up).m, n + 1, total);
  }

  lemma BadCountStops(m: Mem, cnt: nat)
    requires !(0 < cnt < 3840)
    ensures GetPages(m, PfKernel, cnt) == Stop(m, 132)
  {
  }

  lemma {:induction false} BumpAppend(n: nat, a: seq<nat>, b: seq<nat>, total: nat)
    ensures Bump(n, a + b, total) == if Bump(n, a, total).Some? then Bump(Bump(n, a, total).value, b, total) else None
    decreases |a|
  {
    if a == [] {
      assert a + b == b;
    } else {
      assert (a + b)[1..] == a[1..] + b;
      BumpAppend(n + a[0], a[1..], b, total);
      BumpAppend(n, a[1..], b, total);
    }
  }

  /**
   In every run in which only get_kernel_pages draws on the kernel pool, whatever else is called, written
   or activated, the kernel heap is a bump pointer: the heap stays linear, and the run goes through as
   long as the bump pointer does; it is halted by a kernel request exactly where the bump pointer says.
   */
  lemma {:induction false} HeapIsBumpPointer(m: Mem, cs: seq<Call>, n: nat, total: nat)
    requires Linear(m, n, total) && Calls(m, cs) && NeverShort(m, cs) && HeapCalls(m, cs)
    ensures Bump(n, Requests(cs), total).None? ==> Halts(m, cs)
    ensures Halts(m, cs) && !UserCall(cs[|cs| - 1]) ==> Bump(n, Requests(cs), total).None?
    ensures !Halts(m, cs) ==> Linear(After(m, cs), Bump(n, Requests(cs), total).value, total)
    decreases |cs|
  {
    hide Linear, Do, CallOk, ShortOfTables, HeapCall, Request;
    if cs != [] {
      HeapCallKeepsLinear(m, cs[0], n, total);
      BumpAppend(n, Request(cs[0]), Requests(cs[1..]), total);
      if !Do(m, cs[0]).Stop? {
        HeapIsBumpPointer(Do(m, cs[0]).m, cs[1..], Bump(n, Request(cs[0]), total).value, total);
      } else {
        assert cs == [cs[0]];
        assert Requests(cs[1..]) == [];
      }
    }
  }

  /** addr_v2p on a linear heap. */
  lemma HeapAddressIsLinear(m: Mem, n: nat, total: nat, k: nat)
    requires Linear(m, n, total) && k < n
    ensures AddrV2P(m.ram, m.dir, 0xc010_0000 + 4096 * k) == Some(4096 * m.kpool.first + 4096 * k)
  {
    hide AddrV2P, Walk, PageFrame;
    var q := HEAP_PAGE + k;
    HeapPageBound(m, k);
    assert DirOk(m, m.dir) && OnFrame(m, k);
    KernelPageFrame(m, m.dir, q);
    PageWalk(m.ram, m.dir, q);
    assert 4096 * q == 0xc010_0000 + 4096 * k;
    AddrV2PAgreesWithWalk(m.ram, m.dir, 4096 * q);
  }
}
