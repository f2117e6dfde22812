/**
 When the calls of kernel/memory.c succeed, fail or halt, in terms of what a caller could look up
 before the call: free frames, free runs of pages, and page tables that are missing.
 */
module Outcomes {
  import opened Options
  import opened Paging
  import opened Memory
  import opened MemorySafety
  import opened Mapping
  import opened Allocation
  import opened MallocSafety

  /** The frames of a pool that are not handed out. */
  function FreeFrames(p: Pool): set<nat> { set n | p.first <= n < p.first + |p.used| && !p.Taken(n) }

  /** The directory entries of pages [page, page + cnt) that hold no page table. */
  function NeededTables(ram: Ram, dir: nat, page: nat, cnt: nat): set<nat> {
    set i | page / 1024 <= i < page / 1024 + cnt && InTable(page, cnt, i) && !Present(Read(ram, Word(dir, i)))
  }

  /** Entry i of a directory covers a page of [page, page + cnt). */
  predicate InTable(page: nat, cnt: nat, i: nat) { cnt > 0 && page / 1024 <= i <= (page + cnt - 1) / 1024 }

  function Min(a: nat, b: nat): nat { if a < b then a else b }

  /** A run of user pages needs more page tables, on the pages it reaches, than the kernel pool has frames. */
  predicate RunIsShort(m: Mem, pf: Flag, page: nat, cnt: nat) {
    pf.PfUser? && |NeededTables(m.ram, m.dir, page, Min(cnt, |FreeFrames(m.upool)|))| > |FreeFrames(m.kpool)|
  }

  // ----- counting frames

  lemma NoFreeFrame(p: Pool)
    ensures Palloc(p).got.None? <==> FreeFrames(p) == {}
    ensures Palloc(p).got.None? <==> |FreeFrames(p)| == 0
  {
    hide Palloc;
    PallocTakes(p);
    if Palloc(p).got.Some? { assert Palloc(p).got.value in FreeFrames(p); }
  }

  /** The free frames after one more frame is taken. */
  lemma OneTaken(p: Pool, p': Pool, f: nat)
    requires p'.first == p.first && |p'.used| == |p.used| && f in FreeFrames(p)
    requires forall n: nat :: p'.Taken(n) <==> p.Taken(n) || n == f
    ensures FreeFrames(p') == FreeFrames(p) - {f} && |FreeFrames(p')| == |FreeFrames(p)| - 1
  {
    assert FreeFrames(p') == FreeFrames(p) - {f};
  }

  lemma SameTaken(p: Pool, p': Pool)
    requires p'.first == p.first && |p'.used| == |p.used| && forall n: nat :: p'.Taken(n) <==> p.Taken(n)
    ensures FreeFrames(p') == FreeFrames(p)
  {
  }

  lemma PallocCounts(p: Pool)
    requires Palloc(p).got.Some?
    ensures Palloc(p).got.value in FreeFrames(p)
    ensures |FreeFrames(Palloc(p).pool)| == |FreeFrames(p)| - 1
  {
    hide Palloc;
    PallocTakes(p);
    OneTaken(p, Palloc(p).pool, Palloc(p).got.value);
  }

  // ----- counting page tables

  /** One page further, the table of the first page is not needed any more. */
  lemma NeededStep(ram: Ram, ram': Ram, dir: nat, page: nat, cnt: nat, tf: Option<nat>)
    requires cnt > 0 && page + cnt <= KERNEL_PAGE
    requires tf.Some? <==> !Present(Read(ram, Word(dir, page / 1024)))
    requires forall i: nat :: i < 1024 ==> Read(ram', Word(dir, i)) == if tf.Some? && i == page / 1024 then Entry(tf.value) else Read(ram, Word(dir, i))
    ensures NeededTables(ram', dir, page + 1, cnt - 1) == NeededTables(ram, dir, page, cnt) - {page / 1024}
    ensures page / 1024 in NeededTables(ram, dir, page, cnt) <==> tf.Some?
    ensures |NeededTables(ram', dir, page + 1, cnt - 1)| == |NeededTables(ram, dir, page, cnt)| - if tf.Some? then 1 else 0
  {
    hide Read, Present, Entry, Word;
    var k := page / 1024;
    var a, b := NeededTables(ram', dir, page + 1, cnt - 1), NeededTables(ram, dir, page, cnt);
    forall i: nat ensures i in a <==> i in b && i != k {
      NeededAt(ram', dir, page + 1, cnt - 1, i);
      NeededAt(ram, dir, page, cnt, i);
      NextPage(page, cnt, i);
    }
    NeededAt(ram, dir, page, cnt, k);
    assert a == b - {k};
  }

  lemma NeededAt(ram: Ram, dir: nat, page: nat, cnt: nat, i: nat)
    ensures i in NeededTables(ram, dir, page, cnt) <==> InTable(page, cnt, i) && !Present(Read(ram, Word(dir, i)))
  {
    hide Read, Present, Word;
    TableRange(page, cnt, i);
  }

  lemma TableRange(page: nat, cnt: nat, i: nat)
    ensures InTable(page, cnt, i) ==> page / 1024 <= i < page / 1024 + cnt
  {
  }

  lemma NextPage(page: nat, cnt: nat, i: nat)
    requires cnt > 0 && page + cnt <= KERNEL_PAGE
    ensures InTable(page, cnt, page / 1024) && (InTable(page, cnt, i) ==> i < 1024)
    ensures i != page / 1024 ==> (InTable(page + 1, cnt - 1, i) <==> InTable(page, cnt, i))
  {
  }

  // ----- the loop of malloc_page

  /** What one turn of the loop does to the pools and the directory. */
  lemma TurnCounts(m: Mem, pf: Flag, page: nat, cnt: nat)
    requires MemInv(m, {}) && cnt > 0 && RunReady(m, pf, page, cnt) && Palloc(PoolOf(m, pf)).got.Some?
    requires !TableMissing(WithPool(m, pf, Palloc(PoolOf(m, pf)).pool), page)
    ensures var g := Palloc(PoolOf(m, pf)); PageTableAdd(WithPool(m, pf, g.pool), page, g.got.value).Ok?
    ensures var g := Palloc(PoolOf(m, pf)); var m1 := WithPool(m, pf, g.pool); var m2 := PageTableAdd(m1, page, g.got.value).m;
            && |FreeFrames(PoolOf(m2, pf))| == |FreeFrames(PoolOf(m, pf))| - 1
            && m2.dir == m.dir
            && (pf.PfUser? ==>
                  && var n := |NeededTables(m.ram, m.dir, page, Min(cnt, |FreeFrames(m.upool)|))|;
                     var n2 := |NeededTables(m2.ram, m.dir, page + 1, Min(cnt - 1, |FreeFrames(m2.upool)|))|;
                  && n2 <= n && |FreeFrames(m2.kpool)| == |FreeFrames(m.kpool)| - (n - n2))
  {
    hide Palloc, PageFrame, MemInv, PageTableAdd, FreeFrames, NeededTables, Read, Word, TableMissing;
    var g := Palloc(PoolOf(m, pf));
    var f := g.got.value;
    var m1 := WithPool(m, pf, g.pool);
    TakeKeepsInv(m, pf);
    PallocCounts(PoolOf(m, pf));
    FirstIsReady(m, m1, pf, page, cnt);
    AddMapsOnePage(m1, page, f);
    var m2 := PageTableAdd(m1, page, f).m;
    if pf.PfKernel? {
      SameTaken(m1.kpool, m2.kpool);
    } else {
      var tf := NewTable(m1, page);
      if tf.Some? { FreshFromPool(m1, page); OneTaken(m1.kpool, m2.kpool, tf.value); } else { SameTaken(m1.kpool, m2.kpool); }
      var reach := Min(cnt, |FreeFrames(m.upool)|);
      NewTableWhenAbsent(m1, page);
      OwnDirWords(m1, m2, page, f, tf);
      NeededStep(m.ram, m2.ram, m.dir, page, reach, tf);
    }
  }

  lemma FirstIsReady(m: Mem, m1: Mem, pf: Flag, page: nat, cnt: nat)
    requires MemInv(m, {}) && cnt > 0 && RunReady(m, pf, page, cnt)
    requires m1.ram == m.ram && m1.kheap == m.kheap && m1.uheap == m.uheap && m1.dir == m.dir
    ensures PageReady(m1, page) && (page >= KERNEL_PAGE <==> pf.PfKernel?)
    ensures pf.PfUser? ==> page + cnt <= KERNEL_PAGE && m.dir in m.uheap
  {
    hide PageFrame;
    assert PageReady(m, page) && PageReady(m, page + cnt - 1);
  }

  lemma FreshFromPool(m: Mem, page: nat)
    requires NewTable(m, page).Some?
    ensures NewTable(m, page).value in FreeFrames(m.kpool)
  {
    PallocCounts(m.kpool);
  }

  lemma NewTableWhenAbsent(m: Mem, page: nat)
    requires !TableMissing(m, page)
    ensures NewTable(m, page).Some? <==> !Present(Read(m.ram, Word(m.dir, page / 1024)))
  {
  }

  lemma OwnDirWords(m: Mem, m': Mem, p: nat, f: nat, tf: Option<nat>)
    requires MapChange(m, m', p, f, tf) && IsDir(m, m.dir)
    ensures forall i: nat :: i < 1024 ==>
              Read(m'.ram, Word(m.dir, i)) == if tf.Some? && i == p / 1024 then Entry(tf.value) else Read(m.ram, Word(m.dir, i))
  {
  }

  /** The loop ends with a page table on frame 0 if and only if the run is short of page tables. */
  lemma {:induction false} TablesExactly(m: Mem, pf: Flag, page: nat, cnt: nat)
    requires MemInv(m, {}) && !m.zeroTable && RunReady(m, pf, page, cnt)
    ensures MapRun(m, pf, page, cnt).m.zeroTable <==> RunIsShort(m, pf, page, cnt)
    decreases cnt
  {
    hide Palloc, PageFrame, MemInv, PageTableAdd, FreeFrames, NeededTables, Read, Word, TableMissing, RunReady, Kept;
    NoFreeFrame(PoolOf(m, pf));
    NothingNeeded(m.ram, m.dir, page);
    if cnt > 0 {
      var g := Palloc(PoolOf(m, pf));
      if g.got.Some? {
        var m1 := WithPool(m, pf, g.pool);
        MapOne(m, pf, page, cnt);
        var m2 := PageTableAdd(m1, page, g.got.value).m;
        if TableMissing(m1, page) {
          ZeroTableStays(m2, pf, page + 1, cnt - 1);
          MissingIsShort(m, m1, pf, page, cnt);
        } else {
          TurnCounts(m, pf, page, cnt);
          TablesExactly(m2, pf, page + 1, cnt - 1);
        }
      }
    }
  }

  lemma NothingNeeded(ram: Ram, dir: nat, page: nat)
    ensures NeededTables(ram, dir, page, 0) == {}
  {
  }

  lemma MissingIsShort(m: Mem, m1: Mem, pf: Flag, page: nat, cnt: nat)
    requires pf.PfUser? && cnt > 0 && |FreeFrames(m.upool)| > 0 && TableMissing(m1, page)
    requires m1.ram == m.ram && m1.dir == m.dir && m1.kpool == m.kpool
    ensures RunIsShort(m, pf, page, cnt)
  {
    hide FreeFrames, Palloc, Read, Word, Present;
    NoFreeFrame(m.kpool);
    var reach := Min(cnt, |FreeFrames(m.upool)|);
    NeededAt(m.ram, m.dir, page, reach, page / 1024);
    assert page / 1024 in NeededTables(m.ram, m.dir, page, reach) by { FirstTable(page, reach); }
  }

  lemma FirstTable(page: nat, cnt: nat)
    requires cnt > 0
    ensures InTable(page, cnt, page / 1024)
  {
  }

  /** Without such a shortage the loop maps every page if there are frames for all of them, and ends at the first page that gets none. */
  lemma {:induction false} LoopExactly(m: Mem, pf: Flag, page: nat, cnt: nat)
    requires MemInv(m, {}) && !m.zeroTable && RunReady(m, pf, page, cnt) && !RunIsShort(m, pf, page, cnt)
    ensures var r := MapRun(m, pf, page, cnt);
            && !r.m.zeroTable && MemInv(r.m, {}) && Kept(m, r.m)
            && !r.Stopped?
            && (r.Mapped? <==> cnt <= |FreeFrames(PoolOf(m, pf))|)
    decreases cnt
  {
    hide Palloc, PageFrame, MemInv, PageTableAdd, FreeFrames, NeededTables, Read, Word, TableMissing, RunReady, Kept;
    MapRunKeepsInv(m, pf, page, cnt);
    TablesExactly(m, pf, page, cnt);
    NoFreeFrame(PoolOf(m, pf));
    if cnt > 0 && Palloc(PoolOf(m, pf)).got.Some? {
      var g := Palloc(PoolOf(m, pf));
      var m1 := WithPool(m, pf, g.pool);
      MapOne(m, pf, page, cnt);
      var m2 := PageTableAdd(m1, page, g.got.value).m;
      if TableMissing(m1, page) {
        MissingIsShort(m, m1, pf, page, cnt);
      } else {
        TurnCounts(m, pf, page, cnt);
        LoopExactly(m2, pf, page + 1, cnt - 1);
      }
    }
  }

  /** The pages for which a failed run found no frame are still unmapped, and those before it are mapped. */
  lemma {:induction false} LeftOver(m: Mem, pf: Flag, page: nat, cnt: nat, q: nat)
    requires MemInv(m, {}) && !m.zeroTable && RunReady(m, pf, page, cnt) && !RunIsShort(m, pf, page, cnt)
    requires page <= q < page + cnt
    ensures PageFrame(MapRun(m, pf, page, cnt).m.ram, m.dir, q).Some? <==> q < page + |FreeFrames(PoolOf(m, pf))|
    decreases cnt
  {
    hide Palloc, PageFrame, MemInv, PageTableAdd, FreeFrames, NeededTables, Read, Word, TableMissing, RunReady, Kept;
    NoFreeFrame(PoolOf(m, pf));
    var g := Palloc(PoolOf(m, pf));
    if g.got.Some? {
      var m1 := WithPool(m, pf, g.pool);
      MapOne(m, pf, page, cnt);
      var m2 := PageTableAdd(m1, page, g.got.value).m;
      if TableMissing(m1, page) {
        MissingIsShort(m, m1, pf, page, cnt);
      } else {
        TurnCounts(m, pf, page, cnt);
        if q > page {
          LeftOver(m2, pf, page + 1, cnt - 1, q);
        } else {
          LoopExactly(m2, pf, page + 1, cnt - 1);
          ReadyInRange(m, pf, page, cnt);
          KeptDirectory(m, m2);
          KeptMapping(m2, MapRun(m2, pf, page + 1, cnt - 1).m, page, g.got.value);
        }
      }
    } else {
      ReadyIsUnmapped(m, pf, page, cnt, q);
    }
  }

  lemma KeptDirectory(m: Mem, m': Mem)
    requires Kept(m, m')
    ensures m'.dir == m.dir && m'.uheap.Keys == m.uheap.Keys
  {
  }

  // ----- malloc_page

  /** The loop of malloc_page leaves the bitmaps of virtual pages alone. */
  lemma {:induction false} LoopKeepsHeaps(m: Mem, pf: Flag, page: nat, cnt: nat)
    ensures var r := MapRun(m, pf, page, cnt).m; r.kheap == m.kheap && r.uheap == m.uheap && r.dir == m.dir
    decreases cnt
  {
    hide Palloc, PageTableAdd;
    if cnt > 0 {
      var g := Palloc(PoolOf(m, pf));
      if g.got.Some? {
        var m1 := WithPool(m, pf, g.pool);
        AddKeepsHeaps(m1, page, g.got.value);
        if PageTableAdd(m1, page, g.got.value).Ok? { LoopKeepsHeaps(PageTableAdd(m1, page, g.got.value).m, pf, page + 1, cnt - 1); }
      }
    }
  }

  lemma AddKeepsHeaps(m: Mem, page: nat, frame: nat)
    ensures var r := PageTableAdd(m, page, frame);
            r.Ok? ==> r.m.kheap == m.kheap && r.m.uheap == m.uheap && r.m.dir == m.dir && r.m.upool == m.upool
  {
    hide Palloc, Zeroed;
  }

  /**
   What malloc_page will do. FailsLeaking: it returns NULL with the pages from `page` on reserved, only
   the first `mapped` of them mapped. Short: a page table will land on frame 0.
   */
  datatype Forecast = Succeeds(page: nat) | FailsClean | FailsLeaking(page: nat, mapped: nat) | HaltsAt(line: nat) | Short

  function MallocForecast(m: Mem, pf: Flag, cnt: nat): Forecast {
    var free := |FreeFrames(PoolOf(m, pf))|;
    if !(0 < cnt < 3840) then HaltsAt(132)
    else match Take(HeapOf(m, pf), cnt).got
      case None => if free == 0 then FailsClean else HaltsAt(101)
      case Some(page) =>
        if pf.PfUser? && page >= KERNEL_PAGE - 1 then HaltsAt(64)
        else if RunIsShort(m, pf, page, cnt) then Short
        else if cnt <= free then Succeeds(page)
        else FailsLeaking(page, free)
  }

  /** The pages were free, are reserved now, and only those before `end` are mapped. */
  ghost predicate Leaked(m: Mem, m': Mem, pf: Flag, page: nat, end: nat, cnt: nat) {
    forall q: nat :: page <= q < page + cnt ==> PageLeaked(m, m', pf, end, q)
  }

  predicate PageLeaked(m: Mem, m': Mem, pf: Flag, end: nat, q: nat) {
    !HeapOf(m, pf).Taken(q) && HeapOf(m', pf).Taken(q) && (PageFrame(m'.ram, m.dir, q).Some? <==> q < end)
  }

  ghost predicate AsForecast(m: Mem, pf: Flag, cnt: nat, f: Forecast, r: Alloc) {
    match f
    case Succeeds(page) => r.Got? && r.page == page && !r.m.zeroTable && MemInv(r.m, {}) && Kept(m, r.m)
    case FailsClean => r == Null(m)
    case FailsLeaking(page, mapped) =>
      && r.Null? && !r.m.zeroTable && MemInv(r.m, {}) && Kept(m, r.m)
      && mapped < cnt && Leaked(m, r.m, pf, page, page + mapped, cnt)
    case HaltsAt(line) => r.Stop? && r.line == line && !r.m.zeroTable
    case Short => r.m.zeroTable
  }

  /** malloc_page, for both pools: what it does is decided by the free frames, the free pages and the missing tables. */
  lemma MallocExactly(m: Mem, pf: Flag, cnt: nat)
    requires MemInv(m, {}) && !m.zeroTable
    ensures AsForecast(m, pf, cnt, MallocForecast(m, pf, cnt), MallocPage(m, pf, cnt))
  {
    hide MemInv, MapRun, PageFrame, Kept, VaddrGet, Palloc, FreeFrames, NeededTables, Find, RunIsShort, Leaked;
    if 0 < cnt < 3840 {
      NoFreeFrame(PoolOf(m, pf));
      VaddrGetFinds(m, pf, cnt);
      var v := VaddrGet(m, pf, cnt);
      if v.Reserved? {
        VaddrGetReserves(m, pf, cnt);
        if v.page.Some? {
          SameShortage(m, v.m, pf, v.page.value, cnt);
          TablesExactly(v.m, pf, v.page.value, cnt);
          if !RunIsShort(m, pf, v.page.value, cnt) {
            LoopExactly(v.m, pf, v.page.value, cnt);
            KeptTransitive(m, v.m, MapRun(v.m, pf, v.page.value, cnt).m);
            if |FreeFrames(PoolOf(m, pf))| < cnt { FailureLeaks(m, v.m, pf, v.page.value, cnt); }
          }
        } else {
          MapNothing(m, pf, cnt);
        }
      }
    }
  }

  lemma VaddrGetFinds(m: Mem, pf: Flag, cnt: nat)
    ensures var g := Take(HeapOf(m, pf), cnt); var v := VaddrGet(m, pf, cnt);
            if g.got.Some? && pf.PfUser? && g.got.value >= KERNEL_PAGE - 1 then v == Refused(64)
            else v.Reserved? && v.page == g.got
                 && v.m == if g.got.Some? then WithHeap(m, pf, g.pool) else m
  {
    hide Find;
    if pf.PfUser? { FoundForProcess(m, cnt); }
  }

  lemma FoundForProcess(m: Mem, cnt: nat)
    ensures Take(UserHeap(m), cnt).got.Some? ==> m.dir in m.uheap
  {
  }

  lemma SameShortage(m: Mem, m1: Mem, pf: Flag, page: nat, cnt: nat)
    requires m1.ram == m.ram && m1.dir == m.dir && m1.kpool == m.kpool && m1.upool == m.upool
    ensures RunIsShort(m1, pf, page, cnt) == RunIsShort(m, pf, page, cnt)
  {
  }

  lemma FailureLeaks(m: Mem, m1: Mem, pf: Flag, page: nat, cnt: nat)
    requires MemInv(m1, {}) && !m1.zeroTable && RunReady(m1, pf, page, cnt) && !RunIsShort(m1, pf, page, cnt)
    requires m1.dir == m.dir && PoolOf(m1, pf) == PoolOf(m, pf) && RunClear(HeapOf(m, pf), page, cnt)
    ensures Leaked(m, MapRun(m1, pf, page, cnt).m, pf, page, page + |FreeFrames(PoolOf(m, pf))|, cnt)
  {
    hide MemInv, MapRun, PageFrame, FreeFrames, RunIsShort, Palloc;
    var m' := MapRun(m1, pf, page, cnt).m;
    var end := page + |FreeFrames(PoolOf(m, pf))|;
    LoopKeepsHeaps(m1, pf, page, cnt);
    forall q: nat | page <= q < page + cnt ensures PageLeaked(m, m', pf, end, q) {
      LeftOver(m1, pf, page, cnt, q);
      ReadyIsTaken(m1, pf, page, cnt, q);
    }
  }

  lemma ReadyIsTaken(m: Mem, pf: Flag, page: nat, cnt: nat, q: nat)
    requires RunReady(m, pf, page, cnt) && page <= q < page + cnt
    ensures HeapOf(m, pf).Taken(q)
  {
    hide PageFrame;
    assert PageReady(m, q);
  }

  /** A request for kernel pages succeeds exactly when it is in range, a run of pages is free, and as many frames are. */
  lemma KernelSuccessExactly(m: Mem, cnt: nat)
    requires MemInv(m, {}) && !m.zeroTable
    ensures MallocPage(m, PfKernel, cnt).Got? <==>
            0 < cnt < 3840 && Find(m.kheap.used, cnt).Some? && cnt <= |FreeFrames(m.kpool)|
  {
    hide MemInv, MallocPage, FreeFrames, Find, Leaked;
    MallocExactly(m, PfKernel, cnt);
  }

  /** A request that returns NULL changes nothing if and only if no run of pages was free: otherwise it leaks. */
  lemma NullIsCleanExactly(m: Mem, pf: Flag, cnt: nat)
    requires MemInv(m, {}) && !m.zeroTable && MallocForecast(m, pf, cnt) != Short && MallocPage(m, pf, cnt).Null?
    ensures MallocPage(m, pf, cnt).m == m <==> Find(HeapOf(m, pf).used, cnt).None?
  {
    hide MemInv, MallocPage, FreeFrames, Find, RunIsShort, Kept, PageFrame;
    MallocExactly(m, pf, cnt);
    var f := MallocForecast(m, pf, cnt);
    if f.FailsLeaking? { assert PageLeaked(m, MallocPage(m, pf, cnt).m, pf, f.page + f.mapped, f.page); }
  }
}
