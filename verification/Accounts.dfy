/** What the memory calls take from the bitmaps: the pages asked for and no others, and a frame for each page and page table. */
module Accounts {
  import opened Options
  import opened Paging
  import opened Memory
  import opened MemorySafety
  import opened Mapping
  import opened Allocation
  import opened MallocSafety
  import opened Outcomes
  import opened MemoryRuns

  /** m' has the bitmaps of virtual pages of m1. */
  predicate SameHeaps(m1: Mem, m': Mem) { m'.kheap == m1.kheap && m'.uheap == m1.uheap && m'.dir == m1.dir }

  /** The frames of the pool, and for user pages those of the kernel pool, fall by what is said. */
  ghost predicate Charged(m: Mem, m': Mem, pf: Flag, frames: nat, tables: nat) {
    && |FreeFrames(PoolOf(m', pf))| == |FreeFrames(PoolOf(m, pf))| - frames
    && (pf.PfUser? ==> |FreeFrames(m'.kpool)| == |FreeFrames(m.kpool)| - tables)
  }

  /** The loop of malloc_page draws a frame for each page, and one for each directory entry of the run without a table. */
  lemma {:induction false} LoopCharges(m: Mem, pf: Flag, page: nat, cnt: nat)
    requires MemInv(m, {}) && !m.zeroTable && RunReady(m, pf, page, cnt) && !RunIsShort(m, pf, page, cnt)
    requires cnt <= |FreeFrames(PoolOf(m, pf))|
    ensures Charged(m, MapRun(m, pf, page, cnt).m, pf, cnt, |NeededTables(m.ram, m.dir, page, cnt)|)
    decreases cnt
  {
    hide Palloc, PageFrame, MemInv, PageTableAdd, FreeFrames, NeededTables, Read, Word, TableMissing, RunReady, Kept;
    NothingNeeded(m.ram, m.dir, page);
    NoFreeFrame(PoolOf(m, pf));
    if cnt > 0 {
      var g := Palloc(PoolOf(m, pf));
      var m1 := WithPool(m, pf, g.pool);
      MapOne(m, pf, page, cnt);
      if TableMissing(m1, page) {
        MissingIsShort(m, m1, pf, page, cnt);
      } else {
        TurnCounts(m, pf, page, cnt);
        LoopCharges(PageTableAdd(m1, page, g.got.value).m, pf, page + 1, cnt - 1);
      }
    }
  }

  /**
   get_kernel_pages and get_user_pages: a successful call marks the first fitting run of pages and no other page, and draws
   one frame for each page and each missing table.
   */
  lemma GetPagesTakes(m: Mem, pf: Flag, cnt: nat)
    requires MemInv(m, {}) && !m.zeroTable && MallocForecast(m, pf, cnt).Succeeds?
    ensures var r := GetPages(m, pf, cnt); var page := Take(HeapOf(m, pf), cnt).got;
            && r.Got? && page == Some(r.page) && SameHeaps(WithHeap(m, pf, Take(HeapOf(m, pf), cnt).pool), r.m)
            && Charged(m, r.m, pf, cnt, |NeededTables(m.ram, m.dir, r.page, cnt)|)
  {
    hide MemInv, MapRun, PageFrame, Kept, Take, FreeFrames, NeededTables, RunIsShort, Leaked, ZeroRun, Faults, VaddrGet, GotFreshPages;
    GetPagesSafe(m, pf, cnt);
    VaddrGetFinds(m, pf, cnt);
    VaddrGetReserves(m, pf, cnt);
    var v := VaddrGet(m, pf, cnt);
    SameShortage(m, v.m, pf, v.page.value, cnt);
    LoopKeepsHeaps(v.m, pf, v.page.value, cnt);
    LoopCharges(v.m, pf, v.page.value, cnt);
  }

  /** A call that returns NULL marks the run that it found, or nothing. */
  lemma GetPagesFailing(m: Mem, pf: Flag, cnt: nat)
    requires GetPages(m, pf, cnt).Null?
    ensures var g := Take(HeapOf(m, pf), cnt);
            SameHeaps(if g.got.Some? then WithHeap(m, pf, g.pool) else m, GetPages(m, pf, cnt).m)
  {
    hide MapRun, Take, ZeroRun, Faults, VaddrGet;
    VaddrGetFinds(m, pf, cnt);
    var v := VaddrGet(m, pf, cnt);
    if v.Reserved? { LoopKeepsHeaps(v.m, pf, if v.page.Some? then v.page.value else 0, cnt); }
  }

  /** get_a_page marks its page and no other, whether or not it finds a frame. */
  lemma GetAPageTakes(m: Mem, pf: Flag, page: nat)
    requires !GetAPage(m, pf, page).Stop?
    ensures PageRequestOk(m, pf, page) && SameHeaps(Marked(m, pf, page), GetAPage(m, pf, page).m)
  {
    hide Palloc, PageTableAdd;
    var m1 := Marked(m, pf, page);
    var g := Palloc(PoolOf(m1, pf));
    if g.got.Some? { AddKeepsHeaps(WithPool(m1, pf, g.pool), page, g.got.value); }
  }

  /** create_page_dir marks one kernel page. */
  lemma CreateTakes(m: Mem, up: Pool, m': Mem, page: nat) returns (d: nat)
    requires CreatePageDir(m, up) == Got(m', page)
    ensures m'.kheap == Take(m.kheap, 1).pool && m'.dir == m.dir && m'.uheap == m.uheap[d := up]
  {
    hide MapRun, Take, ZeroRun, Faults, VaddrGet, CopyKernelHalf, AddrV2P;
    VaddrGetFinds(m, PfKernel, 1);
    var v := VaddrGet(m, PfKernel, 1);
    LoopKeepsHeaps(v.m, PfKernel, if v.page.Some? then v.page.value else 0, 1);
    var r := GetPages(m, PfKernel, 1);
    d := AddrV2P(r.m.ram, r.m.dir, 4096 * r.page).value / 4096;
  }
}
