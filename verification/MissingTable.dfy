/**
 page_table_add does not test the palloc of line 119. When the kernel pool is empty the
 new page table lands on frame 0: exactly then the memory invariant is lost, and the
 second such table erases the mapping that the first one held.
 */
module MissingTable {
  import opened Options
  import opened Paging
  import opened Memory
  import opened MemorySafety
  import opened Mapping
  import opened Allocation
  import opened Outcomes
  import opened Window

  /** With an empty kernel pool the table for page p is put on frame 0. */
  lemma MissingTableUnfolds(m: Mem, p: nat, f: nat)
    requires TableMissing(m, p) && p != 0 && f != 0
    ensures PageTableAdd(m, p, f).Ok? && PageTableAdd(m, p, f).m.zeroTable
    ensures PageTableAdd(m, p, f).m.ram == NewTableRam(m.ram, m.dir, p, f, 0)
    ensures PageTableAdd(m, p, f).m.dir == m.dir && PageTableAdd(m, p, f).m.kpool == m.kpool
  {
    hide Zeroed, Find;
  }

  /** page_table_add on a reserved page keeps the invariant if and only if no table is missing. */
  lemma InvariantExactlyWithTable(m: Mem, p: nat, f: nat)
    requires AddReady(m, p, f)
    ensures MemInv(PageTableAdd(m, p, f).m, {}) <==> !TableMissing(m, p)
  {
    hide MemInv, PageTableAdd, TableMissing;
    AddMapsOnePage(m, p, f);
    if TableMissing(m, p) { MissingTableBreaksInv(m, p, f); }
  }

  lemma MissingTableBreaksInv(m: Mem, p: nat, f: nat)
    requires AddReady(m, p, f) && TableMissing(m, p)
    ensures PageTableAdd(m, p, f).Ok? && !MemInv(PageTableAdd(m, p, f).m, {})
  {
    hide PageTableAdd, Zeroed, Palloc, NewTableRam, PageFrame;
    AddReadyFacts(m, p, f);
    AddMapsOnePage(m, p, f);
    MissingTableUnfolds(m, p, f);
    var m' := PageTableAdd(m, p, f).m;
    assert m.dir in m.own && FrameOk(m, m.dir);
    PoolFrames(m, m.dir);
    NewTableReads(m.ram, m.dir, p, f, 0, m.dir, p / 1024);
    if MemInv(m', {}) {
      assert IsDir(m', m'.dir) && LowHalfOk(m', m'.dir);
      assert m'.dir != KDIR;
      assert 0 in m'.own && FrameOk(m', 0);
      PoolFrames(m', 0);
      assert false;
    }
  }

  /** Two tables on frame 0: the first page is mapped, and lost again when the second one is. */
  lemma SecondMissingTableLosesPage(m: Mem, p: nat, f: nat, m1: Mem, q: nat, g: nat, m2: Mem)
    requires m.dir != 0 && 0 < p < KERNEL_PAGE && 0 < q < KERNEL_PAGE && p / 1024 != q / 1024 && 0 < f && 0 < g
    requires TableMissing(m, p) && TableMissing(m, q) && p % 1024 != q % 1024
    requires PageTableAdd(m, p, f) == Ok(m1) && PageTableAdd(m1, q, g) == Ok(m2)
    ensures PageFrame(m1.ram, m.dir, p) == Some(f)
    ensures PageFrame(m2.ram, m.dir, q) == Some(g) && PageFrame(m2.ram, m.dir, p) == None
    ensures PageFrame(m2.ram, m.dir, 1024 * (p / 1024) + q % 1024) == Some(g)
  {
    hide PageTableAdd, Zeroed, NewTableRam, Palloc;
    MissingTableUnfolds(m, p, f);
    NewTableReads(m.ram, m.dir, p, f, 0, m.dir, p / 1024);
    NewTableReads(m.ram, m.dir, p, f, 0, 0, p % 1024);
    NewTableReads(m.ram, m.dir, p, f, 0, m.dir, q / 1024);
    assert TableMissing(m1, q);
    MissingTableUnfolds(m1, q, g);
    NewTableReads(m1.ram, m.dir, q, g, 0, m.dir, p / 1024);
    NewTableReads(m1.ram, m.dir, q, g, 0, m.dir, q / 1024);
    NewTableReads(m1.ram, m.dir, q, g, 0, 0, p % 1024);
    NewTableReads(m1.ram, m.dir, q, g, 0, 0, q % 1024);
    var alias := 1024 * (p / 1024) + q % 1024;
    assert alias / 1024 == p / 1024 && alias % 1024 == q % 1024;
  }

  /** A present directory entry stays through the loop of malloc_page. */
  lemma {:induction false} EntryStays(m: Mem, pf: Flag, page: nat, cnt: nat, i: nat, e: nat)
    requires WindowOk(m) && page + cnt <= WINDOW_PAGE && i < 1024 && HasEntry(m, i, e)
    ensures HasEntry(MapRun(m, pf, page, cnt).m, i, e) && MapRun(m, pf, page, cnt).m.dir == m.dir
    decreases cnt
  {
    hide Palloc, PageTableAdd, WindowOk, Present, Read, Word;
    if cnt > 0 {
      var g := Palloc(PoolOf(m, pf));
      if g.got.Some? {
        var m1 := WithPool(m, pf, g.pool);
        TakeKeepsWindow(m, pf);
        if PageTableAdd(m1, page, g.got.value).Ok? {
          AddKeepsWindow(m1, page, g.got.value);
          EntryStays(PageTableAdd(m1, page, g.got.value).m, pf, page + 1, cnt - 1, i, e);
        }
      }
    }
  }

  /** A user table on frame 0 contradicts the invariant. */
  lemma TableOnFrameZero(m: Mem, i: nat)
    requires i < 768 && HasEntry(m, i, Entry(0)) && m.dir != KDIR
    ensures !MemInv(m, {})
  {
    if MemInv(m, {}) {
      assert IsDir(m, m.dir) && LowHalfOk(m, m.dir);
      assert LowEntryOk(m, m.dir, i, Read(m.ram, Word(m.dir, i)));
      assert 0 in m.own && FrameOk(m, 0);
      PoolFrames(m, 0);
      assert false;
    }
  }

  /** What a missing table leaves: a directory entry for frame 0. */
  lemma MissingLeavesZeroEntry(m: Mem, p: nat, f: nat)
    requires WindowOk(m) && p < WINDOW_PAGE && TableMissing(m, p) && p != 0 && f != 0
    ensures PageTableAdd(m, p, f).Ok? && PageTableAdd(m, p, f).m.dir == m.dir && HasEntry(PageTableAdd(m, p, f).m, p / 1024, Entry(0))
  {
    hide Zeroed, NewTableRam, PageTableAdd, Palloc;
    MissingTableUnfolds(m, p, f);
    assert p / 1024 != 1023;
    NewTableDirWord(m.ram, m.dir, p, f);
  }

  lemma NewTableDirWord(ram: Ram, dir: nat, p: nat, f: nat)
    requires dir != 0 && p < WINDOW_PAGE
    ensures Read(NewTableRam(ram, dir, p, f, 0), Word(dir, p / 1024)) == Entry(0)
  {
    ZeroedReads(ram[Word(dir, p / 1024) := Entry(0)], 0, dir, p / 1024);
    WordsDiffer(dir, p / 1024, 0, p % 1024);
  }

  /** The loop of malloc_page keeps the memory invariant if and only if it is not short of page tables. */
  lemma {:induction false} LoopInvariantExactly(m: Mem, pf: Flag, page: nat, cnt: nat)
    requires MemInv(m, {}) && !m.zeroTable && RunReady(m, pf, page, cnt)
    ensures MemInv(MapRun(m, pf, page, cnt).m, {}) <==> !RunIsShort(m, pf, page, cnt)
    decreases cnt
  {
    hide Palloc, PageFrame, MemInv, PageTableAdd, FreeFrames, NeededTables, Read, Word, TableMissing, RunReady, Kept, WindowOk;
    if !RunIsShort(m, pf, page, cnt) {
      LoopExactly(m, pf, page, cnt);
    } else {
      NoFreeFrame(PoolOf(m, pf));
      NothingNeeded(m.ram, m.dir, page);
      var g := Palloc(PoolOf(m, pf));
      assert cnt > 0 && g.got.Some?;
      var m1 := WithPool(m, pf, g.pool);
      MapOne(m, pf, page, cnt);
      if TableMissing(m1, page) {
        FirstIsReady(m, m1, pf, page, cnt);
        TakeKeepsInv(m, pf);
        LossFromMissing(m1, pf, page, cnt, g.got.value);
      } else {
        TurnCounts(m, pf, page, cnt);
        LoopInvariantExactly(PageTableAdd(m1, page, g.got.value).m, pf, page + 1, cnt - 1);
      }
    }
  }

  lemma LossFromMissing(m: Mem, pf: Flag, page: nat, cnt: nat, f: nat)
    requires MemInv(m, {f}) && PageReady(m, page) && PoolFits(m, page, f) && TableMissing(m, page) && cnt > 0 && page + cnt <= KERNEL_PAGE
    ensures PageTableAdd(m, page, f).Ok?
    ensures !MemInv(MapRun(PageTableAdd(m, page, f).m, pf, page + 1, cnt - 1).m, {})
  {
    hide Palloc, PageFrame, MemInv, PageTableAdd, Read, Word, TableMissing, WindowOk, PageReady, PoolFits, HasEntry;
    AddReadyFacts(m, page, f);
    UserIsNoKernelDir(m, page, f);
    InvGivesWindow(m, {f});
    MissingLeavesZeroEntry(m, page, f);
    AddKeepsWindow(m, page, f);
    var m' := PageTableAdd(m, page, f).m;
    EntryStays(m', pf, page + 1, cnt - 1, page / 1024, Entry(0));
    TableOnFrameZero(MapRun(m', pf, page + 1, cnt - 1).m, page / 1024);
  }
}
