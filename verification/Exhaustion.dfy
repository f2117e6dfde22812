/**
 Runs from boot on a small machine, with 16 free pages, in which frames run out: a page table is
 missing, and a request fails half-way. They show that the conditions of modules Outcomes and
 MissingTable are met by states that the kernel reaches.
 */
module Exhaustion {
  import opened Options
  import opened Paging
  import opened Bitmaps
  import opened Memory
  import opened MemorySafety
  import opened Mapping
  import opened Allocation
  import opened MallocSafety
  import opened Outcomes
  import opened MemoryRuns
  import opened MemoryTheorems
  import opened LinearHeap
  import opened PoolLayout
  import opened LowMemory
  import opened Boot
  import opened MissingTable

  /** 2 MB and 16 pages: 8 frames for each pool, and 8 heap pages. */
  const SMALL: nat := 0x20_0000 + 16 * 4096

  lemma SmallLayout()
    ensures LayoutFor(SMALL) == Layout(8, 8, 1, 1, 0x20_0000, 0x20_8000) && FitsMemory(SMALL)
  {
    assert FreePages(SMALL) == 16;
    assert U16(8) == 8;
  }

  // ----- a memory that boots

  /** Memory full of zeros with the loader's directory and table. */
  function SmallRam(): Ram {
    (map i | 0 <= i < 1024 :: Word(KDIR, i) := DirWord(i)) + (map i | 0 <= i < 256 :: Word(KTABLE, i) := Entry(i))
  }

  lemma SmallRamReads(i: nat)
    ensures i < 1024 ==> Read(SmallRam(), Word(KDIR, i)) == DirWord(i)
    ensures i < 256 ==> Read(SmallRam(), Word(KTABLE, i)) == Entry(i)
  {
    if i < 1024 { SmallDirReads(i); }
    if i < 256 { SmallTableReads(i); }
  }

  lemma SmallDirReads(i: nat)
    requires i < 1024
    ensures Read(SmallRam(), Word(KDIR, i)) == DirWord(i)
  {
    hide Entry, DirWord;
    var dirs := map k | 0 <= k < 1024 :: Word(KDIR, k) := DirWord(k);
    assert Word(KDIR, i) in dirs && dirs[Word(KDIR, i)] == DirWord(i);
    assert Word(KDIR, i) < Word(KTABLE, 0);
  }

  lemma SmallTableReads(i: nat)
    requires i < 256
    ensures Read(SmallRam(), Word(KTABLE, i)) == Entry(i)
  {
    hide Entry, DirWord;
    var ptes := map k | 0 <= k < 256 :: Word(KTABLE, k) := Entry(k);
    assert Word(KTABLE, i) in ptes && ptes[Word(KTABLE, i)] == Entry(i);
  }

  lemma SmallRamElsewhere(w: nat)
    requires w < Word(KDIR, 0) || Word(KTABLE, 256) <= w
    ensures Read(SmallRam(), w) == 0
  {
  }

  lemma {:induction false} NothingToClear(from: nat, n: nat, w: nat)
    ensures Read(ClearBytes(map[], from, n), w) == 0
    decreases n
  {
    hide ByteOf;
    if n > 0 {
      NothingToClear(from, n - 1, w);
      NothingToClear(from, n - 1, (from + n - 1) / 4);
    }
  }

  /** The small machine boots. */
  lemma SmallBoots()
    ensures Boots(map[], SmallRam(), SMALL)
  {
    hide ClearBytes, LayoutFor, Entry, SmallRam, DirWord;
    SmallLayout();
    var n := BitmapBytes(SMALL);
    var ram := SmallRam();
    forall w: nat ensures Read(ClearBytes(map[], BITMAPS, n), w) == 0 { NothingToClear(BITMAPS, n, w); }
    forall i: nat | i < 1024 ensures Read(ram, Word(KDIR, i)) == DirWord(i) { SmallRamReads(i); }
    forall i: nat | i < 256 ensures Read(ram, Word(KTABLE, i)) == Entry(i) { SmallRamReads(i); }
    forall w: nat | w < Word(KDIR, 0) || Word(KTABLE, 256) <= w ensures Read(ram, w) == 0 { SmallRamElsewhere(w); }
  }

  function SmallMem(): Mem { BootMem(SmallRam(), SMALL) }

  lemma SmallIsLinear()
    ensures Linear(SmallMem(), 0, 8) && SmallMem().dir == KDIR && SmallMem().uheap == map[]
    ensures SmallMem().upool == Pool(0x208, Clear(8))
  {
    hide Linear, SmallRam, LayoutFor;
    SmallBoots();
    SmallLayout();
    BootIsLinear(map[], SmallRam(), SMALL);
  }

  // ----- counting

  /** The n numbers from a on. */
  function Range(a: nat, n: nat): set<nat> { if n == 0 then {} else Range(a, n - 1) + {a + n - 1} }

  lemma {:induction false} RangeSize(a: nat, n: nat)
    ensures |Range(a, n)| == n && forall x: nat :: x in Range(a, n) <==> a <= x < a + n
    decreases n
  {
    if n > 0 { RangeSize(a, n - 1); }
  }

  /** A pool whose first n frames are taken. */
  lemma PrefixFree(p: Pool, n: nat)
    requires Prefix(p.used, n)
    ensures |FreeFrames(p)| == |p.used| - n
  {
    RangeSize(p.first + n, |p.used| - n);
    assert FreeFrames(p) == Range(p.first + n, |p.used| - n);
  }

  /** On a linear heap the frames that are taken are heap pages. */
  lemma LinearFrameUse(m: Mem, n: nat, total: nat, t: nat)
    requires Linear(m, n, total) && m.kpool.Taken(t)
    ensures t in m.own && m.own[t] == KPage(HEAP_PAGE + (t - m.kpool.first))
  {
    hide PageFrame;
    var k := t - m.kpool.first;
    assert k < n && OnFrame(m, k);
    assert KernelPageOk(m, HEAP_PAGE + k);
  }

  /** So no process has a page table. */
  lemma LinearHasNoTables(m: Mem, n: nat, total: nat, d: nat, i: nat)
    requires Linear(m, n, total) && d in m.uheap && i < 768
    ensures !Present(Read(m.ram, Word(d, i)))
  {
    hide PageFrame, Prefix, OnFrame;
    var e := Read(m.ram, Word(d, i));
    assert LowHalfOk(m, d) && LowEntryOk(m, d, i, e);
    assert d in m.own && FrameOk(m, d);
    PoolFrames(m, d);
    if Present(e) {
      assert FrameOk(m, FrameOf(e));
      LinearFrameUse(m, n, total, FrameOf(e));
    }
  }

  /** The pages of a new process: pages 1 to 2048. */
  function NewProcess(): Pool { Pool(1, Clear(2048)) }

  /** A process that has allocated nothing has nothing mapped. */
  lemma NothingMapped(m: Mem, d: nat, q: nat)
    requires MemInv(m, {}) && d in m.uheap && m.uheap[d] == NewProcess() && q < KERNEL_PAGE
    ensures PageFrame(m.ram, d, q).None?
  {
    assert UserPageOk(m, d, q);
  }

  /** The small machine after create_page_dir: one frame and one heap page are used. */
  lemma OneProcess() returns (d: nat, m: Mem)
    ensures CreatePageDir(SmallMem(), NewProcess()) == Got(m, HEAP_PAGE) && Linear(m, 1, 8) && m.uheap == map[d := NewProcess()]
    ensures m.upool == Pool(0x208, Clear(8))
  {
    hide Linear, GetPages, CreatePageDir, SmallMem, Leaked, FreeFrames, Find, DirOk, EmptyUserHalf, PageFrame;
    SmallIsLinear();
    var m0, up := SmallMem(), NewProcess();
    NewDirKeepsLinear(m0, up, 0, 8);
    OneRequest(0, 1, 8);
    FirstCreate(m0, up);
    m := CreatePageDir(m0, up).m;
    d := PageFrame(m.ram, m.dir, HEAP_PAGE).value;
    CreateKeepsUserPool(m0, up);
  }

  lemma FirstCreate(m0: Mem, up: Pool)
    requires Linear(m0, 0, 8) && FreshRange(up)
    ensures CreatePageDir(m0, up).Got? && CreatePageDir(m0, up).page == HEAP_PAGE && NewSpace(m0, up, CreatePageDir(m0, up).m, HEAP_PAGE)
  {
    hide MemInv, GetPages, CreatePageDir, Leaked, DirOk, EmptyUserHalf, PageFrame, Preserved, NewSpace, OnFrame, FreeFrames;
    CreatePageDirSafe(m0, up);
    PrefixFree(m0.kpool, 0);
    FindAfterPrefix(m0.kheap.used, 0, 1);
    HeapFirst(m0);
  }

  /** Kernel requests leave the user pool alone. */
  lemma CreateKeepsUserPool(m: Mem, up: Pool)
    ensures CreatePageDir(m, up).Got? ==> CreatePageDir(m, up).m.upool == m.upool
  {
    hide GetPages, AddrV2P, CopyKernelHalf;
    GetKeepsUserPool(m, 1);
  }

  lemma GetKeepsUserPool(m: Mem, cnt: nat)
    ensures GetPages(m, PfKernel, cnt).Got? ==> GetPages(m, PfKernel, cnt).m.upool == m.upool && GetPages(m, PfKernel, cnt).m.uheap == m.uheap
  {
    hide MapRun, Find, ZeroRun, Faults;
    var v := VaddrGet(m, PfKernel, cnt);
    KernelLoopKeepsUserPool(v.m, if v.page.Some? then v.page.value else 0, cnt);
    LoopKeepsHeaps(v.m, PfKernel, if v.page.Some? then v.page.value else 0, cnt);
  }

  lemma {:induction false} KernelLoopKeepsUserPool(m: Mem, page: nat, cnt: nat)
    ensures MapRun(m, PfKernel, page, cnt).m.upool == m.upool
    decreases cnt
  {
    hide Palloc, PageTableAdd;
    if cnt > 0 {
      var g := Palloc(m.kpool);
      if g.got.Some? {
        var m1 := WithPool(m, PfKernel, g.pool);
        AddKeepsHeaps(m1, page, g.got.value);
        if PageTableAdd(m1, page, g.got.value).Ok? { KernelLoopKeepsUserPool(PageTableAdd(m1, page, g.got.value).m, page + 1, cnt - 1); }
      }
    }
  }

  // ----- a page table is missing

  lemma ThreeCalls(m: Mem, a: Call, b: Call, c: Call)
    requires CallOk(m, a) && !Do(m, a).Stop? && !ShortOfTables(m, a)
    requires var m1 := Do(m, a).m; CallOk(m1, b) && !Do(m1, b).Stop? && !ShortOfTables(m1, b)
    requires var m2 := Do(Do(m, a).m, b).m; CallOk(m2, c) && !Do(m2, c).Stop? && !ShortOfTables(m2, c)
    ensures Calls(m, [a, b, c]) && NeverShort(m, [a, b, c]) && !Halts(m, [a, b, c])
    ensures After(m, [a, b, c]) == Do(Do(Do(m, a).m, b).m, c).m
  {
    hide CallOk, Do, ShortOfTables, Calls, NeverShort, Halts, After;
    var m1 := Do(m, a).m;
    var m2 := Do(m1, b).m;
    NoCalls(Do(m2, c).m);
    assert [c] + [] == [c] && [b] + [c] == [b, c] && [a] + [b, c] == [a, b, c];
    OneMoreCall(m2, c, []);
    OneMoreCall(m1, b, [c]);
    OneMoreCall(m, a, [b, c]);
  }

  lemma NoCalls(m: Mem)
    ensures Calls(m, []) && NeverShort(m, []) && !Halts(m, []) && After(m, []) == m
  {
  }

  lemma OneMoreCall(m: Mem, c: Call, cs: seq<Call>)
    requires CallOk(m, c) && !Do(m, c).Stop? && !ShortOfTables(m, c)
    requires Calls(Do(m, c).m, cs) && NeverShort(Do(m, c).m, cs) && !Halts(Do(m, c).m, cs)
    ensures Calls(m, [c] + cs) && NeverShort(m, [c] + cs) && !Halts(m, [c] + cs) && After(m, [c] + cs) == After(Do(m, c).m, cs)
  {
    hide CallOk, Do, ShortOfTables;
    assert ([c] + cs)[1..] == cs;
  }

  /**
   create_page_dir, all other kernel pages, and the new process becomes active: it has free pages, none of
   them mapped, and there are free user frames, but no frame for its first page table.
   */
  lemma KernelPoolIsDrained() returns (d: nat, m: Mem)
    ensures var cs := [NewDir(NewProcess()), Pages(PfKernel, 7), Activate(d)];
            Calls(SmallMem(), cs) && NeverShort(SmallMem(), cs) && !Halts(SmallMem(), cs) && m == After(SmallMem(), cs)
    ensures MemInv(m, {}) && !m.zeroTable && m.dir == d && m.uheap == map[d := NewProcess()] && m.upool == Pool(0x208, Clear(8))
    ensures (forall i: nat :: i < 768 ==> !Present(Read(m.ram, Word(d, i)))) && FreeFrames(m.kpool) == {}
    ensures forall q: nat :: q < KERNEL_PAGE ==> PageFrame(m.ram, d, q).None?
  {
    hide Linear, MemInv, PageFrame, GetPages, CreatePageDir, SmallMem, Leaked, FreeFrames, Find, Preserved;
    var m1;
    d, m1 := OneProcess();
    OneCallIsLong(m1, d);
    LinearGetPages(m1, 1, 7, 8);
    GetKeepsUserPool(m1, 7);
    var m2 := GetPages(m1, PfKernel, 7).m;
    LinearIsSafe(m2, 8, 8);
    ActivateKeepsInv(m2, d);
    m := m2.(dir := d);
    ThreeCalls(SmallMem(), NewDir(NewProcess()), Pages(PfKernel, 7), Activate(d));
    forall i: nat | i < 768 ensures !Present(Read(m.ram, Word(d, i))) { LinearHasNoTables(m2, 8, 8, d, i); }
    DrainedPool(m2);
    forall q: nat | q < KERNEL_PAGE ensures PageFrame(m.ram, d, q).None? { NothingMapped(m, d, q); }
  }

  lemma LinearIsSafe(m: Mem, n: nat, total: nat)
    requires Linear(m, n, total)
    ensures MemInv(m, {}) && !m.zeroTable
  {
  }

  lemma DrainedPool(m: Mem)
    requires Linear(m, 8, 8)
    ensures FreeFrames(m.kpool) == {}
  {
    PrefixFree(m.kpool, 8);
  }

  /** Seven kernel pages on the small machine are no table shortage, and d is a directory. */
  lemma OneCallIsLong(m: Mem, d: nat)
    requires d in m.uheap
    ensures IsDir(m, d) && !ShortOfTables(m, Pages(PfKernel, 7))
  {
    hide FreeFrames, Find;
  }

  /** get_user_pages(1) is then short of page tables; page_table_add is called on a reserved page without a table. */
  lemma MissingTableIsReached(d: nat, m: Mem)
    requires MemInv(m, {}) && !m.zeroTable && m.dir == d && m.uheap == map[d := NewProcess()] && m.upool == Pool(0x208, Clear(8))
    requires (forall i: nat :: i < 768 ==> !Present(Read(m.ram, Word(d, i)))) && FreeFrames(m.kpool) == {}
    ensures ShortOfTables(m, Pages(PfUser, 1)) && GetPages(m, PfUser, 1).m.zeroTable
    ensures var m1 := VaddrGet(m, PfUser, 1).m; var g := Palloc(m1.upool); var m2 := WithPool(m1, PfUser, g.pool);
            && VaddrGet(m, PfUser, 1).page == Some(1) && g.got.Some?
            && AddReady(m2, 1, g.got.value) && TableMissing(m2, 1) && TableMissing(m2, 1026)
  {
    hide MemInv, GetPages, Leaked, Read, Word, Present, PageFrame, RunReady, Kept;
    FirstPageFound(m);
    UserFramesFree(m);
    VaddrGetReserves(m, PfUser, 1);
    var m1 := VaddrGet(m, PfUser, 1).m;
    NoFreeFrame(m1.upool);
    NoFreeFrame(m1.kpool);
    TakeKeepsInv(m1, PfUser);
    FirstIsReady(m1, WithPool(m1, PfUser, Palloc(m1.upool).pool), PfUser, 1, 1);
    NeededAt(m.ram, d, 1, 1, 0);
    GetPagesSafe(m, PfUser, 1);
    assert 0 in NeededTables(m.ram, d, 1, Min(1, |FreeFrames(m.upool)|));
  }

  /** get_user_pages(1) in that state: page 1 is mapped through a table on frame 0. */
  lemma FirstUserPage(d: nat, m: Mem) returns (f: nat, m1: Mem)
    requires d != 0 && m.dir == d && d < 0x208 && m.uheap == map[d := NewProcess()] && m.upool == Pool(0x208, Clear(8)) && TableMissing(m, 1)
    ensures GetPages(m, PfUser, 1) == Got(m1, 1) && m1.dir == d && m1.kpool == m.kpool && m1.upool == Palloc(m.upool).pool
    ensures d in m1.uheap && m1.uheap[d].first == 1 && |m1.uheap[d].used| == 2048
    ensures Read(m1.ram, Word(d, 0)) == Entry(0) && PageFrame(m1.ram, d, 1) == Some(f)
    ensures Read(m1.ram, Word(d, 1)) == Read(m.ram, Word(d, 1))
  {
    hide Find, Zeroed, Word, Read, Entry, Present, PageTableAdd, Walk, NewTableRam, PageFrame;
    FirstPageFound(m);
    FirstFrame(m.upool);
    f := Palloc(m.upool).got.value;
    var v := VaddrGet(m, PfUser, 1).m;
    var b := WithPool(v, PfUser, Palloc(v.upool).pool);
    SameTableMissing(m, b, 1);
    MissingTableUnfolds(b, 1, f);
    AddKeepsHeaps(b, 1, f);
    var c := PageTableAdd(b, 1, f).m;
    assert MapRun(c, PfUser, 2, 0) == Mapped(c);
    assert MallocPage(m, PfUser, 1) == Got(c, 1);
    FirstTableReads(m.ram, d, f);
    PageWalk(c.ram, d, 1);
    OneZeroed(c.ram, d, f);
    m1 := c.(ram := Zeroed(c.ram, f));
    FirstTableZeroed(c.ram, d, f);
  }

  lemma FirstFrame(p: Pool)
    requires p == Pool(0x208, Clear(8))
    ensures Palloc(p).got == Some(0x208) && Palloc(p).pool == Pool(0x208, Clear(8)[0 := true])
  {
    FindAfterPrefix(p.used, 0, 1);
    assert SetRun(p.used, 0, 1) == Clear(8)[0 := true];
  }

  lemma SameTableMissing(m: Mem, m': Mem, p: nat)
    requires m'.ram == m.ram && m'.dir == m.dir && m'.kpool == m.kpool
    ensures TableMissing(m', p) == TableMissing(m, p)
  {
  }

  /** The words that matter after the first table was put on frame 0. */
  lemma FirstTableReads(ram: Ram, d: nat, f: nat)
    requires d != 0
    ensures var r := NewTableRam(ram, d, 1, f, 0);
            && Read(r, Word(d, 0)) == Entry(0) && Read(r, Word(0, 1)) == Entry(f) && Read(r, Word(d, 1)) == Read(ram, Word(d, 1))
            && PageFrame(r, d, 1) == Some(f)
  {
    hide NewTableRam, Word, Read, Entry;
    NewTableReads(ram, d, 1, f, 0, d, 0);
    NewTableReads(ram, d, 1, f, 0, 0, 1);
    NewTableReads(ram, d, 1, f, 0, d, 1);
  }

  /** memset clears the frame of the page, and nothing else that matters. */
  lemma FirstTableZeroed(ram: Ram, d: nat, f: nat)
    requires d != f && f != 0 && Read(ram, Word(d, 0)) == Entry(0) && Read(ram, Word(0, 1)) == Entry(f)
    ensures var r := Zeroed(ram, f);
            Read(r, Word(d, 0)) == Entry(0) && PageFrame(r, d, 1) == Some(f) && Read(r, Word(d, 1)) == Read(ram, Word(d, 1))
  {
    hide Zeroed, Word, Read, Entry;
    ZeroedReads(ram, f, d, 0);
    ZeroedReads(ram, f, 0, 1);
    ZeroedReads(ram, f, d, 1);
  }

  lemma OneZeroed(ram: Ram, d: nat, f: nat)
    requires Walk(ram, d, 4096) == Some(4096 * f)
    ensures !Faults(ram, d, 1, 1) && ZeroRun(ram, d, 1, 1) == Zeroed(ram, f)
  {
    hide Walk, Zeroed;
    assert 4096 * f / 4096 == f;
    assert ZeroRun(Zeroed(ram, f), d, 2, 0) == Zeroed(ram, f);
  }

  /**
   The process asks for page 1 with get_user_pages(1), and then for page 1026 with get_a_page. Both calls return the page, and
   the second one has unmapped the first.
   */
  lemma PageIsLost() returns (d: nat, m: Mem, m1: Mem, m2: Mem)
    ensures var cs := [NewDir(NewProcess()), Pages(PfKernel, 7), Activate(d)];
            Calls(SmallMem(), cs) && !Halts(SmallMem(), cs) && m == After(SmallMem(), cs)
    ensures GetPages(m, PfUser, 1) == Got(m1, 1) && PageFrame(m1.ram, d, 1).Some?
    ensures GetAPage(m1, PfUser, 1026) == Got(m2, 1026) && PageFrame(m2.ram, d, 1026).Some?
    ensures PageFrame(m2.ram, d, 1) == None
  {
    hide MemInv, CreatePageDir, SmallMem, GetPages, GetAPage, Calls, Halts, NeverShort, After, PageFrame, Find, Read, Word, Present, Entry, Linear;
    d, m := KernelPoolIsDrained();
    DirectoryBelow(m, d);
    NoFreeFrame(m.kpool);
    FirstFrame(m.upool);
    var f;
    f, m1 := FirstUserPage(d, m);
    m2 := SecondUserPage(d, m1);
  }

  /** The process directory lies in the kernel pool. */
  lemma DirectoryBelow(m: Mem, d: nat)
    requires MemInv(m, {}) && d in m.uheap && m.upool.first == 0x208
    ensures 0x200 <= d < 0x208
  {
    assert d in m.own && FrameOk(m, d);
  }

  lemma SecondUserPage(d: nat, m: Mem) returns (m2: Mem)
    requires d != 0 && d != KDIR && m.dir == d && d in m.uheap && m.uheap[d].first == 1 && |m.uheap[d].used| == 2048
    requires Read(m.ram, Word(d, 0)) == Entry(0) && TableMissing(m, 1026) && m.upool == Pool(0x208, Clear(8)[0 := true])
    ensures GetAPage(m, PfUser, 1026) == Got(m2, 1026) && PageFrame(m2.ram, d, 1026).Some? && PageFrame(m2.ram, d, 1) == None
  {
    hide Find, Zeroed, Word, Read, Entry, Present, PageTableAdd, NewTableRam, PageFrame;
    FindAfterPrefix(m.upool.used, 1, 1);
    var a := Marked(m, PfUser, 1026);
    var g := Palloc(a.upool);
    assert g.got == Some(0x209);
    var b := WithPool(a, PfUser, g.pool);
    SameTableMissing(m, b, 1026);
    MissingTableUnfolds(b, 1026, 0x209);
    m2 := PageTableAdd(b, 1026, 0x209).m;
    SecondTableReads(m.ram, d);
  }

  lemma SecondTableReads(ram: Ram, d: nat)
    requires d != 0 && Read(ram, Word(d, 0)) == Entry(0)
    ensures var r := NewTableRam(ram, d, 1026, 0x209, 0); PageFrame(r, d, 1026) == Some(0x209) && PageFrame(r, d, 1) == None
  {
    hide NewTableRam, Word, Read, Entry;
    NewTableReads(ram, d, 1026, 0x209, 0, d, 0);
    NewTableReads(ram, d, 1026, 0x209, 0, d, 1);
    NewTableReads(ram, d, 1026, 0x209, 0, 0, 1);
    NewTableReads(ram, d, 1026, 0x209, 0, 0, 2);
  }

  lemma UserFramesFree(m: Mem)
    requires m.upool == Pool(0x208, Clear(8))
    ensures |FreeFrames(m.upool)| == 8
  {
    PrefixFree(m.upool, 0);
  }

  lemma FirstPageFound(m: Mem)
    requires m.dir in m.uheap && m.uheap[m.dir] == NewProcess()
    ensures Take(UserHeap(m), 1).got == Some(1) && VaddrGet(m, PfUser, 1).Reserved? && VaddrGet(m, PfUser, 1).page == Some(1)
    ensures VaddrGet(m, PfUser, 1).m == m.(uheap := VaddrGet(m, PfUser, 1).m.uheap)
    ensures Take(UserHeap(m), 9).got == Some(1)
  {
    FindAfterPrefix(NewProcess().used, 0, 1);
    FindAfterPrefix(NewProcess().used, 0, 9);
  }

  // ----- a request fails half-way

  /**
   With only eight user frames, a request for nine pages returns NULL: nine pages are reserved, the
   ninth of them is mapped nowhere, and no frame is left.
   */
  lemma RequestLeaks() returns (d: nat, m: Mem, m': Mem)
    ensures var cs := [NewDir(NewProcess()), Activate(d), Pages(PfUser, 9)];
            Calls(SmallMem(), cs) && NeverShort(SmallMem(), cs) && !Halts(SmallMem(), cs) && m' == After(SmallMem(), cs)
    ensures m == CreatePageDir(SmallMem(), NewProcess()).m.(dir := d) && MemInv(m, {}) && !m.zeroTable
    ensures MallocForecast(m, PfUser, 9) == FailsLeaking(1, 8) && GetPages(m, PfUser, 9) == Null(m')
    ensures MemInv(m', {}) && m' != m && !m'.zeroTable && m'.dir == d && d != KDIR && FreeFrames(m'.upool) == {}
    ensures forall q: nat :: 1 <= q < 10 ==> PageLeaked(m, m', PfUser, 9, q)
    ensures m'.uheap.Keys == {d} && m'.uheap[d].first == 1 && |m'.uheap[d].used| == 2048
  {
    hide Linear, MemInv, GetPages, CreatePageDir, SmallMem, FreeFrames, Find, Preserved, NeededTables, MallocPage, PageLeaked;
    var m1;
    d, m1 := OneProcess();
    LinearIsSafe(m1, 1, 8);
    ActivateKeepsInv(m1, d);
    m := m1.(dir := d);
    FirstPageFound(m);
    UserFramesFree(m);
    SevenLeft(m1);
    OneTableNeeded(m.ram, d);
    GetPagesSafe(m, PfUser, 9);
    m' := GetPages(m, PfUser, 9).m;
    LeakChanges(m, m');
    FailureEmptiesPool(m, 9);
    DirectoryIsNotKernel(m, d);
    assert IsDir(m1, d);
    ThreeCalls(SmallMem(), NewDir(NewProcess()), Activate(d), Pages(PfUser, 9));
  }

  lemma SevenLeft(m: Mem)
    requires Linear(m, 1, 8)
    ensures |FreeFrames(m.kpool)| == 7
  {
    PrefixFree(m.kpool, 1);
  }

  /** Pages 1 to 8 lie in one table. */
  lemma OneTableNeeded(ram: Ram, dir: nat)
    ensures |NeededTables(ram, dir, 1, 8)| <= 1
  {
    hide Read, Word, Present;
    var s := NeededTables(ram, dir, 1, 8);
    forall i: nat ensures i in s ==> i == 0 { NeededAt(ram, dir, 1, 8, i); }
    SubsetOfOne(s);
  }

  lemma SubsetOfOne(s: set<nat>)
    requires forall i: nat :: i in s ==> i == 0
    ensures |s| <= 1
  {
    if s != {} { assert s == {0}; }
  }

  lemma LeakChanges(m: Mem, m': Mem)
    requires Leaked(m, m', PfUser, 1, 9, 9)
    ensures m' != m
  {
    assert PageLeaked(m, m', PfUser, 9, 1);
  }

  /** A request that fails for want of a frame leaves no free frame. */
  lemma {:induction false} LoopEmptiesPool(m: Mem, pf: Flag, page: nat, cnt: nat)
    requires MapRun(m, pf, page, cnt).NoFrame?
    ensures Palloc(PoolOf(MapRun(m, pf, page, cnt).m, pf)).got.None?
    decreases cnt
  {
    hide Palloc, PageTableAdd;
    if cnt > 0 {
      var g := Palloc(PoolOf(m, pf));
      if g.got.Some? {
        var r := PageTableAdd(WithPool(m, pf, g.pool), page, g.got.value);
        if r.Ok? { LoopEmptiesPool(r.m, pf, page + 1, cnt - 1); }
      }
    }
  }

  lemma FailureEmptiesPool(m: Mem, cnt: nat)
    requires GetPages(m, PfUser, cnt).Null? && Take(UserHeap(m), cnt).got.Some?
    ensures FreeFrames(GetPages(m, PfUser, cnt).m.upool) == {}
    ensures m.dir in m.uheap
    ensures var m' := GetPages(m, PfUser, cnt).m;
            m'.dir == m.dir && m'.uheap == m.uheap[m.dir := Take(m.uheap[m.dir], cnt).pool]
  {
    hide MapRun, Palloc, FreeFrames, Find, ZeroRun, Faults;
    FoundForProcess(m, cnt);
    var v := VaddrGet(m, PfUser, cnt);
    LoopEmptiesPool(v.m, PfUser, v.page.value, cnt);
    LoopKeepsHeaps(v.m, PfUser, v.page.value, cnt);
    NoFreeFrame(GetPages(m, PfUser, cnt).m.upool);
  }

  lemma DirectoryIsNotKernel(m: Mem, d: nat)
    requires MemInv(m, {}) && d in m.uheap
    ensures d != KDIR
  {
    assert d in m.own && FrameOk(m, d);
    PoolFrames(m, d);
  }

  // ----- get_a_page without a frame

  /** After that run, get_a_page on another page of the process finds no frame. */
  lemma GetAPageFindsNoFrame() returns (d: nat, m: Mem)
    ensures var cs := [NewDir(NewProcess()), Activate(d), Pages(PfUser, 9)];
            Calls(SmallMem(), cs) && !Halts(SmallMem(), cs) && m == After(SmallMem(), cs)
    ensures MemInv(m, {}) && m.dir == d && d != KDIR && PageForecast(m, PfUser, 12) == FailsLeaking(12, 0)
    ensures GetAPage(m, PfUser, 12).Null?
  {
    hide MemInv, GetPages, CreatePageDir, SmallMem, FreeFrames, MallocForecast, PageLeaked, GetAPage, Calls, Halts, NeverShort, After;
    var m0;
    d, m0, m := RequestLeaks();
    GetAPageSafe(m, PfUser, 12);
  }
}
