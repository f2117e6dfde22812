/** Facts about single loads and stores of module KernelMemory: loops that clear or copy a page through the MMU. */
module PageWrites {
  import opened Options
  import opened Paging
  import opened Bitmaps
  import M = Memory
  import opened Memory
  import opened MemorySafety
  import opened Mapping
  import opened MallocSafety
  import opened MemoryRuns
  import opened KernelHalf
  import opened PoolLayout
  import opened LowMemory
  import opened Boot
  import opened Window

  lemma FindIsFirstFit(bits: seq<bool>, cnt: nat, k: nat)
    requires cnt > 0 && FirstFit(bits, cnt, k)
    ensures Find(bits, cnt) == Some(k)
  {
    hide FreeRun;
    var r := Find(bits, cnt);
    assert r.None? ==> !FreeRun(bits, k, cnt);
  }

  lemma FindOfNone(bits: seq<bool>, cnt: nat)
    requires cnt == 0 || NoFit(bits, cnt)
    ensures Find(bits, cnt) == None
  {
  }

  function Zeros(f: nat, n: nat): Ram {
    map j | 0 <= j < n :: Word(f, j) := 0
  }

  /** The words j < n of frame f cleared. */
  function ClearedTo(ram: Ram, f: nat, n: nat): Ram { ram + Zeros(f, n) }

  lemma ZerosHas(f: nat, n: nat, w: nat)
    ensures w in Zeros(f, n) <==> Word(f, 0) <= w < Word(f, n)
    ensures w in Zeros(f, n) ==> Zeros(f, n)[w] == 0
  {
    if Word(f, 0) <= w < Word(f, n) { assert w == Word(f, w - Word(f, 0)); }
  }

  lemma ZerosStep(f: nat, n: nat)
    ensures Zeros(f, n)[Word(f, n) := 0] == Zeros(f, n + 1)
  {
    hide Zeros;
    var h, k := Zeros(f, n)[Word(f, n) := 0], Zeros(f, n + 1);
    forall w: nat ensures (w in h <==> w in k) && (w in h ==> h[w] == k[w]) {
      ZerosHas(f, n, w);
      ZerosHas(f, n + 1, w);
    }
    assert h == k;
  }

  lemma ClearedStep(ram: Ram, f: nat, n: nat)
    ensures ClearedTo(ram, f, n)[Word(f, n) := 0] == ClearedTo(ram, f, n + 1)
  {
    hide Zeros, Word;
    ZerosStep(f, n);
  }

  lemma ClearedEnds(ram: Ram, f: nat)
    ensures ClearedTo(ram, f, 0) == ram && ClearedTo(ram, f, 1024) == Zeroed(ram, f)
  {
  }

  lemma ClearedDiffers(ram: Ram, f: nat, n: nat)
    requires n <= 1024
    ensures DiffersOnlyIn(ram, ClearedTo(ram, f, n), f)
  {
    forall g: nat, i: nat | g != f && i < 1024 ensures Read(ClearedTo(ram, f, n), Word(g, i)) == Read(ram, Word(g, i)) {
      ZerosHas(f, n, Word(g, i));
    }
  }

  /** The words 768 <= j < n of the directory copied to frame f. */
  function CopiedTo(ram: Ram, dir: nat, f: nat, n: nat): Ram { ram + Half(ram, dir, f, n) }

  lemma HalfHas(ram: Ram, dir: nat, f: nat, n: nat, w: nat)
    ensures w in Half(ram, dir, f, n) <==> Word(f, 768) <= w < Word(f, n)
    ensures w in Half(ram, dir, f, n) ==> Half(ram, dir, f, n)[w] == Read(ram, Word(dir, w - Word(f, 0)))
  {
    hide Read;
    if Word(f, 768) <= w < Word(f, n) { assert w == Word(f, w - Word(f, 0)); }
  }

  lemma HalfStep(ram: Ram, dir: nat, f: nat, n: nat)
    requires n >= 768
    ensures Half(ram, dir, f, n)[Word(f, n) := Read(ram, Word(dir, n))] == Half(ram, dir, f, n + 1)
  {
    hide Half, Read;
    var h, k := Half(ram, dir, f, n)[Word(f, n) := Read(ram, Word(dir, n))], Half(ram, dir, f, n + 1);
    forall w: nat ensures (w in h <==> w in k) && (w in h ==> h[w] == k[w]) {
      HalfHas(ram, dir, f, n, w);
      HalfHas(ram, dir, f, n + 1, w);
    }
    assert h == k;
  }

  lemma CopiedStep(ram: Ram, dir: nat, f: nat, n: nat)
    requires n >= 768
    ensures CopiedTo(ram, dir, f, n)[Word(f, n) := Read(ram, Word(dir, n))] == CopiedTo(ram, dir, f, n + 1)
  {
    hide Half, Read, Word;
    HalfStep(ram, dir, f, n);
  }

  /** memcpy copies entry 1023 as well; the last store puts it right. */
  lemma CopiedEnds(ram: Ram, dir: nat, f: nat)
    ensures CopiedTo(ram, dir, f, 768) == ram
    ensures CopiedTo(ram, dir, f, 1024)[Word(f, 1023) := Entry(f)] == CopyKernelHalf(ram, dir, f)
  {
    hide Half, Read, Word;
    NoHalf(ram, dir, f);
    HalfStep(ram, dir, f, 1023);
    LastWordWins(ram, Half(ram, dir, f, 1023), Word(f, 1023), Read(ram, Word(dir, 1023)), Entry(f));
  }

  lemma NoHalf(ram: Ram, dir: nat, f: nat)
    ensures Half(ram, dir, f, 768) == map[]
  {
  }

  lemma LastWordWins(ram: Ram, h: Ram, w: nat, x: nat, y: nat)
    ensures (ram + h[w := x])[w := y] == ram + h + map[w := y]
  {
  }

  lemma CopiedDiffers(ram: Ram, dir: nat, f: nat, n: nat)
    requires n <= 1024
    ensures DiffersOnlyIn(ram, CopiedTo(ram, dir, f, n), f)
  {
    forall g: nat, i: nat | g != f && i < 1024 ensures Read(CopiedTo(ram, dir, f, n), Word(g, i)) == Read(ram, Word(g, i)) {
      HalfHas(ram, dir, f, n, Word(g, i));
    }
  }

  /** A page is reached without passing through frame f. */
  predicate Avoids(ram: Ram, dir: nat, q: nat, f: nat) { f != dir && f != FrameOf(Read(ram, Word(dir, q / 1024))) }

  /** Writing to a frame that the walk of a page does not pass through leaves the page where it is. */
  lemma WriteKeepsPage(ram: Ram, ram': Ram, dir: nat, q: nat, f: nat)
    requires DiffersOnlyIn(ram, ram', f) && Avoids(ram, dir, q, f) && q < 0x10_0000
    ensures PageFrame(ram', dir, q) == PageFrame(ram, dir, q) && Avoids(ram', dir, q, f)
  {
  }

  /** The walk of a page does not pass through a frame that is no directory and no page table. */
  lemma HarmlessAvoids(m: Mem, q: nat, g: nat)
    requires HalfInv(m) && Harmless(m, g) && q < WINDOW_PAGE && PageFrame(m.ram, m.dir, q).Some?
    ensures Avoids(m.ram, m.dir, q, g)
  {
    hide KernelPageOk, UserFrameOk, OwnOk;
    var i := q / 1024;
    assert DirOk(m, m.dir);
    if i < 768 {
      assert TableOk(m, m.dir, Read(m.ram, Word(m.dir, i)));
    }
  }

  /** The last page of the window is the directory. */
  lemma DirectoryPage(ram: Ram, dir: nat)
    requires SelfMapped(ram, dir)
    ensures PageFrame(ram, dir, 0xf_ffff) == Some(dir)
  {
  }

  /** The pages that vaddr_get returns lie below the window. */
  lemma ReservedBelowWindow(m: Mem, pf: Flag, cnt: nat)
    requires LayoutOk(m)
    ensures match M.VaddrGet(m, pf, cnt)
            case Refused(_) => true
            case Reserved(m', page) => LayoutOk(m') && m'.ram == m.ram && m'.kpool == m.kpool && m'.dir == m.dir
                                       && (page.Some? ==> 0 < page.value && page.value + cnt <= WINDOW_PAGE)
  {
    hide Find;
  }

  lemma MapRunStep(m: Mem, pf: Flag, page: nat, cnt: nat)
    requires cnt > 0
    ensures MapRun(m, pf, page, cnt) ==
            var g := M.Palloc(PoolOf(m, pf));
            match g.got
            case None => NoFrame(m)
            case Some(f) =>
              match M.PageTableAdd(WithPool(m, pf, g.pool), page, f)
              case Halt(line) => Stopped(m, line)
              case Ok(m') => MapRun(m', pf, page + 1, cnt - 1)
  {
    hide M.Palloc, M.PageTableAdd;
  }

  lemma MapRunEnds(m: Mem, pf: Flag, page: nat)
    ensures MapRun(m, pf, page, 0) == Mapped(m)
  {
  }

  lemma NoFrameNoChange(m: Mem, pf: Flag)
    requires M.Palloc(PoolOf(m, pf)).got.None?
    ensures WithPool(m, pf, M.Palloc(PoolOf(m, pf)).pool) == m
  {
  }

  lemma SameWindow(m: Mem, m': Mem)
    requires WindowOk(m) && m'.ram == m.ram && m'.kpool == m.kpool && m'.dir == m.dir
    ensures WindowOk(m')
  {
  }

  lemma AddAtZero(m: Mem, page: nat, frame: nat)
    ensures page == 0 ==> M.PageTableAdd(m, page, frame) == Halt(101)
  {
    hide M.Palloc, Zeroed;
  }

  lemma AddKeepsWindowIfOk(m: Mem, page: nat, frame: nat)
    requires WindowOk(m) && page < WINDOW_PAGE
    ensures M.PageTableAdd(m, page, frame).Ok? ==> WindowOk(M.PageTableAdd(m, page, frame).m)
  {
    hide WindowOk, M.PageTableAdd;
    if M.PageTableAdd(m, page, frame).Ok? { AddKeepsWindow(m, page, frame); }
  }

  /** Word i of a mapped page. */
  lemma WordOfPage(ram: Ram, dir: nat, q: nat, i: nat)
    requires q < 0x10_0000 && i < 1024 && PageFrame(ram, dir, q).Some?
    ensures Walk(ram, dir, PageAddr(q, i)) == Some(4 * Word(PageFrame(ram, dir, q).value, i))
  {
    hide Walk, PageFrame;
    WalkIsPageFrame(ram, dir, PageAddr(q, i));
  }

  lemma PageParts(page: nat)
    requires page < 0x10_0000
    ensures PdeIdx(4096 * page) == page / 1024 && PteIdx(4096 * page) == page % 1024 && 4096 * page < VA_END
    ensures PtePtr(4096 * page) / 4096 == WindowPage(page / 1024)
  {
    assert PageAddr(page, 0) == 4096 * page;
  }

  /** With table tf entered into the directory, the window page of the table is frame tf. */
  lemma NewTableWindow(m: Mem, page: nat, tf: nat)
    requires WindowOk(m) && page < WINDOW_PAGE && tf != m.dir
    ensures var ram := m.ram[Word(m.dir, page / 1024) := Entry(tf)];
            && PageFrame(ram, m.dir, PtePtr(4096 * page) / 4096) == Some(tf)
            && FrameOf(Read(ram, Word(m.dir, WindowPage(page / 1024) / 1024))) == m.dir
            && SelfMapped(ram, m.dir)
  {
    hide Word, PtePtr;
    PageParts(page);
    WordsDiffer(m.dir, page / 1024, m.dir, 1023);
  }

  /** After the table was cleared, its entry for the page is the word that the walk uses, and it is 0. */
  lemma ClearedWindow(ram: Ram, dir: nat, page: nat, tf: nat)
    requires SelfMapped(ram, dir) && page < WINDOW_PAGE && tf != dir && Read(ram, Word(dir, page / 1024)) == Entry(tf)
    ensures var ram' := Zeroed(ram, tf);
            && SelfMapped(ram', dir) && PteWord(ram', dir, 4096 * page) == Some(Word(tf, page % 1024))
            && Read(ram', Word(tf, page % 1024)) == 0
  {
    hide Word, PtePtr, Zeroed;
    PageParts(page);
    ZeroedReads(ram, tf, dir, 1023);
    ZeroedReads(ram, tf, dir, page / 1024);
    ZeroedReads(ram, tf, tf, page % 1024);
  }

  /** One turn of the memset, as the specification sees it: it ends at a page that is not mapped. */
  lemma ClearTurn(ram: Ram, dir: nat, page: nat, cnt: nat)
    requires cnt > 0 && page < 0x10_0000
    ensures Walk(ram, dir, 4096 * page).Some? <==> PageFrame(ram, dir, page).Some?
    ensures match PageFrame(ram, dir, page)
            case None => Faults(ram, dir, page, cnt) && ZeroRun(ram, dir, page, cnt) == ram
            case Some(f) =>
              && Faults(ram, dir, page, cnt) == Faults(Zeroed(ram, f), dir, page + 1, cnt - 1)
              && ZeroRun(ram, dir, page, cnt) == ZeroRun(Zeroed(ram, f), dir, page + 1, cnt - 1)
  {
    hide PageFrame, Walk, Zeroed;
    PageWalk(ram, dir, page);
  }

  lemma NothingToZero(ram: Ram, dir: nat, page: nat)
    ensures ZeroRun(ram, dir, page, 0) == ram && !Faults(ram, dir, page, 0)
  {
  }

  lemma DirectoryAvoids(ram: Ram, dir: nat, page: nat, f: nat)
    requires SelfMapped(ram, dir) && Avoids(ram, dir, page, f)
    ensures Avoids(ram, dir, 0xf_ffff, f)
  {
  }

  lemma DirWordKept(ram: Ram, ram': Ram, dir: nat, page: nat, f: nat, i: nat)
    requires DiffersOnlyIn(ram, ram', f) && Avoids(ram, dir, page, f) && i < 1024
    ensures Read(ram', Word(dir, i)) == Read(ram, Word(dir, i))
    ensures 4 * Word(dir, i) / 4 == Word(dir, i) && 4 * Word(f, i) / 4 == Word(f, i)
    ensures 4096 * 0xf_ffff + 4 * i == 0xffff_f000 + 4 * i
  {
  }

  /** The page of a new directory before it is filled. */
  lemma NewPageFacts(m: Mem, page: nat, f: nat)
    requires FreshPage(m, page, f)
    ensures SelfMapped(m.ram, m.dir) && page < WINDOW_PAGE && PageFrame(m.ram, m.dir, page) == Some(f)
    ensures Avoids(m.ram, m.dir, page, f)
  {
    hide PageFrame, Avoids, KernelPageOk, UserFrameOk, OwnOk, TableOk;
    assert DirOk(m, m.dir);
    KernelPageFrame(m, m.dir, page);
    HarmlessAvoids(m, page, f);
  }

  /** Filling the page leaves it where it is, and addr_v2p finds it. */
  lemma CopiedKeeps(m: Mem, page: nat, f: nat)
    requires SelfMapped(m.ram, m.dir) && PageFrame(m.ram, m.dir, page) == Some(f) && Avoids(m.ram, m.dir, page, f) && page < WINDOW_PAGE
    ensures var ram' := CopiedTo(m.ram, m.dir, f, 1024);
            && PageFrame(ram', m.dir, page) == Some(f) && SelfMapped(ram', m.dir)
            && PteWord(ram', m.dir, 4096 * page).Some? && Walk(ram', m.dir, 4096 * page) == Some(4096 * f)
            && 4096 * page < VA_END
  {
    hide PageFrame, CopiedTo;
    var ram' := CopiedTo(m.ram, m.dir, f, 1024);
    CopiedDiffers(m.ram, m.dir, f, 1024);
    WriteKeepsPage(m.ram, ram', m.dir, page, f);
    DirWordKept(m.ram, ram', m.dir, page, f, 1023);
    PageWalk(ram', m.dir, page);
  }

  lemma HeapRanges(m: Mem)
    requires LayoutOk(m)
    ensures m.kheap.first + |m.kheap.used| <= WINDOW_PAGE
    ensures UserHeap(m).first + |UserHeap(m).used| <= KERNEL_PAGE
  {
  }

  lemma AllClear(bytes: seq<bv8>)
    requires forall i :: 0 <= i < 8 * |bytes| ==> !Bits(bytes)[i]
    ensures Bits(bytes) == Clear(8 * |bytes|)
  {
  }

  // ----- the first megabyte of the kernel half

  /** It is mapped to the first megabyte of memory. */
  ghost predicate FirstMegabyte(ram: Ram) {
    Read(ram, Word(KDIR, 768)) == Entry(KTABLE) && forall q: nat :: q < 256 ==> Read(ram, Word(KTABLE, q)) == Entry(q)
  }

  lemma FirstAfterSetup(ram0: Ram, ram: Ram)
    requires PagesSetUp(ram0, ram)
    ensures FirstMegabyte(ram)
  {
    assert Read(ram, Word(KDIR, 768)) == DirWord(768);
  }

  lemma LowPage(ram: Ram, q: nat)
    requires FirstMegabyte(ram) && q < 256
    ensures PageFrame(ram, KDIR, KERNEL_PAGE + q) == Some(q)
  {
    assert (KERNEL_PAGE + q) / 1024 == 768 && (KERNEL_PAGE + q) % 1024 == q;
  }

  /** The word and the page of a byte. */
  lemma ByteParts(a: nat)
    ensures var q, i := a / 4096, a % 4096 / 4; i < 1024 && a / 4 == Word(q, i) && a - a % 4 == 4096 * q + 4 * i
  {
  }

  /** The word of a low byte. */
  lemma LowWord(ram: Ram, a: nat)
    requires FirstMegabyte(ram) && a < 0x10_0000
    ensures var v := 0xc000_0000 + a; v % 4 == a % 4 && Walk(ram, KDIR, v - v % 4) == Some(4 * (a / 4)) && 4 * (a / 4) / 4 == a / 4
  {
    hide Walk, PageFrame, FirstMegabyte, Word, PdeIdx, PteIdx;
    var q, i := a / 4096, a % 4096 / 4;
    LowPage(ram, q);
    ByteParts(a);
    WordOfPage(ram, KDIR, KERNEL_PAGE + q, i);
  }

  /** Writing below the directory keeps the first megabyte mapped. */
  lemma LowWriteKeepsFirst(ram: Ram, a: nat, x: nat)
    requires FirstMegabyte(ram) && a < 0x10_0000
    ensures FirstMegabyte(ram[a / 4 := x])
  {
  }

  /** Clearing low bytes and setting up the pages do not disturb one another. */
  lemma SetupThenClear(ram0: Ram, ram: Ram, n: nat)
    requires PagesSetUp(ram0, ram) && BITMAPS + n <= 0x10_0000
    ensures PagesSetUp(ClearBytes(ram0, BITMAPS, n), ClearBytes(ram, BITMAPS, n))
  {
    hide ClearBytes, Entry, DirWord;
    var low, low0 := ClearBytes(ram, BITMAPS, n), ClearBytes(ram0, BITMAPS, n);
    forall w: nat | w >= Word(KDIR, 0) ensures Read(low, w) == Read(ram, w) && Read(low0, w) == Read(ram0, w) {
      ClearBytesWords(ram, BITMAPS, n, w);
      ClearBytesWords(ram0, BITMAPS, n, w);
    }
    forall w: nat | w < Word(KDIR, 0) ensures Read(low, w) == Read(low0, w) { ClearBytesAgree(ram, ram0, BITMAPS, n, w); }
  }
}
