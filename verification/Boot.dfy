/** The memory that the kernel starts from: setup_page of boot/loader.S, then mem_pool_init. */
module Boot {
  import opened Options
  import opened Paging
  import opened Memory
  import opened MemorySafety
  import opened LinearHeap
  import opened PoolLayout
  import opened LowMemory
  import opened KernelHalf
  import opened MemoryTheorems

  /** What setup_page leaves in word i of the directory. */
  function DirWord(i: nat): nat {
    if i == 0 then Entry(KTABLE)
    else if 768 <= i < 1023 then Entry(KTABLE + i - 768)
    else if i == 1023 then Entry(KDIR)
    else 0
  }

  /** ram is ram0 with the loader's directory and the first 256 entries of its first table filled in. */
  ghost predicate PagesSetUp(ram0: Ram, ram: Ram) {
    && (forall i: nat :: i < 1024 ==> Read(ram, Word(KDIR, i)) == DirWord(i))
    && (forall i: nat :: i < 256 ==> Read(ram, Word(KTABLE, i)) == Entry(i))
    && (forall w: nat :: w < Word(KDIR, 0) || Word(KTABLE, 256) <= w ==> Read(ram, w) == Read(ram0, w))
  }

  const BITMAPS: nat := 0x9_a000    // MEM_BITMAP_BASE is this address in the kernel half
  const MAIN_FRAME: nat := 0x9e     // main's PCB and stack

  /** The bytes of the three bitmaps together. */
  function BitmapBytes(allMem: nat): nat { var l := LayoutFor(allMem); l.kbytes + l.ubytes + l.kbytes }

  /** setup_page, and the bitmaps cleared by mem_pool_init. */
  ghost predicate Booted(ram0: Ram, ram: Ram, allMem: nat) { PagesSetUp(ClearBytes(ram0, BITMAPS, BitmapBytes(allMem)), ram) }

  /** There are 2 MB at least, and the bitmaps end below main's PCB (up to 512 MB: for at most 87391 pages, PoolLayout.BitmapsFitExactly). */
  predicate FitsMemory(allMem: nat) { USED_MEM <= allMem < 0x1_0000_0000 && LayoutFor(allMem).BitmapEnd() <= MAIN_PCB }

  /** mem_pool_init leaves main's PCB and stack alone, and hands out existing frames only, exactly when the memory fits. */
  lemma BootIsSoundExactly(allMem: nat)
    requires allMem < 0x1_0000_0000
    ensures (forall ram0: Ram :: FrameKept(ram0, ClearBytes(ram0, BITMAPS, BitmapBytes(allMem)), MAIN_FRAME))
            && (forall f: nat :: InPools(LayoutFor(allMem), f) ==> USED_MEM <= 4096 * f && 4096 * f + 4096 <= allMem)
            <==> FitsMemory(allMem)
  {
    hide LayoutFor, ClearBytes, FrameKept;
    PoolsAreRealExactly(allMem);
    FrameKeptExactly(BITMAPS, BitmapBytes(allMem), MAIN_FRAME);
  }

  /** After the boot of a memory that fits, main's PCB and stack are as they were. */
  lemma BootKeepsMain(ram0: Ram, ram: Ram, allMem: nat)
    requires Booted(ram0, ram, allMem) && FitsMemory(allMem)
    ensures FrameKept(ram0, ram, MAIN_FRAME)
  {
    hide LayoutFor, ClearBytes, ByteOf;
    var n := BitmapBytes(allMem);
    FrameKeptExactly(BITMAPS, n, MAIN_FRAME);
    assert FrameKept(ram0, ClearBytes(ram0, BITMAPS, n), MAIN_FRAME);
    forall a: nat | 4096 * MAIN_FRAME <= a < 4096 * MAIN_FRAME + 4096 ensures ByteAt(ram, a) == ByteAt(ram0, a) {
      assert a / 4 < Word(KDIR, 0);
    }
  }

  /** A machine that has booted: its memory fits, and no table word of a heap page was stale. */
  ghost predicate Boots(ram0: Ram, ram: Ram, allMem: nat) { FitsMemory(allMem) && Booted(ram0, ram, allMem) && NothingStale(ram0, allMem) }

  /** The memory after boot, with allMem bytes installed. */
  function BootMem(ram: Ram, allMem: nat): Mem {
    var l := LayoutFor(allMem);
    Mem(ram, KDIR, KernelPool(l), UserPool(l), KernelHeap(l), map[], map[], false)
  }

  /** The table words of heap pages, which the loader does not write, hold no present entry. */
  ghost predicate NothingStale(ram0: Ram, allMem: nat) {
    forall q: nat :: KernelHeap(LayoutFor(allMem)).Holds(q) ==> !Present(Read(ram0, KernelWord(q)))
  }

  /** What the loader maps: the first megabyte, at 0 and at 0xc0000000. */
  lemma BootMapsFirstMegabyte(ram0: Ram, ram: Ram, v: nat)
    requires PagesSetUp(ram0, ram) && v < 0x10_0000
    ensures Walk(ram, KDIR, v) == Some(v) && Walk(ram, KDIR, 0xc000_0000 + v) == Some(v)
    ensures SelfMapped(ram, KDIR)
  {
    hide Walk, Word;
    var q := v / 4096;
    WalkIsPageFrame(ram, KDIR, v);
    WalkIsPageFrame(ram, KDIR, 0xc000_0000 + v);
    assert (0xc000_0000 + v) / 4096 == KERNEL_PAGE + q && (0xc000_0000 + v) % 4096 == v % 4096;
    FirstPages(ram0, ram, q);
  }

  lemma FirstPages(ram0: Ram, ram: Ram, q: nat)
    requires PagesSetUp(ram0, ram) && q < 256
    ensures PageFrame(ram, KDIR, q) == Some(q) && PageFrame(ram, KDIR, KERNEL_PAGE + q) == Some(q)
    ensures SelfMapped(ram, KDIR)
  {
    hide Word, Entry;
    assert (KERNEL_PAGE + q) / 1024 == 768 && (KERNEL_PAGE + q) % 1024 == q && q / 1024 == 0;
    assert Read(ram, Word(KDIR, 0)) == DirWord(0) && Read(ram, Word(KDIR, 768)) == DirWord(768);
    assert Read(ram, Word(KDIR, 1023)) == DirWord(1023);
  }

  lemma BootLayout(ram: Ram, allMem: nat)
    requires allMem < 0x1_0000_0000
    ensures LayoutOk(BootMem(ram, allMem))
  {
    hide LayoutFor;
    PageBounds(allMem);
    KernelPagesBound(allMem);
  }

  lemma KernelPagesBound(allMem: nat)
    ensures LayoutFor(allMem).kpages < 0x1_0000
  {
    ModBound(FreePages(allMem) / 2);
  }

  lemma BootDirs(ram0: Ram, ram: Ram, allMem: nat)
    requires PagesSetUp(ram0, ram)
    ensures var m := BootMem(ram, allMem); DirOk(m, KDIR) && LowHalfOk(m, KDIR)
  {
    hide Word, LayoutFor;
    var m := BootMem(ram, allMem);
    forall i: nat | i < 1024 ensures Read(m.ram, Word(KDIR, i)) == DirWord(i) {}
  }

  /** The words of heap pages lie behind what the loader writes. */
  lemma HeapWordUnwritten(ram0: Ram, ram: Ram, allMem: nat, q: nat)
    requires Booted(ram0, ram, allMem) && allMem < 0x1_0000_0000 && KernelHeap(LayoutFor(allMem)).Holds(q)
    ensures q >= KERNEL_PAGE && Read(ram, KernelWord(q)) == Read(ram0, KernelWord(q))
  {
    hide LayoutFor, ClearBytes;
    BitmapsEndLow(allMem);
    var n := BitmapBytes(allMem);
    ClearBytesWords(ram0, BITMAPS, n, KernelWord(q));
  }

  /** Wherever they end, the bitmaps lie below the loader's directory. */
  lemma BitmapsEndLow(allMem: nat)
    requires allMem < 0x1_0000_0000
    ensures BITMAPS + BitmapBytes(allMem) <= 0x10_0000
  {
    hide LayoutFor;
    PageBounds(allMem);
    KernelPagesBound(allMem);
    UserPagesBound(allMem);
  }

  lemma UserPagesBound(allMem: nat)
    ensures LayoutFor(allMem).upages < 0x1_0000
  {
  }

  /**
   The memory invariant holds after boot exactly when no word of a heap page's table entry is
   stale: setup_page clears the directory only.
   */
  lemma BootInvExactly(ram0: Ram, ram: Ram, allMem: nat)
    requires Booted(ram0, ram, allMem) && FitsMemory(allMem)
    ensures MemInv(BootMem(ram, allMem), {}) <==> NothingStale(ram0, allMem)
  {
    hide PagesSetUp, ClearBytes, LayoutFor, Word, Read, DirOk, LowHalfOk, LayoutOk;
    var m := BootMem(ram, allMem);
    BootLayout(ram, allMem);
    BootDirs(ClearBytes(ram0, BITMAPS, BitmapBytes(allMem)), ram, allMem);
    forall q: nat | KernelHeap(LayoutFor(allMem)).Holds(q)
      ensures q >= KERNEL_PAGE && Read(ram, KernelWord(q)) == Read(ram0, KernelWord(q))
    {
      HeapWordUnwritten(ram0, ram, allMem, q);
    }
    if MemInv(m, {}) {
      forall q: nat | KernelHeap(LayoutFor(allMem)).Holds(q) ensures !Present(Read(ram0, KernelWord(q))) {
        assert KernelPageOk(m, q);
      }
    }
    if NothingStale(ram0, allMem) {
      forall q: nat | KERNEL_PAGE <= q ensures KernelPageOk(m, q) {}
    }
  }

  /** After boot the heap is linear with nothing handed out. */
  lemma BootIsLinear(ram0: Ram, ram: Ram, allMem: nat)
    requires Boots(ram0, ram, allMem)
    ensures Linear(BootMem(ram, allMem), 0, 8 * LayoutFor(allMem).kbytes)
  {
    hide MemInv, LayoutFor, PagesSetUp, ClearBytes, NothingStale;
    BootInvExactly(ram0, ram, allMem);
  }

  /**
   From boot on, in every run in which only get_kernel_pages draws on the kernel pool, the heap is a bump
   pointer, and addr_v2p of page k of the heap is kp_start + 4096 * k.
   */
  lemma BootHeapIsLinear(ram0: Ram, ram: Ram, allMem: nat, cs: seq<Call>, k: nat)
    requires Boots(ram0, ram, allMem)
    requires Calls(BootMem(ram, allMem), cs) && NeverShort(BootMem(ram, allMem), cs) && HeapCalls(BootMem(ram, allMem), cs) && !Halts(BootMem(ram, allMem), cs)
    ensures var served := Bump(0, Requests(cs), 8 * LayoutFor(allMem).kbytes);
            var m := After(BootMem(ram, allMem), cs);
            served.Some? && (k < served.value ==> AddrV2P(m.ram, m.dir, 0xc010_0000 + 4096 * k) == Some(0x20_0000 + 4096 * k))
  {
    hide Boots, LayoutFor, AddrV2P, BootMem, Calls, NeverShort, HeapCalls, Halts, After;
    var total := 8 * LayoutFor(allMem).kbytes;
    BootIsLinear(ram0, ram, allMem);
    HeapIsBumpPointer(BootMem(ram, allMem), cs, 0, total);
    var served := Bump(0, Requests(cs), total);
    if k < served.value { HeapAddressIsLinear(After(BootMem(ram, allMem), cs), served.value, total, k); }
  }

  /** From boot on, a run of memory calls keeps the memory safe if and only if no call of it is short of page tables. */
  lemma BootRunIsSafeExactly(ram0: Ram, ram: Ram, allMem: nat, cs: seq<Call>)
    requires Boots(ram0, ram, allMem) && Calls(BootMem(ram, allMem), cs) && !Halts(BootMem(ram, allMem), cs)
    ensures MemInv(After(BootMem(ram, allMem), cs), {}) <==> NeverShort(BootMem(ram, allMem), cs)
  {
    hide MemInv, LayoutFor, Calls, NeverShort, Halts, PagesSetUp, ClearBytes, NothingStale;
    BootInvExactly(ram0, ram, allMem);
    RunKeepsMemoryExactly(BootMem(ram, allMem), cs);
  }

  /** From boot on, whatever calls are made, every process sees the kernel half as the kernel does. */
  lemma BootRunKeepsKernelHalf(ram0: Ram, ram: Ram, allMem: nat, cs: seq<Call>, d: nat, v: nat)
    requires Boots(ram0, ram, allMem) && Calls(BootMem(ram, allMem), cs) && !Halts(BootMem(ram, allMem), cs)
    requires IsDir(After(BootMem(ram, allMem), cs), d) && 0xc000_0000 <= v < 0xffc0_0000
    ensures var m := After(BootMem(ram, allMem), cs); Walk(m.ram, d, v) == Walk(m.ram, KDIR, v)
  {
    hide MemInv, LayoutFor, Calls, Halts, PagesSetUp, ClearBytes, NothingStale, Walk;
    BootInvExactly(ram0, ram, allMem);
    RunKeepsKernelHalf(BootMem(ram, allMem), cs, d, v);
  }

  /** A stale word for the first heap page halts the first get_kernel_pages at line 111. */
  lemma StaleWordHalts(ram0: Ram, ram: Ram, allMem: nat, cnt: nat)
    requires Booted(ram0, ram, allMem) && FitsMemory(allMem) && 0 < cnt < 3840 && cnt <= 8 * LayoutFor(allMem).kbytes
    requires Present(Read(ram0, KernelWord(HEAP_PAGE)))
    ensures GetPages(BootMem(ram, allMem), PfKernel, cnt).Stop? && GetPages(BootMem(ram, allMem), PfKernel, cnt).line == 111
  {
    hide LayoutFor, Find, PageTableAdd, PagesSetUp, ClearBytes, Word;
    var m := BootMem(ram, allMem);
    PageBounds(allMem);
    FindAfterPrefix(m.kheap.used, 0, cnt);
    FindAfterPrefix(m.kpool.used, 0, 1);
    var v := VaddrGet(m, PfKernel, cnt);
    assert v.page == Some(HEAP_PAGE);
    var g := Palloc(m.kpool);
    assert g.got == Some(0x200);
    var m1 := WithPool(v.m, PfKernel, g.pool);
    HeapWordUnwritten(ram0, ram, allMem, HEAP_PAGE);
    BootDirs(ClearBytes(ram0, BITMAPS, BitmapBytes(allMem)), ram, allMem);
    StaleAdd(m, m1);
  }

  lemma StaleAdd(m: Mem, m1: Mem)
    requires DirOk(m, KDIR) && m1.ram == m.ram && m1.dir == KDIR && Present(Read(m.ram, KernelWord(HEAP_PAGE)))
    ensures PageTableAdd(m1, HEAP_PAGE, 0x200) == Halt(111)
  {
    assert HEAP_PAGE / 1024 == 768 && HEAP_PAGE % 1024 == 256;
    assert Read(m.ram, Word(KDIR, 768)) == Entry(KTABLE + 768 - 768);
    assert Word(KTABLE, 256) == KernelWord(HEAP_PAGE);
  }
}
