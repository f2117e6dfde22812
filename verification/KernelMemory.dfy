/**
 kernel/memory.c, create_page_dir and setup_page as they run: physical memory, CR3 and the
 bitmap arrays are updated in place, and page tables are reached only through virtual
 addresses. Each method is proved equal to the function of module Memory that specifies it.
 */
module KernelMemory {
  import opened Options
  import opened Paging
  import opened Bitmaps
  import M = Memory
  import opened Memory
  import opened MemorySafety
  import opened MallocSafety
  import opened Outcomes
  import opened MemoryRuns
  import opened KernelHalf
  import opened PoolLayout
  import opened LowMemory
  import opened Boot
  import opened Window
  import opened PageWrites

  class PageManager {
    var ram: Ram
    var dir: nat
    var kbits: array<bv8>
    var ubits: array<bv8>
    var hbits: array<bv8>
    var ufirst: nat
    var uheap: map<nat, Pool>
    var klock: nat  // how often the running thread holds the lock of the kernel pool
    var ulock: nat  // and that of the user pool
    ghost var own: map<nat, Use>
    ghost var zeroTable: bool

    ghost predicate Valid()
      reads this
    {
      && kbits != ubits && kbits != hbits && ubits != hbits && ufirst > 0
      && kbits.Length < 0x1_0000 && ubits.Length < 0x1_0000 && hbits.Length < 0x1_0000
    }

    /** What the fields stand for. */
    ghost function View(): Mem
      reads this, kbits, ubits, hbits
    {
      Mem(ram, dir, Pool(0x200, Bits(kbits[..])), Pool(ufirst, Bits(ubits[..])), Pool(HEAP_PAGE, Bits(hbits[..])),
          uheap, own, zeroTable)
    }

    ghost function LockDepth(pf: Flag): nat
      reads this
    {
      if pf.PfKernel? then klock else ulock
    }

    /** lock_acquire() and lock_release() of a pool's lock, once they have returned. */
    method LockAcquire(pf: Flag)
      modifies this`klock, this`ulock
      ensures LockDepth(pf) == old(LockDepth(pf)) + 1
    {
      if pf.PfKernel? { klock := klock + 1; } else { ulock := ulock + 1; }
    }

    method LockRelease(pf: Flag)
      requires LockDepth(pf) > 0
      modifies this`klock, this`ulock
      ensures LockDepth(pf) == old(LockDepth(pf)) - 1
    {
      if pf.PfKernel? { klock := klock - 1; } else { ulock := ulock - 1; }
    }

    /** A load from a mapped virtual address. */
    method Load(v: nat) returns (x: nat)
      requires Walk(ram, dir, v).Some?
      ensures x == Read(ram, Walk(ram, dir, v).value / 4)
    {
      x := Read(ram, Walk(ram, dir, v).value / 4);
    }

    /** A store to a mapped virtual address. */
    method Store(v: nat, x: nat)
      requires Walk(ram, dir, v).Some?
      modifies this`ram
      ensures ram == old(ram)[Walk(old(ram), dir, v).value / 4 := x]
    {
      ram := ram[Walk(ram, dir, v).value / 4 := x];
    }

    /** palloc(): frame 0 stands for NULL. */
    method Palloc(pf: Flag) returns (f: nat)
      requires Valid()
      modifies kbits, ubits
      ensures Valid() && View() == WithPool(old(View()), pf, M.Palloc(PoolOf(old(View()), pf)).pool)
      ensures f == match M.Palloc(PoolOf(old(View()), pf)).got case None => 0 case Some(n) => n
      ensures f == 0 <==> M.Palloc(PoolOf(old(View()), pf)).got.None?
    {
      hide Bits, Find, FirstFit, NoFit, SetRun;
      var bits := if pf.PfKernel? then kbits else ubits;
      ghost var before := Bits(bits[..]);
      var i := TakeRun(bits, 1);
      if i == -1 {
        FindOfNone(before, 1);
        return 0;
      }
      FindIsFirstFit(before, 1, i);
      return i + if pf.PfKernel? then 0x200 else ufirst;
    }

    /** memset(page, 0, PG_SIZE), word by word through the MMU. */
    method ClearPage(page: nat)
      requires page < 0x10_0000 && PageFrame(ram, dir, page).Some?
      requires Avoids(ram, dir, page, PageFrame(ram, dir, page).value)
      modifies this`ram
      ensures ram == Zeroed(old(ram), PageFrame(old(ram), dir, page).value)
    {
      hide PageFrame, Walk, ClearedTo, Zeroed, Word, Avoids, DiffersOnlyIn;
      ghost var ram0 := ram;
      ghost var f := PageFrame(ram, dir, page).value;
      ClearedEnds(ram0, f);
      for i := 0 to 1024
        invariant ram == ClearedTo(ram0, f, i)
      {
        ClearedDiffers(ram0, f, i);
        WriteKeepsPage(ram0, ram, dir, page, f);
        WordOfPage(ram, dir, page, i);
        ClearedStep(ram0, f, i);
        Store(4096 * page + 4 * i, 0);
      }
    }

    /** page_table_add(), lines 119 to 125: a new page table. */
    method AddNewTable(page: nat, frame: nat)
      requires Valid() && WindowOk(View()) && page < WINDOW_PAGE && page != 0 && frame != 0
      requires !Present(Read(ram, Word(dir, page / 1024)))
      modifies this`ram, this`own, this`zeroTable, kbits, ubits
      ensures Valid() && M.PageTableAdd(old(View()), page, frame) == Ok(View())
    {
      hide PageFrame, Walk, Zeroed, Word, M.Palloc, Bits, PdePtr, PtePtr, LeadsAway, SelfMapped, PdeIdx, PteIdx, FrameOf;
      var v := 4096 * page;
      var pde, pte := PdePtr(v), PtePtr(v);
      ghost var m0 := View();
      PageParts(page);
      PdePtrHitsPde(ram, dir, v);
      DrawnTableIsNotDir(m0);
      var tf := Palloc(PfKernel);
      Store(pde, 4096 * tf + 7);
      NewTableWindow(m0, page, tf);
      ClearPage(pte / 4096);
      ClearedWindow(m0.ram[Word(dir, page / 1024) := Entry(tf)], dir, page, tf);
      PtePtrHitsPte(ram, dir, v);
      var t := Load(pte);
      assert t % 2 == 0;
      Store(pte, 4096 * frame + 7);
      own := (if tf != 0 then own[tf := Table(dir, page / 1024)] else own)[frame := UseOf(dir, page)];
      zeroTable := zeroTable || tf == 0;
    }

    /**
     page_table_add(): 0, or the line of the ASSERT that fails. The directory entry and the table
     entry are read and written through pde_ptr and pte_ptr, and no access faults.
     */
    method PageTableAdd(page: nat, frame: nat) returns (line: nat)
      requires Valid() && WindowOk(View()) && page < WINDOW_PAGE
      modifies this`ram, this`own, this`zeroTable, kbits, ubits
      ensures Valid()
      ensures match M.PageTableAdd(old(View()), page, frame)
              case Ok(m) => line == 0 && View() == m
              case Halt(l) => line == l && l != 0 && View() == old(View())
    {
      hide PageFrame, Walk, Zeroed, Word, M.Palloc, Bits, PdePtr, PtePtr, LeadsAway;
      if page == 0 { return 101; }
      if frame == 0 { return 102; }
      var v := 4096 * page;
      var pde, pte := PdePtr(v), PtePtr(v);
      PageParts(page);
      PdePtrHitsPde(ram, dir, v);
      PtePtrHitsPte(ram, dir, v);
      var e := Load(pde);
      if e % 2 == 1 {
        var t := Load(pte);
        if t % 2 == 1 { return 111; }
        Store(pte, 4096 * frame + 7);
        own := own[frame := UseOf(dir, page)];
      } else {
        AddNewTable(page, frame);
      }
      return 0;
    }

    /** vaddr_get(): page 0 stands for NULL; line is 0, or that of the ASSERT that fails. */
    method VaddrGet(pf: Flag, cnt: nat) returns (page: nat, line: nat)
      requires Valid() && LayoutOk(View()) && cnt <= 0xffff_ffff
      modifies this`uheap, hbits
      ensures Valid()
      ensures match M.VaddrGet(old(View()), pf, cnt)
              case Refused(l) => line == l && l != 0
              case Reserved(m, p) => line == 0 && View() == m && page == if p.Some? then p.value else 0
    {
      hide Bits, Find, FirstFit, NoFit, SetRun;
      if pf.PfKernel? {
        ghost var before := Bits(hbits[..]);
        var i := TakeRun(hbits, cnt);
        if i == -1 {
          FindOfNone(before, cnt);
          return 0, 0;
        }
        FindIsFirstFit(before, cnt, i);
        return HEAP_PAGE + i, 0;
      }
      var heap := if dir in uheap then uheap[dir] else Pool(0, []);
      var g := Take(heap, cnt);
      if g.got.None? { return 0, 0; }
      uheap := uheap[dir := g.pool];
      if g.got.value >= KERNEL_PAGE - 1 { return 0, 64; }
      return g.got.value, 0;
    }

    /** malloc_page(): page 0 stands for NULL; line is 0, or that of the ASSERT that fails. */
    method MallocPage(pf: Flag, cnt: nat) returns (page: nat, line: nat)
      requires Valid() && WindowOk(View()) && LayoutOk(View()) && cnt <= 0xffff_ffff
      modifies this`ram, this`own, this`zeroTable, this`uheap, kbits, ubits, hbits
      ensures Valid()
      ensures match M.MallocPage(old(View()), pf, cnt)
              case Stop(_, l) => line == l && l != 0
              case Null(m) => line == 0 && page == 0 && View() == m
              case Got(m, p) => line == 0 && page == p && p != 0 && View() == m
    {
      hide Bits, M.Palloc, M.PageTableAdd, M.VaddrGet, MapRun, WindowOk, LayoutOk, Read, Word, PageFrame;
      if !(cnt > 0 && cnt < 3840) { return 0, 132; }
      ReservedBelowWindow(View(), pf, cnt);
      ghost var m0 := View();
      page, line := VaddrGet(pf, cnt);
      if line != 0 { return; }
      ghost var m1 := View();
      SameWindow(m0, m1);
      var done := 0;
      while done < cnt
        invariant 0 <= done <= cnt && Valid() && WindowOk(View())
        invariant page == 0 ==> done == 0
        invariant MapRun(m1, pf, page, cnt) == MapRun(View(), pf, page + done, cnt - done)
      {
        ghost var m2 := View();
        MapRunStep(m2, pf, page + done, cnt - done);
        TakeKeepsWindow(View(), pf);
        var frame := Palloc(pf);
        if frame == 0 {
          NoFrameNoChange(m2, pf);
          return 0, 0;
        }
        AddAtZero(View(), page + done, frame);
        AddKeepsWindowIfOk(View(), page + done, frame);
        line := PageTableAdd(page + done, frame);
        if line != 0 { return; }
        done := done + 1;
      }
      MapRunEnds(View(), pf, page + done);
    }

    /**
     The memset of get_kernel_pages and get_user_pages over reserved pages: it clears their frames and touches
     nothing else, up to a page that is not mapped, where it faults.
     */
    method ClearRun(ghost pf: Flag, page: nat, cnt: nat) returns (ok: bool)
      requires HalfInv(View()) && RunHeld(View(), pf, page, cnt)
      modifies this`ram
      ensures ok <==> !Faults(old(ram), dir, page, cnt)
      ensures ram == ZeroRun(old(ram), dir, page, cnt)
    {
      hide HalfInv, RunHeld, PageFrame, Walk, Zeroed, ZeroRun, Faults, Avoids, Read, Bits, Stable, Harmless;
      ghost var m0 := View();
      var done := 0;
      while done < cnt
        invariant 0 <= done <= cnt && View() == m0.(ram := ram)
        invariant HalfInv(View()) && RunHeld(View(), pf, page + done, cnt - done)
        invariant ZeroRun(m0.ram, dir, page, cnt) == ZeroRun(ram, dir, page + done, cnt - done)
        invariant Faults(m0.ram, dir, page, cnt) == Faults(ram, dir, page + done, cnt - done)
      {
        HeldInRange(View(), pf, page + done, cnt - done);
        ClearTurn(ram, dir, page + done, cnt - done);
        if Walk(ram, dir, 4096 * (page + done)).None? { return false; }
        HeldFrameIsHarmless(View(), pf, page + done, cnt - done, page + done);
        HarmlessAvoids(View(), page + done, PageFrame(ram, dir, page + done).value);
        ClearOneKeepsHalf(View(), pf, page + done, cnt - done);
        ClearPage(page + done);
        done := done + 1;
      }
      NothingToZero(ram, dir, page + done);
      return true;
    }

    /** get_kernel_pages() and get_user_pages(), in every state that a run can reach. */
    method GetPages(pf: Flag, cnt: nat) returns (page: nat, line: nat)
      requires Valid() && HalfInv(View()) && cnt <= 0xffff_ffff
      modifies this`ram, this`own, this`zeroTable, this`uheap, this`klock, this`ulock, kbits, ubits, hbits
      ensures Valid()
      ensures line == 0 ==> LockDepth(pf) == old(LockDepth(pf))
      ensures match M.GetPages(old(View()), pf, cnt)
              case Stop(_, l) => line == l && l != 0
              case Null(m) => line == 0 && page == 0 && View() == m
              case Got(m, p) => line == 0 && page == p && p != 0 && View() == m
    {
      hide HalfInv, WindowOk, LayoutOk, M.MallocPage, RunHeld, Bits, ZeroRun, Faults, Stable;
      ghost var m0 := View();
      HalfGivesWindow(m0);
      MallocKeepsHalf(m0, pf, cnt);
      if pf.PfUser? { LockAcquire(pf); }
      page, line := MallocPage(pf, cnt);
      if line != 0 { return; }
      if page != 0 {
        var ok := ClearRun(pf, page, cnt);
        if !ok { return page, if pf.PfKernel? then 164 else 179; }
      }
      if pf.PfUser? { LockRelease(pf); }
    }

    /** addr_v2p(), on an address whose page table exists. */
    method AddrV2P(v: nat) returns (pa: nat)
      requires SelfMapped(ram, dir) && v < VA_END && PteWord(ram, dir, v).Some?
      ensures Paging.AddrV2P(ram, dir, v) == Some(pa)
      ensures Walk(ram, dir, v).Some? ==> Walk(ram, dir, v) == Some(pa)
    {
      hide Walk, PtePtr, PteWord;
      PtePtrHitsPte(ram, dir, v);
      if Walk(ram, dir, v).Some? { AddrV2PAgreesWithWalk(ram, dir, v); }
      var pte := Load(PtePtr(v));
      return pte - pte % 4096 + v % 4096;
    }

    /** The memcpy of create_page_dir: words 768 to 1023 of the directory, read through the window, to a data page. */
    method CopyHalf(page: nat)
      requires SelfMapped(ram, dir) && page < 0x10_0000 && PageFrame(ram, dir, page).Some?
      requires Avoids(ram, dir, page, PageFrame(ram, dir, page).value)
      modifies this`ram
      ensures ram == CopiedTo(old(ram), dir, PageFrame(old(ram), dir, page).value, 1024)
    {
      hide PageFrame, Walk, CopiedTo, Word, SelfMapped, Avoids, DiffersOnlyIn, Read;
      ghost var ram0 := ram;
      ghost var f := PageFrame(ram, dir, page).value;
      DirectoryPage(ram0, dir);
      DirectoryAvoids(ram0, dir, page, f);
      CopiedEnds(ram0, dir, f);
      for i := 768 to 1024
        invariant ram == CopiedTo(ram0, dir, f, i)
      {
        CopiedDiffers(ram0, dir, f, i);
        WriteKeepsPage(ram0, ram, dir, page, f);
        WriteKeepsPage(ram0, ram, dir, 0xf_ffff, f);
        WordOfPage(ram, dir, 0xf_ffff, i);
        WordOfPage(ram, dir, page, i);
        CopiedStep(ram0, dir, f, i);
        DirWordKept(ram0, ram, dir, page, f, i);
        var x := Load(0xffff_f000 + 4 * i);
        Store(4096 * page + 4 * i, x);
      }
    }

    /** create_page_dir(); `up` is the page range that the new process gets. */
    method CreatePageDir(up: Pool) returns (page: nat, line: nat)
      requires Valid() && HalfInv(View())
      modifies this`ram, this`own, this`zeroTable, this`uheap, this`klock, this`ulock, kbits, ubits, hbits
      ensures Valid()
      ensures match M.CreatePageDir(old(View()), up)
              case Stop(_, l) => line == l && l != 0
              case Null(m) => line == 0 && page == 0 && View() == m
              case Got(m, p) => line == 0 && page == p && p != 0 && View() == m
    {
      hide HalfInv, M.GetPages, PageFrame, Walk, Read, Bits, CopyKernelHalf, CopiedTo, Word, Avoids, FreshPage,
           SelfMapped, PteWord, Paging.AddrV2P;
      ghost var m0 := View();
      page, line := GetPages(PfKernel, 1);
      if line != 0 || page == 0 { return; }
      ghost var m1 := View();
      ghost var f := GetGivesFreshPage(m0, page, m1);
      NewPageFacts(m1, page, f);
      FreshAddress(m1, page, f);
      CopyHalf(page);
      CopiedKeeps(m1, page, f);
      var pa := AddrV2P(4096 * page);
      WordOfPage(ram, dir, page, 1023);
      CopiedEnds(m1.ram, dir, f);
      Store(4096 * page + 4 * 1023, pa + 7);
      uheap := uheap[pa / 4096 := up];
    }

    /** The first part of get_a_page: the page is marked in the bitmap it belongs to, or the line of the ASSERT that fails. */
    method MarkPage(pf: Flag, page: nat) returns (line: nat)
      requires Valid()
      modifies this`uheap, hbits
      ensures Valid()
      ensures line == MarkLine(old(View()), pf, page)
      ensures line == 0 ==> HeapOf(old(View()), pf).Holds(page) && View() == Marked(old(View()), pf, page)
    {
      hide Bits;
      if pf.PfUser? && dir != KDIR {
        var heap := if dir in uheap then uheap[dir] else Pool(0, []);
        if page == heap.first { return 198; }
        if !heap.Holds(page) { return 60; }
        uheap := uheap[dir := heap.(used := heap.used[page - heap.first := true])];
      } else if pf.PfKernel? && dir == KDIR {
        if page == HEAP_PAGE { return 204; }
        if page < HEAP_PAGE { return 60; }
        var ok := BitmapSet(hbits, page - HEAP_PAGE, true);
        if !ok { return 60; }
      } else {
        return 209;
      }
      return 0;
    }

    /** The rest of get_a_page, with the page marked and the lock held: without a frame it returns with the lock. */
    method MapMarked(pf: Flag, page: nat) returns (got: bool, line: nat)
      requires Valid() && WindowOk(View()) && page < WINDOW_PAGE && LockDepth(pf) > 0
      modifies this`ram, this`own, this`zeroTable, this`klock, this`ulock, kbits, ubits
      ensures Valid()
      ensures line == 0 ==> LockDepth(pf) == old(LockDepth(pf)) - if got then 1 else 0
      ensures match M.Palloc(PoolOf(old(View()), pf)).got
              case None => line == 0 && !got && View() == old(View())
              case Some(f) =>
                match M.PageTableAdd(WithPool(old(View()), pf, M.Palloc(PoolOf(old(View()), pf)).pool), page, f)
                case Halt(l) => line == l && l != 0
                case Ok(m) => line == 0 && got && View() == m
    {
      hide Bits, M.Palloc, M.PageTableAdd, WindowOk, Read, Word, PageFrame;
      ghost var m1 := View();
      TakeKeepsWindow(m1, pf);
      var frame := Palloc(pf);
      if frame == 0 {
        NoFrameNoChange(m1, pf);
        return false, 0;
      }
      line := PageTableAdd(page, frame);
      if line != 0 { return false, line; }
      LockRelease(pf);
      return true, 0;
    }

    /**
     get_a_page(): line is 0, or that of the ASSERT that fails. A call that returns leaves the depth of the
     pool's lock as it was if and only if the pool had a free frame; without one it keeps the lock.
     */
    method GetAPage(pf: Flag, page: nat) returns (got: bool, line: nat)
      requires Valid() && WindowOk(View()) && LayoutOk(View())
      modifies this`ram, this`own, this`zeroTable, this`uheap, this`klock, this`ulock, kbits, ubits, hbits
      ensures Valid()
      ensures line == 0 ==> LockDepth(pf) == old(LockDepth(pf)) + if got then 0 else 1
      ensures line == 0 ==> (LockDepth(pf) == old(LockDepth(pf)) <==> FreeFrames(PoolOf(old(View()), pf)) != {})
      ensures match M.GetAPage(old(View()), pf, page)
              case Stop(_, l) => line == l && l != 0
              case Null(m) => line == 0 && !got && View() == m
              case Got(m, p) => line == 0 && got && p == page && View() == m
    {
      hide Bits, M.Palloc, M.PageTableAdd, WindowOk, LayoutOk, Read, Word, PageFrame, FreeFrames;
      ghost var m0 := View();
      HeapRanges(m0);
      if !M.GetAPage(m0, pf, page).Stop? { GetANullExactly(m0, pf, page); }
      LockAcquire(pf);
      line := MarkPage(pf, page);
      if line != 0 { return false, line; }
      SameWindow(m0, View());
      got, line := MapMarked(pf, page);
    }

    /** .clear_page_dir */
    method ClearDirectory()
      modifies this`ram
      ensures forall j: nat :: j < 1024 ==> Read(ram, Word(KDIR, j)) == 0
      ensures forall w: nat :: w < Word(KDIR, 0) || Word(KDIR, 1024) <= w ==> Read(ram, w) == Read(old(ram), w)
    {
      for i := 0 to 1024
        invariant forall j: nat :: j < i ==> Read(ram, Word(KDIR, j)) == 0
        invariant forall w: nat :: w < Word(KDIR, 0) || Word(KDIR, 1024) <= w ==> Read(ram, w) == Read(old(ram), w)
      {
        ram := ram[Word(KDIR, i) := 0];
      }
    }

    /** .creat_pte: the first megabyte. */
    method CreatePtes()
      modifies this`ram
      ensures forall j: nat :: j < 256 ==> Read(ram, Word(KTABLE, j)) == Entry(j)
      ensures forall w: nat :: w < Word(KTABLE, 0) || Word(KTABLE, 256) <= w ==> Read(ram, w) == Read(old(ram), w)
    {
      hide Entry;
      for i := 0 to 256
        invariant forall j: nat :: j < i ==> Read(ram, Word(KTABLE, j)) == Entry(j)
        invariant forall w: nat :: w < Word(KTABLE, 0) || Word(KTABLE, 256) <= w ==> Read(ram, w) == Read(old(ram), w)
      {
        ram := ram[Word(KTABLE, i) := Entry(i)];
      }
    }

    /** .create_kernel_pde: entries 769 to 1022. */
    method CreateKernelPdes()
      modifies this`ram
      ensures forall j: nat :: 769 <= j < 1023 ==> Read(ram, Word(KDIR, j)) == Entry(KTABLE + j - 768)
      ensures forall w: nat :: w < Word(KDIR, 769) || Word(KDIR, 1023) <= w ==> Read(ram, w) == Read(old(ram), w)
    {
      hide Entry;
      for i := 769 to 1023
        invariant forall j: nat :: 769 <= j < i ==> Read(ram, Word(KDIR, j)) == Entry(KTABLE + j - 768)
        invariant forall w: nat :: w < Word(KDIR, 769) || Word(KDIR, i) <= w ==> Read(ram, w) == Read(old(ram), w)
      {
        ram := ram[Word(KDIR, i) := Entry(KTABLE + i - 768)];
      }
    }

    /** setup_page, with paging off: the directory cleared and filled, the first megabyte mapped. */
    method SetupPage()
      modifies this`ram
      ensures PagesSetUp(old(ram), ram)
    {
      hide Entry;
      ClearDirectory();
      ram := ram[Word(KDIR, 0) := Entry(KTABLE)];
      ram := ram[Word(KDIR, 768) := Entry(KTABLE)];
      ram := ram[Word(KDIR, 1023) := Entry(KDIR)];
      CreatePtes();
      CreateKernelPdes();
    }

    /** memset(v, 0, n) through the MMU, byte by byte, in the first megabyte of the kernel half. */
    method ClearLow(v: nat, n: nat)
      requires dir == KDIR && FirstMegabyte(ram) && 0xc000_0000 <= v && v + n <= 0xc010_0000
      modifies this`ram
      ensures ram == ClearBytes(old(ram), v - 0xc000_0000, n) && FirstMegabyte(ram)
    {
      hide FirstMegabyte, Walk, WithoutByte;
      assert ClearBytes(ram, v - 0xc000_0000, 0) == ram;
      ghost var from := v - 0xc000_0000;
      for i := 0 to n
        invariant ram == ClearBytes(old(ram), from, i) && FirstMegabyte(ram)
      {
        var a := v + i;
        LowWord(ram, from + i);
        LowWriteKeepsFirst(ram, from + i, WithoutByte(Read(ram, (from + i) / 4), (from + i) % 4));
        var x := Load(a - a % 4);
        Store(a - a % 4, WithoutByte(x, a % 4));
      }
    }

    /** bitmap_init of the three bitmaps, in the low memory where they lie and in the arrays that stand for them afterwards. */
    method InitBitmaps()
      requires Valid() && dir == KDIR && FirstMegabyte(ram)
      requires BITMAPS + kbits.Length + ubits.Length + kbits.Length <= 0x10_0000 && hbits.Length == kbits.Length
      modifies this`ram, kbits, ubits, hbits
      ensures ram == ClearBytes(old(ram), BITMAPS, kbits.Length + ubits.Length + kbits.Length)
      ensures Bits(kbits[..]) == Clear(8 * kbits.Length) && Bits(ubits[..]) == Clear(8 * ubits.Length) && Bits(hbits[..]) == Clear(8 * hbits.Length)
    {
      hide FirstMegabyte, ClearBytes, Clear, Bits;
      var k, u := kbits.Length, ubits.Length;
      ClearLow(BITMAP_BASE, k);
      ClearLow(BITMAP_BASE + k, u);
      ClearLow(BITMAP_BASE + k + u, k);
      ClearBytesCompose(old(ram), BITMAPS, k, u);
      ClearBytesCompose(old(ram), BITMAPS, k + u, k);
      BitmapInit(kbits);
      BitmapInit(ubits);
      BitmapInit(hbits);
      AllClear(kbits[..]);
      AllClear(ubits[..]);
      AllClear(hbits[..]);
    }

    /**
     The loader's setup_page and then mem_pool_init, on a machine with allMem bytes whose memory holds ram0.
     If the bitmaps end below main's PCB, main's page is left alone.
     */
    constructor (ram0: Ram, allMem: nat)
      requires allMem < 0x1_0000_0000
      ensures Valid() && Booted(ram0, ram, allMem) && View() == BootMem(ram, allMem)
      ensures FitsMemory(allMem) ==> FrameKept(ram0, ram, MAIN_FRAME)
      ensures fresh(kbits) && fresh(ubits) && fresh(hbits)
    {
      hide PagesSetUp, Used, Mask, ClearBytes, FirstMegabyte, FrameKept, FitsMemory;
      PageBounds(allMem);
      KernelPagesBound(allMem);
      UserPagesBound(allMem);
      var freePages := U32(allMem - USED_MEM) / 4096;
      var kpages := U16(freePages / 2);
      var upages := U16(freePages - kpages);
      var kbytes, ubytes := kpages / 8, upages / 8;
      ram := ram0;
      dir := KDIR;
      kbits := new bv8[kbytes];
      ubits := new bv8[ubytes];
      hbits := new bv8[kbytes];
      ufirst := U32(USED_MEM + kpages * 4096) / 4096;
      uheap := map[];
      own := map[];
      zeroTable := false;
      klock, ulock := 0, 0;
      new;
      SetupPage();
      ghost var ram1 := ram;
      FirstAfterSetup(ram0, ram1);
      BitmapsEndLow(allMem);
      InitBitmaps();
      SetupThenClear(ram0, ram1, BitmapBytes(allMem));
      if FitsMemory(allMem) { BootKeepsMain(ram0, ram, allMem); }
    }
  }
}
