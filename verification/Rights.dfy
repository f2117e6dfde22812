/**
 Access rights (section 4.6 of the Intel SDM, Volume 3A): every entry that the loader, page_table_add and create_page_dir
 write allows reads and writes by the kernel and by user programs, over every run, short of page tables or not.
 */
module Rights {
  import opened Options
  import opened Paging
  import opened Memory
  import opened MemorySafety
  import opened Mapping
  import opened MallocSafety
  import opened Outcomes
  import opened MemoryRuns
  import opened MemoryTheorems
  import opened KernelHalf
  import opened Contents
  import opened PoolLayout
  import opened LowMemory
  import opened Boot

  /** Bit 1 of an entry, R/W. */
  predicate Writable(e: nat) { e / 2 % 2 == 1 }

  /** Bit 2, U/S. */
  predicate ForUser(e: nat) { e / 4 % 2 == 1 }

  /** Where an access goes, whether user programs may make it, and whether writes are allowed. */
  datatype Access = Access(pa: nat, user: bool, write: bool)

  /** The walk with the rights that both levels grant. */
  function WalkRights(ram: Ram, dir: nat, v: nat): Option<Access> {
    var pde := Read(ram, Word(dir, PdeIdx(v)));
    if !Present(pde) then None
    else
      var pte := Read(ram, Word(FrameOf(pde), PteIdx(v)));
      if !Present(pte) then None
      else Some(Access(4096 * FrameOf(pte) + v % 4096, ForUser(pde) && ForUser(pte), Writable(pde) && Writable(pte)))
  }

  /** The entry is not present, or its twelve low bits are those of US, RW and P, and no others. */
  predicate OpenWord(e: nat) { e % 2 == 1 ==> e % 4096 == 7 }

  lemma OpenBits(e: nat)
    requires OpenWord(e) && Present(e)
    ensures Writable(e) && ForUser(e) && (e / 4096 == 0 ==> e == 7)
  {
    var k := e / 4096;
    assert e == 4096 * k + 7;
    OddQuotient(e, 2, 1024 * k + 1);
    OddQuotient(e, 4, 512 * k);
  }

  lemma OddQuotient(e: nat, b: nat, a: nat)
    requires b == 2 || b == 4
    requires b * (2 * a + 1) <= e < b * (2 * a + 2)
    ensures e / b % 2 == 1
  {
    assert e / b == 2 * a + 1;
  }

  lemma OpenEntry(f: nat)
    ensures OpenWord(Entry(f)) && OpenWord(0)
  {
  }

  ghost predicate OpenFrame(ram: Ram, t: nat) { forall i: nat :: i < 1024 ==> OpenWord(Read(ram, Word(t, i))) }

  /** A kernel page of the first megabyte or of the heap: the loader leaves the words of other kernel pages as they were. */
  predicate KnownPage(m: Mem, q: nat) { KERNEL_PAGE <= q < KERNEL_PAGE + 256 || m.kheap.Holds(q) }

  /** All entries in use are open: of the directories, of the known kernel pages, of the page tables, and of one on frame 0. */
  ghost predicate Open(m: Mem) {
    && (forall d :: IsDir(m, d) ==> OpenFrame(m.ram, d))
    && (forall q: nat :: KERNEL_PAGE <= q < WINDOW_PAGE && KnownPage(m, q) ==> OpenWord(Read(m.ram, KernelWord(q))))
    && (forall t :: t in m.own && m.own[t].Table? ==> OpenFrame(m.ram, t))
    && (ZeroEntry(m) ==> OpenFrame(m.ram, 0))
  }

  /** A word that changes becomes open. */
  ghost predicate OnlyOpens(ram: Ram, ram': Ram) { forall w: nat :: Read(ram', w) == Read(ram, w) || OpenWord(Read(ram', w)) }

  lemma StaysOpen(ram: Ram, ram': Ram, t: nat)
    requires OnlyOpens(ram, ram') && OpenFrame(ram, t)
    ensures OpenFrame(ram', t)
  {
  }

  /** Steps that open words, and put page tables on open frames only. */
  lemma OpensKeep(m: Mem, m': Mem)
    requires Open(m) && OnlyOpens(m.ram, m'.ram) && m'.uheap.Keys == m.uheap.Keys
    requires forall q: nat :: m'.kheap.Holds(q) <==> m.kheap.Holds(q)
    requires forall t :: t in m'.own && m'.own[t].Table? ==> (t in m.own && m.own[t].Table?) || OpenFrame(m'.ram, t)
    requires ZeroEntry(m') ==> ZeroEntry(m) || OpenFrame(m'.ram, 0)
    ensures Open(m')
  {
    hide OpenFrame, OpenWord, Read, Word, KernelWord, ZeroEntry;
    forall d | IsDir(m', d) ensures OpenFrame(m'.ram, d) { StaysOpen(m.ram, m'.ram, d); }
    forall t | t in m'.own && m'.own[t].Table? ensures OpenFrame(m'.ram, t) { if t in m.own && m.own[t].Table? { StaysOpen(m.ram, m'.ram, t); } }
    if ZeroEntry(m) { StaysOpen(m.ram, m'.ram, 0); }
    forall q: nat | KERNEL_PAGE <= q < WINDOW_PAGE && KnownPage(m', q) ensures OpenWord(Read(m'.ram, KernelWord(q))) {
      assert KnownPage(m, q);
    }
  }

  // ----- page_table_add

  lemma ZeroedOpens(ram: Ram, f: nat)
    ensures forall w: nat :: Read(Zeroed(ram, f), w) == Read(ram, w) || Read(Zeroed(ram, f), w) == 0
  {
  }

  lemma EntryOpens(ram: Ram, w: nat, f: nat)
    ensures OnlyOpens(ram, ram[w := Entry(f)])
  {
    OpenEntry(f);
  }

  lemma OnlyOpensTwice(ram: Ram, ram1: Ram, ram2: Ram)
    requires OnlyOpens(ram, ram1) && OnlyOpens(ram1, ram2)
    ensures OnlyOpens(ram, ram2)
  {
    hide Read, OpenWord;
  }

  lemma AddOpens(m: Mem, p: nat, f: nat)
    requires PageTableAdd(m, p, f).Ok?
    ensures OnlyOpens(m.ram, PageTableAdd(m, p, f).m.ram)
  {
    hide Palloc, Zeroed, Read, Word, Entry, OpenWord;
    var pw := Word(m.dir, p / 1024);
    if Present(Read(m.ram, pw)) {
      EntryOpens(m.ram, Word(FrameOf(Read(m.ram, pw)), p % 1024), f);
    } else {
      var g := Palloc(m.kpool);
      var tf := if g.got.Some? then g.got.value else 0;
      var ram1 := m.ram[pw := Entry(tf)];
      EntryOpens(m.ram, pw, tf);
      ZeroedOpens(ram1, tf);
      OpenEntry(0);
      EntryOpens(Zeroed(ram1, tf), Word(tf, p % 1024), f);
      OnlyOpensTwice(m.ram, ram1, Zeroed(ram1, tf));
      OnlyOpensTwice(m.ram, Zeroed(ram1, tf), Zeroed(ram1, tf)[Word(tf, p % 1024) := Entry(f)]);
    }
  }

  lemma NewTableOpens(m: Mem, p: nat, f: nat, t: nat)
    requires m.dir != t && p < KERNEL_PAGE
    ensures OpenFrame(NewTableRam(m.ram, m.dir, p, f, t), t)
  {
    hide NewTableRam, Read, Word, Entry, OpenWord;
    OpenEntry(f);
    forall i: nat | i < 1024 ensures OpenWord(Read(NewTableRam(m.ram, m.dir, p, f, t), Word(t, i))) {
      NewTableReads(m.ram, m.dir, p, f, t, t, i);
    }
  }

  lemma AddKeepsOpen(m: Mem, p: nat, f: nat)
    requires AddOk(m, p, f) && Open(m) && PageTableAdd(m, p, f).Ok?
    ensures Open(PageTableAdd(m, p, f).m)
  {
    hide Open, OpenFrame, OnlyOpens, PageFrame, Zeroed, Palloc, DirOk, TableOk, KernelPageOk, UserFrameOk, NewTableRam, Read, Word, ZeroEntry;
    var m' := PageTableAdd(m, p, f).m;
    AddOpens(m, p, f);
    AddKeepsHeaps(m, p, f);
    if p >= KERNEL_PAGE {
      HalfKernelWord(m, p);
      KernelAddRam(m, p, f);
      AddKeepsZero(m, p, f);
    } else if Present(Read(m.ram, Word(m.dir, p / 1024))) {
      AddKeepsZero(m, p, f);
    } else {
      hide PageTableAdd;
      NewTableFrame(m, p, f);
      NewTableResult(m, p, f);
      var h := Palloc(m.kpool);
      var t := if h.got.Some? then h.got.value else 0;
      FrameIsNoDir(m, t, m.dir);
      NewTableOpens(m, p, f, t);
      if t != 0 { AddKeepsZero(m, p, f); }
    }
    OpensKeep(m, m');
  }

  /** Only a table that line 119 finds no frame for comes to lie on frame 0. */
  lemma AddKeepsZero(m: Mem, p: nat, f: nat)
    requires AddOk(m, p, f) && PageTableAdd(m, p, f).Ok?
    requires p >= KERNEL_PAGE || Present(Read(m.ram, Word(m.dir, p / 1024))) || Palloc(m.kpool).got.Some?
    ensures ZeroEntry(PageTableAdd(m, p, f).m) ==> ZeroEntry(m)
  {
    hide PageTableAdd, Palloc, PageFrame, Read, Word;
    var m' := PageTableAdd(m, p, f).m;
    if ZeroEntry(m') {
      var d, i :| HasZeroEntry(m', d, i);
      AddKeepsHeaps(m, p, f);
      AddDirWord(m, p, f, d, i);
      assert HasZeroEntry(m, d, i);
    }
  }

  lemma AddDirWord(m: Mem, p: nat, f: nat, d: nat, i: nat)
    requires AddOk(m, p, f) && PageTableAdd(m, p, f).Ok? && d in m.uheap && i < 768
    requires p >= KERNEL_PAGE || Present(Read(m.ram, Word(m.dir, p / 1024))) || Palloc(m.kpool).got.Some?
    ensures var e := Read(PageTableAdd(m, p, f).m.ram, Word(d, i)); e == Read(m.ram, Word(d, i)) || (Present(e) && FrameOf(e) != 0)
  {
    hide PageTableAdd, AddOk, Palloc, UserPageChange, Read, Word;
    if p >= KERNEL_PAGE {
      AddHalfKernel(m, p, f);
    } else if Present(Read(m.ram, Word(m.dir, p / 1024))) {
      AddHalfTable(m, p, f);
    } else {
      AddHalfNewTable(m, p, f);
      NewTableFrame(m, p, f);
    }
  }

  // ----- whole calls

  /** Reserving pages, handing out a frame and activating another directory touch no entry. */
  lemma SameWordsOpen(m: Mem, m': Mem)
    requires Open(m) && m'.ram == m.ram && m'.own == m.own && m'.uheap.Keys == m.uheap.Keys
    requires forall q: nat :: m'.kheap.Holds(q) <==> m.kheap.Holds(q)
    ensures Open(m')
  {
    hide Read, Word, OpenWord;
    if ZeroEntry(m') {
      var d, i :| HasZeroEntry(m', d, i);
      assert HasZeroEntry(m, d, i);
    }
    OpensKeep(m, m');
  }

  lemma TakeKeepsHolds(p: Pool, cnt: nat)
    ensures forall q: nat :: Take(p, cnt).pool.Holds(q) <==> p.Holds(q)
  {
  }

  lemma {:induction false} LoopKeepsOpen(m: Mem, pf: Flag, page: nat, cnt: nat)
    requires HalfInv(m) && Open(m) && RunHeld(m, pf, page, cnt)
    ensures var r := MapRun(m, pf, page, cnt); !r.Stopped? ==> Open(r.m)
    decreases cnt
  {
    hide HalfInv, Open, Palloc, PageTableAdd, PoolFits, Stable;
    if cnt > 0 {
      var g := Palloc(PoolOf(m, pf));
      if g.got.Some? {
        var f := g.got.value;
        var m1 := WithPool(m, pf, g.pool);
        TakeKeepsHalf(m, pf);
        SameWordsOpen(m, m1);
        assert PageHeld(m, pf, page);
        FitsPool(m1, pf, page, f);
        if PageTableAdd(m1, page, f).Ok? {
          var m2 := PageTableAdd(m1, page, f).m;
          AddKeepsHalf(m1, page, f);
          AddKeepsHeaps(m1, page, f);
          AddKeepsDirUses(m1, page, f);
          HeldLater(m, m2, pf, page, cnt);
          AddKeepsOpen(m1, page, f);
          LoopKeepsOpen(m2, pf, page + 1, cnt - 1);
        }
      }
    }
  }

  lemma {:induction false} ZeroRunOnlyZeroes(ram: Ram, dir: nat, page: nat, cnt: nat, w: nat)
    ensures var x := Read(ZeroRun(ram, dir, page, cnt), w); x == Read(ram, w) || x == 0
    decreases cnt
  {
    hide Walk, Zeroed, Read;
    if cnt > 0 && Walk(ram, dir, 4096 * page).Some? {
      var f := Walk(ram, dir, 4096 * page).value / 4096;
      ZeroedOpens(ram, f);
      ZeroRunOnlyZeroes(Zeroed(ram, f), dir, page + 1, cnt - 1, w);
    }
  }

  lemma ClearKeepsOpen(m: Mem, page: nat, cnt: nat)
    requires Open(m)
    ensures Open(m.(ram := ZeroRun(m.ram, m.dir, page, cnt)))
  {
    hide Open, Word, Read, ZeroRun;
    var m' := m.(ram := ZeroRun(m.ram, m.dir, page, cnt));
    OpenEntry(0);
    forall w: nat ensures Read(m'.ram, w) == Read(m.ram, w) || Read(m'.ram, w) == 0 { ZeroRunOnlyZeroes(m.ram, m.dir, page, cnt, w); }
    if ZeroEntry(m') {
      var d, i :| HasZeroEntry(m', d, i);
      assert HasZeroEntry(m, d, i);
    }
    OpensKeep(m, m');
  }

  lemma GetPagesKeepsOpen(m: Mem, pf: Flag, cnt: nat)
    requires HalfInv(m) && Open(m)
    ensures var r := GetPages(m, pf, cnt); !r.Stop? ==> Open(r.m)
  {
    hide HalfInv, Open, MapRun, VaddrGet, Palloc, Take, ZeroRun, Faults, Stable, RunHeld;
    VaddrGetFinds(m, pf, cnt);
    if 0 < cnt < 3840 && VaddrGet(m, pf, cnt).Reserved? {
      var v := VaddrGet(m, pf, cnt);
      VaddrGetHolds(m, pf, cnt);
      TakeKeepsHolds(HeapOf(m, pf), cnt);
      if v.page.Some? {
        ReservedSame(m, pf, cnt);
        SameWordsOpen(m, v.m);
        LoopKeepsOpen(v.m, pf, v.page.value, cnt);
        var r := MapRun(v.m, pf, v.page.value, cnt);
        if !r.Stopped? { ClearKeepsOpen(r.m, v.page.value, cnt); }
      } else {
        MapNothing(v.m, pf, cnt);
      }
    }
  }

  lemma ReservedSame(m: Mem, pf: Flag, cnt: nat)
    requires VaddrGet(m, pf, cnt).Reserved? && VaddrGet(m, pf, cnt).page.Some?
    ensures var m1 := VaddrGet(m, pf, cnt).m;
            m1.ram == m.ram && m1.own == m.own && m1.uheap.Keys == m.uheap.Keys && forall q: nat :: m1.kheap.Holds(q) <==> m.kheap.Holds(q)
  {
    hide Find;
    TakeKeepsHolds(HeapOf(m, pf), cnt);
    if pf.PfUser? { FoundForProcess(m, cnt); }
  }

  lemma GetAPageKeepsOpen(m: Mem, pf: Flag, page: nat)
    requires HalfInv(m) && Open(m)
    ensures var r := GetAPage(m, pf, page); !r.Stop? ==> Open(r.m)
  {
    hide HalfInv, Open, Palloc, PageTableAdd, PoolFits, Stable;
    if PageRequestOk(m, pf, page) {
      MarkKeepsHalf(m, pf, page);
      var m1 := Marked(m, pf, page);
      SameWordsOpen(m, m1);
      var g := Palloc(PoolOf(m1, pf));
      if g.got.Some? {
        TakeKeepsHalf(m1, pf);
        var m2 := WithPool(m1, pf, g.pool);
        SameWordsOpen(m1, m2);
        FitsPool(m2, pf, page, g.got.value);
        if PageTableAdd(m2, page, g.got.value).Ok? { AddKeepsOpen(m2, page, g.got.value); }
      }
    }
  }

  /** Nothing that is written to a data page is an entry. */
  lemma HarmlessKeepsOpen(m: Mem, ram': Ram, g: nat)
    requires HalfInv(m) && Open(m) && Harmless(m, g) && DiffersOnlyIn(m.ram, ram', g)
    ensures Open(m.(ram := ram'))
  {
    hide HalfInv, Read, Word, OpenWord, KernelWord;
    var m' := m.(ram := ram');
    forall t: nat | t != g && OpenFrame(m.ram, t) ensures OpenFrame(ram', t) {}
    forall q: nat | KERNEL_PAGE <= q < WINDOW_PAGE && KnownPage(m', q) ensures OpenWord(Read(ram', KernelWord(q))) {
      HarmlessKernelWord(m, ram', g, q);
    }
    if ZeroEntry(m') {
      var d, i :| HasZeroEntry(m', d, i);
      assert HasZeroEntry(m, d, i);
    }
  }

  /** A new directory: an empty user half, the kernel half of the active directory, and itself. */
  lemma NewDirKeepsOpen(m: Mem, f: nat, up: Pool)
    requires HalfInv(m) && Open(m) && Harmless(m, f) && forall i: nat :: i < 1024 ==> Read(m.ram, Word(f, i)) == 0
    ensures Open(m.(ram := CopyKernelHalf(m.ram, m.dir, f), uheap := m.uheap[f := up]))
  {
    hide HalfInv, CopyKernelHalf, Read, Word, OpenWord, KernelWord, Entry, DiffersOnlyIn;
    var m1 := m.(ram := CopyKernelHalf(m.ram, m.dir, f));
    var m' := m1.(uheap := m.uheap[f := up]);
    ActiveIsDir(m);
    CopyDiffers(m.ram, m.dir, f);
    HarmlessKeepsOpen(m, m1.ram, f);
    OpenEntry(f);
    forall i: nat | i < 1024 ensures OpenWord(Read(m1.ram, Word(f, i))) && (i < 768 ==> Read(m1.ram, Word(f, i)) == 0) {
      CopyReads(m.ram, m.dir, f, f, i);
    }
    assert OpenFrame(m1.ram, f);
    if ZeroEntry(m') {
      var d, i :| HasZeroEntry(m', d, i);
      NotZero();
      assert d != f;
      assert HasZeroEntry(m1, d, i);
    }
  }

  lemma NotZero()
    ensures Entry(0) != 0
  {
  }

  lemma ActiveIsDir(m: Mem)
    requires HalfInv(m)
    ensures IsDir(m, m.dir)
  {
  }

  lemma CreateKeepsOpen(m: Mem, up: Pool)
    requires HalfInv(m) && Open(m) && FreshRange(up)
    ensures var r := CreatePageDir(m, up); !r.Stop? ==> Open(r.m)
  {
    hide HalfInv, Open, GetPages, AddrV2P, CopyKernelHalf, KernelWord, FreshRange, DirOk, Read, Word;
    GetPagesKeepsHalf(m, PfKernel, 1);
    GetPagesKeepsOpen(m, PfKernel, 1);
    var r := GetPages(m, PfKernel, 1);
    if r.Got? {
      var f := GetGivesFreshPage(m, r.page, r.m);
      FreshAddress(r.m, r.page, f);
      NewDirKeepsOpen(r.m, f, up);
    }
  }

  lemma WriteKeepsOpen(m: Mem, f: nat, i: nat, x: nat)
    requires HalfInv(m) && Open(m) && DataFrame(m, f) && i < 1024
    ensures Open(m.(ram := m.ram[Word(f, i) := x]))
  {
    hide HalfInv, Open, DataFrame;
    var ram' := m.ram[Word(f, i) := x];
    forall g: nat, j: nat | g != f && j < 1024 ensures Read(ram', Word(g, j)) == Read(m.ram, Word(g, j)) { WordsDiffer(g, j, f, i); }
    DataFrameIsHarmless(m, f);
    HarmlessKeepsOpen(m, ram', f);
  }

  lemma {:induction false} RunKeepsOpen(m: Mem, cs: seq<Call>)
    requires HalfInv(m) && Open(m) && Calls(m, cs) && !Halts(m, cs)
    ensures HalfInv(After(m, cs)) && Open(After(m, cs))
    decreases |cs|
  {
    hide HalfInv, Open, Do, CallOk, Stable;
    if cs != [] {
      CallKeepsHalf(m, cs[0]);
      CallKeepsOpen(m, cs[0]);
      RunKeepsOpen(Do(m, cs[0]).m, cs[1..]);
    }
  }

  lemma CallKeepsOpen(m: Mem, c: Call)
    requires HalfInv(m) && Open(m) && CallOk(m, c) && !Do(m, c).Stop?
    ensures Open(Do(m, c).m)
  {
    hide HalfInv, Open, GetPages, GetAPage, CreatePageDir, DataFrame, Read, Word;
    match c
    case Pages(pf, cnt) => GetPagesKeepsOpen(m, pf, cnt);
    case PageAt(pf, page) => GetAPageKeepsOpen(m, pf, page);
    case NewDir(up) => CreateKeepsOpen(m, up);
    case Activate(d) => SameWordsOpen(m, m.(dir := d));
    case Write(f, j, x) => WriteKeepsOpen(m, f, j, x);
  }

  // ----- what programs may access

  /** Page q of directory d is a user page, or a kernel page that is known; the kernel directory has its first table below the kernel half too. */
  predicate Covered(m: Mem, d: nat, q: nat) {
    if q >= KERNEL_PAGE then KnownPage(m, q) else d == KDIR ==> KnownPage(m, KERNEL_PAGE + q % 1024)
  }

  /** Every mapped address below the window allows reads and writes by the kernel and by user programs. */
  lemma OpenAccess(m: Mem, d: nat, v: nat)
    requires HalfInv(m) && Open(m) && IsDir(m, d) && v < 0xffc0_0000 && Covered(m, d, v / 4096)
    ensures WalkRights(m.ram, d, v) == match Walk(m.ram, d, v)
                                       case None => None
                                       case Some(pa) => Some(Access(pa, true, true))
  {
    hide OpenWord, KernelPageOk, UserFrameOk, Entry, Read, Word, Writable, ForUser, Present, FrameOf;
    var i, j := PdeIdx(v), PteIdx(v);
    var pde := Read(m.ram, Word(d, i));
    assert i < 1023 && j < 1024;
    assert OpenFrame(m.ram, d);
    if Present(pde) {
      OpenBits(pde);
      var pte := Read(m.ram, Word(FrameOf(pde), j));
      TableWordIsOpen(m, d, v);
      if Present(pte) { OpenBits(pte); }
    }
  }

  lemma TableWordIsOpen(m: Mem, d: nat, v: nat)
    requires HalfInv(m) && Open(m) && IsDir(m, d) && v < 0xffc0_0000 && Covered(m, d, v / 4096)
    requires Present(Read(m.ram, Word(d, PdeIdx(v))))
    ensures OpenWord(Read(m.ram, Word(FrameOf(Read(m.ram, Word(d, PdeIdx(v)))), PteIdx(v))))
  {
    hide OpenWord, KernelPageOk, UserFrameOk, Read;
    var q := v / 4096;
    var i := q / 1024;
    var pde := Read(m.ram, Word(d, i));
    if q >= KERNEL_PAGE {
      assert DirOk(m, d);
      assert KernelWord(q) == Word(KTABLE + i - 768, q % 1024);
      assert OpenWord(Read(m.ram, KernelWord(q)));
    } else if d == KDIR {
      assert TableOk(m, d, pde);
      assert KernelWord(KERNEL_PAGE + q % 1024) == Word(KTABLE, q % 1024);
      assert OpenWord(Read(m.ram, KernelWord(KERNEL_PAGE + q % 1024)));
    } else {
      assert TableOk(m, d, pde);
      if FrameOf(pde) == 0 {
        assert OpenFrame(m.ram, d);
        OpenBits(pde);
        assert HasZeroEntry(m, d, i);
        assert OpenFrame(m.ram, 0);
      } else {
        assert OpenFrame(m.ram, FrameOf(pde));
      }
    }
  }

  /** The page that page_table_add has mapped. */
  lemma AddedPageIsOpen(m: Mem, p: nat, f: nat, v: nat)
    requires AddOk(m, p, f) && Open(m) && PageTableAdd(m, p, f).Ok? && v / 4096 == p
    ensures WalkRights(PageTableAdd(m, p, f).m.ram, m.dir, v) == Some(Access(4096 * f + v % 4096, true, true))
  {
    hide HalfInv, Open, PageTableAdd, PageFrame, Walk, WalkRights, Stable, PoolFits;
    var m' := PageTableAdd(m, p, f).m;
    AddKeepsHalf(m, p, f);
    AddKeepsOpen(m, p, f);
    AddKeepsHeaps(m, p, f);
    AddMaps(m, p, f);
    PageInWindow(p, v);
    WalkIsPageFrame(m'.ram, m.dir, v);
    AddIsCovered(m, m', p, f);
    OpenAccess(m', m.dir, v);
  }

  lemma PageInWindow(p: nat, v: nat)
    requires v / 4096 == p && p < WINDOW_PAGE
    ensures v < 0xffc0_0000 && v < VA_END
  {
  }

  lemma AddIsCovered(m: Mem, m': Mem, p: nat, f: nat)
    requires AddOk(m, p, f) && m'.kheap == m.kheap && m'.dir == m.dir && m'.uheap == m.uheap
    ensures Covered(m', m.dir, p) && IsDir(m', m.dir)
  {
    hide PageFrame;
    if p < KERNEL_PAGE { NotTheKernelDir(m, m.dir); }
  }

  /** The loader's directory and table are open, and there is no other page table yet. */
  lemma BootIsOpen(ram0: Ram, ram: Ram, allMem: nat)
    requires Boots(ram0, ram, allMem)
    ensures Open(BootMem(ram, allMem))
  {
    hide Word, LayoutFor, ClearBytes, Entry, OpenWord, Read;
    var m := BootMem(ram, allMem);
    OpenEntry(0);
    forall i: nat | i < 1024 ensures OpenWord(Read(ram, Word(KDIR, i))) {
      assert Read(ram, Word(KDIR, i)) == DirWord(i);
      OpenEntry(KTABLE);
      OpenEntry(KTABLE + if i >= 768 then i - 768 else 0);
      OpenEntry(KDIR);
    }
    forall q: nat | KERNEL_PAGE <= q < WINDOW_PAGE && KnownPage(m, q) ensures OpenWord(Read(ram, KernelWord(q))) {
      if q < KERNEL_PAGE + 256 {
        OpenEntry(q - KERNEL_PAGE);
        assert Read(ram, Word(KTABLE, q - KERNEL_PAGE)) == Entry(q - KERNEL_PAGE);
      } else {
        HeapWordUnwritten(ram0, ram, allMem, q);
        AbsentIsOpen(Read(ram, KernelWord(q)));
      }
    }
    forall d | IsDir(m, d) ensures OpenFrame(m.ram, d) {}
  }

  lemma AbsentIsOpen(e: nat)
    requires !Present(e)
    ensures OpenWord(e)
  {
  }

  /**
   From boot on, after every run of memory calls, what is mapped in any directory below the window, by the loader, by
   page_table_add or by create_page_dir, can be read and written by the kernel and by user programs.
   */
  lemma BootRunIsOpen(ram0: Ram, ram: Ram, allMem: nat, cs: seq<Call>, d: nat, v: nat)
    requires Boots(ram0, ram, allMem) && Calls(BootMem(ram, allMem), cs) && !Halts(BootMem(ram, allMem), cs)
    requires var m := After(BootMem(ram, allMem), cs); IsDir(m, d) && v < 0xffc0_0000 && Covered(m, d, v / 4096)
    ensures var m := After(BootMem(ram, allMem), cs);
            WalkRights(m.ram, d, v) == match Walk(m.ram, d, v)
                                       case None => None
                                       case Some(pa) => Some(Access(pa, true, true))
    ensures OpenFrame(After(BootMem(ram, allMem), cs).ram, d)
  {
    hide MemInv, HalfInv, LayoutFor, Calls, Halts, After, PagesSetUp, ClearBytes, NothingStale, BootMem, Walk, WalkRights, OpenFrame;
    BootInvExactly(ram0, ram, allMem);
    InvIsHalfInv(BootMem(ram, allMem));
    BootIsOpen(ram0, ram, allMem);
    RunKeepsOpen(BootMem(ram, allMem), cs);
    OpenAccess(After(BootMem(ram, allMem), cs), d, v);
  }
}
