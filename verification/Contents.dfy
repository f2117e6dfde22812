/**
 The contents of allocated pages: over every run of memory calls, short of page tables or not, a word of an
 allocated page holds what was last written to it, and only that.
 */
module Contents {
  import opened Options
  import opened Paging
  import opened Memory
  import opened MemorySafety
  import opened Mapping
  import opened MallocSafety
  import opened Outcomes
  import opened MemoryRuns
  import opened MemoryTheorems
  import opened KernelHalf

  /** Every word of frame g is as it was. */
  ghost predicate SameFrame(ram: Ram, ram': Ram, g: nat) { forall i: nat :: i < 1024 ==> Read(ram', Word(g, i)) == Read(ram, Word(g, i)) }

  /** The data frames of m are data frames of m', for the same use. */
  ghost predicate StaysData(m: Mem, m': Mem) {
    forall g :: DataFrame(m, g) ==> DataFrame(m', g) && m'.own[g] == m.own[g]
  }

  /** Moreover their contents are the same. */
  ghost predicate SameData(m: Mem, m': Mem) {
    StaysData(m, m') && forall g :: DataFrame(m, g) ==> SameFrame(m.ram, m'.ram, g)
  }

  lemma SameDataReflexive(m: Mem)
    ensures SameData(m, m)
  {
  }

  lemma SameDataTransitive(m: Mem, m1: Mem, m2: Mem)
    requires SameData(m, m1) && SameData(m1, m2)
    ensures SameData(m, m2)
  {
    hide DataFrame, Read, Word;
    forall g | DataFrame(m, g) ensures SameFrame(m.ram, m2.ram, g) {
      assert DataFrame(m1, g) && SameFrame(m.ram, m1.ram, g) && SameFrame(m1.ram, m2.ram, g);
    }
  }

  /** Only the bitmaps differ. */
  lemma SameWords(m: Mem, m': Mem)
    requires m'.ram == m.ram && m'.own == m.own && m'.uheap.Keys == m.uheap.Keys
    ensures SameData(m, m')
  {
  }

  // ----- page_table_add

  /** page_table_add writes to no frame but those of directories, page tables and a new page table. */
  lemma AddLeavesFrame(m: Mem, p: nat, f: nat, g: nat)
    requires AddOk(m, p, f) && PageTableAdd(m, p, f).Ok? && Harmless(m, g) && (g in m.own || g == f)
    ensures SameFrame(m.ram, PageTableAdd(m, p, f).m.ram, g)
  {
    hide PageTableAdd, AddOk, Harmless, Word, Read;
    forall i: nat | i < 1024 ensures Read(PageTableAdd(m, p, f).m.ram, Word(g, i)) == Read(m.ram, Word(g, i)) {
      AddLeavesWord(m, p, f, g, i);
    }
  }

  lemma AddLeavesWord(m: Mem, p: nat, f: nat, g: nat, i: nat)
    requires AddOk(m, p, f) && PageTableAdd(m, p, f).Ok? && Harmless(m, g) && (g in m.own || g == f) && i < 1024
    ensures Read(PageTableAdd(m, p, f).m.ram, Word(g, i)) == Read(m.ram, Word(g, i))
  {
    hide PoolFits, NewTableRam, DirOk, TableOk, KernelPageOk, UserFrameOk, Zeroed, PageFrame, Word, Read, KernelWord, Entry;
    DirFrame(m, m.dir);
    if p >= KERNEL_PAGE {
      HalfKernelWord(m, p);
      KernelAddRam(m, p, f);
      KernelWordElsewhere(p, g, i);
      OtherWord(m.ram, KernelWord(p), Entry(f), Word(g, i));
    } else if Present(Read(m.ram, Word(m.dir, p / 1024))) {
      TableFrame(m, m.dir, p / 1024);
      var t := FrameOf(Read(m.ram, Word(m.dir, p / 1024)));
      WordsDiffer(t, p % 1024, g, i);
      OtherWord(m.ram, Word(t, p % 1024), Entry(f), Word(g, i));
    } else {
      hide PageTableAdd, Palloc;
      NewTableFrame(m, p, f);
      NewTableResult(m, p, f);
      var h := Palloc(m.kpool);
      var t := if h.got.Some? then h.got.value else 0;
      FrameIsNoDir(m, t, m.dir);
      NewTableReads(m.ram, m.dir, p, f, t, g, i);
    }
  }

  /** The uses of frames after page_table_add. */
  lemma AddKeepsUses(m: Mem, p: nat, f: nat)
    requires AddOk(m, p, f) && PageTableAdd(m, p, f).Ok?
    ensures var m' := PageTableAdd(m, p, f).m; StaysData(m, m') && m'.uheap == m.uheap && m.own.Keys <= m'.own.Keys
  {
    hide PageFrame, Zeroed, Palloc, DirOk, TableOk, KernelPageOk, UserFrameOk, Read, Word;
    if p < KERNEL_PAGE { NewTableFrame(m, p, f); } else { HalfKernelWord(m, p); }
  }

  lemma AddKeepsData(m: Mem, p: nat, f: nat)
    requires AddOk(m, p, f) && PageTableAdd(m, p, f).Ok?
    ensures SameData(m, PageTableAdd(m, p, f).m)
  {
    hide PageTableAdd, HalfInv, Read, Word, DataFrame, Harmless, SameFrame;
    AddKeepsUses(m, p, f);
    forall g | DataFrame(m, g) ensures SameFrame(m.ram, PageTableAdd(m, p, f).m.ram, g) {
      DataFrameIsHarmless(m, g);
      DataIsOwned(m, g);
      AddLeavesFrame(m, p, f, g);
    }
  }

  lemma DataIsOwned(m: Mem, g: nat)
    requires DataFrame(m, g)
    ensures g in m.own
  {
  }

  // ----- the frames of a run of pages

  /** Page q is not mapped, or mapped to a frame outside `kept`. */
  predicate Outside(m: Mem, q: nat, kept: set<nat>) { PageFrame(m.ram, m.dir, q).Some? ==> PageFrame(m.ram, m.dir, q).value !in kept }

  ghost predicate RunOutside(m: Mem, page: nat, end: nat, kept: set<nat>) { forall q: nat :: page <= q < end ==> Outside(m, q, kept) }

  lemma AddChanges(m: Mem, p: nat, f: nat) returns (tf: Option<nat>)
    requires AddOk(m, p, f) && PageTableAdd(m, p, f).Ok?
    ensures HalfChange(m, PageTableAdd(m, p, f).m, p, f, tf)
  {
    hide AddOk, HalfChange, PageTableAdd, Palloc;
    if p >= KERNEL_PAGE {
      AddHalfKernel(m, p, f);
      tf := None;
    } else if Present(Read(m.ram, Word(m.dir, p / 1024))) {
      AddHalfTable(m, p, f);
      tf := None;
    } else {
      AddHalfNewTable(m, p, f);
      var g := Palloc(m.kpool);
      tf := Some(if g.got.Some? then g.got.value else 0);
    }
  }

  /** page_table_add maps its page to its frame. */
  lemma AddMaps(m: Mem, p: nat, f: nat)
    requires AddOk(m, p, f) && PageTableAdd(m, p, f).Ok?
    ensures PageFrame(PageTableAdd(m, p, f).m.ram, m.dir, p) == Some(f)
  {
    hide PoolFits, NewTableRam, DirOk, TableOk, KernelPageOk, UserFrameOk, Zeroed, Word, Read, KernelWord, Entry;
    var m' := PageTableAdd(m, p, f).m;
    DirFrame(m, m.dir);
    if p >= KERNEL_PAGE {
      hide PageTableAdd, PageFrame;
      AddKeepsHalf(m, p, f);
      var tf := AddChanges(m, p, f);
      assert DirOk(m', m.dir);
      KernelPageFrame(m', m.dir, p);
    } else if Present(Read(m.ram, Word(m.dir, p / 1024))) {
      hide Palloc;
      TableFrame(m, m.dir, p / 1024);
      var t := FrameOf(Read(m.ram, Word(m.dir, p / 1024)));
      WordsDiffer(t, p % 1024, m.dir, p / 1024);
      OtherWord(m.ram, Word(t, p % 1024), Entry(f), Word(m.dir, p / 1024));
      NewWord(m.ram, Word(t, p % 1024), Entry(f));
    } else {
      hide PageTableAdd, Palloc;
      NewTableFrame(m, p, f);
      NewTableResult(m, p, f);
      var h := Palloc(m.kpool);
      var t := if h.got.Some? then h.got.value else 0;
      FrameIsNoDir(m, t, m.dir);
      NewTableReads(m.ram, m.dir, p, f, t, m.dir, p / 1024);
      NewTableReads(m.ram, m.dir, p, f, t, t, p % 1024);
    }
  }

  lemma NewWord(ram: Ram, w: nat, x: nat)
    ensures Read(ram[w := x], w) == x
  {
  }

  /** Other pages of the same half are mapped as before, not at all, or to the same frame. */
  lemma AddMapsOthers(m: Mem, p: nat, f: nat, q: nat)
    requires AddOk(m, p, f) && PageTableAdd(m, p, f).Ok? && q < WINDOW_PAGE && (q >= KERNEL_PAGE <==> p >= KERNEL_PAGE)
    ensures var r := PageFrame(PageTableAdd(m, p, f).m.ram, m.dir, q); r == PageFrame(m.ram, m.dir, q) || r == None || r == Some(f)
  {
    hide PageTableAdd, PageFrame, TableOk, KernelPageOk, UserFrameOk, KernelWord, Read;
    var m' := PageTableAdd(m, p, f).m;
    var tf := AddChanges(m, p, f);
    if q >= KERNEL_PAGE {
      AddKeepsHalf(m, p, f);
      assert DirOk(m, m.dir) && DirOk(m', m.dir);
      KernelPageFrame(m, m.dir, q);
      KernelPageFrame(m', m.dir, q);
    } else {
      assert UserPageChange(m, m', p, f, m.dir, q);
    }
  }

  /** The loop of malloc_page maps its pages to frames that had no use before it. */
  lemma {:induction false} LoopMapsOutside(m: Mem, pf: Flag, from: nat, page: nat, cnt: nat, kept: set<nat>)
    requires HalfInv(m) && RunHeld(m, pf, page, cnt) && kept <= m.own.Keys
    requires from <= page && RunOutside(m, from, page, kept)
    requires cnt > 0 ==> (from >= KERNEL_PAGE <==> pf.PfKernel?) && page + cnt <= if pf.PfKernel? then WINDOW_PAGE else KERNEL_PAGE
    ensures var r := MapRun(m, pf, page, cnt);
            !r.Stopped? ==> SameData(m, r.m) && (r.Mapped? ==> RunOutside(r.m, from, page + cnt, kept))
    decreases cnt
  {
    hide HalfInv, Palloc, PageTableAdd, PoolFits, Stable, SameData, Outside, PageFrame;
    SameDataReflexive(m);
    if cnt > 0 {
      var g := Palloc(PoolOf(m, pf));
      if g.got.Some? {
        var f := g.got.value;
        var m1 := WithPool(m, pf, g.pool);
        TakeKeepsHalf(m, pf);
        assert PageHeld(m, pf, page);
        FitsPool(m1, pf, page, f);
        if PageTableAdd(m1, page, f).Ok? {
          var m2 := PageTableAdd(m1, page, f).m;
          AddKeepsHalf(m1, page, f);
          AddKeepsHeaps(m1, page, f);
          AddKeepsDirUses(m1, page, f);
          HeldLater(m, m2, pf, page, cnt);
          AddKeepsUses(m1, page, f);
          SameMappings(m, m1, from, page, kept);
          AddStaysOutside(m1, page, f, from, kept);
          LoopMapsOutside(m2, pf, from, page + 1, cnt - 1, kept);
          AddKeepsData(m1, page, f);
          SameWords(m, m1);
          SameDataTransitive(m, m1, m2);
          var m' := MapRun(m2, pf, page + 1, cnt - 1);
          if !m'.Stopped? { SameDataTransitive(m, m2, m'.m); }
        }
      }
    }
  }

  lemma SameMappings(m: Mem, m': Mem, from: nat, end: nat, kept: set<nat>)
    requires m'.ram == m.ram && m'.dir == m.dir && RunOutside(m, from, end, kept)
    ensures RunOutside(m', from, end, kept)
  {
    hide PageFrame;
    forall q: nat | from <= q < end ensures Outside(m', q, kept) { assert Outside(m, q, kept); }
  }

  lemma AddStaysOutside(m: Mem, p: nat, f: nat, from: nat, kept: set<nat>)
    requires AddOk(m, p, f) && PageTableAdd(m, p, f).Ok? && kept <= m.own.Keys && f !in kept
    requires from <= p && RunOutside(m, from, p, kept) && (from >= KERNEL_PAGE <==> p >= KERNEL_PAGE)
    ensures RunOutside(PageTableAdd(m, p, f).m, from, p + 1, kept)
  {
    hide PageTableAdd, PageFrame, HalfInv, PoolFits;
    var m' := PageTableAdd(m, p, f).m;
    AddKeepsHeaps(m, p, f);
    AddMaps(m, p, f);
    forall q: nat | from <= q < p + 1 ensures Outside(m', q, kept) {
      if q < p {
        assert Outside(m, q, kept);
        AddMapsOthers(m, p, f, q);
      }
    }
  }

  // ----- memset

  /** A write to a harmless frame changes no mapping of a held page. */
  lemma HarmlessMapping(m: Mem, ram': Ram, g: nat, pf: Flag, q: nat)
    requires HalfInv(m) && Harmless(m, g) && DiffersOnlyIn(m.ram, ram', g) && PageHeld(m, pf, q)
    ensures PageFrame(ram', m.dir, q) == PageFrame(m.ram, m.dir, q)
  {
    hide PageFrame, DiffersOnlyIn, TableOk, KernelPageOk, UserFrameOk;
    if q >= KERNEL_PAGE {
      HarmlessWrite(m, ram', g);
      HarmlessKernelWord(m, ram', g, q);
      assert DirOk(m, m.dir) && DirOk(m.(ram := ram'), m.dir);
      KernelPageFrame(m, m.dir, q);
      KernelPageFrame(m.(ram := ram'), m.dir, q);
    } else {
      HarmlessUserPage(m, ram', g, m.dir, q);
    }
  }

  /** One turn of the memset changes no mapping of the other pages. */
  lemma ClearOneStaysOutside(m: Mem, pf: Flag, page: nat, cnt: nat, kept: set<nat>)
    requires HalfInv(m) && RunHeld(m, pf, page, cnt) && cnt > 0 && PageFrame(m.ram, m.dir, page).Some?
    requires RunOutside(m, page, page + cnt, kept)
    ensures var f := PageFrame(m.ram, m.dir, page).value; var m1 := m.(ram := Zeroed(m.ram, f));
            f !in kept && RunOutside(m1, page + 1, page + cnt, kept)
    ensures forall q: nat :: page <= q < page + cnt ==>
              PageFrame(Zeroed(m.ram, PageFrame(m.ram, m.dir, page).value), m.dir, q) == PageFrame(m.ram, m.dir, q)
  {
    hide HalfInv, PageFrame, Zeroed, DiffersOnlyIn, Harmless;
    var f := PageFrame(m.ram, m.dir, page).value;
    assert Outside(m, page, kept);
    HeldFrameIsHarmless(m, pf, page, cnt, page);
    ZeroedDiffers(m.ram, f);
    forall q: nat | page <= q < page + cnt
      ensures Outside(m.(ram := Zeroed(m.ram, f)), q, kept) && PageFrame(Zeroed(m.ram, f), m.dir, q) == PageFrame(m.ram, m.dir, q)
    {
      assert Outside(m, q, kept) && PageHeld(m, pf, q);
      HarmlessMapping(m, Zeroed(m.ram, f), f, pf, q);
    }
  }

  /** memset over held pages leaves every frame alone to which none of them is mapped. */
  lemma {:induction false} ClearLeavesOthers(m: Mem, pf: Flag, page: nat, cnt: nat, kept: set<nat>, g: nat)
    requires HalfInv(m) && RunHeld(m, pf, page, cnt) && RunOutside(m, page, page + cnt, kept) && g in kept
    ensures SameFrame(m.ram, ZeroRun(m.ram, m.dir, page, cnt), g)
    decreases cnt
  {
    hide HalfInv, RunHeld, PageFrame, Walk, Zeroed, Stable, RunOutside, Read, Word;
    if cnt > 0 {
      HeldInRange(m, pf, page, cnt);
      PageWalk(m.ram, m.dir, page);
      if PageFrame(m.ram, m.dir, page).Some? {
        var f := PageFrame(m.ram, m.dir, page).value;
        var m1 := m.(ram := Zeroed(m.ram, f));
        ClearOneKeepsHalf(m, pf, page, cnt);
        ClearOneStaysOutside(m, pf, page, cnt, kept);
        ClearLeavesOthers(m1, pf, page + 1, cnt - 1, kept, g);
        forall i: nat | i < 1024 ensures Read(m1.ram, Word(g, i)) == Read(m.ram, Word(g, i)) { ZeroedReads(m.ram, f, g, i); }
      }
    }
  }

  lemma {:induction false} ZeroRunKeepsZero(ram: Ram, dir: nat, page: nat, cnt: nat, g: nat, i: nat)
    requires i < 1024 && Read(ram, Word(g, i)) == 0
    ensures Read(ZeroRun(ram, dir, page, cnt), Word(g, i)) == 0
    decreases cnt
  {
    hide Walk, Zeroed, Read, Word;
    if cnt > 0 && Walk(ram, dir, 4096 * page).Some? {
      var f := Walk(ram, dir, 4096 * page).value / 4096;
      ZeroedReads(ram, f, g, i);
      ZeroRunKeepsZero(Zeroed(ram, f), dir, page + 1, cnt - 1, g, i);
    }
  }

  /** A memset over held pages that does not fault clears all of them. */
  lemma {:induction false} ClearsAll(m: Mem, pf: Flag, page: nat, cnt: nat, q: nat)
    requires HalfInv(m) && RunHeld(m, pf, page, cnt) && !Faults(m.ram, m.dir, page, cnt) && page <= q < page + cnt
    ensures var ram' := ZeroRun(m.ram, m.dir, page, cnt); ReadsZero(ram', m.dir, q)
    decreases cnt
  {
    hide HalfInv, RunHeld, PageFrame, Walk, Zeroed, Stable, Read, Word, DiffersOnlyIn, Harmless;
    HeldInRange(m, pf, page, cnt);
    PageWalk(m.ram, m.dir, page);
    var f := PageFrame(m.ram, m.dir, page).value;
    var m1 := m.(ram := Zeroed(m.ram, f));
    ClearOneKeepsHalf(m, pf, page, cnt);
    if q > page {
      ClearsAll(m1, pf, page + 1, cnt - 1, q);
    } else {
      var ram' := ZeroRun(m.ram, m.dir, page, cnt);
      FirstIsHeld(m, pf, page, cnt);
      ClearKeepsMapping(m, pf, page, cnt, page);
      forall i: nat | i < 1024 ensures Read(ram', Word(f, i)) == 0 {
        ZeroedReads(m.ram, f, f, i);
        ZeroRunKeepsZero(m1.ram, m.dir, page + 1, cnt - 1, f, i);
      }
    }
  }

  lemma FirstIsHeld(m: Mem, pf: Flag, page: nat, cnt: nat)
    requires RunHeld(m, pf, page, cnt) && cnt > 0
    ensures PageHeld(m, pf, page)
  {
  }

  ghost predicate ReadsZero(ram: Ram, dir: nat, q: nat) {
    PageFrame(ram, dir, q).Some? && forall i: nat :: i < 1024 ==> Read(ram, Word(PageFrame(ram, dir, q).value, i)) == 0
  }

  /** memset over held pages changes no mapping of any of them. */
  lemma {:induction false} ClearKeepsMapping(m: Mem, pf: Flag, page: nat, cnt: nat, q: nat)
    requires HalfInv(m) && RunHeld(m, pf, page, cnt) && PageHeld(m, pf, q)
    ensures PageFrame(ZeroRun(m.ram, m.dir, page, cnt), m.dir, q) == PageFrame(m.ram, m.dir, q)
    decreases cnt
  {
    hide HalfInv, RunHeld, PageFrame, Walk, Zeroed, Stable, Read, Word, DiffersOnlyIn, Harmless;
    if cnt > 0 {
      HeldInRange(m, pf, page, cnt);
      PageWalk(m.ram, m.dir, page);
      if PageFrame(m.ram, m.dir, page).Some? {
        var f := PageFrame(m.ram, m.dir, page).value;
        ClearOneKeepsHalf(m, pf, page, cnt);
        HeldFrameIsHarmless(m, pf, page, cnt, page);
        ZeroedDiffers(m.ram, f);
        HarmlessMapping(m, Zeroed(m.ram, f), f, pf, q);
        ClearKeepsMapping(m.(ram := Zeroed(m.ram, f)), pf, page + 1, cnt - 1, q);
      }
    }
  }

  // ----- whole calls

  /** A successful malloc_page leaves the data as it was, and maps its pages to frames that had no use. */
  lemma MallocKeepsData(m: Mem, pf: Flag, cnt: nat)
    requires HalfInv(m)
    ensures var r := MallocPage(m, pf, cnt);
            !r.Stop? ==> SameData(m, r.m) && (r.Got? ==> RunOutside(r.m, r.page, r.page + cnt, m.own.Keys))
  {
    hide HalfInv, MapRun, VaddrGet, Palloc, SameData, RunOutside, RunHeld;
    SameDataReflexive(m);
    VaddrGetFinds(m, pf, cnt);
    if 0 < cnt < 3840 && VaddrGet(m, pf, cnt).Reserved? {
      var v := VaddrGet(m, pf, cnt);
      VaddrGetHolds(m, pf, cnt);
      SameWords(m, v.m);
      if v.page.Some? {
        HeldRange(v.m, pf, v.page.value, cnt);
        NothingYet(v.m, v.page.value, m.own.Keys);
        LoopMapsOutside(v.m, pf, v.page.value, v.page.value, cnt, m.own.Keys);
        var r := MapRun(v.m, pf, v.page.value, cnt);
        if !r.Stopped? { SameDataTransitive(m, v.m, r.m); }
      } else {
        MapNothing(v.m, pf, cnt);
      }
    }
  }

  lemma NothingYet(m: Mem, page: nat, kept: set<nat>)
    ensures RunOutside(m, page, page, kept)
  {
  }

  lemma HeldRange(m: Mem, pf: Flag, page: nat, cnt: nat)
    requires RunHeld(m, pf, page, cnt) && cnt > 0
    ensures (page >= KERNEL_PAGE <==> pf.PfKernel?) && page + cnt <= if pf.PfKernel? then WINDOW_PAGE else KERNEL_PAGE
  {
    assert PageHeld(m, pf, page) && PageHeld(m, pf, page + cnt - 1);
  }

  /** get_kernel_pages and get_user_pages leave the contents of all allocated pages alone. */
  lemma GetPagesKeepsData(m: Mem, pf: Flag, cnt: nat)
    requires HalfInv(m)
    ensures var r := GetPages(m, pf, cnt);
            !r.Stop? ==> SameData(m, r.m) && (r.Got? ==> RunOutside(MallocPage(m, pf, cnt).m, r.page, r.page + cnt, m.own.Keys))
  {
    hide HalfInv, MallocPage, ZeroRun, Faults, RunHeld, Stable, RunOutside, DataFrame, SameFrame;
    MallocKeepsHalf(m, pf, cnt);
    MallocKeepsData(m, pf, cnt);
    var r := MallocPage(m, pf, cnt);
    if r.Got? {
      var m' := r.m.(ram := ZeroRun(r.m.ram, r.m.dir, r.page, cnt));
      forall g | DataFrame(m, g)
        ensures DataFrame(m', g) && g in m.own && g in m'.own && m'.own[g] == m.own[g] && SameFrame(m.ram, m'.ram, g)
      {
        assert DataFrame(r.m, g) && SameFrame(m.ram, r.m.ram, g);
        DataIsOwned(m, g);
        ClearLeavesOthers(r.m, pf, r.page, cnt, m.own.Keys, g);
        SameTwice(m.ram, r.m.ram, m'.ram, g);
        StillData(r.m, m', g);
        DataIsOwned(m', g);
      }
    }
  }

  /** In every reachable state the pages of a successful call are mapped and read as zero. */
  lemma GotPagesAreZero(m: Mem, pf: Flag, cnt: nat, q: nat)
    requires HalfInv(m) && GetPages(m, pf, cnt).Got?
    requires var page := GetPages(m, pf, cnt).page; page <= q < page + cnt
    ensures var m' := GetPages(m, pf, cnt).m; ReadsZero(m'.ram, m'.dir, q)
  {
    hide HalfInv, MallocPage, ZeroRun, Faults, RunHeld, ReadsZero;
    MallocKeepsHalf(m, pf, cnt);
    ClearsAll(MallocPage(m, pf, cnt).m, pf, GetPages(m, pf, cnt).page, cnt, q);
  }

  lemma SameTwice(ram: Ram, ram1: Ram, ram2: Ram, g: nat)
    requires SameFrame(ram, ram1, g) && SameFrame(ram1, ram2, g)
    ensures SameFrame(ram, ram2, g)
  {
  }

  lemma StillData(m: Mem, m': Mem, g: nat)
    requires DataFrame(m, g) && m' == m.(ram := m'.ram)
    ensures DataFrame(m', g)
  {
  }

  /** The page is mapped to a frame that had no use, whose contents are as they were. */
  ghost predicate MappedAsIs(m: Mem, m': Mem, page: nat) {
    var f := PageFrame(m'.ram, m.dir, page);
    f.Some? && f.value !in m.own && SameFrame(m.ram, m'.ram, f.value)
  }

  /** get_a_page does too, and does not clear the page that it maps. */
  lemma GetAPageKeepsData(m: Mem, pf: Flag, page: nat)
    requires HalfInv(m)
    ensures var r := GetAPage(m, pf, page);
            !r.Stop? ==> SameData(m, r.m) && (r.Got? ==> MappedAsIs(m, r.m, page))
  {
    hide HalfInv, Palloc, PageTableAdd, PoolFits, Stable, SameData, PageFrame, Harmless;
    SameDataReflexive(m);
    if PageRequestOk(m, pf, page) {
      MarkKeepsHalf(m, pf, page);
      var m1 := Marked(m, pf, page);
      SameWords(m, m1);
      var g := Palloc(PoolOf(m1, pf));
      if g.got.Some? {
        TakeKeepsHalf(m1, pf);
        var m2 := WithPool(m1, pf, g.pool);
        SameWords(m, m2);
        FitsPool(m2, pf, page, g.got.value);
        if PageTableAdd(m2, page, g.got.value).Ok? {
          AddKeepsData(m2, page, g.got.value);
          SameDataTransitive(m, m2, PageTableAdd(m2, page, g.got.value).m);
          AddMaps(m2, page, g.got.value);
          NewFrameIsHarmless(m2, page, g.got.value);
          AddLeavesFrame(m2, page, g.got.value, g.got.value);
        }
      }
    }
  }

  lemma NewFrameIsHarmless(m: Mem, p: nat, f: nat)
    requires AddOk(m, p, f)
    ensures Harmless(m, f)
  {
    hide PageFrame;
    PoolFrames(m, f);
  }

  /** So does create_page_dir. */
  lemma CreateKeepsData(m: Mem, up: Pool)
    requires HalfInv(m) && FreshRange(up)
    ensures var r := CreatePageDir(m, up); !r.Stop? ==> SameData(m, r.m)
  {
    hide HalfInv, GetPages, AddrV2P, CopyKernelHalf, KernelWord, FreshRange, DirOk, SameFrame, DataFrame, FreshPage;
    GetPagesKeepsHalf(m, PfKernel, 1);
    GetPagesKeepsData(m, PfKernel, 1);
    var r := GetPages(m, PfKernel, 1);
    if r.Got? {
      var m1, page := r.m, r.page;
      var f := GetGivesFreshPage(m, page, m1);
      FreshAddress(m1, page, f);
      FreshIsNew(m, page, m1, f);
      var m' := m1.(ram := CopyKernelHalf(m1.ram, m1.dir, f), uheap := m1.uheap[f := up]);
      assert CreatePageDir(m, up) == Got(m', page);
      FreshIsNoDir(m1, page, f);
      CopyDiffers(m1.ram, m1.dir, f);
      forall g | DataFrame(m, g)
        ensures DataFrame(m', g) && g in m.own && g in m'.own && m'.own[g] == m.own[g] && SameFrame(m.ram, m'.ram, g)
      {
        DataIsOwned(m, g);
        assert DataFrame(m1, g) && SameFrame(m.ram, m1.ram, g);
        OutsideCopy(m1.ram, m'.ram, f, g);
        SameTwice(m.ram, m1.ram, m'.ram, g);
        StillDataBeside(m1, m', f, g);
        DataIsOwned(m', g);
      }
    }
  }

  lemma OutsideCopy(ram: Ram, ram': Ram, f: nat, g: nat)
    requires DiffersOnlyIn(ram, ram', f) && g != f
    ensures SameFrame(ram, ram', g)
  {
  }

  lemma StillDataBeside(m: Mem, m': Mem, f: nat, g: nat)
    requires DataFrame(m, g) && g != f && m'.own == m.own && m'.uheap.Keys == m.uheap.Keys + {f}
    ensures DataFrame(m', g)
  {
  }

  lemma FreshIsNoDir(m: Mem, page: nat, f: nat)
    requires FreshPage(m, page, f)
    ensures m.dir != f && f != KDIR
  {
  }

  /** The frame of the page that get_kernel_pages(1) returned had no use. */
  lemma FreshIsNew(m: Mem, page: nat, m1: Mem, f: nat)
    requires HalfInv(m) && GetPages(m, PfKernel, 1) == Got(m1, page) && FreshPage(m1, page, f)
    ensures f !in m.own
  {
    hide HalfInv, MallocPage, ZeroRun, Faults, RunHeld, PageFrame, Zeroed, KernelWord;
    MallocKeepsHalf(m, PfKernel, 1);
    GetPagesKeepsData(m, PfKernel, 1);
    var m0 := MallocPage(m, PfKernel, 1).m;
    HeldInRange(m0, PfKernel, page, 1);
    OneCleared(m0.ram, m0.dir, page);
    assert Outside(m0, page, m.own.Keys);
    var g := PageFrame(m0.ram, m0.dir, page).value;
    HeldFrameIsHarmless(m0, PfKernel, page, 1, page);
    HeldKernelFrame(m0, page);
    ZeroedDiffers(m0.ram, g);
    HarmlessKernelWord(m0, Zeroed(m0.ram, g), g, page);
  }

  // ----- calls and runs

  /** No call but a write changes a word of an allocated page. */
  lemma CallKeepsData(m: Mem, c: Call)
    requires HalfInv(m) && CallOk(m, c) && !Do(m, c).Stop?
    ensures StaysData(m, Do(m, c).m)
    ensures forall g: nat, i: nat :: DataFrame(m, g) && i < 1024 ==>
              Read(Do(m, c).m.ram, Word(g, i)) == match c
                case Write(f, j, x) => if f == g && j == i then x else Read(m.ram, Word(g, i))
                case _ => Read(m.ram, Word(g, i))
  {
    hide HalfInv, GetPages, GetAPage, CreatePageDir, DataFrame, Read, Word;
    match c
    case Pages(pf, cnt) => GetPagesKeepsData(m, pf, cnt);
    case PageAt(pf, page) => GetAPageKeepsData(m, pf, page);
    case NewDir(up) => CreateKeepsData(m, up);
    case Activate(d) => SameWords(m, m.(dir := d));
    case Write(f, j, x) => OneWordWritten(m, f, j, x);
  }

  lemma OneWordWritten(m: Mem, f: nat, j: nat, x: nat)
    requires j < 1024
    ensures StaysData(m, m.(ram := m.ram[Word(f, j) := x]))
    ensures forall g: nat, i: nat :: i < 1024 ==>
              Read(m.ram[Word(f, j) := x], Word(g, i)) == if f == g && j == i then x else Read(m.ram, Word(g, i))
  {
    forall g: nat, i: nat | i < 1024
      ensures Read(m.ram[Word(f, j) := x], Word(g, i)) == if f == g && j == i then x else Read(m.ram, Word(g, i))
    {
      if f != g || j != i { WordsDiffer(f, j, g, i); }
    }
  }

  /** The last value that the calls write to word i of frame f, or x if they write none. */
  function LastWritten(cs: seq<Call>, f: nat, i: nat, x: nat): nat {
    if cs == [] then x
    else LastWritten(cs[1..], f, i, if cs[0].Write? && cs[0].f == f && cs[0].i == i then cs[0].x else x)
  }

  /** Over every run, short of page tables or not, a word of an allocated page holds what was last written to it. */
  lemma {:induction false} RunKeepsContents(m: Mem, cs: seq<Call>, f: nat, i: nat)
    requires HalfInv(m) && Calls(m, cs) && !Halts(m, cs) && DataFrame(m, f) && i < 1024
    ensures Read(After(m, cs).ram, Word(f, i)) == LastWritten(cs, f, i, Read(m.ram, Word(f, i)))
    decreases |cs|
  {
    hide HalfInv, Do, CallOk, DataFrame, Stable, Read, Word;
    if cs != [] {
      CallKeepsHalf(m, cs[0]);
      CallKeepsData(m, cs[0]);
      RunKeepsContents(Do(m, cs[0]).m, cs[1..], f, i);
    }
  }

  /**
   The same for a program that reads an address of an allocated page in its address space: whatever calls are made in
   between, by it or by others, it finds what was last written there.
   */
  lemma LoadsLastWritten(m: Mem, cs: seq<Call>, d: nat, v: nat)
    requires HalfInv(m) && Calls(m, cs) && !Halts(m, cs) && IsDir(m, d) && v < 0xffc0_0000
    requires Walk(m.ram, d, v).Some? && FrameOf(Read(m.ram, Word(d, PdeIdx(v)))) != 0
    requires DataFrame(m, Walk(m.ram, d, v).value / 4096)
    ensures var pa := Walk(m.ram, d, v).value;
            && Walk(After(m, cs).ram, d, v) == Some(pa)
            && Read(After(m, cs).ram, pa / 4) == LastWritten(cs, pa / 4096, pa % 4096 / 4, Read(m.ram, pa / 4))
  {
    hide HalfInv, Calls, Halts, After, Walk, Stable, Read, LastWritten, DataFrame;
    RunKeepsSoundTranslations(m, cs, d, v);
    var pa := Walk(m.ram, d, v).value;
    RunKeepsContents(m, cs, pa / 4096, pa % 4096 / 4);
    WordAt(pa);
  }

  lemma WordAt(pa: nat)
    ensures pa / 4 == Word(pa / 4096, pa % 4096 / 4) && pa % 4096 / 4 < 1024
  {
    assert pa == 4096 * (pa / 4096) + pa % 4096;
  }
}
