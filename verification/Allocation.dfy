/** malloc_page and its callers, over whole calls: what is mapped, what is kept, and when a call halts. */
module Allocation {
  import opened Options
  import opened Paging
  import opened Memory
  import opened MemorySafety
  import opened Mapping

  /** Pages [page, page + cnt) are reserved, unmapped, and of the kind that pf says. */
  ghost predicate RunReady(m: Mem, pf: Flag, page: nat, cnt: nat) {
    forall q: nat :: page <= q < page + cnt ==> PageReady(m, q) && (q >= KERNEL_PAGE <==> pf.PfKernel?)
  }

  /** Everything that was allocated in m is still there in m': uses of frames, kernel and user mappings. */
  ghost predicate Preserved(m: Mem, m': Mem) {
    && m'.uheap.Keys >= m.uheap.Keys
    && (forall f :: f in m.own ==> f in m'.own && m'.own[f] == m.own[f])
    && (forall q: nat :: KERNEL_PAGE <= q < WINDOW_PAGE && Present(Read(m.ram, KernelWord(q))) ==>
          Read(m'.ram, KernelWord(q)) == Read(m.ram, KernelWord(q)))
    && (forall d, q: nat :: d in m.uheap && q < KERNEL_PAGE && PageFrame(m.ram, d, q).Some? ==>
          PageFrame(m'.ram, d, q) == PageFrame(m.ram, d, q))
  }

  /** Moreover the directories are the same. */
  ghost predicate Kept(m: Mem, m': Mem) {
    Preserved(m, m') && m'.dir == m.dir && m'.uheap.Keys == m.uheap.Keys
  }

  lemma KeptTransitive(m: Mem, m1: Mem, m2: Mem)
    requires Kept(m, m1) && Kept(m1, m2)
    ensures Kept(m, m2)
  {
    hide PageFrame;
  }

  lemma ChangeKeeps(m: Mem, m': Mem, p: nat, f: nat, tf: Option<nat>)
    requires MapChange(m, m', p, f, tf) && PageReady(m, p) && f !in m.own && (tf.Some? ==> tf.value !in m.own)
    ensures Kept(m, m')
  {
    hide PageFrame;
  }

  /** A frame was handed out: it is taken, and has no use yet. */
  lemma TakeKeepsInv(m: Mem, pf: Flag)
    requires MemInv(m, {}) && Palloc(PoolOf(m, pf)).got.Some?
    ensures var g := Palloc(PoolOf(m, pf));
            var m1 := WithPool(m, pf, g.pool);
            MemInv(m1, {g.got.value}) && g.got.value !in m.own && PoolOf(m1, pf).Taken(g.got.value)
  {
    hide Palloc, PageFrame, DirOk, LowHalfOk, KernelPageOk, UserPageOk;
    var p := PoolOf(m, pf);
    PallocTakes(p);
    var g := Palloc(p);
    var f := g.got.value;
    var m1 := WithPool(m, pf, g.pool);
    PoolFrames(m, f);
    assert f in m.own ==> FrameOk(m, f);
    forall d | IsDir(m1, d) ensures DirOk(m1, d) && LowHalfOk(m1, d) { assert IsDir(m, d); PoolIrrelevant(m, m1, d); }
    forall q: nat | KERNEL_PAGE <= q ensures KernelPageOk(m1, q) { assert KernelPageOk(m, q); PoolIrrelevantPages(m, m1, q); }
    forall d, q: nat | d in m1.uheap ensures UserPageOk(m1, d, q) { assert UserPageOk(m, d, q); PoolIrrelevantUser(m, m1, d, q); }
    forall x | x in m1.own ensures FrameOk(m1, x) { assert FrameOk(m, x); }
  }

  predicate SamePages(m: Mem, m1: Mem) {
    m1.ram == m.ram && m1.kheap == m.kheap && m1.uheap == m.uheap && m1.own == m.own && m1.dir == m.dir
  }

  lemma PoolIrrelevant(m: Mem, m1: Mem, d: nat)
    requires SamePages(m, m1) && DirOk(m, d) && LowHalfOk(m, d)
    ensures DirOk(m1, d) && LowHalfOk(m1, d)
  {
  }

  lemma PoolIrrelevantPages(m: Mem, m1: Mem, q: nat)
    requires SamePages(m, m1) && KERNEL_PAGE <= q && KernelPageOk(m, q)
    ensures KernelPageOk(m1, q)
  {
  }

  lemma PoolIrrelevantUser(m: Mem, m1: Mem, d: nat, q: nat)
    requires SamePages(m, m1) && d in m.uheap && UserPageOk(m, d, q)
    ensures UserPageOk(m1, d, q)
  {
  }

  /** The page table drawn for p is a frame without a use. */
  lemma NewTableUnowned(m: Mem, p: nat, f: nat)
    requires MemInv(m, {f})
    ensures NewTable(m, p).Some? ==> NewTable(m, p).value !in m.own
  {
    if NewTable(m, p).Some? {
      PallocTakes(m.kpool);
      FreeFrame(m, f, NewTable(m, p).value);
    }
  }

  /** One turn of the loop of malloc_page. */
  lemma MapOne(m: Mem, pf: Flag, page: nat, cnt: nat)
    requires MemInv(m, {}) && cnt > 0 && RunReady(m, pf, page, cnt) && Palloc(PoolOf(m, pf)).got.Some?
    ensures var g := Palloc(PoolOf(m, pf)); var f := g.got.value;
            var m1 := WithPool(m, pf, g.pool);
            var r := PageTableAdd(m1, page, f);
            && r.Ok? && r.m.zeroTable == (m.zeroTable || TableMissing(m1, page))
            && (pf.PfKernel? ==> !TableMissing(m1, page))
            && (!TableMissing(m1, page) ==>
                  MemInv(r.m, {}) && Kept(m, r.m) && RunReady(r.m, pf, page + 1, cnt - 1)
                  && PageFrame(r.m.ram, m.dir, page) == Some(f) && f !in m.own
                  && f in r.m.own && r.m.own[f] == UseOf(m.dir, page))
  {
    hide Palloc, PageFrame, MemInv, MapChange, TableMissing, PageTableAdd, KernelWord;
    var g := Palloc(PoolOf(m, pf));
    var f := g.got.value;
    var m1 := WithPool(m, pf, g.pool);
    TakeKeepsInv(m, pf);
    assert PageReady(m, page) && PageReady(m1, page);
    AddMapsOnePage(m1, page, f);
    var m2 := PageTableAdd(m1, page, f).m;
    if !TableMissing(m1, page) {
      NewTableUnowned(m1, page, f);
      ChangeKeeps(m1, m2, page, f, NewTable(m1, page));
      assert Kept(m, m2);
      ChangeMaps(m1, m2, page, f, NewTable(m1, page));
      forall q: nat | page + 1 <= q < page + cnt ensures PageReady(m2, q) && (q >= KERNEL_PAGE <==> pf.PfKernel?) {
        assert PageReady(m, q) && PageReady(m1, q);
        ChangeKeepsReady(m1, m2, page, f, NewTable(m1, page), q);
      }
    }
  }

  lemma ChangeMaps(m: Mem, m': Mem, p: nat, f: nat, tf: Option<nat>)
    requires MapChange(m, m', p, f, tf) && MemInv(m', {}) && PageReady(m, p) && MemInv(m, {f})
    ensures PageFrame(m'.ram, m.dir, p) == Some(f) && f in m'.own && m'.own[f] == UseOf(m.dir, p) && LayoutOk(m)
  {
    hide PageFrame;
    if p >= KERNEL_PAGE {
      assert DirOk(m', m'.dir);
      KernelPageFrame(m', m'.dir, p);
    }
  }

  lemma ChangeKeepsReady(m: Mem, m': Mem, p: nat, f: nat, tf: Option<nat>, q: nat)
    requires MapChange(m, m', p, f, tf) && PageReady(m, q) && q != p && LayoutOk(m)
    ensures PageReady(m', q)
  {
    hide PageFrame;
  }

  lemma AddKeepsZeroTable(m: Mem, page: nat, frame: nat)
    ensures var r := PageTableAdd(m, page, frame); r.Ok? && m.zeroTable ==> r.m.zeroTable
  {
    hide Palloc, Zeroed;
  }

  lemma {:induction false} ZeroTableStays(m: Mem, pf: Flag, page: nat, cnt: nat)
    requires m.zeroTable
    ensures match MapRun(m, pf, page, cnt)
            case Stopped(m', _) => m'.zeroTable
            case NoFrame(m') => m'.zeroTable
            case Mapped(m') => m'.zeroTable
    decreases cnt
  {
    hide Palloc, PageTableAdd;
    if cnt > 0 {
      var g := Palloc(PoolOf(m, pf));
      if g.got.Some? {
        var m1 := WithPool(m, pf, g.pool);
        AddKeepsZeroTable(m1, page, g.got.value);
        var r := PageTableAdd(m1, page, g.got.value);
        if r.Ok? { ZeroTableStays(r.m, pf, page + 1, cnt - 1); }
      }
    }
  }

  /** The pages of a run are mapped to frames that had no use in m. */
  ghost predicate RunMapped(m: Mem, m': Mem, page: nat, cnt: nat) {
    forall q: nat :: page <= q < page + cnt ==>
      var r := PageFrame(m'.ram, m.dir, q);
      r.Some? && r.value !in m.own && r.value in m'.own && m'.own[r.value] == UseOf(m.dir, q)
  }

  /** The loop of malloc_page never halts; as long as no page table was missing it keeps the invariant. */
  lemma {:induction false} MapRunKeepsInv(m: Mem, pf: Flag, page: nat, cnt: nat)
    requires MemInv(m, {}) && !m.zeroTable && RunReady(m, pf, page, cnt)
    ensures match MapRun(m, pf, page, cnt)
            case Stopped(m', _) => m'.zeroTable
            case NoFrame(m') => !m'.zeroTable ==> MemInv(m', {}) && Kept(m, m')
            case Mapped(m') => !m'.zeroTable ==> MemInv(m', {}) && Kept(m, m') && RunMapped(m, m', page, cnt)
    ensures pf.PfKernel? ==> !MapRun(m, pf, page, cnt).m.zeroTable
    decreases cnt
  {
    hide Palloc, PageFrame, MemInv, PageTableAdd, TableMissing, KernelWord, Read, Kept, RunReady;
    KeptReflexive(m);
    if cnt > 0 {
      var g := Palloc(PoolOf(m, pf));
      if g.got.Some? {
        var m1 := WithPool(m, pf, g.pool);
        MapOne(m, pf, page, cnt);
        var m2 := PageTableAdd(m1, page, g.got.value).m;
        if TableMissing(m1, page) {
          ZeroTableStays(m2, pf, page + 1, cnt - 1);
        } else {
          MapRunKeepsInv(m2, pf, page + 1, cnt - 1);
          ReadyInRange(m, pf, page, cnt);
          var r := MapRun(m2, pf, page + 1, cnt - 1);
          if !r.m.zeroTable { KeptTransitive(m, m2, r.m); }
          if r.Mapped? && !r.m.zeroTable { RunMappedMore(m, m2, r.m, page, cnt, g.got.value); }
        }
      }
    }
  }

  lemma KeptReflexive(m: Mem)
    ensures Kept(m, m)
  {
  }

  lemma ReadyInRange(m: Mem, pf: Flag, page: nat, cnt: nat)
    requires MemInv(m, {}) && cnt > 0 && RunReady(m, pf, page, cnt)
    ensures page < WINDOW_PAGE && (page < KERNEL_PAGE ==> m.dir in m.uheap)
  {
    assert PageReady(m, page);
  }

  /** A mapping that exists after one page was mapped is still there at the end of the loop. */
  lemma KeptMapping(m: Mem, m': Mem, q: nat, f: nat)
    requires MemInv(m, {}) && MemInv(m', {}) && Kept(m, m') && PageFrame(m.ram, m.dir, q) == Some(f)
    requires q < WINDOW_PAGE && (q < KERNEL_PAGE ==> m.dir in m.uheap)
    ensures PageFrame(m'.ram, m.dir, q) == Some(f)
  {
    hide PageFrame;
    if q >= KERNEL_PAGE {
      assert DirOk(m, m.dir) && DirOk(m', m.dir);
      KernelPageFrame(m, m.dir, q);
      KernelPageFrame(m', m.dir, q);
    }
  }

  lemma RunMappedMore(m: Mem, m2: Mem, m': Mem, page: nat, cnt: nat, f: nat)
    requires cnt > 0 && Kept(m, m2) && Kept(m2, m') && RunMapped(m2, m', page + 1, cnt - 1)
    requires MemInv(m2, {}) && MemInv(m', {}) && PageFrame(m2.ram, m.dir, page) == Some(f) && f !in m.own
    requires page < WINDOW_PAGE && (page < KERNEL_PAGE ==> m.dir in m.uheap)
    requires f in m2.own && m2.own[f] == UseOf(m.dir, page)
    ensures RunMapped(m, m', page, cnt)
  {
    hide PageFrame, MemInv;
    KeptMapping(m2, m', page, f);
  }
}
