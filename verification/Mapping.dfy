/** page_table_add maps exactly one page, and keeps the memory invariant. */
module Mapping {
  import opened Options
  import opened Paging
  import opened Bitmaps
  import opened Memory
  import opened MemorySafety

  /** What page_table_add needs: a reserved, unmapped page and a frame without a use. */
  ghost predicate AddReady(m: Mem, p: nat, f: nat) {
    MemInv(m, {f}) && PageReady(m, p) && PoolFits(m, p, f)
  }

  lemma AddReadyFacts(m: Mem, p: nat, f: nat)
    requires AddReady(m, p, f)
    ensures f >= 0x200 && f !in m.own && 0 < p < WINDOW_PAGE && IsDir(m, m.dir)
  {
    PoolFrames(m, f);
  }

  // ----- a kernel page

  lemma KernelPagePresent(m: Mem, p: nat, f: nat)
    requires AddReady(m, p, f) && p >= KERNEL_PAGE
    ensures var pde := Read(m.ram, Word(m.dir, p / 1024));
            Present(pde) && Word(FrameOf(pde), p % 1024) == KernelWord(p)
  {
    AddReadyFacts(m, p, f);
    assert DirOk(m, m.dir);
    assert 768 <= p / 1024 < 1023;
  }

  lemma KernelWordBelowPools(q: nat)
    requires KERNEL_PAGE <= q < WINDOW_PAGE
    ensures KernelWord(q) < Word(0x200, 0)
    ensures exists t :: KTABLE <= t < 0x200 && KernelWord(q) == Word(t, q % 1024)
  {
    var t := KTABLE + (q - KERNEL_PAGE) / 1024;
    assert KTABLE <= t < 0x200;
    assert KernelWord(q) == Word(t, q % 1024);
  }

  /** A word below the pools other than a directory's is used by no process's own mapping. */
  lemma LowWordKeepsUserPage(m: Mem, f: nat, w: nat, e: nat, d: nat, q: nat)
    requires MemInv(m, {f}) && d in m.uheap && q < KERNEL_PAGE && w < Word(0x200, 0)
    ensures PageFrame(m.ram[w := e], d, q) == PageFrame(m.ram, d, q)
  {
    assert d in m.own && FrameOk(m, d);
    PoolFrames(m, d);
    assert LowHalfOk(m, d);
    var i := q / 1024;
    if Present(Read(m.ram, Word(d, i))) {
      var t := FrameOf(Read(m.ram, Word(d, i)));
      assert t in m.own && FrameOk(m, t);
      PoolFrames(m, t);
    }
  }

  lemma KernelWordIsNoDirWord(m: Mem, f: nat, q: nat, d: nat, i: nat)
    requires MemInv(m, {f}) && KERNEL_PAGE <= q < WINDOW_PAGE && IsDir(m, d) && i < 1024
    ensures KernelWord(q) != Word(d, i)
  {
    KernelWordBelowPools(q);
    var t :| KTABLE <= t < 0x200 && KernelWord(q) == Word(t, q % 1024);
    DirIsNoTable(m, {f}, d, t);
    WordsDiffer(t, q % 1024, d, i);
  }

  lemma AddKernelPage(m: Mem, p: nat, f: nat)
    requires AddReady(m, p, f) && p >= KERNEL_PAGE
    ensures PageTableAdd(m, p, f).Ok? && MapChange(m, PageTableAdd(m, p, f).m, p, f, None)
    ensures PageTableAdd(m, p, f).m.zeroTable == m.zeroTable
  {
    hide MemInv, PageFrame, Word, IsDir, PageReady, KernelWord, Palloc, Zeroed;
    AddReadyFacts(m, p, f);
    KernelPagePresent(m, p, f);
    ReadyKernelPage(m, p);
    var m' := PageTableAdd(m, p, f).m;
    assert m'.ram == m.ram[KernelWord(p) := Entry(f)];
    forall d, i | IsDir(m, d) && 0 <= i < 1024 ensures Read(m'.ram, Word(d, i)) == Read(m.ram, Word(d, i)) {
      KernelWordIsNoDirWord(m, f, p, d, i);
    }
    forall q: nat | KERNEL_PAGE <= q < WINDOW_PAGE
      ensures Read(m'.ram, KernelWord(q)) == if q == p then Entry(f) else Read(m.ram, KernelWord(q))
    {
      KernelWordsDiffer(q, p);
    }
    forall d, q | d in m.uheap && 0 <= q < KERNEL_PAGE ensures PageFrame(m'.ram, d, q) == PageFrame(m.ram, d, q) {
      KernelWordBelowPools(p);
      LowWordKeepsUserPage(m, f, KernelWord(p), Entry(f), d, q);
    }
  }

  lemma ReadyKernelPage(m: Mem, p: nat)
    requires PageReady(m, p) && p >= KERNEL_PAGE
    ensures !Present(Read(m.ram, KernelWord(p)))
  {
  }

  lemma KernelWordsDiffer(q: nat, p: nat)
    requires KERNEL_PAGE <= q && KERNEL_PAGE <= p
    ensures KernelWord(q) == KernelWord(p) <==> q == p
  {
  }

  // ----- a user page whose table exists

  lemma UserTable(m: Mem, f: nat, d: nat, i: nat)
    requires MemInv(m, {f}) && d in m.uheap && i < 768 && Present(Read(m.ram, Word(d, i)))
    ensures var t := FrameOf(Read(m.ram, Word(d, i)));
            t in m.own && m.own[t] == Table(d, i) && t >= 0x200 && t != f && (forall d' :: IsDir(m, d') ==> d' != t)
  {
    assert d in m.own && FrameOk(m, d);
    PoolFrames(m, d);
    assert LowHalfOk(m, d);
    var t := FrameOf(Read(m.ram, Word(d, i)));
    assert FrameOk(m, t);
    PoolFrames(m, t);
    forall d' | IsDir(m, d') ensures d' != t { DirIsNoTable(m, {f}, d', t); }
  }

  lemma UserWordKeepsUserPage(m: Mem, p: nat, f: nat, d: nat, q: nat)
    requires AddReady(m, p, f) && p < KERNEL_PAGE && Present(Read(m.ram, Word(m.dir, p / 1024)))
    requires d in m.uheap && q < KERNEL_PAGE
    ensures var t := FrameOf(Read(m.ram, Word(m.dir, p / 1024)));
            PageFrame(m.ram[Word(t, p % 1024) := Entry(f)], d, q)
            == if d == m.dir && q == p then Some(f) else PageFrame(m.ram, d, q)
  {
    var t := FrameOf(Read(m.ram, Word(m.dir, p / 1024)));
    UserTable(m, f, m.dir, p / 1024);
    WordsDiffer(d, q / 1024, t, p % 1024);
    if Present(Read(m.ram, Word(d, q / 1024))) {
      UserTable(m, f, d, q / 1024);
      var u := FrameOf(Read(m.ram, Word(d, q / 1024)));
      if d == m.dir && q == p {
      } else if u == t {
        assert q / 1024 == p / 1024 && q % 1024 != p % 1024;
      } else {
        WordsDiffer(u, q % 1024, t, p % 1024);
      }
    }
  }

  lemma AddUserPage(m: Mem, p: nat, f: nat)
    requires AddReady(m, p, f) && p < KERNEL_PAGE && Present(Read(m.ram, Word(m.dir, p / 1024)))
    ensures PageTableAdd(m, p, f).Ok? && MapChange(m, PageTableAdd(m, p, f).m, p, f, None)
    ensures PageTableAdd(m, p, f).m.zeroTable == m.zeroTable
  {
    AddReadyFacts(m, p, f);
    UserTable(m, f, m.dir, p / 1024);
    var t := FrameOf(Read(m.ram, Word(m.dir, p / 1024)));
    var w := Word(t, p % 1024);
    var m' := PageTableAdd(m, p, f).m;
    forall d, i | IsDir(m, d) && 0 <= i < 1024 ensures Read(m'.ram, Word(d, i)) == Read(m.ram, Word(d, i)) {
      WordsDiffer(d, i, t, p % 1024);
    }
    forall q: nat | KERNEL_PAGE <= q < WINDOW_PAGE ensures Read(m'.ram, KernelWord(q)) == Read(m.ram, KernelWord(q)) {
      KernelWordBelowPools(q);
    }
    forall d, q | d in m.uheap && 0 <= q < KERNEL_PAGE
      ensures PageFrame(m'.ram, d, q) == if d == m.dir && q == p then Some(f) else PageFrame(m.ram, d, q)
    {
      UserWordKeepsUserPage(m, p, f, d, q);
    }
  }

  // ----- a user page that needs a new table

  function NewTableRam(ram: Ram, dir: nat, p: nat, f: nat, t: nat): Ram {
    Zeroed(ram[Word(dir, p / 1024) := Entry(t)], t)[Word(t, p % 1024) := Entry(f)]
  }

  lemma ZeroedReads(ram: Ram, f: nat, g: nat, i: nat)
    requires i < 1024
    ensures Read(Zeroed(ram, f), Word(g, i)) == if g == f then 0 else Read(ram, Word(g, i))
  {
    var zeros := map j | 0 <= j < 1024 :: Word(f, j) := 0;
    if g == f {
      assert Word(f, i) in zeros;
    } else {
      forall j | 0 <= j < 1024 ensures Word(f, j) != Word(g, i) { WordsDiffer(f, j, g, i); }
      assert Word(g, i) !in zeros;
    }
  }

  /** What the memory holds after a new table t was put into the directory and page p mapped to f. */
  lemma NewTableReads(ram: Ram, dir: nat, p: nat, f: nat, t: nat, g: nat, i: nat)
    requires dir != t && i < 1024 && p < KERNEL_PAGE
    ensures Read(NewTableRam(ram, dir, p, f, t), Word(g, i)) ==
            if g == t then (if i == p % 1024 then Entry(f) else 0)
            else if g == dir && i == p / 1024 then Entry(t)
            else Read(ram, Word(g, i))
  {
    ZeroedReads(ram[Word(dir, p / 1024) := Entry(t)], t, g, i);
    if g != t || i != p % 1024 { WordsDiffer(g, i, t, p % 1024); }
    assert p / 1024 < 1024;
    if g != dir || i != p / 1024 { WordsDiffer(g, i, dir, p / 1024); }
  }

  /** A frame that is free in the kernel pool has no role yet. */
  lemma FreeFrame(m: Mem, f: nat, t: nat)
    requires MemInv(m, {f}) && m.kpool.Holds(t) && !m.kpool.Taken(t)
    ensures t !in m.own && t >= 0x200 && t != f && !IsDir(m, t)
  {
    assert m.kpool.Taken(f) || m.upool.Taken(f);
    assert t in m.own ==> FrameOk(m, t);
  }

  lemma NewTableKeepsUserPage(m: Mem, p: nat, f: nat, t: nat, d: nat, q: nat)
    requires AddReady(m, p, f) && p < KERNEL_PAGE && !Present(Read(m.ram, Word(m.dir, p / 1024)))
    requires m.kpool.Holds(t) && !m.kpool.Taken(t) && d in m.uheap && q < KERNEL_PAGE
    ensures PageFrame(NewTableRam(m.ram, m.dir, p, f, t), d, q)
            == if d == m.dir && q == p then Some(f) else PageFrame(m.ram, d, q)
  {
    hide Zeroed, NewTableRam, Entry;
    FreeFrame(m, f, t);
    var ram' := NewTableRam(m.ram, m.dir, p, f, t);
    var i := q / 1024;
    NewTableReads(m.ram, m.dir, p, f, t, d, i);
    if d == m.dir && i == p / 1024 {
      NewTableReads(m.ram, m.dir, p, f, t, t, q % 1024);
    } else if Present(Read(m.ram, Word(d, i))) {
      UserTable(m, f, d, i);
      var u := FrameOf(Read(m.ram, Word(d, i)));
      NewTableReads(m.ram, m.dir, p, f, t, u, q % 1024);
    }
  }

  lemma NewTableKeepsKernelWord(m: Mem, p: nat, f: nat, t: nat, q: nat)
    requires AddReady(m, p, f) && p < KERNEL_PAGE && m.kpool.Holds(t) && !m.kpool.Taken(t)
    requires KERNEL_PAGE <= q < WINDOW_PAGE
    ensures Read(NewTableRam(m.ram, m.dir, p, f, t), KernelWord(q)) == Read(m.ram, KernelWord(q))
  {
    FreeFrame(m, f, t);
    KernelWordBelowPools(q);
    var k :| KTABLE <= k < 0x200 && KernelWord(q) == Word(k, q % 1024);
    DirIsNoTable(m, {f}, m.dir, k);
    NewTableReads(m.ram, m.dir, p, f, t, k, q % 1024);
  }

  /** palloc: the first free frame of the pool, which becomes the only new one taken. */
  lemma PallocTakes(p: Pool)
    ensures var g := Palloc(p);
            && g.pool.first == p.first && |g.pool.used| == |p.used|
            && (g.got.Some? ==> p.Holds(g.got.value) && !p.Taken(g.got.value))
            && (forall n: nat :: g.pool.Taken(n) <==> p.Taken(n) || g.got == Some(n))
            && (g.got.None? ==> forall n: nat :: p.Holds(n) ==> p.Taken(n))
  {
    match Find(p.used, 1)
    case Some(k) =>
    case None =>
      forall n: nat | p.Holds(n) ensures p.Taken(n) { assert !FreeRun(p.used, n - p.first, 1); }
  }

  lemma NewTableUnfolds(m: Mem, p: nat, f: nat)
    requires AddReady(m, p, f) && p < KERNEL_PAGE && !Present(Read(m.ram, Word(m.dir, p / 1024)))
    requires Palloc(m.kpool).got.Some?
    ensures var g := Palloc(m.kpool); var t := g.got.value;
            PageTableAdd(m, p, f) == Ok(m.(ram := NewTableRam(m.ram, m.dir, p, f, t), kpool := g.pool,
                                           own := m.own[t := Table(m.dir, p / 1024)][f := UseOf(m.dir, p)]))
  {
    hide Palloc, MemInv, PageReady, Zeroed;
    AddReadyFacts(m, p, f);
  }

  lemma AddNewTable(m: Mem, p: nat, f: nat)
    requires AddReady(m, p, f) && p < KERNEL_PAGE && !Present(Read(m.ram, Word(m.dir, p / 1024)))
    requires Palloc(m.kpool).got.Some?
    ensures var t := Palloc(m.kpool).got;
            FreshTable(m, p, f, t) && PageTableAdd(m, p, f).Ok? && MapChange(m, PageTableAdd(m, p, f).m, p, f, t)
    ensures PageTableAdd(m, p, f).m.zeroTable == m.zeroTable
  {
    hide MemInv, Palloc, PageFrame, IsDir, PageReady, NewTableRam, PageTableAdd, Word, Read;
    AddReadyFacts(m, p, f);
    PallocTakes(m.kpool);
    var t := Palloc(m.kpool).got.value;
    FreeFrame(m, f, t);
    NewTableUnfolds(m, p, f);
    var m' := PageTableAdd(m, p, f).m;
    forall d, i | IsDir(m, d) && 0 <= i < 1024
      ensures Read(m'.ram, Word(d, i)) == if d == m.dir && i == p / 1024 then Entry(t) else Read(m.ram, Word(d, i))
    {
      NewTableReads(m.ram, m.dir, p, f, t, d, i);
    }
    forall q: nat | KERNEL_PAGE <= q < WINDOW_PAGE ensures Read(m'.ram, KernelWord(q)) == Read(m.ram, KernelWord(q)) {
      NewTableKeepsKernelWord(m, p, f, t, q);
    }
    forall d, q | d in m.uheap && 0 <= q < KERNEL_PAGE
      ensures PageFrame(m'.ram, d, q) == if d == m.dir && q == p then Some(f) else PageFrame(m.ram, d, q)
    {
      NewTableKeepsUserPage(m, p, f, t, d, q);
    }
  }

  // ----- page_table_add as a whole

  /** A page table has to be drawn for page p, and the kernel pool is empty. */
  predicate TableMissing(m: Mem, p: nat) {
    !Present(Read(m.ram, Word(m.dir, p / 1024))) && Palloc(m.kpool).got.None?
  }

  /** The frame of the page table that mapping p draws, if any. */
  function NewTable(m: Mem, p: nat): Option<nat> {
    if Present(Read(m.ram, Word(m.dir, p / 1024))) then None else Palloc(m.kpool).got
  }

  /**
   page_table_add on a reserved page never halts. Unless line 119 finds no frame it
   maps exactly that page and keeps the invariant.
   */
  lemma AddMapsOnePage(m: Mem, p: nat, f: nat)
    requires AddReady(m, p, f)
    ensures PageTableAdd(m, p, f).Ok?
    ensures PageTableAdd(m, p, f).m.zeroTable == (m.zeroTable || TableMissing(m, p))
    ensures p >= KERNEL_PAGE ==> !TableMissing(m, p) && NewTable(m, p).None?
    ensures !TableMissing(m, p) ==>
              MapChange(m, PageTableAdd(m, p, f).m, p, f, NewTable(m, p)) && MemInv(PageTableAdd(m, p, f).m, {})
  {
    hide MapChange, MemInv, FreshTable, Palloc, PageReady, PoolFits;
    AddReadyFacts(m, p, f);
    NoNewTable(m, p, f);
    if p >= KERNEL_PAGE {
      KernelPagePresent(m, p, f);
      AddKernelPage(m, p, f);
      ChangeKeepsInv(m, PageTableAdd(m, p, f).m, p, f, None);
    } else if Present(Read(m.ram, Word(m.dir, p / 1024))) {
      AddUserPage(m, p, f);
      ChangeKeepsInv(m, PageTableAdd(m, p, f).m, p, f, None);
    } else if Palloc(m.kpool).got.Some? {
      AddNewTable(m, p, f);
      ChangeKeepsInv(m, PageTableAdd(m, p, f).m, p, f, Palloc(m.kpool).got);
    }
  }

  /**
   The pages whose translation a new mapping of page p changes: for a user page, page p of the active
   directory; for a kernel page, page p of every directory, and its low alias in the kernel directory.
   */
  predicate Affected(m: Mem, p: nat, d: nat, q: nat) {
    if p < KERNEL_PAGE then d == m.dir && q == p
    else q == p || (d == KDIR && q < 1024 && q + KERNEL_PAGE == p)
  }

  /** Of all pages of all directories below the window, page_table_add changes exactly those, and maps them to f. */
  lemma AddChangesExactly(m: Mem, p: nat, f: nat, d: nat, q: nat)
    requires AddReady(m, p, f) && !TableMissing(m, p) && IsDir(m, d) && q < WINDOW_PAGE
    ensures PageTableAdd(m, p, f).Ok? && IsDir(PageTableAdd(m, p, f).m, d)
    ensures PageFrame(PageTableAdd(m, p, f).m.ram, d, q) == if Affected(m, p, d, q) then Some(f) else PageFrame(m.ram, d, q)
  {
    hide PageTableAdd, TableMissing, PageFrame, FreshTable, KernelPageOk, UserPageOk, FrameOk, LowHalfOk, PoolFits, PageReady;
    AddMapsOnePage(m, p, f);
    AddReadyFacts(m, p, f);
    var m' := PageTableAdd(m, p, f).m;
    if q >= KERNEL_PAGE {
      KernelChanges(m, m', p, f, NewTable(m, p), d, q);
    } else if d == KDIR {
      LowAlias(m, {f}, q);
      LowAlias(m', {}, q);
      if q < 1024 { KernelChanges(m, m', p, f, NewTable(m, p), d, KERNEL_PAGE + q); }
    }
    UserIsNoKernelDir(m, p, f);
  }

  lemma UserIsNoKernelDir(m: Mem, p: nat, f: nat)
    requires AddReady(m, p, f)
    ensures p < KERNEL_PAGE ==> m.dir in m.uheap && m.dir != KDIR
  {
    if p < KERNEL_PAGE {
      assert m.dir in m.own && FrameOk(m, m.dir);
      PoolFrames(m, m.dir);
    }
  }

  lemma KernelChanges(m: Mem, m': Mem, p: nat, f: nat, tf: Option<nat>, d: nat, q: nat)
    requires MemInv(m, {f}) && MemInv(m', {}) && MapChange(m, m', p, f, tf) && IsDir(m, d) && KERNEL_PAGE <= q < WINDOW_PAGE
    ensures PageFrame(m'.ram, d, q) == if q == p then Some(f) else PageFrame(m.ram, d, q)
  {
    hide PageFrame, KernelPageOk, UserPageOk, FrameOk, LowHalfOk;
    assert DirOk(m, d) && DirOk(m', d);
    KernelPageFrame(m, d, q);
    KernelPageFrame(m', d, q);
  }

  lemma NoNewTable(m: Mem, p: nat, f: nat)
    ensures FreshTable(m, p, f, None)
  {
  }
}
