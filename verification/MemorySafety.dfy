/**
 Allocation safety: what every allocation call keeps about frames, page tables and
 directories, and that every directory sees the same kernel half.
 */
module MemorySafety {
  import opened Options
  import opened Paging
  import opened Memory

  // ----- where a page is mapped

  /** The frame that page q is mapped to in directory d. */
  function PageFrame(ram: Ram, d: nat, q: nat): Option<nat> {
    var pde := Read(ram, Word(d, q / 1024));
    if !Present(pde) then None
    else
      var pte := Read(ram, Word(FrameOf(pde), q % 1024));
      if Present(pte) then Some(FrameOf(pte)) else None
  }

  /** The walk of an address is the mapping of its page plus the offset. */
  lemma WalkIsPageFrame(ram: Ram, d: nat, v: nat)
    requires v < VA_END
    ensures Walk(ram, d, v) == match PageFrame(ram, d, v / 4096)
                               case None => None
                               case Some(f) => Some(4096 * f + v % 4096)
  {
    assert PdeIdx(v) == v / 4096 / 1024 && PteIdx(v) == v / 4096 % 1024;
  }

  /** The page-table word of a kernel page: the kernel's tables follow one another in memory. */
  function KernelWord(q: nat): nat
    requires KERNEL_PAGE <= q
  {
    Word(KTABLE, q - KERNEL_PAGE)
  }

  // ----- the invariant, piece by piece

  predicate IsDir(m: Mem, d: nat) { d == KDIR || d in m.uheap }

  /** The sizes and places that mem_pool_init and the loader give (module PoolLayout). */
  predicate LayoutOk(m: Mem) {
    && m.kpool.first == 0x200
    && m.kpool.first + |m.kpool.used| <= m.upool.first
    && m.kheap.first == HEAP_PAGE && HEAP_PAGE + |m.kheap.used| <= WINDOW_PAGE
    && (forall d :: d in m.uheap ==> 0 < m.uheap[d].first && m.uheap[d].first + |m.uheap[d].used| <= KERNEL_PAGE)
  }

  /** A directory maps itself and shares the kernel's page tables. */
  ghost predicate DirOk(m: Mem, d: nat) {
    && SelfMapped(m.ram, d)
    && (forall i :: 768 <= i < 1023 ==> Read(m.ram, Word(d, i)) == Entry(KTABLE + i - 768))
  }

  /** User tables of a process directory were drawn for it; the kernel directory has only the first kernel table, at entry 0. */
  ghost predicate LowHalfOk(m: Mem, d: nat) {
    forall i :: 0 <= i < 768 ==> LowEntryOk(m, d, i, Read(m.ram, Word(d, i)))
  }

  predicate LowEntryOk(m: Mem, d: nat, i: nat, e: nat) {
    if d == KDIR then e == (if i == 0 then Entry(KTABLE) else 0)
    else Present(e) ==> FrameOf(e) in m.own && m.own[FrameOf(e)] == Table(d, i)
  }

  /** A mapped heap page is marked in the virtual bitmap, and its frame records it. */
  predicate KernelPageOk(m: Mem, q: nat)
    requires KERNEL_PAGE <= q
  {
    m.kheap.Holds(q) && Present(Read(m.ram, KernelWord(q))) ==>
      var f := FrameOf(Read(m.ram, KernelWord(q)));
      m.kheap.Taken(q) && f in m.own && m.own[f] == KPage(q)
  }

  /** The same for the pages of a process. */
  predicate UserPageOk(m: Mem, d: nat, q: nat)
    requires d in m.uheap
  {
    q < KERNEL_PAGE && PageFrame(m.ram, d, q).Some? ==>
      var f := PageFrame(m.ram, d, q).value;
      m.uheap[d].Taken(q) && f in m.own && m.own[f] == UPage(d, q)
  }

  /** What the record of a frame's use says is true. */
  predicate FrameOk(m: Mem, f: nat)
    requires f in m.own
  {
    match m.own[f]
    case KPage(q) => m.kheap.Taken(q) && q >= KERNEL_PAGE && Read(m.ram, KernelWord(q)) == Entry(f) && m.kpool.Taken(f)
    case UPage(d, q) => d in m.uheap && q < KERNEL_PAGE && PageFrame(m.ram, d, q) == Some(f)
                        && m.uheap[d].Taken(q) && m.upool.Taken(f)
    case Table(d, i) => d in m.uheap && i < 768 && Read(m.ram, Word(d, i)) == Entry(f) && m.kpool.Taken(f)
  }

  /**
   The memory invariant. `loose` are frames that were just handed out and have no use
   yet; between calls there are none.
   */
  ghost predicate MemInv(m: Mem, loose: set<nat>) {
    && LayoutOk(m)
    && IsDir(m, m.dir)
    && (forall d :: IsDir(m, d) ==> DirOk(m, d) && LowHalfOk(m, d))
    && (forall d :: d in m.uheap ==> d in m.own && m.own[d].KPage?)
    && (forall q :: KERNEL_PAGE <= q ==> KernelPageOk(m, q))
    && (forall d, q :: d in m.uheap ==> UserPageOk(m, d, q))
    && (forall f :: f in m.own ==> FrameOk(m, f))
    && (forall f :: f in m.own ==> f !in loose)
    && (forall f :: m.kpool.Taken(f) || m.upool.Taken(f) ==> f in m.own || f in loose)
    && (forall f :: f in loose ==> m.kpool.Taken(f) || m.upool.Taken(f))
  }

  // ----- consequences of the invariant

  /** Every directory agrees with the kernel directory on the kernel half below the self-map window. */
  lemma KernelHalfAgreement(m: Mem, loose: set<nat>, d: nat, v: nat)
    requires MemInv(m, loose) && IsDir(m, d) && 0xc000_0000 <= v < 0xffc0_0000
    ensures Walk(m.ram, d, v) == Walk(m.ram, KDIR, v)
  {
    assert DirOk(m, d) && DirOk(m, KDIR);
    assert 768 <= PdeIdx(v) < 1023;
  }

  lemma KernelPageFrame(m: Mem, d: nat, q: nat)
    requires DirOk(m, d) && KERNEL_PAGE <= q < WINDOW_PAGE
    ensures var e := Read(m.ram, KernelWord(q));
            PageFrame(m.ram, d, q) == if Present(e) then Some(FrameOf(e)) else None
  {
    var i := q / 1024;
    assert 768 <= i < 1023;
    assert FrameOf(Entry(KTABLE + i - 768)) == KTABLE + i - 768;
    assert Present(Entry(KTABLE + i - 768));
    assert Word(KTABLE + i - 768, q % 1024) == KernelWord(q);
  }

  /** Below the kernel half the kernel directory maps the first 1024 pages, as the first 1024 pages of the kernel half: entries 0 and 768 share a table. */
  lemma LowAlias(m: Mem, loose: set<nat>, q: nat)
    requires MemInv(m, loose) && q < KERNEL_PAGE
    ensures PageFrame(m.ram, KDIR, q) == if q < 1024 then PageFrame(m.ram, KDIR, KERNEL_PAGE + q) else None
  {
    assert DirOk(m, KDIR) && LowHalfOk(m, KDIR);
    var i := q / 1024;
    assert LowEntryOk(m, KDIR, i, Read(m.ram, Word(KDIR, i)));
    if q < 1024 {
      assert i == 0 && (KERNEL_PAGE + q) / 1024 == 768 && (KERNEL_PAGE + q) % 1024 == q % 1024;
      assert Read(m.ram, Word(KDIR, 768)) == Entry(KTABLE + 768 - 768);
    }
  }

  // ----- one new mapping

  /** Page p of the active directory is reserved and not mapped. */
  predicate PageReady(m: Mem, p: nat) {
    if p >= KERNEL_PAGE then m.kheap.Taken(p) && !Present(Read(m.ram, KernelWord(p)))
    else m.dir in m.uheap && m.uheap[m.dir].Taken(p) && PageFrame(m.ram, m.dir, p).None?
  }

  predicate PoolFits(m: Mem, p: nat, f: nat) { if p >= KERNEL_PAGE then m.kpool.Taken(f) else m.upool.Taken(f) }

  /** Frames of the pools start above the loader's tables, and the two pools do not overlap. */
  lemma PoolFrames(m: Mem, f: nat)
    requires LayoutOk(m)
    ensures m.kpool.Taken(f) || m.upool.Taken(f) ==> f >= 0x200
    ensures !(m.kpool.Taken(f) && m.upool.Taken(f))
  {
  }

  /** A directory is not a page table: neither one of the kernel's nor one drawn for a process. */
  lemma DirIsNoTable(m: Mem, loose: set<nat>, d: nat, t: nat)
    requires MemInv(m, loose) && IsDir(m, d)
    requires KTABLE <= t < 0x200 || (t in m.own && m.own[t].Table?) || t in loose
    ensures d != t
  {
    if d in m.uheap {
      assert d in m.own && FrameOk(m, d);
    } else if t in m.own {
      assert FrameOk(m, t);
    }
  }

  lemma WordsDiffer(f: nat, i: nat, g: nat, j: nat)
    requires i < 1024 && j < 1024 && (f != g || i != j)
    ensures Word(f, i) != Word(g, j)
  {
  }

  /**
   m' is m with page p of the active directory mapped to frame f, and a new page table
   on frame tf if there was none: what the directories, the heap's table words and
   the user mappings are afterwards.
   */
  ghost predicate MapChange(m: Mem, m': Mem, p: nat, f: nat, tf: Option<nat>) {
    && m'.dir == m.dir && m'.upool == m.upool && m'.kheap == m.kheap && m'.uheap == m.uheap
    && m'.kpool.first == m.kpool.first && |m'.kpool.used| == |m.kpool.used|
    && (forall g: nat :: m'.kpool.Taken(g) <==> m.kpool.Taken(g) || tf == Some(g))
    && m'.own == (match tf case None => m.own case Some(t) => m.own[t := Table(m.dir, p / 1024)])[f := UseOf(m.dir, p)]
    && (forall d, i :: IsDir(m, d) && 0 <= i < 1024 ==>
          Read(m'.ram, Word(d, i)) ==
          if tf.Some? && d == m.dir && i == p / 1024 then Entry(tf.value) else Read(m.ram, Word(d, i)))
    && (forall q: nat :: KERNEL_PAGE <= q < WINDOW_PAGE ==>
          Read(m'.ram, KernelWord(q)) == if q == p then Entry(f) else Read(m.ram, KernelWord(q)))
    && (forall d, q :: d in m.uheap && 0 <= q < KERNEL_PAGE ==>
          PageFrame(m'.ram, d, q) == if d == m.dir && q == p then Some(f) else PageFrame(m.ram, d, q))
  }

  /** The new table, if any, was free in the kernel pool and is for a user page. */
  predicate FreshTable(m: Mem, p: nat, f: nat, tf: Option<nat>) {
    tf.Some? ==>
      && p < KERNEL_PAGE && m.kpool.Holds(tf.value) && !m.kpool.Taken(tf.value) && tf.value != f
      && !Present(Read(m.ram, Word(m.dir, p / 1024)))
  }

  lemma ChangeKeepsDirs(m: Mem, m': Mem, p: nat, f: nat, tf: Option<nat>, d: nat)
    requires MemInv(m, {f}) && PageReady(m, p) && PoolFits(m, p, f) && FreshTable(m, p, f, tf) && MapChange(m, m', p, f, tf)
    requires IsDir(m, d)
    ensures DirOk(m', d) && LowHalfOk(m', d)
  {
    assert DirOk(m, d) && LowHalfOk(m, d);
    forall i | 0 <= i < 768 && Present(Read(m'.ram, Word(d, i)))
      ensures var g := FrameOf(Read(m'.ram, Word(d, i)));
              if d == KDIR then i == 0 && g == KTABLE else g in m'.own && m'.own[g] == Table(d, i)
    {
      if !(tf.Some? && d == m.dir && i == p / 1024) && d != KDIR {
        var g := FrameOf(Read(m.ram, Word(d, i)));
        assert g in m.own && FrameOk(m, g);
      }
    }
  }

  lemma ChangeKeepsFrame(m: Mem, m': Mem, p: nat, f: nat, tf: Option<nat>, g: nat)
    requires MemInv(m, {f}) && PageReady(m, p) && PoolFits(m, p, f) && FreshTable(m, p, f, tf) && MapChange(m, m', p, f, tf)
    requires g in m'.own
    ensures FrameOk(m', g)
  {
    hide PageFrame, Read, Word, Present;
    if g in m.own && g != f && tf != Some(g) {
      assert FrameOk(m, g);
    }
  }

  lemma ChangeKeepsPages(m: Mem, m': Mem, p: nat, f: nat, tf: Option<nat>)
    requires MemInv(m, {f}) && PageReady(m, p) && PoolFits(m, p, f) && FreshTable(m, p, f, tf) && MapChange(m, m', p, f, tf)
    ensures forall q :: KERNEL_PAGE <= q ==> KernelPageOk(m', q)
    ensures forall d, q :: d in m'.uheap ==> UserPageOk(m', d, q)
  {
    hide PageFrame, Read, Word, Present;
    forall q | KERNEL_PAGE <= q ensures KernelPageOk(m', q) { assert KernelPageOk(m, q); NotOwned(m, f, tf); }
    forall d, q | d in m'.uheap ensures UserPageOk(m', d, q) { assert UserPageOk(m, d, q); NotOwned(m, f, tf); }
  }

  lemma NotOwned(m: Mem, f: nat, tf: Option<nat>)
    requires MemInv(m, {f}) && (tf.Some? ==> m.kpool.Holds(tf.value) && !m.kpool.Taken(tf.value))
    ensures f !in m.own && (tf.Some? ==> tf.value !in m.own)
  {
    if tf.Some? && tf.value in m.own {
      assert FrameOk(m, tf.value);
      PoolFrames(m, tf.value);
    }
  }

  lemma ChangeKeepsInv(m: Mem, m': Mem, p: nat, f: nat, tf: Option<nat>)
    requires MemInv(m, {f}) && PageReady(m, p) && PoolFits(m, p, f) && FreshTable(m, p, f, tf) && MapChange(m, m', p, f, tf)
    ensures MemInv(m', {})
  {
    hide PageFrame, Read, Word, Present, DirOk, LowHalfOk, KernelPageOk, UserPageOk, FrameOk;
    forall d | IsDir(m', d) ensures DirOk(m', d) && LowHalfOk(m', d) { ChangeKeepsDirs(m, m', p, f, tf, d); }
    ChangeKeepsPages(m, m', p, f, tf);
    forall g | g in m'.own ensures FrameOk(m', g) { ChangeKeepsFrame(m, m', p, f, tf, g); }
    NotOwned(m, f, tf);
  }
}
