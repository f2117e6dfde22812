/**
 Kernel-half agreement over every run of memory calls, those included in which page_table_add finds no
 frame for a page table: a weaker invariant than MemInv, which a table on frame 0 does not break.
 */
module KernelHalf {
  import opened Options
  import opened Paging
  import opened Bitmaps
  import opened Memory
  import opened MemorySafety
  import opened Mapping
  import opened Allocation
  import opened MallocSafety
  import opened Outcomes
  import opened MemoryRuns
  import opened MemoryTheorems

  /** A page table of directory d below the kernel half: on frame 0, or on a frame that was handed out as a table. */
  predicate TableOk(m: Mem, d: nat, e: nat) {
    Present(e) ==>
      var t := FrameOf(e);
      if d == KDIR then t == KTABLE else t == 0 || (t in m.own && m.own[t].Table?)
  }

  /** Page q of a process is mapped to a frame of the user pool only. */
  predicate UserFrameOk(m: Mem, d: nat, q: nat) {
    PageFrame(m.ram, d, q).Some? ==> m.upool.Taken(PageFrame(m.ram, d, q).value)
  }

  /** A frame with a recorded use was handed out, and the page of a kernel page is reserved. */
  predicate OwnOk(m: Mem, f: nat)
    requires f in m.own
  {
    match m.own[f]
    case KPage(q) => m.kpool.Taken(f) && m.kheap.Taken(q)
    case UPage(_, _) => m.upool.Taken(f)
    case Table(_, _) => m.kpool.Taken(f)
  }

  ghost predicate HalfInv(m: Mem) {
    && LayoutOk(m) && IsDir(m, m.dir)
    && (forall d :: IsDir(m, d) ==> DirOk(m, d))
    && (forall d :: d in m.uheap ==> d in m.own && m.own[d].KPage?)
    && (forall f :: f in m.own ==> OwnOk(m, f))
    && (forall d, i :: IsDir(m, d) && 0 <= i < 768 ==> TableOk(m, d, Read(m.ram, Word(d, i))))
    && (forall q :: KERNEL_PAGE <= q ==> KernelPageOk(m, q))
    && (forall d, q: nat :: d in m.uheap && q < KERNEL_PAGE ==> UserFrameOk(m, d, q))
  }

  lemma InvIsHalfInv(m: Mem)
    requires MemInv(m, {})
    ensures HalfInv(m)
  {
    hide PageFrame, Read, Word;
    forall d, i | IsDir(m, d) && 0 <= i < 768 ensures TableOk(m, d, Read(m.ram, Word(d, i))) {
      assert LowHalfOk(m, d) && LowEntryOk(m, d, i, Read(m.ram, Word(d, i)));
    }
    forall d, q: nat | d in m.uheap && q < KERNEL_PAGE ensures UserFrameOk(m, d, q) {
      assert UserPageOk(m, d, q);
      if PageFrame(m.ram, d, q).Some? { assert FrameOk(m, PageFrame(m.ram, d, q).value); }
    }
    forall f | f in m.own ensures OwnOk(m, f) { assert FrameOk(m, f); }
  }

  /** Every directory agrees with the kernel directory on the kernel half below the window. */
  lemma HalfAgreement(m: Mem, d: nat, v: nat)
    requires HalfInv(m) && IsDir(m, d) && 0xc000_0000 <= v < 0xffc0_0000
    ensures Walk(m.ram, d, v) == Walk(m.ram, KDIR, v)
  {
    assert DirOk(m, d) && DirOk(m, KDIR);
    assert 768 <= PdeIdx(v) < 1023;
  }

  // ----- which frames are which

  /** Frame g is neither a directory nor a page table: it can be written without harm to any mapping. */
  predicate Harmless(m: Mem, g: nat) { g >= 0x200 && !IsDir(m, g) && !(g in m.own && m.own[g].Table?) }

  lemma UserFrameIsHarmless(m: Mem, g: nat)
    requires HalfInv(m) && m.upool.Taken(g)
    ensures Harmless(m, g)
  {
    PoolFrames(m, g);
    if g in m.own { assert OwnOk(m, g); }
  }

  lemma DataFrameIsHarmless(m: Mem, g: nat)
    requires HalfInv(m) && DataFrame(m, g)
    ensures Harmless(m, g)
  {
    assert OwnOk(m, g);
    PoolFrames(m, g);
  }

  lemma DirFrame(m: Mem, d: nat)
    requires HalfInv(m) && IsDir(m, d)
    ensures d != 0 && !(KTABLE <= d < 0x200) && !(d in m.own && m.own[d].Table?)
    ensures d != KDIR ==> d in m.own && d >= 0x200
  {
    if d != KDIR {
      assert OwnOk(m, d);
      PoolFrames(m, d);
    }
    if d in m.own {
      assert OwnOk(m, d);
      PoolFrames(m, d);
    }
  }

  lemma TableFrame(m: Mem, d: nat, i: nat)
    requires HalfInv(m) && d in m.uheap && i < 768 && Present(Read(m.ram, Word(d, i)))
    ensures var t := FrameOf(Read(m.ram, Word(d, i))); t == 0 || (t >= 0x200 && t in m.own && m.own[t].Table?)
  {
    DirFrame(m, d);
    assert TableOk(m, d, Read(m.ram, Word(d, i)));
    var t := FrameOf(Read(m.ram, Word(d, i)));
    assert d != KDIR by { assert d in m.own && OwnOk(m, d); PoolFrames(m, d); }
    if t != 0 {
      assert OwnOk(m, t);
      PoolFrames(m, t);
    }
  }

  // ----- writing to a harmless frame

  lemma HarmlessKernelWord(m: Mem, ram': Ram, g: nat, q: nat)
    requires HalfInv(m) && Harmless(m, g) && DiffersOnlyIn(m.ram, ram', g) && KERNEL_PAGE <= q < WINDOW_PAGE
    ensures Read(ram', KernelWord(q)) == Read(m.ram, KernelWord(q))
  {
    KernelWordBelowPools(q);
    var t :| KTABLE <= t < 0x200 && KernelWord(q) == Word(t, q % 1024);
    assert Read(ram', Word(t, q % 1024)) == Read(m.ram, Word(t, q % 1024));
  }

  lemma HarmlessUserPage(m: Mem, ram': Ram, g: nat, d: nat, q: nat)
    requires HalfInv(m) && Harmless(m, g) && DiffersOnlyIn(m.ram, ram', g) && d in m.uheap && q < KERNEL_PAGE
    ensures PageFrame(ram', d, q) == PageFrame(m.ram, d, q)
  {
    var i := q / 1024;
    assert Read(ram', Word(d, i)) == Read(m.ram, Word(d, i));
    if Present(Read(m.ram, Word(d, i))) {
      TableFrame(m, d, i);
      var t := FrameOf(Read(m.ram, Word(d, i)));
      assert Read(ram', Word(t, q % 1024)) == Read(m.ram, Word(t, q % 1024));
    }
  }

  lemma HarmlessWrite(m: Mem, ram': Ram, g: nat)
    requires HalfInv(m) && Harmless(m, g) && DiffersOnlyIn(m.ram, ram', g)
    ensures HalfInv(m.(ram := ram'))
  {
    hide PageFrame, Read, DiffersOnlyIn;
    var m' := m.(ram := ram');
    forall d, i: nat | IsDir(m, d) && i < 1024 ensures Read(ram', Word(d, i)) == Read(m.ram, Word(d, i)) { OtherFrame(m.ram, ram', g, d, i); }
    forall d | IsDir(m', d) ensures DirOk(m', d) { assert DirOk(m, d); SameDirWords(m, m', d); }
    forall f | f in m'.own ensures OwnOk(m', f) { assert OwnOk(m, f); }
    forall d, i | IsDir(m', d) && 0 <= i < 768 ensures TableOk(m', d, Read(m'.ram, Word(d, i))) { assert TableOk(m, d, Read(m.ram, Word(d, i))); }
    forall q: nat | KERNEL_PAGE <= q ensures KernelPageOk(m', q) {
      assert KernelPageOk(m, q);
      if q < WINDOW_PAGE { HarmlessKernelWord(m, ram', g, q); }
    }
    forall d, q: nat | d in m'.uheap && q < KERNEL_PAGE ensures UserFrameOk(m', d, q) {
      assert UserFrameOk(m, d, q);
      HarmlessUserPage(m, ram', g, d, q);
    }
  }

  lemma OtherFrame(ram: Ram, ram': Ram, g: nat, d: nat, i: nat)
    requires DiffersOnlyIn(ram, ram', g) && d != g && i < 1024
    ensures Read(ram', Word(d, i)) == Read(ram, Word(d, i))
  {
  }

  lemma SameDirWords(m: Mem, m': Mem, d: nat)
    requires DirOk(m, d) && forall i: nat :: 768 <= i < 1024 ==> Read(m'.ram, Word(d, i)) == Read(m.ram, Word(d, i))
    ensures DirOk(m', d)
  {
  }

  // ----- page_table_add, with or without a frame for a new page table

  /** Frame f was just handed out for page p and has no use yet; page p is reserved. */
  ghost predicate AddOk(m: Mem, p: nat, f: nat) {
    && HalfInv(m) && f !in m.own && p < WINDOW_PAGE && PoolFits(m, p, f)
    && (if p >= KERNEL_PAGE then m.kheap.Taken(p) else m.dir in m.uheap)
  }

  /**
   What page_table_add changes as far as HalfInv is concerned: tf is the frame of a new page table, 0 if
   there was none to be had.
   */
  ghost predicate HalfChange(m: Mem, m': Mem, p: nat, f: nat, tf: Option<nat>) {
    && m'.dir == m.dir && m'.upool == m.upool && m'.kheap == m.kheap && m'.uheap == m.uheap
    && m'.kpool.first == m.kpool.first && |m'.kpool.used| == |m.kpool.used|
    && (forall g: nat :: m.kpool.Taken(g) ==> m'.kpool.Taken(g))
    && (tf.Some? ==> p < KERNEL_PAGE && (tf.value != 0 ==> m'.kpool.Taken(tf.value) && tf.value !in m.own && tf.value != f))
    && m'.own == (if tf.Some? && tf.value != 0 then m.own[tf.value := Table(m.dir, p / 1024)] else m.own)[f := UseOf(m.dir, p)]
    && (forall d, i :: IsDir(m, d) && 0 <= i < 1024 ==>
          Read(m'.ram, Word(d, i)) ==
          if tf.Some? && d == m.dir && i == p / 1024 then Entry(tf.value) else Read(m.ram, Word(d, i)))
    && (forall q: nat :: KERNEL_PAGE <= q < WINDOW_PAGE ==>
          Read(m'.ram, KernelWord(q)) == if q == p then Entry(f) else Read(m.ram, KernelWord(q)))
    && (forall d, q: nat :: d in m.uheap && q < KERNEL_PAGE ==> UserPageChange(m, m', p, f, d, q))
  }

  /** A user page is mapped as before, not at all, or to the new frame of a user page. */
  predicate UserPageChange(m: Mem, m': Mem, p: nat, f: nat, d: nat, q: nat) {
    var r := PageFrame(m'.ram, d, q);
    r == PageFrame(m.ram, d, q) || r == None || (r == Some(f) && p < KERNEL_PAGE)
  }

  lemma HalfChangeKeepsDirs(m: Mem, m': Mem, p: nat, f: nat, tf: Option<nat>, d: nat)
    requires AddOk(m, p, f) && HalfChange(m, m', p, f, tf) && IsDir(m, d)
    ensures DirOk(m', d) && forall i :: 0 <= i < 768 ==> TableOk(m', d, Read(m'.ram, Word(d, i)))
  {
    hide PageFrame;
    assert DirOk(m, d);
    if p < KERNEL_PAGE { DirFrame(m, m.dir); NotTheKernelDir(m, m.dir); }
    forall i | 0 <= i < 768 ensures TableOk(m', d, Read(m'.ram, Word(d, i))) {
      assert TableOk(m, d, Read(m.ram, Word(d, i)));
    }
  }

  lemma NotTheKernelDir(m: Mem, d: nat)
    requires HalfInv(m) && d in m.uheap
    ensures d != KDIR
  {
    assert OwnOk(m, d);
    PoolFrames(m, d);
  }

  lemma HalfChangeKeeps(m: Mem, m': Mem, p: nat, f: nat, tf: Option<nat>)
    requires AddOk(m, p, f) && HalfChange(m, m', p, f, tf)
    ensures HalfInv(m')
  {
    hide PageFrame, Read, Word, DirOk, TableOk;
    forall d | IsDir(m', d) ensures DirOk(m', d) { HalfChangeKeepsDirs(m, m', p, f, tf, d); }
    forall d, i | IsDir(m', d) && 0 <= i < 768 ensures TableOk(m', d, Read(m'.ram, Word(d, i))) { HalfChangeKeepsDirs(m, m', p, f, tf, d); }
    forall g | g in m'.own ensures OwnOk(m', g) { if g in m.own { assert OwnOk(m, g); } }
    forall q: nat | KERNEL_PAGE <= q ensures KernelPageOk(m', q) { assert KernelPageOk(m, q); }
    forall d, q: nat | d in m'.uheap && q < KERNEL_PAGE ensures UserFrameOk(m', d, q) {
      assert UserFrameOk(m, d, q) && UserPageChange(m, m', p, f, d, q);
    }
  }

  // the three cases

  lemma AddHalfKernel(m: Mem, p: nat, f: nat)
    requires AddOk(m, p, f) && p >= KERNEL_PAGE && PageTableAdd(m, p, f).Ok?
    ensures HalfChange(m, PageTableAdd(m, p, f).m, p, f, None)
  {
    hide PageFrame, Word, Palloc, Zeroed, KernelWord, DirOk, TableOk, KernelPageOk, UserFrameOk;
    HalfKernelWord(m, p);
    var m' := PageTableAdd(m, p, f).m;
    assert m'.ram == m.ram[KernelWord(p) := Entry(f)];
    forall d, i | IsDir(m, d) && 0 <= i < 1024 ensures Read(m'.ram, Word(d, i)) == Read(m.ram, Word(d, i)) {
      DirFrame(m, d);
      KernelWordElsewhere(p, d, i);
    }
    forall q: nat | KERNEL_PAGE <= q < WINDOW_PAGE
      ensures Read(m'.ram, KernelWord(q)) == if q == p then Entry(f) else Read(m.ram, KernelWord(q))
    {
      KernelWordsDiffer(q, p);
    }
    forall d, q: nat | d in m.uheap && q < KERNEL_PAGE ensures UserPageChange(m, m', p, f, d, q) {
      KernelWordKeepsUser(m, p, Entry(f), d, q);
    }
  }

  lemma HalfKernelWord(m: Mem, p: nat)
    requires HalfInv(m) && KERNEL_PAGE <= p < WINDOW_PAGE
    ensures var pde := Read(m.ram, Word(m.dir, p / 1024));
            Present(pde) && Word(FrameOf(pde), p % 1024) == KernelWord(p)
  {
    assert DirOk(m, m.dir);
    assert 768 <= p / 1024 < 1023;
  }

  lemma KernelWordElsewhere(q: nat, d: nat, i: nat)
    requires KERNEL_PAGE <= q < WINDOW_PAGE && !(KTABLE <= d < 0x200) && i < 1024
    ensures KernelWord(q) != Word(d, i)
  {
    KernelWordBelowPools(q);
    var t :| KTABLE <= t < 0x200 && KernelWord(q) == Word(t, q % 1024);
    WordsDiffer(t, q % 1024, d, i);
  }

  lemma KernelWordKeepsUser(m: Mem, p: nat, e: nat, d: nat, q: nat)
    requires HalfInv(m) && KERNEL_PAGE <= p < WINDOW_PAGE && d in m.uheap && q < KERNEL_PAGE
    ensures PageFrame(m.ram[KernelWord(p) := e], d, q) == PageFrame(m.ram, d, q)
  {
    hide KernelWord;
    DirFrame(m, d);
    KernelWordElsewhere(p, d, q / 1024);
    if Present(Read(m.ram, Word(d, q / 1024))) {
      TableFrame(m, d, q / 1024);
      KernelWordElsewhere(p, FrameOf(Read(m.ram, Word(d, q / 1024))), q % 1024);
    }
  }

  /** A word of a user table is written: no directory, no kernel table. */
  lemma AddHalfTable(m: Mem, p: nat, f: nat)
    requires AddOk(m, p, f) && p < KERNEL_PAGE && Present(Read(m.ram, Word(m.dir, p / 1024))) && PageTableAdd(m, p, f).Ok?
    ensures HalfChange(m, PageTableAdd(m, p, f).m, p, f, None)
  {
    hide PageFrame, Word, Palloc, Zeroed, KernelWord, DirOk, TableOk, KernelPageOk, UserFrameOk;
    TableFrame(m, m.dir, p / 1024);
    var t := FrameOf(Read(m.ram, Word(m.dir, p / 1024)));
    var m' := PageTableAdd(m, p, f).m;
    assert m'.ram == m.ram[Word(t, p % 1024) := Entry(f)];
    forall d, i | IsDir(m, d) && 0 <= i < 1024 ensures Read(m'.ram, Word(d, i)) == Read(m.ram, Word(d, i)) {
      DirFrame(m, d);
      WordsDiffer(t, p % 1024, d, i);
    }
    forall q: nat | KERNEL_PAGE <= q < WINDOW_PAGE ensures Read(m'.ram, KernelWord(q)) == Read(m.ram, KernelWord(q)) {
      KernelWordElsewhere(q, t, p % 1024);
    }
    forall d, q: nat | d in m.uheap && q < KERNEL_PAGE ensures UserPageChange(m, m', p, f, d, q) {
      TableWordKeepsUser(m, t, p, f, d, q);
    }
  }

  lemma TableWordKeepsUser(m: Mem, t: nat, p: nat, f: nat, d: nat, q: nat)
    requires HalfInv(m) && p < KERNEL_PAGE && d in m.uheap && q < KERNEL_PAGE && d != t
    ensures var r := PageFrame(m.ram[Word(t, p % 1024) := Entry(f)], d, q); r == PageFrame(m.ram, d, q) || r == Some(f)
  {
    WordsDiffer(t, p % 1024, d, q / 1024);
    if Present(Read(m.ram, Word(d, q / 1024))) {
      var u := FrameOf(Read(m.ram, Word(d, q / 1024)));
      if u != t || q % 1024 != p % 1024 { WordsDiffer(t, p % 1024, u, q % 1024); }
    }
  }

  /** A new table t: a fresh frame, or frame 0. */
  lemma AddHalfNewTable(m: Mem, p: nat, f: nat)
    requires AddOk(m, p, f) && p < KERNEL_PAGE && !Present(Read(m.ram, Word(m.dir, p / 1024))) && PageTableAdd(m, p, f).Ok?
    ensures var g := Palloc(m.kpool); HalfChange(m, PageTableAdd(m, p, f).m, p, f, Some(if g.got.Some? then g.got.value else 0))
  {
    hide PageFrame, Word, Palloc, Zeroed, KernelWord, DirOk, TableOk, KernelPageOk, UserFrameOk, NewTableRam, Read, Entry;
    var g := Palloc(m.kpool);
    var t := if g.got.Some? then g.got.value else 0;
    PallocTakes(m.kpool);
    NewTableFrame(m, p, f);
    NewTableResult(m, p, f);
    var m' := PageTableAdd(m, p, f).m;
    DirFrame(m, m.dir);
    forall d, i | IsDir(m, d) && 0 <= i < 1024
      ensures Read(m'.ram, Word(d, i)) == if d == m.dir && i == p / 1024 then Entry(t) else Read(m.ram, Word(d, i))
    {
      FrameIsNoDir(m, t, d);
      NewTableReads(m.ram, m.dir, p, f, t, d, i);
    }
    FrameIsNoDir(m, t, m.dir);
    forall q: nat | KERNEL_PAGE <= q < WINDOW_PAGE ensures Read(m'.ram, KernelWord(q)) == Read(m.ram, KernelWord(q)) {
      NewTableKeepsKernel(m, p, f, t, q);
    }
    forall d, q: nat | d in m.uheap && q < KERNEL_PAGE ensures UserPageChange(m, m', p, f, d, q) {
      NewTableUserPage(m, p, f, t, d, q);
    }
  }

  lemma NewTableResult(m: Mem, p: nat, f: nat)
    requires !Present(Read(m.ram, Word(m.dir, p / 1024))) && PageTableAdd(m, p, f).Ok?
    ensures var g := Palloc(m.kpool); var t := if g.got.Some? then g.got.value else 0; var m' := PageTableAdd(m, p, f).m;
            && m' == m.(ram := NewTableRam(m.ram, m.dir, p, f, t), kpool := g.pool, own := m'.own, zeroTable := m'.zeroTable)
            && m'.own == (if g.got.Some? then m.own[t := Table(m.dir, p / 1024)] else m.own)[f := UseOf(m.dir, p)]
  {
    hide Palloc, Zeroed;
  }

  lemma NewTableFrame(m: Mem, p: nat, f: nat)
    requires AddOk(m, p, f) && p < KERNEL_PAGE
    ensures var g := Palloc(m.kpool); g.got.Some? ==> g.got.value >= 0x200 && g.got.value !in m.own && g.got.value != f
  {
    hide Palloc, PageFrame;
    PallocTakes(m.kpool);
    var g := Palloc(m.kpool);
    if g.got.Some? {
      assert g.got.value in m.own ==> OwnOk(m, g.got.value);
      PoolFrames(m, f);
    }
  }

  lemma FrameIsNoDir(m: Mem, t: nat, d: nat)
    requires HalfInv(m) && IsDir(m, d) && (t == 0 || (t >= 0x200 && t !in m.own))
    ensures d != t
  {
    DirFrame(m, d);
  }

  lemma NewTableKeepsKernel(m: Mem, p: nat, f: nat, t: nat, q: nat)
    requires HalfInv(m) && p < KERNEL_PAGE && (t == 0 || t >= 0x200) && t != m.dir && KERNEL_PAGE <= q < WINDOW_PAGE
    ensures Read(NewTableRam(m.ram, m.dir, p, f, t), KernelWord(q)) == Read(m.ram, KernelWord(q))
  {
    hide NewTableRam;
    DirFrame(m, m.dir);
    KernelWordBelowPools(q);
    var k :| KTABLE <= k < 0x200 && KernelWord(q) == Word(k, q % 1024);
    NewTableReads(m.ram, m.dir, p, f, t, k, q % 1024);
  }

  lemma NewTableUserPage(m: Mem, p: nat, f: nat, t: nat, d: nat, q: nat)
    requires HalfInv(m) && p < KERNEL_PAGE && m.dir in m.uheap && t != m.dir && d in m.uheap && q < KERNEL_PAGE
    requires t == 0 || (t >= 0x200 && t !in m.own)
    ensures var r := PageFrame(NewTableRam(m.ram, m.dir, p, f, t), d, q); r == PageFrame(m.ram, d, q) || r == None || r == Some(f)
  {
    hide NewTableRam;
    FrameIsNoDir(m, t, d);
    NewTableReads(m.ram, m.dir, p, f, t, d, q / 1024);
    if d == m.dir && q / 1024 == p / 1024 {
      NewTableReads(m.ram, m.dir, p, f, t, t, q % 1024);
    } else if Present(Read(m.ram, Word(d, q / 1024))) {
      var u := FrameOf(Read(m.ram, Word(d, q / 1024)));
      TableFrame(m, d, q / 1024);
      TableIsNoDir(m, d, q / 1024);
      NewTableReads(m.ram, m.dir, p, f, t, u, q % 1024);
    }
  }

  lemma TableIsNoDir(m: Mem, d: nat, i: nat)
    requires HalfInv(m) && d in m.uheap && i < 768 && Present(Read(m.ram, Word(d, i)))
    ensures forall e :: IsDir(m, e) ==> FrameOf(Read(m.ram, Word(d, i))) != e
  {
    TableFrame(m, d, i);
    forall e | IsDir(m, e) ensures FrameOf(Read(m.ram, Word(d, i))) != e { DirFrame(m, e); }
  }

  // ----- words that never change again

  predicate IsTable(m: Mem, g: nat) { KTABLE <= g < 0x200 || (g in m.own && m.own[g].Table?) }

  /** Word i of frame g is in the low memory of the bitmaps and main's PCB, or an entry in use of a directory or of a page table. */
  predicate Settled(m: Mem, g: nat, i: nat) {
    i < 1024 && (0 < g < 0x100 || ((IsDir(m, g) || IsTable(m, g)) && Present(Read(m.ram, Word(g, i)))))
  }

  /** Some process has a page table on frame 0. */
  ghost predicate ZeroEntry(m: Mem) { exists d, i :: HasZeroEntry(m, d, i) }

  predicate HasZeroEntry(m: Mem, d: nat, i: nat) { d in m.uheap && 0 <= i < 768 && Read(m.ram, Word(d, i)) == Entry(0) }

  /** Settled words stay, and so do directories and page tables; `zeroTable` stays, and is set only if there is such a table. */
  ghost predicate Stable(m: Mem, m': Mem) {
    && (forall g: nat, i: nat :: Settled(m, g, i) ==> Read(m'.ram, Word(g, i)) == Read(m.ram, Word(g, i)))
    && m.uheap.Keys <= m'.uheap.Keys
    && (forall g: nat :: IsTable(m, g) ==> IsTable(m', g))
    && (m.zeroTable ==> m'.zeroTable) && (m'.zeroTable ==> m.zeroTable || ZeroEntry(m'))
  }

  lemma StableReflexive(m: Mem)
    ensures Stable(m, m)
  {
  }

  lemma StaysSettled(m: Mem, m': Mem, g: nat, i: nat)
    requires Stable(m, m') && Settled(m, g, i)
    ensures Settled(m', g, i) && Read(m'.ram, Word(g, i)) == Read(m.ram, Word(g, i))
  {
  }

  lemma StaysZero(m: Mem, m': Mem)
    requires Stable(m, m') && ZeroEntry(m)
    ensures ZeroEntry(m')
  {
    hide Word, Read;
    var d, i :| HasZeroEntry(m, d, i);
    assert Settled(m, d, i);
    assert HasZeroEntry(m', d, i);
  }

  lemma StableTransitive(m: Mem, m1: Mem, m2: Mem)
    requires Stable(m, m1) && Stable(m1, m2)
    ensures Stable(m, m2)
  {
    hide Settled, IsTable, ZeroEntry, Word, Read;
    forall g: nat, i: nat | Settled(m, g, i) ensures Read(m2.ram, Word(g, i)) == Read(m.ram, Word(g, i)) {
      StaysSettled(m, m1, g, i);
    }
    if m1.zeroTable && !m.zeroTable { StaysZero(m1, m2); }
  }

  /** Handing out a frame, reserving pages or activating another directory touches no word. */
  lemma SameRamIsStable(m: Mem, m': Mem)
    requires m'.ram == m.ram && m'.own == m.own && m.uheap.Keys <= m'.uheap.Keys && m'.zeroTable == m.zeroTable
    ensures Stable(m, m')
  {
  }

  lemma HarmlessIsStable(m: Mem, m': Mem, g: nat)
    requires HalfInv(m) && Harmless(m, g) && DiffersOnlyIn(m.ram, m'.ram, g)
    requires m'.own == m.own && m.uheap.Keys <= m'.uheap.Keys && m'.zeroTable == m.zeroTable
    ensures Stable(m, m')
  {
    hide HalfInv, Read, Word;
  }

  /** page_table_add writes to entries that are not in use, and clears at most a fresh frame or frame 0. */
  lemma AddIsStable(m: Mem, p: nat, f: nat)
    requires AddOk(m, p, f) && PageTableAdd(m, p, f).Ok?
    ensures Stable(m, PageTableAdd(m, p, f).m)
  {
    hide PageTableAdd, AddOk, Settled, IsTable, ZeroEntry;
    var m' := PageTableAdd(m, p, f).m;
    forall g: nat, i: nat | Settled(m, g, i) ensures Read(m'.ram, Word(g, i)) == Read(m.ram, Word(g, i)) {
      AddKeepsSettled(m, p, f, g, i);
    }
    AddKeepsTables(m, p, f);
    if m'.zeroTable && !m.zeroTable { AddMayLackTable(m, p, f); }
  }

  lemma AddKeepsTables(m: Mem, p: nat, f: nat)
    requires AddOk(m, p, f) && PageTableAdd(m, p, f).Ok?
    ensures var m' := PageTableAdd(m, p, f).m;
            m'.uheap == m.uheap && (m.zeroTable ==> m'.zeroTable) && forall g: nat :: IsTable(m, g) ==> IsTable(m', g)
  {
    hide PageFrame, Zeroed, Palloc, DirOk, TableOk, KernelPageOk, UserFrameOk, Read, Word;
    if p < KERNEL_PAGE { NewTableFrame(m, p, f); } else { HalfKernelWord(m, p); }
  }

  lemma AddMayLackTable(m: Mem, p: nat, f: nat)
    requires AddOk(m, p, f) && PageTableAdd(m, p, f).Ok? && PageTableAdd(m, p, f).m.zeroTable && !m.zeroTable
    ensures ZeroEntry(PageTableAdd(m, p, f).m)
  {
    hide PageFrame, Zeroed, Palloc, DirOk, TableOk, KernelPageOk, UserFrameOk, NewTableRam, Read, Word, Entry;
    if p >= KERNEL_PAGE { HalfKernelWord(m, p); }
    NewTableResult(m, p, f);
    DirFrame(m, m.dir);
    NewTableReads(m.ram, m.dir, p, f, 0, m.dir, p / 1024);
    assert HasZeroEntry(PageTableAdd(m, p, f).m, m.dir, p / 1024);
  }

  lemma FrameZeroIsFree(m: Mem)
    requires HalfInv(m)
    ensures 0 !in m.own
  {
    assert 0 in m.own ==> OwnOk(m, 0);
  }

  lemma AddKeepsSettled(m: Mem, p: nat, f: nat, g: nat, i: nat)
    requires AddOk(m, p, f) && PageTableAdd(m, p, f).Ok? && Settled(m, g, i)
    ensures Read(PageTableAdd(m, p, f).m.ram, Word(g, i)) == Read(m.ram, Word(g, i))
  {
    hide Palloc, PoolFits, NewTableRam, DirOk, TableOk, KernelPageOk, UserFrameOk, Zeroed, PageFrame, Word, Read, KernelWord, Entry;
    DirFrame(m, m.dir);
    if p >= KERNEL_PAGE {
      HalfKernelWord(m, p);
      KernelAddRam(m, p, f);
      if 0 < g < 0x100 { KernelWordElsewhere(p, g, i); }
      OtherWord(m.ram, KernelWord(p), Entry(f), Word(g, i));
    } else if Present(Read(m.ram, Word(m.dir, p / 1024))) {
      TableFrame(m, m.dir, p / 1024);
      var t := FrameOf(Read(m.ram, Word(m.dir, p / 1024)));
      if g != t || i != p % 1024 { WordsDiffer(t, p % 1024, g, i); }
      OtherWord(m.ram, Word(t, p % 1024), Entry(f), Word(g, i));
    } else {
      NewTableFrame(m, p, f);
      NewTableResult(m, p, f);
      var h := Palloc(m.kpool);
      var t := if h.got.Some? then h.got.value else 0;
      FrameIsNoDir(m, t, m.dir);
      FrameZeroIsFree(m);
      if IsDir(m, g) { FrameIsNoDir(m, t, g); }
      NewTableReads(m.ram, m.dir, p, f, t, g, i);
    }
  }

  lemma KernelAddRam(m: Mem, p: nat, f: nat)
    requires HalfInv(m) && KERNEL_PAGE <= p < WINDOW_PAGE && PageTableAdd(m, p, f).Ok?
    ensures PageTableAdd(m, p, f).m.ram == m.ram[KernelWord(p) := Entry(f)] && !Present(Read(m.ram, KernelWord(p)))
  {
    hide Palloc, DirOk, TableOk, KernelPageOk, UserFrameOk, Zeroed, PageFrame, Word, KernelWord, Entry;
    HalfKernelWord(m, p);
  }

  lemma OtherWord(ram: Ram, w: nat, x: nat, v: nat)
    requires v != w
    ensures Read(ram[w := x], v) == Read(ram, v)
  {
  }

  /** page_table_add keeps HalfInv, whether or not line 119 finds a frame. */
  lemma AddKeepsHalf(m: Mem, p: nat, f: nat)
    requires AddOk(m, p, f) && PageTableAdd(m, p, f).Ok?
    ensures HalfInv(PageTableAdd(m, p, f).m) && Stable(m, PageTableAdd(m, p, f).m)
  {
    hide HalfInv, HalfChange, PageTableAdd, Palloc, PoolFits, Stable;
    AddIsStable(m, p, f);
    var m' := PageTableAdd(m, p, f).m;
    if p >= KERNEL_PAGE {
      AddHalfKernel(m, p, f);
      HalfChangeKeeps(m, m', p, f, None);
    } else if Present(Read(m.ram, Word(m.dir, p / 1024))) {
      AddHalfTable(m, p, f);
      HalfChangeKeeps(m, m', p, f, None);
    } else {
      AddHalfNewTable(m, p, f);
      var g := Palloc(m.kpool);
      HalfChangeKeeps(m, m', p, f, Some(if g.got.Some? then g.got.value else 0));
    }
  }

  // ----- whole calls

  /** More reserved pages, or another active directory, keep HalfInv; so does a frame that is handed out. */
  lemma MoreKeepsHalf(m: Mem, m': Mem)
    requires HalfInv(m) && m'.ram == m.ram && m'.own == m.own && m'.uheap.Keys == m.uheap.Keys && LayoutOk(m') && IsDir(m', m'.dir)
    requires m'.zeroTable == m.zeroTable
    requires forall n: nat :: (m.kpool.Taken(n) ==> m'.kpool.Taken(n)) && (m.upool.Taken(n) ==> m'.upool.Taken(n))
    requires forall n: nat :: (m.kheap.Taken(n) ==> m'.kheap.Taken(n)) && (m'.kheap.Holds(n) <==> m.kheap.Holds(n))
    ensures HalfInv(m') && Stable(m, m')
  {
    hide PageFrame, Read, Word, LayoutOk, Stable;
    SameRamIsStable(m, m');
    forall d | IsDir(m', d) ensures DirOk(m', d) { assert DirOk(m, d); SameRamDir(m, m', d); }
    forall f | f in m'.own ensures OwnOk(m', f) { assert OwnOk(m, f); }
    forall d, i | IsDir(m', d) && 0 <= i < 768 ensures TableOk(m', d, Read(m'.ram, Word(d, i))) { assert TableOk(m, d, Read(m.ram, Word(d, i))); }
    forall q: nat | KERNEL_PAGE <= q ensures KernelPageOk(m', q) { assert KernelPageOk(m, q); }
    forall d, q: nat | d in m'.uheap && q < KERNEL_PAGE ensures UserFrameOk(m', d, q) { assert UserFrameOk(m, d, q); }
  }

  lemma SameRamDir(m: Mem, m': Mem, d: nat)
    requires DirOk(m, d) && m'.ram == m.ram
    ensures DirOk(m', d)
  {
  }

  /** The pages are reserved for the active directory, and no directory lies on one of them. */
  ghost predicate RunHeld(m: Mem, pf: Flag, page: nat, cnt: nat) {
    && (forall q: nat :: page <= q < page + cnt ==> PageHeld(m, pf, q))
    && (forall d :: d in m.uheap ==> d in m.own && NoPageOf(m.own[d], page, cnt))
  }

  predicate PageHeld(m: Mem, pf: Flag, q: nat) {
    q < WINDOW_PAGE && if pf.PfKernel? then q >= KERNEL_PAGE && m.kheap.Taken(q) else q < KERNEL_PAGE && m.dir in m.uheap
  }

  predicate NoPageOf(u: Use, page: nat, cnt: nat) { u.KPage? ==> !(page <= u.page < page + cnt) }

  lemma TakeKeepsHalf(m: Mem, pf: Flag)
    requires HalfInv(m) && Palloc(PoolOf(m, pf)).got.Some?
    ensures var g := Palloc(PoolOf(m, pf)); var m1 := WithPool(m, pf, g.pool);
            HalfInv(m1) && Stable(m, m1) && g.got.value !in m.own && PoolOf(m1, pf).Taken(g.got.value)
  {
    hide Palloc, PageFrame, Stable, DirOk, TableOk, KernelPageOk, UserFrameOk;
    var p := PoolOf(m, pf);
    PallocTakes(p);
    var g := Palloc(p);
    if g.got.value in m.own { assert OwnOk(m, g.got.value); PoolFrames(m, g.got.value); HeldOnce(m, pf, g.got.value); }
    MoreKeepsHalf(m, WithPool(m, pf, g.pool));
  }

  /** The pools do not overlap. */
  lemma HeldOnce(m: Mem, pf: Flag, f: nat)
    requires LayoutOk(m) && PoolOf(m, pf).Holds(f) && !PoolOf(m, pf).Taken(f)
    ensures !m.kpool.Taken(f) && !m.upool.Taken(f)
  {
  }

  lemma {:induction false} LoopKeepsHalf(m: Mem, pf: Flag, page: nat, cnt: nat)
    requires HalfInv(m) && RunHeld(m, pf, page, cnt)
    ensures var r := MapRun(m, pf, page, cnt); !r.Stopped? ==> HalfInv(r.m) && DirUsesKept(m, r.m) && Stable(m, r.m)
    decreases cnt
  {
    hide HalfInv, Palloc, PageTableAdd, PoolFits, Stable;
    StableReflexive(m);
    if cnt > 0 {
      var g := Palloc(PoolOf(m, pf));
      if g.got.Some? {
        var f := g.got.value;
        var m1 := WithPool(m, pf, g.pool);
        TakeKeepsHalf(m, pf);
        assert PageHeld(m, pf, page);
        FitsPool(m1, pf, page, f);
        var r := PageTableAdd(m1, page, f);
        if r.Ok? {
          AddKeepsHalf(m1, page, f);
          AddKeepsHeaps(m1, page, f);
          AddKeepsDirUses(m1, page, f);
          HeldLater(m, r.m, pf, page, cnt);
          LoopKeepsHalf(r.m, pf, page + 1, cnt - 1);
          var m' := MapRun(r.m, pf, page + 1, cnt - 1);
          if !m'.Stopped? {
            StableTransitive(m1, r.m, m'.m);
            StableTransitive(m, m1, m'.m);
          }
        }
      }
    }
  }

  ghost predicate DirUsesKept(m: Mem, m': Mem) {
    forall d :: d in m.uheap ==> d in m.own && d in m'.own && m'.own[d] == m.own[d]
  }

  lemma FitsPool(m: Mem, pf: Flag, page: nat, f: nat)
    requires PoolOf(m, pf).Taken(f) && (page >= KERNEL_PAGE <==> pf.PfKernel?)
    ensures PoolFits(m, page, f)
  {
  }

  /** The uses of the directories' frames stay. */
  lemma AddKeepsDirUses(m: Mem, p: nat, f: nat)
    requires AddOk(m, p, f) && PageTableAdd(m, p, f).Ok?
    ensures DirUsesKept(m, PageTableAdd(m, p, f).m)
  {
    hide PageFrame, Zeroed, Palloc, DirOk, TableOk, KernelPageOk, UserFrameOk, Read, Word;
    if p < KERNEL_PAGE { NewTableFrame(m, p, f); } else { HalfKernelWord(m, p); }
  }

  lemma HeldLater(m: Mem, m': Mem, pf: Flag, page: nat, cnt: nat)
    requires RunHeld(m, pf, page, cnt) && m'.kheap == m.kheap && m'.uheap == m.uheap && m'.dir == m.dir
    requires DirUsesKept(m, m')
    ensures RunHeld(m', pf, page, cnt) && (cnt > 0 ==> RunHeld(m', pf, page + 1, cnt - 1))
  {
    forall q: nat | page <= q < page + cnt ensures PageHeld(m', pf, q) { assert PageHeld(m, pf, q); }
    forall d | d in m'.uheap ensures d in m'.own && NoPageOf(m'.own[d], page, cnt) && (cnt > 0 ==> NoPageOf(m'.own[d], page + 1, cnt - 1)) {
      assert NoPageOf(m.own[d], page, cnt);
    }
  }

  lemma VaddrGetHolds(m: Mem, pf: Flag, cnt: nat)
    requires HalfInv(m) && VaddrGet(m, pf, cnt).Reserved?
    ensures var v := VaddrGet(m, pf, cnt); HalfInv(v.m) && Stable(m, v.m) && (v.page.Some? ==> RunHeld(v.m, pf, v.page.value, cnt))
  {
    hide Stable, PageFrame, Read, Find, SetRun, DirOk, TableOk, KernelPageOk, UserFrameOk;
    StableReflexive(m);
    VaddrGetFinds(m, pf, cnt);
    var v := VaddrGet(m, pf, cnt);
    if v.page.Some? {
      TakeGrows(HeapOf(m, pf), cnt);
      if pf.PfUser? { FoundForProcess(m, cnt); }
      MoreKeepsHalf(m, v.m);
      forall q: nat | v.page.value <= q < v.page.value + cnt ensures PageHeld(v.m, pf, q) { TakenAt(HeapOf(m, pf), cnt, q); }
      forall d | d in v.m.uheap ensures d in v.m.own && NoPageOf(v.m.own[d], v.page.value, cnt) {
        assert OwnOk(m, d);
      }
    }
  }

  /** The frame of a held page can be cleared. */
  lemma HeldFrameIsHarmless(m: Mem, pf: Flag, page: nat, cnt: nat, q: nat)
    requires HalfInv(m) && RunHeld(m, pf, page, cnt) && page <= q < page + cnt && PageFrame(m.ram, m.dir, q).Some?
    ensures Harmless(m, PageFrame(m.ram, m.dir, q).value)
  {
    hide PageFrame;
    assert PageHeld(m, pf, q);
    var f := PageFrame(m.ram, m.dir, q).value;
    if pf.PfKernel? {
      assert DirOk(m, m.dir);
      KernelPageFrame(m, m.dir, q);
      assert KernelPageOk(m, q) && OwnOk(m, f);
      PoolFrames(m, f);
    } else {
      assert UserFrameOk(m, m.dir, q);
      UserFrameIsHarmless(m, f);
    }
  }

  /** One turn of the memset over held pages. */
  lemma ClearOneKeepsHalf(m: Mem, pf: Flag, page: nat, cnt: nat)
    requires HalfInv(m) && RunHeld(m, pf, page, cnt) && cnt > 0 && PageFrame(m.ram, m.dir, page).Some?
    ensures var f := PageFrame(m.ram, m.dir, page).value; var m1 := m.(ram := Zeroed(m.ram, f));
            HalfInv(m1) && Stable(m, m1) && RunHeld(m1, pf, page + 1, cnt - 1)
  {
    hide HalfInv, RunHeld, PageFrame, Zeroed, DiffersOnlyIn;
    var f := PageFrame(m.ram, m.dir, page).value;
    var m1 := m.(ram := Zeroed(m.ram, f));
    HeldFrameIsHarmless(m, pf, page, cnt, page);
    ZeroedDiffers(m.ram, f);
    HarmlessWrite(m, m1.ram, f);
    HeldWithOtherRam(m, m1, pf, page, cnt);
    HarmlessIsStable(m, m1, f);
  }

  lemma HeldInRange(m: Mem, pf: Flag, page: nat, cnt: nat)
    requires RunHeld(m, pf, page, cnt) && cnt > 0
    ensures page < WINDOW_PAGE
  {
    assert PageHeld(m, pf, page);
  }

  /** memset over held pages. */
  lemma {:induction false} ClearKeepsHalf(m: Mem, pf: Flag, page: nat, cnt: nat)
    requires HalfInv(m) && RunHeld(m, pf, page, cnt)
    ensures var m' := m.(ram := ZeroRun(m.ram, m.dir, page, cnt)); HalfInv(m') && Stable(m, m')
    decreases cnt
  {
    hide HalfInv, RunHeld, PageFrame, Walk, Zeroed, Stable, DiffersOnlyIn;
    StableReflexive(m);
    if cnt > 0 {
      HeldInRange(m, pf, page, cnt);
      PageWalk(m.ram, m.dir, page);
      if PageFrame(m.ram, m.dir, page).Some? {
        var m1 := m.(ram := Zeroed(m.ram, PageFrame(m.ram, m.dir, page).value));
        ClearOneKeepsHalf(m, pf, page, cnt);
        ClearKeepsHalf(m1, pf, page + 1, cnt - 1);
        StableTransitive(m, m1, m1.(ram := ZeroRun(m1.ram, m.dir, page + 1, cnt - 1)));
      }
    }
  }

  lemma HeldWithOtherRam(m: Mem, m': Mem, pf: Flag, page: nat, cnt: nat)
    requires RunHeld(m, pf, page, cnt) && m' == m.(ram := m'.ram) && cnt > 0
    ensures RunHeld(m', pf, page, cnt) && RunHeld(m', pf, page + 1, cnt - 1)
  {
    forall q: nat | page <= q < page + cnt ensures PageHeld(m', pf, q) { assert PageHeld(m, pf, q); }
    forall d | d in m'.uheap ensures d in m'.own && NoPageOf(m'.own[d], page + 1, cnt - 1) { assert NoPageOf(m.own[d], page, cnt); }
  }

  /** malloc_page on held pages: the pages of a successful call are held. */
  lemma MallocKeepsHalf(m: Mem, pf: Flag, cnt: nat)
    requires HalfInv(m)
    ensures var r := MallocPage(m, pf, cnt); !r.Stop? ==> HalfInv(r.m) && Stable(m, r.m) && (r.Got? ==> RunHeld(r.m, pf, r.page, cnt))
  {
    hide HalfInv, MapRun, VaddrGet, Palloc, Stable;
    StableReflexive(m);
    VaddrGetFinds(m, pf, cnt);
    if 0 < cnt < 3840 && VaddrGet(m, pf, cnt).Reserved? {
      var v := VaddrGet(m, pf, cnt);
      VaddrGetHolds(m, pf, cnt);
      if v.page.Some? {
        LoopKeepsHalf(v.m, pf, v.page.value, cnt);
        LoopKeepsHeaps(v.m, pf, v.page.value, cnt);
        var r := MapRun(v.m, pf, v.page.value, cnt);
        if !r.Stopped? {
          HeldLater(v.m, r.m, pf, v.page.value, cnt);
          StableTransitive(m, v.m, r.m);
        }
      } else {
        VaddrGetFinds(m, pf, cnt);
        MapNothing(v.m, pf, cnt);
      }
    }
  }

  lemma GetPagesKeepsHalf(m: Mem, pf: Flag, cnt: nat)
    requires HalfInv(m)
    ensures var r := GetPages(m, pf, cnt); !r.Stop? ==> HalfInv(r.m) && Stable(m, r.m)
  {
    hide HalfInv, MallocPage, ZeroRun, Faults, RunHeld, Stable;
    MallocKeepsHalf(m, pf, cnt);
    var r := MallocPage(m, pf, cnt);
    if r.Got? {
      ClearKeepsHalf(r.m, pf, r.page, cnt);
      StableTransitive(m, r.m, r.m.(ram := ZeroRun(r.m.ram, r.m.dir, r.page, cnt)));
    }
  }

  lemma MarkKeepsHalf(m: Mem, pf: Flag, page: nat)
    requires HalfInv(m) && PageRequestOk(m, pf, page)
    ensures HalfInv(Marked(m, pf, page)) && Stable(m, Marked(m, pf, page)) && PageHeld(Marked(m, pf, page), pf, page)
  {
    hide PageFrame, Read, DirOk, TableOk, KernelPageOk, UserFrameOk, OwnOk, Stable;
    MoreKeepsHalf(m, Marked(m, pf, page));
  }

  lemma GetAPageKeepsHalf(m: Mem, pf: Flag, page: nat)
    requires HalfInv(m)
    ensures var r := GetAPage(m, pf, page); !r.Stop? ==> HalfInv(r.m) && Stable(m, r.m)
  {
    hide HalfInv, Palloc, PageTableAdd, PoolFits, Stable;
    StableReflexive(m);
    if PageRequestOk(m, pf, page) {
      MarkKeepsHalf(m, pf, page);
      var m1 := Marked(m, pf, page);
      var g := Palloc(PoolOf(m1, pf));
      if g.got.Some? {
        TakeKeepsHalf(m1, pf);
        var m2 := WithPool(m1, pf, g.pool);
        FitsPool(m2, pf, page, g.got.value);
        if PageTableAdd(m2, page, g.got.value).Ok? {
          AddKeepsHalf(m2, page, g.got.value);
          StableTransitive(m, m1, m2);
          StableTransitive(m, m2, PageTableAdd(m2, page, g.got.value).m);
        }
      }
    }
  }

  // ----- create_page_dir

  lemma HeldKernelFrame(m: Mem, page: nat)
    requires HalfInv(m) && RunHeld(m, PfKernel, page, 1) && PageFrame(m.ram, m.dir, page).Some?
    ensures var f := PageFrame(m.ram, m.dir, page).value;
            KERNEL_PAGE <= page < WINDOW_PAGE && f in m.own && m.own[f] == KPage(page) && Present(Read(m.ram, KernelWord(page)))
            && FrameOf(Read(m.ram, KernelWord(page))) == f
  {
    hide PageFrame;
    assert PageHeld(m, PfKernel, page);
    assert DirOk(m, m.dir);
    KernelPageFrame(m, m.dir, page);
    assert KernelPageOk(m, page);
  }

  lemma OneCleared(ram: Ram, dir: nat, page: nat)
    requires page < 0x10_0000 && !Faults(ram, dir, page, 1)
    ensures PageFrame(ram, dir, page).Some? && ZeroRun(ram, dir, page, 1) == Zeroed(ram, PageFrame(ram, dir, page).value)
  {
    hide PageFrame, Walk, Zeroed;
    PageWalk(ram, dir, page);
    var f := PageFrame(ram, dir, page);
    if f.Some? { assert ZeroRun(Zeroed(ram, f.value), dir, page + 1, 0) == Zeroed(ram, f.value); }
  }

  /** The entry is the frame with its three flags: addr_v2p gives its address. */
  lemma KernelAddress(m: Mem, page: nat)
    requires HalfInv(m) && KERNEL_PAGE <= page < WINDOW_PAGE && Present(Read(m.ram, KernelWord(page)))
    ensures AddrV2P(m.ram, m.dir, 4096 * page) == Some(4096 * FrameOf(Read(m.ram, KernelWord(page))))
    ensures 4096 * FrameOf(Read(m.ram, KernelWord(page))) / 4096 == FrameOf(Read(m.ram, KernelWord(page)))
  {
    hide PageFrame, Walk, AddrV2P;
    assert DirOk(m, m.dir);
    KernelPageFrame(m, m.dir, page);
    PageWalk(m.ram, m.dir, page);
    AddrV2PAgreesWithWalk(m.ram, m.dir, 4096 * page);
  }

  /** The page that get_kernel_pages(1) returned. */
  ghost predicate FreshPage(m: Mem, page: nat, f: nat) {
    && HalfInv(m) && KERNEL_PAGE <= page < WINDOW_PAGE && Harmless(m, f) && f in m.own && m.own[f].KPage?
    && Present(Read(m.ram, KernelWord(page))) && FrameOf(Read(m.ram, KernelWord(page))) == f
    && (forall i: nat :: i < 1024 ==> Read(m.ram, Word(f, i)) == 0)
  }

  lemma FreshAddress(m: Mem, page: nat, f: nat)
    requires FreshPage(m, page, f)
    ensures AddrV2P(m.ram, m.dir, 4096 * page) == Some(4096 * f) && 4096 * f / 4096 == f
  {
    hide HalfInv, AddrV2P;
    KernelAddress(m, page);
  }

  lemma GetGivesFreshPage(m: Mem, page: nat, m1: Mem) returns (f: nat)
    requires HalfInv(m) && GetPages(m, PfKernel, 1) == Got(m1, page)
    ensures FreshPage(m1, page, f)
  {
    hide HalfInv, MallocPage, ZeroRun, Faults, RunHeld, PageFrame, Zeroed, KernelWord;
    MallocKeepsHalf(m, PfKernel, 1);
    var m0 := MallocPage(m, PfKernel, 1).m;
    HeldInRange(m0, PfKernel, page, 1);
    OneCleared(m0.ram, m0.dir, page);
    f := PageFrame(m0.ram, m0.dir, page).value;
    HeldFrameIsHarmless(m0, PfKernel, page, 1, page);
    HeldKernelFrame(m0, page);
    ZeroedDiffers(m0.ram, f);
    HarmlessWrite(m0, Zeroed(m0.ram, f), f);
    HarmlessKernelWord(m0, Zeroed(m0.ram, f), f, page);
    forall i: nat | i < 1024 ensures Read(m1.ram, Word(f, i)) == 0 { ZeroedReads(m0.ram, f, f, i); }
  }

  lemma CopyMakesDir(m: Mem, f: nat)
    requires HalfInv(m) && Harmless(m, f) && forall i: nat :: i < 1024 ==> Read(m.ram, Word(f, i)) == 0
    ensures m.dir != f && DirOk(m.(ram := CopyKernelHalf(m.ram, m.dir, f)), f)
    ensures forall i: nat :: i < 768 ==> Read(CopyKernelHalf(m.ram, m.dir, f), Word(f, i)) == 0
  {
    hide CopyKernelHalf;
    assert DirOk(m, m.dir);
    forall i: nat | i < 1024
      ensures Read(CopyKernelHalf(m.ram, m.dir, f), Word(f, i)) ==
              if i < 768 then 0 else if i == 1023 then Entry(f) else Entry(KTABLE + i - 768)
    {
      CopyReads(m.ram, m.dir, f, f, i);
    }
  }

  lemma NewDirKeepsHalf(m: Mem, f: nat, up: Pool)
    requires HalfInv(m) && f in m.own && m.own[f].KPage? && f != KDIR && DirOk(m, f) && FreshRange(up)
    requires forall i: nat :: i < 768 ==> Read(m.ram, Word(f, i)) == 0
    ensures HalfInv(m.(uheap := m.uheap[f := up]))
  {
    hide PageFrame, Read, Word;
    var m' := m.(uheap := m.uheap[f := up]);
    NewDirEmpty(m.ram, f);
    forall d | IsDir(m', d) ensures DirOk(m', d) { if d != f { assert DirOk(m, d); } SameRamDir(m, m', d); }
    forall g | g in m'.own ensures OwnOk(m', g) { assert OwnOk(m, g); }
    forall d, i | IsDir(m', d) && 0 <= i < 768 ensures TableOk(m', d, Read(m'.ram, Word(d, i))) {
      assert d != f ==> TableOk(m, d, Read(m.ram, Word(d, i)));
    }
    forall q: nat | KERNEL_PAGE <= q ensures KernelPageOk(m', q) { assert KernelPageOk(m, q); }
    forall d, q: nat | d in m'.uheap && q < KERNEL_PAGE ensures UserFrameOk(m', d, q) { assert d != f ==> UserFrameOk(m, d, q); }
  }

  lemma CreateKeepsHalf(m: Mem, up: Pool)
    requires HalfInv(m) && FreshRange(up)
    ensures var r := CreatePageDir(m, up); !r.Stop? ==> HalfInv(r.m) && Stable(m, r.m)
  {
    hide HalfInv, GetPages, AddrV2P, CopyKernelHalf, KernelWord, FreshRange, DirOk, Stable;
    GetPagesKeepsHalf(m, PfKernel, 1);
    var r := GetPages(m, PfKernel, 1);
    if r.Got? {
      var m1, page := r.m, r.page;
      var f := GetGivesFreshPage(m, page, m1);
      KernelAddress(m1, page);
      CopyMakesDir(m1, f);
      var m2 := m1.(ram := CopyKernelHalf(m1.ram, m1.dir, f));
      CopyDiffers(m1.ram, m1.dir, f);
      HarmlessWrite(m1, m2.ram, f);
      HarmlessIsStable(m1, m2, f);
      StableTransitive(m, m1, m2);
      NewDirKeepsHalf(m2, f, up);
      SameRamIsStable(m2, m2.(uheap := m1.uheap[f := up]));
      StableTransitive(m, m2, m2.(uheap := m1.uheap[f := up]));
      assert CreatePageDir(m, up) == Got(m2.(uheap := m1.uheap[f := up]), page);
    }
  }

  lemma WriteKeepsHalf(m: Mem, f: nat, i: nat, x: nat)
    requires HalfInv(m) && DataFrame(m, f) && i < 1024
    ensures HalfInv(m.(ram := m.ram[Word(f, i) := x])) && Stable(m, m.(ram := m.ram[Word(f, i) := x]))
  {
    hide HalfInv, DataFrame;
    var ram' := m.ram[Word(f, i) := x];
    forall g: nat, j: nat | g != f && j < 1024 ensures Read(ram', Word(g, j)) == Read(m.ram, Word(g, j)) { WordsDiffer(g, j, f, i); }
    DataFrameIsHarmless(m, f);
    HarmlessWrite(m, ram', f);
    HarmlessIsStable(m, m.(ram := ram'), f);
  }

  // ----- whole runs

  lemma CallKeepsHalf(m: Mem, c: Call)
    requires HalfInv(m) && CallOk(m, c) && !Do(m, c).Stop?
    ensures HalfInv(Do(m, c).m) && Stable(m, Do(m, c).m)
  {
    hide GetPages, GetAPage, CreatePageDir, PageFrame, Read, DirOk, TableOk, OwnOk, KernelPageOk, UserFrameOk, Stable;
    StableReflexive(m);
    match c
    case Pages(pf, cnt) => GetPagesKeepsHalf(m, pf, cnt);
    case PageAt(pf, page) => GetAPageKeepsHalf(m, pf, page);
    case NewDir(up) => CreateKeepsHalf(m, up);
    case Activate(d) => MoreKeepsHalf(m, m.(dir := d));
    case Write(f, i, x) => WriteKeepsHalf(m, f, i, x);
  }

  lemma {:induction false} RunKeepsHalf(m: Mem, cs: seq<Call>)
    requires HalfInv(m) && Calls(m, cs) && !Halts(m, cs)
    ensures HalfInv(After(m, cs)) && Stable(m, After(m, cs))
    decreases |cs|
  {
    hide HalfInv, Do, CallOk, Stable;
    StableReflexive(m);
    if cs != [] {
      CallKeepsHalf(m, cs[0]);
      RunKeepsHalf(Do(m, cs[0]).m, cs[1..]);
      StableTransitive(m, Do(m, cs[0]).m, After(m, cs));
    }
  }

  /** After any run, short of page tables or not, every process sees the kernel half exactly as the kernel does. */
  lemma RunKeepsKernelHalf(m: Mem, cs: seq<Call>, d: nat, v: nat)
    requires MemInv(m, {}) && Calls(m, cs) && !Halts(m, cs)
    requires IsDir(After(m, cs), d) && 0xc000_0000 <= v < 0xffc0_0000
    ensures Walk(After(m, cs).ram, d, v) == Walk(After(m, cs).ram, KDIR, v)
  {
    hide HalfInv, MemInv, Calls, Halts, After, Walk;
    InvIsHalfInv(m);
    RunKeepsHalf(m, cs);
    HalfAgreement(After(m, cs), d, v);
  }

  /** No memory call of any run writes to the frames of the bitmaps or to main's PCB and stack. */
  lemma RunKeepsLowMemory(m: Mem, cs: seq<Call>, g: nat, i: nat)
    requires MemInv(m, {}) && Calls(m, cs) && !Halts(m, cs) && 0 < g < 0x100 && i < 1024
    ensures Read(After(m, cs).ram, Word(g, i)) == Read(m.ram, Word(g, i))
  {
    hide HalfInv, MemInv, Calls, Halts, After, Read, Word;
    InvIsHalfInv(m);
    RunKeepsHalf(m, cs);
    assert Settled(m, g, i);
  }

  // ----- what is kept even by a run that is short of page tables

  /** An address that is mapped through a page table on any frame but 0 stays mapped as it is. */
  lemma StableKeepsWalk(m: Mem, m': Mem, d: nat, v: nat)
    requires HalfInv(m) && Stable(m, m') && IsDir(m, d) && v < 0xffc0_0000
    requires Walk(m.ram, d, v).Some? && FrameOf(Read(m.ram, Word(d, PdeIdx(v)))) != 0
    ensures Walk(m'.ram, d, v) == Walk(m.ram, d, v)
  {
    hide PageFrame, Word, Read, Stable, KernelPageOk, UserFrameOk, OwnOk;
    var i := PdeIdx(v);
    assert i < 1023;
    var t := FrameOf(Read(m.ram, Word(d, i)));
    StaysSettled(m, m', d, i);
    if i >= 768 {
      assert DirOk(m, d);
    } else {
      assert TableOk(m, d, Read(m.ram, Word(d, i)));
    }
    StaysSettled(m, m', t, PteIdx(v));
  }

  /** The same over every run of calls, whatever fails in it. */
  lemma RunKeepsSoundTranslations(m: Mem, cs: seq<Call>, d: nat, v: nat)
    requires HalfInv(m) && Calls(m, cs) && !Halts(m, cs) && IsDir(m, d) && v < 0xffc0_0000
    requires Walk(m.ram, d, v).Some? && FrameOf(Read(m.ram, Word(d, PdeIdx(v)))) != 0
    ensures Walk(After(m, cs).ram, d, v) == Walk(m.ram, d, v)
  {
    hide HalfInv, Calls, Halts, After, Walk, Stable;
    RunKeepsHalf(m, cs);
    StableKeepsWalk(m, After(m, cs), d, v);
  }

  lemma NoTableOnZero(m: Mem, d: nat, i: nat)
    requires MemInv(m, {}) && IsDir(m, d) && i < 1023 && Present(Read(m.ram, Word(d, i)))
    ensures FrameOf(Read(m.ram, Word(d, i))) != 0
  {
    hide PageFrame, Read, Word;
    if i >= 768 {
      assert DirOk(m, d);
    } else {
      assert LowHalfOk(m, d) && LowEntryOk(m, d, i, Read(m.ram, Word(d, i)));
      assert 0 in m.own ==> FrameOk(m, 0);
    }
  }

  /** From a sound memory, every run, short of page tables or not, leaves every mapped address below the window mapped as it was. */
  lemma RunKeepsTranslations(m: Mem, cs: seq<Call>, d: nat, v: nat)
    requires MemInv(m, {}) && Calls(m, cs) && !Halts(m, cs) && IsDir(m, d) && v < 0xffc0_0000 && Walk(m.ram, d, v).Some?
    ensures Walk(After(m, cs).ram, d, v) == Walk(m.ram, d, v)
  {
    hide HalfInv, MemInv, Calls, Halts, After, Read, Word;
    InvIsHalfInv(m);
    NoTableOnZero(m, d, PdeIdx(v));
    RunKeepsSoundTranslations(m, cs, d, v);
  }

  lemma ZeroEntryBreaksInv(m: Mem)
    requires ZeroEntry(m)
    ensures !MemInv(m, {})
  {
    hide Word, Read;
    if MemInv(m, {}) {
      var d, i :| HasZeroEntry(m, d, i);
      NoTableOnZero(m, d, i);
    }
  }

  /** A call that is short of page tables puts one on frame 0, and nothing later takes it away. */
  lemma {:induction false} ShortRunShows(m: Mem, cs: seq<Call>)
    requires MemInv(m, {}) && !m.zeroTable && Calls(m, cs) && !Halts(m, cs) && !NeverShort(m, cs)
    ensures After(m, cs).zeroTable
    decreases |cs|
  {
    hide HalfInv, MemInv, Do, CallOk, ShortOfTables, Preserved, ZeroEntry, Settled;
    var m1 := Do(m, cs[0]).m;
    ShortageExactly(m, cs[0]);
    if ShortOfTables(m, cs[0]) {
      InvIsHalfInv(m);
      CallKeepsHalf(m, cs[0]);
      RunKeepsHalf(m1, cs[1..]);
    } else {
      CallKeepsInv(m, cs[0]);
      ShortRunShows(m1, cs[1..]);
    }
  }

  /** Allocation safety, exactly: after a run the memory invariant holds if and only if no call of it was short of page tables. */
  lemma RunKeepsMemoryExactly(m: Mem, cs: seq<Call>)
    requires MemInv(m, {}) && !m.zeroTable && Calls(m, cs) && !Halts(m, cs)
    ensures MemInv(After(m, cs), {}) <==> NeverShort(m, cs)
    ensures NeverShort(m, cs) ==> Preserved(m, After(m, cs))
  {
    hide HalfInv, MemInv, Calls, Halts, After, NeverShort, Preserved, ZeroEntry, Settled;
    if NeverShort(m, cs) {
      RunKeepsMemory(m, cs);
    } else {
      InvIsHalfInv(m);
      RunKeepsHalf(m, cs);
      ShortRunShows(m, cs);
      ZeroEntryBreaksInv(After(m, cs));
    }
  }
}
