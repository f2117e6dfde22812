/** When the self-map window of the active directory can be trusted while page tables are edited through it. */
module Window {
  import opened Paging
  import opened Memory
  import opened MemorySafety
  import opened Mapping
  import opened KernelHalf

  /** Directory entry i does not lead back to the directory. */
  predicate LeadsAway(ram: Ram, dir: nat, i: nat) {
    var e := Read(ram, Word(dir, i)); Present(e) ==> FrameOf(e) != dir
  }

  /** Only entry 1023 of the active directory leads to it, and palloc will not hand it out. */
  ghost predicate WindowOk(m: Mem) {
    && SelfMapped(m.ram, m.dir) && m.dir != 0 && (m.kpool.Holds(m.dir) ==> m.kpool.Taken(m.dir))
    && (forall i: nat :: i < 1023 ==> LeadsAway(m.ram, m.dir, i))
  }

  lemma InvGivesWindow(m: Mem, loose: set<nat>)
    requires MemInv(m, loose)
    ensures WindowOk(m)
  {
    hide PageFrame, KernelPageOk, UserPageOk;
    var d := m.dir;
    assert DirOk(m, d) && LowHalfOk(m, d);
    if d in m.uheap {
      assert d in m.own && FrameOk(m, d);
      PoolFrames(m, d);
    }
    forall i: nat | i < 1023 ensures LeadsAway(m.ram, d, i) {
      if i >= 768 {
        DirIsNoTable(m, loose, d, KTABLE + i - 768);
      } else if Present(Read(m.ram, Word(d, i))) && d != KDIR {
        DirIsNoTable(m, loose, d, FrameOf(Read(m.ram, Word(d, i))));
      }
    }
  }

  /** A page table on frame 0 does not disturb the window. */
  lemma HalfGivesWindow(m: Mem)
    requires HalfInv(m)
    ensures WindowOk(m) && LayoutOk(m)
  {
    hide PageFrame, KernelPageOk, UserFrameOk, Read, Word;
    var d := m.dir;
    assert DirOk(m, d);
    DirFrame(m, d);
    if d in m.own { assert OwnOk(m, d); PoolFrames(m, d); }
    forall i: nat | i < 1023 ensures LeadsAway(m.ram, d, i) {
      if i >= 768 {
      } else {
        assert TableOk(m, d, Read(m.ram, Word(d, i)));
      }
    }
  }

  /** The frame of the table that line 119 draws is not the directory. */
  lemma DrawnTableIsNotDir(m: Mem)
    requires WindowOk(m)
    ensures var g := Palloc(m.kpool); (if g.got.Some? then g.got.value else 0) != m.dir
  {
    hide Palloc, SelfMapped;
    PallocTakes(m.kpool);
  }

  /** A present directory entry. */
  predicate HasEntry(m: Mem, i: nat, e: nat) { Present(e) && Read(m.ram, Word(m.dir, i)) == e }

  /** page_table_add below the window keeps the window and every directory entry that is present. */
  lemma AddKeepsWindow(m: Mem, p: nat, f: nat)
    requires WindowOk(m) && p < WINDOW_PAGE && PageTableAdd(m, p, f).Ok?
    ensures WindowOk(PageTableAdd(m, p, f).m)
    ensures PageTableAdd(m, p, f).m.dir == m.dir
    ensures forall i: nat, e: nat :: i < 1024 && HasEntry(m, i, e) ==> HasEntry(PageTableAdd(m, p, f).m, i, e)
  {
    hide Palloc, Zeroed;
    var m' := PageTableAdd(m, p, f).m;
    var d, k := m.dir, p / 1024;
    assert k < 1023;
    PallocTakes(m.kpool);
    var pde := Read(m.ram, Word(d, k));
    if Present(pde) {
      assert LeadsAway(m.ram, d, k);
      forall i: nat | i < 1024 ensures Read(m'.ram, Word(d, i)) == Read(m.ram, Word(d, i)) {
        WordsDiffer(d, i, FrameOf(pde), p % 1024);
      }
      forall i: nat | i < 1023 ensures LeadsAway(m'.ram, d, i) { assert LeadsAway(m.ram, d, i); }
    } else {
      var g := Palloc(m.kpool);
      var t := if g.got.Some? then g.got.value else 0;
      DrawnTableIsNotDir(m);
      forall i: nat | i < 1024 ensures Read(m'.ram, Word(d, i)) == if i == k then Entry(t) else Read(m.ram, Word(d, i)) {
        ZeroedReads(m.ram[Word(d, k) := Entry(t)], t, d, i);
        WordsDiffer(d, i, t, p % 1024);
        if i != k { WordsDiffer(d, i, d, k); }
      }
      forall i: nat | i < 1023 ensures LeadsAway(m'.ram, d, i) { assert LeadsAway(m.ram, d, i); }
    }
  }

  /** Drawing a frame keeps the window. */
  lemma TakeKeepsWindow(m: Mem, pf: Flag)
    requires WindowOk(m)
    ensures WindowOk(WithPool(m, pf, Palloc(PoolOf(m, pf)).pool))
  {
    hide Palloc, SelfMapped, LeadsAway;
    PallocTakes(PoolOf(m, pf));
  }
}
