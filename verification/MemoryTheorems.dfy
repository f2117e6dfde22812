/** What holds after every run of memory calls, by any number of processes. */
module MemoryTheorems {
  import opened Options
  import opened Paging
  import opened Memory
  import opened MemorySafety
  import opened Allocation
  import opened MallocSafety
  import opened Outcomes
  import opened MemoryRuns

  /** A memory call, the activation of another directory, or data written to an allocated page. */
  datatype Call =
    | Pages(pf: Flag, cnt: nat)
    | PageAt(pf: Flag, page: nat)
    | NewDir(up: Pool)
    | Activate(d: nat)
    | Write(f: nat, i: nat, x: nat)

  ghost predicate CallOk(m: Mem, c: Call) {
    match c
    case Pages(_, _) => true
    case PageAt(_, _) => true
    case NewDir(up) => FreshRange(up)
    case Activate(d) => IsDir(m, d)
    case Write(f, i, _) => DataFrame(m, f) && i < 1024
  }

  function Do(m: Mem, c: Call): Alloc {
    match c
    case Pages(pf, cnt) => GetPages(m, pf, cnt)
    case PageAt(pf, page) => GetAPage(m, pf, page)
    case NewDir(up) => CreatePageDir(m, up)
    case Activate(d) => Null(m.(dir := d))
    case Write(f, i, x) => Null(m.(ram := m.ram[Word(f, i) := x]))
  }

  /** The call will need more page tables than there are free kernel frames. */
  predicate ShortOfTables(m: Mem, c: Call) {
    match c
    case Pages(pf, cnt) => MallocForecast(m, pf, cnt).Short?
    case PageAt(pf, page) => PageForecast(m, pf, page).Short?
    case _ => false
  }

  /** A call leaves a page table on frame 0 if and only if it was short of tables. */
  lemma ShortageExactly(m: Mem, c: Call)
    requires MemInv(m, {}) && !m.zeroTable && CallOk(m, c)
    ensures Do(m, c).m.zeroTable <==> ShortOfTables(m, c)
  {
    hide MemInv, Preserved, GetPages, GetAPage, CreatePageDir, DataFrame, Leaked, NewSpace, MallocForecast, PageForecast, Kept,
         GotFreshPages, RunMapped, IsDir;
    match c
    case Pages(pf, cnt) => GetPagesSafe(m, pf, cnt);
    case PageAt(pf, page) => GetAPageSafe(m, pf, page);
    case NewDir(up) =>
      CreatePageDirSafe(m, up);
      NewSpaceHasTables(m, up);
    case _ =>
  }

  lemma NewSpaceHasTables(m: Mem, up: Pool)
    requires MemInv(m, {}) && !m.zeroTable && CreateOk(m, up, CreatePageDir(m, up))
    ensures !CreatePageDir(m, up).m.zeroTable
  {
    hide MemInv, Preserved, GetPages, MallocForecast, DirOk, EmptyUserHalf, Leaked;
    GetPagesSafe(m, PfKernel, 1);
  }

  /** The calls happen one after the other; the last one may halt. */
  ghost predicate Calls(m: Mem, cs: seq<Call>)
    decreases |cs|
  {
    cs == [] || (CallOk(m, cs[0]) && (Do(m, cs[0]).Stop? ==> |cs| == 1) && Calls(Do(m, cs[0]).m, cs[1..]))
  }

  ghost predicate Halts(m: Mem, cs: seq<Call>)
    requires Calls(m, cs)
    decreases |cs|
  {
    cs != [] && (Do(m, cs[0]).Stop? || Halts(Do(m, cs[0]).m, cs[1..]))
  }

  /** None of the calls is short of page tables. */
  ghost predicate NeverShort(m: Mem, cs: seq<Call>)
    requires Calls(m, cs)
    decreases |cs|
  {
    cs == [] || (!ShortOfTables(m, cs[0]) && NeverShort(Do(m, cs[0]).m, cs[1..]))
  }

  ghost function After(m: Mem, cs: seq<Call>): Mem
    requires Calls(m, cs)
    decreases |cs|
  {
    if cs == [] then m else After(Do(m, cs[0]).m, cs[1..])
  }

  lemma ActivateKeepsInv(m: Mem, d: nat)
    requires MemInv(m, {}) && IsDir(m, d)
    ensures MemInv(m.(dir := d), {}) && Preserved(m, m.(dir := d))
  {
    hide PageFrame, Read;
    var m' := m.(dir := d);
    forall e | IsDir(m', e) ensures DirOk(m', e) && LowHalfOk(m', e) { assert DirOk(m, e) && LowHalfOk(m, e); }
    forall q: nat | KERNEL_PAGE <= q ensures KernelPageOk(m', q) { assert KernelPageOk(m, q); }
    forall e, q: nat | e in m'.uheap ensures UserPageOk(m', e, q) { assert UserPageOk(m, e, q); }
    forall f | f in m'.own ensures FrameOk(m', f) { assert FrameOk(m, f); }
  }

  lemma WriteKeepsInv(m: Mem, f: nat, i: nat, x: nat)
    requires MemInv(m, {}) && DataFrame(m, f) && i < 1024
    ensures MemInv(m.(ram := m.ram[Word(f, i) := x]), {}) && Preserved(m, m.(ram := m.ram[Word(f, i) := x]))
  {
    hide MemInv, DataFrame;
    var ram' := m.ram[Word(f, i) := x];
    forall g: nat, j: nat | g != f && j < 1024 ensures Read(ram', Word(g, j)) == Read(m.ram, Word(g, j)) {
      WordsDiffer(g, j, f, i);
    }
    DataWriteKeepsInv(m, ram', f);
  }

  lemma CallKeepsInv(m: Mem, c: Call)
    requires MemInv(m, {}) && !m.zeroTable && CallOk(m, c) && !ShortOfTables(m, c) && !Do(m, c).Stop?
    ensures MemInv(Do(m, c).m, {}) && Preserved(m, Do(m, c).m) && !Do(m, c).m.zeroTable
  {
    hide MemInv, Preserved, GetPages, GetAPage, CreatePageDir, DataFrame, GotFreshPages, IsDir, MallocForecast, PageForecast, Leaked,
         RunMapped;
    ShortageExactly(m, c);
    PreservedReflexive(m);
    match c
    case Pages(pf, cnt) => GetPagesSafe(m, pf, cnt);
    case PageAt(pf, page) => GetAPageSafe(m, pf, page);
    case NewDir(up) => CreatePageDirSafe(m, up);
    case Activate(d) => ActivateKeepsInv(m, d);
    case Write(f, i, x) => WriteKeepsInv(m, f, i, x);
  }

  lemma PreservedReflexive(m: Mem)
    ensures Preserved(m, m)
  {
  }

  /** Allocation safety over every run, failed calls included: the invariant holds and nothing allocated is lost. */
  lemma {:induction false} RunKeepsMemory(m: Mem, cs: seq<Call>)
    requires MemInv(m, {}) && !m.zeroTable && Calls(m, cs) && NeverShort(m, cs) && !Halts(m, cs)
    ensures MemInv(After(m, cs), {}) && Preserved(m, After(m, cs)) && !After(m, cs).zeroTable
    decreases |cs|
  {
    hide MemInv, Preserved, Do, CallOk;
    PreservedReflexive(m);
    if cs != [] {
      CallKeepsInv(m, cs[0]);
      RunKeepsMemory(Do(m, cs[0]).m, cs[1..]);
      PreservedTransitive(m, Do(m, cs[0]).m, After(m, cs));
    }
  }

  /** What a frame backs, read off the page tables. */
  predicate Backs(m: Mem, f: nat, u: Use) {
    match u
    case KPage(q) => m.kheap.Holds(q) && q >= KERNEL_PAGE && PageFrame(m.ram, KDIR, q) == Some(f)
    case UPage(d, q) => d in m.uheap && q < KERNEL_PAGE && PageFrame(m.ram, d, q) == Some(f)
    case Table(d, i) => d in m.uheap && i < 768 && Present(Read(m.ram, Word(d, i))) && FrameOf(Read(m.ram, Word(d, i))) == f
  }

  lemma BackedFrameIsOwned(m: Mem, f: nat, u: Use)
    requires MemInv(m, {}) && Backs(m, f, u)
    ensures f in m.own && m.own[f] == u
  {
    hide PageFrame;
    match u
    case KPage(q) =>
      assert DirOk(m, KDIR);
      KernelPageFrame(m, KDIR, q);
      assert KernelPageOk(m, q);
    case UPage(d, q) => assert UserPageOk(m, d, q);
    case Table(d, i) =>
      assert LowHalfOk(m, d);
      assert d in m.own && FrameOk(m, d);
      PoolFrames(m, d);
  }

  /** A frame backs at most one page or page table, never both, and is marked in its pool and its virtual bitmap. */
  lemma FrameBacksOneThing(m: Mem, f: nat, u: Use, v: Use)
    requires MemInv(m, {}) && Backs(m, f, u) && Backs(m, f, v)
    ensures u == v
    ensures if u.UPage? then m.upool.Taken(f) && m.uheap[u.dir].Taken(u.page)
            else m.kpool.Taken(f) && (u.KPage? ==> m.kheap.Taken(u.page))
  {
    BackedFrameIsOwned(m, f, u);
    BackedFrameIsOwned(m, f, v);
    assert FrameOk(m, f);
  }

  /** Every frame that palloc handed out backs something: none is lost, not even by a failing call. */
  lemma NoFrameIsLost(m: Mem, f: nat)
    requires MemInv(m, {}) && (m.kpool.Taken(f) || m.upool.Taken(f))
    ensures exists u :: Backs(m, f, u)
  {
    hide PageFrame;
    assert f in m.own && FrameOk(m, f);
    match m.own[f]
    case KPage(q) =>
      assert DirOk(m, KDIR);
      KernelPageFrame(m, KDIR, q);
      assert Backs(m, f, KPage(q));
    case UPage(d, q) => assert Backs(m, f, UPage(d, q));
    case Table(d, i) => assert Backs(m, f, Table(d, i));
  }
}
