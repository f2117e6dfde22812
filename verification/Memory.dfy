/**
 Physical frames, virtual pages and the allocation calls of kernel/memory.c and
 create_page_dir of userprog/process.c, as functions on values.

 Pages and frames are numbered: page p starts at virtual address 4096 * p, frame f
 at physical address 4096 * f. A call halts in an ASSERT of memory.c, or goes on.
 */
module Memory {
  import opened Options
  import opened Paging
  import opened Bitmaps

  const KDIR: nat := 0x100        // the loader's page directory at 0x100000
  const KTABLE: nat := 0x101      // its first page table; the kernel's 255 tables follow one another
  const KERNEL_PAGE: nat := 0xc_0000
  const HEAP_PAGE: nat := 0xc_0100  // K_HEAP_START
  const WINDOW_PAGE: nat := 0xf_fc00 // the self-map window

  /** A bitmap and the number that its bit 0 stands for: a frame pool or a range of virtual pages. */
  datatype Pool = Pool(first: nat, used: seq<bool>) {
    predicate Holds(n: nat) { first <= n < first + |used| }
    predicate Taken(n: nat) { Holds(n) && used[n - first] }
  }

  /** What a frame that was handed out serves as. */
  datatype Use = KPage(page: nat) | UPage(dir: nat, page: nat) | Table(dir: nat, idx: nat)

  /**
   `dir` is the active directory (CR3). `uheap` gives, for each process directory,
   the process's range of user pages. `own` and `zeroTable` record history: the use of
   each frame, and whether a page table was ever put on frame 0 because the kernel pool
   was empty (line 119 does not test its palloc).
   */
  datatype Mem = Mem(ram: Ram, dir: nat, kpool: Pool, upool: Pool, kheap: Pool, uheap: map<nat, Pool>,
                     own: map<nat, Use>, zeroTable: bool)

  datatype Flag = PfKernel | PfUser

  // ----- bitmap_scan and bitmap_set, through their specification

  function FindFrom(bits: seq<bool>, cnt: nat, k: nat): (r: Option<nat>)
    ensures r.Some? ==> r.value >= k && FreeRun(bits, r.value, cnt) && forall j :: k <= j < r.value ==> !FreeRun(bits, j, cnt)
    ensures r.None? ==> forall j :: k <= j ==> !FreeRun(bits, j, cnt)
    decreases |bits| - k
  {
    if k + cnt > |bits| then None
    else if FreeRun(bits, k, cnt) then Some(k)
    else if k == |bits| then None
    else FindFrom(bits, cnt, k + 1)
  }

  /** First fit for a positive count; the scan finds nothing for count 0. */
  function Find(bits: seq<bool>, cnt: nat): (r: Option<nat>)
    ensures r.Some? ==> cnt > 0 && FirstFit(bits, cnt, r.value)
    ensures r.None? ==> cnt == 0 || NoFit(bits, cnt)
  {
    if cnt == 0 then None else FindFrom(bits, cnt, 0)
  }

  datatype Grant = Grant(pool: Pool, got: Option<nat>)

  /** Take the first run of cnt clear bits of a pool. */
  function Take(p: Pool, cnt: nat): Grant {
    match Find(p.used, cnt)
    case None => Grant(p, None)
    case Some(k) => Grant(p.(used := SetRun(p.used, k, cnt)), Some(p.first + k))
  }

  /** palloc(). */
  function Palloc(p: Pool): Grant { Take(p, 1) }

  // ----- page tables

  /** A frame cleared by memset. */
  function Zeroed(ram: Ram, f: nat): Ram {
    ram + map i | 0 <= i < 1024 :: Word(f, i) := 0
  }

  datatype Result = Ok(m: Mem) | Halt(line: nat)

  function UseOf(dir: nat, page: nat): Use {
    if page >= KERNEL_PAGE then KPage(page) else UPage(dir, page)
  }

  /** page_table_add(), in terms of the words that the MMU uses. */
  function PageTableAdd(m: Mem, page: nat, frame: nat): Result {
    var pw := Word(m.dir, page / 1024);
    var pde := Read(m.ram, pw);
    if page == 0 then Halt(101)
    else if frame == 0 then Halt(102)
    else if Present(pde) then
      var w := Word(FrameOf(pde), page % 1024);
      if Present(Read(m.ram, w)) then Halt(111)
      else Ok(m.(ram := m.ram[w := Entry(frame)], own := m.own[frame := UseOf(m.dir, page)]))
    else
      var g := Palloc(m.kpool);
      var tf := if g.got.Some? then g.got.value else 0;
      var ram := Zeroed(m.ram[pw := Entry(tf)], tf)[Word(tf, page % 1024) := Entry(frame)];
      var own := if g.got.Some? then m.own[tf := Table(m.dir, page / 1024)] else m.own;
      Ok(m.(ram := ram, kpool := g.pool, own := own[frame := UseOf(m.dir, page)],
            zeroTable := m.zeroTable || g.got.None?))
  }

  // ----- malloc_page and its callers

  function PoolOf(m: Mem, pf: Flag): Pool { if pf.PfKernel? then m.kpool else m.upool }

  function WithPool(m: Mem, pf: Flag, p: Pool): Mem {
    if pf.PfKernel? then m.(kpool := p) else m.(upool := p)
  }

  datatype MapResult = Mapped(m: Mem) | NoFrame(m: Mem) | Stopped(m: Mem, line: nat)

  /** The loop of malloc_page: a frame for each page, until one is missing. */
  function MapRun(m: Mem, pf: Flag, page: nat, cnt: nat): MapResult
    decreases cnt
  {
    if cnt == 0 then Mapped(m)
    else
      var g := Palloc(PoolOf(m, pf));
      match g.got
      case None => NoFrame(m)
      case Some(f) =>
        match PageTableAdd(WithPool(m, pf, g.pool), page, f)
        case Halt(line) => Stopped(m, line)
        case Ok(m') => MapRun(m', pf, page + 1, cnt - 1)
  }

  /** The user pages of the running thread; a kernel thread's bitmap is empty. */
  function UserHeap(m: Mem): Pool { if m.dir in m.uheap then m.uheap[m.dir] else Pool(0, []) }

  datatype Reserved = Reserved(m: Mem, page: Option<nat>) | Refused(line: nat)

  /** vaddr_get(). */
  function VaddrGet(m: Mem, pf: Flag, cnt: nat): Reserved {
    if pf.PfKernel? then
      var g := Take(m.kheap, cnt);
      Reserved(m.(kheap := g.pool), g.got)
    else
      var g := Take(UserHeap(m), cnt);
      match g.got
      case None => Reserved(m, None)
      case Some(p) =>
        if p >= KERNEL_PAGE - 1 then Refused(64)
        else Reserved(m.(uheap := m.uheap[m.dir := g.pool]), Some(p))
  }

  /** Got: the first page of the allocation. Null: the call returns NULL. Stop: it halts. */
  datatype Alloc = Got(m: Mem, page: nat) | Null(m: Mem) | Stop(m: Mem, line: nat)

  /** malloc_page(); a failed vaddr_get is not tested and goes on with page 0. */
  function MallocPage(m: Mem, pf: Flag, cnt: nat): Alloc {
    if !(0 < cnt < 3840) then Stop(m, 132)
    else match VaddrGet(m, pf, cnt)
      case Refused(line) => Stop(m, line)
      case Reserved(m1, page) =>
        match MapRun(m1, pf, if page.Some? then page.value else 0, cnt)
        case Stopped(m2, line) => Stop(m2, line)
        case NoFrame(m2) => Null(m2)
        case Mapped(m2) => if page.Some? then Got(m2, page.value) else Null(m2)
  }

  /** memset(vaddr, 0, cnt * PG_SIZE) through the active directory. */
  function ZeroRun(ram: Ram, dir: nat, page: nat, cnt: nat): Ram
    decreases cnt
  {
    if cnt == 0 then ram
    else match Walk(ram, dir, 4096 * page)
      case None => ram
      case Some(pa) => ZeroRun(Zeroed(ram, pa / 4096), dir, page + 1, cnt - 1)
  }

  /** The memset meets a page that is not mapped: a page fault, for which the kernel has no handler. */
  predicate Faults(ram: Ram, dir: nat, page: nat, cnt: nat)
    decreases cnt
  {
    cnt > 0 &&
    match Walk(ram, dir, 4096 * page)
    case None => true
    case Some(pa) => Faults(Zeroed(ram, pa / 4096), dir, page + 1, cnt - 1)
  }

  /** get_kernel_pages() and, for PfUser, get_user_pages(). */
  function GetPages(m: Mem, pf: Flag, cnt: nat): Alloc {
    match MallocPage(m, pf, cnt)
    case Got(m1, page) =>
      if Faults(m1.ram, m1.dir, page, cnt) then Stop(m1, if pf.PfKernel? then 164 else 179)
      else Got(m1.(ram := ZeroRun(m1.ram, m1.dir, page, cnt)), page)
    case other => other
  }

  /** The line of the ASSERT that refuses a request of get_a_page, or 0. */
  function MarkLine(m: Mem, pf: Flag, page: nat): nat {
    var heap := if pf.PfKernel? then m.kheap else UserHeap(m);
    if pf.PfKernel? != (m.dir == KDIR) then 209
    else if page == heap.first then (if pf.PfKernel? then 204 else 198)
    else if !heap.Holds(page) then 60
    else 0
  }

  /** get_a_page(): one page at a chosen address. */
  function GetAPage(m: Mem, pf: Flag, page: nat): Alloc {
    var heap := if pf.PfKernel? then m.kheap else UserHeap(m);
    if MarkLine(m, pf, page) != 0 then Stop(m, MarkLine(m, pf, page))
    else
      var taken := heap.(used := heap.used[page - heap.first := true]);
      var m1 := if pf.PfKernel? then m.(kheap := taken) else m.(uheap := m.uheap[m.dir := taken]);
      var g := Palloc(PoolOf(m1, pf));
      match g.got
      case None => Null(m1)
      case Some(f) =>
        match PageTableAdd(WithPool(m1, pf, g.pool), page, f)
        case Halt(line) => Stop(m1, line)
        case Ok(m2) => Got(m2, page)
  }

  /** The words 768 <= j < n of directory `src`, addressed in frame f. */
  function Half(ram: Ram, src: nat, f: nat, n: nat): Ram {
    map j | 768 <= j < n :: Word(f, j) := Read(ram, Word(src, j))
  }

  /** The kernel half of directory `src` copied to frame f, and entry 1023 pointed at f. */
  function CopyKernelHalf(ram: Ram, src: nat, f: nat): Ram {
    ram + Half(ram, src, f, 1023) + map[Word(f, 1023) := Entry(f)]
  }

  /** create_page_dir(), with the user range `up` that the process will get. */
  function CreatePageDir(m: Mem, up: Pool): Alloc {
    match GetPages(m, PfKernel, 1)
    case Got(m1, page) =>
      (match AddrV2P(m1.ram, m1.dir, 4096 * page)
       case None => Null(m1)
       case Some(pa) =>
         Got(m1.(ram := CopyKernelHalf(m1.ram, m1.dir, pa / 4096), uheap := m1.uheap[pa / 4096 := up]), page))
    case other => other
  }
}
