/**
 mem_pool_init of kernel/memory.c: how the memory above 2 MB is split into the kernel
 pool and the user pool, with the widths of the C variables written out.
 */
module PoolLayout {
  import opened Memory

  function U16(x: int): nat { x % 0x1_0000 }

  function U32(x: int): nat { x % 0x1_0000_0000 }

  const USED_MEM: nat := 0x20_0000
  const BITMAP_BASE: nat := 0xc009_a000
  const MAIN_PCB: nat := 0xc009_e000

  /** The variables of mem_pool_init: page counts, bitmap lengths in bytes, and where the pools start. */
  datatype Layout = Layout(kpages: nat, upages: nat, kbytes: nat, ubytes: nat, kstart: nat, ustart: nat) {
    /** Where the three bitmaps, one after the other, end. */
    function BitmapEnd(): nat { BITMAP_BASE + kbytes + ubytes + kbytes }
  }

  /** all_free_pages; the subtraction wraps around for less than 2 MB. */
  function FreePages(allMem: nat): nat { U32(allMem - USED_MEM) / 4096 }

  function LayoutFor(allMem: nat): Layout {
    var n := FreePages(allMem);
    var k := U16(n / 2);
    var u := U16(n - k);
    Layout(k, u, k / 8, u / 8, USED_MEM, U32(USED_MEM + k * 4096))
  }

  function Clear(n: nat): seq<bool> { seq(n, i requires 0 <= i < n => false) }

  function KernelPool(l: Layout): Pool { Pool(l.kstart / 4096, Clear(8 * l.kbytes)) }

  function UserPool(l: Layout): Pool { Pool(l.ustart / 4096, Clear(8 * l.ubytes)) }

  function KernelHeap(l: Layout): Pool { Pool(HEAP_PAGE, Clear(8 * l.kbytes)) }

  /** The 16-bit page counts hold half of the pages each, up to 131070 pages: 512 MB and a little more. */
  lemma CountsFitExactly(allMem: nat)
    requires USED_MEM <= allMem < 0x1_0000_0000
    ensures var l := LayoutFor(allMem); var n := (allMem - USED_MEM) / 4096;
            l.kpages == n / 2 && l.upages == n - n / 2 <==> n <= 131070
  {
    var n := (allMem - USED_MEM) / 4096;
    assert FreePages(allMem) == n;
    if n == 131071 {
      assert U16(n / 2) == 65535;
    } else if n > 131071 {
      assert n / 2 > 65535;
    }
  }

  /** The whole bytes of the bitmaps leave out less than eight pages of each half. */
  lemma FewPagesAreLost(allMem: nat)
    requires allMem < 0x1_0000_0000
    ensures var l := LayoutFor(allMem);
            && 0 <= l.kpages - |KernelPool(l).used| < 8 && 0 <= l.upages - |UserPool(l).used| < 8
            && |KernelHeap(l).used| == |KernelPool(l).used|
  {
    hide LayoutFor;
    LayoutBytes(allMem);
  }

  lemma PageBounds(allMem: nat)
    requires allMem < 0x1_0000_0000
    ensures var l := LayoutFor(allMem);
            l.kpages + l.upages <= FreePages(allMem) && 8 * l.kbytes <= l.kpages && 8 * l.ubytes <= l.upages
    ensures var l := LayoutFor(allMem); l.kstart == USED_MEM && l.ustart == USED_MEM + 4096 * l.kpages
  {
    var n := FreePages(allMem);
    ModBound(n / 2);
    ModBound(n - U16(n / 2));
  }

  lemma ModBound(x: nat)
    ensures U16(x) <= x && U16(x) <= 65535
  {
  }

  /** The frames that palloc can return, from either pool. */
  predicate InPools(l: Layout, f: nat) { KernelPool(l).Holds(f) || UserPool(l).Holds(f) }

  /** The two pools never overlap, whatever the size of memory, and stay clear of the loader's directory and tables. */
  lemma PoolsDisjoint(allMem: nat, f: nat)
    requires allMem < 0x1_0000_0000
    ensures var l := LayoutFor(allMem);
            !(KernelPool(l).Holds(f) && UserPool(l).Holds(f)) && (InPools(l, f) ==> f >= 0x200)
  {
    hide LayoutFor;
    PageBounds(allMem);
  }

  /**
   Every frame of the pools is real memory exactly when there are at least 2 MB:
   with less, the subtraction wraps around and palloc hands out frames that do not exist.
   */
  lemma PoolsAreRealExactly(allMem: nat)
    requires allMem < 0x1_0000_0000
    ensures (forall f: nat :: InPools(LayoutFor(allMem), f) ==> USED_MEM <= 4096 * f && 4096 * f + 4096 <= allMem)
            <==> USED_MEM <= allMem
  {
    var l := LayoutFor(allMem);
    if USED_MEM <= allMem {
      hide LayoutFor;
      PageBounds(allMem);
      forall f: nat | InPools(l, f) ensures USED_MEM <= 4096 * f && 4096 * f + 4096 <= allMem {
        assert f < 0x200 + FreePages(allMem);
      }
    } else {
      WrappedLayout(allMem);
      assert InPools(l, 0x200);
    }
  }

  lemma WrappedLayout(allMem: nat)
    requires allMem < USED_MEM
    ensures LayoutFor(allMem).kbytes > 0
  {
    var n := FreePages(allMem);
    assert 0x10_0000 - 0x200 <= n < 0x10_0000;
    assert n / 2 == 7 * 0x1_0000 + (n / 2 - 7 * 0x1_0000);
    assert U16(n / 2) == n / 2 - 7 * 0x1_0000;
  }

  /** As far as the counts fit, the three bitmaps end below main's PCB exactly up to 87391 pages. */
  lemma BitmapsFitExactly(allMem: nat)
    requires USED_MEM <= allMem < 0x1_0000_0000 && (allMem - USED_MEM) / 4096 <= 131070
    ensures LayoutFor(allMem).BitmapEnd() <= MAIN_PCB <==> (allMem - USED_MEM) / 4096 <= 87391
  {
    CountsFitExactly(allMem);
    var n := (allMem - USED_MEM) / 4096;
    var k, u := n / 2, n - n / 2;
    hide LayoutFor;
    LayoutBytes(allMem);
    if n <= 87391 {
      assert k <= 43695 && u <= 43696;
      assert k / 8 <= 5461 && u / 8 <= 5462;
    } else {
      assert k >= 43696 && u >= 43696;
      assert k / 8 >= 5462 && u / 8 >= 5462;
    }
  }

  lemma LayoutBytes(allMem: nat)
    ensures var l := LayoutFor(allMem); l.kbytes == l.kpages / 8 && l.ubytes == l.upages / 8
  {
  }

  /** The range that the comment at the head of memory.c promises, up to 512 MB: what holds there and what does not. */
  lemma SupportedRange(allMem: nat)
    requires 0x20_0000 <= allMem <= 0x2000_0000
    ensures var l := LayoutFor(allMem); var n := (allMem - USED_MEM) / 4096;
            && l.kpages == n / 2 && l.upages == n - n / 2
            && (l.BitmapEnd() <= MAIN_PCB <==> n <= 87391)
    ensures forall f: nat :: InPools(LayoutFor(allMem), f) ==> USED_MEM <= 4096 * f && 4096 * f + 4096 <= allMem
  {
    hide LayoutFor;
    assert (allMem - USED_MEM) / 4096 <= 131070;
    CountsFitExactly(allMem);
    BitmapsFitExactly(allMem);
    PoolsAreRealExactly(allMem);
  }

  /** With all 512 MB the bitmaps run over main's PCB. */
  lemma FullRangeOverlapsMain()
    ensures LayoutFor(0x2000_0000).BitmapEnd() > MAIN_PCB
  {
    BitmapsFitExactly(0x2000_0000);
  }
}
