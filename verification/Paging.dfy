/**
 32-bit paging (section 4.3 of the Intel SDM, Volume 3A) over a physical memory of
 32-bit words, and the pointer arithmetic with which kernel/memory.c edits page
 tables through directory entry 1023.

 Words of physical memory are numbered: word w is at physical address 4 * w, and
 word i of frame f is number 1024 * f + i.
 */
module Paging {
  import opened Options

  type Ram = map<nat, nat>

  function Word(f: nat, i: nat): nat { 1024 * f + i }

  /** Memory that was never written reads as zero. */
  function Read(ram: Ram, w: nat): nat { if w in ram then ram[w] else 0 }

  /** A directory or table entry for frame f with US, RW and P set. */
  function Entry(f: nat): (e: nat)
    ensures Present(e) && FrameOf(e) == f
  {
    4096 * f + 7
  }

  predicate Present(e: nat) { e % 2 == 1 }

  function FrameOf(e: nat): nat { e / 4096 }

  /** Bits 22 to 31 of an address: the upper part of the page number. */
  function PdeIdx(v: nat): nat { v / 4096 / 1024 }

  /** Bits 12 to 21: the lower part of the page number. */
  function PteIdx(v: nat): nat { v / 4096 % 1024 }

  /** The word of the page-table entry that the walk uses for v, if the directory entry is present. */
  function PteWord(ram: Ram, dir: nat, v: nat): Option<nat> {
    var pde := Read(ram, Word(dir, PdeIdx(v)));
    if Present(pde) then Some(Word(FrameOf(pde), PteIdx(v))) else None
  }

  /** The two-level walk: the physical address for v, or None for a page fault. */
  function Walk(ram: Ram, dir: nat, v: nat): Option<nat> {
    match PteWord(ram, dir, v)
    case None => None
    case Some(w) =>
      var pte := Read(ram, w);
      if Present(pte) then Some(4096 * FrameOf(pte) + v % 4096) else None
  }

  const VA_END: nat := 0x1_0000_0000

  /** The address of word i of page q. */
  function PageAddr(q: nat, i: nat): (v: nat)
    requires q < 0x10_0000 && i < 1024
    ensures v < VA_END && v / 4096 == q && v % 4096 == 4 * i && PdeIdx(v) == q / 1024 && PteIdx(v) == q % 1024
  {
    4096 * q + 4 * i
  }

  /** Page k of the window, the last 1024 pages: entry 1023 of the directory leads to it, and entry k of that. */
  function WindowPage(k: nat): (q: nat)
    requires k < 1024
    ensures q < 0x10_0000 && q / 1024 == 1023 && q % 1024 == k
  {
    0xf_fc00 + k
  }

  /** pte_ptr(): 0xffc00000 + ((v & 0xffc00000) >> 10) + PTE_IDX(v) * 4, which is word PTE_IDX(v) of page PDE_IDX(v) of the window. */
  function PtePtr(v: nat): (p: nat)
    ensures v < VA_END ==> PdeIdx(v) < 1024 && PteIdx(v) < 1024 && p == PageAddr(WindowPage(PdeIdx(v)), PteIdx(v))
  {
    0xffc0_0000 + (v - v % 0x40_0000) / 1024 + PteIdx(v) * 4
  }

  /** pde_ptr(): 0xfffff000 + PDE_IDX(v) * 4, which is word PDE_IDX(v) of the last page of the window. */
  function PdePtr(v: nat): (p: nat)
    ensures v < VA_END ==> PdeIdx(v) < 1024 && p == PageAddr(WindowPage(1023), PdeIdx(v))
  {
    0xffff_f000 + PdeIdx(v) * 4
  }

  /** Entry 1023 of the directory points to the directory. */
  predicate SelfMapped(ram: Ram, dir: nat) { Read(ram, Word(dir, 1023)) == Entry(dir) }

  /** Taking the entry pointer twice gives the directory-entry pointer. */
  lemma PtePtrTwice(v: nat)
    requires v < VA_END
    ensures PtePtr(PtePtr(v)) == PdePtr(v)
  {
    assert PdeIdx(PtePtr(v)) == 1023 && PteIdx(PtePtr(v)) == PdeIdx(v);
  }

  /** An access through pde_ptr(v) hits the directory entry that the walk uses for v. */
  lemma PdePtrHitsPde(ram: Ram, dir: nat, v: nat)
    requires SelfMapped(ram, dir) && v < VA_END
    ensures Walk(ram, dir, PdePtr(v)) == Some(4 * Word(dir, PdeIdx(v)))
  {
    hide PdeIdx, PteIdx, PdePtr, FrameOf, Present, Read, Entry;
  }

  /** An access through pte_ptr(v) hits the table entry that the walk uses for v, and faults exactly when there is none. */
  lemma PtePtrHitsPte(ram: Ram, dir: nat, v: nat)
    requires SelfMapped(ram, dir) && v < VA_END
    ensures match PteWord(ram, dir, v)
            case Some(w) => Walk(ram, dir, PtePtr(v)) == Some(4 * w)
            case None => Walk(ram, dir, PtePtr(v)) == None
  {
    hide PdeIdx, PteIdx, PtePtr, FrameOf, Present, Read, Entry;
  }

  /** The page that holds pte_ptr(v) is the page table of v: its word i is entry i of that table. */
  lemma TablePageIsTable(ram: Ram, dir: nat, v: nat, i: nat)
    requires SelfMapped(ram, dir) && v < VA_END && i < 1024
    requires Present(Read(ram, Word(dir, PdeIdx(v))))
    ensures PtePtr(v) / 4096 < 0x10_0000
    ensures Walk(ram, dir, PageAddr(PtePtr(v) / 4096, i)) == Some(4 * Word(FrameOf(Read(ram, Word(dir, PdeIdx(v)))), i))
  {
    hide Walk;
    WindowWalk(ram, dir, PdeIdx(v), i);
  }

  /** Word i of page k of the self-map window is word i of the frame in directory entry k. */
  lemma WindowWalk(ram: Ram, dir: nat, k: nat, i: nat)
    requires SelfMapped(ram, dir) && k < 1024 && i < 1024 && Present(Read(ram, Word(dir, k)))
    ensures Walk(ram, dir, PageAddr(WindowPage(k), i)) == Some(4 * Word(FrameOf(Read(ram, Word(dir, k))), i))
  {
    hide PdeIdx, PteIdx, PageAddr, FrameOf, Present, Read, Entry;
  }

  /** An entry with its low 12 bits cleared (& 0xfffff000) is the address of its frame. */
  function FrameAddr(e: nat): (a: nat)
    ensures a == 4096 * FrameOf(e)
  {
    e - e % 4096
  }

  /** addr_v2p(): read the entry through pte_ptr and add the page offset. */
  function AddrV2P(ram: Ram, dir: nat, v: nat): Option<nat> {
    match Walk(ram, dir, PtePtr(v))
    case None => None
    case Some(pa) => var pte := Read(ram, pa / 4); Some(FrameAddr(pte) + v % 4096)
  }

  /** On mapped addresses addr_v2p agrees with the MMU. */
  lemma AddrV2PAgreesWithWalk(ram: Ram, dir: nat, v: nat)
    requires SelfMapped(ram, dir) && v < VA_END && Walk(ram, dir, v).Some?
    ensures AddrV2P(ram, dir, v) == Walk(ram, dir, v)
  {
    hide PtePtr, PdeIdx, PteIdx, FrameAddr, FrameOf;
    PtePtrHitsPte(ram, dir, v);
    var w := PteWord(ram, dir, v).value;
    assert 4 * w / 4 == w;
  }

  /** addr_v2p faults exactly where the directory entry is missing; on a missing page it returns a stale address. */
  lemma AddrV2PFaults(ram: Ram, dir: nat, v: nat)
    requires SelfMapped(ram, dir) && v < VA_END
    ensures AddrV2P(ram, dir, v).None? <==> PteWord(ram, dir, v).None?
  {
    PtePtrHitsPte(ram, dir, v);
  }
}
