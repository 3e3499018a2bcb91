/** Memory areas and mappings, and page arithmetic. */
module Vmem {
  import opened Base

  const PAGE_SIZE: nat := 0x1000
  const ADDRESS_LIMIT: nat := 0x1_0000_0000_0000_0000   // usize is 64 bits wide

  type Ram = nat -> Byte   // physical memory

  /** An area with inclusive ends. */
  datatype MemoryArea = MemoryArea(start: nat, end: nat) {
    /** size() panics when start > end. */
    function Size(): nat
      requires start <= end
    {
      end - start + 1
    }

    predicate Has(v: nat) { start <= v <= end }
  }

  /** A mapping of a virtual onto a physical area; its owner reference is not modelled. */
  datatype VirtualMemoryMap = VirtualMemoryMap(pmarea: MemoryArea, vmarea: MemoryArea, permissions: nat, isShared: bool)

  /** What a mapped address means: where it leads, with which permissions, shared or not. */
  datatype Cell = Cell(paddr: nat, permissions: nat, isShared: bool)

  function CellAt(m: VirtualMemoryMap, v: nat): Cell
    requires m.vmarea.Has(v)
  {
    Cell(m.pmarea.start + (v - m.vmarea.start), m.permissions, m.isShared)
  }

  predicate Aligned(a: nat) { a % PAGE_SIZE == 0 }

  function PageOf(v: nat): nat { v - v % PAGE_SIZE }

  /** (a + PAGE_SIZE - 1) & !(PAGE_SIZE - 1) */
  function RoundUp(a: nat): nat { PageOf(a + PAGE_SIZE - 1) }

  predicate AreaOk(a: MemoryArea) { a.start <= a.end < ADDRESS_LIMIT }

  /** size() neither panics nor overflows: the area is ordered and is not the whole address space. */
  predicate Sizable(m: VirtualMemoryMap) {
    && AreaOk(m.vmarea) && m.vmarea.Size() < ADDRESS_LIMIT
    && AreaOk(m.pmarea) && m.pmarea.Size() < ADDRESS_LIMIT
  }

  /** The alignment test of add_memory_map and add_memory_map_fixed. */
  predicate MapAligned(m: VirtualMemoryMap)
    requires AreaOk(m.vmarea) && AreaOk(m.pmarea)
  {
    Aligned(m.vmarea.start) && Aligned(m.pmarea.start) && Aligned(m.vmarea.Size()) && Aligned(m.pmarea.Size())
  }

  /** A mapping as every builder makes it: both areas have the same size. */
  predicate MapInput(m: VirtualMemoryMap) {
    AreaOk(m.vmarea) && AreaOk(m.pmarea) && m.vmarea.Size() == m.pmarea.Size()
  }

  predicate MapWf(m: VirtualMemoryMap) { MapInput(m) && MapAligned(m) }

  predicate Overlap(a: MemoryArea, b: MemoryArea) { a.start <= b.end && b.start <= a.end }

  lemma RoundUpIs(a: nat)
    ensures Aligned(RoundUp(a)) && a <= RoundUp(a) < a + PAGE_SIZE
    ensures Aligned(a) ==> RoundUp(a) == a
    ensures forall b: nat :: Aligned(b) && a <= b ==> RoundUp(a) <= b
  {
  }

  lemma PageOfIs(v: nat)
    ensures Aligned(PageOf(v)) && PageOf(v) <= v < PageOf(v) + PAGE_SIZE
  {
  }

  /** Ends of aligned areas are one below a page boundary. */
  lemma AlignedEnd(m: VirtualMemoryMap)
    requires MapWf(m)
    ensures Aligned(m.vmarea.end + 1) && Aligned(m.pmarea.end + 1)
  {
  }

  lemma AlignedDifference(a: nat, b: nat)
    requires Aligned(a) && Aligned(b) && a <= b
    ensures Aligned(b - a)
  {
  }

  lemma AlignedSum(a: nat, b: nat)
    requires Aligned(a) && Aligned(b)
    ensures Aligned(a + b)
  {
  }

  lemma PageStep(a: nat, b: nat)
    requires Aligned(a) && Aligned(b) && a < b
    ensures a + PAGE_SIZE <= b
  {
  }
}
