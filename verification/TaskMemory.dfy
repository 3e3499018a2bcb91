/** The memory of a user task, updated in place: set_brk, allocate_pages and free_pages. */
module TaskMemory {
  import opened Base
  import opened Vmem
  import opened AddressSpace
  import opened FixedInsert
  import opened VmManager
  import opened FreePages
  import opened Heap

  datatype AllocResult = Allocated | NotAligned | AllocPanic
  datatype BrkResult = BrkOk | BrkInvalid | BrkPanic

  class TaskMemory {
    const vm: VirtualMemoryManager
    var brk: Option<nat>
    var textSize: nat
    var dataSize: nat

    ghost predicate Valid()
      reads this, vm
    {
      vm.Valid() && vm.hasRoot
    }

    constructor (vm: VirtualMemoryManager)
      requires vm.Valid() && vm.hasRoot
      ensures Valid() && this.vm == vm && brk == None && textSize == 0 && dataSize == 0
    {
      this.vm := vm;
      brk, textSize, dataSize := None, 0, 0;
    }

    ghost function State(): HeapState
      reads this, vm
    {
      HeapState(vm.memmap, brk, textSize, dataSize)
    }

    function GetBrk(): (r: nat)
      reads this, vm
      ensures r == State().GetBrk()
    {
      if brk.None? then textSize + dataSize else brk.value
    }

    /** allocate_pages; an add_memory_map error is a panic here. */
    method AllocatePages(vaddr: nat, n: nat, permissions: nat, frame: nat) returns (r: AllocResult)
      requires Valid() && 0 < n && vaddr + n * PAGE_SIZE < ADDRESS_LIMIT
      requires Aligned(frame) && frame + n * PAGE_SIZE < ADDRESS_LIMIT
      modifies vm`memmap, vm`lastSearchCache
      ensures Valid()
      ensures r.NotAligned? <==> !Aligned(vaddr)
      ensures r.Allocated? <==> Aligned(vaddr) && Free(old(vm.memmap), PageRun(vaddr, n, frame, permissions).vmarea)
      ensures r.Allocated? ==> vm.memmap == old(vm.memmap)[vaddr := PageRun(vaddr, n, frame, permissions)]
      ensures !r.Allocated? ==> vm.memmap == old(vm.memmap)
    {
      if vaddr % PAGE_SIZE != 0 { return NotAligned; }
      PageRunWf(vaddr, n, frame, permissions);
      var size := n * PAGE_SIZE;
      var mmap := VirtualMemoryMap(MemoryArea(frame, frame + size - 1), MemoryArea(vaddr, vaddr + size - 1), permissions, false);
      assert mmap == PageRun(vaddr, n, frame, permissions);
      r := Place(mmap);
    }

    /** Adds a mapping; an error of the manager is a panic. */
    method Place(mmap: VirtualMemoryMap) returns (r: AllocResult)
      requires Valid() && MapWf(mmap) && Sizable(mmap)
      modifies vm`memmap, vm`lastSearchCache
      ensures Valid() && !r.NotAligned?
      ensures r.Allocated? <==> Free(old(vm.memmap), mmap.vmarea)
      ensures vm.memmap == if r.Allocated? then old(vm.memmap)[mmap.vmarea.start := mmap] else old(vm.memmap)
    {
      var added := vm.AddMemoryMap(mmap);
      r := if added.Ok? then Allocated else AllocPanic;
    }

    /** Puts a part of a removed mapping back. */
    method PutBack(part: VirtualMemoryMap)
      requires Valid() && PartOk(part, vm.memmap)
      modifies vm`memmap, vm`lastSearchCache
      ensures Valid() && vm.memmap == old(vm.memmap)[part.vmarea.start := part]
    {
      var added := vm.AddMemoryMap(part);
      assert added.Ok?;
    }

    /** Re-adds the first part of the removed mapping. */
    method PutHead(mmap: VirtualMemoryMap, q: nat, ghost m: Maps)
      requires Valid() && Wf(m) && Covers(m, mmap.vmarea.start, q) && Aligned(q) && m[mmap.vmarea.start] == mmap
      requires vm.memmap == m - {mmap.vmarea.start}
      requires mmap.vmarea.start < q
      modifies vm`memmap, vm`lastSearchCache
      ensures Valid()
      ensures vm.memmap == (m - {mmap.vmarea.start})[mmap.vmarea.start := Slice(mmap, mmap.vmarea.start, q - 1)]
    {
      HeadFits(m, mmap.vmarea.start, q);
      var size := q - mmap.vmarea.start;
      var paddr := mmap.pmarea.start;
      var part := VirtualMemoryMap(MemoryArea(paddr, paddr + size - 1), MemoryArea(mmap.vmarea.start, q - 1),
                                   mmap.permissions, mmap.isShared);
      assert part == Slice(mmap, mmap.vmarea.start, q - 1);
      PutBack(part);
    }

    /** Re-adds the second part of the removed mapping. */
    method PutTail(mmap: VirtualMemoryMap, q: nat, ghost m: Maps)
      requires Valid() && Wf(m) && Covers(m, mmap.vmarea.start, q) && Aligned(q) && m[mmap.vmarea.start] == mmap
      requires mmap.vmarea.end > q + PAGE_SIZE - 1
      requires vm.memmap == m - {mmap.vmarea.start} ||
               (mmap.vmarea.start < q && vm.memmap == (m - {mmap.vmarea.start})[mmap.vmarea.start := Slice(mmap, mmap.vmarea.start, q - 1)])
      modifies vm`memmap, vm`lastSearchCache
      ensures Valid()
      ensures vm.memmap == old(vm.memmap)[q + PAGE_SIZE := Slice(mmap, q + PAGE_SIZE, mmap.vmarea.end)]
    {
      TailFits(m, vm.memmap, mmap.vmarea.start, q);
      var size := mmap.vmarea.end - (q + PAGE_SIZE) + 1;
      var paddr := mmap.pmarea.start + (q + PAGE_SIZE - mmap.vmarea.start);
      var part := VirtualMemoryMap(MemoryArea(paddr, paddr + size - 1), MemoryArea(q + PAGE_SIZE, mmap.vmarea.end),
                                   mmap.permissions, mmap.isShared);
      assert part == Slice(mmap, q + PAGE_SIZE, mmap.vmarea.end);
      PutBack(part);
    }

    /** The body of free_pages' loop. */
    method FreePage(q: nat, first: bool, last: bool)
      requires Valid() && Aligned(q) && q + PAGE_SIZE < ADDRESS_LIMIT
      modifies vm`memmap, vm`lastSearchCache, vm`pageTable
      ensures Valid() && vm.memmap == FreeStep(old(vm.memmap), q, first, last)
    {
      ghost var m := vm.memmap;
      var removed := vm.RemoveByAddr(q);
      RemovedIsFound(m, q);
      if removed.Some? {
        var mmap := removed.value;
        if first && mmap.vmarea.start < q { PutHead(mmap, q, m); }
        if last && mmap.vmarea.end > q + PAGE_SIZE - 1 { PutTail(mmap, q, m); }
      }
    }

    /** One turn, and what it leaves to the turns after it. */
    method FreeTurn(q: nat, left: nat, first: bool)
      requires Valid() && Aligned(q) && q + PAGE_SIZE < ADDRESS_LIMIT && left > 0
      modifies vm`memmap, vm`lastSearchCache, vm`pageTable
      ensures Valid() && FreeFrom(vm.memmap, q + PAGE_SIZE, left - 1, false) == FreeFrom(old(vm.memmap), q, left, first)
    {
      FreePage(q, first, left == 1);
    }

    /** The first loop of free_pages, n pages from base on. */
    method FreeEach(base: nat, n: nat)
      requires Valid() && Aligned(base) && base + n * PAGE_SIZE < ADDRESS_LIMIT
      modifies vm`memmap, vm`lastSearchCache, vm`pageTable
      ensures Valid() && vm.memmap == FreeFrom(old(vm.memmap), base, n, true)
    {
      ghost var freed := FreeFrom(vm.memmap, base, n, true);
      var left: nat, first: bool, q: nat := n, true, base;
      while left > 0
        invariant Valid() && Aligned(q) && q + left * PAGE_SIZE == base + n * PAGE_SIZE
        invariant FreeFrom(vm.memmap, q, left, first) == freed
      {
        FreeTurn(q, left, first);
        AlignedSum(q, PAGE_SIZE);
        left, first, q := left - 1, false, q + PAGE_SIZE;
      }
    }

    /** free_pages; a task without a root page table would panic. */
    method FreePages(vaddr: nat, n: nat)
      requires Valid() && vaddr + n * PAGE_SIZE < ADDRESS_LIMIT
      modifies vm`memmap, vm`lastSearchCache, vm`pageTable
      ensures Valid() && vm.memmap == Freed(old(vm.memmap), PageOf(vaddr), n)
      ensures forall p :: PageOf(vaddr) <= p < PageOf(vaddr) + n * PAGE_SIZE ==> p !in vm.pageTable
    {
      var page := vaddr / PAGE_SIZE;
      assert page * PAGE_SIZE == PageOf(vaddr);
      FreeEach(page * PAGE_SIZE, n);
      UnmapPages(page, n);
    }

    /** free_data_pages: the subtraction is the last thing done and panics on underflow. */
    method FreeDataPages(vaddr: nat, n: nat) returns (ok: bool)
      requires Valid() && vaddr + n * PAGE_SIZE < ADDRESS_LIMIT
      modifies this`dataSize, vm`memmap, vm`lastSearchCache, vm`pageTable
      ensures Valid() && vm.memmap == Freed(old(vm.memmap), PageOf(vaddr), n)
      ensures ok <==> n * PAGE_SIZE <= old(dataSize)
      ensures ok ==> dataSize == old(dataSize) - n * PAGE_SIZE
    {
      FreePages(vaddr, n);
      ok := n * PAGE_SIZE <= dataSize;
      if ok { dataSize := dataSize - n * PAGE_SIZE; }
    }

    /** allocate_data_pages. */
    method AllocateDataPages(vaddr: nat, n: nat, frame: nat) returns (r: AllocResult)
      requires Valid() && 0 < n && vaddr + n * PAGE_SIZE < ADDRESS_LIMIT
      requires Aligned(frame) && frame + n * PAGE_SIZE < ADDRESS_LIMIT
      modifies this`dataSize, vm`memmap, vm`lastSearchCache
      ensures Valid()
      ensures r.NotAligned? <==> !Aligned(vaddr)
      ensures r.Allocated? <==> Aligned(vaddr) && Free(old(vm.memmap), PageRun(vaddr, n, frame, DATA_PERMISSIONS).vmarea)
      ensures r.Allocated? ==> vm.memmap == old(vm.memmap)[vaddr := PageRun(vaddr, n, frame, DATA_PERMISSIONS)]
      ensures dataSize == if r.Allocated? then old(dataSize) + n * PAGE_SIZE else old(dataSize)
    {
      r := AllocatePages(vaddr, n, DATA_PERMISSIONS, frame);
      if r.Allocated? { dataSize := dataSize + n * PAGE_SIZE; }
    }

    method Shrink(prev: nat, b: nat) returns (ok: bool)
      requires Valid() && prev == GetBrk() && b < prev && prev + PAGE_SIZE <= ADDRESS_LIMIT
      modifies this, vm`memmap, vm`lastSearchCache, vm`pageTable
      ensures Valid()
      ensures if ok then Shrunk(old(State()), b) == Done(State()) else Shrunk(old(State()), b).Panicked?
    {
      RoundUpIs(prev);
      RoundUpIs(b);
      var prevAddr, addr := RoundUp(prev), RoundUp(b);
      var n := (prevAddr - addr) / PAGE_SIZE;
      ok := FreeDataPages(addr, n);
      if ok { brk := Some(b); }
    }

    method Grow(prev: nat, b: nat, frame: nat) returns (ok: bool)
      requires Valid() && prev == GetBrk() && prev < b && b + PAGE_SIZE <= ADDRESS_LIMIT && FramesOk(State(), b, frame)
      modifies this, vm`memmap, vm`lastSearchCache
      ensures Valid()
      ensures if ok then Grown(old(State()), b, frame) == Done(State()) else Grown(old(State()), b, frame).Panicked?
    {
      var prevAddr, addr := RoundUp(prev), RoundUp(b);
      Roundings(prev, b);
      var n := (addr - prevAddr) / PAGE_SIZE;
      ok := true;
      if n > 0 { ok := Extend(prevAddr, n, frame); }
      if ok { brk := Some(b); }
    }

    /** Allocates unless the old break is already mapped. */
    method Extend(addr: nat, n: nat, frame: nat) returns (ok: bool)
      requires Valid() && 0 < n && addr + n * PAGE_SIZE < ADDRESS_LIMIT && Aligned(addr)
      requires Aligned(frame) && frame + n * PAGE_SIZE < ADDRESS_LIMIT
      modifies this`dataSize, vm`memmap, vm`lastSearchCache
      ensures Valid()
      ensures ok <==> Find(old(vm.memmap), addr).Some? || Free(old(vm.memmap), PageRun(addr, n, frame, DATA_PERMISSIONS).vmarea)
      ensures ok && Find(old(vm.memmap), addr).None? ==>
                && dataSize == old(dataSize) + n * PAGE_SIZE
                && vm.memmap == old(vm.memmap)[addr := PageRun(addr, n, frame, DATA_PERMISSIONS)]
      ensures Find(old(vm.memmap), addr).Some? ==> vm.memmap == old(vm.memmap) && dataSize == old(dataSize)
    {
      RemovedIsFound(vm.memmap, addr);
      var found := vm.SearchMemoryMap(addr);
      if found.Some? { return true; }
      var a := AllocateDataPages(addr, n, frame);
      ok := a.Allocated?;
    }

    /** set_brk, with the frames a growing heap gets from the allocator. */
    method SetBreak(b: nat, frame: nat) returns (r: BrkResult)
      requires Valid() && b + PAGE_SIZE <= ADDRESS_LIMIT && GetBrk() + PAGE_SIZE <= ADDRESS_LIMIT && FramesOk(State(), b, frame)
      modifies this, vm`memmap, vm`lastSearchCache, vm`pageTable
      ensures Valid()
      ensures r.BrkPanic? <==> SetBrk(old(State()), b, frame).Panicked?
      ensures r.BrkInvalid? ==> SetBrk(old(State()), b, frame).InvalidAddress? && State() == old(State())
      ensures r.BrkOk? ==> SetBrk(old(State()), b, frame) == Done(State())
    {
      if b < textSize { return BrkInvalid; }
      var prev := GetBrk();
      var ok := true;
      if b < prev { ok := Shrink(prev, b); }
      else if b > prev { ok := Grow(prev, b, frame); }
      else { brk := Some(b); }
      r := if ok then BrkOk else BrkPanic;
    }

    /** The second loop of free_pages. */
    method UnmapPages(page: nat, n: nat)
      requires Valid()
      modifies vm`pageTable
      ensures Valid()
      ensures forall p :: page * PAGE_SIZE <= p < page * PAGE_SIZE + n * PAGE_SIZE ==> p !in vm.pageTable
    {
      UnenteredNoStale(vm.memmap, vm.pageTable, page * PAGE_SIZE, (page + n) * PAGE_SIZE);
      vm.pageTable := Unenter(vm.pageTable, page, n);
    }

    static method Unenter(pt: PageTable, page: nat, n: nat) returns (r: PageTable)
      requires forall p :: p in pt ==> Aligned(p)
      ensures r == Unentered(pt, page * PAGE_SIZE, (page + n) * PAGE_SIZE)
    {
      r := pt;
      var p := 0;
      UnenteredNone(pt, page * PAGE_SIZE);
      while p < n
        invariant p <= n
        invariant r == Unentered(pt, page * PAGE_SIZE, (page + p) * PAGE_SIZE)
      {
        EnteredPages(pt, page, p);
        r := r - {(page + p) * PAGE_SIZE};
        p := p + 1;
      }
    }
  }

  lemma Roundings(low: nat, high: nat)
    requires low < high
    ensures Aligned(RoundUp(low)) && RoundUp(low) <= RoundUp(high) < high + PAGE_SIZE
    ensures PagesBetween(RoundUp(low), RoundUp(high)) * PAGE_SIZE == RoundUp(high) - RoundUp(low)
  {
    RoundUpIs(low);
    RoundUpIs(high);
  }

  /** The page table without the entries in [low, high). */
  ghost function Unentered(pt: PageTable, low: nat, high: nat): PageTable {
    map p | p in pt && !(low <= p < high) :: pt[p]
  }

  lemma UnenteredNoStale(m: Maps, pt: PageTable, low: nat, high: nat)
    requires NoStale(m, pt)
    ensures NoStale(m, Unentered(pt, low, high))
    ensures forall p :: low <= p < high ==> p !in Unentered(pt, low, high)
  {
  }

  lemma UnenteredNone(pt: PageTable, low: nat)
    ensures Unentered(pt, low, low) == pt
  {
  }

  lemma EnteredPages(pt: PageTable, page: nat, p: nat)
    requires forall q :: q in pt ==> Aligned(q)
    ensures Unentered(pt, page * PAGE_SIZE, (page + p + 1) * PAGE_SIZE) ==
            Unentered(pt, page * PAGE_SIZE, (page + p) * PAGE_SIZE) - {(page + p) * PAGE_SIZE}
  {
    var low := (page + p) * PAGE_SIZE;
    forall q | q in pt && low <= q < low + PAGE_SIZE ensures q == low { SamePage(low, q); }
  }

  lemma SamePage(a: nat, b: nat)
    requires Aligned(a) && Aligned(b) && a <= b < a + PAGE_SIZE
    ensures a == b
  {
  }

  lemma RemovedIsFound(m: Maps, q: nat)
    requires Wf(m)
    ensures forall k: nat :: Covers(m, k, q) ==> Find(m, q) == Some(k)
    ensures (forall k: nat :: !Covers(m, k, q)) ==> Find(m, q).None?
  {
    FindCorrect(m, q);
    if Find(m, q).Some? { MeaningAt(m, Find(m, q).value, q); }
  }

  /** A part that can be put back: well formed, and meeting nothing that is left. */
  ghost predicate PartOk(part: VirtualMemoryMap, m: Maps) { MapWf(part) && Sizable(part) && Free(m, part.vmarea) }

  lemma HeadFits(m: Maps, k: nat, q: nat)
    requires Wf(m) && Covers(m, k, q) && Aligned(q) && k < q
    ensures PartOk(Slice(m[k], k, q - 1), m - {k})
  {
    SliceWf(m[k], k, q - 1);
    PartFree(m, k, MemoryArea(k, q - 1));
  }

  lemma TailFits(m: Maps, c1: Maps, k: nat, q: nat)
    requires Wf(m) && Covers(m, k, q) && Aligned(q) && m[k].vmarea.end > q + PAGE_SIZE - 1
    requires c1 == m - {k} || (k < q && c1 == (m - {k})[k := Slice(m[k], k, q - 1)])
    ensures PartOk(Slice(m[k], q + PAGE_SIZE, m[k].vmarea.end), c1)
  {
    AlignedEnd(m[k]);
    SliceWf(m[k], q + PAGE_SIZE, m[k].vmarea.end);
    TailFree(m, c1, k, q, MemoryArea(q + PAGE_SIZE, m[k].vmarea.end));
  }

  lemma PageRunWf(vaddr: nat, n: nat, frame: nat, permissions: nat)
    requires 0 < n && Aligned(vaddr) && Aligned(frame)
    requires vaddr + n * PAGE_SIZE < ADDRESS_LIMIT && frame + n * PAGE_SIZE < ADDRESS_LIMIT
    ensures MapWf(PageRun(vaddr, n, frame, permissions)) && Sizable(PageRun(vaddr, n, frame, permissions))
  {
  }
}
