/** VirtualMemoryManager: the ordered map of mappings, its one-entry lookup cache and the lazily
    filled page table, updated in place. */
module VmManager {
  import opened Base
  import opened Vmem
  import opened AddressSpace
  import opened FixedInsert
  import opened Coalesce
  import opened FirstFit

  datatype CacheEntry = CacheEntry(start: nat, end: nat, key: nat)

  /** A page-table entry: the frame behind a page and the permissions it was entered with. */
  datatype Entry = Entry(frame: nat, permissions: nat)
  type PageTable = map<nat, Entry>

  ghost predicate CacheOk(m: Maps, c: Option<CacheEntry>) {
    c.Some? ==> c.value.key in m && m[c.value.key].vmarea == MemoryArea(c.value.start, c.value.end)
  }

  ghost predicate Backs(cell: Option<Cell>, e: Entry) {
    cell.Some? && cell.value.paddr == e.frame && cell.value.permissions == e.permissions
  }

  /** Every page-table entry lies inside some current mapping and agrees with it. */
  ghost predicate NoStale(m: Maps, pt: PageTable) {
    forall p :: p in pt ==> Aligned(p) && Backs(Meaning(m, p), pt[p])
  }

  /** The page table without the pages from start to end. */
  function Unmapped(pt: PageTable, start: nat, end: nat): PageTable {
    map p | p in pt && !(start <= p <= end) :: pt[p]
  }

  /** The number of pages unmap_range_from_mmu counts for a range. */
  function PagesOf(start: nat, end: nat): nat
    requires start <= end
  {
    (end - start + 1 + PAGE_SIZE - 1) / PAGE_SIZE
  }

  /** p is one of the first i pages from the page of start on, and not beyond end. */
  predicate Reached(start: nat, end: nat, i: nat, p: nat) {
    PageOf(start) <= p <= end && p < PageOf(start) + i * PAGE_SIZE
  }

  function WithoutReached(pt: PageTable, start: nat, end: nat, i: nat): PageTable {
    map p | p in pt && !Reached(start, end, i, p) :: pt[p]
  }

  lemma ReachedNext(pt: PageTable, start: nat, end: nat, i: nat)
    requires forall p :: p in pt ==> Aligned(p)
    ensures var page := PageOf(start) + i * PAGE_SIZE;
            WithoutReached(pt, start, end, i + 1) ==
            if page <= end then WithoutReached(pt, start, end, i) - {page} else WithoutReached(pt, start, end, i)
  {
    var page := PageOf(start) + i * PAGE_SIZE;
    forall p | p in pt && page < p ensures !(p < page + PAGE_SIZE) {
      PageOfIs(start);
      AlignedSum(PageOf(start), i * PAGE_SIZE);
      PageStep(page, p);
    }
  }

  lemma ReachedAligned(pt: PageTable, start: nat, end: nat)
    requires start <= end && Aligned(start)
    ensures WithoutReached(pt, start, end, PagesOf(start, end)) == Unmapped(pt, start, end)
  {
    forall p | start <= p <= end ensures Reached(start, end, PagesOf(start, end), p) { }
  }

  /** Every page that meets the range is unmapped. */
  ghost predicate UnmapsWhole(start: nat, end: nat)
    requires start <= end
  {
    forall p: nat :: Aligned(p) && PageOf(start) <= p <= end ==> Reached(start, end, PagesOf(start, end), p)
  }

  /** A range off a page boundary is unmapped whole if and only if it does not reach into one page more than
      its size rounds up to. */
  lemma UnmapsWholeIff(start: nat, end: nat)
    requires start <= end
    ensures UnmapsWhole(start, end) <==> start % PAGE_SIZE + (end - start + 1) <= PagesOf(start, end) * PAGE_SIZE
  {
    var last := PageOf(end);
    PageOfIs(end);
    PageOfIs(start);
    if start % PAGE_SIZE + (end - start + 1) > PagesOf(start, end) * PAGE_SIZE {
      var p := PageOf(start) + PagesOf(start, end) * PAGE_SIZE;
      AlignedSum(PageOf(start), PagesOf(start, end) * PAGE_SIZE);
      assert Aligned(p) && PageOf(start) <= p <= end && !Reached(start, end, PagesOf(start, end), p);
    }
  }

  /** Three bytes across a page boundary: the second page stays. */
  lemma UnmapsShortExample()
    ensures !UnmapsWhole(0xfff, 0x1001)
  {
    UnmapsWholeIff(0xfff, 0x1001);
  }

  function UnmapAll(pt: PageTable, ps: seq<VirtualMemoryMap>): PageTable
    decreases |ps|
  {
    if ps == [] then pt else UnmapAll(Unmapped(pt, ps[0].vmarea.start, ps[0].vmarea.end), ps[1..])
  }

  lemma {:induction false} UnmapAllIs(pt: PageTable, ps: seq<VirtualMemoryMap>)
    ensures forall p :: p in UnmapAll(pt, ps) <==> p in pt && !SomeHas(ps, p)
    ensures forall p :: p in UnmapAll(pt, ps) ==> UnmapAll(pt, ps)[p] == pt[p]
    decreases |ps|
  {
    if ps != [] {
      UnmapAllIs(Unmapped(pt, ps[0].vmarea.start, ps[0].vmarea.end), ps[1..]);
      forall p: nat ensures SomeHas(ps, p) <==> ps[0].vmarea.Has(p) || SomeHas(ps[1..], p) {
        SomeHasCons(ps, p);
      }
    }
  }

  lemma SomeHasCons(ps: seq<VirtualMemoryMap>, v: nat)
    requires ps != []
    ensures SomeHas(ps, v) <==> ps[0].vmarea.Has(v) || SomeHas(ps[1..], v)
  {
    if SomeHas(ps[1..], v) {
      var i :| 0 <= i < |ps[1..]| && ps[1..][i].vmarea.Has(v);
      assert ps[i + 1].vmarea.Has(v);
    }
    if SomeHas(ps, v) {
      var i :| 0 <= i < |ps| && ps[i].vmarea.Has(v);
      if i > 0 { assert ps[1..][i - 1].vmarea.Has(v); }
    }
  }

  // ----- no stale entries ----------------------------------------------------------

  lemma AddNoStale(m: Maps, n: VirtualMemoryMap, pt: PageTable)
    requires Wf(m) && MapWf(n) && Free(m, n.vmarea) && NoStale(m, pt)
    ensures NoStale(m[n.vmarea.start := n], pt)
  {
    forall p | p in pt ensures Aligned(p) && Backs(Meaning(m[n.vmarea.start := n], p), pt[p]) {
      AddMeaning(m, n, p);
      var k :| Covers(m, k, p);
      assert !Overlap(m[k].vmarea, n.vmarea);
    }
  }

  lemma RemoveNoStale(m: Maps, k: nat, pt: PageTable)
    requires Wf(m) && k in m && NoStale(m, pt)
    ensures NoStale(m - {k}, Unmapped(pt, m[k].vmarea.start, m[k].vmarea.end))
  {
    forall p | p in Unmapped(pt, m[k].vmarea.start, m[k].vmarea.end) ensures Aligned(p) && Backs(Meaning(m - {k}, p), pt[p]) {
      RemoveMeaning(m, k, p);
    }
  }

  lemma InsertNoStale(m: Maps, n: VirtualMemoryMap, pt: PageTable)
    requires Wf(m) && MapWf(n) && NoStale(m, pt)
    ensures NoStale(Inserted(m, n), UnmapAll(pt, Overwritten(m, n)))
  {
    var pt1 := UnmapAll(pt, Overwritten(m, n));
    UnmapAllIs(pt, Overwritten(m, n));
    forall p | p in pt1 ensures Aligned(p) && Backs(Meaning(Inserted(m, n), p), pt1[p]) {
      InsertedMeaning(m, n, p);
      OverwrittenExact(m, n, p);
    }
  }

  lemma CoalesceNoStale(m: Maps, pt: PageTable)
    requires Wf(m) && NoStale(m, pt)
    ensures NoStale(Coalesced(m), pt)
  {
    forall p | p in pt ensures Aligned(p) && Backs(Meaning(Coalesced(m), p), pt[p]) {
      CoalescedKeeps(m, p);
    }
  }

  /** The page of a mapped address is mapped by the same mapping. */
  lemma PageMeaning(m: Maps, k: nat, v: nat)
    requires Wf(m) && Covers(m, k, v)
    ensures Covers(m, k, PageOf(v))
    ensures Meaning(m, PageOf(v)) == Some(CellAt(m[k], PageOf(v)))
  {
    PageOfIs(v);
    assert MapWf(m[k]);
    assert m[k].vmarea.start <= PageOf(v);
    MeaningAt(m, k, PageOf(v));
  }

  lemma LazyNoStale(m: Maps, pt: PageTable, k: nat, v: nat)
    requires Wf(m) && NoStale(m, pt) && Covers(m, k, v)
    ensures Covers(m, k, PageOf(v)) && Meaning(m, PageOf(v)) == Some(CellAt(m[k], PageOf(v)))
    ensures NoStale(m, pt[PageOf(v) := Entry(CellAt(m[k], PageOf(v)).paddr, m[k].permissions)])
  {
    PageMeaning(m, k, v);
    PageOfIs(v);
  }

  datatype Unit = Unit
  datatype LazyError = NoMapping | NoRootTable

  class VirtualMemoryManager {
    var memmap: Maps
    var lastSearchCache: Option<CacheEntry>
    var mmapBase: nat
    var pageTable: PageTable       // the abstract content of the root page table
    const hasRoot: bool            // whether the address space has a root page table

    ghost predicate Valid()
      reads this
    {
      && Wf(memmap)
      && CacheOk(memmap, lastSearchCache)
      && NoStale(memmap, pageTable)
      && (!hasRoot ==> pageTable == map[])
    }

    constructor (hasRoot: bool)
      ensures Valid() && memmap == map[] && pageTable == map[] && this.hasRoot == hasRoot
      ensures mmapBase == 0x4000_0000
    {
      memmap, lastSearchCache, pageTable := map[], None, map[];
      mmapBase := 0x4000_0000;
      this.hasRoot := hasRoot;
    }

    /** search_memory_map: cache hit or ordered lookup; either way the one mapping that contains v. */
    function SearchMemoryMap(v: nat): (r: Option<VirtualMemoryMap>)
      requires Valid()
      reads this
      ensures r.Some? ==> exists k :: Covers(memmap, k, v) && r.value == memmap[k]
      ensures r.None? ==> forall k :: !Covers(memmap, k, v)
    {
      FindCorrect(memmap, v);
      if lastSearchCache.Some? && lastSearchCache.value.start <= v <= lastSearchCache.value.end then
        assert Covers(memmap, lastSearchCache.value.key, v);
        Some(memmap[lastSearchCache.value.key])
      else
        match Find(memmap, v)
        case None => None
        case Some(k) => Some(memmap[k])
    }

    /** translate_vaddr is the flat function. */
    function TranslateVaddr(v: nat): (r: Option<nat>)
      requires Valid()
      reads this
      ensures r == if Meaning(memmap, v).Some? then Some(Meaning(memmap, v).value.paddr) else None
    {
      match SearchMemoryMap(v)
      case None => None
      case Some(m) =>
        assert Meaning(memmap, v) == Some(CellAt(m, v)) by {
          var k :| Covers(memmap, k, v) && m == memmap[k];
          MeaningAt(memmap, k, v);
        }
        Some(m.pmarea.start + (v - m.vmarea.start))
    }

    /** The checks of add_memory_map. */
    method Objection(n: VirtualMemoryMap) returns (e: Option<AddError>)
      requires Sizable(n)
      ensures e == if Add(memmap, n).Ok? then None else Some(Add(memmap, n).error)
    {
      if !(Aligned(n.vmarea.start) && Aligned(n.pmarea.start) && Aligned(n.vmarea.Size()) && Aligned(n.pmarea.Size())) {
        return Some(Unaligned);
      }
      var before := LastAtMost(memmap, n.vmarea.start - 1);
      if before.Some? && memmap[before.value].vmarea.end > n.vmarea.start { return Some(OverlapsPreceding); }
      var after := FirstAtLeast(memmap, n.vmarea.start);
      if after.Some? && memmap[after.value].vmarea.start < n.vmarea.end { return Some(OverlapsSucceeding); }
      e := None;
    }

    method AddMemoryMap(n: VirtualMemoryMap) returns (r: Result<Unit, AddError>)
      requires Valid() && Sizable(n)
      modifies this`memmap, this`lastSearchCache
      ensures r.Err? || MapInput(n) ==> Valid()
      ensures r.Ok? <==> MapAligned(n) && Free(old(memmap), n.vmarea)
      ensures r.Ok? ==> memmap == old(memmap)[n.vmarea.start := n] && lastSearchCache == None
      ensures r.Err? ==> memmap == old(memmap) && lastSearchCache == old(lastSearchCache)
    {
      AddAcceptsIff(memmap, n);
      var objection := Objection(n);
      if objection.Some? { return Err(objection.value); }
      if MapInput(n) {
        AddMeaning(memmap, n, 0);
        AddNoStale(memmap, n, pageTable);
      }
      lastSearchCache := None;
      memmap := memmap[n.vmarea.start := n];
      r := Ok(Unit);
    }

    /** find_memory_map_with_cache_update. */
    method FindWithCacheUpdate(v: nat) returns (r: Option<nat>)
      requires Valid()
      modifies this`lastSearchCache
      ensures Valid()
      ensures r.Some? ==> Covers(memmap, r.value, v)
      ensures r.None? ==> forall k :: !Covers(memmap, k, v)
    {
      if lastSearchCache.Some? && lastSearchCache.value.start <= v <= lastSearchCache.value.end {
        return Some(lastSearchCache.value.key);
      }
      FindCorrect(memmap, v);
      r := LastAtMost(memmap, v);
      if r.Some? && memmap[r.value].vmarea.start <= v <= memmap[r.value].vmarea.end {
        lastSearchCache := Some(CacheEntry(memmap[r.value].vmarea.start, memmap[r.value].vmarea.end, r.value));
      } else {
        r := None;
      }
    }

    /** unmap_range_from_mmu: exactly the pages it reaches are unmapped, on a page boundary those of the
        range. */
    method UnmapRange(start: nat, end: nat)
      requires start <= end < ADDRESS_LIMIT
      requires !hasRoot ==> pageTable == map[]
      requires forall p :: p in pageTable ==> Aligned(p)
      modifies this`pageTable
      ensures pageTable == WithoutReached(old(pageTable), start, end, PagesOf(start, end))
      ensures Aligned(start) ==> pageTable == Unmapped(old(pageTable), start, end)
    {
      if Aligned(start) { ReachedAligned(pageTable, start, end); }
      if !hasRoot { return; }
      var pages := (end - start + 1 + PAGE_SIZE - 1) / PAGE_SIZE;
      var i := 0;
      while i < pages
        invariant i <= pages
        invariant pageTable == WithoutReached(old(pageTable), start, end, i)
      {
        ReachedNext(old(pageTable), start, end, i);
        var page := start - start % PAGE_SIZE + i * PAGE_SIZE;
        if page <= end { pageTable := pageTable - {page}; }
        i := i + 1;
      }
    }

    /** Removes the mapping that contains v, with its cache entry and its pages. */
    method RemoveByAddr(v: nat) returns (r: Option<VirtualMemoryMap>)
      requires Valid()
      modifies this`memmap, this`lastSearchCache, this`pageTable
      ensures Valid()
      ensures r.None? ==> (forall k :: !Covers(old(memmap), k, v)) && memmap == old(memmap) && pageTable == old(pageTable)
      ensures r.Some? ==>
                && Covers(old(memmap), r.value.vmarea.start, v) && r.value == old(memmap)[r.value.vmarea.start]
                && memmap == old(memmap) - {r.value.vmarea.start}
                && pageTable == Unmapped(old(pageTable), r.value.vmarea.start, r.value.vmarea.end)
    {
      var key := FindWithCacheUpdate(v);
      if key.None? { return None; }
      RemoveMeaning(memmap, key.value, 0);
      RemoveNoStale(memmap, key.value, pageTable);
      if lastSearchCache.Some? && lastSearchCache.value.key == key.value { lastSearchCache := None; }
      var removed := memmap[key.value];
      memmap := memmap - {key.value};
      UnmapRange(removed.vmarea.start, removed.vmarea.end);
      r := Some(removed);
    }

    /** lazy_map_page: enters the page of v as its mapping says. */
    method LazyMapPage(v: nat) returns (r: Result<Unit, LazyError>)
      requires Valid()
      modifies this`pageTable
      ensures Valid()
      ensures r.Ok? <==> hasRoot && Meaning(memmap, v).Some?
      ensures r.Err? ==> pageTable == old(pageTable)
      ensures r.Ok? ==>
                && Meaning(memmap, PageOf(v)).Some?
                && var cell := Meaning(memmap, PageOf(v)).value;
                   pageTable == old(pageTable)[PageOf(v) := Entry(cell.paddr, cell.permissions)]
    {
      var m := SearchMemoryMap(v);
      if m.None? { MeaningNone(memmap, v); return Err(NoMapping); }
      ghost var k :| Covers(memmap, k, v) && m.value == memmap[k];
      MeaningAt(memmap, k, v);
      if !hasRoot { return Err(NoRootTable); }
      EnterPage(v, m.value, k);
      r := Ok(Unit);
    }

    method EnterPage(v: nat, m: VirtualMemoryMap, ghost k: nat)
      requires Valid() && hasRoot && Covers(memmap, k, v) && m == memmap[k]
      modifies this`pageTable
      ensures Valid() && Meaning(memmap, PageOf(v)).Some?
      ensures var cell := Meaning(memmap, PageOf(v)).value;
              pageTable == old(pageTable)[PageOf(v) := Entry(cell.paddr, cell.permissions)]
    {
      LazyNoStale(memmap, pageTable, k, v);
      var page := v - v % PAGE_SIZE;
      var frame := m.pmarea.start + (page - m.vmarea.start);
      pageTable := pageTable[page := Entry(frame, m.permissions)];
    }

    /** The cutting loop of add_memory_map_fixed. */
    method CutOverlaps(keys: seq<nat>, n: VirtualMemoryMap) returns (overwritten: seq<VirtualMemoryMap>, toAdd: seq<VirtualMemoryMap>)
      requires AreaOk(n.vmarea) && Overlapping(memmap, keys, n) && Increasing(keys)
      modifies this`memmap
      ensures memmap == old(memmap) - KeySet(keys)
      ensures overwritten == Cuts(old(memmap), keys, n) && toAdd == Remains(old(memmap), keys, n)
    {
      ghost var m := memmap;
      overwritten, toAdd := [], [];
      var i := 0;
      assert keys[0..] == keys;
      assert KeySet(keys[..0]) == {};
      while i < |keys|
        invariant i <= |keys| && memmap == m - KeySet(keys[..i])
        invariant CutSoFar(m, keys, i, n, overwritten, toAdd)
      {
        CutStep(m, keys, i, n);
        KeyStep(m, keys, i);
        var existing := memmap[keys[i]];
        memmap := memmap - {keys[i]};
        overwritten := overwritten + [Cut(existing, n)];
        toAdd := toAdd + Pieces(existing, n);
        i := i + 1;
      }
      assert keys[..i] == keys && keys[i..] == [];
    }

    /** Unmaps the pages of every overwritten part. */
    method UnmapOverwritten(ps: seq<VirtualMemoryMap>)
      requires forall i :: 0 <= i < |ps| ==> MapWf(ps[i])
      requires !hasRoot ==> pageTable == map[]
      requires forall p :: p in pageTable ==> Aligned(p)
      modifies this`pageTable
      ensures pageTable == UnmapAll(old(pageTable), ps)
      ensures !hasRoot ==> pageTable == map[]
    {
      var i := 0;
      assert ps[0..] == ps;
      while i < |ps|
        invariant i <= |ps|
        invariant !hasRoot ==> pageTable == map[]
        invariant forall p :: p in pageTable ==> Aligned(p)
        invariant UnmapAll(pageTable, ps[i..]) == UnmapAll(old(pageTable), ps)
      {
        UnmapRange(ps[i].vmarea.start, ps[i].vmarea.end);
        assert ps[i..][1..] == ps[i + 1..];
        i := i + 1;
      }
    }

    method PutBack(ps: seq<VirtualMemoryMap>)
      modifies this`memmap
      ensures memmap == InsertAll(old(memmap), ps)
    {
      var i := 0;
      assert ps[0..] == ps;
      while i < |ps|
        invariant i <= |ps|
        invariant InsertAll(memmap, ps[i..]) == InsertAll(old(memmap), ps)
      {
        memmap := memmap[ps[i].vmarea.start := ps[i]];
        assert ps[i..][1..] == ps[i + 1..];
        i := i + 1;
      }
    }

    /** Cuts, unmaps and re-adds for an aligned mapping. */
    method Overwrite(n: VirtualMemoryMap) returns (overwritten: seq<VirtualMemoryMap>)
      requires Valid() && Sizable(n) && MapAligned(n)
      modifies this`memmap, this`lastSearchCache, this`pageTable
      ensures overwritten == Overwritten(old(memmap), n) && memmap == Inserted(old(memmap), n)
      ensures lastSearchCache == None && pageTable == UnmapAll(old(pageTable), overwritten)
      ensures !hasRoot ==> pageTable == map[]
    {
      assert MapWf(Even(n));
      OverwrittenWf(memmap, Even(n));
      OverwrittenEven(memmap, n);
      OverlapKeysAre(memmap, n);
      var keys := Ascending(OverlapKeys(memmap, n));
      assert KeySet(keys) == OverlapKeys(memmap, n);
      var toAdd;
      overwritten, toAdd := CutOverlaps(keys, n);
      lastSearchCache := None;
      UnmapOverwritten(overwritten);
      PutBack(toAdd);
      memmap := memmap[n.vmarea.start := n];
    }

    /** Fixed insert: an Err changes nothing; otherwise the new range translates by the new mapping, all
        else as before, and the old mapping of the new range is returned. */
    method AddMemoryMapFixed(n: VirtualMemoryMap) returns (r: Result<seq<VirtualMemoryMap>, AddError>)
      requires Valid() && Sizable(n)
      modifies this`memmap, this`lastSearchCache, this`pageTable
      ensures r.Err? || MapInput(n) ==> Valid()
      ensures r.Ok? <==> MapAligned(n)
      ensures r.Err? ==> memmap == old(memmap) && lastSearchCache == old(lastSearchCache) && pageTable == old(pageTable)
      ensures r.Ok? ==>
                && r.value == Overwritten(old(memmap), n)
                && memmap == Inserted(old(memmap), n)
                && pageTable == UnmapAll(old(pageTable), r.value)
      ensures r.Ok? && MapInput(n) ==> forall v ::
                Meaning(memmap, v) == if n.vmarea.Has(v) then Some(CellAt(n, v)) else Meaning(old(memmap), v)
    {
      if !(Aligned(n.vmarea.start) && Aligned(n.pmarea.start) && Aligned(n.vmarea.Size()) && Aligned(n.pmarea.Size())) {
        return Err(Unaligned);
      }
      if MapInput(n) { InsertedAll(memmap, n, pageTable); }
      var overwritten := Overwrite(n);
      r := Ok(overwritten);
    }

    /** The merging loop of coalesce_memory_maps. */
    method CollectMerges() returns (count: nat, toRemove: seq<nat>, toAdd: seq<VirtualMemoryMap>)
      ensures toRemove == Removals(Listing(memmap)) && toAdd == Additions(Listing(memmap)) && count == |toAdd|
    {
      count, toRemove, toAdd := CollectFrom(Listing(memmap));
    }

    static method CollectFrom(ms: seq<VirtualMemoryMap>) returns (count: nat, toRemove: seq<nat>, toAdd: seq<VirtualMemoryMap>)
      ensures toRemove == Removals(ms) && toAdd == Additions(ms) && count == |toAdd|
    {
      count, toRemove, toAdd := 0, [], [];
      var prev: Option<VirtualMemoryMap> := None;
      var i := 0;
      assert ms[0..] == ms;
      while i < |ms|
        invariant i <= |ms| && (prev.Some? ==> i > 0 && prev.value == ms[i - 1])
        invariant toRemove + Removals(ms[if prev.Some? then i - 1 else i..]) == Removals(ms)
        invariant toAdd + Additions(ms[if prev.Some? then i - 1 else i..]) == Additions(ms)
        invariant count == |toAdd|
      {
        var cur := ms[i];
        ghost var at := if prev.Some? then i - 1 else i;
        assert ms[at..][1..] == ms[at + 1..];
        if prev.Some? && Mergeable(prev.value, cur) {
          assert ms[at..][2..] == ms[at + 2..];
          toRemove := toRemove + [prev.value.vmarea.start, cur.vmarea.start];
          toAdd := toAdd + [Merge(prev.value, cur)];
          count := count + 1;
          prev := None;
        } else {
          prev := Some(cur);
        }
        i := i + 1;
      }
    }

    method RemoveKeys(keys: seq<nat>)
      modifies this`memmap
      ensures memmap == old(memmap) - KeySet(keys)
    {
      var i := 0;
      while i < |keys|
        invariant i <= |keys|
        invariant memmap == old(memmap) - KeySet(keys[..i])
      {
        memmap := memmap - {keys[i]};
        assert keys[..i + 1] == keys[..i] + [keys[i]];
        assert KeySet(keys[..i + 1]) == KeySet(keys[..i]) + {keys[i]};
        i := i + 1;
      }
      assert keys[..i] == keys;
    }

    method ApplyMerges() returns (count: nat)
      modifies this`memmap
      ensures memmap == Coalesced(old(memmap)) && count == |Additions(Listing(old(memmap)))|
    {
      var toRemove, toAdd;
      count, toRemove, toAdd := CollectMerges();
      RemoveKeys(toRemove);
      PutBack(toAdd);
    }

    /** coalesce_memory_maps: no address changes its meaning, the number of mappings drops by the
        returned count. */
    method CoalesceMemoryMaps() returns (count: nat)
      requires Valid()
      modifies this`memmap, this`lastSearchCache
      ensures Valid()
      ensures memmap == Coalesced(old(memmap)) && |memmap| + count == |old(memmap)|
      ensures forall v :: Meaning(memmap, v) == Meaning(old(memmap), v)
    {
      CoalescedAll(memmap);
      CoalesceNoStale(memmap, pageTable);
      ghost var m := memmap;
      count := ApplyMerges();
      if count > 0 { lastSearchCache := None; } else { NothingMerged(m); }
    }

    /** get_memory_stats. */
    method GetMemoryStats() returns (maps: nat, bytes: nat, gaps: nat)
      requires Valid()
      ensures maps == |memmap| && bytes == Bytes(Listing(memmap)) && gaps == Gaps(Listing(memmap))
    {
      maps := |memmap|;
      ListingChain(memmap);
      bytes, gaps := CountBytes(Listing(memmap));
    }

    static method CountBytes(ms: seq<VirtualMemoryMap>) returns (bytes: nat, gaps: nat)
      requires Chain(ms)
      ensures bytes == Bytes(ms) && gaps == Gaps(ms)
    {
      bytes, gaps := 0, 0;
      var prevEnd: Option<nat> := None;
      var i := 0;
      assert ms[0..] == ms;
      while i < |ms|
        invariant i <= |ms| && (if i == 0 then prevEnd == None else prevEnd == Some(ms[i - 1].vmarea.end))
        invariant bytes + Bytes(ms[i..]) == Bytes(ms)
        invariant gaps + Gaps(ms[if i == 0 then 0 else i - 1..]) == Gaps(ms)
      {
        assert MapWf(ms[i]);
        assert ms[i..][1..] == ms[i + 1..];
        if i > 0 { assert ms[i - 1..][1..] == ms[i..]; }
        bytes := bytes + (ms[i].vmarea.end - ms[i].vmarea.start + 1);
        if prevEnd.Some? && ms[i].vmarea.start > prevEnd.value + 1 { gaps := gaps + 1; }
        prevEnd := Some(ms[i].vmarea.end);
        i := i + 1;
      }
    }

    /** The loop of find_unmapped_area. */
    static method FitLoop(ms: seq<VirtualMemoryMap>, base: nat, rounded: nat, alignment: nat) returns (r: FitResult)
      requires alignment > 0
      ensures r == Fit(ms, base, rounded, alignment)
    {
      var search: nat := base;
      var i := 0;
      assert ms[0..] == ms;
      while i < |ms|
        invariant i <= |ms|
        invariant Fit(ms[i..], search, rounded, alignment) == Fit(ms, base, rounded, alignment)
      {
        assert ms[i..][1..] == ms[i + 1..];
        if search + rounded >= ADDRESS_LIMIT { return Overflow; }
        if search + rounded <= ms[i].vmarea.start { return Found(search); }
        if ms[i].vmarea.end + 1 >= ADDRESS_LIMIT || ms[i].vmarea.end + 1 + (alignment - 1) >= ADDRESS_LIMIT { return Overflow; }
        search := AlignUp(ms[i].vmarea.end + 1, alignment);
        i := i + 1;
      }
      if search + rounded >= ADDRESS_LIMIT { return Overflow; }
      r := if search + rounded <= MAX_USER_ADDR then Found(search) else NoSpace;
    }

    /** find_unmapped_area. */
    method FindUnmappedArea(size: nat, alignment: nat) returns (r: FitResult)
      requires alignment > 0
      ensures r == FindUnmapped(memmap, mmapBase, size, alignment)
    {
      if size + alignment - 1 >= ADDRESS_LIMIT { return Overflow; }
      r := FitLoop(Above(memmap, mmapBase), mmapBase, AlignUp(size, alignment), alignment);
    }
  }

  /** What has been cut off and what is to be put back, the keys from i on missing. */
  ghost predicate CutSoFar(m: Maps, keys: seq<nat>, i: nat, n: VirtualMemoryMap, cuts: seq<VirtualMemoryMap>, back: seq<VirtualMemoryMap>)
    requires AreaOk(n.vmarea) && i <= |keys| && Overlapping(m, keys, n)
  {
    && Overlapping(m, keys[i..], n)
    && cuts + Cuts(m, keys[i..], n) == Cuts(m, keys, n)
    && back + Remains(m, keys[i..], n) == Remains(m, keys, n)
  }

  lemma CutStep(m: Maps, keys: seq<nat>, i: nat, n: VirtualMemoryMap)
    requires AreaOk(n.vmarea) && i < |keys| && Overlapping(m, keys[i..], n)
    ensures keys[i] in m && Overlap(m[keys[i]].vmarea, n.vmarea) && MapWf(m[keys[i]])
    ensures Overlapping(m, keys[i + 1..], n)
    ensures Cuts(m, keys[i..], n) == [Cut(m[keys[i]], n)] + Cuts(m, keys[i + 1..], n)
    ensures Remains(m, keys[i..], n) == Pieces(m[keys[i]], n) + Remains(m, keys[i + 1..], n)
  {
    assert keys[i..][0] == keys[i] && keys[i..][1..] == keys[i + 1..];
    assert keys[i] in keys[i..];
    assert forall k :: k in keys[i + 1..] ==> k in keys[i..];
  }

  lemma KeyStep(m: Maps, keys: seq<nat>, i: nat)
    requires i < |keys| && Increasing(keys)
    ensures keys[i] !in KeySet(keys[..i])
    ensures m - KeySet(keys[..i]) - {keys[i]} == m - KeySet(keys[..i + 1])
  {
    assert keys[..i + 1] == keys[..i] + [keys[i]];
    assert KeySet(keys[..i + 1]) == KeySet(keys[..i]) + {keys[i]};
  }

  lemma OverwrittenWf(m: Maps, n: VirtualMemoryMap)
    requires Wf(m) && MapWf(n)
    ensures forall i :: 0 <= i < |Overwritten(m, n)| ==> MapWf(Overwritten(m, n)[i])
  {
    OverlapKeysAre(m, n);
    CutsAre(m, Ascending(OverlapKeys(m, n)), n);
  }

  lemma InsertedAll(m: Maps, n: VirtualMemoryMap, pt: PageTable)
    requires Wf(m) && MapWf(n) && NoStale(m, pt)
    ensures Wf(Inserted(m, n)) && NoStale(Inserted(m, n), UnmapAll(pt, Overwritten(m, n)))
    ensures forall v :: Meaning(Inserted(m, n), v) == if n.vmarea.Has(v) then Some(CellAt(n, v)) else Meaning(m, v)
  {
    InsertNoStale(m, n, pt);
    InsertedMeaning(m, n, 0);
    forall v ensures Meaning(Inserted(m, n), v) == if n.vmarea.Has(v) then Some(CellAt(n, v)) else Meaning(m, v) {
      InsertedMeaning(m, n, v);
    }
  }

  lemma CoalescedAll(m: Maps)
    requires Wf(m)
    ensures Wf(Coalesced(m)) && |Coalesced(m)| + |Additions(Listing(m))| == |m|
    ensures forall v :: Meaning(Coalesced(m), v) == Meaning(m, v)
  {
    CoalescedKeeps(m, 0);
    forall v: nat ensures Meaning(Coalesced(m), v) == Meaning(m, v) { CoalescedKeeps(m, v); }
  }

  lemma NothingMerged(m: Maps)
    requires Additions(Listing(m)) == []
    ensures Coalesced(m) == m
  {
    NoRemovals(Listing(m));
  }

  lemma {:induction false} NoRemovals(ms: seq<VirtualMemoryMap>)
    requires Additions(ms) == []
    ensures Removals(ms) == []
    decreases |ms|
  {
    if |ms| >= 2 { NoRemovals(ms[1..]); }
  }

  // ----- every run of the manager's operations --------------------------------------

  datatype Op = AddOp(n: VirtualMemoryMap) | FixedOp(n: VirtualMemoryMap) | RemoveOp(v: nat) | CoalesceOp | FaultOp(v: nat)

  datatype Space = Space(maps: Maps, pages: PageTable)

  /** What an operation does to the mappings and the page table, as the methods above ensure it. */
  ghost function Perform(s: Space, op: Op): Space
    requires Wf(s.maps) && (op.AddOp? || op.FixedOp? ==> MapInput(op.n))
  {
    match op
    case AddOp(n) => if MapAligned(n) && Free(s.maps, n.vmarea) then s.(maps := s.maps[n.vmarea.start := n]) else s
    case FixedOp(n) =>
      if MapAligned(n) then Space(Inserted(s.maps, n), UnmapAll(s.pages, Overwritten(s.maps, n))) else s
    case RemoveOp(v) =>
      var k := Find(s.maps, v);
      if k.Some? then
        FindCorrect(s.maps, v);
        Space(s.maps - {k.value}, Unmapped(s.pages, s.maps[k.value].vmarea.start, s.maps[k.value].vmarea.end))
      else s
    case CoalesceOp => s.(maps := Coalesced(s.maps))
    case FaultOp(v) =>
      var k := Find(s.maps, v);
      if k.Some? then
        FindCorrect(s.maps, v);
        PageMeaning(s.maps, k.value, v);
        s.(pages := s.pages[PageOf(v) := Entry(CellAt(s.maps[k.value], PageOf(v)).paddr, s.maps[k.value].permissions)])
      else s
  }

  lemma PerformKeeps(s: Space, op: Op)
    requires Wf(s.maps) && NoStale(s.maps, s.pages) && (op.AddOp? || op.FixedOp? ==> MapInput(op.n))
    ensures Wf(Perform(s, op).maps) && NoStale(Perform(s, op).maps, Perform(s, op).pages)
  {
    match op {
      case AddOp(n) =>
        if MapAligned(n) && Free(s.maps, n.vmarea) { AddMeaning(s.maps, n, 0); AddNoStale(s.maps, n, s.pages); }
      case FixedOp(n) =>
        if MapAligned(n) { InsertedMeaning(s.maps, n, 0); InsertNoStale(s.maps, n, s.pages); }
      case RemoveOp(v) =>
        FindCorrect(s.maps, v);
        var k := Find(s.maps, v);
        if k.Some? { RemoveMeaning(s.maps, k.value, 0); RemoveNoStale(s.maps, k.value, s.pages); }
      case CoalesceOp => CoalescedKeeps(s.maps, 0); CoalesceNoStale(s.maps, s.pages);
      case FaultOp(v) =>
        FindCorrect(s.maps, v);
        var k := Find(s.maps, v);
        if k.Some? { LazyNoStale(s.maps, s.pages, k.value, v); }
    }
  }

  ghost predicate InputsOk(ops: seq<Op>) {
    forall i :: 0 <= i < |ops| && (ops[i].AddOp? || ops[i].FixedOp?) ==> MapInput(ops[i].n)
  }

  /** Over every run of adds, fixed adds, removals, coalescings and faults, the mappings stay well formed
      and every page-table entry lies inside a current mapping and agrees with its translation and
      permissions. */
  ghost function After(ops: seq<Op>): (s: Space)
    requires InputsOk(ops)
    ensures Wf(s.maps) && NoStale(s.maps, s.pages)
  {
    if ops == [] then Space(map[], map[])
    else
      var s := After(ops[..|ops| - 1]);
      PerformKeeps(s, ops[|ops| - 1]);
      Perform(s, ops[|ops| - 1])
  }
}
