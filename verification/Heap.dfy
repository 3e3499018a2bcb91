/** The program break: Task::set_brk over allocate_data_pages and free_data_pages. */
module Heap {
  import opened Base
  import opened Vmem
  import opened AddressSpace
  import opened FixedInsert
  import opened FreePages

  const DATA_PERMISSIONS: nat := 0xb   // read, write, user

  /** What set_brk works on. */
  datatype HeapState = HeapState(maps: Maps, brk: Option<nat>, textSize: nat, dataSize: nat) {
    function GetBrk(): nat { if brk.None? then textSize + dataSize else brk.value }
  }

  datatype Outcome = Done(state: HeapState) | InvalidAddress | Panicked

  /** The mapping allocate_pages makes for n pages at vaddr backed by frames from frame on. */
  function PageRun(vaddr: nat, n: nat, frame: nat, permissions: nat): VirtualMemoryMap
    requires n > 0
  {
    VirtualMemoryMap(MemoryArea(frame, frame + n * PAGE_SIZE - 1), MemoryArea(vaddr, vaddr + n * PAGE_SIZE - 1), permissions, false)
  }

  function PagesBetween(low: nat, high: nat): nat
    requires low <= high
  {
    (high - low) / PAGE_SIZE
  }

  ghost function Shrunk(s: HeapState, b: nat): Outcome
    requires Wf(s.maps) && b < s.GetBrk()
  {
    RoundUpIs(b);
    RoundUpIs(s.GetBrk());
    var n := PagesBetween(RoundUp(b), RoundUp(s.GetBrk()));
    if s.dataSize < n * PAGE_SIZE then Panicked
    else Done(s.(maps := Freed(s.maps, RoundUp(b), n), dataSize := s.dataSize - n * PAGE_SIZE, brk := Some(b)))
  }

  ghost function Grown(s: HeapState, b: nat, frame: nat): Outcome
    requires s.GetBrk() < b
  {
    RoundUpIs(b);
    RoundUpIs(s.GetBrk());
    var low := RoundUp(s.GetBrk());
    var n := PagesBetween(low, RoundUp(b));
    if n == 0 || Find(s.maps, low).Some? then Done(s.(brk := Some(b)))
    else
      var run := PageRun(low, n, frame, DATA_PERMISSIONS);
      if Free(s.maps, run.vmarea)
      then Done(s.(maps := s.maps[low := run], dataSize := s.dataSize + n * PAGE_SIZE, brk := Some(b)))
      else Panicked
  }

  /** set_brk(b), with the frames the allocator would hand out. */
  ghost function SetBrk(s: HeapState, b: nat, frame: nat): Outcome
    requires Wf(s.maps)
  {
    if b < s.textSize then InvalidAddress
    else if b < s.GetBrk() then Shrunk(s, b)
    else if b > s.GetBrk() then Grown(s, b, frame)
    else Done(s.(brk := Some(b)))
  }

  // ----- exactness -------------------------------------------------------------------

  /** The address space m0 with exactly the pages [low, high) of the region [low, top) mapped. */
  ghost predicate Exact(m0: Maps, m: Maps, low: nat, high: nat, top: nat) {
    && Wf(m)
    && (forall v: nat :: v < low || top <= v ==> Meaning(m, v) == Meaning(m0, v))
    && (forall v :: low <= v < high ==> Meaning(m, v).Some?)
    && (forall v :: high <= v < top ==> Meaning(m, v).None?)
    && (low < top ==> Split(m, top))
  }

  /** The heap that started with break b0 and data size d0 in m0, in a region up to top. */
  ghost predicate HeapOk(start: HeapState, s: HeapState, top: nat) {
    && Aligned(top)
    && RoundUp(start.GetBrk()) <= RoundUp(s.GetBrk()) <= top
    && Exact(start.maps, s.maps, RoundUp(start.GetBrk()), RoundUp(s.GetBrk()), top)
    && s.dataSize == start.dataSize + (RoundUp(s.GetBrk()) - RoundUp(start.GetBrk()))
    && s.textSize == start.textSize
  }

  lemma PagesExact(low: nat, high: nat)
    requires Aligned(low) && Aligned(high) && low <= high
    ensures PagesBetween(low, high) * PAGE_SIZE == high - low
  {
  }

  /** An unmapped region is where the heap starts. */
  lemma HeapStart(s: HeapState, top: nat)
    requires Wf(s.maps) && Aligned(top) && RoundUp(s.GetBrk()) <= top
    requires forall v :: RoundUp(s.GetBrk()) <= v < top ==> Meaning(s.maps, v).None?
    ensures HeapOk(s, s, top)
  {
    var low := RoundUp(s.GetBrk());
    if low < top {
      forall k | k in s.maps && k < top ensures s.maps[k].vmarea.end < top {
        if s.maps[k].vmarea.end >= top {
          assert Covers(s.maps, k, top - 1);
          MeaningAt(s.maps, k, top - 1);
          assert false;
        }
      }
    }
  }

  lemma ShrinkExact(m0: Maps, m: Maps, low: nat, mid: nat, high: nat, top: nat)
    requires Aligned(low) && Aligned(mid) && Aligned(high) && low <= mid < high <= top && Exact(m0, m, low, high, top)
    ensures var n := PagesBetween(mid, high); n > 0 && FreesExactly(m, mid, n) && Exact(m0, Freed(m, mid, n), low, mid, top)
  {
    var n := PagesBetween(mid, high);
    PagesExact(mid, high);
    NoTail(m, mid, n, high, top);
    FreesExactlyIff(m, mid, n);
    FreedMeaning(m, mid, n, 0);
    FreedSplit(m, mid, n, top);
  }

  lemma NoTail(m: Maps, mid: nat, n: nat, high: nat, top: nat)
    requires Wf(m) && high == mid + n * PAGE_SIZE <= top && Split(m, top)
    requires forall v :: high <= v < top ==> Meaning(m, v).None?
    ensures !TailLost(m, mid, n)
  {
    if TailLost(m, mid, n) {
      var k :| k in m && k < high - PAGE_SIZE && m[k].vmarea.end >= high;
      assert Covers(m, k, high);
      MeaningAt(m, k, high);
      assert false;
    }
  }

  lemma FreedSplit(m: Maps, mid: nat, n: nat, top: nat)
    requires Wf(m) && Aligned(mid) && n > 0 && mid < top && Wf(Freed(m, mid, n)) && FreesExactly(m, mid, n)
    requires mid + n * PAGE_SIZE <= top && Split(m, top)
    requires forall v :: mid + n * PAGE_SIZE <= v < top ==> Meaning(m, v).None?
    ensures Split(Freed(m, mid, n), top)
  {
    var m1 := Freed(m, mid, n);
    forall k | k in m1 && k < top ensures m1[k].vmarea.end < top {
      if m1[k].vmarea.end >= top {
        assert Covers(m1, k, top - 1);
        MeaningAt(m1, k, top - 1);
        assert false;
      }
    }
  }

  lemma GrowExact(m0: Maps, m: Maps, low: nat, high: nat, n: nat, top: nat, frame: nat, v: nat)
    requires Aligned(high) && n > 0 && low <= high && high + n * PAGE_SIZE <= top < ADDRESS_LIMIT && Exact(m0, m, low, high, top)
    requires Aligned(frame) && frame + n * PAGE_SIZE <= ADDRESS_LIMIT
    ensures var run := PageRun(high, n, frame, DATA_PERMISSIONS);
            && MapWf(run) && Free(m, run.vmarea) && Find(m, high).None?
            && Meaning(m[high := run], v) == (if run.vmarea.Has(v) then Some(CellAt(run, v)) else Meaning(m, v))
            && Exact(m0, m[high := run], low, high + n * PAGE_SIZE, top)
  {
    var run := PageRun(high, n, frame, DATA_PERMISSIONS);
    RunFree(m, run.vmarea);
    FindCorrect(m, high);
    AddMeaning(m, run, v);
    var m1 := m[high := run];
    forall u: nat ensures Meaning(m1, u) == if run.vmarea.Has(u) then Some(CellAt(run, u)) else Meaning(m, u) {
      AddMeaning(m, run, u);
    }
    forall u | low <= u < high + n * PAGE_SIZE ensures Meaning(m1, u).Some? {
      if u < high { assert Meaning(m1, u) == Meaning(m, u); }
      else { assert Meaning(m1, u) == Some(CellAt(run, u)); }
    }
  }

  lemma RunFree(m: Maps, a: MemoryArea)
    requires Wf(m) && a.start <= a.end && forall v :: a.Has(v) ==> Meaning(m, v).None?
    ensures Free(m, a)
  {
    forall k | k in m ensures !Overlap(m[k].vmarea, a) {
      if Overlap(m[k].vmarea, a) {
        var v := Max(k, a.start);
        assert Covers(m, k, v);
        MeaningAt(m, k, v);
        assert false;
      }
    }
  }

  /** The frames the allocator hands out for growing to b lie in the physical address space. */
  ghost predicate FramesOk(s: HeapState, b: nat, frame: nat) {
    s.GetBrk() < b ==> Aligned(frame) && frame + (RoundUp(b) - RoundUp(s.GetBrk())) < ADDRESS_LIMIT
  }

  /** Addresses below both breaks keep their translation, permissions and sharing. */
  ghost predicate KeepsBelow(s: HeapState, t: HeapState) {
    forall v: nat :: v < RoundUp(s.GetBrk()) && v < RoundUp(t.GetBrk()) ==> Meaning(t.maps, v) == Meaning(s.maps, v)
  }

  /** One set_brk at or above the initial break and inside the region: it fails exactly below the text
      size, never panics, moves the mapped heap to exactly the rounded-up break, keeps the accounting and
      keeps the translation of every address that stays mapped. */
  lemma BrkExact(start: HeapState, s: HeapState, top: nat, b: nat, frame: nat)
    requires HeapOk(start, s, top) && start.GetBrk() <= b && RoundUp(b) <= top < ADDRESS_LIMIT && FramesOk(s, b, frame)
    ensures SetBrk(s, b, frame).InvalidAddress? <==> b < s.textSize
    ensures b >= s.textSize ==>
              && SetBrk(s, b, frame).Done?
              && var t := SetBrk(s, b, frame).state; t.brk == Some(b) && HeapOk(start, t, top) && KeepsBelow(s, t)
  {
    if b >= s.textSize {
      RoundUpIs(b);
      RoundUpIs(s.GetBrk());
      RoundUpIs(start.GetBrk());
      if b < s.GetBrk() { ShrinkStep(start, s, top, b); }
      else if b > s.GetBrk() { GrowStep(start, s, top, b, frame); }
    }
  }

  lemma ShrinkStep(start: HeapState, s: HeapState, top: nat, b: nat)
    requires HeapOk(start, s, top) && start.GetBrk() <= b < s.GetBrk()
    ensures Shrunk(s, b).Done?
    ensures HeapOk(start, Shrunk(s, b).state, top) && KeepsBelow(s, Shrunk(s, b).state)
  {
    var low, mid, high := RoundUp(start.GetBrk()), RoundUp(b), RoundUp(s.GetBrk());
    RoundUpIs(b);
    RoundUpIs(s.GetBrk());
    RoundUpIs(start.GetBrk());
    PagesExact(mid, high);
    if mid < high {
      ShrinkExact(start.maps, s.maps, low, mid, high, top);
    } else {
      assert Freed(s.maps, mid, 0) == s.maps;
    }
  }

  lemma GrowStep(start: HeapState, s: HeapState, top: nat, b: nat, frame: nat)
    requires HeapOk(start, s, top) && s.GetBrk() < b && RoundUp(b) <= top < ADDRESS_LIMIT && FramesOk(s, b, frame)
    ensures Grown(s, b, frame).Done?
    ensures HeapOk(start, Grown(s, b, frame).state, top) && KeepsBelow(s, Grown(s, b, frame).state)
  {
    var low, high := RoundUp(start.GetBrk()), RoundUp(s.GetBrk());
    RoundUpIs(b);
    RoundUpIs(s.GetBrk());
    RoundUpIs(start.GetBrk());
    PagesExact(high, RoundUp(b));
    var n := PagesBetween(high, RoundUp(b));
    if n > 0 {
      forall v: nat | v < high ensures Meaning(s.maps[high := PageRun(high, n, frame, DATA_PERMISSIONS)], v) == Meaning(s.maps, v) {
        GrowExact(start.maps, s.maps, low, high, n, top, frame, v);
      }
      GrowExact(start.maps, s.maps, low, high, n, top, frame, 0);
    }
  }

  // ----- every sequence of calls -----------------------------------------------------

  datatype BrkCall = BrkCall(b: nat, frame: nat)

  ghost predicate BrkStep(s: HeapState, c: BrkCall, t: HeapState) {
    && Wf(s.maps) && FramesOk(s, c.b, c.frame)
    && t == (if SetBrk(s, c.b, c.frame).Done? then SetBrk(s, c.b, c.frame).state else s)
  }

  ghost predicate BrkRun(states: seq<HeapState>, calls: seq<BrkCall>) {
    && |states| == |calls| + 1
    && forall i :: 0 <= i < |calls| ==> BrkStep(states[i], calls[i], states[i + 1])
  }

  /** The region from the first break up to top is unmapped at first, and every call stays inside it. */
  ghost predicate InRegion(start: HeapState, calls: seq<BrkCall>, top: nat) {
    && Wf(start.maps) && Aligned(top) && RoundUp(start.GetBrk()) <= top < ADDRESS_LIMIT
    && (forall v :: RoundUp(start.GetBrk()) <= v < top ==> Meaning(start.maps, v).None?)
    && (forall j :: 0 <= j < |calls| ==> start.GetBrk() <= calls[j].b && RoundUp(calls[j].b) <= top)
  }

  /** Heap exactness: from a state whose region above the break is unmapped, after any sequence of
      set_brk values at or above the initial break and inside the region, the mapped heap pages are
      exactly those up to the rounded-up break and data_size has moved by exactly that much. No call
      of the sequence panics. */
  lemma {:induction false} HeapExact(states: seq<HeapState>, calls: seq<BrkCall>, top: nat, i: nat)
    requires BrkRun(states, calls) && i < |states| && InRegion(states[0], calls, top)
    ensures HeapOk(states[0], states[i], top)
    ensures i < |calls| ==> !SetBrk(states[i], calls[i].b, calls[i].frame).Panicked?
  {
    if i == 0 {
      HeapStart(states[0], top);
    } else {
      HeapExact(states, calls, top, i - 1);
      assert BrkStep(states[i - 1], calls[i - 1], states[i]);
      BrkExact(states[0], states[i - 1], top, calls[i - 1].b, calls[i - 1].frame);
    }
    if i < |calls| {
      assert BrkStep(states[i], calls[i], states[i + 1]);
      BrkExact(states[0], states[i], top, calls[i].b, calls[i].frame);
    }
  }

  ghost predicate BelowAll(states: seq<HeapState>, i: nat, j: nat, v: nat)
    requires i <= j < |states|
  {
    forall k :: i <= k <= j ==> v < RoundUp(states[k].GetBrk())
  }

  lemma {:induction false} KeepChain(states: seq<HeapState>, i: nat, j: nat, v: nat)
    requires i <= j < |states| && BelowAll(states, i, j, v)
    requires forall k :: 0 <= k < |states| - 1 ==> KeepsBelow(states[k], states[k + 1])
    ensures Meaning(states[j].maps, v) == Meaning(states[i].maps, v)
    decreases j
  {
    if i < j {
      KeepChain(states, i, j - 1, v);
      assert KeepsBelow(states[j - 1], states[j - 1 + 1]);
    }
  }

  /** Over any part of such a sequence an address below every rounded-up break keeps its translation,
      permissions and sharing. */
  lemma HeapKeeps(states: seq<HeapState>, calls: seq<BrkCall>, top: nat, i: nat, j: nat, v: nat)
    requires BrkRun(states, calls) && i <= j < |states| && InRegion(states[0], calls, top)
    requires BelowAll(states, i, j, v)
    ensures Meaning(states[j].maps, v) == Meaning(states[i].maps, v)
  {
    forall k | 0 <= k < |states| - 1 ensures KeepsBelow(states[k], states[k + 1]) { CallKeeps(states, calls, top, k); }
    KeepChain(states, i, j, v);
  }

  lemma CallKeeps(states: seq<HeapState>, calls: seq<BrkCall>, top: nat, i: nat)
    requires BrkRun(states, calls) && i < |calls| && InRegion(states[0], calls, top)
    ensures KeepsBelow(states[i], states[i + 1])
  {
    HeapExact(states, calls, top, i);
    assert BrkStep(states[i], calls[i], states[i + 1]);
    BrkExact(states[0], states[i], top, calls[i].b, calls[i].frame);
  }

  /** Growing and shrinking back restores every translation and the data size, however the heap is
      made up of mappings. */
  lemma GrowShrink(start: HeapState, s: HeapState, top: nat, b: nat, frame: nat, v: nat)
    requires HeapOk(start, s, top) && start.GetBrk() <= s.GetBrk() <= b && start.textSize <= s.GetBrk()
    requires RoundUp(b) <= top < ADDRESS_LIMIT && FramesOk(s, b, frame)
    ensures SetBrk(s, b, frame).Done? && Wf(SetBrk(s, b, frame).state.maps)
    ensures var r := SetBrk(SetBrk(s, b, frame).state, s.GetBrk(), frame);
            r.Done? && r.state.dataSize == s.dataSize && Meaning(r.state.maps, v) == Meaning(s.maps, v)
  {
    BrkExact(start, s, top, b, frame);
    var t := SetBrk(s, b, frame).state;
    RoundUpIs(b);
    RoundUpIs(s.GetBrk());
    BrkExact(start, t, top, s.GetBrk(), frame);
    var u := SetBrk(t, s.GetBrk(), frame).state;
    var low, high := RoundUp(start.GetBrk()), RoundUp(s.GetBrk());
    if v < high {
      assert Meaning(t.maps, v) == Meaning(s.maps, v);
    } else if v < top {
      assert Meaning(u.maps, v).None? && Meaning(s.maps, v).None?;
    }
  }

  /** A clone does not inherit brk, only the sizes: its default break rounds up to the parent's. */
  lemma ChildBreak(start: HeapState, s: HeapState, top: nat)
    requires HeapOk(start, s, top) && start.brk.None?
    requires Aligned(start.textSize) && Aligned(start.dataSize)
    ensures RoundUp(s.(brk := None).GetBrk()) == RoundUp(s.GetBrk())
  {
    AlignedSum(start.textSize, start.dataSize);
    RoundUpIs(start.GetBrk());
    RoundUpIs(s.GetBrk());
    RoundUpIs(s.textSize + s.dataSize);
    assert s.textSize + s.dataSize == RoundUp(s.GetBrk());
  }
}
