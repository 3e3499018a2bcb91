/** Task::free_pages on address spaces: what really goes away. */
module FreePages {
  import opened Base
  import opened Vmem
  import opened AddressSpace
  import opened FixedInsert

  /** One turn of the loop at page q: the whole mapping containing q is removed; its part before q is put
      back on the first turn, its part after the page of q on the last. */
  ghost function FreeStep(m: Maps, q: nat, first: bool, last: bool): Maps
    requires Wf(m)
  {
    FindCorrect(m, q);
    match Find(m, q)
    case None => m
    case Some(k) =>
      var c := m - {k};
      var c1 := if first && k < q then c[k := Slice(m[k], k, q - 1)] else c;
      if last && m[k].vmarea.end > q + PAGE_SIZE - 1
      then c1[q + PAGE_SIZE := Slice(m[k], q + PAGE_SIZE, m[k].vmarea.end)] else c1
  }

  /** What one turn does to the meaning: the mapping of q is forgotten outside the parts put back. */
  ghost function StepMeaning(m: Maps, q: nat, first: bool, last: bool, v: nat): Option<Cell> {
    if exists k :: Covers(m, k, q) && Covers(m, k, v) && !(first && v < q) && !(last && v >= q + PAGE_SIZE)
    then None else Meaning(m, v)
  }

  lemma StepIs(m: Maps, q: nat, first: bool, last: bool, v: nat)
    requires Wf(m) && Aligned(q)
    ensures Wf(FreeStep(m, q, first, last))
    ensures Meaning(FreeStep(m, q, first, last), v) == StepMeaning(m, q, first, last, v)
  {
    FindCorrect(m, q);
    if Find(m, q).None? {
      assert forall k :: !Covers(m, k, q);
    } else {
      StepAt(m, q, Find(m, q).value, first, last, v);
    }
  }

  lemma StepAt(m: Maps, q: nat, k: nat, first: bool, last: bool, v: nat)
    requires Wf(m) && Aligned(q) && Covers(m, k, q) && Find(m, q) == Some(k)
    ensures Wf(FreeStep(m, q, first, last))
    ensures Meaning(FreeStep(m, q, first, last), v) == StepMeaning(m, q, first, last, v)
  {
    var c := m - {k};
    var c1 := if first && k < q then c[k := Slice(m[k], k, q - 1)] else c;
    RemoveMeaning(m, k, v);
    HeadBack(m, k, q, v);
    TailBack(m, c1, k, q, v);
    StepMeaningAt(m, q, k, first, last, v);
  }

  lemma StepMeaningAt(m: Maps, q: nat, k: nat, first: bool, last: bool, v: nat)
    requires Wf(m) && Covers(m, k, q)
    ensures StepMeaning(m, q, first, last, v) ==
            if m[k].vmarea.Has(v) && !(first && v < q) && !(last && v >= q + PAGE_SIZE) then None else Meaning(m, v)
    ensures m[k].vmarea.Has(v) ==> Meaning(m, v) == Some(CellAt(m[k], v))
  {
    MeaningAt(m, k, q);
    if Covers(m, k, v) { MeaningAt(m, k, v); }
  }

  lemma HeadBack(m: Maps, k: nat, q: nat, v: nat)
    requires Wf(m) && Covers(m, k, q) && Aligned(q)
    ensures k < q ==> Wf((m - {k})[k := Slice(m[k], k, q - 1)])
    ensures k < q ==> Meaning((m - {k})[k := Slice(m[k], k, q - 1)], v) ==
                      if k <= v < q then Some(CellAt(m[k], v)) else Meaning(m - {k}, v)
  {
    if k < q {
      SliceWf(m[k], k, q - 1);
      RemoveMeaning(m, k, v);
      PartFree(m, k, MemoryArea(k, q - 1));
      AddMeaning(m - {k}, Slice(m[k], k, q - 1), v);
    }
  }

  lemma PartFree(m: Maps, k: nat, a: MemoryArea)
    requires Wf(m) && k in m && m[k].vmarea.start <= a.start <= a.end <= m[k].vmarea.end
    ensures Free(m - {k}, a)
  {
    forall j | j in m - {k} ensures !Overlap((m - {k})[j].vmarea, a) {
      assert j < k || k < j;
    }
  }

  lemma TailFree(m: Maps, c1: Maps, k: nat, q: nat, a: MemoryArea)
    requires Wf(m) && k in m && q + PAGE_SIZE <= a.start <= a.end <= m[k].vmarea.end && m[k].vmarea.start <= a.start
    requires c1 == m - {k} || (k < q <= m[k].vmarea.end && c1 == (m - {k})[k := Slice(m[k], k, q - 1)])
    ensures Free(c1, a)
  {
    PartFree(m, k, a);
    forall j | j in c1 ensures !Overlap(c1[j].vmarea, a) {
      if j != k { assert j in m - {k} && (m - {k})[j] == c1[j]; }
    }
  }

  lemma TailWf(a: VirtualMemoryMap, q: nat)
    requires MapWf(a) && a.vmarea.start <= q && Aligned(q) && a.vmarea.end > q + PAGE_SIZE - 1
    ensures MapWf(Slice(a, q + PAGE_SIZE, a.vmarea.end))
    ensures forall v :: q + PAGE_SIZE <= v <= a.vmarea.end ==> CellAt(Slice(a, q + PAGE_SIZE, a.vmarea.end), v) == CellAt(a, v)
  {
    AlignedEnd(a);
    AlignedSum(q, PAGE_SIZE);
    SliceWf(a, q + PAGE_SIZE, a.vmarea.end);
  }

  lemma TailBack(m: Maps, c1: Maps, k: nat, q: nat, v: nat)
    requires Wf(m) && Covers(m, k, q) && Aligned(q) && Wf(c1)
    requires c1 == m - {k} || (k < q && c1 == (m - {k})[k := Slice(m[k], k, q - 1)])
    ensures m[k].vmarea.end > q + PAGE_SIZE - 1 ==>
              var t := Slice(m[k], q + PAGE_SIZE, m[k].vmarea.end);
              && Wf(c1[q + PAGE_SIZE := t])
              && Meaning(c1[q + PAGE_SIZE := t], v) ==
                 if q + PAGE_SIZE <= v <= m[k].vmarea.end then Some(CellAt(m[k], v)) else Meaning(c1, v)
  {
    if m[k].vmarea.end > q + PAGE_SIZE - 1 {
      TailWf(m[k], q);
      var t := Slice(m[k], q + PAGE_SIZE, m[k].vmarea.end);
      TailFree(m, c1, k, q, t.vmarea);
      AddMeaning(c1, t, v);
    }
  }

  // ----- the whole loop --------------------------------------------------------------

  /** The turns for the n pages from q on. */
  ghost function FreeFrom(m: Maps, q: nat, n: nat, first: bool): (r: Maps)
    requires Wf(m) && Aligned(q)
    decreases n
  {
    if n == 0 then m
    else
      StepIs(m, q, first, n == 1, 0);
      FreeFrom(FreeStep(m, q, first, n == 1), q + PAGE_SIZE, n - 1, false)
  }

  ghost function Freed(m: Maps, base: nat, n: nat): Maps
    requires Wf(m) && Aligned(base)
  {
    FreeFrom(m, base, n, true)
  }

  /** No mapping reaches from below a over a. */
  ghost predicate Split(m: Maps, a: nat) {
    forall k :: k in m && k < a ==> m[k].vmarea.end < a
  }

  /** v lies in a mapping that starts in [low, last). */
  ghost predicate Swept(m: Maps, v: nat, low: nat, last: int) {
    exists k: nat :: Covers(m, k, v) && low <= k < last
  }

  /** Once no mapping reaches over q, the turn at q removes the mapping that starts there. */
  lemma LaterIs(m: Maps, q: nat, last: bool)
    requires Wf(m) && Aligned(q) && Split(m, q)
    ensures FreeStep(m, q, false, last) ==
            if q !in m then m
            else if last && m[q].vmarea.end > q + PAGE_SIZE - 1
            then (m - {q})[q + PAGE_SIZE := Slice(m[q], q + PAGE_SIZE, m[q].vmarea.end)]
            else m - {q}
  {
    FindCorrect(m, q);
    if q in m { assert Covers(m, q, q); MeaningAt(m, q, q); }
  }

  lemma SplitNext(m: Maps, q: nat)
    requires Wf(m) && Aligned(q) && Split(m, q)
    ensures Split(m - {q}, q + PAGE_SIZE)
  {
    forall k | k in m - {q} && k < q + PAGE_SIZE ensures (m - {q})[k].vmarea.end < q + PAGE_SIZE {
      if k > q { PageStep(q, k); }
    }
  }

  lemma SweptIs(m: Maps, k: nat, v: nat, low: nat, last: int)
    requires Wf(m) && Covers(m, k, v)
    ensures Swept(m, v, low, last) <==> low <= k < last
  {
    MeaningAt(m, k, v);
  }

  lemma SweptNext(m: Maps, q: nat, end: nat, v: nat)
    requires Wf(m) && Aligned(q) && q + PAGE_SIZE < end && q + PAGE_SIZE <= v && q in m
    ensures Swept(m, v, q, end - PAGE_SIZE) <==> Covers(m, q, v) || Swept(m - {q}, v, q + PAGE_SIZE, end - PAGE_SIZE)
  {
    RemoveMeaning(m, q, v);
    if k: nat :| Covers(m, k, v) {
      SweptIs(m, k, v, q, end - PAGE_SIZE);
      if k != q {
        assert Covers(m - {q}, k, v);
        SweptIs(m - {q}, k, v, q + PAGE_SIZE, end - PAGE_SIZE);
        if k > q { PageStep(q, k); }
        MeaningAt(m, k, v);
      }
    } else {
      assert forall k :: Covers(m - {q}, k, v) ==> Covers(m, k, v);
    }
  }

  lemma SweptFrom(m: Maps, q: nat, end: nat, v: nat)
    requires Wf(m) && Aligned(q) && q !in m
    ensures Swept(m, v, q, end - PAGE_SIZE) <==> Swept(m, v, q + PAGE_SIZE, end - PAGE_SIZE)
  {
    if k: nat :| Covers(m, k, v) {
      SweptIs(m, k, v, q, end - PAGE_SIZE);
      SweptIs(m, k, v, q + PAGE_SIZE, end - PAGE_SIZE);
      if k > q { PageStep(q, k); }
    }
  }

  /** A mapping that has an address of a page has the whole page. */
  lemma WholePage(m: Maps, q: nat, k: nat, v: nat)
    requires Wf(m) && Aligned(q) && q <= v < q + PAGE_SIZE && Covers(m, k, v)
    ensures Covers(m, k, q) && q + PAGE_SIZE - 1 <= m[k].vmarea.end
  {
    assert MapWf(m[k]);
    AlignedEnd(m[k]);
  }

  lemma LaterTurn(m: Maps, q: nat, last: bool, v: nat)
    requires Wf(m) && Aligned(q) && Split(m, q)
    ensures StepMeaning(m, q, false, last, v) ==
            if q <= v < q + PAGE_SIZE || (!last && Covers(m, q, v)) then None else Meaning(m, v)
  {
    forall k: nat | Covers(m, k, q) ensures k == q { }
    if Covers(m, q, v) { assert Covers(m, q, q); }
    if q <= v < q + PAGE_SIZE {
      forall k: nat | Covers(m, k, v) ensures k == q { WholePage(m, q, k, v); }
      if !Covers(m, q, v) { MeaningNone(m, v); }
    }
  }

  /** Gone are the freed pages and, above them, what lies in a mapping starting before the last page. */
  ghost predicate Gone(m: Maps, q: nat, end: nat, v: nat) {
    q <= v < end || (end <= v && Swept(m, v, q, end - PAGE_SIZE))
  }

  ghost function Left(m: Maps, q: nat, end: nat, v: nat): Option<Cell> {
    if Gone(m, q, end, v) then None else Meaning(m, v)
  }

  lemma TurnLeft(m: Maps, q: nat, end: nat, v: nat)
    requires Wf(m) && Aligned(q) && Aligned(end) && Split(m, q) && q + PAGE_SIZE < end
    ensures Wf(m - {q}) && Split(m - {q}, q + PAGE_SIZE)
    ensures FreeStep(m, q, false, false) == m - {q}
    ensures Left(m - {q}, q + PAGE_SIZE, end, v) == Left(m, q, end, v)
  {
    StepIs(m, q, false, false, v);
    LaterIs(m, q, false);
    LaterTurn(m, q, false, v);
    SplitNext(m, q);
    if q in m {
      if v >= end { SweptNext(m, q, end, v); }
    } else {
      assert m - {q} == m;
      if v >= end { SweptFrom(m, q, end, v); }
    }
  }

  lemma LastLeft(m: Maps, q: nat, v: nat)
    requires Wf(m) && Aligned(q) && Split(m, q)
    ensures Wf(FreeStep(m, q, false, true))
    ensures Meaning(FreeStep(m, q, false, true), v) == Left(m, q, q + PAGE_SIZE, v)
  {
    StepIs(m, q, false, true, v);
    LaterTurn(m, q, true, v);
  }

  /** What the turns after the first leave of v. */
  lemma {:induction false} FromLeaves(m: Maps, q: nat, n: nat, v: nat)
    requires Wf(m) && Aligned(q) && Split(m, q) && n > 0
    ensures Wf(FreeFrom(m, q, n, false))
    ensures Meaning(FreeFrom(m, q, n, false), v) == Left(m, q, q + n * PAGE_SIZE, v)
    decreases n
  {
    if n == 1 {
      LastLeft(m, q, v);
    } else {
      TurnLeft(m, q, q + n * PAGE_SIZE, v);
      FromLeaves(m - {q}, q + PAGE_SIZE, n - 1, v);
    }
  }

  // ----- the first turn --------------------------------------------------------------

  /** m1 has the mappings of m that miss q, and possibly the head of the one that has q. */
  ghost predicate Opened(m: Maps, m1: Maps, q: nat) {
    && (forall k: nat {:trigger k in m1} :: k in m1 ==> (k in m && m1[k] == m[k] && !Covers(m, k, q)) || (k < q && m1[k].vmarea.end < q))
    && (forall k: nat {:trigger k in m} :: k in m && !Covers(m, k, q) ==> k in m1 && m1[k] == m[k])
  }

  lemma FirstIs(m: Maps, q: nat)
    requires Wf(m) && Aligned(q)
    ensures Opened(m, FreeStep(m, q, true, false), q)
  {
    FindCorrect(m, q);
    if Find(m, q).Some? { MeaningAt(m, Find(m, q).value, q); }
  }

  /** After the first of several turns nothing reaches into the second page. */
  lemma FirstSplit(m: Maps, m1: Maps, q: nat)
    requires Wf(m) && Aligned(q) && Opened(m, m1, q)
    ensures Split(m1, q + PAGE_SIZE)
  {
    forall k | k in m1 && k < q + PAGE_SIZE ensures m1[k].vmarea.end < q + PAGE_SIZE {
      if k > q { PageStep(q, k); }
    }
  }

  /** Task::free_pages on n >= 1 pages from base: the pages go, addresses below stay, and an address
      above goes exactly when its mapping starts before the last freed page. */
  lemma FreedMeaning(m: Maps, base: nat, n: nat, v: nat)
    requires Wf(m) && Aligned(base) && n > 0
    ensures Wf(Freed(m, base, n))
    ensures Meaning(Freed(m, base, n), v) ==
            if base <= v < base + n * PAGE_SIZE || (v >= base + n * PAGE_SIZE && n > 1 && Swept(m, v, 0, base + n * PAGE_SIZE - PAGE_SIZE))
            then None else Meaning(m, v)
  {
    if n == 1 { FreedOne(m, base, v); } else { FreedMany(m, base, n, v); }
  }

  lemma FreedOne(m: Maps, base: nat, v: nat)
    requires Wf(m) && Aligned(base)
    ensures Wf(Freed(m, base, 1))
    ensures Meaning(Freed(m, base, 1), v) == if base <= v < base + PAGE_SIZE then None else Meaning(m, v)
  {
    StepIs(m, base, true, true, v);
    FirstOnly(m, base, v);
  }

  lemma FreedMany(m: Maps, base: nat, n: nat, v: nat)
    requires Wf(m) && Aligned(base) && n > 1
    ensures Wf(Freed(m, base, n))
    ensures Meaning(Freed(m, base, n), v) ==
            if base <= v < base + n * PAGE_SIZE || (v >= base + n * PAGE_SIZE && Swept(m, v, 0, base + n * PAGE_SIZE - PAGE_SIZE))
            then None else Meaning(m, v)
  {
    FirstTurn(m, base, v);
    PageEnds(base, n);
    RestFreed(m, FreeStep(m, base, true, false), base, base + PAGE_SIZE, n - 1, base + n * PAGE_SIZE, v);
  }

  lemma PageEnds(base: nat, n: nat)
    requires Aligned(base)
    ensures Aligned(base + PAGE_SIZE) && Aligned(base + n * PAGE_SIZE)
  {
  }

  /** The turns after the first, on what the first has left. */
  lemma RestFreed(m: Maps, m1: Maps, base: nat, q: nat, n: nat, end: nat, v: nat)
    requires Wf(m) && Aligned(base) && Aligned(q) && Aligned(end) && n > 0 && q == base + PAGE_SIZE && end == q + n * PAGE_SIZE
    requires Wf(m1) && Opened(m, m1, base) && Split(m1, q) && Meaning(m1, v) == StepMeaning(m, base, true, false, v)
    ensures Wf(FreeFrom(m1, q, n, false))
    ensures Meaning(FreeFrom(m1, q, n, false), v) ==
            if base <= v < end || (v >= end && Swept(m, v, 0, end - PAGE_SIZE)) then None else Meaning(m, v)
  {
    FromLeaves(m1, q, n, v);
    FirstLeft(m, m1, base, end, v);
  }

  lemma FirstTurn(m: Maps, base: nat, v: nat)
    requires Wf(m) && Aligned(base)
    ensures var m1 := FreeStep(m, base, true, false);
            && Wf(m1) && Opened(m, m1, base) && Split(m1, base + PAGE_SIZE)
            && Meaning(m1, v) == StepMeaning(m, base, true, false, v)
  {
    StepIs(m, base, true, false, v);
    FirstIs(m, base);
    FirstSplit(m, FreeStep(m, base, true, false), base);
  }

  lemma FirstOnly(m: Maps, q: nat, v: nat)
    requires Wf(m) && Aligned(q)
    ensures StepMeaning(m, q, true, true, v) == if q <= v < q + PAGE_SIZE then None else Meaning(m, v)
  {
    if q <= v < q + PAGE_SIZE {
      if k: nat :| Covers(m, k, v) { WholePage(m, q, k, v); } else { MeaningNone(m, v); }
    }
  }

  lemma FirstLeft(m: Maps, m1: Maps, q: nat, end: nat, v: nat)
    requires Wf(m) && Aligned(q) && Aligned(end) && q + PAGE_SIZE < end
    requires Opened(m, m1, q) && Wf(m1) && Meaning(m1, v) == StepMeaning(m, q, true, false, v)
    ensures Left(m1, q + PAGE_SIZE, end, v) ==
            if q <= v < end || (v >= end && Swept(m, v, 0, end - PAGE_SIZE)) then None else Meaning(m, v)
  {
    if q <= v < q + PAGE_SIZE {
      if k: nat :| Covers(m, k, v) { WholePage(m, q, k, v); } else { MeaningNone(m, v); }
    } else if v >= end {
      if k: nat :| Covers(m, k, v) {
        MeaningAt(m, k, v);
        FirstSwept(m, m1, q, end, k, v);
      }
    }
  }

  lemma FirstSwept(m: Maps, m1: Maps, q: nat, end: nat, k: nat, v: nat)
    requires Wf(m) && Wf(m1) && Aligned(q) && Opened(m, m1, q) && q + PAGE_SIZE < end <= v && Covers(m, k, v)
    ensures k <= q ==> Covers(m, k, q)
    ensures Swept(m, v, 0, end - PAGE_SIZE) <==> k < end - PAGE_SIZE
    ensures k > q ==> (Swept(m1, v, q + PAGE_SIZE, end - PAGE_SIZE) <==> k < end - PAGE_SIZE)
  {
    SweptIs(m, k, v, 0, end - PAGE_SIZE);
    if k > q {
      PageStep(q, k);
      assert Covers(m1, k, v);
      SweptIs(m1, k, v, q + PAGE_SIZE, end - PAGE_SIZE);
    }
  }

  // ----- exactness -------------------------------------------------------------------

  /** Some mapping starts before the last freed page and reaches beyond it. */
  ghost predicate TailLost(m: Maps, base: nat, n: nat) {
    n > 1 && exists k :: k in m && k < base + n * PAGE_SIZE - PAGE_SIZE && m[k].vmarea.end >= base + n * PAGE_SIZE
  }

  /** Exactly the n pages from base on are gone. */
  ghost predicate FreesExactly(m: Maps, base: nat, n: nat)
    requires Wf(m) && Aligned(base)
  {
    forall v: nat :: Meaning(Freed(m, base, n), v) == if base <= v < base + n * PAGE_SIZE then None else Meaning(m, v)
  }

  /** free_pages removes exactly the pages asked for unless several pages are freed and a mapping reaches
      over the last two of them and beyond: the part of that mapping above the range is lost as well. */
  lemma FreesExactlyIff(m: Maps, base: nat, n: nat)
    requires Wf(m) && Aligned(base)
    ensures FreesExactly(m, base, n) <==> !TailLost(m, base, n)
  {
    if n == 0 {
      assert Freed(m, base, n) == m;
    } else {
      var end := base + n * PAGE_SIZE;
      if TailLost(m, base, n) {
        var k :| k in m && k < end - PAGE_SIZE && m[k].vmarea.end >= end;
        assert Covers(m, k, end);
        MeaningAt(m, k, end);
        FreedMeaning(m, base, n, end);
      } else {
        forall v: nat ensures Meaning(Freed(m, base, n), v) == if base <= v < end then None else Meaning(m, v) {
          FreedMeaning(m, base, n, v);
        }
      }
    }
  }

  /** One mapping of four pages, of which the first two are freed: the other two are lost with them. */
  lemma TailLostExample()
    ensures var m := map[0x1000 := VirtualMemoryMap(MemoryArea(0x8000_0000, 0x8000_3fff), MemoryArea(0x1000, 0x4fff), 0xb, false)];
            Wf(m) && TailLost(m, 0x1000, 2) && Meaning(m, 0x3000).Some? && Meaning(Freed(m, 0x1000, 2), 0x3000).None?
  {
    var m := map[0x1000 := VirtualMemoryMap(MemoryArea(0x8000_0000, 0x8000_3fff), MemoryArea(0x1000, 0x4fff), 0xb, false)];
    assert Covers(m, 0x1000, 0x3000);
    MeaningAt(m, 0x1000, 0x3000);
    FreedMeaning(m, 0x1000, 2, 0x3000);
  }
}
