/** add_memory_map_fixed: overlapping mappings are cut, the new one replaces what it covers. */
module FixedInsert {
  import opened Base
  import opened Vmem
  import opened AddressSpace

  // ----- cutting one mapping -------------------------------------------------------

  /** The sub-mapping of m on the virtual range [start, end]. */
  function Slice(m: VirtualMemoryMap, start: nat, end: nat): VirtualMemoryMap
    requires m.vmarea.start <= start <= end <= m.vmarea.end
  {
    var p := m.pmarea.start + (start - m.vmarea.start);
    VirtualMemoryMap(MemoryArea(p, p + (end - start)), MemoryArea(start, end), m.permissions, m.isShared)
  }

  function Max(a: nat, b: nat): nat { if a < b then b else a }
  function Min(a: nat, b: nat): nat { if a < b then a else b }

  /** The overwritten part of m. */
  function Cut(m: VirtualMemoryMap, n: VirtualMemoryMap): VirtualMemoryMap
    requires Overlap(m.vmarea, n.vmarea) && m.vmarea.start <= m.vmarea.end && n.vmarea.start <= n.vmarea.end
  {
    Slice(m, Max(n.vmarea.start, m.vmarea.start), Min(n.vmarea.end, m.vmarea.end))
  }

  /** The parts of m before and after n; the code takes the last physical end from m itself. */
  function Pieces(m: VirtualMemoryMap, n: VirtualMemoryMap): seq<VirtualMemoryMap>
    requires Overlap(m.vmarea, n.vmarea) && m.vmarea.start <= m.vmarea.end && n.vmarea.start <= n.vmarea.end
  {
    (if m.vmarea.start < n.vmarea.start then [Slice(m, m.vmarea.start, n.vmarea.start - 1)] else [])
    + (if n.vmarea.end < m.vmarea.end then
         var off := n.vmarea.end + 1 - m.vmarea.start;
         [VirtualMemoryMap(MemoryArea(m.pmarea.start + off, m.pmarea.end), MemoryArea(n.vmarea.end + 1, m.vmarea.end),
                           m.permissions, m.isShared)]
       else [])
  }

  /** p is m restricted to the range of p. */
  ghost predicate Restricts(p: VirtualMemoryMap, m: VirtualMemoryMap) {
    && m.vmarea.start <= p.vmarea.start <= p.vmarea.end <= m.vmarea.end
    && p == Slice(m, p.vmarea.start, p.vmarea.end)
  }

  ghost predicate SomeHas(ps: seq<VirtualMemoryMap>, v: nat) { exists i :: 0 <= i < |ps| && ps[i].vmarea.Has(v) }

  lemma SliceWf(m: VirtualMemoryMap, start: nat, end: nat)
    requires MapWf(m) && m.vmarea.start <= start <= end <= m.vmarea.end
    requires Aligned(start) && Aligned(end + 1)
    ensures MapWf(Slice(m, start, end)) && Restricts(Slice(m, start, end), m)
    ensures forall v :: start <= v <= end ==> CellAt(Slice(m, start, end), v) == CellAt(m, v)
  {
    AlignedDifference(m.vmarea.start, start);
    AlignedDifference(start, end + 1);
    AlignedSum(m.pmarea.start, start - m.vmarea.start);
  }

  lemma CutWf(m: VirtualMemoryMap, n: VirtualMemoryMap)
    requires MapWf(m) && MapWf(n) && Overlap(m.vmarea, n.vmarea)
    ensures MapWf(Cut(m, n)) && Restricts(Cut(m, n), m)
    ensures forall v :: Cut(m, n).vmarea.Has(v) <==> m.vmarea.Has(v) && n.vmarea.Has(v)
  {
    AlignedEnd(m);
    AlignedEnd(n);
    SliceWf(m, Max(n.vmarea.start, m.vmarea.start), Min(n.vmarea.end, m.vmarea.end));
  }

  /** The kept pieces are restrictions of m, outside n, and cover all of m outside n. */
  lemma PiecesWf(m: VirtualMemoryMap, n: VirtualMemoryMap)
    requires MapWf(m) && MapWf(n) && Overlap(m.vmarea, n.vmarea)
    ensures forall p :: p in Pieces(m, n) ==> MapWf(p) && Restricts(p, m) && !Overlap(p.vmarea, n.vmarea)
    ensures forall i, j :: 0 <= i < j < |Pieces(m, n)| ==> !Overlap(Pieces(m, n)[i].vmarea, Pieces(m, n)[j].vmarea)
    ensures forall v :: m.vmarea.Has(v) && !n.vmarea.Has(v) ==> SomeHas(Pieces(m, n), v)
  {
    AlignedEnd(m);
    AlignedEnd(n);
    var ps := Pieces(m, n);
    if m.vmarea.start < n.vmarea.start {
      SliceWf(m, m.vmarea.start, n.vmarea.start - 1);
      assert ps[0] == Slice(m, m.vmarea.start, n.vmarea.start - 1);
    }
    if n.vmarea.end < m.vmarea.end {
      SliceWf(m, n.vmarea.end + 1, m.vmarea.end);
      assert ps[|ps| - 1] == Slice(m, n.vmarea.end + 1, m.vmarea.end);
    }
    forall v: nat | m.vmarea.Has(v) && !n.vmarea.Has(v) ensures SomeHas(ps, v) {
      assert ps[if v < n.vmarea.start then 0 else |ps| - 1].vmarea.Has(v);
    }
  }

  /** Sizes add up. */
  function Bytes(ps: seq<VirtualMemoryMap>): nat {
    if ps == [] then 0
    else (if ps[0].vmarea.start <= ps[0].vmarea.end then ps[0].vmarea.Size() else 0) + Bytes(ps[1..])
  }

  lemma {:induction false} BytesConcat(a: seq<VirtualMemoryMap>, b: seq<VirtualMemoryMap>)
    ensures Bytes(a + b) == Bytes(a) + Bytes(b)
  {
    if a == [] {
      assert a + b == b;
    } else {
      assert (a + b)[1..] == a[1..] + b;
      BytesConcat(a[1..], b);
    }
  }

  lemma PiecesBytes(m: VirtualMemoryMap, n: VirtualMemoryMap)
    requires MapWf(m) && MapWf(n) && Overlap(m.vmarea, n.vmarea)
    ensures Bytes([m]) == Bytes([Cut(m, n)]) + Bytes(Pieces(m, n))
  {
    var ps := Pieces(m, n);
    if |ps| == 2 { assert ps == [ps[0]] + [ps[1]]; BytesConcat([ps[0]], [ps[1]]); }
  }

  // ----- the whole operation -------------------------------------------------------

  function OverlapKeys(m: Maps, n: VirtualMemoryMap): set<nat> {
    set k | k in m.Keys && Overlap(m[k].vmarea, n.vmarea)
  }

  ghost predicate Overlapping(m: Maps, keys: seq<nat>, n: VirtualMemoryMap) {
    forall k :: k in keys ==> k in m && MapWf(m[k]) && Overlap(m[k].vmarea, n.vmarea)
  }

  /** The overwritten parts, in key order. */
  ghost function Cuts(m: Maps, keys: seq<nat>, n: VirtualMemoryMap): seq<VirtualMemoryMap>
    requires AreaOk(n.vmarea) && Overlapping(m, keys, n)
  {
    if keys == [] then []
    else
      assert keys[0] in keys;
      assert forall k :: k in keys[1..] ==> k in keys;
      [Cut(m[keys[0]], n)] + Cuts(m, keys[1..], n)
  }

  /** The pieces to put back, in key order. */
  ghost function Remains(m: Maps, keys: seq<nat>, n: VirtualMemoryMap): seq<VirtualMemoryMap>
    requires AreaOk(n.vmarea) && Overlapping(m, keys, n)
  {
    if keys == [] then []
    else
      assert keys[0] in keys;
      assert forall k :: k in keys[1..] ==> k in keys;
      Pieces(m[keys[0]], n) + Remains(m, keys[1..], n)
  }

  function InsertAll(m: Maps, ps: seq<VirtualMemoryMap>): Maps
    decreases |ps|
  {
    if ps == [] then m else InsertAll(m[ps[0].vmarea.start := ps[0]], ps[1..])
  }

  /** What a fixed insert of an aligned mapping leaves behind. */
  ghost function Inserted(m: Maps, n: VirtualMemoryMap): Maps
    requires Wf(m) && AreaOk(n.vmarea)
  {
    OverlapKeysAre(m, n);
    var keys := Ascending(OverlapKeys(m, n));
    InsertAll(m - OverlapKeys(m, n), Remains(m, keys, n))[n.vmarea.start := n]
  }

  ghost function Overwritten(m: Maps, n: VirtualMemoryMap): seq<VirtualMemoryMap>
    requires Wf(m) && AreaOk(n.vmarea)
  {
    OverlapKeysAre(m, n);
    Cuts(m, Ascending(OverlapKeys(m, n)), n)
  }

  lemma OverlapKeysAre(m: Maps, n: VirtualMemoryMap)
    requires Wf(m)
    ensures Overlapping(m, Ascending(OverlapKeys(m, n)), n)
    ensures Increasing(Ascending(OverlapKeys(m, n)))
    ensures forall k :: k in Ascending(OverlapKeys(m, n)) <==> k in OverlapKeys(m, n)
  {
    AscendingIs(OverlapKeys(m, n));
  }

  /** Cutting looks at the virtual range only. */
  lemma {:induction false} SameCuts(m: Maps, keys: seq<nat>, n: VirtualMemoryMap, e: VirtualMemoryMap)
    requires AreaOk(n.vmarea) && e.vmarea == n.vmarea && Overlapping(m, keys, n)
    ensures Overlapping(m, keys, e) && Cuts(m, keys, e) == Cuts(m, keys, n) && Remains(m, keys, e) == Remains(m, keys, n)
    decreases |keys|
  {
    if keys != [] {
      assert keys[0] in keys;
      assert forall k :: k in keys[1..] ==> k in keys;
      SameCuts(m, keys[1..], n, e);
    }
  }

  lemma OverwrittenEven(m: Maps, n: VirtualMemoryMap)
    requires Wf(m) && AreaOk(n.vmarea)
    ensures Overwritten(m, Even(n)) == Overwritten(m, n)
  {
    OverlapKeysAre(m, n);
    assert OverlapKeys(m, Even(n)) == OverlapKeys(m, n);
    SameCuts(m, Ascending(OverlapKeys(m, n)), n, Even(n));
  }

  // ----- inserting disjoint mappings ------------------------------------------------

  ghost predicate Disjoint(ps: seq<VirtualMemoryMap>) {
    forall i, j :: 0 <= i < j < |ps| ==> !Overlap(ps[i].vmarea, ps[j].vmarea)
  }

  ghost predicate Addable(m: Maps, ps: seq<VirtualMemoryMap>) {
    (forall p :: p in ps ==> MapWf(p) && Free(m, p.vmarea)) && Disjoint(ps)
  }

  lemma AddableStep(m: Maps, ps: seq<VirtualMemoryMap>)
    requires Wf(m) && ps != [] && Addable(m, ps)
    ensures Wf(m[ps[0].vmarea.start := ps[0]]) && Addable(m[ps[0].vmarea.start := ps[0]], ps[1..])
  {
    assert ps[0] in ps;
    AddMeaning(m, ps[0], 0);
    var t := m[ps[0].vmarea.start := ps[0]];
    forall p | p in ps[1..] ensures MapWf(p) && Free(t, p.vmarea) {
      var i :| 0 <= i < |ps[1..]| && ps[1..][i] == p;
      assert ps[i + 1] == p;
      assert p in ps;
    }
  }

  lemma {:induction false} InsertAllMeaning(m: Maps, ps: seq<VirtualMemoryMap>, v: nat)
    requires Wf(m) && Addable(m, ps)
    ensures Wf(InsertAll(m, ps))
    ensures forall i :: 0 <= i < |ps| && ps[i].vmarea.Has(v) ==> Meaning(InsertAll(m, ps), v) == Some(CellAt(ps[i], v))
    ensures (forall i :: 0 <= i < |ps| ==> !ps[i].vmarea.Has(v)) ==> Meaning(InsertAll(m, ps), v) == Meaning(m, v)
    decreases |ps|
  {
    if ps != [] {
      var t := m[ps[0].vmarea.start := ps[0]];
      assert ps[0] in ps;
      AddMeaning(m, ps[0], v);
      AddableStep(m, ps);
      InsertAllMeaning(t, ps[1..], v);
      assert forall i :: 0 < i < |ps| ==> ps[i] == ps[1..][i - 1];
      if ps[0].vmarea.Has(v) {
        forall i | 0 <= i < |ps[1..]| ensures !ps[1..][i].vmarea.Has(v) {
          assert !Overlap(ps[0].vmarea, ps[i + 1].vmarea);
        }
      }
    }
  }

  lemma {:induction false} InsertAllFree(m: Maps, ps: seq<VirtualMemoryMap>, a: MemoryArea)
    requires Free(m, a) && forall p :: p in ps ==> !Overlap(p.vmarea, a)
    ensures Free(InsertAll(m, ps), a)
    decreases |ps|
  {
    if ps != [] {
      assert ps[0] in ps;
      InsertAllFree(m[ps[0].vmarea.start := ps[0]], ps[1..], a);
    }
  }

  // ----- the pieces of all overlapping mappings -------------------------------------

  /** A piece that a fixed insert of n keeps: part of an old mapping, outside n. */
  ghost predicate KeptPiece(m: Maps, keys: seq<nat>, n: VirtualMemoryMap, p: VirtualMemoryMap) {
    MapWf(p) && !Overlap(p.vmarea, n.vmarea) && exists k :: k in keys && k in m && Restricts(p, m[k])
  }

  lemma {:induction false} RemainsKept(m: Maps, keys: seq<nat>, n: VirtualMemoryMap)
    requires Wf(m) && MapWf(n) && Overlapping(m, keys, n)
    ensures forall p :: p in Remains(m, keys, n) ==> KeptPiece(m, keys, n, p)
  {
    if keys != [] {
      var k0, rest := keys[0], keys[1..];
      assert k0 in keys;
      PiecesWf(m[k0], n);
      RemainsKept(m, rest, n);
      forall p | p in Remains(m, keys, n) ensures KeptPiece(m, keys, n, p) {
        if p !in Pieces(m[k0], n) {
          assert KeptPiece(m, rest, n, p);
          var k :| k in rest && k in m && Restricts(p, m[k]);
          assert k in keys;
        }
      }
    }
  }

  lemma {:induction false} RemainsDisjoint(m: Maps, keys: seq<nat>, n: VirtualMemoryMap)
    requires Wf(m) && MapWf(n) && Overlapping(m, keys, n) && Increasing(keys)
    ensures Disjoint(Remains(m, keys, n))
  {
    if keys != [] {
      var k0, rest := keys[0], keys[1..];
      var a, b := Pieces(m[k0], n), Remains(m, rest, n);
      assert k0 in keys;
      PiecesWf(m[k0], n);
      RemainsDisjoint(m, rest, n);
      RemainsKept(m, rest, n);
      forall p, q | p in a && q in b ensures !Overlap(p.vmarea, q.vmarea) {
        assert KeptPiece(m, rest, n, q);
        var k :| k in rest && k in m && Restricts(q, m[k]);
        assert k0 < k;
        assert m[k0].vmarea.end < k;
      }
      DisjointConcat(a, b);
    }
  }

  lemma DisjointConcat(a: seq<VirtualMemoryMap>, b: seq<VirtualMemoryMap>)
    requires Disjoint(a) && Disjoint(b) && forall p, q :: p in a && q in b ==> !Overlap(p.vmarea, q.vmarea)
    ensures Disjoint(a + b)
  {
    var r := a + b;
    forall i, j | 0 <= i < j < |r| ensures !Overlap(r[i].vmarea, r[j].vmarea) {
      if i < |a| && j >= |a| {
        assert r[i] in a && r[j] in b;
      } else if i >= |a| {
        assert r[i] == b[i - |a|] && r[j] == b[j - |a|];
      }
    }
  }

  lemma {:induction false} RemainsCover(m: Maps, keys: seq<nat>, n: VirtualMemoryMap, k: nat, v: nat)
    requires Wf(m) && MapWf(n) && Overlapping(m, keys, n)
    requires k in keys && m[k].vmarea.Has(v) && !n.vmarea.Has(v)
    ensures SomeHas(Remains(m, keys, n), v)
  {
    var k0, rest := keys[0], keys[1..];
    var a, b := Pieces(m[k0], n), Remains(m, rest, n);
    if k == k0 {
      PiecesWf(m[k0], n);
      assert SomeHas(a, v);
      var i :| 0 <= i < |a| && a[i].vmarea.Has(v);
      assert Remains(m, keys, n)[i] == a[i];
    } else {
      assert k in rest;
      RemainsCover(m, rest, n, k, v);
      var i :| 0 <= i < |b| && b[i].vmarea.Has(v);
      assert Remains(m, keys, n)[|a| + i] == b[i];
    }
  }

  /** The pieces can be put back one after the other without meeting anything, and leave room for n. */
  lemma RemainsFit(m: Maps, n: VirtualMemoryMap)
    requires Wf(m) && MapWf(n)
    ensures var keys := Ascending(OverlapKeys(m, n));
            && Overlapping(m, keys, n)
            && Wf(m - OverlapKeys(m, n))
            && Addable(m - OverlapKeys(m, n), Remains(m, keys, n))
            && Free(InsertAll(m - OverlapKeys(m, n), Remains(m, keys, n)), n.vmarea)
  {
    OverlapKeysAre(m, n);
    var keys := Ascending(OverlapKeys(m, n));
    var rest := m - OverlapKeys(m, n);
    RemainsKept(m, keys, n);
    RemainsDisjoint(m, keys, n);
    forall p | p in Remains(m, keys, n) ensures MapWf(p) && Free(rest, p.vmarea) && !Overlap(p.vmarea, n.vmarea) {
      assert KeptPiece(m, keys, n, p);
      var k :| k in keys && k in m && Restricts(p, m[k]);
      forall j | j in rest ensures !Overlap(rest[j].vmarea, p.vmarea) {
        assert j != k;
        assert j < k ==> m[j].vmarea.end < k;
        assert k < j ==> m[k].vmarea.end < j;
      }
    }
    forall j | j in rest ensures !Overlap(rest[j].vmarea, n.vmarea) { }
    InsertAllFree(rest, Remains(m, keys, n), n.vmarea);
  }

  lemma RestMeaning(m: Maps, gone: set<nat>, v: nat)
    requires Wf(m)
    ensures Wf(m - gone)
    ensures forall k :: Covers(m, k, v) ==> Meaning(m - gone, v) == if k in gone then None else Meaning(m, v)
    ensures Meaning(m, v) == None ==> Meaning(m - gone, v) == None
  {
    var t := m - gone;
    if k :| Covers(m, k, v) {
      MeaningAt(m, k, v);
      if k in gone {
        forall j ensures !Covers(t, j, v) { assert Covers(t, j, v) ==> Covers(m, j, v); }
      } else {
        MeaningAt(t, k, v);
      }
    } else {
      forall j ensures !Covers(t, j, v) { assert !Covers(m, j, v); }
    }
  }

  /** Fixed insert is exact: inside the new range every address translates by the new mapping, any
      other address translates as before, and the result is well formed. */
  lemma InsertedMeaning(m: Maps, n: VirtualMemoryMap, v: nat)
    requires Wf(m) && MapWf(n)
    ensures Wf(Inserted(m, n))
    ensures Meaning(Inserted(m, n), v) == if n.vmarea.Has(v) then Some(CellAt(n, v)) else Meaning(m, v)
  {
    RemainsFit(m, n);
    var gone := OverlapKeys(m, n);
    var keys := Ascending(gone);
    var ps := Remains(m, keys, n);
    var base := InsertAll(m - gone, ps);
    InsertAllMeaning(m - gone, ps, v);
    AddMeaning(base, n, v);
    if !n.vmarea.Has(v) {
      OldMeaningKept(m, n, v);
    }
  }

  lemma OldMeaningKept(m: Maps, n: VirtualMemoryMap, v: nat)
    requires Wf(m) && MapWf(n) && !n.vmarea.Has(v)
    ensures Overlapping(m, Ascending(OverlapKeys(m, n)), n)
    ensures Meaning(InsertAll(m - OverlapKeys(m, n), Remains(m, Ascending(OverlapKeys(m, n)), n)), v) == Meaning(m, v)
  {
    RemainsFit(m, n);
    OverlapKeysAre(m, n);
    var gone := OverlapKeys(m, n);
    var ps := Remains(m, Ascending(gone), n);
    InsertAllMeaning(m - gone, ps, v);
    RestMeaning(m, gone, v);
    if SomeHas(ps, v) {
      var i :| 0 <= i < |ps| && ps[i].vmarea.Has(v);
      KeptPieceMeaning(m, Ascending(gone), n, ps[i], v);
    } else if k :| Covers(m, k, v) {
      if k in gone { RemainsCover(m, Ascending(gone), n, k, v); }
    }
  }

  lemma KeptPieceMeaning(m: Maps, keys: seq<nat>, n: VirtualMemoryMap, p: VirtualMemoryMap, v: nat)
    requires Wf(m) && MapWf(n) && Overlapping(m, keys, n) && p in Remains(m, keys, n) && p.vmarea.Has(v)
    ensures Meaning(m, v) == Some(CellAt(p, v))
  {
    var k := KeptFrom(m, keys, n, p);
    RestrictedCell(m[k], p, v);
    MeaningAt(m, k, v);
  }

  lemma KeptFrom(m: Maps, keys: seq<nat>, n: VirtualMemoryMap, p: VirtualMemoryMap) returns (k: nat)
    requires Wf(m) && MapWf(n) && Overlapping(m, keys, n) && p in Remains(m, keys, n)
    ensures k in m && Restricts(p, m[k])
  {
    RemainsKept(m, keys, n);
    assert KeptPiece(m, keys, n, p);
    k :| k in keys && k in m && Restricts(p, m[k]);
  }

  lemma RestrictedCell(a: VirtualMemoryMap, p: VirtualMemoryMap, v: nat)
    requires Restricts(p, a) && p.vmarea.Has(v)
    ensures a.vmarea.Has(v) && CellAt(p, v) == CellAt(a, v)
  {
  }

  // ----- what is returned ----------------------------------------------------------

  /** c is the part of the mapping at k inside n. */
  ghost predicate IsCut(m: Maps, k: nat, n: VirtualMemoryMap, c: VirtualMemoryMap) {
    && k in m && MapWf(c) && Restricts(c, m[k])
    && forall v :: c.vmarea.Has(v) <==> m[k].vmarea.Has(v) && n.vmarea.Has(v)
  }

  lemma {:induction false} CutsAre(m: Maps, keys: seq<nat>, n: VirtualMemoryMap)
    requires Wf(m) && MapWf(n) && Overlapping(m, keys, n)
    ensures |Cuts(m, keys, n)| == |keys|
    ensures forall i :: 0 <= i < |keys| ==> IsCut(m, keys[i], n, Cuts(m, keys, n)[i])
  {
    if keys != [] {
      assert keys[0] in keys;
      CutWf(m[keys[0]], n);
      CutsAre(m, keys[1..], n);
      forall i | 0 < i < |keys| ensures IsCut(m, keys[i], n, Cuts(m, keys, n)[i]) {
        assert Cuts(m, keys, n)[i] == Cuts(m, keys[1..], n)[i - 1] && keys[i] == keys[1..][i - 1];
      }
    }
  }

  /** The pieces returned by a fixed insert are exactly the old meaning inside the new range. */
  lemma OverwrittenExact(m: Maps, n: VirtualMemoryMap, v: nat)
    requires Wf(m) && MapWf(n)
    ensures SomeHas(Overwritten(m, n), v) <==> n.vmarea.Has(v) && Meaning(m, v).Some?
    ensures forall i :: 0 <= i < |Overwritten(m, n)| && Overwritten(m, n)[i].vmarea.Has(v) ==>
              Meaning(m, v) == Some(CellAt(Overwritten(m, n)[i], v))
  {
    OverlapKeysAre(m, n);
    var keys := Ascending(OverlapKeys(m, n));
    var cuts := Overwritten(m, n);
    forall i | 0 <= i < |cuts| && cuts[i].vmarea.Has(v)
      ensures Meaning(m, v) == Some(CellAt(cuts[i], v)) && n.vmarea.Has(v)
    {
      CutMeaning(m, keys, n, i, v);
    }
    if n.vmarea.Has(v) && Meaning(m, v).Some? {
      var k :| Covers(m, k, v);
      assert k in keys;
      CutCovers(m, keys, n, k, v);
    }
  }

  lemma CutMeaning(m: Maps, keys: seq<nat>, n: VirtualMemoryMap, i: nat, v: nat)
    requires Wf(m) && MapWf(n) && Overlapping(m, keys, n)
    requires i < |Cuts(m, keys, n)| && Cuts(m, keys, n)[i].vmarea.Has(v)
    ensures Meaning(m, v) == Some(CellAt(Cuts(m, keys, n)[i], v)) && n.vmarea.Has(v)
  {
    CutsAre(m, keys, n);
    MeaningAt(m, keys[i], v);
  }

  lemma CutCovers(m: Maps, keys: seq<nat>, n: VirtualMemoryMap, k: nat, v: nat)
    requires Wf(m) && MapWf(n) && Overlapping(m, keys, n)
    requires k in keys && Covers(m, k, v) && n.vmarea.Has(v)
    ensures SomeHas(Cuts(m, keys, n), v)
  {
    CutsAre(m, keys, n);
    var i :| 0 <= i < |keys| && keys[i] == k;
    assert Cuts(m, keys, n)[i].vmarea.Has(v);
  }

  // ----- conservation --------------------------------------------------------------

  /** The bytes mapped by m. */
  ghost function Total(m: Maps): nat {
    if m == map[] then 0
    else
      assert exists k :: k in m by { assert m.Keys != {}; }
      var k :| k in m;
      Bytes([m[k]]) + Total(m - {k})
  }

  lemma {:induction false} TotalRemove(m: Maps, k: nat)
    requires k in m
    ensures Total(m) == Bytes([m[k]]) + Total(m - {k})
    decreases |m|
  {
    assert m.Keys != {};
    var j :| j in m && Total(m) == Bytes([m[j]]) + Total(m - {j});
    if j != k {
      TotalRemove(m - {j}, k);
      TotalRemove(m - {k}, j);
      assert m - {j} - {k} == m - {k} - {j};
    }
  }

  lemma TotalAdd(m: Maps, k: nat, p: VirtualMemoryMap)
    requires k !in m
    ensures Total(m[k := p]) == Total(m) + Bytes([p])
  {
    TotalRemove(m[k := p], k);
    assert m[k := p] - {k} == m;
  }

  lemma {:induction false} InsertAllTotal(m: Maps, ps: seq<VirtualMemoryMap>)
    requires Wf(m) && Addable(m, ps)
    ensures Total(InsertAll(m, ps)) == Total(m) + Bytes(ps)
    decreases |ps|
  {
    if ps != [] {
      assert ps[0] in ps;
      AddMeaning(m, ps[0], 0);
      AddableStep(m, ps);
      TotalAdd(m, ps[0].vmarea.start, ps[0]);
      InsertAllTotal(m[ps[0].vmarea.start := ps[0]], ps[1..]);
    }
  }

  lemma {:induction false} RemovedTotal(m: Maps, keys: seq<nat>, gone: set<nat>, n: VirtualMemoryMap)
    requires MapWf(n) && Overlapping(m, keys, n) && Increasing(keys)
    requires forall k :: k in gone <==> k in keys
    ensures Total(m) == Total(m - gone) + Bytes(Cuts(m, keys, n)) + Bytes(Remains(m, keys, n))
  {
    if keys == [] {
      assert m - gone == m;
    } else {
      var k0, rest := keys[0], keys[1..];
      assert k0 in keys;
      assert forall k :: k in keys <==> k == k0 || k in rest;
      RemovedTotal(m, rest, gone - {k0}, n);
      OneGone(m, gone, k0, n);
      BytesConcat(Pieces(m[k0], n), Remains(m, rest, n));
      BytesConcat([Cut(m[k0], n)], Cuts(m, rest, n));
    }
  }

  lemma OneGone(m: Maps, gone: set<nat>, k: nat, n: VirtualMemoryMap)
    requires MapWf(n) && k in gone && k in m && MapWf(m[k]) && Overlap(m[k].vmarea, n.vmarea)
    ensures Total(m - (gone - {k})) == Total(m - gone) + Bytes([Cut(m[k], n)]) + Bytes(Pieces(m[k], n))
  {
    TotalRemove(m - (gone - {k}), k);
    assert m - (gone - {k}) - {k} == m - gone;
    PiecesBytes(m[k], n);
  }

  /** Nothing is lost: the old bytes are the kept ones plus the returned ones. */
  lemma InsertedTotal(m: Maps, n: VirtualMemoryMap)
    requires Wf(m) && MapWf(n)
    ensures Total(Inserted(m, n)) + Bytes(Overwritten(m, n)) == Total(m) + Bytes([n])
  {
    OverlapKeysAre(m, n);
    RemovedTotal(m, Ascending(OverlapKeys(m, n)), OverlapKeys(m, n), n);
    PutBackTotal(m, n);
  }

  lemma PutBackTotal(m: Maps, n: VirtualMemoryMap)
    requires Wf(m) && MapWf(n)
    ensures Overlapping(m, Ascending(OverlapKeys(m, n)), n)
    ensures Total(Inserted(m, n)) ==
            Total(m - OverlapKeys(m, n)) + Bytes(Remains(m, Ascending(OverlapKeys(m, n)), n)) + Bytes([n])
  {
    RemainsFit(m, n);
    var rest := m - OverlapKeys(m, n);
    var ps := Remains(m, Ascending(OverlapKeys(m, n)), n);
    InsertAllTotal(rest, ps);
    InsertAllMeaning(rest, ps, 0);
    AddMeaning(InsertAll(rest, ps), n, 0);
    TotalAdd(InsertAll(rest, ps), n.vmarea.start, n);
  }
}
