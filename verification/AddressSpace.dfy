/** An ordered map of mappings and the flat function from addresses to cells it stands for. */
module AddressSpace {
  import opened Base
  import opened Vmem

  type Maps = map<nat, VirtualMemoryMap>   // BTreeMap: start address -> mapping

  // ----- ordered lookups of the BTreeMap -------------------------------------------

  lemma {:induction false} Greatest(s: set<nat>) returns (k: nat)
    requires s != {}
    ensures k in s && forall j :: j in s ==> j <= k
  {
    k :| k in s;
    assert forall j :: j in s ==> j == k || j in s - {k};
    if s - {k} != {} {
      var m := Greatest(s - {k});
      if k < m { k := m; }
    }
  }

  lemma {:induction false} Least(s: set<nat>) returns (k: nat)
    requires s != {}
    ensures k in s && forall j :: j in s ==> k <= j
  {
    k :| k in s;
    assert forall j :: j in s ==> j == k || j in s - {k};
    if s - {k} != {} {
      var m := Least(s - {k});
      if m < k { k := m; }
    }
  }

  lemma MaxExists(s: set<nat>)
    requires s != {}
    ensures exists k :: k in s && forall j :: j in s ==> j <= k
  {
    var k := Greatest(s);
  }

  lemma MinExists(s: set<nat>)
    requires s != {}
    ensures exists k :: k in s && forall j :: j in s ==> k <= j
  {
    var k := Least(s);
  }

  function MaxOf(s: set<nat>): (k: nat)
    requires s != {}
    ensures k in s && forall j :: j in s ==> j <= k
  {
    MaxExists(s);
    var k :| k in s && forall j :: j in s ==> j <= k;
    k
  }

  function MinOf(s: set<nat>): (k: nat)
    requires s != {}
    ensures k in s && forall j :: j in s ==> k <= j
  {
    MinExists(s);
    var k :| k in s && forall j :: j in s ==> k <= j;
    k
  }

  /** range(..=v).next_back() */
  function LastAtMost(m: Maps, v: int): (r: Option<nat>)
    ensures r.None? ==> forall k :: k in m ==> v < k
    ensures r.Some? ==> r.value in m && r.value <= v && forall k :: k in m && k <= v ==> k <= r.value
  {
    var s := set k | k in m.Keys && k <= v;
    if s == {} then
      assert forall k :: k in m && k <= v ==> k in s;
      None
    else
      assert forall j :: j in m && j <= v ==> j in s;
      Some(MaxOf(s))
  }

  /** range(v..).next() */
  function FirstAtLeast(m: Maps, v: int): (r: Option<nat>)
    ensures r.None? ==> forall k :: k in m ==> k < v
    ensures r.Some? ==> r.value in m && v <= r.value && forall k :: k in m && v <= k ==> r.value <= k
  {
    var s := set k | k in m.Keys && v <= k;
    if s == {} then
      assert forall k :: k in m && v <= k ==> k in s;
      None
    else
      assert forall j :: j in m && v <= j ==> j in s;
      Some(MinOf(s))
  }

  // ----- meaning -------------------------------------------------------------------

  /** Keys are start addresses, mappings are well formed and pairwise disjoint. */
  ghost predicate Wf(m: Maps) {
    && (forall k :: k in m ==> m[k].vmarea.start == k && MapWf(m[k]))
    && (forall j, k :: j in m && k in m && j < k ==> m[j].vmarea.end < k)
  }

  ghost predicate Covers(m: Maps, k: nat, v: nat) { k in m && m[k].vmarea.Has(v) }

  /** The flat function: the cell of the mapping that contains v. */
  ghost function Meaning(m: Maps, v: nat): Option<Cell> {
    if exists k :: Covers(m, k, v) then
      var k :| Covers(m, k, v);
      Some(CellAt(m[k], v))
    else None
  }

  lemma MeaningAt(m: Maps, k: nat, v: nat)
    requires Wf(m) && Covers(m, k, v)
    ensures Meaning(m, v) == Some(CellAt(m[k], v))
    ensures forall j :: Covers(m, j, v) ==> j == k
  {
    forall j: nat | Covers(m, j, v) ensures j == k {
    }
  }

  lemma MeaningNone(m: Maps, v: nat)
    requires forall k :: !Covers(m, k, v)
    ensures Meaning(m, v) == None
  {
  }

  // ----- lookup --------------------------------------------------------------------

  /** find_memory_map_optimized: only the last mapping starting at or below v can contain it. */
  function Find(m: Maps, v: nat): (r: Option<nat>) {
    var k := LastAtMost(m, v);
    if k.Some? && v <= m[k.value].vmarea.end then k else None
  }

  lemma FindCorrect(m: Maps, v: nat)
    requires Wf(m)
    ensures Find(m, v).Some? ==> Covers(m, Find(m, v).value, v)
    ensures Find(m, v).None? ==> forall k :: !Covers(m, k, v)
  {
    var last := LastAtMost(m, v);
    forall k: nat | Covers(m, k, v) ensures Find(m, v) == Some(k) {
      assert k <= last.value;
    }
  }

  // ----- adding and removing -------------------------------------------------------

  datatype AddError = Unaligned | OverlapsPreceding | OverlapsSucceeding

  /** add_memory_map looks at two neighbours only. */
  function Add(m: Maps, n: VirtualMemoryMap): (r: Result<Maps, AddError>)
    requires AreaOk(n.vmarea) && AreaOk(n.pmarea)
  {
    if !MapAligned(n) then Err(Unaligned)
    else
      var before := LastAtMost(m, n.vmarea.start - 1);
      if before.Some? && m[before.value].vmarea.end > n.vmarea.start then Err(OverlapsPreceding)
      else
        var after := FirstAtLeast(m, n.vmarea.start);
        if after.Some? && m[after.value].vmarea.start < n.vmarea.end then Err(OverlapsSucceeding)
        else Ok(m[n.vmarea.start := n])
  }

  /** Disjoint from every mapping there is. */
  ghost predicate Free(m: Maps, a: MemoryArea) {
    forall k :: k in m ==> !Overlap(m[k].vmarea, a)
  }

  /** On aligned mappings the strict comparisons of inclusive ends mean overlap. */
  lemma StrictMeansOverlap(a: VirtualMemoryMap, n: VirtualMemoryMap)
    requires MapWf(a) && MapWf(n)
    ensures a.vmarea.start < n.vmarea.start ==> (a.vmarea.end > n.vmarea.start <==> Overlap(a.vmarea, n.vmarea))
    ensures n.vmarea.start <= a.vmarea.start ==> (a.vmarea.start < n.vmarea.end <==> Overlap(a.vmarea, n.vmarea))
  {
    AlignedEnd(a);
    AlignedEnd(n);
    assert a.vmarea.end != n.vmarea.start && a.vmarea.start != n.vmarea.end;
  }

  lemma AcceptedIsFree(m: Maps, n: VirtualMemoryMap)
    requires Wf(m) && MapWf(n) && Add(m, n).Ok?
    ensures Free(m, n.vmarea)
  {
    forall k: nat | k in m ensures !Overlap(m[k].vmarea, n.vmarea) {
      if k < n.vmarea.start { ApartBefore(m, n, k); } else { ApartAfter(m, n, k); }
    }
  }

  lemma ApartBefore(m: Maps, n: VirtualMemoryMap, k: nat)
    requires Wf(m) && MapWf(n) && Add(m, n).Ok? && k in m && k < n.vmarea.start
    ensures !Overlap(m[k].vmarea, n.vmarea)
  {
    var before: nat := LastAtMost(m, n.vmarea.start - 1).value;
    EndsBefore(m, n, before);
    BelowLast(m, k, before, n.vmarea.start);
  }

  lemma BelowLast(m: Maps, k: nat, last: nat, bound: nat)
    requires Wf(m) && k in m && last in m && k <= last && m[last].vmarea.end < bound
    ensures m[k].vmarea.end < bound
  {
    if k < last { assert m[k].vmarea.end < last; }
  }

  lemma EndsBefore(m: Maps, n: VirtualMemoryMap, before: nat)
    requires before in m && m[before].vmarea.start == before && MapWf(m[before]) && MapWf(n)
    requires before < n.vmarea.start && m[before].vmarea.end <= n.vmarea.start
    ensures m[before].vmarea.end < n.vmarea.start
  {
    StrictMeansOverlap(m[before], n);
  }

  lemma ApartAfter(m: Maps, n: VirtualMemoryMap, k: nat)
    requires Wf(m) && MapWf(n) && Add(m, n).Ok? && k in m && n.vmarea.start <= k
    ensures !Overlap(m[k].vmarea, n.vmarea)
  {
    var after: nat := FirstAtLeast(m, n.vmarea.start).value;
    StrictMeansOverlap(m[after], n);
    assert after <= k;
  }

  lemma FreeIsAccepted(m: Maps, n: VirtualMemoryMap)
    requires Wf(m) && MapWf(n) && Free(m, n.vmarea)
    ensures Add(m, n).Ok?
  {
    var before := LastAtMost(m, n.vmarea.start - 1);
    var after := FirstAtLeast(m, n.vmarea.start);
    if before.Some? { StrictMeansOverlap(m[before.value], n); }
    if after.Some? { StrictMeansOverlap(m[after.value], n); }
  }

  /** The mapping with a physical area of the size of its virtual one. */
  function Even(n: VirtualMemoryMap): VirtualMemoryMap
    requires AreaOk(n.vmarea)
  {
    n.(pmarea := MemoryArea(0, n.vmarea.Size() - 1))
  }

  /** The two neighbours suffice: an aligned mapping is accepted exactly when it is disjoint from
      every existing one. The strict comparisons of inclusive ends are right because of alignment. */
  lemma AddAcceptsIff(m: Maps, n: VirtualMemoryMap)
    requires Wf(m) && AreaOk(n.vmarea) && AreaOk(n.pmarea)
    ensures Add(m, n).Ok? <==> MapAligned(n) && Free(m, n.vmarea)
  {
    if MapAligned(n) { AlignedAccepted(m, n, Even(n)); }
  }

  lemma AlignedAccepted(m: Maps, n: VirtualMemoryMap, e: VirtualMemoryMap)
    requires Wf(m) && MapWf(e) && AreaOk(n.vmarea) && AreaOk(n.pmarea) && MapAligned(n) && e.vmarea == n.vmarea
    ensures Add(m, n).Ok? <==> Free(m, n.vmarea)
  {
    assert Add(m, n).Ok? <==> Add(m, e).Ok?;
    if Add(m, e).Ok? { AcceptedIsFree(m, e); }
    if Free(m, n.vmarea) { FreeIsAccepted(m, e); }
  }

  lemma AddWf(m: Maps, n: VirtualMemoryMap)
    requires Wf(m) && MapWf(n) && Free(m, n.vmarea)
    ensures Wf(m[n.vmarea.start := n]) && n.vmarea.start !in m
  {
    var t := m[n.vmarea.start := n];
    assert n.vmarea.start in m ==> Overlap(m[n.vmarea.start].vmarea, n.vmarea);
    forall j, k | j in t && k in t && j < k ensures t[j].vmarea.end < k {
      if j == n.vmarea.start { assert !Overlap(m[k].vmarea, n.vmarea); }
      else if k == n.vmarea.start { assert !Overlap(m[j].vmarea, n.vmarea); }
    }
  }

  /** Adding a disjoint mapping extends the meaning by exactly its range. */
  lemma AddMeaning(m: Maps, n: VirtualMemoryMap, v: nat)
    requires Wf(m) && MapWf(n) && Free(m, n.vmarea)
    ensures Wf(m[n.vmarea.start := n])
    ensures n.vmarea.start !in m
    ensures Meaning(m[n.vmarea.start := n], v) == if n.vmarea.Has(v) then Some(CellAt(n, v)) else Meaning(m, v)
  {
    var t := m[n.vmarea.start := n];
    AddWf(m, n);
    if n.vmarea.Has(v) {
      MeaningAt(t, n.vmarea.start, v);
    } else if k :| Covers(m, k, v) {
      MeaningAt(m, k, v);
      MeaningAt(t, k, v);
    } else {
      forall k ensures !Covers(t, k, v) { assert !Covers(m, k, v); }
    }
  }

  /** Removing a mapping forgets exactly its range. */
  lemma RemoveMeaning(m: Maps, k: nat, v: nat)
    requires Wf(m) && k in m
    ensures Wf(m - {k})
    ensures Meaning(m - {k}, v) == if m[k].vmarea.Has(v) then None else Meaning(m, v)
  {
    var t := m - {k};
    if j :| Covers(t, j, v) {
      MeaningAt(t, j, v);
      MeaningAt(m, j, v);
    } else {
      assert forall j :: !Covers(t, j, v);
      if m[k].vmarea.Has(v) { MeaningAt(m, k, v); }
      else { forall j ensures !Covers(m, j, v) { assert !Covers(t, j, v); } }
    }
  }

  // ----- iteration in key order ----------------------------------------------------

  /** The keys in ascending order. */
  function Ascending(s: set<nat>): seq<nat>
    decreases |s|
  {
    if s == {} then [] else [MinOf(s)] + Ascending(s - {MinOf(s)})
  }

  predicate Increasing(r: seq<nat>) {
    forall i, j :: 0 <= i < j < |r| ==> r[i] < r[j]
  }

  lemma {:induction false} AscendingIs(s: set<nat>)
    ensures Increasing(Ascending(s))
    ensures forall k :: k in Ascending(s) <==> k in s
    ensures |Ascending(s)| == |s|
    decreases |s|
  {
    if s != {} {
      var k := MinOf(s);
      var rest := Ascending(s - {k});
      AscendingIs(s - {k});
      var r := Ascending(s);
      forall i, j | 0 <= i < j < |r| ensures r[i] < r[j] {
        assert r[j] == rest[j - 1] && rest[j - 1] in rest;
        assert i > 0 ==> r[i] == rest[i - 1];
      }
    }
  }

  /** The mappings in the order in which the BTreeMap is iterated. */
  function Listing(m: Maps): (r: seq<VirtualMemoryMap>)
  {
    AscendingIs(m.Keys);
    var keys := Ascending(m.Keys);
    assert forall i :: 0 <= i < |keys| ==> keys[i] in keys;
    seq(|keys|, i requires 0 <= i < |keys| => m[keys[i]])
  }
}
