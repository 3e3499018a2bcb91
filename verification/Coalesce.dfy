/** Iteration of the mappings in address order, statistics and coalescing. */
module Coalesce {
  import opened Base
  import opened Vmem
  import opened AddressSpace
  import opened FixedInsert

  // ----- address spaces as ascending lists -----------------------------------------

  /** Well-formed mappings in ascending, disjoint order. */
  ghost predicate Chain(ms: seq<VirtualMemoryMap>) {
    && (forall i :: 0 <= i < |ms| ==> MapWf(ms[i]))
    && (forall i, j :: 0 <= i < j < |ms| ==> ms[i].vmarea.end < ms[j].vmarea.start)
  }

  ghost predicate StartsIncrease(ms: seq<VirtualMemoryMap>) {
    forall i, j :: 0 <= i < j < |ms| ==> ms[i].vmarea.start < ms[j].vmarea.start
  }

  lemma ChainStarts(ms: seq<VirtualMemoryMap>)
    requires Chain(ms)
    ensures StartsIncrease(ms)
  {
    forall i, j | 0 <= i < j < |ms| ensures ms[i].vmarea.start < ms[j].vmarea.start {
      assert MapWf(ms[i]);
    }
  }

  function FromList(ms: seq<VirtualMemoryMap>): Maps {
    if ms == [] then map[] else FromList(ms[1..])[ms[0].vmarea.start := ms[0]]
  }

  ghost predicate IsStart(ms: seq<VirtualMemoryMap>, k: nat) { exists i :: 0 <= i < |ms| && ms[i].vmarea.start == k }

  lemma LaterStart(ms: seq<VirtualMemoryMap>, k: nat)
    requires ms != [] && IsStart(ms[1..], k)
    ensures IsStart(ms, k)
  {
    var i :| 0 <= i < |ms[1..]| && ms[1..][i].vmarea.start == k;
    assert ms[i + 1].vmarea.start == k;
  }

  lemma {:induction false} FromListIs(ms: seq<VirtualMemoryMap>)
    requires StartsIncrease(ms)
    ensures forall i :: 0 <= i < |ms| ==> ms[i].vmarea.start in FromList(ms) && FromList(ms)[ms[i].vmarea.start] == ms[i]
    ensures forall k :: k in FromList(ms) ==> IsStart(ms, k)
    ensures |FromList(ms)| == |ms|
  {
    if ms != [] {
      var rest := ms[1..];
      FromListIs(rest);
      HeadNotInTail(ms);
      forall i | 0 < i < |ms| ensures ms[i].vmarea.start in FromList(ms) && FromList(ms)[ms[i].vmarea.start] == ms[i] {
        assert ms[i] == rest[i - 1];
      }
      forall k | k in FromList(ms) ensures IsStart(ms, k) {
        if k != ms[0].vmarea.start { LaterStart(ms, k); }
      }
      assert FromList(ms).Keys == FromList(rest).Keys + {ms[0].vmarea.start};
    } else {
      assert FromList(ms) == map[];
    }
  }

  lemma HeadNotInTail(ms: seq<VirtualMemoryMap>)
    requires ms != [] && StartsIncrease(ms)
    requires forall k :: k in FromList(ms[1..]) ==> IsStart(ms[1..], k)
    ensures ms[0].vmarea.start !in FromList(ms[1..])
  {
    assert forall i :: 0 <= i < |ms[1..]| ==> ms[1..][i] == ms[i + 1];
    assert !IsStart(ms[1..], ms[0].vmarea.start);
  }

  lemma FromListWf(ms: seq<VirtualMemoryMap>)
    requires Chain(ms)
    ensures Wf(FromList(ms))
  {
    ChainStarts(ms);
    FromListIs(ms);
    var m := FromList(ms);
    forall k | k in m ensures m[k].vmarea.start == k && MapWf(m[k]) { assert IsStart(ms, k); }
    forall j, k | j in m && k in m && j < k ensures m[j].vmarea.end < k {
      assert IsStart(ms, j) && IsStart(ms, k);
      var a :| 0 <= a < |ms| && ms[a].vmarea.start == j;
      var b :| 0 <= b < |ms| && ms[b].vmarea.start == k;
      assert a < b;
    }
  }

  /** ms lists the mappings of m under keys. */
  ghost predicate Lists(m: Maps, keys: seq<nat>, ms: seq<VirtualMemoryMap>) {
    |ms| == |keys| && forall i :: 0 <= i < |keys| ==> keys[i] in m && ms[i] == m[keys[i]]
  }

  lemma ListsChain(m: Maps, keys: seq<nat>, ms: seq<VirtualMemoryMap>)
    requires Wf(m) && Increasing(keys) && Lists(m, keys, ms)
    ensures Chain(ms)
    ensures forall i :: 0 <= i < |ms| ==> ms[i].vmarea.start in m && ms[i] == m[ms[i].vmarea.start]
  {
    forall i | 0 <= i < |ms| ensures MapWf(ms[i]) && ms[i].vmarea.start == keys[i] { assert keys[i] in m; }
    forall i, j | 0 <= i < j < |ms| ensures ms[i].vmarea.end < ms[j].vmarea.start { assert keys[i] < keys[j]; }
  }

  lemma ListsHas(m: Maps, keys: seq<nat>, ms: seq<VirtualMemoryMap>, k: nat)
    requires Lists(m, keys, ms) && StartsIncrease(ms) && k in keys && m[k].vmarea.start == k
    ensures k in FromList(ms) && FromList(ms)[k] == m[k]
  {
    FromListIs(ms);
    var i :| 0 <= i < |keys| && keys[i] == k;
    assert ms[i].vmarea.start == k;
  }

  lemma OnlyListed(m: Maps, keys: seq<nat>, ms: seq<VirtualMemoryMap>, k: nat)
    requires Wf(m) && Lists(m, keys, ms) && StartsIncrease(ms) && k in FromList(ms)
    ensures k in m
  {
    FromListIs(ms);
    assert IsStart(ms, k);
    var i :| 0 <= i < |ms| && ms[i].vmarea.start == k;
    assert keys[i] in m;
  }

  lemma ListsAll(m: Maps, keys: seq<nat>, ms: seq<VirtualMemoryMap>)
    requires Wf(m) && Lists(m, keys, ms) && Chain(ms) && forall k :: k in m ==> k in keys
    ensures FromList(ms) == m
  {
    ChainStarts(ms);
    forall k | k in m ensures k in FromList(ms) && FromList(ms)[k] == m[k] { ListsHas(m, keys, ms, k); }
    forall k | k in FromList(ms) ensures k in m { OnlyListed(m, keys, ms, k); }
  }

  lemma ListingLists(m: Maps)
    ensures Lists(m, Ascending(m.Keys), Listing(m))
  {
    AscendingIs(m.Keys);
    var keys := Ascending(m.Keys);
    assert forall i :: 0 <= i < |keys| ==> keys[i] in keys;
  }

  lemma ListingChain(m: Maps)
    requires Wf(m)
    ensures Chain(Listing(m)) && |Listing(m)| == |m|
    ensures forall i :: 0 <= i < |Listing(m)| ==> Listing(m)[i].vmarea.start in m && Listing(m)[i] == m[Listing(m)[i].vmarea.start]
  {
    AscendingIs(m.Keys);
    ListingLists(m);
    ListsChain(m, Ascending(m.Keys), Listing(m));
  }

  lemma ListingIs(m: Maps)
    requires Wf(m)
    ensures Chain(Listing(m)) && FromList(Listing(m)) == m
  {
    ListingChain(m);
    ListingLists(m);
    AscendingIs(m.Keys);
    ListsAll(m, Ascending(m.Keys), Listing(m));
  }

  /** The ascending list of an address space is unique. */
  lemma {:induction false} ListUnique(a: seq<VirtualMemoryMap>, b: seq<VirtualMemoryMap>)
    requires StartsIncrease(a) && StartsIncrease(b) && FromList(a) == FromList(b)
    ensures a == b
  {
    SameLength(a, b);
    if a != [] {
      SameHead(a, b);
      TailMap(a);
      TailMap(b);
      ListUnique(a[1..], b[1..]);
      assert a == [a[0]] + a[1..] && b == [b[0]] + b[1..];
    }
  }

  lemma SameLength(a: seq<VirtualMemoryMap>, b: seq<VirtualMemoryMap>)
    requires StartsIncrease(a) && StartsIncrease(b) && FromList(a) == FromList(b)
    ensures |a| == |b|
  {
    FromListIs(a);
    FromListIs(b);
  }

  lemma SameHead(a: seq<VirtualMemoryMap>, b: seq<VirtualMemoryMap>)
    requires StartsIncrease(a) && StartsIncrease(b) && FromList(a) == FromList(b) && a != [] && b != []
    ensures a[0] == b[0]
  {
    FromListIs(a);
    FromListIs(b);
    HeadLeast(a, b);
    HeadLeast(b, a);
  }

  lemma TailMap(a: seq<VirtualMemoryMap>)
    requires a != [] && StartsIncrease(a)
    ensures FromList(a[1..]) == FromList(a) - {a[0].vmarea.start}
  {
    FromListIs(a[1..]);
    HeadNotInTail(a);
    PutRemove(FromList(a[1..]), a[0].vmarea.start, a[0]);
  }

  lemma PutRemove(m: Maps, k: nat, x: VirtualMemoryMap)
    requires k !in m
    ensures m[k := x] - {k} == m
  {
  }

  lemma HeadLeast(a: seq<VirtualMemoryMap>, b: seq<VirtualMemoryMap>)
    requires StartsIncrease(b) && a != [] && b != []
    requires a[0].vmarea.start in FromList(b)
    ensures b[0].vmarea.start <= a[0].vmarea.start
  {
    FromListIs(b);
    assert IsStart(b, a[0].vmarea.start);
  }

  lemma ListingOf(ms: seq<VirtualMemoryMap>)
    requires Chain(ms)
    ensures Listing(FromList(ms)) == ms
  {
    FromListWf(ms);
    ListingIs(FromList(ms));
    ChainStarts(ms);
    ChainStarts(Listing(FromList(ms)));
    ListUnique(Listing(FromList(ms)), ms);
  }

  // ----- the meaning of a list -----------------------------------------------------

  function ListCell(ms: seq<VirtualMemoryMap>, v: nat): Option<Cell> {
    if ms == [] then None else if ms[0].vmarea.Has(v) then Some(CellAt(ms[0], v)) else ListCell(ms[1..], v)
  }

  lemma {:induction false} ListCellIs(ms: seq<VirtualMemoryMap>, v: nat)
    requires Chain(ms)
    ensures forall i :: 0 <= i < |ms| && ms[i].vmarea.Has(v) ==> ListCell(ms, v) == Some(CellAt(ms[i], v))
    ensures ListCell(ms, v).Some? ==> SomeHas(ms, v)
  {
    if ms != [] {
      ListCellIs(ms[1..], v);
      assert forall i :: 0 < i < |ms| ==> ms[i] == ms[1..][i - 1];
      if SomeHas(ms[1..], v) {
        var i :| 0 <= i < |ms[1..]| && ms[1..][i].vmarea.Has(v);
        assert ms[i + 1].vmarea.Has(v);
      }
    }
  }

  lemma ListMeaning(ms: seq<VirtualMemoryMap>, v: nat)
    requires Chain(ms)
    ensures Meaning(FromList(ms), v) == ListCell(ms, v)
  {
    ChainStarts(ms);
    FromListIs(ms);
    FromListWf(ms);
    ListCellIs(ms, v);
    var m := FromList(ms);
    if SomeHas(ms, v) {
      var i :| 0 <= i < |ms| && ms[i].vmarea.Has(v);
      MeaningAt(m, ms[i].vmarea.start, v);
    } else {
      forall k ensures !Covers(m, k, v) { if k in m { assert IsStart(ms, k); } }
    }
  }

  // ----- statistics ----------------------------------------------------------------

  /** Neighbours with unmapped addresses between them. */
  function Gaps(ms: seq<VirtualMemoryMap>): nat {
    if |ms| < 2 then 0
    else (if ms[1].vmarea.start > ms[0].vmarea.end + 1 then 1 else 0) + Gaps(ms[1..])
  }

  // ----- merging -------------------------------------------------------------------

  predicate CanMerge(a: VirtualMemoryMap, b: VirtualMemoryMap) {
    a.permissions == b.permissions && a.isShared == b.isShared && a.pmarea.end + 1 == b.pmarea.start
  }

  predicate Mergeable(a: VirtualMemoryMap, b: VirtualMemoryMap) {
    a.vmarea.end + 1 == b.vmarea.start && CanMerge(a, b)
  }

  function Merge(a: VirtualMemoryMap, b: VirtualMemoryMap): VirtualMemoryMap {
    VirtualMemoryMap(MemoryArea(a.pmarea.start, b.pmarea.end), MemoryArea(a.vmarea.start, b.vmarea.end), a.permissions, a.isShared)
  }

  /** One pass: a pair is merged at most once, a merged mapping is not looked at again. */
  function Pass(ms: seq<VirtualMemoryMap>): seq<VirtualMemoryMap>
    decreases |ms|
  {
    if |ms| < 2 then ms
    else if Mergeable(ms[0], ms[1]) then [Merge(ms[0], ms[1])] + Pass(ms[2..])
    else [ms[0]] + Pass(ms[1..])
  }

  /** The pairs that the pass merges: keys to remove, mappings to add. */
  function Removals(ms: seq<VirtualMemoryMap>): seq<nat>
    decreases |ms|
  {
    if |ms| < 2 then []
    else if Mergeable(ms[0], ms[1]) then [ms[0].vmarea.start, ms[1].vmarea.start] + Removals(ms[2..])
    else Removals(ms[1..])
  }

  function Additions(ms: seq<VirtualMemoryMap>): seq<VirtualMemoryMap>
    decreases |ms|
  {
    if |ms| < 2 then []
    else if Mergeable(ms[0], ms[1]) then [Merge(ms[0], ms[1])] + Additions(ms[2..])
    else Additions(ms[1..])
  }

  lemma MergeWf(a: VirtualMemoryMap, b: VirtualMemoryMap)
    requires MapWf(a) && MapWf(b) && Mergeable(a, b)
    ensures MapWf(Merge(a, b))
    ensures forall v :: a.vmarea.Has(v) ==> CellAt(Merge(a, b), v) == CellAt(a, v)
    ensures forall v :: b.vmarea.Has(v) ==> CellAt(Merge(a, b), v) == CellAt(b, v)
    ensures Bytes([Merge(a, b)]) == Bytes([a]) + Bytes([b])
  {
    AlignedSum(a.vmarea.Size(), b.vmarea.Size());
    AlignedSum(a.pmarea.Size(), b.pmarea.Size());
  }

  lemma ChainTail(ms: seq<VirtualMemoryMap>, n: nat)
    requires Chain(ms) && n <= |ms|
    ensures Chain(ms[n..])
  {
    assert forall i :: 0 <= i < |ms[n..]| ==> ms[n..][i] == ms[n + i];
  }

  lemma ChainCons(a: VirtualMemoryMap, ms: seq<VirtualMemoryMap>)
    requires MapWf(a) && Chain(ms) && (ms != [] ==> a.vmarea.end < ms[0].vmarea.start)
    ensures Chain([a] + ms)
  {
    var r := [a] + ms;
    ChainStarts(ms);
    assert forall i :: 0 < i < |r| ==> r[i] == ms[i - 1];
    forall i, j | 0 <= i < j < |r| ensures r[i].vmarea.end < r[j].vmarea.start {
      assert i == 0 && j > 1 ==> ms[0].vmarea.start < ms[j - 1].vmarea.start;
    }
  }

  /** Merging the first pair, in front of a tail that stands for the rest. */
  lemma MergedKeeps(a: VirtualMemoryMap, b: VirtualMemoryMap, rest: seq<VirtualMemoryMap>, tail: seq<VirtualMemoryMap>)
    requires Chain([a] + ([b] + rest)) && Mergeable(a, b) && MapWf(a) && MapWf(b)
    requires Chain(tail) && Bytes(tail) == Bytes(rest) && Gaps(tail) == Gaps(rest)
    requires if rest == [] then tail == [] else tail != [] && tail[0].vmarea.start == rest[0].vmarea.start > b.vmarea.end
    ensures Chain([Merge(a, b)] + tail)
    ensures Bytes([Merge(a, b)] + tail) == Bytes([a] + ([b] + rest))
    ensures Gaps([Merge(a, b)] + tail) == Gaps([a] + ([b] + rest))
  {
    MergeWf(a, b);
    ChainCons(Merge(a, b), tail);
    BytesConcat([a], [b] + rest);
    BytesConcat([b], rest);
    BytesConcat([Merge(a, b)], tail);
    GapCons(Merge(a, b), tail);
    GapCons(b, rest);
    GapCons(a, [b] + rest);
  }

  /** Coalescing keeps the order, the first start, the mapped bytes and the gaps, and shortens the
      list by one per merged pair. */
  lemma {:induction false} PassKeeps(ms: seq<VirtualMemoryMap>)
    requires Chain(ms)
    ensures Chain(Pass(ms))
    ensures ms != [] ==> Pass(ms) != [] && Pass(ms)[0].vmarea.start == ms[0].vmarea.start
    ensures ms == [] ==> Pass(ms) == []
    ensures |Pass(ms)| + |Additions(ms)| == |ms|
    ensures Bytes(Pass(ms)) == Bytes(ms)
    ensures Gaps(Pass(ms)) == Gaps(ms)
    decreases |ms|
  {
    if |ms| >= 2 {
      if Mergeable(ms[0], ms[1]) {
        var a, b, rest := ms[0], ms[1], ms[2..];
        ChainTail(ms, 2);
        PassKeeps(rest);
        assert ms == [a] + ([b] + rest) && ms[1..] == [b] + rest;
        MergedKeeps(a, b, rest, Pass(rest));
      } else {
        var a, rest := ms[0], ms[1..];
        ChainTail(ms, 1);
        PassKeeps(rest);
        ChainCons(a, Pass(rest));
        assert ms == [a] + rest;
        BytesConcat([a], rest);
        BytesConcat([a], Pass(rest));
        GapCons(a, rest);
        GapCons(a, Pass(rest));
      }
    }
  }

  lemma GapCons(a: VirtualMemoryMap, ms: seq<VirtualMemoryMap>)
    ensures Gaps([a] + ms) == Gaps(ms) + if ms != [] && ms[0].vmarea.start > a.vmarea.end + 1 then 1 else 0
  {
    assert ([a] + ms)[1..] == ms;
  }

  /** Coalescing preserves meaning: every address keeps its cell. */
  lemma {:induction false} PassMeaning(ms: seq<VirtualMemoryMap>, v: nat)
    requires Chain(ms)
    ensures ListCell(Pass(ms), v) == ListCell(ms, v)
    decreases |ms|
  {
    if |ms| >= 2 {
      if Mergeable(ms[0], ms[1]) {
        MergeWf(ms[0], ms[1]);
        ChainTail(ms, 2);
        PassMeaning(ms[2..], v);
        assert ms[1..][1..] == ms[2..];
        assert Pass(ms)[1..] == Pass(ms[2..]);
      } else {
        ChainTail(ms, 1);
        PassMeaning(ms[1..], v);
        assert Pass(ms)[1..] == Pass(ms[1..]);
      }
    }
  }

  // ----- removing and adding as the code does it ------------------------------------

  function KeySet(keys: seq<nat>): set<nat> { set k | k in keys }

  lemma {:induction false} InsertAllLater(m: Maps, ps: seq<VirtualMemoryMap>, k: nat, x: VirtualMemoryMap)
    requires forall i :: 0 <= i < |ps| ==> ps[i].vmarea.start != k
    ensures InsertAll(m[k := x], ps) == InsertAll(m, ps)[k := x]
    decreases |ps|
  {
    if ps != [] {
      var s := ps[0].vmarea.start;
      assert m[k := x][s := ps[0]] == m[s := ps[0]][k := x];
      InsertAllLater(m[s := ps[0]], ps[1..], k, x);
    }
  }

  /** Starts of additions and removals are starts of the list. */
  lemma {:induction false} ChangesAre(ms: seq<VirtualMemoryMap>)
    requires Chain(ms)
    ensures forall i :: 0 <= i < |Additions(ms)| ==> ms != [] && ms[0].vmarea.start <= Additions(ms)[i].vmarea.start
    ensures forall i :: 0 <= i < |Removals(ms)| ==> ms != [] && ms[0].vmarea.start <= Removals(ms)[i]
    decreases |ms|
  {
    if |ms| >= 2 {
      ChainStarts(ms);
      if Mergeable(ms[0], ms[1]) {
        ChainTail(ms, 2);
        ChangesAre(ms[2..]);
        assert forall i :: 0 < i < |Additions(ms)| ==> Additions(ms)[i] == Additions(ms[2..])[i - 1];
        assert forall i :: 1 < i < |Removals(ms)| ==> Removals(ms)[i] == Removals(ms[2..])[i - 2];
        assert ms[2..] != [] ==> ms[0].vmarea.start < ms[2..][0].vmarea.start;
      } else {
        ChainTail(ms, 1);
        ChangesAre(ms[1..]);
        assert ms[0].vmarea.start < ms[1..][0].vmarea.start;
      }
    } else {
      assert Additions(ms) == [] && Removals(ms) == [];
    }
  }

  /** Removing the merged keys and adding the merged mappings gives the list after the pass. */
  lemma {:induction false} PassApplied(ms: seq<VirtualMemoryMap>)
    requires Chain(ms)
    ensures InsertAll(FromList(ms) - KeySet(Removals(ms)), Additions(ms)) == FromList(Pass(ms))
    decreases |ms|
  {
    if |ms| < 2 {
      assert FromList(ms) - KeySet(Removals(ms)) == FromList(ms);
    } else if Mergeable(ms[0], ms[1]) {
      var a, b, rest := ms[0], ms[1], ms[2..];
      ChainTail(ms, 2);
      PassApplied(rest);
      MergeApplied(a, b, ms);
    } else {
      var a, rest := ms[0], ms[1..];
      ChainTail(ms, 1);
      PassApplied(rest);
      SkipApplied(a, ms);
    }
  }

  lemma TailLater(ms: seq<VirtualMemoryMap>, n: nat)
    requires Chain(ms) && 0 < n <= |ms|
    ensures forall i :: 0 <= i < n ==> ms[i].vmarea.start !in FromList(ms[n..]) && ms[i].vmarea.start !in KeySet(Removals(ms[n..]))
    ensures forall i, j :: 0 <= i < n && 0 <= j < |Additions(ms[n..])| ==> Additions(ms[n..])[j].vmarea.start != ms[i].vmarea.start
  {
    ChainTail(ms, n);
    ChainStarts(ms);
    ChainStarts(ms[n..]);
    FromListIs(ms[n..]);
    ChangesAre(ms[n..]);
    assert forall j :: 0 <= j < |ms[n..]| ==> ms[n..][j] == ms[n + j];
    forall i | 0 <= i < n ensures ms[i].vmarea.start !in FromList(ms[n..]) {
      assert !IsStart(ms[n..], ms[i].vmarea.start);
    }
  }

  lemma PutTwoRemove(m: Maps, a: VirtualMemoryMap, b: VirtualMemoryMap, keys: set<nat>)
    requires a.vmarea.start !in m && b.vmarea.start !in m
    ensures m[b.vmarea.start := b][a.vmarea.start := a] - (keys + {a.vmarea.start, b.vmarea.start}) == m - keys
  {
  }

  lemma MergeApplied(a: VirtualMemoryMap, b: VirtualMemoryMap, ms: seq<VirtualMemoryMap>)
    requires Chain(ms) && |ms| >= 2 && a == ms[0] && b == ms[1] && Mergeable(a, b)
    requires InsertAll(FromList(ms[2..]) - KeySet(Removals(ms[2..])), Additions(ms[2..])) == FromList(Pass(ms[2..]))
    ensures InsertAll(FromList(ms) - KeySet(Removals(ms)), Additions(ms)) == FromList(Pass(ms))
  {
    var rest := ms[2..];
    var base := FromList(rest) - KeySet(Removals(rest));
    TailLater(ms, 2);
    ChainStarts(ms);
    assert ms[1..][1..] == rest;
    assert KeySet(Removals(ms)) == KeySet(Removals(rest)) + {a.vmarea.start, b.vmarea.start};
    PutTwoRemove(FromList(rest), a, b, KeySet(Removals(rest)));
    assert FromList(ms) - KeySet(Removals(ms)) == base;
    assert Additions(ms)[1..] == Additions(rest);
    InsertAllLater(base, Additions(rest), a.vmarea.start, Merge(a, b));
    assert Pass(ms)[1..] == Pass(rest);
  }

  lemma SkipApplied(a: VirtualMemoryMap, ms: seq<VirtualMemoryMap>)
    requires Chain(ms) && |ms| >= 2 && a == ms[0] && !Mergeable(ms[0], ms[1])
    requires InsertAll(FromList(ms[1..]) - KeySet(Removals(ms[1..])), Additions(ms[1..])) == FromList(Pass(ms[1..]))
    ensures InsertAll(FromList(ms) - KeySet(Removals(ms)), Additions(ms)) == FromList(Pass(ms))
  {
    var rest := ms[1..];
    var base := FromList(rest) - KeySet(Removals(rest));
    TailLater(ms, 1);
    assert FromList(ms) - KeySet(Removals(ms)) == base[a.vmarea.start := a];
    InsertAllLater(base, Additions(rest), a.vmarea.start, a);
    assert Pass(ms)[1..] == Pass(rest);
  }

  // ----- on address spaces ---------------------------------------------------------

  /** What coalesce_memory_maps leaves behind. */
  function Coalesced(m: Maps): Maps {
    var ms := Listing(m);
    InsertAll(m - KeySet(Removals(ms)), Additions(ms))
  }

  /** Every address keeps its translation, permissions and sharing; the number of mappings drops by
      exactly the number of merges; mapped bytes and gaps stay. */
  lemma CoalescedKeeps(m: Maps, v: nat)
    requires Wf(m)
    ensures Wf(Coalesced(m))
    ensures Meaning(Coalesced(m), v) == Meaning(m, v)
    ensures |Coalesced(m)| + |Additions(Listing(m))| == |m|
    ensures Bytes(Listing(Coalesced(m))) == Bytes(Listing(m))
    ensures Gaps(Listing(Coalesced(m))) == Gaps(Listing(m))
  {
    var ms := Listing(m);
    ListingIs(m);
    PassApplied(ms);
    PassKeeps(ms);
    PassMeaning(ms, v);
    FromListWf(Pass(ms));
    ListMeaning(ms, v);
    ListMeaning(Pass(ms), v);
    ListingOf(Pass(ms));
    ListSize(ms);
    ListSize(Pass(ms));
  }

  lemma ListSize(ms: seq<VirtualMemoryMap>)
    requires Chain(ms)
    ensures |FromList(ms)| == |ms|
  {
    ChainStarts(ms);
    FromListIs(ms);
  }

  /** The sum over the map is the sum over its ascending list. */
  lemma {:induction false} TotalOfList(ms: seq<VirtualMemoryMap>)
    requires StartsIncrease(ms)
    ensures Total(FromList(ms)) == Bytes(ms)
  {
    if ms != [] {
      TotalOfList(ms[1..]);
      FromListIs(ms[1..]);
      HeadNotInTail(ms);
      TotalAdd(FromList(ms[1..]), ms[0].vmarea.start, ms[0]);
      BytesConcat([ms[0]], ms[1..]);
      assert [ms[0]] + ms[1..] == ms;
    }
  }

  lemma TotalIsListed(m: Maps)
    requires Wf(m)
    ensures Total(m) == Bytes(Listing(m))
  {
    ListingIs(m);
    ChainStarts(Listing(m));
    TotalOfList(Listing(m));
  }

  /** end + 1 cannot overflow on a mapping that has a successor. */
  lemma NextFits(m: Maps, i: nat)
    requires Wf(m) && i + 1 < |Listing(m)|
    ensures Listing(m)[i].vmarea.end + 1 < ADDRESS_LIMIT
  {
    ListingChain(m);
    assert Listing(m)[i].vmarea.end < Listing(m)[i + 1].vmarea.start;
    assert MapWf(Listing(m)[i + 1]);
  }
}
