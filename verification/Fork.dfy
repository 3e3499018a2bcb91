/** The memory of a clone: clone_task without the Vm flag. */
module Fork {
  import opened Base
  import opened Vmem
  import opened AddressSpace
  import opened VmManager

  type Frames = map<nat, nat>   // start of a private mapping -> first of the frames allocated for its copy

  function FrameArea(m: VirtualMemoryMap, frame: nat): MemoryArea
    requires m.vmarea.start <= m.vmarea.end
  {
    MemoryArea(frame, frame + (m.vmarea.Size() - 1))
  }

  predicate Private(m: Maps, k: nat) { k in m && !m[k].isShared }

  /** The frames for mapping j are not those of mapping k. */
  ghost predicate OffMap(m: Maps, frames: Frames, j: nat, k: nat)
    requires j in m && j in frames && AreaOk(m[j].vmarea) && k in m
  {
    !Overlap(FrameArea(m[j], frames[j]), m[k].pmarea)
  }

  /** The frames for mapping j are not those for mapping k. */
  ghost predicate OffCopy(m: Maps, frames: Frames, j: nat, k: nat)
    requires j in m && j in frames && AreaOk(m[j].vmarea) && k in m && k in frames && AreaOk(m[k].vmarea)
  {
    !Overlap(FrameArea(m[j], frames[j]), FrameArea(m[k], frames[k]))
  }

  /** What the allocator promises: aligned frames for every private mapping, used by nothing mapped in
      the parent and by no other copy. */
  ghost predicate Fresh(m: Maps, frames: Frames) {
    && (forall k :: Private(m, k) ==> k in frames && Aligned(frames[k]) && AreaOk(m[k].vmarea) && AreaOk(FrameArea(m[k], frames[k])))
    && (forall j, k {:trigger OffMap(m, frames, j, k)} :: Private(m, j) && k in m ==> OffMap(m, frames, j, k))
    && (forall j, k {:trigger OffCopy(m, frames, j, k)} :: Private(m, j) && Private(m, k) && j != k ==> OffCopy(m, frames, j, k))
  }

  /** A shared mapping keeps its frames, a private one gets new ones. */
  function ChildMap(m: Maps, frames: Frames, k: nat): VirtualMemoryMap
    requires k in m && (!m[k].isShared ==> k in frames) && m[k].vmarea.start <= m[k].vmarea.end
  {
    if m[k].isShared then m[k]
    else VirtualMemoryMap(FrameArea(m[k], frames[k]), m[k].vmarea, m[k].permissions, false)
  }

  ghost function Forked(m: Maps, frames: Frames): Maps
    requires Wf(m) && Fresh(m, frames)
  {
    map k | k in m :: ChildMap(m, frames, k)
  }

  /** There are frames for every private mapping. */
  ghost predicate Framed(m: Maps, frames: Frames) {
    forall k :: Private(m, k) ==> k in frames && AreaOk(m[k].vmarea)
  }

  /** Every private mapping among keys has been copied to its frames. */
  ghost predicate CopiedInto(ram: Ram, after: Ram, m: Maps, frames: Frames, keys: set<nat>)
    requires Framed(m, frames)
  {
    forall k, a: nat {:trigger Private(m, k), after(a)} :: k in keys && Private(m, k) && FrameArea(m[k], frames[k]).Has(a) ==>
      after(a) == ram(m[k].pmarea.start + (a - frames[k]))
  }

  /** Nothing outside the frames of the copies has changed. */
  ghost predicate KeptElsewhere(ram: Ram, after: Ram, m: Maps, frames: Frames, keys: set<nat>)
    requires Framed(m, frames)
  {
    forall a: nat {:trigger after(a)} :: (forall k :: k in keys && Private(m, k) ==> !FrameArea(m[k], frames[k]).Has(a)) ==> after(a) == ram(a)
  }

  /** Every private mapping among keys has been copied to its frames; nothing else has changed. */
  ghost predicate CopiedFor(ram: Ram, after: Ram, m: Maps, frames: Frames, keys: set<nat>)
    requires Framed(m, frames)
  {
    CopiedInto(ram, after, m, frames, keys) && KeptElsewhere(ram, after, m, frames, keys)
  }

  // ----- the child's address space ---------------------------------------------------

  lemma ForkedWf(m: Maps, frames: Frames)
    requires Wf(m) && Fresh(m, frames)
    ensures Wf(Forked(m, frames))
  {
    var c := Forked(m, frames);
    forall k | k in c ensures c[k].vmarea.start == k && MapWf(c[k]) {
      assert MapWf(m[k]);
      if !m[k].isShared { assert Private(m, k); }
    }
  }

  lemma ForkedAt(m: Maps, frames: Frames, k: nat, v: nat)
    requires Wf(m) && Fresh(m, frames) && Covers(m, k, v)
    ensures Meaning(m, v) == Some(CellAt(m[k], v))
    ensures Meaning(Forked(m, frames), v) == Some(CellAt(ChildMap(m, frames, k), v))
  {
    ForkedWf(m, frames);
    MeaningAt(m, k, v);
    assert Covers(Forked(m, frames), k, v);
    MeaningAt(Forked(m, frames), k, v);
  }

  lemma ForkedNone(m: Maps, frames: Frames, v: nat)
    requires Wf(m) && Fresh(m, frames) && forall k :: !Covers(m, k, v)
    ensures Meaning(Forked(m, frames), v) == None
  {
    var c := Forked(m, frames);
    forall k ensures !Covers(c, k, v) { assert !Covers(m, k, v); }
    MeaningNone(c, v);
  }

  /** c is p for the child: same permissions and sharing, and the same address if shared. */
  ghost predicate CloneOf(c: Cell, p: Cell) {
    c.permissions == p.permissions && c.isShared == p.isShared && (p.isShared ==> c.paddr == p.paddr)
  }

  /** Same domain, permissions and sharing; shared cells keep their frames. */
  lemma ForkedMeaning(m: Maps, frames: Frames, v: nat)
    requires Wf(m) && Fresh(m, frames)
    ensures Wf(Forked(m, frames))
    ensures Meaning(m, v).None? <==> Meaning(Forked(m, frames), v).None?
    ensures Meaning(m, v).Some? ==> CloneOf(Meaning(Forked(m, frames), v).value, Meaning(m, v).value)
  {
    ForkedWf(m, frames);
    if k :| Covers(m, k, v) { ForkedAt(m, frames, k, v); } else { ForkedNone(m, frames, v); }
  }

  /** A private cell lies in the new frames of its mapping at the same offset. */
  lemma ForkedPrivate(m: Maps, frames: Frames, k: nat, v: nat)
    requires Wf(m) && Fresh(m, frames) && Private(m, k) && m[k].vmarea.Has(v)
    ensures Meaning(Forked(m, frames), v) == Some(Cell(frames[k] + (v - k), m[k].permissions, false))
  {
    ForkedAt(m, frames, k, v);
  }

  lemma CopiedByte(m: Maps, frames: Frames, ram: Ram, after: Ram, k: nat, v: nat)
    requires Wf(m) && Fresh(m, frames) && CopiedFor(ram, after, m, frames, m.Keys) && Covers(m, k, v)
    ensures after(CellAt(m[k], v).paddr) == ram(CellAt(m[k], v).paddr)
    ensures after(CellAt(ChildMap(m, frames, k), v).paddr) == ram(CellAt(m[k], v).paddr)
  {
    Untouched(m, frames, k, CellAt(m[k], v).paddr);
    if Private(m, k) { assert FrameArea(m[k], frames[k]).Has(frames[k] + (v - k)); }
  }

  /** Right after the clone both tasks read the same contents everywhere, and the parent reads what it
      read before. */
  lemma SameContents(m: Maps, frames: Frames, ram: Ram, after: Ram, v: nat)
    requires Wf(m) && Fresh(m, frames) && CopiedFor(ram, after, m, frames, m.Keys)
    ensures Read(after, m, v) == Read(ram, m, v)
    ensures Read(after, Forked(m, frames), v) == Read(ram, m, v)
  {
    if k :| Covers(m, k, v) {
      ForkedAt(m, frames, k, v);
      CopiedByte(m, frames, ram, after, k, v);
    } else {
      ForkedNone(m, frames, v);
    }
  }

  lemma Untouched(m: Maps, frames: Frames, k: nat, p: nat)
    requires Wf(m) && Fresh(m, frames) && k in m && m[k].pmarea.Has(p)
    ensures forall j :: Private(m, j) ==> !FrameArea(m[j], frames[j]).Has(p)
  {
    forall j | Private(m, j) ensures !FrameArea(m[j], frames[j]).Has(p) {
      assert OffMap(m, frames, j, k);
    }
  }

  // ----- isolation -------------------------------------------------------------------

  ghost function Read(ram: Ram, m: Maps, v: nat): Option<Byte> {
    if Meaning(m, v).Some? then Some(ram(Meaning(m, v).value.paddr)) else None
  }

  /** A store through an address space; an unmapped address changes nothing. */
  ghost function Write(ram: Ram, m: Maps, v: nat, x: Byte): Ram {
    if Meaning(m, v).Some? then
      var p := Meaning(m, v).value.paddr;
      (a: nat) => if a == p then x else ram(a)
    else ram
  }

  /** No private page of the parent is reachable through one of its shared mappings. */
  ghost predicate NoAlias(m: Maps) {
    forall j, k :: Private(m, j) && k in m && m[k].isShared ==> !Overlap(m[j].pmarea, m[k].pmarea)
  }

  ghost predicate PrivateAt(m: Maps, v: nat) { Meaning(m, v).Some? && !Meaning(m, v).value.isShared }

  /** No private cell of a is a cell of b. */
  ghost predicate Apart(a: Maps, b: Maps) {
    forall u: nat, v: nat :: PrivateAt(a, u) && Meaning(b, v).Some? ==> Meaning(a, u).value.paddr != Meaning(b, v).value.paddr
  }

  /** The child's private cells are never cells of the parent. */
  lemma ChildApart(m: Maps, frames: Frames)
    requires Wf(m) && Fresh(m, frames)
    ensures Apart(Forked(m, frames), m)
  {
    forall u: nat, v: nat | PrivateAt(Forked(m, frames), u) && Meaning(m, v).Some?
      ensures Meaning(Forked(m, frames), u).value.paddr != Meaning(m, v).value.paddr
    {
      ChildCellApart(m, frames, u, v);
    }
  }

  lemma ChildCellApart(m: Maps, frames: Frames, u: nat, v: nat)
    requires Wf(m) && Fresh(m, frames) && PrivateAt(Forked(m, frames), u) && Meaning(m, v).Some?
    ensures Meaning(Forked(m, frames), u).value.paddr != Meaning(m, v).value.paddr
  {
    var j :| Covers(Forked(m, frames), j, u);
    ForkedAt(m, frames, j, u);
    var k :| Covers(m, k, v);
    MeaningAt(m, k, v);
    FrameNotMap(m, frames, j, k, u, v);
  }

  lemma FrameNotMap(m: Maps, frames: Frames, j: nat, k: nat, u: nat, v: nat)
    requires Wf(m) && Fresh(m, frames) && Private(m, j) && Covers(m, j, u) && Covers(m, k, v)
    ensures frames[j] + (u - j) != CellAt(m[k], v).paddr
  {
    assert OffMap(m, frames, j, k);
    assert MapWf(m[k]);
  }

  /** The parent's private cells are apart from the child's cells exactly when the parent's private and
      shared frames do not alias. */
  lemma ParentApartIff(m: Maps, frames: Frames)
    requires Wf(m) && Fresh(m, frames)
    ensures Apart(m, Forked(m, frames)) <==> NoAlias(m)
  {
    var c := Forked(m, frames);
    if NoAlias(m) {
      forall u: nat, v: nat | PrivateAt(m, u) && Meaning(c, v).Some? ensures Meaning(m, u).value.paddr != Meaning(c, v).value.paddr {
        NoAliasApart(m, frames, u, v);
      }
    } else {
      var j, k :| Private(m, j) && k in m && m[k].isShared && Overlap(m[j].pmarea, m[k].pmarea);
      AliasMeets(m, frames, j, k);
    }
  }

  lemma NoAliasApart(m: Maps, frames: Frames, u: nat, v: nat)
    requires Wf(m) && Fresh(m, frames) && NoAlias(m) && PrivateAt(m, u) && Meaning(Forked(m, frames), v).Some?
    ensures Meaning(m, u).value.paddr != Meaning(Forked(m, frames), v).value.paddr
  {
    ForkedMeaning(m, frames, v);
    var j :| Covers(m, j, u);
    MeaningAt(m, j, u);
    var k :| Covers(m, k, v);
    ForkedAt(m, frames, k, v);
    CellsApart(m, frames, j, k, u, v);
  }

  lemma AliasMeets(m: Maps, frames: Frames, j: nat, k: nat)
    requires Wf(m) && Fresh(m, frames) && Private(m, j) && k in m && m[k].isShared && Overlap(m[j].pmarea, m[k].pmarea)
    ensures !Apart(m, Forked(m, frames))
  {
    var p := if m[j].pmarea.start < m[k].pmarea.start then m[k].pmarea.start else m[j].pmarea.start;
    var u, v := j + (p - m[j].pmarea.start), k + (p - m[k].pmarea.start);
    assert MapWf(m[j]) && MapWf(m[k]);
    assert Covers(m, j, u) && Covers(m, k, v);
    MeaningAt(m, j, u);
    ForkedAt(m, frames, k, v);
    assert PrivateAt(m, u) && Meaning(Forked(m, frames), v).Some?;
  }

  lemma CellsApart(m: Maps, frames: Frames, j: nat, k: nat, u: nat, v: nat)
    requires Wf(m) && Fresh(m, frames) && NoAlias(m) && Private(m, j) && Covers(m, j, u) && Covers(m, k, v)
    ensures CellAt(m[j], u).paddr != CellAt(ChildMap(m, frames, k), v).paddr
  {
    var p := CellAt(m[j], u).paddr;
    if m[k].isShared {
      assert !Overlap(m[j].pmarea, m[k].pmarea);
    } else {
      assert Private(m, k);
      Untouched(m, frames, j, p);
      assert FrameArea(m[k], frames[k]).Has(CellAt(ChildMap(m, frames, k), v).paddr);
    }
  }

  // ----- every interleaving of stores ------------------------------------------------

  datatype Store = Store(byChild: bool, v: nat, x: Byte)

  ghost function Execute(ram: Ram, parent: Maps, child: Maps, ops: seq<Store>): Ram {
    if ops == [] then ram
    else
      var last := ops[|ops| - 1];
      Write(Execute(ram, parent, child, ops[..|ops| - 1]), if last.byChild then child else parent, last.v, last.x)
  }

  /** The stores without the private stores of one of the tasks. */
  ghost function Without(parent: Maps, child: Maps, ops: seq<Store>, byChild: bool): seq<Store> {
    if ops == [] then []
    else
      var last := ops[|ops| - 1];
      var rest := Without(parent, child, ops[..|ops| - 1], byChild);
      if last.byChild == byChild && PrivateAt(if byChild then child else parent, last.v) then rest else rest + [last]
  }

  lemma SameStore(r1: Ram, r2: Ram, writer: Maps, u: nat, x: Byte, reader: Maps, v: nat)
    requires Read(r1, reader, v) == Read(r2, reader, v)
    ensures Read(Write(r1, writer, u, x), reader, v) == Read(Write(r2, writer, u, x), reader, v)
  {
  }

  lemma PrivateStore(ram: Ram, writer: Maps, u: nat, x: Byte, reader: Maps, v: nat)
    requires Apart(writer, reader) && PrivateAt(writer, u)
    ensures Read(Write(ram, writer, u, x), reader, v) == Read(ram, reader, v)
  {
  }

  /** Whatever stores the two tasks interleave, the other task reads what it would read had the first
      made none of its private stores. */
  lemma {:induction false} StoresApart(ram: Ram, parent: Maps, child: Maps, ops: seq<Store>, byChild: bool, v: nat)
    requires if byChild then Apart(child, parent) else Apart(parent, child)
    ensures var reader := if byChild then parent else child;
            Read(Execute(ram, parent, child, ops), reader, v) ==
            Read(Execute(ram, parent, child, Without(parent, child, ops, byChild)), reader, v)
    decreases |ops|
  {
    if ops != [] {
      var reader := if byChild then parent else child;
      var last := ops[|ops| - 1];
      var before := ops[..|ops| - 1];
      StoresApart(ram, parent, child, before, byChild, v);
      var rest := Without(parent, child, before, byChild);
      var writer := if last.byChild then child else parent;
      var r1, r2 := Execute(ram, parent, child, before), Execute(ram, parent, child, rest);
      if last.byChild == byChild && PrivateAt(if byChild then child else parent, last.v) {
        PrivateStore(r1, writer, last.v, last.x, reader, v);
      } else {
        SameStore(r1, r2, writer, last.v, last.x, reader, v);
        assert (rest + [last])[..|rest|] == rest;
      }
    }
  }

  /** Isolation after a clone: neither task ever sees a private store of the other. */
  lemma ForkIsolates(m: Maps, frames: Frames, ram: Ram, ops: seq<Store>, byChild: bool, v: nat)
    requires Wf(m) && Fresh(m, frames) && (!byChild ==> NoAlias(m))
    ensures var child := Forked(m, frames);
            var reader := if byChild then m else child;
            Read(Execute(ram, m, child, ops), reader, v) ==
            Read(Execute(ram, m, child, Without(m, child, ops, byChild)), reader, v)
  {
    ChildApart(m, frames);
    ParentApartIff(m, frames);
    StoresApart(ram, m, Forked(m, frames), ops, byChild, v);
  }

  /** A store to a shared address is read by both tasks. */
  lemma SharedSeen(m: Maps, frames: Frames, ram: Ram, v: nat, x: Byte)
    requires Wf(m) && Fresh(m, frames) && Meaning(m, v).Some? && Meaning(m, v).value.isShared
    ensures Read(Write(ram, m, v, x), Forked(m, frames), v) == Some(x)
    ensures Read(Write(ram, Forked(m, frames), v, x), m, v) == Some(x)
  {
    ForkedMeaning(m, frames, v);
  }

  // ----- an aliased parent ----------------------------------------------------------

  const PrivateMap := VirtualMemoryMap(MemoryArea(0x8000_0000, 0x8000_0fff), MemoryArea(0x1000, 0x1fff), 0xb, false)
  const SharedMap := VirtualMemoryMap(MemoryArea(0x8000_0000, 0x8000_0fff), MemoryArea(0x5000, 0x5fff), 0xb, true)

  /** Both mappings are accepted by the manager: it never compares frames. */
  lemma AliasReached()
    ensures Wf(After([AddOp(PrivateMap), AddOp(SharedMap)]).maps)
    ensures After([AddOp(PrivateMap), AddOp(SharedMap)]).maps == map[0x1000 := PrivateMap, 0x5000 := SharedMap]
  {
    var one, two := [AddOp(PrivateMap)], [AddOp(PrivateMap), AddOp(SharedMap)];
    assert two[..1] == one && one[..0] == [];
    assert After(one).maps == map[0x1000 := PrivateMap];
    assert After(two) == Perform(After(one), AddOp(SharedMap));
  }

  /** A parent with one frame mapped privately at one address and shared at another: the clone sees the
      parent's private store through the shared mapping. */
  lemma AliasExample(frames: Frames, ram: Ram, x: Byte)
    requires Fresh(map[0x1000 := PrivateMap, 0x5000 := SharedMap], frames)
    ensures var m := map[0x1000 := PrivateMap, 0x5000 := SharedMap];
            && Wf(m) && !NoAlias(m) && PrivateAt(m, 0x1000)
            && Read(Write(ram, m, 0x1000, x), Forked(m, frames), 0x5000) == Some(x)
  {
    var m := map[0x1000 := PrivateMap, 0x5000 := SharedMap];
    AliasReached();
    assert Covers(m, 0x1000, 0x1000) && Covers(m, 0x5000, 0x5000);
    MeaningAt(m, 0x1000, 0x1000);
    ForkedAt(m, frames, 0x5000, 0x5000);
    assert Private(m, 0x1000);
  }
}
