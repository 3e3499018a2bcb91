/** The copying loops of clone_task. */
module CloneMemory {
  import opened Vmem
  import opened AddressSpace
  import opened Coalesce
  import opened VmManager
  import opened Fork

  const TRAMPOLINE: nat := 0xffff_ffff_ffff_f000

  /** copy_nonoverlapping of one page. */
  function PageCopied(ram: Ram, src: nat, dst: nat): Ram
    requires src + PAGE_SIZE <= dst || dst + PAGE_SIZE <= src
  {
    (a: nat) => if dst <= a < dst + PAGE_SIZE then ram(src + (a - dst)) else ram(a)
  }

  /** The size bytes from src on have been copied to dst. */
  ghost predicate Copied(ram: Ram, after: Ram, src: nat, dst: nat, size: nat) {
    forall a: nat {:trigger after(a)} :: after(a) == if dst <= a < dst + size then ram(src + (a - dst)) else ram(a)
  }

  /** Copies n pages, page by page. */
  method CopyPages(ram: Ram, src: nat, dst: nat, n: nat) returns (after: Ram)
    requires src + n * PAGE_SIZE <= dst || dst + n * PAGE_SIZE <= src
    ensures Copied(ram, after, src, dst, n * PAGE_SIZE)
  {
    after := ram;
    var i := 0;
    while i < n
      invariant i <= n
      invariant Copied(ram, after, src, dst, i * PAGE_SIZE)
    {
      after := PageCopied(after, src + i * PAGE_SIZE, dst + i * PAGE_SIZE);
      i := i + 1;
    }
  }

  /** The part of the child's address space for the given keys. */
  ghost function ForkedFor(m: Maps, frames: Frames, keys: set<nat>): Maps
    requires Wf(m) && Fresh(m, frames)
  {
    map k | k in m && k in keys :: ChildMap(m, frames, k)
  }

  lemma ForkedForNext(m: Maps, frames: Frames, done: set<nat>, k: nat)
    requires Wf(m) && Fresh(m, frames) && k in m && k !in done
    ensures MapWf(ChildMap(m, frames, k)) && Free(ForkedFor(m, frames, done), m[k].vmarea)
    ensures ForkedFor(m, frames, done + {k}) == ForkedFor(m, frames, done)[k := ChildMap(m, frames, k)]
  {
    assert MapWf(m[k]);
    if !m[k].isShared { assert Private(m, k); }
    var c := ForkedFor(m, frames, done);
    forall j | j in c ensures !Overlap(c[j].vmarea, m[k].vmarea) {
      assert c[j].vmarea == m[j].vmarea;
      assert j < k || k < j;
    }
  }

  lemma CopiedNext(ram: Ram, mid: Ram, after: Ram, m: Maps, frames: Frames, done: set<nat>, k: nat)
    requires Wf(m) && Fresh(m, frames) && k !in done && Private(m, k)
    requires CopiedFor(ram, mid, m, frames, done)
    requires Copied(mid, after, m[k].pmarea.start, frames[k], m[k].vmarea.Size())
    ensures CopiedFor(ram, after, m, frames, done + {k})
  {
    assert MapWf(m[k]);
    forall j | Private(m, j) ensures OffMap(m, frames, j, k) && (j != k ==> OffCopy(m, frames, j, k)) { }
    IntoNext(ram, mid, after, m, frames, done, k);
    ElsewhereNext(ram, mid, after, m, frames, done, k);
  }

  lemma IntoNext(ram: Ram, mid: Ram, after: Ram, m: Maps, frames: Frames, done: set<nat>, k: nat)
    requires Framed(m, frames) && Private(m, k) && MapInput(m[k])
    requires forall j {:trigger Private(m, j)} :: Private(m, j) ==> OffMap(m, frames, j, k) && (j != k ==> OffCopy(m, frames, j, k))
    requires CopiedInto(ram, mid, m, frames, done) && KeptElsewhere(ram, mid, m, frames, done)
    requires Copied(mid, after, m[k].pmarea.start, frames[k], m[k].vmarea.Size())
    ensures CopiedInto(ram, after, m, frames, done + {k})
  {
    forall j, a: nat | j in done + {k} && Private(m, j) && FrameArea(m[j], frames[j]).Has(a)
      ensures after(a) == ram(m[j].pmarea.start + (a - frames[j]))
    {
      if j == k {
        var p := m[k].pmarea.start + (a - frames[k]);
        assert m[k].pmarea.Has(p);
        assert mid(p) == ram(p);
      } else {
        assert after(a) == mid(a);
      }
    }
  }

  lemma ElsewhereNext(ram: Ram, mid: Ram, after: Ram, m: Maps, frames: Frames, done: set<nat>, k: nat)
    requires Framed(m, frames) && Private(m, k) && KeptElsewhere(ram, mid, m, frames, done)
    requires Copied(mid, after, m[k].pmarea.start, frames[k], m[k].vmarea.Size())
    ensures KeptElsewhere(ram, after, m, frames, done + {k})
  {
    forall a: nat | forall j :: j in done + {k} && Private(m, j) ==> !FrameArea(m[j], frames[j]).Has(a)
      ensures after(a) == ram(a)
    {
      assert !FrameArea(m[k], frames[k]).Has(a);
      assert mid(a) == ram(a);
    }
  }

  /** No mapping is so large that rounding its size up to pages overflows. */
  ghost predicate Countable(m: Maps) {
    forall k :: k in m ==> AreaOk(m[k].vmarea) && m[k].vmarea.Size() + PAGE_SIZE <= ADDRESS_LIMIT
  }

  lemma WholePages(m: Maps, k: nat)
    requires Wf(m) && Countable(m) && k in m
    ensures (m[k].vmarea.Size() + PAGE_SIZE - 1) / PAGE_SIZE * PAGE_SIZE == m[k].vmarea.Size()
    ensures Sizable(m[k])
  {
    assert MapWf(m[k]);
    ExactPages(m[k].vmarea.Size());
  }

  lemma ExactPages(size: nat)
    requires Aligned(size)
    ensures (size + PAGE_SIZE - 1) / PAGE_SIZE * PAGE_SIZE == size
  {
  }

  lemma FramesApart(m: Maps, frames: Frames, k: nat)
    requires Wf(m) && Fresh(m, frames) && Private(m, k)
    ensures var size := m[k].vmarea.Size();
            m[k].pmarea.start + size <= frames[k] || frames[k] + size <= m[k].pmarea.start
  {
    assert MapWf(m[k]);
    assert OffMap(m, frames, k, k);
  }

  /** A shared mapping is entered as it is; the trampoline page also goes into the page table. */
  method ShareMap(child: VirtualMemoryManager, mmap: VirtualMemoryMap) returns (ok: bool)
    requires child.Valid() && child.hasRoot && MapWf(mmap) && Sizable(mmap) && mmap.isShared && Free(child.memmap, mmap.vmarea)
    modifies child`memmap, child`lastSearchCache, child`pageTable
    ensures ok && child.Valid() && child.memmap == old(child.memmap)[mmap.vmarea.start := mmap]
    ensures mmap.vmarea.start == TRAMPOLINE ==>
              child.pageTable == old(child.pageTable)[TRAMPOLINE := Entry(mmap.pmarea.start, mmap.permissions)]
    ensures mmap.vmarea.start != TRAMPOLINE ==> child.pageTable == old(child.pageTable)
  {
    var added := child.AddMemoryMap(mmap);
    if mmap.vmarea.start == TRAMPOLINE {
      assert Covers(child.memmap, TRAMPOLINE, TRAMPOLINE);
      MeaningAt(child.memmap, TRAMPOLINE, TRAMPOLINE);
      var entered := child.LazyMapPage(TRAMPOLINE);
    }
    ok := added.Ok?;
  }

  /** A private mapping gets new frames with a copy of the contents. */
  method CopyMap(child: VirtualMemoryManager, mmap: VirtualMemoryMap, ram: Ram, frame: nat) returns (ok: bool, after: Ram)
    requires child.Valid() && MapWf(mmap) && Sizable(mmap) && mmap.vmarea.Size() + PAGE_SIZE <= ADDRESS_LIMIT
    requires !mmap.isShared && Free(child.memmap, mmap.vmarea) && Aligned(frame) && AreaOk(FrameArea(mmap, frame))
    requires mmap.pmarea.start + mmap.vmarea.Size() <= frame || frame + mmap.vmarea.Size() <= mmap.pmarea.start
    modifies child`memmap, child`lastSearchCache
    ensures ok && child.Valid()
    ensures child.memmap ==
            old(child.memmap)[mmap.vmarea.start := VirtualMemoryMap(FrameArea(mmap, frame), mmap.vmarea, mmap.permissions, false)]
    ensures Copied(ram, after, mmap.pmarea.start, frame, mmap.vmarea.Size())
  {
    var numPages := CountPages(mmap.vmarea);
    after := CopyPages(ram, mmap.pmarea.start, frame, numPages);
    ok := AddCopy(child, mmap, frame, numPages * PAGE_SIZE);
  }

  /** num_pages of an aligned area. */
  method CountPages(a: MemoryArea) returns (n: nat)
    requires AreaOk(a) && a.Size() + PAGE_SIZE <= ADDRESS_LIMIT && Aligned(a.Size())
    ensures n * PAGE_SIZE == a.Size()
  {
    n := (a.end - a.start + 1 + PAGE_SIZE - 1) / PAGE_SIZE;
    ExactPages(a.Size());
  }

  method AddCopy(child: VirtualMemoryManager, mmap: VirtualMemoryMap, frame: nat, size: nat) returns (ok: bool)
    requires child.Valid() && MapWf(mmap) && Sizable(mmap) && Free(child.memmap, mmap.vmarea)
    requires Aligned(frame) && AreaOk(FrameArea(mmap, frame)) && size == mmap.vmarea.Size()
    modifies child`memmap, child`lastSearchCache
    ensures ok && child.Valid()
    ensures child.memmap ==
            old(child.memmap)[mmap.vmarea.start := VirtualMemoryMap(FrameArea(mmap, frame), mmap.vmarea, mmap.permissions, false)]
  {
    CopyWf(mmap, frame);
    var copy := VirtualMemoryMap(MemoryArea(frame, frame + (size - 1)),
                                 MemoryArea(mmap.vmarea.start, mmap.vmarea.start + (size - 1)), mmap.permissions, false);
    var added := child.AddMemoryMap(copy);
    ok := added.Ok?;
  }

  lemma CopyWf(mmap: VirtualMemoryMap, frame: nat)
    requires MapWf(mmap) && Sizable(mmap) && Aligned(frame) && AreaOk(FrameArea(mmap, frame))
    ensures var copy := VirtualMemoryMap(FrameArea(mmap, frame), mmap.vmarea, mmap.permissions, false); MapWf(copy) && Sizable(copy)
  {
  }

  /** One turn of the loop over the parent's mappings. */
  method CloneMap(child: VirtualMemoryManager, mmap: VirtualMemoryMap, mid: Ram, frame: nat,
                  ghost ram: Ram, ghost m: Maps, ghost frames: Frames, ghost done: set<nat>)
    returns (ok: bool, after: Ram)
    requires child.Valid() && child.hasRoot && Wf(m) && Countable(m) && Fresh(m, frames)
    requires mmap.vmarea.start in m && m[mmap.vmarea.start] == mmap && mmap.vmarea.start !in done
    requires !mmap.isShared ==> frame == frames[mmap.vmarea.start]
    requires child.memmap == ForkedFor(m, frames, done) && CopiedFor(ram, mid, m, frames, done)
    modifies child`memmap, child`lastSearchCache, child`pageTable
    ensures ok && child.Valid() && child.memmap == ForkedFor(m, frames, done + {mmap.vmarea.start})
    ensures CopiedFor(ram, after, m, frames, done + {mmap.vmarea.start})
  {
    ghost var k := mmap.vmarea.start;
    ForkedForNext(m, frames, done, k);
    WholePages(m, k);
    if mmap.isShared {
      ok := ShareMap(child, mmap);
      after := mid;
      SharedNext(ram, mid, m, frames, done, k);
    } else {
      assert Private(m, k);
      FramesApart(m, frames, k);
      ok, after := CopyMap(child, mmap, mid, frame);
      CopiedNext(ram, mid, after, m, frames, done, k);
    }
  }

  lemma SharedNext(ram: Ram, mid: Ram, m: Maps, frames: Frames, done: set<nat>, k: nat)
    requires Wf(m) && Fresh(m, frames) && k in m && !Private(m, k) && CopiedFor(ram, mid, m, frames, done)
    ensures CopiedFor(ram, mid, m, frames, done + {k})
  {
    forall a: nat | forall j :: j in done + {k} && Private(m, j) ==> !FrameArea(m[j], frames[j]).Has(a)
      ensures mid(a) == ram(a)
    {
      assert forall j :: j in done && Private(m, j) ==> j in done + {k};
    }
  }

  lemma KeysNext(keys: seq<nat>, i: nat)
    requires i < |keys| && Increasing(keys)
    ensures keys[i] in keys && keys[i] !in KeySet(keys[..i])
    ensures KeySet(keys[..i + 1]) == KeySet(keys[..i]) + {keys[i]}
  {
    assert keys[..i + 1] == keys[..i] + [keys[i]];
  }

  lemma NothingDone(m: Maps, frames: Frames, ram: Ram, keys: seq<nat>)
    requires Wf(m) && Fresh(m, frames)
    ensures ForkedFor(m, frames, KeySet(keys[..0])) == map[] && CopiedFor(ram, ram, m, frames, KeySet(keys[..0]))
  {
    assert KeySet(keys[..0]) == {};
  }

  lemma AllDone(m: Maps, frames: Frames, keys: seq<nat>)
    requires Wf(m) && Fresh(m, frames) && forall k :: k in keys <==> k in m
    ensures KeySet(keys) == m.Keys && ForkedFor(m, frames, KeySet(keys)) == Forked(m, frames)
  {
  }

  method CloneKey(child: VirtualMemoryManager, m: Maps, frames: Frames, k: nat, mid: Ram, ghost ram: Ram, ghost done: set<nat>)
    returns (ok: bool, after: Ram)
    requires child.Valid() && child.hasRoot && Wf(m) && Countable(m) && Fresh(m, frames) && k in m && k !in done
    requires child.memmap == ForkedFor(m, frames, done) && CopiedFor(ram, mid, m, frames, done)
    modifies child`memmap, child`lastSearchCache, child`pageTable
    ensures ok && child.Valid() && child.memmap == ForkedFor(m, frames, done + {k}) && CopiedFor(ram, after, m, frames, done + {k})
  {
    var mmap := m[k];
    assert !mmap.isShared ==> Private(m, k);
    var frame := if mmap.isShared then 0 else frames[k];
    ok, after := CloneMap(child, mmap, mid, frame, ram, m, frames, done);
  }

  /** The loop over the parent's mappings. */
  method CloneEach(m: Maps, keys: seq<nat>, child: VirtualMemoryManager, ram: Ram, frames: Frames)
    returns (ok: bool, after: Ram)
    requires Wf(m) && Countable(m) && Fresh(m, frames)
    requires Increasing(keys) && forall k :: k in keys ==> k in m
    requires child.Valid() && child.hasRoot && child.memmap == map[]
    modifies child`memmap, child`lastSearchCache, child`pageTable
    ensures ok && child.Valid() && child.memmap == ForkedFor(m, frames, KeySet(keys))
    ensures CopiedFor(ram, after, m, frames, KeySet(keys))
  {
    NothingDone(m, frames, ram, keys);
    after, ok := ram, true;
    var i := 0;
    while i < |keys|
      invariant i <= |keys| && child.Valid() && ok
      invariant child.memmap == ForkedFor(m, frames, KeySet(keys[..i]))
      invariant CopiedFor(ram, after, m, frames, KeySet(keys[..i]))
    {
      KeysNext(keys, i);
      ok, after := CloneKey(child, m, frames, keys[i], after, ram, KeySet(keys[..i]));
      i := i + 1;
    }
    assert keys[..i] == keys;
  }

  /** clone_task without the Vm flag, for a user task: it never fails, and the child's address space and
      the contents of memory are as Forked and CopiedFor say. */
  method CloneMaps(parent: VirtualMemoryManager, child: VirtualMemoryManager, ram: Ram, frames: Frames)
    returns (ok: bool, after: Ram)
    requires parent.Valid() && Countable(parent.memmap) && Fresh(parent.memmap, frames)
    requires child.Valid() && child.hasRoot && child != parent && child.memmap == map[]
    modifies child`memmap, child`lastSearchCache, child`pageTable
    ensures ok && child.Valid() && child.memmap == Forked(parent.memmap, frames)
    ensures CopiedFor(ram, after, parent.memmap, frames, parent.memmap.Keys)
  {
    var keys := Ascending(parent.memmap.Keys);
    AscendingIs(parent.memmap.Keys);
    ok, after := CloneEach(parent.memmap, keys, child, ram, frames);
    AllDone(parent.memmap, frames, keys);
  }
}
