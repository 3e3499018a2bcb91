/** The fixed array of task slots with its id index and free list. */
module TaskPool {
  import opened Base
  import opened SchedState

  ghost predicate InUse(used: map<nat, nat>, i: nat) { exists id :: id in used && used[id] == i }

  /** Used and free indices are distinct, disjoint and below n. */
  ghost predicate Slots(used: map<nat, nat>, free: seq<nat>, n: nat) {
    && (forall a, b :: a in used && b in used && used[a] == used[b] ==> a == b)
    && NoDup(free)
    && (forall id :: id in used ==> used[id] < n && used[id] !in free)
    && (forall i :: i in free ==> i < n)
  }

  ghost predicate AllHeld(used: map<nat, nat>, free: seq<nat>, n: nat) {
    forall i: nat :: i < n ==> i in free || InUse(used, i)
  }

  /** When used and free slots partition the first n indices their numbers add up. */
  lemma {:induction false} SlotCount(used: map<nat, nat>, free: seq<nat>, n: nat)
    requires Slots(used, free, n) && AllHeld(used, free, n)
    ensures |used| + |free| == n
  {
    if n == 0 {
      HeldBelow(used, free, n);
    } else if n - 1 in free {
      var pos := Position(free, n - 1).value;
      WithoutFree(used, free, n, pos);
      SlotCount(used, RemoveAt(free, pos), n - 1);
    } else {
      assert InUse(used, n - 1);
      var k :| k in used && used[k] == n - 1;
      WithoutKey(used, free, n, k);
      SlotCount(used - {k}, free, n - 1);
      assert (used - {k}).Keys == used.Keys - {k};
    }
  }

  lemma HeldBelow(used: map<nat, nat>, free: seq<nat>, n: nat)
    requires Slots(used, free, n)
    ensures n == 0 ==> used == map[] && free == []
  {
    if free != [] { assert free[0] in free; }
  }

  lemma WithoutFree(used: map<nat, nat>, free: seq<nat>, n: nat, pos: nat)
    requires n > 0 && Slots(used, free, n) && AllHeld(used, free, n)
    requires pos < |free| && free[pos] == n - 1
    ensures Slots(used, RemoveAt(free, pos), n - 1) && AllHeld(used, RemoveAt(free, pos), n - 1)
  {
    RemoveAtDistinct(free, pos);
    assert free[pos] in free;
  }

  lemma WithoutKey(used: map<nat, nat>, free: seq<nat>, n: nat, k: nat)
    requires n > 0 && Slots(used, free, n) && AllHeld(used, free, n)
    requires k in used && used[k] == n - 1
    ensures Slots(used - {k}, free, n - 1) && AllHeld(used - {k}, free, n - 1)
  {
    forall i: nat | i < n - 1 ensures i in free || InUse(used - {k}, i) {
      if i !in free {
        assert InUse(used, i);
        var id :| id in used && used[id] == i;
        assert id in used - {k} && (used - {k})[id] == i;
      }
    }
  }

  /** The slots of live ids hold the tasks of those ids. */
  ghost predicate Filled(slots: seq<Option<Task>>, used: map<nat, nat>) {
    forall id :: id in used ==> used[id] < |slots| && slots[used[id]].Some? && slots[used[id]].value.id == id
  }

  ghost function Contents(slots: seq<Option<Task>>, used: map<nat, nat>): map<nat, Task>
    requires Filled(slots, used)
  {
    map id | id in used :: slots[used[id]].value
  }

  lemma FilledAfterAdd(slots: seq<Option<Task>>, used: map<nat, nat>, task: Task, index: nat)
    requires Filled(slots, used) && index < |slots|
    requires forall x :: x in used && x != task.id ==> used[x] != index
    ensures Filled(slots[index := Some(task)], used[task.id := index])
    ensures Contents(slots[index := Some(task)], used[task.id := index]) == Contents(slots, used)[task.id := task]
  {
  }

  lemma FilledAfterRemove(slots: seq<Option<Task>>, used: map<nat, nat>, id: nat)
    requires Filled(slots, used) && id in used
    requires forall x :: x in used && x != id ==> used[x] != used[id]
    ensures Filled(slots[used[id] := None], used - {id})
    ensures Contents(slots[used[id] := None], used - {id}) == Contents(slots, used) - {id}
  {
  }

  class TaskPool {
    const slots: array<Option<Task>>
    var idToIndex: map<nat, nat>
    var freeIndices: seq<nat>
    var nextFreeIndex: nat
    ghost var tasks: map<nat, Task>     // the finite map that the pool stands for

    ghost predicate Valid()
      reads this, slots
    {
      && slots.Length == MAX_TASKS
      && nextFreeIndex <= MAX_TASKS
      && Slots(idToIndex, freeIndices, nextFreeIndex)
      && Filled(slots[..], idToIndex)
      && tasks == Contents(slots[..], idToIndex)
    }

    /** Every slot handed out so far is in use or on the free list. */
    ghost predicate NoLeak()
      reads this
    {
      AllHeld(idToIndex, freeIndices, nextFreeIndex)
    }

    constructor ()
      ensures Valid() && NoLeak() && fresh(slots)
      ensures tasks == map[]
    {
      slots := new Option<Task>[MAX_TASKS](_ => None);
      idToIndex, freeIndices, nextFreeIndex, tasks := map[], [], 0, map[];
    }

    lemma LiveCount()
      requires Valid() && NoLeak()
      ensures |tasks| + |freeIndices| == nextFreeIndex
    {
      assert tasks.Keys == idToIndex.Keys;
      assert |tasks| == |idToIndex|;
      SlotCount(idToIndex, freeIndices, nextFreeIndex);
    }

    /** Takes the last freed index, or else the next one never used. */
    method TakeIndex() returns (r: Option<nat>)
      requires Valid()
      modifies this`freeIndices, this`nextFreeIndex
      ensures r.None? <==> old(freeIndices) == [] && old(nextFreeIndex) == MAX_TASKS
      ensures r.None? ==> freeIndices == [] && nextFreeIndex == MAX_TASKS
      ensures r.Some? ==> r.value < MAX_TASKS &&
                          if old(freeIndices) != []
                          then freeIndices + [r.value] == old(freeIndices) && nextFreeIndex == old(nextFreeIndex)
                          else freeIndices == [] && r.value == old(nextFreeIndex) && nextFreeIndex == r.value + 1
    {
      if |freeIndices| > 0 {
        assert freeIndices[|freeIndices| - 1] in freeIndices;
        r := Some(freeIndices[|freeIndices| - 1]);
        freeIndices := freeIndices[..|freeIndices| - 1];
      } else if nextFreeIndex < slots.Length {
        r := Some(nextFreeIndex);
        nextFreeIndex := nextFreeIndex + 1;
      } else {
        r := None;
      }
    }

    /** Adding fails exactly when no slot is left; as long as ids are not reused no slot is ever
        lost, so that is when MAX_TASKS tasks are live; reusing a live id loses a slot. */
    method Add(task: Task) returns (ok: bool)
      requires Valid()
      modifies this, slots
      ensures Valid()
      ensures ok <==> old(freeIndices) != [] || old(nextFreeIndex) < MAX_TASKS
      ensures ok ==> tasks == old(tasks)[task.id := task]
      ensures !ok ==> tasks == old(tasks) && NoLeak() == old(NoLeak())
      ensures old(NoLeak()) && ok ==> (NoLeak() <==> task.id !in old(tasks))
      ensures old(NoLeak()) ==> (ok <==> |old(tasks)| < MAX_TASKS)
    {
      if NoLeak() { LiveCount(); }
      var index := TakeIndex();
      if index.None? { return false; }
      AfterAdd(idToIndex, old(freeIndices), old(nextFreeIndex), freeIndices, nextFreeIndex, task.id, index.value);
      FilledAfterAdd(slots[..], idToIndex, task, index.value);
      slots[index.value] := Some(task);
      assert slots[..] == old(slots[..])[index.value := Some(task)];
      idToIndex := idToIndex[task.id := index.value];
      tasks := tasks[task.id := task];
      ok := true;
    }

    method Get(id: nat) returns (r: Option<Task>)
      requires Valid()
      ensures r == if id in tasks then Some(tasks[id]) else None
    {
      if id !in idToIndex { return None; }
      r := slots[idToIndex[id]];
    }

    /** Writing through the reference that get_task hands out. */
    method Put(task: Task)
      requires Valid() && task.id in tasks
      modifies this`tasks, slots
      ensures Valid()
      ensures tasks == old(tasks)[task.id := task]
    {
      var index := idToIndex[task.id];
      FilledAfterAdd(slots[..], idToIndex, task, index);
      slots[index] := Some(task);
      assert slots[..] == old(slots[..])[index := Some(task)];
      assert idToIndex[task.id := index] == idToIndex;
      tasks := tasks[task.id := task];
    }

    /** Removing gives the slot back. */
    method Remove(id: nat) returns (r: Option<Task>)
      requires Valid()
      modifies this, slots
      ensures Valid()
      ensures r == if id in old(tasks) then Some(old(tasks)[id]) else None
      ensures tasks == old(tasks) - {id}
      ensures old(NoLeak()) ==> NoLeak()
      ensures id in old(tasks) ==> |freeIndices| == |old(freeIndices)| + 1
    {
      if id !in idToIndex { return None; }
      AfterRemove(idToIndex, freeIndices, nextFreeIndex, id);
      FilledAfterRemove(slots[..], idToIndex, id);
      var index := idToIndex[id];
      r := slots[index];
      slots[index] := None;
      assert slots[..] == old(slots[..])[index := None];
      idToIndex := idToIndex - {id};
      freeIndices := freeIndices + [index];
      tasks := tasks - {id};
    }
  }

  lemma AfterRemove(used: map<nat, nat>, free: seq<nat>, n: nat, id: nat)
    requires Slots(used, free, n) && id in used
    ensures Slots(used - {id}, free + [used[id]], n)
    ensures AllHeld(used, free, n) ==> AllHeld(used - {id}, free + [used[id]], n)
  {
    var free1 := free + [used[id]];
    if AllHeld(used, free, n) {
      forall i: nat | i < n ensures i in free1 || InUse(used - {id}, i) {
        if i !in free {
          assert InUse(used, i);
          var x :| x in used && used[x] == i;
          if x != id { assert x in used - {id} && (used - {id})[x] == i; } else { assert free1[|free|] == i; }
        }
      }
    }
  }

  /** The slot partition after an add at `index`: kept, and without loss exactly for a fresh id. */
  lemma AfterAdd(used: map<nat, nat>, free: seq<nat>, n: nat, free1: seq<nat>, n1: nat, id: nat, index: nat)
    requires Slots(used, free, n)
    requires if free != [] then free1 + [index] == free && n1 == n else free1 == [] && index == n && n1 == n + 1
    ensures Slots(used[id := index], free1, n1)
    ensures forall x :: x in used ==> used[x] != index
    ensures AllHeld(used, free, n) ==> (AllHeld(used[id := index], free1, n1) <==> id !in used)
  {
    var used1 := used[id := index];
    assert free != [] ==> free[|free1|] == index && index in free;
    assert forall k :: 0 <= k < |free1| ==> free1[k] == free[k];
    forall i | i in free1 ensures i in free && i != index {
      var k :| 0 <= k < |free1| && free1[k] == i;
      assert free[k] == i;
    }
    if id in used {
      var i := used[id];
      assert i !in free1 && i < n1;
      assert !InUse(used1, i);
    } else if AllHeld(used, free, n) {
      forall i: nat | i < n1 ensures i in free1 || InUse(used1, i) {
        if i == index { assert id in used1 && used1[id] == i; }
        else if i !in free {
          assert InUse(used, i);
          var x :| x in used && used[x] == i;
          assert x in used1 && used1[x] == i;
        } else {
          var k :| 0 <= k < |free| && free[k] == i;
          assert free1[k] == i;
        }
      }
    }
  }
}
