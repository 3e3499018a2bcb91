/** What one call of run does to the queues: positions only move forward, other CPUs' queues
    only grow, and it panics only when nothing on the CPU is runnable. */
module SchedFair {
  import opened Base
  import opened SchedState
  import opened SchedInv
  import opened SchedRun

  /** A turn shifts every later entry of the ready queue by one and keeps it runnable. */
  lemma TurnShifts(s: System, cpu: Cpu, k: nat)
    requires Turns(s, cpu) && 0 < k < |s.ready[cpu]|
    ensures var t := Turn(s, cpu);
            k - 1 < |t.ready[cpu]| && t.ready[cpu][k - 1] == s.ready[cpu][k]
            && (RunnableIn(s, s.ready[cpu][k]) ==> RunnableIn(t, s.ready[cpu][k]))
  {
    var id := s.ready[cpu][0];
    var s1 := PopReady(s, cpu);
    assert s1.ready[cpu][k - 1] == s.ready[cpu][k];
    if s.pool[id].state.Zombie? {
      ReapGrows(s1, cpu, id);
      assert s1.ready[cpu] <= Turn(s, cpu).ready[cpu];
      assert RunnableIn(s, s.ready[cpu][k]) ==> RunnableIn(s1, s.ready[cpu][k]);
    }
  }

  /** With a runnable task in the queue, run dispatches instead of panicking, and a runnable
      task at position k is dispatched or moves forward. */
  lemma {:induction false} RunServes(s: System, cpu: Cpu, previous: Option<nat>, k: nat)
    requires CoreInv(s, {}) && k < |s.ready[cpu]| && RunnableIn(s, s.ready[cpu][k])
    ensures var (t, r) := RunLoop(s, cpu, previous);
            && r.Dispatched?
            && (r.next == s.ready[cpu][k]
                || exists j :: 0 <= j < k && j < |t.ready[cpu]| && t.ready[cpu][j] == s.ready[cpu][k])
    decreases NonRunnable(s.pool, s.ready[cpu])
  {
    if Turns(s, cpu) {
      LoopStep(s, cpu, previous);
      TurnDecreases(s, cpu);
      TurnKeeps(s, cpu);
      TurnShifts(s, cpu, k);
      RunServes(Turn(s, cpu), cpu, previous, k - 1);
    } else {
      HeadDispatched(s, cpu, previous, k);
    }
  }

  lemma HeadDispatched(s: System, cpu: Cpu, previous: Option<nat>, k: nat)
    requires Placed(s) && Ids(s.pool, s.nextId)
    requires k < |s.ready[cpu]| && RunnableIn(s, s.ready[cpu][k]) && !Turns(s, cpu)
    ensures var (t, r) := RunLoop(s, cpu, previous);
            && r.Dispatched?
            && (if k == 0 then r.next == s.ready[cpu][k]
                else k - 1 < |t.ready[cpu]| && t.ready[cpu][k - 1] == s.ready[cpu][k])
  {
    HeadInPool(s, cpu);
    assert RunnableIn(s, s.ready[cpu][0]);
    var t := Dispatch(PopReady(s, cpu), cpu, s.ready[cpu][0]);
    assert k > 0 ==> t.ready[cpu][k - 1] == s.ready[cpu][k];
  }

  lemma HeadInPool(s: System, cpu: Cpu)
    requires Placed(s) && s.ready[cpu] != []
    ensures s.ready[cpu][0] in s.pool
  {
    FlatMember(s.ready, s.ready[cpu][0]);
    assert s.ready[cpu][0] in s.ready[cpu];
    InPool(s, s.ready[cpu][0]);
  }

  /** What a call on `cpu` may do elsewhere. */
  ghost predicate OthersGrow(s: System, t: System, cpu: Cpu) {
    && (forall c: Cpu :: c != cpu ==> s.ready[c] <= t.ready[c] && t.current[c] == s.current[c])
    && ZombieBag(s) <= ZombieBag(t)
  }

  lemma WakeAllSame(s: System, w: Waker)
    ensures WakeAll(s, w).0.zombie == s.zombie && WakeAll(s, w).0.current == s.current
  {
    WakeEachSame(Drain(s, w), Queue(s.waiting, w));
  }

  lemma {:induction false} WakeEachSame(s: System, ids: seq<nat>)
    ensures WakeEach(s, ids).0.zombie == s.zombie && WakeEach(s, ids).0.current == s.current
    decreases |ids|
  {
    if ids != [] {
      WakeScanSame(s, ids[0], 0);
      WakeEachSame(WakeTask(s, ids[0]).0, ids[1..]);
    }
  }

  lemma WakeScanSame(s: System, id: nat, cpu: nat)
    requires cpu <= NUM_OF_CPUS
    ensures WakeScan(s, id, cpu).0.zombie == s.zombie && WakeScan(s, id, cpu).0.current == s.current
    decreases NUM_OF_CPUS - cpu
  {
  }

  lemma TurnOthers(s: System, cpu: Cpu)
    requires Turns(s, cpu)
    ensures OthersGrow(s, Turn(s, cpu), cpu)
  {
    if s.ready[cpu] != [] && s.pool[s.ready[cpu][0]].state.Zombie? {
      ReapOthers(s, cpu);
    }
  }

  lemma ReapOthers(s: System, cpu: Cpu)
    requires s.ready[cpu] != [] && s.ready[cpu][0] in s.pool && s.pool[s.ready[cpu][0]].state.Zombie?
    ensures OthersGrow(s, Turn(s, cpu), cpu)
    ensures s.ready[cpu][0] in ZombieBag(Turn(s, cpu))
  {
    var id := s.ready[cpu][0];
    var s1 := PopReady(s, cpu);
    ReapSame(s1, cpu, id);
    forall c: Cpu | c != cpu ensures s.ready[c] <= Reap(s1, cpu, id).ready[c] {
      assert s1.ready[c] == s.ready[c];
      ReapReady(s1, cpu, id, c);
    }
    BuriedOthers(s, Turn(s, cpu), cpu, id);
  }

  lemma BuriedOthers(s: System, t: System, cpu: Cpu, id: nat)
    requires t.zombie == s.zombie[cpu := s.zombie[cpu] + [id]]
    requires t.current == s.current || t.current == s.current[cpu := None]
    requires forall c: Cpu :: c != cpu ==> s.ready[c] <= t.ready[c]
    ensures OthersGrow(s, t, cpu) && id in ZombieBag(t)
  {
    PushToQueue(s.zombie, cpu, id);
  }

  lemma ReapReady(s: System, cpu: Cpu, id: nat, c: Cpu)
    requires id in s.pool
    ensures s.ready[c] <= Reap(s, cpu, id).ready[c]
  {
    ReapGrows(s, cpu, id);
  }

  lemma ReapSame(s: System, cpu: Cpu, id: nat)
    requires id in s.pool
    ensures Reap(s, cpu, id).zombie == Buried(s, cpu, id).zombie
    ensures Reap(s, cpu, id).current == Buried(s, cpu, id).current
  {
    var z := Buried(s, cpu, id);
    WakeAllSame(z, OfTask(id));
    if s.pool[id].parent.Some? {
      WakeAllSame(WakeAll(z, OfTask(id)).0, OfParent(s.pool[id].parent.value));
    }
  }

  lemma {:induction false} RunOthers(s: System, cpu: Cpu, previous: Option<nat>)
    requires RunLoop(s, cpu, previous).1.Dispatched?
    ensures OthersGrow(s, RunLoop(s, cpu, previous).0, cpu)
    decreases NonRunnable(s.pool, s.ready[cpu]), if s.ready[cpu] == [] then 1 else 0
  {
    LoopStep(s, cpu, previous);
    if Turns(s, cpu) {
      TurnDecreases(s, cpu);
      TurnOthers(s, cpu);
      RunOthers(Turn(s, cpu), cpu, previous);
    }
  }

  /** run keeps the whole invariant. */
  lemma RunKeeps(s: System, cpu: Cpu)
    requires Inv(s) && Run(s, cpu).1.Dispatched?
    ensures Inv(Run(s, cpu).0)
  {
    RunLoopKeeps(s, cpu, s.current[cpu]);
    RunDispatches(s, cpu, s.current[cpu]);
    RunOthers(s, cpu, s.current[cpu]);
    var (t, r) := Run(s, cpu);
    forall c: Cpu | t.current[c].Some? ensures t.current[c].value in t.ready[c] {
      if c != cpu { assert s.current[c].value in s.ready[c]; }
    }
  }

  /** A zombie at position k is in the zombie queue after the call, or has moved forward. */
  lemma {:induction false} RunReaps(s: System, cpu: Cpu, previous: Option<nat>, k: nat)
    requires CoreInv(s, {}) && k < |s.ready[cpu]|
    requires s.ready[cpu][k] in s.pool && s.pool[s.ready[cpu][k]].state.Zombie?
    requires RunLoop(s, cpu, previous).1.Dispatched?
    ensures var t := RunLoop(s, cpu, previous).0;
            s.ready[cpu][k] in ZombieBag(t)
            || exists j :: 0 <= j < k && j < |t.ready[cpu]| && t.ready[cpu][j] == s.ready[cpu][k]
    decreases NonRunnable(s.pool, s.ready[cpu])
  {
    var z := s.ready[cpu][k];
    HeadInPool(s, cpu);
    LoopStep(s, cpu, previous);
    if Turns(s, cpu) {
      TurnDecreases(s, cpu);
      TurnKeeps(s, cpu);
      if k == 0 {
        ReapOthers(s, cpu);
        RunOthers(Turn(s, cpu), cpu, previous);
      } else {
        TurnShifts(s, cpu, k);
        TurnKeepsZombie(s, cpu, z);
        RunReaps(Turn(s, cpu), cpu, previous, k - 1);
      }
    } else {
      var t := Dispatch(PopReady(s, cpu), cpu, s.ready[cpu][0]);
      assert t.ready[cpu][k - 1] == z;
    }
  }

  lemma ReapLife(s: System, cpu: Cpu)
    requires CoreInv(s, {}) && s.ready[cpu] != []
    requires s.ready[cpu][0] in s.pool && s.pool[s.ready[cpu][0]].state.Zombie?
    ensures SameLife(s.pool, Reap(PopReady(s, cpu), cpu, s.ready[cpu][0]).pool)
  {
    var id := s.ready[cpu][0];
    var z := Buried(PopReady(s, cpu), cpu, id);
    BuriedKeeps(s, cpu);
    var a := WakeAll(z, OfTask(id)).0;
    WakeAllEffect(z, OfTask(id));
    WakeAllKeeps(z, OfTask(id), {id});
    assert SameTaskLife(z.pool[id], a.pool[id]);
    if s.pool[id].parent.Some? {
      WakeAllEffect(a, OfParent(s.pool[id].parent.value));
      SameLifeTrans(z.pool, a.pool, WakeAll(a, OfParent(s.pool[id].parent.value)).0.pool);
    }
  }

  lemma SameLifeTrans(p1: map<nat, Task>, p2: map<nat, Task>, p3: map<nat, Task>)
    requires SameLife(p1, p2) && SameLife(p2, p3)
    ensures SameLife(p1, p3)
  {
    forall id | id in p1 ensures SameTaskLife(p1[id], p3[id]) {
      assert SameTaskLife(p1[id], p2[id]) && SameTaskLife(p2[id], p3[id]);
    }
  }

  lemma TurnKeepsZombie(s: System, cpu: Cpu, z: nat)
    requires CoreInv(s, {}) && Turns(s, cpu) && z in s.pool && s.pool[z].state.Zombie?
    ensures z in Turn(s, cpu).pool && Turn(s, cpu).pool[z].state.Zombie?
  {
    if s.ready[cpu] != [] && s.pool[s.ready[cpu][0]].state.Zombie? {
      ReapLife(s, cpu);
      assert SameTaskLife(s.pool[z], Turn(s, cpu).pool[z]);
    }
  }
}
