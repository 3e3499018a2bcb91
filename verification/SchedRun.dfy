/** Scheduler::run keeps the invariant, dispatches a runnable task and is fair. */
module SchedRun {
  import opened Base
  import opened SchedState
  import opened SchedInv
  import opened SchedKeeps

  // ----- one turn of the loop ------------------------------------------------------

  /** The popped zombie is in the zombie queue; its waiters have not been woken yet. */
  function Buried(s: System, cpu: Cpu, id: nat): System {
    s.(zombie := s.zombie[cpu := s.zombie[cpu] + [id]],
       current := if s.ready[cpu] == [] then s.current[cpu := None] else s.current)
  }

  lemma BuriedKeeps(s: System, cpu: Cpu)
    requires CoreInv(s, {}) && s.ready[cpu] != []
    requires s.ready[cpu][0] in s.pool && s.pool[s.ready[cpu][0]].state.Zombie?
    ensures CoreInv(Buried(PopReady(s, cpu), cpu, s.ready[cpu][0]), {s.ready[cpu][0]})
  {
    BuriedPlaced(s, cpu);
  }

  lemma BuriedPlaced(s: System, cpu: Cpu)
    requires Placed(s) && s.ready[cpu] != []
    requires s.ready[cpu][0] in s.pool && s.pool[s.ready[cpu][0]].state.Zombie?
    ensures Placed(Buried(PopReady(s, cpu), cpu, s.ready[cpu][0]))
    ensures ZombieBag(Buried(PopReady(s, cpu), cpu, s.ready[cpu][0])) == ZombieBag(s) + multiset{s.ready[cpu][0]}
  {
    var id := s.ready[cpu][0];
    var t := Buried(PopReady(s, cpu), cpu, id);
    BuriedBags(s, cpu);
    MoveBag(ZombieBag(s), ReadyBag(s), BlockedBag(s), ZombieBag(t), ReadyBag(t), id);
    assert ReadyBag(t) + BlockedBag(t) + ZombieBag(t) == ZombieBag(t) + ReadyBag(t) + BlockedBag(t);
    forall x | x in ZombieBag(t) ensures IsFinished(t.pool, x) { assert x == id || x in ZombieBag(s); }
  }

  lemma BuriedBags(s: System, cpu: Cpu)
    requires s.ready[cpu] != []
    ensures var t := Buried(PopReady(s, cpu), cpu, s.ready[cpu][0]);
            && ReadyBag(t) + multiset{s.ready[cpu][0]} == ReadyBag(s)
            && ZombieBag(t) == ZombieBag(s) + multiset{s.ready[cpu][0]}
            && BlockedBag(t) == BlockedBag(s)
  {
    PopFromQueue(s.ready, cpu);
    PushToQueue(s.zombie, cpu, s.ready[cpu][0]);
  }

  lemma {:induction false} WakeEachQueues(s: System, ids: seq<nat>)
    ensures WakeEach(s, ids).0.waiting == s.waiting
    decreases |ids|
  {
    if ids != [] {
      WakeScanQueues(s, ids[0], 0);
      WakeEachQueues(WakeTask(s, ids[0]).0, ids[1..]);
    }
  }

  lemma WakeScanQueues(s: System, id: nat, cpu: nat)
    requires cpu <= NUM_OF_CPUS
    ensures WakeScan(s, id, cpu).0.waiting == s.waiting
    decreases NUM_OF_CPUS - cpu
  {
  }

  lemma WakeAllQueues(s: System, w: Waker, v: Waker)
    ensures Queue(WakeAll(s, w).0.waiting, v) == if v == w then [] else Queue(s.waiting, v)
  {
    WakeEachQueues(Drain(s, w), Queue(s.waiting, w));
  }

  lemma ExemptionEnds(s: System, id: nat)
    requires ExitSeen(s, {id}) && Unawaited(s.pool, s.waiting, id)
    ensures ExitSeen(s, {})
  {
  }

  lemma ReapKeeps(s: System, cpu: Cpu)
    requires CoreInv(s, {}) && s.ready[cpu] != []
    requires s.ready[cpu][0] in s.pool && s.pool[s.ready[cpu][0]].state.Zombie?
    ensures CoreInv(Reap(PopReady(s, cpu), cpu, s.ready[cpu][0]), {})
  {
    var id := s.ready[cpu][0];
    var z := Buried(PopReady(s, cpu), cpu, id);
    BuriedKeeps(s, cpu);
    var a := WakeAll(z, OfTask(id)).0;
    WakeAllKeeps(z, OfTask(id), {id});
    WakeAllQueues(z, OfTask(id), OfTask(id));
    WakeAllEffect(z, OfTask(id));
    assert Related(s.pool, id);
    assert SameTaskLife(z.pool[id], a.pool[id]);
    var w := OfParent(s.pool[id].parent.value);
    var b := WakeAll(a, w).0;
    WakeAllKeeps(a, w, {id});
    WakeAllQueues(a, w, OfTask(id));
    WakeAllQueues(a, w, w);
    WakeAllEffect(a, w);
    assert SameTaskLife(a.pool[id], b.pool[id]);
    ExemptionEnds(b, id);
  }

  lemma ParkKeeps(s: System, cpu: Cpu)
    requires CoreInv(s, {}) && s.ready[cpu] != [] && IsBlocked(s.pool, s.ready[cpu][0])
    ensures CoreInv(Park(PopReady(s, cpu), cpu, s.ready[cpu][0]), {})
  {
    var id := s.ready[cpu][0];
    var t := Park(PopReady(s, cpu), cpu, id);
    PopFromQueue(s.ready, cpu);
    PushToQueue(s.blocked, cpu, id);
    MoveBag(BlockedBag(s), ReadyBag(s), ZombieBag(s), BlockedBag(t), ReadyBag(t), id);
    assert ReadyBag(t) + BlockedBag(t) + ZombieBag(t) == BlockedBag(t) + ReadyBag(t) + ZombieBag(t);
    assert ZombieBag(t) == ZombieBag(s);
    assert forall x :: x in BlockedBag(t) <==> x == id || x in BlockedBag(s);
  }

  function Removed(s: System, cpu: Cpu): System
    requires s.ready[cpu] != []
  {
    PopReady(s, cpu).(pool := s.pool - {s.ready[cpu][0]})
  }

  lemma RemovedPlaced(s: System, cpu: Cpu)
    requires Placed(s) && s.ready[cpu] != [] && s.ready[cpu][0] in s.pool
    ensures Placed(Removed(s, cpu))
    ensures ZombieBag(Removed(s, cpu)) == ZombieBag(s) && s.ready[cpu][0] !in ZombieBag(s)
  {
    var id := s.ready[cpu][0];
    var t := Removed(s, cpu);
    PopFromQueue(s.ready, cpu);
    InPool(s, id);
    assert multiset(t.pool.Keys) + multiset{id} == multiset(s.pool.Keys) by {
      assert t.pool.Keys == s.pool.Keys - {id};
    }
    var rest := BlockedBag(s) + ZombieBag(s);
    assert (ReadyBag(t) + multiset{id}) + rest == multiset(s.pool.Keys);
    forall x ensures (ReadyBag(t) + rest)[x] == multiset(t.pool.Keys)[x] {
      assert (ReadyBag(t) + multiset{id} + rest)[x] == (multiset(t.pool.Keys) + multiset{id})[x];
    }
    assert ReadyBag(s)[id] >= 1;
    forall x | x in BlockedBag(t) ensures IsBlocked(t.pool, x) { assert IsBlocked(s.pool, x); }
    forall x | x in ZombieBag(t) ensures IsFinished(t.pool, x) { assert IsFinished(s.pool, x); }
  }

  lemma RemovedFamily(pool: map<nat, Task>, id: nat, nextId: nat)
    requires Family(pool) && Ids(pool, nextId) && id in pool && pool[id].state.Terminated?
    ensures Family(pool - {id}) && Ids(pool - {id}, nextId)
    ensures forall x :: IsBlocked(pool - {id}, x) == IsBlocked(pool, x)
  {
    var t := pool - {id};
    forall x | x in t ensures Related(t, x) {
      assert Related(pool, x);
      forall c | c in t[x].children ensures IsChildOf(t, c, x) { assert IsChildOf(pool, c, x); }
    }
  }

  lemma RemovedKeeps(s: System, cpu: Cpu)
    requires CoreInv(s, {}) && s.ready[cpu] != []
    requires s.ready[cpu][0] in s.pool && s.pool[s.ready[cpu][0]].state.Terminated?
    ensures CoreInv(Removed(s, cpu), {})
  {
    var id := s.ready[cpu][0];
    var t := Removed(s, cpu);
    RemovedPlaced(s, cpu);
    RemovedFamily(s.pool, id, s.nextId);
    WaitsFrame(s.pool, t.pool, s.waiting);
    RemovedWaiters(s, cpu);
  }

  lemma RemovedWaiters(s: System, cpu: Cpu)
    requires s.ready[cpu] != [] && s.ready[cpu][0] in s.pool && !IsBlocked(s.pool, s.ready[cpu][0])
    requires forall q, x :: q in Queue(s.waiting, OfTask(x)) ==> IsBlocked(s.pool, q)
    requires WhoWaits(s.pool, s.waiting) && ExitSeen(s, {})
    ensures WhoWaits(Removed(s, cpu).pool, s.waiting) && ExitSeen(Removed(s, cpu), {})
  {
    var t := Removed(s, cpu);
    forall q, c | q in Queue(t.waiting, OfTask(c)) && q != c ensures q in t.pool && c in t.pool[q].children {
      assert IsBlocked(s.pool, q);
    }
    forall c | c in ZombieBag(t) ensures Unawaited(t.pool, t.waiting, c) {
      assert Unawaited(s.pool, s.waiting, c);
    }
  }

  lemma DispatchKeeps(s: System, cpu: Cpu)
    requires CoreInv(s, {}) && s.ready[cpu] != [] && RunnableIn(s, s.ready[cpu][0])
    ensures CoreInv(Dispatch(PopReady(s, cpu), cpu, s.ready[cpu][0]), {})
    ensures RunnableIn(Dispatch(PopReady(s, cpu), cpu, s.ready[cpu][0]), s.ready[cpu][0])
  {
    var t := Dispatch(PopReady(s, cpu), cpu, s.ready[cpu][0]);
    DispatchPlaced(s, cpu);
    FamilyFrame(s.pool, t.pool);
    WaitersFrame(s.pool, t.pool, s.waiting);
    WaitsFrame(s.pool, t.pool, s.waiting);
  }

  lemma DispatchPlaced(s: System, cpu: Cpu)
    requires Placed(s) && s.ready[cpu] != [] && RunnableIn(s, s.ready[cpu][0])
    ensures Placed(Dispatch(PopReady(s, cpu), cpu, s.ready[cpu][0]))
    ensures SameLife(s.pool, Dispatch(PopReady(s, cpu), cpu, s.ready[cpu][0]).pool)
    ensures forall x :: IsBlocked(Dispatch(PopReady(s, cpu), cpu, s.ready[cpu][0]).pool, x) == IsBlocked(s.pool, x)
  {
    var id := s.ready[cpu][0];
    var s1 := PopReady(s, cpu);
    var t := Dispatch(s1, cpu, id);
    DispatchPool(s, cpu);
    PopFromQueue(s.ready, cpu);
    PushToQueue(s1.ready, cpu, id);
    assert ReadyBag(t) == ReadyBag(s);
    assert BlockedBag(t) == BlockedBag(s) && ZombieBag(t) == ZombieBag(s);
    forall x | x in ZombieBag(t) ensures IsFinished(t.pool, x) { assert SameTaskLife(s.pool[x], t.pool[x]); }
  }

  lemma DispatchPool(s: System, cpu: Cpu)
    requires s.ready[cpu] != [] && RunnableIn(s, s.ready[cpu][0])
    ensures SameLife(s.pool, Dispatch(PopReady(s, cpu), cpu, s.ready[cpu][0]).pool)
    ensures forall x :: IsBlocked(Dispatch(PopReady(s, cpu), cpu, s.ready[cpu][0]).pool, x) == IsBlocked(s.pool, x)
  {
  }

  // ----- the whole loop ------------------------------------------------------------

  /** The state after one turn of the loop that does not return. */
  function Turn(s: System, cpu: Cpu): System
    requires s.ready[cpu] != [] ==> s.ready[cpu][0] in s.pool
  {
    if s.ready[cpu] == [] then AddTask(s, Ready, None, cpu)
    else
      var id := s.ready[cpu][0];
      match s.pool[id].state
      case Zombie => Reap(PopReady(s, cpu), cpu, id)
      case Terminated => Removed(s, cpu)
      case Blocked(_) => Park(PopReady(s, cpu), cpu, id)
      case _ => s
  }

  /** The loop goes round once more. */
  ghost predicate Turns(s: System, cpu: Cpu) {
    if s.ready[cpu] == [] then |s.pool| < MAX_TASKS
    else
      && s.ready[cpu][0] in s.pool
      && var st := s.pool[s.ready[cpu][0]].state;
         st.Zombie? || st.Blocked? || (st.Terminated? && |s.ready[cpu]| > 1)
  }

  lemma LoopStep(s: System, cpu: Cpu, previous: Option<nat>)
    ensures Turns(s, cpu) ==> RunLoop(s, cpu, previous) == RunLoop(Turn(s, cpu), cpu, previous)
    ensures !Turns(s, cpu) && RunLoop(s, cpu, previous).1.Dispatched? ==>
              && s.ready[cpu] != [] && RunnableIn(s, s.ready[cpu][0])
              && RunLoop(s, cpu, previous) ==
                 (Dispatch(PopReady(s, cpu), cpu, s.ready[cpu][0]), Dispatched(previous, s.ready[cpu][0]))
  {
  }

  lemma TurnDecreases(s: System, cpu: Cpu)
    requires Turns(s, cpu)
    ensures NonRunnable(Turn(s, cpu).pool, Turn(s, cpu).ready[cpu]) < NonRunnable(s.pool, s.ready[cpu])
            || (s.ready[cpu] == [] && Turn(s, cpu).ready[cpu] != []
                && NonRunnable(Turn(s, cpu).pool, Turn(s, cpu).ready[cpu]) == 0)
  {
    if s.ready[cpu] == [] {
      assert Turn(s, cpu).ready[cpu] == [s.nextId];
      AllRunnable(Turn(s, cpu).pool, [s.nextId]);
    } else {
      var id := s.ready[cpu][0];
      var s1 := PopReady(s, cpu);
      match s.pool[id].state {
        case Zombie =>
          ReapGrows(s1, cpu, id);
          GrowthKeepsMeasure(s1, Reap(s1, cpu, id), cpu);
        case Terminated =>
          RemovalKeepsMeasure(s1.pool, id, s1.ready[cpu]);
        case _ =>
      }
    }
  }

  lemma TurnKeeps(s: System, cpu: Cpu)
    requires CoreInv(s, {}) && Turns(s, cpu)
    ensures CoreInv(Turn(s, cpu), {})
  {
    if s.ready[cpu] == [] {
      SpawnKeeps(s, cpu);
    } else {
      match s.pool[s.ready[cpu][0]].state {
        case Zombie => ReapKeeps(s, cpu);
        case Terminated => RemovedKeeps(s, cpu);
        case Blocked(_) => ParkKeeps(s, cpu);
        case _ =>
      }
    }
  }

  /** run keeps the invariant. */
  lemma {:induction false} RunLoopKeeps(s: System, cpu: Cpu, previous: Option<nat>)
    requires CoreInv(s, {}) && RunLoop(s, cpu, previous).1.Dispatched?
    ensures CoreInv(RunLoop(s, cpu, previous).0, {})
    decreases NonRunnable(s.pool, s.ready[cpu]), if s.ready[cpu] == [] then 1 else 0
  {
    LoopStep(s, cpu, previous);
    if Turns(s, cpu) {
      TurnDecreases(s, cpu);
      TurnKeeps(s, cpu);
      RunLoopKeeps(Turn(s, cpu), cpu, previous);
    } else {
      DispatchKeeps(s, cpu);
    }
  }

  /** run hands the CPU to a runnable task that stays in its queue. */
  lemma {:induction false} RunDispatches(s: System, cpu: Cpu, previous: Option<nat>)
    requires RunLoop(s, cpu, previous).1.Dispatched?
    ensures var (t, r) := RunLoop(s, cpu, previous);
            r.previous == previous && RunnableIn(t, r.next) && t.current[cpu] == Some(r.next)
            && t.ready[cpu] != [] && t.ready[cpu][|t.ready[cpu]| - 1] == r.next
    decreases NonRunnable(s.pool, s.ready[cpu]), if s.ready[cpu] == [] then 1 else 0
  {
    LoopStep(s, cpu, previous);
    if Turns(s, cpu) {
      TurnDecreases(s, cpu);
      RunDispatches(Turn(s, cpu), cpu, previous);
    }
  }
}
