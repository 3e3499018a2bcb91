/** How tasks age: a finished task stays finished, and only exit and collection finish one. */
module SchedAges {
  import opened Base
  import opened SchedState
  import opened SchedInv
  import opened SchedKeeps
  import opened SchedRun
  import opened SchedFair
  import opened SchedRuns

  ghost predicate SameEnd(a: Task, b: Task) {
    a.state == b.state && a.parent == b.parent && a.exitStatus == b.exitStatus
  }

  /** No task of `id` is newly finished, and a finished one stays as it is or, when Terminated,
      leaves the pool. */
  ghost predicate AgesAt(s: System, t: System, id: nat) {
    && (id in t.pool ==> id in s.pool || id >= s.nextId)
    && (id in s.pool && !s.pool[id].state.Terminated? ==> id in t.pool && !t.pool[id].state.Terminated?)
    && (IsFinished(t.pool, id) ==> IsFinished(s.pool, id))
    && (IsFinished(s.pool, id) ==>
          if id in t.pool then SameEnd(s.pool[id], t.pool[id]) else s.pool[id].state.Terminated?)
  }

  ghost predicate Ages(s: System, t: System) {
    s.nextId <= t.nextId && forall id :: AgesAt(s, t, id)
  }

  lemma AgesTrans(s: System, t: System, u: System)
    requires Ages(s, t) && Ages(t, u) && Ids(s.pool, s.nextId)
    ensures Ages(s, u)
  {
    forall id ensures AgesAt(s, u, id) {
      assert AgesAt(s, t, id) && AgesAt(t, u, id);
    }
  }

  lemma LifeAges(s: System, t: System)
    requires SameLife(s.pool, t.pool) && s.nextId <= t.nextId
    ensures Ages(s, t)
  {
    forall id ensures AgesAt(s, t, id) {
      if id in s.pool { assert SameTaskLife(s.pool[id], t.pool[id]); }
    }
  }

  lemma TurnAges(s: System, cpu: Cpu)
    requires CoreInv(s, {}) && Turns(s, cpu)
    ensures Ages(s, Turn(s, cpu))
  {
    var t := Turn(s, cpu);
    if s.ready[cpu] == [] {
      SpawnAges(s, cpu);
    } else {
      match s.pool[s.ready[cpu][0]].state {
        case Zombie =>
          ReapLife(s, cpu);
          ReapSameId(PopReady(s, cpu), cpu, s.ready[cpu][0]);
          LifeAges(s, t);
        case Terminated => forall id ensures AgesAt(s, t, id) { }
        case _ => LifeAges(s, t);
      }
    }
  }

  lemma WakeScanSameId(s: System, id: nat, cpu: nat)
    requires cpu <= NUM_OF_CPUS
    ensures WakeScan(s, id, cpu).0.nextId == s.nextId
    decreases NUM_OF_CPUS - cpu
  {
  }

  lemma {:induction false} WakeEachSameId(s: System, ids: seq<nat>)
    ensures WakeEach(s, ids).0.nextId == s.nextId
    decreases |ids|
  {
    if ids != [] {
      WakeScanSameId(s, ids[0], 0);
      WakeEachSameId(WakeTask(s, ids[0]).0, ids[1..]);
    }
  }

  lemma ReapSameId(s: System, cpu: Cpu, id: nat)
    requires id in s.pool
    ensures Reap(s, cpu, id).nextId == s.nextId
  {
    var z := Buried(s, cpu, id);
    WakeEachSameId(Drain(z, OfTask(id)), Queue(z.waiting, OfTask(id)));
    if s.pool[id].parent.Some? {
      var a := WakeAll(z, OfTask(id)).0;
      var w := OfParent(s.pool[id].parent.value);
      WakeEachSameId(Drain(a, w), Queue(a.waiting, w));
    }
  }

  lemma {:induction false} RunAges(s: System, cpu: Cpu, previous: Option<nat>)
    requires CoreInv(s, {}) && RunLoop(s, cpu, previous).1.Dispatched?
    ensures Ages(s, RunLoop(s, cpu, previous).0)
    decreases NonRunnable(s.pool, s.ready[cpu]), if s.ready[cpu] == [] then 1 else 0
  {
    LoopStep(s, cpu, previous);
    if Turns(s, cpu) {
      TurnDecreases(s, cpu);
      TurnKeeps(s, cpu);
      TurnAges(s, cpu);
      RunAges(Turn(s, cpu), cpu, previous);
      AgesTrans(s, Turn(s, cpu), RunLoop(s, cpu, previous).0);
    } else {
      DispatchPool(s, cpu);
      LifeAges(s, RunLoop(s, cpu, previous).0);
    }
  }

  lemma WakeAllAges(s: System, w: Waker)
    requires CoreInv(s, {})
    ensures Ages(s, WakeAll(s, w).0)
  {
    WakeAllEffect(s, w);
    LifeAges(s, WakeAll(s, w).0);
  }

  lemma WakeOneAges(s: System, w: Waker)
    requires CoreInv(s, {})
    ensures Ages(s, WakeOne(s, w).0)
  {
    var q := Queue(s.waiting, w);
    if q == [] {
      LifeAges(s, s);
    } else {
      PopWaiter(s, w);
      WakeHeadAges(s, s.(waiting := s.waiting[w := q[1..]]), q[0]);
    }
  }

  lemma WakeHeadAges(s: System, d: System, id: nat)
    requires d == s.(waiting := d.waiting) && Placed(s)
    requires Waits(s.pool, d.waiting, [id])
    ensures Ages(s, WakeTask(d, id).0)
  {
    assert id in [id];
    assert IsBlocked(s.pool, id);
    WakeBlockedAges(s, d, id);
  }

  lemma WakeBlockedAges(s: System, d: System, id: nat)
    requires d == s.(waiting := d.waiting) && Placed(d) && IsBlocked(d.pool, id)
    ensures Ages(s, WakeTask(d, id).0)
  {
    WakeTaskEffect(d, id);
    WokenAges(s, d, WakeTask(d, id).0, id);
  }

  lemma WokenAges(s: System, d: System, t: System, id: nat)
    requires d == s.(waiting := d.waiting) && IsBlocked(d.pool, id) && WokenFrom(d, t, id)
    ensures Ages(s, t)
  {
    StateAges(s, t, id);
  }

  lemma StateAges(s: System, t: System, id: nat)
    requires id in s.pool && !IsFinished(s.pool, id) && t.nextId == s.nextId
    requires id in t.pool && t.pool == s.pool[id := t.pool[id]] && !IsFinished(t.pool, id)
    ensures Ages(s, t)
  {
    forall x ensures AgesAt(s, t, x) { }
  }

  lemma CloneAges(s: System, p: nat, cpu: Cpu)
    requires Inv(s) && RunnableIn(s, p)
    ensures Ages(s, Clone(s, p, cpu))
  {
    CloneFamily(s, p, cpu);
    forall id ensures AgesAt(s, Clone(s, p, cpu), id) { }
  }

  lemma SpawnAges(s: System, cpu: Cpu)
    requires Ids(s.pool, s.nextId)
    ensures Ages(s, AddTask(s, Ready, None, cpu))
  {
    forall id ensures AgesAt(s, AddTask(s, Ready, None, cpu), id) { }
  }

  lemma WaitAges(s: System, p: nat, target: WaitTarget)
    requires Inv(s) && RunnableIn(s, p) && !Waitpid(s, p, target).1.Collected?
    ensures Ages(s, Waitpid(s, p, target).0)
  {
    WaitpidEffect(s, p, target);
    StateAges(s, Waitpid(s, p, target).0, p);
  }

  /** Steps other than an exit and a collecting waitpid finish nobody. */
  lemma StepAges(s: System, step: Step)
    requires Inv(s) && Enabled(s, step) && !step.ExitBy?
    requires step.WaitBy? ==> !Waitpid(s, step.id, step.target).1.Collected?
    ensures Ages(s, Apply(s, step))
  {
    match step {
      case Spawn(cpu) => SpawnAges(s, cpu);
      case CloneBy(id, cpu) => CloneAges(s, id, cpu);
      case BlockOn(id, n, kind) => StateAges(s, Apply(s, step), id);
      case SleepBy(id) => StateAges(s, Apply(s, step), id);
      case WaitBy(id, target) => WaitAges(s, id, target);
      case WakeFirst(w) => WakeOneAges(s, w);
      case WakeEveryone(w) => WakeAllAges(s, w);
      case Schedule(cpu) => RunAges(s, cpu, s.current[cpu]);
      case _ =>
    }
  }
}
