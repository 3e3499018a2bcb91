/** Reaped tasks are never reclaimed: nothing takes an entry off a zombie queue, so a collected child
    that was reaped first occupies its slot of the pool for good. */
module SchedReclaim {
  import opened Base
  import opened SchedState
  import opened SchedInv
  import opened SchedRun
  import opened SchedFair
  import opened SchedRuns
  import opened SchedAges
  import opened SchedTheorems
  import opened SchedOld
  import opened SchedResume

  // ----- zombie queues only grow ----------------------------------------------------

  lemma ReapedStep(s: System, step: Step)
    requires Enabled(s, step)
    ensures ZombieBag(s) <= ZombieBag(Apply(s, step))
  {
    match step {
      case WaitBy(id, target) => WaitSame(s, id, target);
      case WakeFirst(w) =>
        var q := Queue(s.waiting, w);
        if q != [] { WakeScanSame(s.(waiting := s.waiting[w := q[1..]]), q[0], 0); }
      case WakeEveryone(w) => WakeAllSame(s, w);
      case Schedule(cpu) => RunOthers(s, cpu, s.current[cpu]);
      case _ =>
    }
  }

  lemma WaitSame(s: System, p: nat, target: WaitTarget)
    requires p in s.pool
    ensures Waitpid(s, p, target).0.zombie == s.zombie
  {
    if target.AnyChild? { ScanSame(s, p, s.pool[p].children); }
  }

  lemma {:induction false} ScanSame(s: System, p: nat, kids: seq<nat>)
    requires p in s.pool
    ensures WaitAnyScan(s, p, kids).0.zombie == s.zombie
  {
    if kids != [] { ScanSame(s, p, kids[1..]); }
  }

  lemma {:induction false} ReapedStays(states: seq<System>, steps: seq<Step>, i: nat, j: nat)
    requires IsRun(states, steps) && i <= j < |states|
    ensures ZombieBag(states[i]) <= ZombieBag(states[j])
    decreases j
  {
    if i < j {
      ReapedStays(states, steps, i, j - 1);
      assert StepAt(states, steps, j - 1);
      ReapedStep(states[j - 1], steps[j - 1]);
    }
  }

  /** Over every run: once reaped, a task is in a zombie queue and in the pool ever after, collected or
      not. */
  lemma ReapedForever(states: seq<System>, steps: seq<Step>, i: nat, j: nat, c: nat)
    requires IsRun(states, steps) && Inv(states[0]) && i <= j < |states| && c in ZombieBag(states[i])
    ensures c in ZombieBag(states[j]) && c in states[j].pool
  {
    ReapedStays(states, steps, i, j);
    Reachable(states, steps, j);
    InPool(states[j], c);
  }

  // ----- what leaves the pool -------------------------------------------------------

  /** What leaves the pool was Terminated and in a ready queue. */
  lemma LeavesFromReady(s: System, step: Step, c: nat)
    requires Inv(s) && Enabled(s, step) && c in s.pool && c !in Apply(s, step).pool
    ensures step.Schedule? && s.pool[c].state.Terminated? && c in ReadyBag(s)
  {
    if step.Schedule? {
      RunAges(s, step.cpu, s.current[step.cpu]);
      assert AgesAt(s, Apply(s, step), c);
    } else {
      StaysInPool(s, step, c);
    }
    ReapedStep(s, step);
    StepKeeps(s, step);
    InPool(s, c);
    InPool(Apply(s, step), c);
    assert c in BlockedBag(s) ==> IsBlocked(s.pool, c);
  }

  lemma StaysInPool(s: System, step: Step, c: nat)
    requires Inv(s) && Enabled(s, step) && !step.Schedule? && c in s.pool
    ensures c in Apply(s, step).pool
  {
    match step {
      case WaitBy(id, target) => WaitpidEffect(s, id, target);
      case WakeFirst(w) =>
        var q := Queue(s.waiting, w);
        if q != [] { WakeScanGrows(s.(waiting := s.waiting[w := q[1..]]), q[0], 0); }
      case WakeEveryone(w) => WakeAllGrows(s, w);
      case _ =>
    }
  }

  /** Some continuation in which c has left the pool. */
  ghost predicate CanLeave(s: System, c: nat) {
    exists states: seq<System>, steps: seq<Step> :: IsRun(states, steps) && states[0] == s && c !in states[|steps|].pool
  }

  lemma LeaveLater(s: System, step: Step, c: nat)
    requires Enabled(s, step) && CanLeave(Apply(s, step), c)
    ensures CanLeave(s, c)
  {
    var states: seq<System>, steps: seq<Step> :| IsRun(states, steps) && states[0] == Apply(s, step) && c !in states[|steps|].pool;
    var states1, steps1 := [s] + states, [step] + steps;
    forall i: nat | i < |steps1| ensures StepAt(states1, steps1, i) {
      if i > 0 { assert StepAt(states, steps, i - 1); }
    }
    assert IsRun(states1, steps1);
  }

  lemma LeftAlready(s: System, c: nat)
    requires c !in s.pool
    ensures CanLeave(s, c)
  {
    assert IsRun([s], []);
  }

  /** Entry c, Terminated, has moved in front of position k. */
  ghost predicate MovedUp(t: System, cpu: Cpu, c: nat, j: nat, k: nat) {
    j < k && j < |t.ready[cpu]| && t.ready[cpu][j] == c && c in t.pool && t.pool[c].state.Terminated?
  }

  /** One call of run removes a Terminated entry or moves it forward. */
  lemma {:induction false} RunSheds(s: System, t: System, cpu: Cpu, previous: Option<nat>, k: nat, c: nat) returns (j: nat)
    requires CoreInv(s, {}) && RunLoop(s, cpu, previous).1.Dispatched? && t == RunLoop(s, cpu, previous).0
    requires k < |s.ready[cpu]| && s.ready[cpu][k] == c && c in s.pool && s.pool[c].state.Terminated?
    ensures c !in t.pool || MovedUp(t, cpu, c, j, k)
    decreases NonRunnable(s.pool, s.ready[cpu])
  {
    j := 0;
    LoopStep(s, cpu, previous);
    if !Turns(s, cpu) {
      j := StopSheds(s, cpu, previous, k);
    } else {
      TurnKeeps(s, cpu);
      if k == 0 {
        FrontRemoved(s, cpu, previous);
      } else {
        TurnDecreases(s, cpu);
        ShedTurn(s, cpu, k);
        j := RunSheds(Turn(s, cpu), t, cpu, previous, k - 1, c);
      }
    }
  }

  lemma StopSheds(s: System, cpu: Cpu, previous: Option<nat>, k: nat) returns (j: nat)
    requires !Turns(s, cpu) && RunLoop(s, cpu, previous).1.Dispatched?
    requires k < |s.ready[cpu]| && s.ready[cpu][k] in s.pool && s.pool[s.ready[cpu][k]].state.Terminated?
    ensures MovedUp(RunLoop(s, cpu, previous).0, cpu, s.ready[cpu][k], j, k)
  {
    LoopStep(s, cpu, previous);
    assert k > 0;
    j := k - 1;
  }

  lemma ShedTurn(s: System, cpu: Cpu, k: nat)
    requires CoreInv(s, {}) && Turns(s, cpu) && 0 < k < |s.ready[cpu]|
    requires s.ready[cpu][k] in s.pool && s.pool[s.ready[cpu][k]].state.Terminated?
    ensures var t, c := Turn(s, cpu), s.ready[cpu][k];
            k - 1 < |t.ready[cpu]| && t.ready[cpu][k - 1] == c && c in t.pool && t.pool[c].state.Terminated?
  {
    TurnShifts(s, cpu, k);
    TerminatedTurn(s, cpu, k);
  }

  lemma {:induction false} ShedLeaves(s: System, cpu: Cpu, k: nat, c: nat)
    requires Inv(s) && Served(s, cpu) && k < |s.ready[cpu]| && s.ready[cpu][k] == c && c in s.pool && s.pool[c].state.Terminated?
    ensures CanLeave(s, c)
    decreases k
  {
    ServedRuns(s, cpu);
    var t := Run(s, cpu).0;
    var j := RunSheds(s, t, cpu, s.current[cpu], k, c);
    if c !in t.pool {
      LeftAlready(t, c);
    } else {
      RunServed(s, cpu);
      RunKeeps(s, cpu);
      ShedLeaves(t, cpu, j, c);
    }
    LeaveLater(s, Schedule(cpu), c);
  }

  lemma ReadyLeaves(s: System, c: nat)
    requires Inv(s) && |s.pool| < MAX_TASKS && c in s.pool && s.pool[c].state.Terminated? && c in ReadyBag(s)
    ensures CanLeave(s, c)
  {
    FlatMember(s.ready, c);
    var cpu: nat :| cpu < |s.ready| && c in s.ready[cpu];
    var k :| 0 <= k < |s.ready[cpu]| && s.ready[cpu][k] == c;
    var t := AddTask(s, Ready, None, cpu);
    AddQuiet(s, cpu);
    assert c < s.nextId;
    assert t.ready[cpu][k] == c && RunnableIn(t, t.ready[cpu][|t.ready[cpu]| - 1]);
    ShedLeaves(t, cpu, k, c);
    LeaveLater(s, Spawn(cpu), c);
  }

  /** A finished and collected task can ever leave the pool if and only if it is still in a ready queue,
      that is, if it was collected before the scheduler reaped it. */
  lemma ReclaimedIff(s: System, c: nat)
    requires Inv(s) && |s.pool| < MAX_TASKS && c in s.pool && s.pool[c].state.Terminated?
    ensures CanLeave(s, c) <==> c in ReadyBag(s)
  {
    InPool(s, c);
    if c in ReadyBag(s) {
      ReadyLeaves(s, c);
    } else if CanLeave(s, c) {
      assert c in BlockedBag(s) ==> IsBlocked(s.pool, c);
      var states: seq<System>, steps: seq<Step> :| IsRun(states, steps) && states[0] == s && c !in states[|steps|].pool;
      ReapedForever(states, steps, 0, |steps|, c);
    }
  }

  // ----- the pool runs full ---------------------------------------------------------

  lemma BagSizes(s: System)
    requires Placed(s)
    ensures |ReadyBag(s)| + |BlockedBag(s)| + |ZombieBag(s)| == |s.pool|
  {
    assert |ReadyBag(s) + BlockedBag(s) + ZombieBag(s)| == |multiset(s.pool.Keys)|;
  }

  lemma BagAtMost(a: multiset<nat>, b: multiset<nat>)
    requires a <= b
    ensures |a| <= |b|
  {
    assert b == a + (b - a);
  }

  /** The reaped tasks occupy at least that many slots. */
  lemma ReapedFill(states: seq<System>, steps: seq<Step>, i: nat, j: nat)
    requires IsRun(states, steps) && Inv(states[0]) && i <= j < |states|
    ensures |ZombieBag(states[i])| <= |states[j].pool|
  {
    ReapedStays(states, steps, i, j);
    BagAtMost(ZombieBag(states[i]), ZombieBag(states[j]));
    Reachable(states, steps, j);
    BagSizes(states[j]);
  }

  /** The pool is full and at most one slot is not held by a reaped task. */
  ghost predicate Full(s: System) { |s.pool| == MAX_TASKS && |ZombieBag(s)| + 1 >= MAX_TASKS }

  lemma ShortQueue(s: System, cpu: Cpu)
    requires Placed(s) && Full(s)
    ensures |s.ready[cpu]| <= 1
  {
    BagSizes(s);
    FlatUpdate(s.ready, cpu, []);
    var rest := multiset(Flat(s.ready[cpu := []]));
    assert |rest + multiset(s.ready[cpu])| == |ReadyBag(s) + multiset([])|;
    assert |multiset(s.ready[cpu])| == |s.ready[cpu]|;
  }

  lemma TurnFull(s: System, cpu: Cpu)
    requires CoreInv(s, {}) && Full(s) && Turns(s, cpu)
    ensures Full(Turn(s, cpu))
  {
    ShortQueue(s, cpu);
    TurnOthers(s, cpu);
    BagAtMost(ZombieBag(s), ZombieBag(Turn(s, cpu)));
    if s.pool[s.ready[cpu][0]].state.Zombie? {
      ReapGrows(PopReady(s, cpu), cpu, s.ready[cpu][0]);
      assert |Turn(s, cpu).pool.Keys| == |s.pool.Keys|;
    }
  }

  lemma {:induction false} RunFull(s: System, cpu: Cpu, previous: Option<nat>)
    requires CoreInv(s, {}) && Full(s) && RunLoop(s, cpu, previous).1.Dispatched?
    ensures |RunLoop(s, cpu, previous).0.pool| == MAX_TASKS
    decreases NonRunnable(s.pool, s.ready[cpu]), if s.ready[cpu] == [] then 1 else 0
  {
    LoopStep(s, cpu, previous);
    if Turns(s, cpu) {
      TurnDecreases(s, cpu);
      TurnKeeps(s, cpu);
      TurnFull(s, cpu);
      RunFull(Turn(s, cpu), cpu, previous);
    } else {
      assert RunLoop(s, cpu, previous).0.pool.Keys == s.pool.Keys;
      assert |RunLoop(s, cpu, previous).0.pool| == |s.pool.Keys|;
    }
  }

  lemma StepFull(s: System, step: Step)
    requires Inv(s) && Full(s) && Enabled(s, step)
    ensures Full(Apply(s, step))
  {
    var t := Apply(s, step);
    ReapedStep(s, step);
    BagAtMost(ZombieBag(s), ZombieBag(t));
    if step.Schedule? {
      RunFull(s, step.cpu, s.current[step.cpu]);
    } else {
      SameKeys(s, step);
      assert |t.pool| == |s.pool.Keys|;
    }
  }

  lemma SameKeys(s: System, step: Step)
    requires Inv(s) && Enabled(s, step) && !step.Schedule? && !step.Spawn? && !step.CloneBy?
    ensures Apply(s, step).pool.Keys == s.pool.Keys
  {
    match step {
      case WaitBy(id, target) => WaitpidEffect(s, id, target);
      case WakeFirst(w) =>
        var q := Queue(s.waiting, w);
        if q != [] { WakeScanGrows(s.(waiting := s.waiting[w := q[1..]]), q[0], 0); }
      case WakeEveryone(w) => WakeAllGrows(s, w);
      case _ =>
    }
  }

  lemma {:induction false} FullStays(states: seq<System>, steps: seq<Step>, n: nat)
    requires IsRun(states, steps) && Inv(states[0]) && Full(states[0]) && n <= |steps|
    ensures Full(states[n])
  {
    if n > 0 {
      FullStays(states, steps, n - 1);
      FullAt(states, steps, n - 1);
    }
  }

  lemma FullAt(states: seq<System>, steps: seq<Step>, i: nat)
    requires IsRun(states, steps) && Inv(states[0]) && i < |steps| && Full(states[i])
    ensures Full(states[i + 1])
  {
    Reachable(states, steps, i);
    assert StepAt(states, steps, i);
    StepFull(states[i], steps[i]);
  }

  /** Once full with reaped tasks, the system never spawns or clones again. */
  lemma FullForever(states: seq<System>, steps: seq<Step>, n: nat, cpu: Cpu, id: nat)
    requires IsRun(states, steps) && Inv(states[0]) && Full(states[0]) && n <= |steps|
    ensures !Enabled(states[n], Spawn(cpu)) && !Enabled(states[n], CloneBy(id, cpu))
  {
    FullStays(states, steps, n);
  }

  // ----- it does run full -----------------------------------------------------------

  /** Only task 1 lives, on CPU 0; its n children have been reaped and collected. */
  ghost predicate Alone(s: System, n: nat) {
    && s.ready == [[1], []] && s.blocked == [[], []] && s.current == [Some(1), None]
    && RunnableIn(s, 1) && s.pool[1].children == []
    && (forall w :: Queue(s.waiting, w) == [])
    && |s.pool| == n + 1 && s.zombie[1] == [] && |s.zombie[0]| == n
  }

  /** Task 1 has cloned child c, which has exited. */
  ghost predicate ChildGone(s: System, c: nat, n: nat, q: seq<nat>) {
    && s.ready == [q, []] && s.blocked == [[], []] && s.current == [Some(1), None]
    && RunnableIn(s, 1) && s.pool[1].children == [c] && c != 1
    && c in s.pool && s.pool[c].state.Zombie? && s.pool[c].parent == Some(1)
    && (forall w :: Queue(s.waiting, w) == [])
    && |s.pool| == n + 2 && s.zombie[1] == [] && |s.zombie[0]| == n
  }

  lemma CloneExits(s: System, n: nat)
    requires Inv(s) && Alone(s, n) && n + 1 < MAX_TASKS
    ensures Enabled(s, CloneBy(1, 0)) && Enabled(Apply(s, CloneBy(1, 0)), ExitBy(s.nextId, 0))
    ensures ChildGone(Apply(Apply(s, CloneBy(1, 0)), ExitBy(s.nextId, 0)), s.nextId, n, [1, s.nextId])
  {
    var c := s.nextId;
    assert c !in s.pool;
    var t := Clone(s, 1, 0);
    assert t.pool[1].children == [c];
    assert t.ready[0] == [1, c] && t.ready[1] == [];
    assert t.ready == [[1, c], []];
    assert t.pool.Keys == s.pool.Keys + {c};
    var u := Exit(t, c, 0);
    assert u.pool.Keys == t.pool.Keys;
    assert |u.pool| == |s.pool.Keys + {c}|;
  }

  /** run passes over task 1 ... */
  lemma RotateOnce(s: System, c: nat, n: nat)
    requires ChildGone(s, c, n, [1, c])
    ensures Run(s, 0).1.Dispatched? && ChildGone(Run(s, 0).0, c, n, [c, 1])
  {
    LoopStep(s, 0, s.current[0]);
    var t := Run(s, 0).0;
    assert t.ready[0] == [c, 1] && t.ready[1] == [];
    assert t.ready == [[c, 1], []];
    assert t.pool.Keys == s.pool.Keys;
    assert |t.pool| == |s.pool.Keys|;
  }

  lemma DrainNobody(s: System, w: Waker)
    requires forall v :: Queue(s.waiting, v) == []
    ensures WakeAll(s, w).0 == s.(waiting := WakeAll(s, w).0.waiting)
    ensures forall v :: Queue(WakeAll(s, w).0.waiting, v) == []
  {
    assert WakeAll(s, w).0 == Drain(s, w);
    forall v ensures Queue(Drain(s, w).waiting, v) == [] { assert Queue(s.waiting, v) == []; }
  }

  /** ... reaps the child, and comes back to task 1. */
  lemma ReapOnce(s: System, c: nat, n: nat)
    requires ChildGone(s, c, n, [c, 1])
    ensures Turns(s, 0) && Turn(s, 0).ready == [[1], []] && Turn(s, 0).pool == s.pool
    ensures Turn(s, 0).blocked == s.blocked && Turn(s, 0).current == s.current
    ensures Turn(s, 0).zombie == [s.zombie[0] + [c], []]
    ensures forall w :: Queue(Turn(s, 0).waiting, w) == []
  {
    var b := Buried(PopReady(s, 0), 0, c);
    assert b.ready[0] == [1] && b.ready == [[1], []];
    assert b.zombie == [s.zombie[0] + [c], []];
    DrainNobody(b, OfTask(c));
    DrainNobody(WakeAll(b, OfTask(c)).0, OfParent(1));
  }

  lemma CollectOnce(s: System, c: nat, n: nat)
    requires ChildGone(s, c, n, [c, 1])
    ensures Run(s, 0).1.Dispatched? && Enabled(Run(s, 0).0, WaitBy(1, Child(c)))
    ensures Alone(Apply(Run(s, 0).0, WaitBy(1, Child(c))), n + 1)
  {
    ReapOnce(s, c, n);
    var t := Turn(s, 0);
    LoopStep(s, 0, s.current[0]);
    RunLone(t, 0, 1);
    var u := Run(s, 0).0;
    assert u == Run(t, 0).0;
    assert u.current == [Some(1), None];
    var v := Waitpid(u, 1, Child(c)).0;
    assert v.pool.Keys == s.pool.Keys;
    assert |v.pool| == |s.pool.Keys|;
    assert RemoveChild([c], c) == [];
  }

  /** One child more: clone, exit, reap, collect. */
  lemma OneMore(states: seq<System>, steps: seq<Step>, n: nat) returns (states1: seq<System>, steps1: seq<Step>)
    requires IsHistory(states, steps) && Alone(states[|steps|], n) && n + 1 < MAX_TASKS
    ensures IsHistory(states1, steps1) && Alone(states1[|steps1|], n + 1)
  {
    HistoryInv(states, steps, |steps|);
    var s := states[|steps|];
    var c := s.nextId;
    CloneExits(s, n);
    states1, steps1 := TakeStep(states, steps, CloneBy(1, 0));
    states1, steps1 := TakeStep(states1, steps1, ExitBy(c, 0));
    RotateOnce(states1[|steps1|], c, n);
    states1, steps1 := TakeStep(states1, steps1, Schedule(0));
    CollectOnce(states1[|steps1|], c, n);
    states1, steps1 := TakeStep(states1, steps1, Schedule(0));
    states1, steps1 := TakeStep(states1, steps1, WaitBy(1, Child(c)));
  }

  lemma {:induction false} ManyChildren(n: nat) returns (states: seq<System>, steps: seq<Step>)
    requires n < MAX_TASKS
    ensures IsHistory(states, steps) && Alone(states[|steps|], n)
  {
    if n == 0 {
      FirstTaskRun();
      states, steps := TakeStep([Empty], [], Spawn(0));
      states, steps := TakeStep(states, steps, Schedule(0));
    } else {
      states, steps := ManyChildren(n - 1);
      states, steps := OneMore(states, steps, n - 1);
    }
  }

  /** A history in which one task has collected 1023 children, one after the other: the pool is full for
      good although only that task lives. */
  lemma PoolExhausted() returns (states: seq<System>, steps: seq<Step>)
    ensures IsHistory(states, steps) && Alone(states[|steps|], MAX_TASKS - 1) && Full(states[|steps|])
  {
    states, steps := ManyChildren(MAX_TASKS - 1);
    var z := states[|steps|].zombie;
    assert z == [z[0], []] && z[1..] == [[]] && z[1..][1..] == [];
    assert Flat(z[1..][1..]) == [] && Flat(z[1..]) == [] + [];
    assert Flat(z) == z[0] + [];
    assert |ZombieBag(states[|steps|])| == |z[0]|;
  }
}
