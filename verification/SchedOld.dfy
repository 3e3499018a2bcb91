/** schedule() looks up what run() returns as the previous one and panics when it is not in
    the pool any more. These lemmas say exactly when that happens. */
module SchedOld {
  import opened Base
  import opened SchedState
  import opened SchedInv
  import opened SchedKeeps
  import opened SchedRun
  import opened SchedFair
  import opened SchedRuns
  import opened SchedAges
  import opened SchedTheorems

  /** Reaping zombie `z` wakes task `x`. */
  ghost predicate WokenBy(s: System, x: nat, z: nat) {
    && z in s.pool && s.pool[z].state.Zombie?
    && (x in Queue(s.waiting, OfTask(z))
        || (s.pool[z].parent.Some? && x in Queue(s.waiting, OfParent(s.pool[z].parent.value))))
  }

  /** Entry j of the ready queue is dispatched if run gets to it: it is runnable, or a zombie in
      front of it wakes it. */
  ghost predicate Servable(s: System, cpu: Cpu, j: nat)
    requires j < |s.ready[cpu]|
  {
    RunnableIn(s, s.ready[cpu][j]) || exists i :: 0 <= i < j && WokenBy(s, s.ready[cpu][j], s.ready[cpu][i])
  }

  lemma ReapQueues(s: System, cpu: Cpu, v: Waker)
    requires s.ready[cpu] != []
    requires s.ready[cpu][0] in s.pool && s.pool[s.ready[cpu][0]].state.Zombie? && s.pool[s.ready[cpu][0]].parent.Some?
    ensures var z := s.ready[cpu][0];
            Queue(Turn(s, cpu).waiting, v) ==
            if v == OfTask(z) || v == OfParent(s.pool[z].parent.value) then [] else Queue(s.waiting, v)
  {
    var z := s.ready[cpu][0];
    var b := Buried(PopReady(s, cpu), cpu, z);
    WakeAllQueues(b, OfTask(z), v);
    WakeAllQueues(WakeAll(b, OfTask(z)).0, OfParent(s.pool[z].parent.value), v);
  }

  lemma ReapRunnable(s: System, cpu: Cpu, x: nat)
    requires Placed(s) && Waits(s.pool, s.waiting, []) && s.ready[cpu] != []
    requires s.ready[cpu][0] in s.pool && s.pool[s.ready[cpu][0]].state.Zombie? && s.pool[s.ready[cpu][0]].parent.Some?
    ensures RunnableIn(Turn(s, cpu), x) <==> RunnableIn(s, x) || WokenBy(s, x, s.ready[cpu][0])
  {
    BuriedPlaced(s, cpu);
    BuriedRunnable(Buried(PopReady(s, cpu), cpu, s.ready[cpu][0]), s, s.ready[cpu][0], x);
  }

  lemma BuriedRunnable(b: System, s: System, z: nat, x: nat)
    requires Placed(b) && Waits(b.pool, b.waiting, []) && b.pool == s.pool && b.waiting == s.waiting
    requires z in s.pool && s.pool[z].state.Zombie? && s.pool[z].parent.Some?
    ensures RunnableIn(WakeAll(WakeAll(b, OfTask(z)).0, OfParent(s.pool[z].parent.value)).0, x) <==>
            RunnableIn(s, x) || WokenBy(s, x, z)
  {
    WakeTwiceRunnable(b, OfTask(z), OfParent(s.pool[z].parent.value), x);
  }

  lemma WakeTwiceRunnable(s: System, v: Waker, w: Waker, x: nat)
    requires Placed(s) && Waits(s.pool, s.waiting, []) && v != w
    ensures RunnableIn(WakeAll(WakeAll(s, v).0, w).0, x) <==>
            RunnableIn(s, x) || x in Queue(s.waiting, v) || x in Queue(s.waiting, w)
  {
    WakeRunnableIff(s, v, x);
    WakeAllEffect(s, v);
    WakeRunnableIff(WakeAll(s, v).0, w, x);
    WakeAllQueues(s, v, w);
  }

  lemma WakeRunnableIff(s: System, w: Waker, x: nat)
    requires Placed(s) && Waits(s.pool, s.waiting, [])
    ensures RunnableIn(WakeAll(s, w).0, x) <==> RunnableIn(s, x) || x in Queue(s.waiting, w)
  {
    WakeAllEffect(s, w);
    assert x in Queue(s.waiting, w) ==> IsBlocked(s.pool, x);
  }

  lemma WokenByTurn(s: System, cpu: Cpu, x: nat, z: nat)
    requires CoreInv(s, {}) && s.ready[cpu] != []
    requires s.ready[cpu][0] in s.pool && s.pool[s.ready[cpu][0]].state.Zombie?
    ensures WokenBy(Turn(s, cpu), x, z) ==> WokenBy(s, x, z)
    ensures WokenBy(s, x, z) ==> WokenBy(Turn(s, cpu), x, z) || WokenBy(s, x, s.ready[cpu][0])
  {
    ReapLife(s, cpu);
    assert Related(s.pool, s.ready[cpu][0]);
    if z in s.pool {
      assert SameTaskLife(s.pool[z], Turn(s, cpu).pool[z]);
      ReapQueues(s, cpu, OfTask(z));
      if s.pool[z].parent.Some? { ReapQueues(s, cpu, OfParent(s.pool[z].parent.value)); }
    }
  }

  lemma WokenLater(s: System, cpu: Cpu, x: nat, i: nat)
    requires CoreInv(s, {}) && 0 < i < |s.ready[cpu]|
    requires s.ready[cpu][0] in s.pool && s.pool[s.ready[cpu][0]].state.Zombie?
    ensures i - 1 < |Turn(s, cpu).ready[cpu]| && Turn(s, cpu).ready[cpu][i - 1] == s.ready[cpu][i]
    ensures WokenBy(Turn(s, cpu), x, s.ready[cpu][i]) ==> WokenBy(s, x, s.ready[cpu][i])
    ensures WokenBy(s, x, s.ready[cpu][i]) ==> WokenBy(Turn(s, cpu), x, s.ready[cpu][i]) || WokenBy(s, x, s.ready[cpu][0])
  {
    TurnShifts(s, cpu, i);
    WokenByTurn(s, cpu, x, s.ready[cpu][i]);
  }

  lemma ServableAfterReap(s: System, cpu: Cpu, j: nat)
    requires CoreInv(s, {}) && 0 < j < |s.ready[cpu]|
    requires s.ready[cpu][0] in s.pool && s.pool[s.ready[cpu][0]].state.Zombie?
    ensures j - 1 < |Turn(s, cpu).ready[cpu]|
    ensures Servable(s, cpu, j) <==> Servable(Turn(s, cpu), cpu, j - 1)
  {
    var t := Turn(s, cpu);
    var x := s.ready[cpu][j];
    TurnShifts(s, cpu, j);
    assert Related(s.pool, s.ready[cpu][0]);
    ReapRunnable(s, cpu, x);
    if i :| 0 <= i < j && WokenBy(s, x, s.ready[cpu][i]) {
      if i > 0 { WokenLater(s, cpu, x, i); }
    }
    if i :| 0 <= i < j - 1 && WokenBy(t, x, t.ready[cpu][i]) { WokenLater(s, cpu, x, i + 1); }
  }

  lemma ServableAfterTurn(s: System, cpu: Cpu, j: nat)
    requires CoreInv(s, {}) && Turns(s, cpu) && 0 < j < |s.ready[cpu]|
    ensures j - 1 < |Turn(s, cpu).ready[cpu]|
    ensures Servable(s, cpu, j) <==> Servable(Turn(s, cpu), cpu, j - 1)
  {
    var t := Turn(s, cpu);
    var x, head := s.ready[cpu][j], s.ready[cpu][0];
    if s.pool[head].state.Zombie? {
      ServableAfterReap(s, cpu, j);
    } else {
      assert t.ready[cpu] == s.ready[cpu][1..] && t.waiting == s.waiting;
      assert RunnableIn(t, x) == RunnableIn(s, x);
      forall z ensures WokenBy(t, x, z) == WokenBy(s, x, z) { }
      if i :| 0 <= i < j && WokenBy(s, x, s.ready[cpu][i]) {
        assert i > 0 && t.ready[cpu][i - 1] == s.ready[cpu][i];
      }
      if i :| 0 <= i < j - 1 && WokenBy(t, x, t.ready[cpu][i]) {
        assert t.ready[cpu][i] == s.ready[cpu][i + 1];
      }
    }
  }

  ghost predicate AnyServable(s: System, cpu: Cpu, k: nat)
    requires k <= |s.ready[cpu]|
  {
    exists j :: 0 <= j < k && Servable(s, cpu, j)
  }

  lemma AnyServableAfterTurn(s: System, cpu: Cpu, k: nat)
    requires CoreInv(s, {}) && Turns(s, cpu) && 0 < k < |s.ready[cpu]|
    ensures k - 1 < |Turn(s, cpu).ready[cpu]|
    ensures AnyServable(s, cpu, k) <==> AnyServable(Turn(s, cpu), cpu, k - 1)
  {
    ServableAfterTurn(s, cpu, k);
    if AnyServable(s, cpu, k) { ServableLater(s, cpu, k); }
    if AnyServable(Turn(s, cpu), cpu, k - 1) { ServableEarlier(s, cpu, k); }
  }

  lemma ServableLater(s: System, cpu: Cpu, k: nat)
    requires CoreInv(s, {}) && Turns(s, cpu) && 0 < k < |s.ready[cpu]| && k - 1 < |Turn(s, cpu).ready[cpu]|
    requires AnyServable(s, cpu, k)
    ensures AnyServable(Turn(s, cpu), cpu, k - 1)
  {
    var j :| 0 <= j < k && Servable(s, cpu, j);
    assert j > 0;
    ServableAfterTurn(s, cpu, j);
    assert Servable(Turn(s, cpu), cpu, j - 1);
  }

  lemma ServableEarlier(s: System, cpu: Cpu, k: nat)
    requires CoreInv(s, {}) && Turns(s, cpu) && 0 < k < |s.ready[cpu]| && k - 1 < |Turn(s, cpu).ready[cpu]|
    requires AnyServable(Turn(s, cpu), cpu, k - 1)
    ensures AnyServable(s, cpu, k)
  {
    var j :| 0 <= j < k - 1 && Servable(Turn(s, cpu), cpu, j);
    ServableAfterTurn(s, cpu, j + 1);
    assert Servable(s, cpu, j + 1);
  }

  /** Where the loop stops it dispatches the front, and nothing leaves the pool. */
  lemma FrontServed(s: System, cpu: Cpu, previous: Option<nat>, k: nat)
    requires !Turns(s, cpu) && RunLoop(s, cpu, previous).1.Dispatched?
    requires k < |s.ready[cpu]| && s.ready[cpu][k] in s.pool && s.pool[s.ready[cpu][k]].state.Terminated?
    ensures s.ready[cpu][k] in RunLoop(s, cpu, previous).0.pool && AnyServable(s, cpu, k)
  {
    assert Servable(s, cpu, 0);
  }

  /** A terminated task at the front that is removed stays away. */
  lemma FrontRemoved(s: System, cpu: Cpu, previous: Option<nat>)
    requires CoreInv(s, {}) && Turns(s, cpu) && s.ready[cpu] != [] && CoreInv(Turn(s, cpu), {})
    requires s.ready[cpu][0] in s.pool && s.pool[s.ready[cpu][0]].state.Terminated?
    requires RunLoop(s, cpu, previous) == RunLoop(Turn(s, cpu), cpu, previous)
    requires RunLoop(s, cpu, previous).1.Dispatched?
    ensures s.ready[cpu][0] !in RunLoop(s, cpu, previous).0.pool
  {
    RunAges(Turn(s, cpu), cpu, previous);
    assert AgesAt(Turn(s, cpu), RunLoop(s, cpu, previous).0, s.ready[cpu][0]);
  }

  /** A terminated task at position k of the ready queue survives a call of run exactly when an
      entry in front of it is dispatched first. */
  lemma {:induction false} TerminatedSurvivesIff(s: System, cpu: Cpu, previous: Option<nat>, k: nat)
    requires CoreInv(s, {}) && RunLoop(s, cpu, previous).1.Dispatched?
    requires k < |s.ready[cpu]| && s.ready[cpu][k] in s.pool && s.pool[s.ready[cpu][k]].state.Terminated?
    ensures s.ready[cpu][k] in RunLoop(s, cpu, previous).0.pool <==> AnyServable(s, cpu, k)
    decreases NonRunnable(s.pool, s.ready[cpu])
  {
    LoopStep(s, cpu, previous);
    if !Turns(s, cpu) {
      FrontServed(s, cpu, previous, k);
    } else {
      TurnDecreases(s, cpu);
      TurnKeeps(s, cpu);
      if k == 0 {
        FrontRemoved(s, cpu, previous);
      } else {
        AnyServableAfterTurn(s, cpu, k);
        TurnShifts(s, cpu, k);
        TerminatedTurn(s, cpu, k);
        TerminatedSurvivesIff(Turn(s, cpu), cpu, previous, k - 1);
      }
    }
  }

  lemma TerminatedTurn(s: System, cpu: Cpu, k: nat)
    requires CoreInv(s, {}) && Turns(s, cpu) && 0 < k < |s.ready[cpu]|
    requires s.ready[cpu][k] in s.pool && s.pool[s.ready[cpu][k]].state.Terminated?
    ensures s.ready[cpu][k] in Turn(s, cpu).pool && Turn(s, cpu).pool[s.ready[cpu][k]].state.Terminated?
  {
    var o := s.ready[cpu][k];
    if s.pool[s.ready[cpu][0]].state.Zombie? {
      ReapLife(s, cpu);
      assert SameTaskLife(s.pool[o], Turn(s, cpu).pool[o]);
    } else {
      EntriesDistinct(s, cpu, k);
    }
  }

  lemma EntriesDistinct(s: System, cpu: Cpu, k: nat)
    requires Placed(s) && 0 < k < |s.ready[cpu]|
    ensures s.ready[cpu][k] != s.ready[cpu][0]
  {
    var q := s.ready[cpu];
    PopFromQueue(s.ready, cpu);
    InPool(s, q[0]);
    var rest := s.ready[cpu := q[1..]];
    assert q[k] in rest[cpu] by { assert q[k] == q[1..][k - 1]; }
    FlatMember(rest, q[k]);
    assert (multiset(Flat(rest)) + multiset{q[0]})[q[0]] == ReadyBag(s)[q[0]];
  }

  /** What run returns as the previous task is still in the pool exactly when it was not
      Terminated or a task in front of it in the ready queue gets dispatched. */
  lemma PreviousSurvivesIff(s: System, cpu: Cpu, k: nat)
    requires Inv(s) && Run(s, cpu).1.Dispatched?
    requires k < |s.ready[cpu]| && s.current[cpu] == Some(s.ready[cpu][k])
    ensures s.ready[cpu][k] in s.pool && Run(s, cpu).1.previous == Some(s.ready[cpu][k])
    ensures s.ready[cpu][k] in Run(s, cpu).0.pool <==>
            !s.pool[s.ready[cpu][k]].state.Terminated? || AnyServable(s, cpu, k)
  {
    var o := s.ready[cpu][k];
    assert o in s.ready[cpu];
    FlatMember(s.ready, o);
    InPool(s, o);
    RunDispatches(s, cpu, s.current[cpu]);
    if s.pool[o].state.Terminated? {
      TerminatedSurvivesIff(s, cpu, s.current[cpu], k);
    } else {
      RunAges(s, cpu, s.current[cpu]);
      assert AgesAt(s, Run(s, cpu).0, o);
    }
  }

  /** run on a CPU whose only ready task is runnable. */
  lemma RunLone(s: System, cpu: Cpu, id: nat)
    requires s.ready[cpu] == [id] && RunnableIn(s, id)
    ensures Run(s, cpu) == (s.(pool := s.pool[id := s.pool[id].(timeSlice := 1, state := Running)],
                               current := s.current[cpu := Some(id)]), Dispatched(s.current[cpu], id))
  {
    var s1 := PopReady(s, cpu);
    assert s1.ready[cpu] == [];
    assert s1.ready[cpu] + [id] == [id];
    assert s1.ready[cpu := [id]] == s.ready;
  }

  /** The system after its first task has been spawned and dispatched on CPU 0. */
  const FirstTask := System(map[1 := Task(1, Running, 1, None, [], None)],
                            [[1], []], [[], []], [[], []], [Some(1), None], map[], 2)

  lemma FirstTaskRun()
    ensures Run(AddTask(Empty, Ready, None, 0), 0) == (FirstTask, Dispatched(None, 1))
  {
    var s := AddTask(Empty, Ready, None, 0);
    assert s.ready[0] == [1];
    assert s.ready == [[1], []];
    RunLone(s, 0, 1);
    assert Run(s, 0).0.pool == FirstTask.pool;
    assert Run(s, 0).0.current == FirstTask.current;
  }

  /** ... after that task has cloned a child on CPU `cpu`. */
  function WithChild(cpu: Cpu): System {
    FirstTask.(pool := map[1 := Task(1, Running, 1, None, [2], None), 2 := Task(2, Running, 1, Some(1), [], None)],
               ready := if cpu == 0 then [[1, 2], []] else [[1], [2]], nextId := 3)
  }

  lemma WithChildIsClone(cpu: Cpu)
    ensures Clone(FirstTask, 1, cpu) == WithChild(cpu)
  {
    var t := Clone(FirstTask, 1, cpu);
    assert t.pool[1].children == [2];
    assert t.pool == WithChild(cpu).pool;
    assert t.ready[0] == WithChild(cpu).ready[0] && t.ready[1] == WithChild(cpu).ready[1];
    assert t.ready == WithChild(cpu).ready;
  }

  lemma RemovedExample()
    ensures Run(Exit(WithChild(0), 1, 0), 0).1 == Dispatched(Some(1), 2)
    ensures 1 !in Run(Exit(WithChild(0), 1, 0), 0).0.pool
  {
    var s := Exit(WithChild(0), 1, 0);
    LoopStep(s, 0, Some(1));
    var t := Turn(s, 0);
    assert t.ready[0] == [2] && t.pool.Keys == {2};
    RunLone(t, 0, 2);
  }

  lemma WithChildReached(cpu: Cpu) returns (states: seq<System>, steps: seq<Step>)
    ensures IsHistory(states, steps) && |steps| == 3 && states[3] == WithChild(cpu)
  {
    FirstTaskRun();
    WithChildIsClone(cpu);
    states, steps := [Empty], [];
    ExtendRun(states, steps, Spawn(0));
    states, steps := states + [AddTask(Empty, Ready, None, 0)], steps + [Spawn(0)];
    ExtendRun(states, steps, Schedule(0));
    states, steps := states + [FirstTask], steps + [Schedule(0)];
    ExtendRun(states, steps, CloneBy(1, cpu));
    states, steps := states + [WithChild(cpu)], steps + [CloneBy(1, cpu)];
  }

  /** It does happen: the first task clones a child on its own CPU and exits. */
  lemma PreviousRemovedExample() returns (states: seq<System>, steps: seq<Step>)
    ensures IsHistory(states, steps)
    ensures var s := states[|steps|];
            s.current[0] == Some(1) && Run(s, 0).1 == Dispatched(Some(1), 2) && 1 !in Run(s, 0).0.pool
  {
    states, steps := WithChildReached(0);
    RemovedExample();
    ExtendRun(states, steps, ExitBy(1, 0));
    states, steps := states + [Exit(WithChild(0), 1, 0)], steps + [ExitBy(1, 0)];
  }

  // ----- the window between waitpid's check and its wait ----------------------------

  /** run on a CPU whose only ready task is a zombie nobody waits for: it is reaped and an idle
      task is created and dispatched. */
  lemma RunReapsLone(s: System, cpu: Cpu, c: nat)
    requires s.ready[cpu] == [c] && c in s.pool && s.pool[c].state.Zombie?
    requires s.waiting == map[] && |s.pool| < MAX_TASKS && s.nextId !in s.pool
    ensures Run(s, cpu).1.Dispatched?
    ensures Run(s, cpu).0.zombie == s.zombie[cpu := s.zombie[cpu] + [c]]
    ensures forall id :: id in s.pool ==> id in Run(s, cpu).0.pool && Run(s, cpu).0.pool[id] == s.pool[id]
  {
    var previous := s.current[cpu];
    LoopStep(s, cpu, previous);
    var t := Turn(s, cpu);
    assert PopReady(s, cpu).ready[cpu] == [];
    var b := Buried(PopReady(s, cpu), cpu, c);
    assert WakeAll(b, OfTask(c)).0 == b;
    assert t == b;
    LoopStep(t, cpu, previous);
    var u := Turn(t, cpu);
    assert u.ready[cpu] == [s.nextId];
    LoopStep(u, cpu, previous);
  }

  lemma MissedExitSteps() returns (live: System, late: System)
    ensures Run(WithChild(1), 1) == (live, Dispatched(None, 2))
    ensures Run(Exit(live, 2, 7), 1).0 == late && Run(Exit(live, 2, 7), 1).1.Dispatched?
    ensures Wait(live, 1, 2).1 == Err(ChildNotExited)
    ensures RunnableIn(live, 1) && RunnableIn(live, 2) && RunnableIn(late, 1) && late.pool[1].children == [2] && 2 in ZombieBag(late)
  {
    var s := WithChild(1);
    RunLone(s, 1, 2);
    live := Run(s, 1).0;
    var z := Exit(live, 2, 7);
    RunReapsLone(z, 1, 2);
    late := Run(z, 1).0;
    assert late.zombie[1] == [2];
    FlatMember(late.zombie, 2);
  }

  /** The window is reachable with two CPUs: the parent sees its child alive, the child exits and is
      reaped on the other CPU, and then the parent would wait for it for good. */
  lemma MissedExitExample() returns (states: seq<System>, steps: seq<Step>)
    ensures IsHistory(states, steps) && |steps| == 6
    ensures RunnableIn(states[4], 1) && Wait(states[4], 1, 2).1 == Err(ChildNotExited)
    ensures RunnableIn(states[6], 1) && OwnWaker(states[6].pool, 1, OfTask(2)) && TooLate(states[6], 1, OfTask(2))
  {
    states, steps := WithChildReached(1);
    var live, late := MissedExitSteps();
    ExtendRun(states, steps, Schedule(1));
    states, steps := states + [live], steps + [Schedule(1)];
    ExtendRun(states, steps, ExitBy(2, 7));
    states, steps := states + [Exit(live, 2, 7)], steps + [ExitBy(2, 7)];
    ExtendRun(states, steps, Schedule(1));
    states, steps := states + [late], steps + [Schedule(1)];
  }
}
