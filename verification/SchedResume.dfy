/** Who comes back from waitpid(-1): exactly the tasks with children. */
module SchedResume {
  import opened Base
  import opened SchedState
  import opened SchedInv
  import opened SchedRun
  import opened SchedFair
  import opened SchedRuns
  import opened SchedTheorems
  import opened SchedWaiting
  import opened SchedOld
  import opened SchedLost
  import opened SchedWindow

  /** Nobody but the scheduler wakes p's wait-any waker. */
  ghost predicate Undisturbed(steps: seq<Step>, p: nat) {
    forall i :: 0 <= i < |steps| ==> !Wakes(steps[i], OfParent(p))
  }

  /** Some continuation, without such a wake, in which p runs again. */
  ghost predicate CanResume(s: System, p: nat) {
    exists states, steps :: IsRun(states, steps) && states[0] == s && Undisturbed(steps, p) && RunnableIn(states[|steps|], p)
  }

  lemma StepFirst(s: System, step: Step, p: nat)
    requires Enabled(s, step) && !Wakes(step, OfParent(p)) && CanResume(Apply(s, step), p)
    ensures CanResume(s, p)
  {
    var states, steps :|
      IsRun(states, steps) && states[0] == Apply(s, step) && Undisturbed(steps, p) && RunnableIn(states[|steps|], p);
    var states1, steps1 := [s] + states, [step] + steps;
    forall i: nat | i < |steps1| ensures StepAt(states1, steps1, i) {
      if i > 0 { assert StepAt(states, steps, i - 1); }
    }
    assert IsRun(states1, steps1) && Undisturbed(steps1, p);
  }

  lemma RunsNow(s: System, p: nat)
    requires RunnableIn(s, p)
    ensures CanResume(s, p)
  {
    assert IsRun([s], []) && Undisturbed([], p);
  }

  // ----- a child that has exited ----------------------------------------------------

  lemma TurnWaiter(s: System, cpu: Cpu, p: nat, w: Waker)
    requires CoreInv(s, {}) && Turns(s, cpu) && p in Queue(s.waiting, w)
    ensures p in Queue(Turn(s, cpu).waiting, w) || RunnableIn(Turn(s, cpu), p)
  {
    if s.ready[cpu] != [] && s.pool[s.ready[cpu][0]].state.Zombie? {
      assert Related(s.pool, s.ready[cpu][0]);
      ReapQueues(s, cpu, w);
      ReapRunnable(s, cpu, p);
    }
  }

  lemma {:induction false} RunWaiter(s: System, cpu: Cpu, previous: Option<nat>, p: nat, w: Waker)
    requires CoreInv(s, {}) && RunLoop(s, cpu, previous).1.Dispatched? && p in Queue(s.waiting, w)
    ensures p in Queue(RunLoop(s, cpu, previous).0.waiting, w) || RunnableIn(RunLoop(s, cpu, previous).0, p)
    decreases NonRunnable(s.pool, s.ready[cpu]), if s.ready[cpu] == [] then 1 else 0
  {
    LoopStep(s, cpu, previous);
    if Turns(s, cpu) {
      TurnDecreases(s, cpu);
      TurnKeeps(s, cpu);
      TurnWaiter(s, cpu, p, w);
      if RunnableIn(Turn(s, cpu), p) {
        RunKeepsRunnable(Turn(s, cpu), cpu, previous, p);
      } else {
        RunWaiter(Turn(s, cpu), cpu, previous, p, w);
      }
    }
  }

  /** One call of run on the CPU of an exited child: p runs, or the child has moved forward. */
  lemma ReapProgress(s: System, cpu: Cpu, k: nat, p: nat) returns (j: nat)
    requires Inv(s) && Run(s, cpu).1.Dispatched? && p in Queue(s.waiting, OfParent(p))
    requires k < |s.ready[cpu]| && IsZombieOf(s.pool, s.ready[cpu][k], p)
    ensures var t := Run(s, cpu).0;
            RunnableIn(t, p) ||
            (p in Queue(t.waiting, OfParent(p)) && j < k && j < |t.ready[cpu]| && IsZombieOf(t.pool, t.ready[cpu][j], p))
  {
    var c := s.ready[cpu][k];
    var t := Run(s, cpu).0;
    j := 0;
    RunWaiter(s, cpu, s.current[cpu], p, OfParent(p));
    if !RunnableIn(t, p) {
      assert IsBlocked(s.pool, p);
      ZombieStays(s, Schedule(cpu), c, p);
      RunKeeps(s, cpu);
      RunReaps(s, cpu, s.current[cpu], k);
      assert c in ZombieBag(t) ==> Unawaited(t.pool, t.waiting, c);
      j :| 0 <= j < k && j < |t.ready[cpu]| && t.ready[cpu][j] == c;
    }
  }

  /** Some entry of the ready queue can be dispatched. */
  ghost predicate Served(s: System, cpu: Cpu) {
    exists i :: 0 <= i < |s.ready[cpu]| && RunnableIn(s, s.ready[cpu][i])
  }

  lemma ServedRuns(s: System, cpu: Cpu)
    requires Inv(s) && Served(s, cpu)
    ensures Run(s, cpu).1.Dispatched?
  {
    var i :| 0 <= i < |s.ready[cpu]| && RunnableIn(s, s.ready[cpu][i]);
    RunNeverPanics(s, cpu, i);
  }

  lemma RunServed(s: System, cpu: Cpu)
    requires Run(s, cpu).1.Dispatched?
    ensures Served(Run(s, cpu).0, cpu)
  {
    RunDispatches(s, cpu, s.current[cpu]);
    var t := Run(s, cpu).0;
    assert RunnableIn(t, t.ready[cpu][|t.ready[cpu]| - 1]);
  }

  lemma {:induction false} ReapedResumes(s: System, cpu: Cpu, k: nat, p: nat)
    requires Inv(s) && Served(s, cpu) && p in Queue(s.waiting, OfParent(p))
    requires k < |s.ready[cpu]| && IsZombieOf(s.pool, s.ready[cpu][k], p)
    ensures CanResume(s, p)
    decreases k
  {
    ServedRuns(s, cpu);
    RunServed(s, cpu);
    RunKeeps(s, cpu);
    var t := Run(s, cpu).0;
    var j := ReapProgress(s, cpu, k, p);
    if RunnableIn(t, p) { RunsNow(t, p); } else { ReapedResumes(t, cpu, j, p); }
    StepFirst(s, Schedule(cpu), p);
  }

  /** While its parent waits for any child, an exited child is in a ready queue. */
  lemma ZombieReady(s: System, c: nat, p: nat) returns (cpu: Cpu, k: nat)
    requires CoreInv(s, {}) && IsZombieOf(s.pool, c, p) && p in Queue(s.waiting, OfParent(p))
    ensures k < |s.ready[cpu]| && s.ready[cpu][k] == c
  {
    assert c in ZombieBag(s) ==> Unawaited(s.pool, s.waiting, c);
    assert c in BlockedBag(s) ==> IsBlocked(s.pool, c);
    InPool(s, c);
    FlatMember(s.ready, c);
    var i :| 0 <= i < |s.ready| && c in s.ready[i];
    cpu := i;
    k :| 0 <= k < |s.ready[cpu]| && s.ready[cpu][k] == c;
  }

  /** With a free slot an idle companion keeps the CPU going until the child is reaped. */
  lemma ExitedResumes(s: System, c: nat, p: nat)
    requires Inv(s) && |s.pool| < MAX_TASKS && IsZombieOf(s.pool, c, p) && p in Queue(s.waiting, OfParent(p))
    ensures CanResume(s, p)
  {
    var cpu, k := ZombieReady(s, c, p);
    var t := AddTask(s, Ready, None, cpu);
    AddQuiet(s, cpu);
    assert t.ready[cpu][k] == c && t.ready[cpu][|t.ready[cpu]| - 1] == s.nextId;
    assert c < s.nextId;
    assert RunnableIn(t, t.ready[cpu][|t.ready[cpu]| - 1]);
    ReapedResumes(t, cpu, k, p);
    StepFirst(s, Spawn(cpu), p);
  }

  // ----- a child that lives ---------------------------------------------------------

  lemma RunningResumes(s: System, c: nat, p: nat)
    requires Inv(s) && |s.pool| < MAX_TASKS && RunnableIn(s, c) && s.pool[c].parent == Some(p)
    requires p in Queue(s.waiting, OfParent(p))
    ensures CanResume(s, p)
  {
    assert IsBlocked(s.pool, p);
    var t := Exit(s, c, 0);
    ExitQuiet(s, c, 0);
    assert t.pool.Keys == s.pool.Keys;
    assert |t.pool| == |s.pool|;
    ExitedResumes(t, c, p);
    StepFirst(s, ExitBy(c, 0), p);
  }

  lemma BlockedResumes(s: System, c: nat, p: nat)
    requires Inv(s) && |s.pool| < MAX_TASKS && IsBlocked(s.pool, c) && s.pool[c].parent == Some(p)
    requires p in Queue(s.waiting, OfParent(p))
    ensures CanResume(s, p)
  {
    assert c in s.pool;
    assert p < c;
    var v :| c in Queue(s.waiting, v);
    var t := WakeAll(s, v).0;
    WakeAllQuiet(s, v);
    WakesEveryWaiter(s, v);
    assert Queue(t.waiting, OfParent(p)) == Queue(s.waiting, OfParent(p));
    assert |t.pool| == |t.pool.Keys| == |s.pool.Keys|;
    RunningResumes(t, c, p);
    StepFirst(s, WakeEveryone(v), p);
  }

  /** A task waiting for any child can be woken by the scheduler if and only if it has a child. */
  lemma WaitAnyIff(s: System, p: nat)
    requires Inv(s) && |s.pool| < MAX_TASKS && p in Queue(s.waiting, OfParent(p))
    ensures p in s.pool && (CanResume(s, p) <==> s.pool[p].children != [])
  {
    assert IsBlocked(s.pool, p) && Related(s.pool, p);
    if s.pool[p].children != [] {
      var c := s.pool[p].children[0];
      assert c in s.pool[p].children && IsChildOf(s.pool, c, p);
      match s.pool[c].state {
        case Zombie => ExitedResumes(s, c, p);
        case Blocked(_) => BlockedResumes(s, c, p);
        case _ => RunningResumes(s, c, p);
      }
    } else if CanResume(s, p) {
      var states, steps :| IsRun(states, steps) && states[0] == s && Undisturbed(steps, p) && RunnableIn(states[|steps|], p);
      ResumeNeedsChild(states, steps, p);
    }
  }

  lemma ResumeNeedsChild(states: seq<System>, steps: seq<Step>, p: nat)
    requires IsRun(states, steps) && Inv(states[0]) && Stuck(states[0], p) && Undisturbed(steps, p)
    ensures !RunnableIn(states[|steps|], p)
  {
    StuckForever(states, steps, p, |steps|);
    Reachable(states, steps, |steps|);
    assert IsBlocked(states[|steps|].pool, p);
  }

  /** waitpid(-1) by a task without children blocks it for good. */
  lemma WaitAnyWithoutChildren(s: System, states: seq<System>, steps: seq<Step>, p: nat, n: nat)
    requires Inv(s) && RunnableIn(s, p) && s.pool[p].children == []
    requires IsRun(states, steps) && states[0] == Apply(s, WaitBy(p, AnyChild)) && Undisturbed(steps, p) && n <= |steps|
    ensures IsBlocked(states[n].pool, p)
  {
    StepKeeps(s, WaitBy(p, AnyChild));
    WaitAnySticks(s, p);
    StuckForever(states, steps, p, n);
    Reachable(states, steps, n);
  }
}
