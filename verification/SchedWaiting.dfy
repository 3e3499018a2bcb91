/** How long waiting parents wait. */
module SchedWaiting {
  import opened Base
  import opened SchedState
  import opened SchedInv
  import opened SchedKeeps
  import opened SchedRun
  import opened SchedFair
  import opened SchedRuns
  import opened SchedAges
  import opened SchedTheorems

  // ----- a parent that waits for a zombie still in a ready queue --------------------

  ghost predicate IsZombieOf(pool: map<nat, Task>, c: nat, p: nat) {
    c in pool && pool[c].state.Zombie? && pool[c].parent == Some(p)
  }

  /** While its parent is blocked nobody can collect a zombie. */
  lemma ZombieStays(s: System, step: Step, c: nat, p: nat)
    requires Inv(s) && Enabled(s, step) && IsZombieOf(s.pool, c, p) && IsBlocked(s.pool, p)
    ensures IsZombieOf(Apply(s, step).pool, c, p)
  {
    if step.ExitBy? {
    } else if step.WaitBy? && Waitpid(s, step.id, step.target).1.Collected? {
      ZombieUncollected(s, step.id, step.target, c, p);
    } else {
      StepAges(s, step);
      assert AgesAt(s, Apply(s, step), c);
    }
  }

  lemma ZombieUncollected(s: System, id: nat, target: WaitTarget, c: nat, p: nat)
    requires CoreInv(s, {}) && RunnableIn(s, id) && IsZombieOf(s.pool, c, p) && id != p && Waitpid(s, id, target).1.Collected?
    ensures IsZombieOf(Waitpid(s, id, target).0.pool, c, p)
  {
    WaitpidEffect(s, id, target);
  }

  lemma ZombieStep(states: seq<System>, steps: seq<Step>, cpu: Cpu, c: nat, p: nat, w: Waker, j: int, n: nat)
    requires IsRun(states, steps) && Inv(states[0]) && n < |steps|
    requires w == OfTask(c) || w == OfParent(p)
    requires IsZombieOf(states[n].pool, c, p) && Ahead(states[n], cpu, c, j)
    requires p in Queue(states[n].waiting, w)
    ensures IsZombieOf(states[n + 1].pool, c, p)
    ensures Ahead(states[n + 1], cpu, c, j - if steps[n] == Schedule(cpu) then 1 else 0)
            || p !in Queue(states[n + 1].waiting, w)
  {
    assert StepAt(states, steps, n);
    Reachable(states, steps, n);
    WaitedStep(states[n], steps[n], cpu, c, p, w, j);
  }

  lemma WaitedStep(s: System, step: Step, cpu: Cpu, c: nat, p: nat, w: Waker, j: int)
    requires Inv(s) && Enabled(s, step) && (w == OfTask(c) || w == OfParent(p))
    requires IsZombieOf(s.pool, c, p) && Ahead(s, cpu, c, j) && p in Queue(s.waiting, w)
    ensures IsZombieOf(Apply(s, step).pool, c, p)
    ensures Ahead(Apply(s, step), cpu, c, j - if step == Schedule(cpu) then 1 else 0) || p !in Queue(Apply(s, step).waiting, w)
  {
    assert IsBlocked(s.pool, p);
    ZombieStays(s, step, c, p);
    var k :| 0 <= k <= j && k < |s.ready[cpu]| && s.ready[cpu][k] == c;
    if step == Schedule(cpu) {
      RunReaps(s, cpu, s.current[cpu], k);
      ReapedUnawaited(s, cpu, c, p, w);
    } else {
      ReadyPrefix(s, step, cpu);
      assert Apply(s, step).ready[cpu][k] == c;
    }
  }

  lemma ReapedUnawaited(s: System, cpu: Cpu, c: nat, p: nat, w: Waker)
    requires CoreInv(s, {}) && Run(s, cpu).1.Dispatched? && (w == OfTask(c) || w == OfParent(p))
    requires IsZombieOf(Run(s, cpu).0.pool, c, p)
    ensures c in ZombieBag(Run(s, cpu).0) ==> p !in Queue(Run(s, cpu).0.waiting, w)
  {
    RunLoopKeeps(s, cpu, s.current[cpu]);
    var t := Run(s, cpu).0;
    assert c in ZombieBag(t) ==> Unawaited(t.pool, t.waiting, c);
  }

  lemma {:induction false} StillWaiting(states: seq<System>, steps: seq<Step>, cpu: Cpu, c: nat, p: nat, w: Waker, k: nat, n: nat)
    requires IsRun(states, steps) && Inv(states[0]) && n <= |steps|
    requires w == OfTask(c) || w == OfParent(p)
    requires IsZombieOf(states[0].pool, c, p) && Ahead(states[0], cpu, c, k)
    requires forall i :: 0 <= i <= n ==> p in Queue(states[i].waiting, w)
    ensures IsZombieOf(states[n].pool, c, p) && Ahead(states[n], cpu, c, k - Calls(steps[..n], cpu))
  {
    if n > 0 {
      StillWaiting(states, steps, cpu, c, p, w, k, n - 1);
      ZombieStep(states, steps, cpu, c, p, w, k - Calls(steps[..n - 1], cpu), n - 1);
      CallsSnoc(steps, cpu, n - 1);
    }
  }

  /** A parent waiting for a child that has exited but still sits at position k of a ready queue
      is taken off the wait queue by the (k+1)-th call of run on that CPU. */
  lemma ParentWokenInTime(states: seq<System>, steps: seq<Step>, cpu: Cpu, k: nat, p: nat, w: Waker)
    requires IsRun(states, steps) && Inv(states[0])
    requires k < |states[0].ready[cpu]| && IsZombieOf(states[0].pool, states[0].ready[cpu][k], p)
    requires w == OfTask(states[0].ready[cpu][k]) || w == OfParent(p)
    requires Calls(steps, cpu) > k
    ensures exists i :: 0 <= i < |states| && p !in Queue(states[i].waiting, w)
  {
    var c := states[0].ready[cpu][k];
    assert |states| > 0;
    if forall i :: 0 <= i < |states| ==> p in Queue(states[i].waiting, w) {
      assert steps[..|steps|] == steps;
      assert Ahead(states[0], cpu, c, k);
      StillWaiting(states, steps, cpu, c, p, w, k, |steps|);
    }
  }

  // ----- waitpid(-1) without children ----------------------------------------------

  /** `p` waits for any child but has none. */
  ghost predicate Stuck(s: System, p: nat) {
    p in Queue(s.waiting, OfParent(p)) && p in s.pool && s.pool[p].children == []
  }

  lemma StuckWake(s: System, w: Waker, p: nat, exempt: set<nat>)
    requires CoreInv(s, exempt) && Stuck(s, p) && w != OfParent(p)
    ensures Stuck(WakeAll(s, w).0, p)
  {
    WakeAllEffect(s, w);
    assert WakeAll(s, w).0.waiting == Drain(s, w).waiting;
    assert SameTaskLife(s.pool[p], WakeAll(s, w).0.pool[p]);
  }

  lemma StuckReap(s: System, cpu: Cpu, p: nat)
    requires CoreInv(s, {}) && Stuck(s, p) && s.ready[cpu] != []
    requires s.ready[cpu][0] in s.pool && s.pool[s.ready[cpu][0]].state.Zombie?
    ensures Stuck(Reap(PopReady(s, cpu), cpu, s.ready[cpu][0]), p)
  {
    var id := s.ready[cpu][0];
    var z := Buried(PopReady(s, cpu), cpu, id);
    assert Related(s.pool, id);
    BuriedKeeps(s, cpu);
    StuckWake(z, OfTask(id), p, {id});
    WakeAllKeeps(z, OfTask(id), {id});
    StuckWake(WakeAll(z, OfTask(id)).0, OfParent(s.pool[id].parent.value), p, {id});
  }

  lemma {:induction false} StuckRun(s: System, cpu: Cpu, previous: Option<nat>, p: nat)
    requires CoreInv(s, {}) && Stuck(s, p) && RunLoop(s, cpu, previous).1.Dispatched?
    ensures Stuck(RunLoop(s, cpu, previous).0, p)
    decreases NonRunnable(s.pool, s.ready[cpu]), if s.ready[cpu] == [] then 1 else 0
  {
    LoopStep(s, cpu, previous);
    if Turns(s, cpu) {
      TurnDecreases(s, cpu);
      TurnKeeps(s, cpu);
      StuckTurn(s, cpu, p);
      StuckRun(Turn(s, cpu), cpu, previous, p);
    }
  }

  lemma StuckTurn(s: System, cpu: Cpu, p: nat)
    requires CoreInv(s, {}) && Stuck(s, p) && Turns(s, cpu)
    ensures Stuck(Turn(s, cpu), p)
  {
    assert IsBlocked(s.pool, p) && p < s.nextId;
    if s.ready[cpu] != [] && s.pool[s.ready[cpu][0]].state.Zombie? { StuckReap(s, cpu, p); }
  }

  lemma StuckWakeOne(s: System, w: Waker, p: nat)
    requires CoreInv(s, {}) && Stuck(s, p) && w != OfParent(p)
    ensures Stuck(WakeOne(s, w).0, p)
  {
    var q := Queue(s.waiting, w);
    if q != [] {
      var d := s.(waiting := s.waiting[w := q[1..]]);
      assert IsBlocked(s.pool, q[0]) by { assert q[0] in Queue(s.waiting, w); }
      assert Placed(d);
      WakeTaskEffect(d, q[0]);
    }
  }

  lemma StuckStep(s: System, step: Step, p: nat)
    requires Inv(s) && Enabled(s, step) && Stuck(s, p)
    requires step != WakeFirst(OfParent(p)) && step != WakeEveryone(OfParent(p))
    ensures Stuck(Apply(s, step), p)
  {
    assert IsBlocked(s.pool, p) && p < s.nextId;
    match step {
      case WaitBy(id, target) => WaitpidEffect(s, id, target);
      case WakeFirst(w) => StuckWakeOne(s, w, p);
      case WakeEveryone(w) => StuckWake(s, w, p, {});
      case Schedule(cpu) => StuckRun(s, cpu, s.current[cpu], p);
      case CloneBy(id, cpu) => CloneFamily(s, id, cpu);
      case _ =>
    }
  }

  lemma {:induction false} StuckForever(states: seq<System>, steps: seq<Step>, p: nat, n: nat)
    requires IsRun(states, steps) && Inv(states[0]) && Stuck(states[0], p) && n <= |steps|
    requires forall i :: 0 <= i < |steps| ==> steps[i] != WakeFirst(OfParent(p)) && steps[i] != WakeEveryone(OfParent(p))
    ensures Stuck(states[n], p)
  {
    if n > 0 {
      StuckForever(states, steps, p, n - 1);
      StuckAt(states, steps, p, n - 1);
    }
  }

  lemma StuckAt(states: seq<System>, steps: seq<Step>, p: nat, i: nat)
    requires IsRun(states, steps) && Inv(states[0]) && i < |steps| && Stuck(states[i], p)
    requires steps[i] != WakeFirst(OfParent(p)) && steps[i] != WakeEveryone(OfParent(p))
    ensures Stuck(states[i + 1], p)
  {
    Reachable(states, steps, i);
    assert StepAt(states, steps, i);
    StuckStep(states[i], steps[i], p);
  }

  /** waitpid(-1) by a task without children leaves it waiting without children. */
  lemma WaitAnySticks(s: System, p: nat)
    requires RunnableIn(s, p) && s.pool[p].children == []
    ensures Stuck(Apply(s, WaitBy(p, AnyChild)), p)
  {
  }
}
