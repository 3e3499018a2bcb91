/** The promises of the scheduler, the wakers and waitpid, over every run from the empty system. */
module SchedTheorems {
  import opened Base
  import opened SchedState
  import opened SchedInv
  import opened SchedRun
  import opened SchedFair
  import opened SchedRuns

  ghost predicate IsHistory(states: seq<System>, steps: seq<Step>) {
    IsRun(states, steps) && states[0] == Empty
  }

  lemma TakeStep(states: seq<System>, steps: seq<Step>, step: Step) returns (states1: seq<System>, steps1: seq<Step>)
    requires IsHistory(states, steps) && Enabled(states[|steps|], step)
    ensures IsHistory(states1, steps1) && states1[|steps1|] == Apply(states[|steps|], step)
  {
    ExtendRun(states, steps, step);
    states1, steps1 := states + [Apply(states[|steps|], step)], steps + [step];
  }

  lemma HistoryInv(states: seq<System>, steps: seq<Step>, i: nat)
    requires IsHistory(states, steps) && i < |states|
    ensures Inv(states[i])
  {
    EmptyInv();
    Reachable(states, steps, i);
  }

  // ----- queue partition -----------------------------------------------------------

  /** get_all_task_ids lists every task of the pool exactly once and nothing else, so a broadcast
      attempts each task once; queues agree with states; a current task is in its ready queue. */
  lemma QueuePartition(states: seq<System>, steps: seq<Step>, i: nat)
    requires IsHistory(states, steps) && i < |states|
    ensures multiset(AllIds(states[i])) == multiset(states[i].pool.Keys)
    ensures forall id :: id in Flat(states[i].blocked) ==> IsBlocked(states[i].pool, id)
    ensures forall id :: id in Flat(states[i].zombie) ==> IsFinished(states[i].pool, id)
    ensures forall c: Cpu :: states[i].current[c].Some? ==> states[i].current[c].value in states[i].ready[c]
  {
    HistoryInv(states, steps, i);
    var s := states[i];
    assert multiset(AllIds(s)) == ReadyBag(s) + BlockedBag(s) + ZombieBag(s);
    forall id | id in Flat(s.blocked) ensures IsBlocked(s.pool, id) { assert id in BlockedBag(s); }
    forall id | id in Flat(s.zombie) ensures IsFinished(s.pool, id) { assert id in ZombieBag(s); }
  }

  // ----- no lost wakeup ------------------------------------------------------------

  /** `id` is in the wait queue of `w`, once, and in no other. */
  ghost predicate WaitsOnlyOn(waiting: map<Waker, seq<nat>>, id: nat, w: Waker) {
    multiset(Queue(waiting, w))[id] == 1 && forall v :: v != w ==> id !in Queue(waiting, v)
  }

  lemma BlockedIffWaiting(s: System, id: nat)
    requires Inv(s)
    ensures IsBlocked(s.pool, id) <==> exists w :: WaitsOnlyOn(s.waiting, id, w)
  {
    if IsBlocked(s.pool, id) {
      var w :| id in Queue(s.waiting, w);
      NoDupBag(Queue(s.waiting, w), id);
      assert WaitsOnlyOn(s.waiting, id, w);
    }
    if w :| WaitsOnlyOn(s.waiting, id, w) {
      assert id in multiset(Queue(s.waiting, w));
      assert id in Queue(s.waiting, w);
    }
  }

  /** From s to t every waiter of w, parked or not, became Running and stands in exactly one ready-queue
      slot; nobody waits on w any more and nobody else was touched. */
  ghost predicate WokeAll(s: System, t: System, w: Waker) {
    && Queue(t.waiting, w) == []
    && (forall v :: v != w ==> Queue(t.waiting, v) == Queue(s.waiting, v))
    && WokePool(s.pool, t.pool, Queue(s.waiting, w))
    && forall id :: id in Queue(s.waiting, w) ==> ReadyBag(t)[id] == 1 && id !in BlockedBag(t)
  }

  /** In every reachable state a task is Blocked exactly when it waits on exactly one waker; and
      wake_all, whether the waiters have been parked or are still in a ready queue, makes each
      of them Running in exactly one ready-queue slot, leaves nobody waiting and counts them. */
  lemma NoLostWakeup(states: seq<System>, steps: seq<Step>, i: nat, w: Waker)
    requires IsHistory(states, steps) && i < |states|
    ensures forall id :: IsBlocked(states[i].pool, id) <==> exists v :: WaitsOnlyOn(states[i].waiting, id, v)
    ensures WakeAll(states[i], w).1 == |Queue(states[i].waiting, w)|
    ensures WokeAll(states[i], WakeAll(states[i], w).0, w)
  {
    HistoryInv(states, steps, i);
    var s := states[i];
    forall id ensures IsBlocked(s.pool, id) <==> exists v :: WaitsOnlyOn(s.waiting, id, v) {
      BlockedIffWaiting(s, id);
    }
    WakesEveryWaiter(s, w);
  }

  lemma WakesEveryWaiter(s: System, w: Waker)
    requires Placed(s) && Waits(s.pool, s.waiting, [])
    ensures WakeAll(s, w).1 == |Queue(s.waiting, w)|
    ensures WokeAll(s, WakeAll(s, w).0, w)
  {
    DrainedWaits(s, w);
    WakeAllEffect(s, w);
    WokenAll(s, Drain(s, w), WakeAll(s, w).0, w);
  }

  lemma WokenAll(s: System, d: System, t: System, w: Waker)
    requires d.pool == s.pool && forall v :: Queue(d.waiting, v) == if v == w then [] else Queue(s.waiting, v)
    requires Woke(d, t, Queue(s.waiting, w)) && Placed(t)
    ensures WokeAll(s, t, w)
  {
    forall id | id in Queue(s.waiting, w) ensures ReadyBag(t)[id] == 1 && id !in BlockedBag(t) { InPool(t, id); }
  }

  // ----- no missed exit ------------------------------------------------------------

  /** In no reachable state does a parent wait for a child that is already in a zombie queue,
      neither on the child's waker nor on its own wait-any waker. */
  lemma NoMissedExit(states: seq<System>, steps: seq<Step>, i: nat, p: nat, c: nat)
    requires IsHistory(states, steps) && i < |states|
    requires c in states[i].pool && states[i].pool[c].state.Zombie? && states[i].pool[c].parent == Some(p)
    requires c in Flat(states[i].zombie)
    ensures p !in Queue(states[i].waiting, OfTask(c))
    ensures p !in Queue(states[i].waiting, OfParent(p))
  {
    HistoryInv(states, steps, i);
    assert c in ZombieBag(states[i]);
  }

  // ----- bounded waiting -----------------------------------------------------------

  /** Calls of run on `cpu`. */
  function Calls(steps: seq<Step>, cpu: Cpu): nat {
    if steps == [] then 0
    else Calls(steps[..|steps| - 1], cpu) + if steps[|steps| - 1] == Schedule(cpu) then 1 else 0
  }

  lemma ReadyPrefix(s: System, step: Step, cpu: Cpu)
    requires Inv(s) && Enabled(s, step) && step != Schedule(cpu)
    ensures s.ready[cpu] <= Apply(s, step).ready[cpu]
  {
    match step {
      case WakeFirst(w) =>
        if Queue(s.waiting, w) != [] {
          WakeScanGrows(s.(waiting := s.waiting[w := Queue(s.waiting, w)[1..]]), Queue(s.waiting, w)[0], 0);
        }
      case WakeEveryone(w) => WakeAllGrows(s, w);
      case WaitBy(id, target) => WaitpidEffect(s, id, target);
      case Schedule(c) => RunOthers(s, c, s.current[c]);
      case _ =>
    }
  }

  /** Task `id` is at position `j` or before in the ready queue of `cpu`. */
  ghost predicate Ahead(s: System, cpu: Cpu, id: nat, j: int) {
    exists k :: 0 <= k <= j && k < |s.ready[cpu]| && s.ready[cpu][k] == id
  }

  ghost predicate DispatchedAt(states: seq<System>, steps: seq<Step>, i: nat, cpu: Cpu, id: nat)
    requires IsRun(states, steps) && i < |steps|
  {
    steps[i] == Schedule(cpu) && Run(states[i], cpu).1 == Dispatched(states[i].current[cpu], id)
  }

  lemma AheadStep(s: System, step: Step, cpu: Cpu, id: nat, j: int)
    requires Inv(s) && Enabled(s, step) && RunnableIn(s, id) && Ahead(s, cpu, id, j)
    ensures step != Schedule(cpu) ==> Ahead(Apply(s, step), cpu, id, j)
    ensures step == Schedule(cpu) ==>
              Run(s, cpu).1 == Dispatched(s.current[cpu], id) || Ahead(Apply(s, step), cpu, id, j - 1)
  {
    var k :| 0 <= k <= j && k < |s.ready[cpu]| && s.ready[cpu][k] == id;
    if step == Schedule(cpu) {
      RunServes(s, cpu, s.current[cpu], k);
      RunDispatches(s, cpu, s.current[cpu]);
    } else {
      ReadyPrefix(s, step, cpu);
      assert Apply(s, step).ready[cpu][k] == id;
    }
  }

  lemma ProgressStep(states: seq<System>, steps: seq<Step>, cpu: Cpu, id: nat, j: int, n: nat)
    requires IsRun(states, steps) && n < |steps| && Inv(states[n]) && RunnableIn(states[n], id)
    requires Ahead(states[n], cpu, id, j)
    ensures DispatchedAt(states, steps, n, cpu, id)
            || Ahead(states[n + 1], cpu, id, j - if steps[n] == Schedule(cpu) then 1 else 0)
  {
    assert StepAt(states, steps, n);
    AheadStep(states[n], steps[n], cpu, id, j);
  }

  lemma CallsSnoc(steps: seq<Step>, cpu: Cpu, n: nat)
    requires n < |steps|
    ensures Calls(steps[..n + 1], cpu) == Calls(steps[..n], cpu) + if steps[n] == Schedule(cpu) then 1 else 0
  {
    assert steps[..n + 1][..n] == steps[..n];
  }

  /** After n steps it has been dispatched, at `hit`, or has moved forward with every call. */
  lemma {:induction false} Progress(states: seq<System>, steps: seq<Step>, cpu: Cpu, id: nat, k: nat, n: nat)
    returns (hit: Option<nat>)
    requires IsRun(states, steps) && Inv(states[0]) && n <= |steps|
    requires forall i :: 0 <= i < |states| ==> RunnableIn(states[i], id)
    requires Ahead(states[0], cpu, id, k)
    ensures hit.Some? ==> hit.value < n && DispatchedAt(states, steps, hit.value, cpu, id)
    ensures hit.None? ==> Ahead(states[n], cpu, id, k - Calls(steps[..n], cpu))
  {
    hit := None;
    if n > 0 {
      hit := Progress(states, steps, cpu, id, k, n - 1);
      if hit.None? {
        Reachable(states, steps, n - 1);
        ProgressStep(states, steps, cpu, id, k - Calls(steps[..n - 1], cpu), n - 1);
        CallsSnoc(steps, cpu, n - 1);
        if DispatchedAt(states, steps, n - 1, cpu, id) { hit := Some(n - 1); }
      }
    }
  }

  /** A task at position k that stays runnable is dispatched by the (k+1)-th call on its CPU,
      whatever spawns, blocks, wakes and exits come between. */
  lemma BoundedWaiting(states: seq<System>, steps: seq<Step>, cpu: Cpu, k: nat)
    requires IsRun(states, steps) && Inv(states[0])
    requires k < |states[0].ready[cpu]|
    requires forall i :: 0 <= i < |states| ==> RunnableIn(states[i], states[0].ready[cpu][k])
    requires Calls(steps, cpu) > k
    ensures exists i: nat :: i < |steps| && DispatchedAt(states, steps, i, cpu, states[0].ready[cpu][k])
  {
    var id := states[0].ready[cpu][k];
    assert Ahead(states[0], cpu, id, k);
    var hit := Progress(states, steps, cpu, id, k, |steps|);
    assert steps[..|steps|] == steps;
  }

  /** With a runnable task in the queue, run never panics. */
  lemma RunNeverPanics(s: System, cpu: Cpu, k: nat)
    requires Inv(s) && k < |s.ready[cpu]| && RunnableIn(s, s.ready[cpu][k])
    ensures Run(s, cpu).1.Dispatched?
  {
    RunServes(s, cpu, s.current[cpu], k);
  }
}
