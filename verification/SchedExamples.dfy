/** Reachable states in which the unsafe interleavings happen. */
module SchedExamples {
  import opened SchedState
  import opened SchedInv
  import opened SchedKeeps
  import opened SchedRuns
  import opened SchedTheorems
  import opened SchedOld
  import opened SchedLost
  import opened SchedWindow

  /** The first task waits for a device and is killed: the invariant breaks. */
  lemma KillExample() returns (states: seq<System>, steps: seq<Step>)
    ensures IsHistory(states, steps) && IsBlocked(states[|steps|].pool, 1)
    ensures !CoreInv(Exit(states[|steps|], 1, 9), {})
  {
    FirstTaskRun();
    states, steps := TakeStep([Empty], [], Spawn(0));
    states, steps := TakeStep(states, steps, Schedule(0));
    states, steps := TakeStep(states, steps, BlockOn(1, 0, Interruptible));
    HistoryInv(states, steps, |steps|);
    ExitKeepsIff(states[|steps|], 1, 9);
  }

  /** A parent on CPU 0 whose child has exited on CPU 1 but is not reaped yet. */
  lemma ExitedChild() returns (states: seq<System>, steps: seq<Step>)
    ensures IsHistory(states, steps)
    ensures var s := states[|steps|];
            && RunnableIn(s, 1) && s.ready[1] == [2] && WakesFor(s.pool, 2, OfTask(2))
            && Queue(s.waiting, OfTask(2)) == [] && Run(s, 1).1.Dispatched?
  {
    states, steps := WithChildReached(1);
    var live, late := MissedExitSteps();
    states, steps := TakeStep(states, steps, Schedule(1));
    RunLone(WithChild(1), 1, 2);
    states, steps := TakeStep(states, steps, ExitBy(2, 7));
  }

  /** The parent pushes itself on the child's waker, the scheduler of the other CPU reaps the child, and
      the parent marks itself Blocked: it is lost. */
  lemma LostWakeupExample() returns (states: seq<System>, steps: seq<Step>, window: seq<System>)
    ensures IsHistory(states, steps) && RunnableIn(states[|steps|], 1)
    ensures IsRun(window, [Schedule(1)]) && window[0] == Enqueue(states[|steps|], 1, OfTask(2))
    ensures 1 in window[1].pool && Lost(SetState(window[1], 1, Blocked(Interruptible)), 1)
  {
    states, steps := ExitedChild();
    HistoryInv(states, steps, |steps|);
    window := ReapWindow(states[|steps|]);
    LostWakeupIff(states[|steps|], 1, OfTask(2), window, [Schedule(1)]);
  }

  /** The window of one call of run on CPU 1. */
  lemma ReapWindow(s: System) returns (window: seq<System>)
    requires Inv(s) && RunnableIn(s, 1) && s.ready[1] == [2] && WakesFor(s.pool, 2, OfTask(2))
    requires Queue(s.waiting, OfTask(2)) == [] && Run(s, 1).1.Dispatched?
    ensures IsRun(window, [Schedule(1)]) && window[0] == Enqueue(s, 1, OfTask(2))
    ensures PopsIn(s, [Schedule(1)], OfTask(2), 0)
  {
    var e := Enqueue(s, 1, OfTask(2));
    assert [] + [1] + [] == [1];
    assert Pushed(s, e, 1, OfTask(2), 0);
    RunPushed(s, e, 1, OfTask(2), 0, 1, s.current[1]);
    assert ReapsAt(s, 1, OfTask(2), 0);
    window := [e, Run(e, 1).0];
    OneTurn(e, 1);
  }

  lemma OneTurn(s: System, cpu: Cpu)
    requires Run(s, cpu).1.Dispatched?
    ensures IsRun([s, Run(s, cpu).0], [Schedule(cpu)])
  {
    var states, steps := [s, Run(s, cpu).0], [Schedule(cpu)];
    forall i: nat | i < |steps| ensures StepAt(states, steps, i) { assert i == 0; }
  }

  /** The parent that looked before its child was reaped and blocks after it: from a reachable state, and
      in every continuation in which only the scheduler wakes the child's waker, it stays Blocked. */
  lemma MissedExitStuck() returns (states: seq<System>, steps: seq<Step>)
    ensures IsHistory(states, steps) && RunnableIn(states[|steps|], 1)
    ensures forall rest: seq<System>, more: seq<Step>, n: nat {:trigger IsRun(rest, more), rest[n]} ::
              IsRun(rest, more) && n <= |more| && rest[0] == Block(states[|steps|], 1, OfTask(2))
              && (forall i :: 0 <= i < |more| ==> !Wakes(more[i], OfTask(2)))
              ==> IsBlocked(rest[n].pool, 1)
  {
    states, steps := MissedExitExample();
    var s := states[|steps|];
    HistoryInv(states, steps, |steps|);
    forall rest: seq<System>, more: seq<Step>, n: nat
      | IsRun(rest, more) && n <= |more| && rest[0] == Block(s, 1, OfTask(2))
        && forall i :: 0 <= i < |more| ==> !Wakes(more[i], OfTask(2))
      ensures IsBlocked(rest[n].pool, 1)
    {
      MissedForever(s, rest, more, 1, 2, n);
    }
  }
}
