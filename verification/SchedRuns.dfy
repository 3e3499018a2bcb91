/** The scheduler as a state machine, and what holds over all of its runs. */
module SchedRuns {
  import opened Base
  import opened SchedState
  import opened SchedInv
  import opened SchedKeeps
  import opened SchedFair

  datatype Step =
    | Spawn(cpu: Cpu)                              // a task without a parent
    | CloneBy(id: nat, cpu: Cpu)
    | BlockOn(id: nat, n: nat, kind: BlockedType)  // on a device's waker
    | SleepBy(id: nat)
    | WaitBy(id: nat, target: WaitTarget)
    | WakeFirst(waker: Waker)
    | WakeEveryone(waker: Waker)
    | ExitBy(id: nat, status: int)
    | Schedule(cpu: Cpu)

  /** Tasks act only while Ready or Running; a full pool or a panic of run ends the system. */
  predicate Enabled(s: System, step: Step) {
    match step
    case Spawn(_) => |s.pool| < MAX_TASKS
    case CloneBy(id, _) => RunnableIn(s, id) && |s.pool| < MAX_TASKS
    case BlockOn(id, _, _) => RunnableIn(s, id)
    case SleepBy(id) => RunnableIn(s, id)
    case WaitBy(id, _) => RunnableIn(s, id)
    case WakeFirst(_) => true
    case WakeEveryone(_) => true
    case ExitBy(id, _) => RunnableIn(s, id)
    case Schedule(cpu) => Run(s, cpu).1.Dispatched?
  }

  function Apply(s: System, step: Step): System
    requires Enabled(s, step)
  {
    match step
    case Spawn(cpu) => AddTask(s, Ready, None, cpu)
    case CloneBy(id, cpu) => Clone(s, id, cpu)
    case BlockOn(id, n, kind) => Block(s, id, Device(n, kind))
    case SleepBy(id) => Block(s, id, OfTask(id))
    case WaitBy(id, target) => Waitpid(s, id, target).0
    case WakeFirst(w) => WakeOne(s, w).0
    case WakeEveryone(w) => WakeAll(s, w).0
    case ExitBy(id, status) => Exit(s, id, status)
    case Schedule(cpu) => Run(s, cpu).0
  }

  // ----- waitpid -------------------------------------------------------------------

  /** No child in `kids` has exited. */
  ghost predicate NoneExited(pool: map<nat, Task>, kids: seq<nat>) {
    forall c :: c in kids ==> c in pool && !pool[c].state.Zombie?
  }

  /** What the child loop of waitpid(-1) amounts to: a zombie child is collected, or no child has
      exited and the parent blocks; its error branches are never taken. */
  lemma WaitAnyEffect(s: System, p: nat, kids: seq<nat>)
    requires CoreInv(s, {}) && RunnableIn(s, p)
    requires forall c :: c in kids ==> c in s.pool[p].children
    ensures var r := WaitAnyScan(s, p, kids);
            && (r.1.Collected? ==> r.1.pid in kids && Wait(s, p, r.1.pid) == (r.0, Ok(r.1.status)))
            && !r.1.Failed?
            && (r.1.BlockedOn? ==> r.1.waker == OfParent(p) && r.0 == Block(s, p, OfParent(p)) && NoneExited(s.pool, kids))
  {
    assert Related(s.pool, p);
    forall c | c in kids ensures c in s.pool { assert IsChildOf(s.pool, c, p); }
    ScanEffect(s, p, kids);
  }

  lemma {:induction false} ScanEffect(s: System, p: nat, kids: seq<nat>)
    requires p in s.pool
    requires forall c :: c in kids ==> c in s.pool[p].children && c in s.pool
    ensures var r := WaitAnyScan(s, p, kids);
            && (r.1.Collected? ==> r.1.pid in kids && Wait(s, p, r.1.pid) == (r.0, Ok(r.1.status)))
            && !r.1.Failed?
            && (r.1.BlockedOn? ==> r.1.waker == OfParent(p) && r.0 == Block(s, p, OfParent(p)) && NoneExited(s.pool, kids))
    decreases |kids|
  {
    if kids != [] {
      assert kids[0] in kids;
      if Wait(s, p, kids[0]).1.Err? {
        ScanEffect(s, p, kids[1..]);
        assert forall c :: c in kids ==> c == kids[0] || c in kids[1..];
      }
    }
  }

  /** What one turn of waitpid promises: it collects exactly a zombie child, fails exactly on a pid
      that is no child, and otherwise blocks where the exit will be noticed. */
  ghost predicate WaitpidSound(s: System, p: nat, target: WaitTarget, t: System, r: WaitOutcome)
    requires p in s.pool
  {
    && (r.Collected? ==>
          && IsChildOf(s.pool, r.pid, p) && s.pool[r.pid].state.Zombie? && s.pool[r.pid].exitStatus == Some(r.status)
          && (target.Child? ==> r.pid == target.pid)
          && Wait(s, p, r.pid) == (t, Ok(r.status)))
    && (r.Failed? ==> target.Child? && target.pid !in s.pool[p].children && t == s)
    && (r.BlockedOn? ==>
          && t == Block(s, p, r.waker) && OwnWaker(s.pool, p, r.waker) && !TooLate(s, p, r.waker)
          && r.waker == (if target.Child? then OfTask(target.pid) else OfParent(p)))
  }

  lemma WaitpidEffect(s: System, p: nat, target: WaitTarget)
    requires CoreInv(s, {}) && RunnableIn(s, p)
    ensures WaitpidSound(s, p, target, Waitpid(s, p, target).0, Waitpid(s, p, target).1)
  {
    match target {
      case AnyChild => AnyEffect(s, p);
      case Child(pid) => ChildEffect(s, p, pid);
    }
  }

  lemma AnyEffect(s: System, p: nat)
    requires CoreInv(s, {}) && RunnableIn(s, p)
    ensures WaitpidSound(s, p, AnyChild, Waitpid(s, p, AnyChild).0, Waitpid(s, p, AnyChild).1)
  {
    var kids := s.pool[p].children;
    assert Related(s.pool, p);
    assert forall c :: c in kids ==> IsChildOf(s.pool, c, p);
    WaitAnyEffect(s, p, kids);
    var r := WaitAnyScan(s, p, kids).1;
    if r.Collected? { assert Related(s.pool, r.pid); }
    ExitedFinished(s);
  }

  lemma ChildEffect(s: System, p: nat, pid: nat)
    requires CoreInv(s, {}) && RunnableIn(s, p)
    ensures WaitpidSound(s, p, Child(pid), Waitpid(s, p, Child(pid)).0, Waitpid(s, p, Child(pid)).1)
  {
    assert Related(s.pool, p);
    assert pid in s.pool[p].children ==> IsChildOf(s.pool, pid, p);
    if pid in s.pool { assert Related(s.pool, pid); }
    ExitedFinished(s);
  }

  lemma ExitedFinished(s: System)
    requires Placed(s)
    ensures forall c :: c in ZombieBag(s) ==> IsFinished(s.pool, c)
  {
  }

  // ----- every step keeps the invariant --------------------------------------------

  lemma QuietKeeps(s: System, t: System)
    requires Inv(s) && CoreInv(t, {}) && t.current == s.current
    requires forall c: Cpu :: s.ready[c] <= t.ready[c]
    ensures Inv(t)
  {
  }

  lemma WaitpidKeeps(s: System, p: nat, target: WaitTarget)
    requires Inv(s) && RunnableIn(s, p)
    ensures Inv(Waitpid(s, p, target).0)
  {
    var (t, r) := Waitpid(s, p, target);
    WaitpidEffect(s, p, target);
    match r {
      case Collected(c, _) => CollectKeeps(s, p, c);
      case Failed =>
      case BlockedOn(w) => BlockKeeps(s, p, w);
    }
    QuietKeeps(s, t);
  }

  lemma WakeAllQuiet(s: System, w: Waker)
    requires Inv(s)
    ensures Inv(WakeAll(s, w).0)
  {
    WakeAllKeeps(s, w, {});
    WakeAllGrows(s, w);
    WakeAllSame(s, w);
    QuietKeeps(s, WakeAll(s, w).0);
  }

  lemma WakeOneQuiet(s: System, w: Waker)
    requires Inv(s)
    ensures Inv(WakeOne(s, w).0)
  {
    WakeOneKeeps(s, w);
    var q := Queue(s.waiting, w);
    if q != [] {
      var d := s.(waiting := s.waiting[w := q[1..]]);
      WakeScanGrows(d, q[0], 0);
      WakeScanSame(d, q[0], 0);
    }
    QuietKeeps(s, WakeOne(s, w).0);
  }

  lemma AddQuiet(s: System, cpu: Cpu)
    requires Inv(s)
    ensures Inv(AddTask(s, Ready, None, cpu))
    ensures forall id :: RunnableIn(s, id) ==> Inv(Clone(s, id, cpu))
  {
    SpawnKeeps(s, cpu);
    QuietKeeps(s, AddTask(s, Ready, None, cpu));
    forall id | RunnableIn(s, id) ensures Inv(Clone(s, id, cpu)) { CloneQuiet(s, id, cpu); }
  }

  lemma CloneQuiet(s: System, id: nat, cpu: Cpu)
    requires Inv(s) && RunnableIn(s, id)
    ensures Inv(Clone(s, id, cpu))
  {
    CloneKeeps(s, id, cpu);
    QuietKeeps(s, Clone(s, id, cpu));
  }

  lemma BlockQuiet(s: System, id: nat, w: Waker)
    requires Inv(s) && RunnableIn(s, id) && (w.Device? || w == OfTask(id))
    ensures Inv(Block(s, id, w))
  {
    assert id in ZombieBag(s) ==> IsFinished(s.pool, id);
    BlockKeeps(s, id, w);
    QuietKeeps(s, Block(s, id, w));
  }

  lemma ExitQuiet(s: System, id: nat, status: int)
    requires Inv(s) && RunnableIn(s, id)
    ensures Inv(Exit(s, id, status))
  {
    ExitKeeps(s, id, status);
    QuietKeeps(s, Exit(s, id, status));
  }

  lemma StepKeeps(s: System, step: Step)
    requires Inv(s) && Enabled(s, step)
    ensures Inv(Apply(s, step))
  {
    match step {
      case Spawn(cpu) => AddQuiet(s, cpu);
      case CloneBy(id, cpu) => AddQuiet(s, cpu);
      case BlockOn(id, n, kind) => BlockQuiet(s, id, Device(n, kind));
      case SleepBy(id) => BlockQuiet(s, id, OfTask(id));
      case WaitBy(id, target) => WaitpidKeeps(s, id, target);
      case WakeFirst(w) => WakeOneQuiet(s, w);
      case WakeEveryone(w) => WakeAllQuiet(s, w);
      case ExitBy(id, status) => ExitQuiet(s, id, status);
      case Schedule(cpu) => RunKeeps(s, cpu);
    }
  }

  /** A finite run: states[i] steps to states[i + 1] by steps[i]. */
  ghost predicate IsRun(states: seq<System>, steps: seq<Step>) {
    && |states| == |steps| + 1
    && forall i: nat :: i < |steps| ==> StepAt(states, steps, i)
  }

  ghost predicate StepAt(states: seq<System>, steps: seq<Step>, i: nat)
    requires i < |steps| < |states|
  {
    Enabled(states[i], steps[i]) && states[i + 1] == Apply(states[i], steps[i])
  }

  lemma ExtendRun(states: seq<System>, steps: seq<Step>, step: Step)
    requires IsRun(states, steps) && Enabled(states[|steps|], step)
    ensures IsRun(states + [Apply(states[|steps|], step)], steps + [step])
  {
    var states1, steps1 := states + [Apply(states[|steps|], step)], steps + [step];
    forall i: nat | i < |steps1| ensures StepAt(states1, steps1, i) {
      if i < |steps| { assert StepAt(states, steps, i); }
    }
  }

  /** The invariant holds in every one of these states. */
  ghost predicate AllInv(states: seq<System>) {
    states == [] || (AllInv(states[..|states| - 1]) && Inv(states[|states| - 1]))
  }

  lemma {:induction false} InvAlong(states: seq<System>, steps: seq<Step>, n: nat)
    requires IsRun(states, steps) && AllInv(states[..1]) && 0 < n <= |states|
    ensures AllInv(states[..n])
  {
    if n > 1 {
      InvAlong(states, steps, n - 1);
      InvNext(states, steps, n - 1, n);
    }
  }

  lemma InvNext(states: seq<System>, steps: seq<Step>, n: nat, next: nat)
    requires IsRun(states, steps) && 0 < n < next == n + 1 <= |states| && AllInv(states[..n])
    ensures AllInv(states[..next])
  {
    assert states[..n][n - 1] == states[n - 1];
    assert states[..next][..n] == states[..n] && states[..next][n] == states[n];
    InvAt(states, steps, n - 1);
  }

  /** The invariant holds in every state of every run from a state in which it holds. */
  lemma Reachable(states: seq<System>, steps: seq<Step>, i: nat)
    requires IsRun(states, steps) && Inv(states[0]) && i < |states|
    ensures Inv(states[i])
  {
    assert states[..1][..0] == [] && states[..1][0] == states[0];
    InvAlong(states, steps, i + 1);
    assert states[..i + 1][i] == states[i];
  }

  lemma InvAt(states: seq<System>, steps: seq<Step>, i: nat)
    requires IsRun(states, steps) && i < |steps| && Inv(states[i])
    ensures Inv(states[i + 1])
  {
    assert StepAt(states, steps, i);
    StepKeeps(states[i], steps[i]);
  }
}
