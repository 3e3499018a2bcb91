/** The scheduler's data and its operations as functions on one value: the pool,
    the per-CPU queues, the wait queues of all wakers and the id counter. */
module SchedState {
  import opened Base

  const NUM_OF_CPUS := 2
  const MAX_TASKS := 1024

  type Cpu = c: nat | c < NUM_OF_CPUS
  type PerCpu = qs: seq<seq<nat>> | |qs| == NUM_OF_CPUS witness [[], []]
  type CurrentTasks = qs: seq<Option<nat>> | |qs| == NUM_OF_CPUS witness [None, None]

  datatype BlockedType = Interruptible | Uninterruptible

  datatype TaskState = NotInitialized | Ready | Running | Blocked(kind: BlockedType) | Zombie | Terminated {
    predicate Runnable() { Ready? || Running? }
  }

  datatype Task = Task(id: nat, state: TaskState, timeSlice: nat, parent: Option<nat>,
                       children: seq<nat>, exitStatus: Option<int>)

  /** The wakers of the system: one per task for waitpid(pid) (sleep shares it), one per
      parent for waitpid(-1), and those of devices, pipes and the like. */
  datatype Waker = OfTask(id: nat) | OfParent(id: nat) | Device(n: nat, deviceKind: BlockedType) {
    function Kind(): BlockedType { if Device? then deviceKind else Interruptible }
  }

  datatype System = System(
    pool: map<nat, Task>,
    ready: PerCpu,
    blocked: PerCpu,
    zombie: PerCpu,
    current: CurrentTasks,
    waiting: map<Waker, seq<nat>>,
    nextId: nat)

  const Empty := System(map[], [[], []], [[], []], [[], []], [None, None], map[], 1)

  /** A waker that was never registered has nobody waiting. */
  function Queue(waiting: map<Waker, seq<nat>>, w: Waker): seq<nat> {
    if w in waiting then waiting[w] else []
  }

  predicate RunnableIn(s: System, id: nat) {
    id in s.pool && s.pool[id].state.Runnable()
  }

  function SetState(s: System, id: nat, st: TaskState): System
    requires id in s.pool
  {
    s.(pool := s.pool[id := s.pool[id].(state := st)])
  }

  function PushReady(s: System, cpu: Cpu, id: nat): System {
    s.(ready := s.ready[cpu := s.ready[cpu] + [id]])
  }

  /** get_all_task_ids: ready, then blocked, then zombie queues. */
  function AllIds(s: System): seq<nat> {
    Flat(s.ready) + Flat(s.blocked) + Flat(s.zombie)
  }

  // ----- spawning ------------------------------------------------------------------

  /** Puts a new task under the next id; the caller has checked the pool's capacity. */
  function AddTask(s: System, state: TaskState, parent: Option<nat>, cpu: Cpu): System {
    PushReady(
      s.(pool := s.pool[s.nextId := Task(s.nextId, state, 1, parent, [], None)], nextId := s.nextId + 1),
      cpu, s.nextId)
  }

  function AddChild(s: System, p: nat, c: nat): System
    requires p in s.pool
  {
    if c in s.pool[p].children then s
    else s.(pool := s.pool[p := s.pool[p].(children := s.pool[p].children + [c])])
  }

  /** sys_clone: the child copies the parent's state and is recorded on both sides. */
  function Clone(s: System, p: nat, cpu: Cpu): System
    requires p in s.pool
  {
    AddTask(AddChild(s, p, s.nextId), s.pool[p].state, Some(p), cpu)
  }

  // ----- waking --------------------------------------------------------------------

  /** wake_task from CPU `cpu` on: take id off the first blocked queue that holds it,
      or, if none does, only undo its Blocked state. */
  function WakeScan(s: System, id: nat, cpu: nat): (System, bool)
    requires cpu <= NUM_OF_CPUS
    decreases NUM_OF_CPUS - cpu
  {
    if cpu == NUM_OF_CPUS then
      if id in s.pool && s.pool[id].state.Blocked? then (SetState(s, id, Running), true) else (s, false)
    else
      match Position(s.blocked[cpu], id)
      case None => WakeScan(s, id, cpu + 1)
      case Some(pos) =>
        var s1 := s.(blocked := s.blocked[cpu := RemoveAt(s.blocked[cpu], pos)]);
        if id in s1.pool then (PushReady(SetState(s1, id, Running), cpu, id), true)
        else WakeScan(s1, id, cpu + 1)
  }

  function WakeTask(s: System, id: nat): (System, bool) {
    WakeScan(s, id, 0)
  }

  function WakeEach(s: System, ids: seq<nat>): (System, nat)
    decreases |ids|
  {
    if ids == [] then (s, 0)
    else
      var (s1, woken) := WakeTask(s, ids[0]);
      var (s2, n) := WakeEach(s1, ids[1..]);
      (s2, n + if woken then 1 else 0)
  }

  function Drain(s: System, w: Waker): System {
    if w in s.waiting then s.(waiting := s.waiting[w := []]) else s
  }

  function WakeAll(s: System, w: Waker): (System, nat) {
    WakeEach(Drain(s, w), Queue(s.waiting, w))
  }

  function WakeOne(s: System, w: Waker): (System, bool) {
    if Queue(s.waiting, w) == [] then (s, false)
    else WakeTask(s.(waiting := s.waiting[w := Queue(s.waiting, w)[1..]]), Queue(s.waiting, w)[0])
  }

  // ----- blocking, exiting, collecting ---------------------------------------------

  function Enqueue(s: System, id: nat, w: Waker): System {
    s.(waiting := s.waiting[w := Queue(s.waiting, w) + [id]])
  }

  /** Waker::wait up to its call of the scheduler. */
  function Block(s: System, id: nat, w: Waker): System
    requires id in s.pool
  {
    SetState(Enqueue(s, id, w), id, Blocked(w.Kind()))
  }

  function Exit(s: System, id: nat, status: int): System
    requires id in s.pool
  {
    var t := s.pool[id];
    if t.parent.Some? && t.parent.value in s.pool then
      s.(pool := s.pool[id := t.(exitStatus := Some(status), state := Zombie)])
    else
      SetState(s, id, Terminated)
  }

  datatype WaitError = NoSuchChild | ChildNotExited | ChildTaskNotFound

  function RemoveChild(children: seq<nat>, c: nat): seq<nat> {
    match Position(children, c)
    case None => children
    case Some(pos) => RemoveAt(children, pos)
  }

  /** Task::wait: collect a zombie child's status. */
  function Wait(s: System, p: nat, c: nat): (System, Result<int, WaitError>)
    requires p in s.pool
  {
    if c !in s.pool[p].children then (s, Err(NoSuchChild))
    else if c !in s.pool then (s, Err(ChildTaskNotFound))
    else if !s.pool[c].state.Zombie? then (s, Err(ChildNotExited))
    else
      var status := if s.pool[c].exitStatus.Some? then s.pool[c].exitStatus.value else -1;
      var s1 := SetState(s, c, Terminated);
      (s1.(pool := s1.pool[p := s1.pool[p].(children := RemoveChild(s1.pool[p].children, c))]), Ok(status))
  }

  datatype WaitTarget = AnyChild | Child(pid: nat)
  datatype WaitOutcome = Collected(pid: nat, status: int) | Failed | BlockedOn(waker: Waker)

  /** The child loop of waitpid(-1). */
  function WaitAnyScan(s: System, p: nat, kids: seq<nat>): (System, WaitOutcome)
    requires p in s.pool
  {
    if kids == [] then (Block(s, p, OfParent(p)), BlockedOn(OfParent(p)))
    else
      var (s1, r) := Wait(s, p, kids[0]);
      match r
      case Ok(status) => (s1, Collected(kids[0], status))
      case Err(ChildNotExited) => WaitAnyScan(s, p, kids[1..])
      case Err(_) => (s, Failed)
  }

  /** One turn of sys_waitpid's loop: check, and then collect, fail or block. */
  function Waitpid(s: System, p: nat, target: WaitTarget): (System, WaitOutcome)
    requires p in s.pool
  {
    match target
    case AnyChild => WaitAnyScan(s, p, s.pool[p].children)
    case Child(pid) =>
      var (s1, r) := Wait(s, p, pid);
      match r
      case Ok(status) => (s1, Collected(pid, status))
      case Err(ChildNotExited) => (Block(s, p, OfTask(pid)), BlockedOn(OfTask(pid)))
      case Err(_) => (s, Failed)
  }

  // ----- scheduling ----------------------------------------------------------------

  datatype RunOutcome =
    | Dispatched(previous: Option<nat>, next: nat)
    | TaskMissing | Uninitialized | LoneTerminated | PoolFull   // the kernel panics

  function PopReady(s: System, cpu: Cpu): System
    requires s.ready[cpu] != []
  {
    s.(ready := s.ready[cpu := s.ready[cpu][1..]])
  }

  /** A popped zombie moves to the zombie queue and everyone waiting for it is woken. */
  function Reap(s: System, cpu: Cpu, id: nat): System
    requires id in s.pool
  {
    var s1 := s.(zombie := s.zombie[cpu := s.zombie[cpu] + [id]],
                 current := if s.ready[cpu] == [] then s.current[cpu := None] else s.current);
    var s2 := WakeAll(s1, OfTask(id)).0;
    if s.pool[id].parent.Some? then WakeAll(s2, OfParent(s.pool[id].parent.value)).0 else s2
  }

  function Park(s: System, cpu: Cpu, id: nat): System {
    s.(blocked := s.blocked[cpu := s.blocked[cpu] + [id]],
       current := if s.current[cpu] == Some(id) then s.current[cpu := None] else s.current)
  }

  function Dispatch(s: System, cpu: Cpu, id: nat): System
    requires id in s.pool
  {
    var t := s.pool[id];
    var t1 := t.(timeSlice := 1, state := if s.ready[cpu] == [] then Running else t.state);
    PushReady(s.(pool := s.pool[id := t1], current := s.current[cpu := Some(id)]), cpu, id)
  }

  /** How many entries of a ready queue the scheduler will not dispatch. */
  function NonRunnable(pool: map<nat, Task>, q: seq<nat>): nat {
    if q == [] then 0
    else (if q[0] in pool && pool[q[0]].state.Runnable() then 0 else 1) + NonRunnable(pool, q[1..])
  }

  /** Scheduler::run. It terminates: every turn removes a non-runnable entry from the ready
      queue or returns, except for the one turn that puts an idle task in an empty queue;
      waking the waiters of a zombie refills the queue with runnable entries only. */
  function RunLoop(s: System, cpu: Cpu, previous: Option<nat>): (System, RunOutcome)
    decreases NonRunnable(s.pool, s.ready[cpu]), if s.ready[cpu] == [] then 1 else 0
  {
    if s.ready[cpu] == [] then
      if |s.pool| >= MAX_TASKS then (s, PoolFull)
      else
        assert AddTask(s, Ready, None, cpu).ready[cpu] == [s.nextId];
        AllRunnable(AddTask(s, Ready, None, cpu).pool, [s.nextId]);
        RunLoop(AddTask(s, Ready, None, cpu), cpu, previous)
    else
      var id := s.ready[cpu][0];
      var s1 := PopReady(s, cpu);
      if id !in s.pool then (s1, TaskMissing)
      else
        match s.pool[id].state
        case NotInitialized => (s1, Uninitialized)
        case Zombie =>
          ReapGrows(s1, cpu, id);
          GrowthKeepsMeasure(s1, Reap(s1, cpu, id), cpu);
          RunLoop(Reap(s1, cpu, id), cpu, previous)
        case Terminated =>
          if s1.ready[cpu] == [] then (s1, LoneTerminated)
          else
            RemovalKeepsMeasure(s1.pool, id, s1.ready[cpu]);
            RunLoop(s1.(pool := s1.pool - {id}), cpu, previous)
        case Blocked(_) => RunLoop(Park(s1, cpu, id), cpu, previous)
        case _ => (Dispatch(s1, cpu, id), Dispatched(previous, id))
  }

  function Run(s: System, cpu: Cpu): (System, RunOutcome) {
    RunLoop(s, cpu, s.current[cpu])
  }

  // ----- what waking can do to the ready queues ------------------------------------

  /** Waking only makes tasks runnable and only appends runnable tasks to ready queues. */
  ghost predicate Grows(s: System, t: System) {
    && t.pool.Keys == s.pool.Keys
    && (forall id :: RunnableIn(s, id) ==> RunnableIn(t, id))
    && (forall c: Cpu :: s.ready[c] <= t.ready[c])
    && (forall c: Cpu, k :: |s.ready[c]| <= k < |t.ready[c]| ==> RunnableIn(t, t.ready[c][k]))
  }

  lemma GrowsTrans(s: System, t: System, u: System)
    requires Grows(s, t) && Grows(t, u)
    ensures Grows(s, u)
  {
    forall c: Cpu, k | |s.ready[c]| <= k < |u.ready[c]| ensures RunnableIn(u, u.ready[c][k]) {
      if k < |t.ready[c]| { assert u.ready[c][k] == t.ready[c][k]; }
    }
  }

  lemma {:induction false} WakeScanGrows(s: System, id: nat, cpu: nat)
    requires cpu <= NUM_OF_CPUS
    ensures Grows(s, WakeScan(s, id, cpu).0)
    decreases NUM_OF_CPUS - cpu
  {
    if cpu < NUM_OF_CPUS {
      match Position(s.blocked[cpu], id) {
        case None => WakeScanGrows(s, id, cpu + 1);
        case Some(pos) =>
          var s1 := s.(blocked := s.blocked[cpu := RemoveAt(s.blocked[cpu], pos)]);
          if id !in s1.pool {
            WakeScanGrows(s1, id, cpu + 1);
            GrowsTrans(s, s1, WakeScan(s1, id, cpu + 1).0);
          }
      }
    }
  }

  lemma {:induction false} WakeEachGrows(s: System, ids: seq<nat>)
    ensures Grows(s, WakeEach(s, ids).0)
    decreases |ids|
  {
    if ids != [] {
      WakeScanGrows(s, ids[0], 0);
      WakeEachGrows(WakeTask(s, ids[0]).0, ids[1..]);
      GrowsTrans(s, WakeTask(s, ids[0]).0, WakeEach(s, ids).0);
    }
  }

  lemma WakeAllGrows(s: System, w: Waker)
    ensures Grows(s, WakeAll(s, w).0)
  {
    WakeEachGrows(Drain(s, w), Queue(s.waiting, w));
    GrowsTrans(s, Drain(s, w), WakeAll(s, w).0);
  }

  lemma ReapGrows(s: System, cpu: Cpu, id: nat)
    requires id in s.pool
    ensures Grows(s, Reap(s, cpu, id))
  {
    var s1 := s.(zombie := s.zombie[cpu := s.zombie[cpu] + [id]],
                 current := if s.ready[cpu] == [] then s.current[cpu := None] else s.current);
    var s2 := WakeAll(s1, OfTask(id)).0;
    WakeAllGrows(s1, OfTask(id));
    GrowsTrans(s, s1, s2);
    if s.pool[id].parent.Some? {
      WakeAllGrows(s2, OfParent(s.pool[id].parent.value));
      GrowsTrans(s, s2, Reap(s, cpu, id));
    }
  }

  lemma {:induction false} NonRunnableConcat(pool: map<nat, Task>, q: seq<nat>, r: seq<nat>)
    ensures NonRunnable(pool, q + r) == NonRunnable(pool, q) + NonRunnable(pool, r)
  {
    if q == [] {
      assert q + r == r;
    } else {
      assert (q + r)[1..] == q[1..] + r;
      NonRunnableConcat(pool, q[1..], r);
    }
  }

  lemma {:induction false} NonRunnableMonotone(p1: map<nat, Task>, p2: map<nat, Task>, q: seq<nat>)
    requires forall id :: id in p1 && p1[id].state.Runnable() ==> id in p2 && p2[id].state.Runnable()
    ensures NonRunnable(p2, q) <= NonRunnable(p1, q)
  {
    if q != [] { NonRunnableMonotone(p1, p2, q[1..]); }
  }

  lemma {:induction false} AllRunnable(pool: map<nat, Task>, q: seq<nat>)
    requires forall k :: 0 <= k < |q| ==> q[k] in pool && pool[q[k]].state.Runnable()
    ensures NonRunnable(pool, q) == 0
  {
    if q != [] { AllRunnable(pool, q[1..]); }
  }

  lemma GrowthKeepsMeasure(s: System, t: System, cpu: Cpu)
    requires Grows(s, t)
    ensures NonRunnable(t.pool, t.ready[cpu]) <= NonRunnable(s.pool, s.ready[cpu])
  {
    var n := |s.ready[cpu]|;
    var extra := t.ready[cpu][n..];
    assert t.ready[cpu] == s.ready[cpu] + extra;
    NonRunnableConcat(t.pool, s.ready[cpu], extra);
    forall id | id in s.pool && s.pool[id].state.Runnable() ensures id in t.pool && t.pool[id].state.Runnable() {
      assert RunnableIn(s, id);
    }
    NonRunnableMonotone(s.pool, t.pool, s.ready[cpu]);
    forall k | 0 <= k < |extra| ensures extra[k] in t.pool && t.pool[extra[k]].state.Runnable() {
      assert extra[k] == t.ready[cpu][n + k];
    }
    AllRunnable(t.pool, extra);
  }

  lemma {:induction false} RemovalKeepsMeasure(pool: map<nat, Task>, id: nat, q: seq<nat>)
    requires id in pool && !pool[id].state.Runnable()
    ensures NonRunnable(pool - {id}, q) == NonRunnable(pool, q)
  {
    if q != [] { RemovalKeepsMeasure(pool, id, q[1..]); }
  }
}
