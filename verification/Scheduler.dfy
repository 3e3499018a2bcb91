/** The scheduler, the wakers and task exit/wait as the code has them: an object that updates its
    queues and task slots in place. Each method is proved against its function in SchedState. */
module Scheduler {
  import opened Base
  import opened SchedState
  import opened TaskPool
  import SchedRun

  lemma WaitAnyStep(s: System, p: nat, kids: seq<nat>, i: nat)
    requires p in s.pool && i < |kids|
    ensures var (s1, r) := Wait(s, p, kids[i]);
            && (r.Err? ==> s1 == s)
            && WaitAnyScan(s, p, kids[i..]) ==
               if r.Ok? then (s1, Collected(kids[i], r.value))
               else if r.error.ChildNotExited? then WaitAnyScan(s, p, kids[i + 1..]) else (s, Failed)
  {
    assert kids[i..][1..] == kids[i + 1..];
  }

  class Scheduler {
    const pool: TaskPool
    var ready: PerCpu
    var blocked: PerCpu
    var zombie: PerCpu
    var current: CurrentTasks
    var waiting: map<Waker, seq<nat>>   // the wait queues of all wakers
    var nextId: nat                     // TASK_ID

    ghost predicate Valid()
      reads this, pool, pool.slots
    {
      && pool.Valid() && pool.NoLeak()
      && forall id :: id in pool.tasks ==> id < nextId
    }

    ghost function State(): System
      reads this, pool
    {
      System(pool.tasks, ready, blocked, zombie, current, waiting, nextId)
    }

    constructor ()
      ensures Valid() && fresh(pool) && fresh(pool.slots)
      ensures State() == Empty
    {
      pool := new TaskPool();
      ready, blocked, zombie := [[], []], [[], []], [[], []];
      current, waiting, nextId := [None, None], map[], 1;
    }

    /** A new task under the next id; false is the panic of a full pool. */
    method AddTask(state: TaskState, parent: Option<nat>, cpu: Cpu) returns (ok: bool)
      requires Valid()
      modifies this, pool, pool.slots
      ensures Valid()
      ensures ok <==> |old(State()).pool| < MAX_TASKS
      ensures State() == if ok then SchedState.AddTask(old(State()), state, parent, cpu) else old(State())
    {
      ok := pool.Add(Task(nextId, state, 1, parent, [], None));
      if ok {
        ready := ready[cpu := ready[cpu] + [nextId]];
        nextId := nextId + 1;
      }
    }

    /** sys_clone; false is the panic of a full pool. */
    method Clone(p: nat, cpu: Cpu) returns (ok: bool)
      requires Valid() && p in State().pool
      modifies this, pool, pool.slots
      ensures Valid()
      ensures ok <==> |old(State()).pool| < MAX_TASKS
      ensures ok ==> State() == SchedState.Clone(old(State()), p, cpu)
    {
      var parent := pool.Get(p);
      ghost var s := State();
      if nextId !in parent.value.children {
        SetTask(parent.value.(children := parent.value.children + [nextId]));
      }
      assert State() == AddChild(s, p, nextId) && State().pool.Keys == s.pool.Keys;
      assert |State().pool| == |s.pool|;
      ok := AddTask(parent.value.state, Some(p), cpu);
    }

    method SetTask(task: Task)
      requires Valid() && task.id in pool.tasks
      modifies pool`tasks, pool.slots
      ensures Valid()
      ensures State() == old(State()).(pool := old(State()).pool[task.id := task])
    {
      pool.Put(task);
    }

    /** wake_task on the blocked queue of one CPU. */
    method WakeOn(cpu: Cpu, id: nat) returns (woken: bool)
      requires Valid()
      modifies this, pool`tasks, pool.slots
      ensures Valid()
      ensures woken ==> (State(), true) == WakeScan(old(State()), id, cpu)
      ensures !woken ==> WakeScan(State(), id, cpu + 1) == WakeScan(old(State()), id, cpu)
    {
      var pos := Position(blocked[cpu], id);
      if pos.None? { return false; }
      blocked := blocked[cpu := RemoveAt(blocked[cpu], pos.value)];
      var t := pool.Get(id);
      if t.None? { return false; }
      ready := ready[cpu := ready[cpu] + [id]];
      SetTask(t.value.(state := Running));
      return true;
    }

    /** wake_task for a task that no blocked queue holds. */
    method WakeUnparked(id: nat) returns (woken: bool)
      requires Valid()
      modifies this, pool`tasks, pool.slots
      ensures Valid()
      ensures (State(), woken) == WakeScan(old(State()), id, NUM_OF_CPUS)
    {
      var t := pool.Get(id);
      woken := t.Some? && t.value.state.Blocked?;
      if woken { SetTask(t.value.(state := Running)); }
    }

    /** Scheduler::wake_task. */
    method WakeTask(id: nat) returns (woken: bool)
      requires Valid()
      modifies this, pool`tasks, pool.slots
      ensures Valid()
      ensures (State(), woken) == SchedState.WakeTask(old(State()), id)
    {
      var cpu := 0;
      while cpu < NUM_OF_CPUS
        invariant cpu <= NUM_OF_CPUS
        invariant Valid()
        invariant WakeScan(State(), id, cpu) == SchedState.WakeTask(old(State()), id)
      {
        woken := WakeOn(cpu, id);
        if woken { return; }
        cpu := cpu + 1;
      }
      woken := WakeUnparked(id);
    }

    /** Waker::wait up to the call of schedule. */
    method Block(id: nat, w: Waker)
      requires Valid() && id in State().pool
      modifies this, pool`tasks, pool.slots
      ensures Valid()
      ensures State() == SchedState.Block(old(State()), id, w)
    {
      waiting := waiting[w := Queue(waiting, w) + [id]];
      var t := pool.Get(id);
      SetTask(t.value.(state := Blocked(w.Kind())));
    }

    /** Waker::wake_one. */
    method WakeOne(w: Waker) returns (woken: bool)
      requires Valid()
      modifies this, pool`tasks, pool.slots
      ensures Valid()
      ensures (State(), woken) == SchedState.WakeOne(old(State()), w)
    {
      var q := Queue(waiting, w);
      if q == [] { return false; }
      waiting := waiting[w := q[1..]];
      woken := WakeTask(q[0]);
    }

    /** Waker::wake_all. */
    method WakeAll(w: Waker) returns (count: nat)
      requires Valid()
      modifies this, pool`tasks, pool.slots
      ensures Valid()
      ensures (State(), count) == SchedState.WakeAll(old(State()), w)
    {
      var ids := Queue(waiting, w);
      if w in waiting { waiting := waiting[w := []]; }
      ghost var drained := State();
      assert drained == Drain(old(State()), w);
      count := 0;
      var i := 0;
      assert ids[0..] == ids;
      while i < |ids|
        invariant i <= |ids| && Valid()
        invariant WakeEach(State(), ids[i..]).0 == WakeEach(drained, ids).0
        invariant count + WakeEach(State(), ids[i..]).1 == WakeEach(drained, ids).1
      {
        var woken := WakeTask(ids[i]);
        if woken { count := count + 1; }
        assert ids[i..][1..] == ids[i + 1..];
        i := i + 1;
      }
    }

    method Exit(id: nat, status: int)
      requires Valid() && id in State().pool
      modifies pool`tasks, pool.slots
      ensures Valid()
      ensures State() == SchedState.Exit(old(State()), id, status)
    {
      var t := pool.Get(id);
      var parent := None;
      if t.value.parent.Some? { parent := pool.Get(t.value.parent.value); }
      if parent.Some? {
        SetTask(t.value.(exitStatus := Some(status), state := Zombie));
      } else {
        SetTask(t.value.(state := Terminated));
      }
    }

    /** Task::wait. */
    method WaitChild(p: nat, c: nat) returns (r: Result<int, WaitError>)
      requires Valid() && p in State().pool
      modifies pool`tasks, pool.slots
      ensures Valid()
      ensures (State(), r) == Wait(old(State()), p, c)
    {
      var parent := pool.Get(p);
      if c !in parent.value.children { return Err(NoSuchChild); }
      var child := pool.Get(c);
      if child.None? { return Err(ChildTaskNotFound); }
      if !child.value.state.Zombie? { return Err(ChildNotExited); }
      r := Ok(if child.value.exitStatus.Some? then child.value.exitStatus.value else -1);
      SetTask(child.value.(state := Terminated));
      parent := pool.Get(p);
      SetTask(parent.value.(children := RemoveChild(parent.value.children, c)));
    }

    /** The child loop of waitpid(-1). */
    method WaitAny(p: nat) returns (r: WaitOutcome)
      requires Valid() && p in State().pool
      modifies this, pool`tasks, pool.slots
      ensures Valid()
      ensures (State(), r) == WaitAnyScan(old(State()), p, old(State()).pool[p].children)
    {
      var parent := pool.Get(p);
      var kids := parent.value.children;
      ghost var s := State();
      var i := 0;
      assert kids[0..] == kids;
      while i < |kids|
        invariant i <= |kids| && Valid() && State() == s
        invariant WaitAnyScan(s, p, kids[i..]) == WaitAnyScan(s, p, kids)
      {
        WaitAnyStep(s, p, kids, i);
        var status := WaitChild(p, kids[i]);
        if status.Ok? { return Collected(kids[i], status.value); }
        if !status.error.ChildNotExited? { return Failed; }
        i := i + 1;
      }
      Block(p, OfParent(p));
      r := BlockedOn(OfParent(p));
    }

    /** One turn of sys_waitpid's loop, up to the call of schedule. */
    method Waitpid(p: nat, target: WaitTarget) returns (r: WaitOutcome)
      requires Valid() && p in State().pool
      modifies this, pool`tasks, pool.slots
      ensures Valid()
      ensures (State(), r) == SchedState.Waitpid(old(State()), p, target)
    {
      if target.AnyChild? {
        r := WaitAny(p);
        return;
      }
      var status := WaitChild(p, target.pid);
      if status.Ok? { return Collected(target.pid, status.value); }
      if !status.error.ChildNotExited? { return Failed; }
      Block(p, OfTask(target.pid));
      r := BlockedOn(OfTask(target.pid));
    }

    /** The zombie branch of run. */
    method ReapZombie(cpu: Cpu, t: Task)
      requires Valid() && t.id in State().pool && State().pool[t.id] == t
      modifies this, pool`tasks, pool.slots
      ensures Valid()
      ensures State() == Reap(old(State()), cpu, t.id)
    {
      zombie := zombie[cpu := zombie[cpu] + [t.id]];
      if ready[cpu] == [] { current := current[cpu := None]; }
      var _ := WakeAll(OfTask(t.id));
      if t.parent.Some? { var _ := WakeAll(OfParent(t.parent.value)); }
    }

    /** The blocked branch of run. */
    method ParkTask(cpu: Cpu, id: nat)
      requires Valid()
      modifies this`current, this`blocked
      ensures Valid()
      ensures State() == Park(old(State()), cpu, id)
    {
      if current[cpu] == Some(id) { current := current[cpu := None]; }
      blocked := blocked[cpu := blocked[cpu] + [id]];
    }

    /** The ready branch of run. */
    method DispatchTask(cpu: Cpu, t: Task)
      requires Valid() && t.id in State().pool && State().pool[t.id] == t
      modifies this`current, this`ready, pool`tasks, pool.slots
      ensures Valid()
      ensures State() == Dispatch(old(State()), cpu, t.id)
    {
      var t1 := t.(timeSlice := 1, state := if ready[cpu] == [] then Running else t.state);
      current := current[cpu := Some(t.id)];
      ready := ready[cpu := ready[cpu] + [t.id]];
      SetTask(t1);
    }

    /** The terminated branch of run. */
    method RemoveTask(id: nat)
      requires Valid()
      modifies pool, pool.slots
      ensures Valid()
      ensures State() == old(State()).(pool := old(State()).pool - {id})
    {
      var _ := pool.Remove(id);
    }

    /** What run does with what it has popped: Some(outcome) when it returns or panics. */
    method RunPopped(cpu: Cpu, previous: Option<nat>, t: Task) returns (r: Option<RunOutcome>)
      requires Valid() && t.id in State().pool && State().pool[t.id] == t
      modifies this, pool, pool.slots
      ensures Valid()
      ensures match t.state
              case NotInitialized => r == Some(Uninitialized) && State() == old(State())
              case Zombie => r == None && State() == Reap(old(State()), cpu, t.id)
              case Terminated =>
                if old(ready)[cpu] == [] then r == Some(LoneTerminated) && State() == old(State())
                else r == None && State() == old(State()).(pool := old(State()).pool - {t.id})
              case Blocked(_) => r == None && State() == Park(old(State()), cpu, t.id)
              case _ => r == Some(Dispatched(previous, t.id)) && State() == Dispatch(old(State()), cpu, t.id)
    {
      match t.state {
        case NotInitialized => return Some(Uninitialized);
        case Zombie => ReapZombie(cpu, t);
        case Terminated =>
          if ready[cpu] == [] { return Some(LoneTerminated); }
          RemoveTask(t.id);
        case Blocked(_) => ParkTask(cpu, t.id);
        case _ =>
          DispatchTask(cpu, t);
          return Some(Dispatched(previous, t.id));
      }
      r := None;
    }

    /** One turn of the loop of run. */
    method RunOnce(cpu: Cpu, previous: Option<nat>) returns (r: Option<RunOutcome>)
      requires Valid()
      modifies this, pool, pool.slots
      ensures Valid()
      ensures r.Some? ==> (State(), r.value) == RunLoop(old(State()), cpu, previous)
      ensures r.None? ==> SchedRun.Turns(old(State()), cpu) && State() == SchedRun.Turn(old(State()), cpu)
    {
      if ready[cpu] == [] {
        var ok := AddTask(Ready, None, cpu);
        return if ok then None else Some(PoolFull);
      }
      var id := ready[cpu][0];
      ready := ready[cpu := ready[cpu][1..]];
      var t := pool.Get(id);
      if t.None? { return Some(TaskMissing); }
      r := RunPopped(cpu, previous, t.value);
    }

    /** Scheduler::run: the loop ends, with the outcome that SchedState.Run describes. */
    method Run(cpu: Cpu) returns (r: RunOutcome)
      requires Valid()
      modifies this, pool, pool.slots
      ensures Valid()
      ensures (State(), r) == SchedState.Run(old(State()), cpu)
    {
      var previous := current[cpu];
      while true
        invariant Valid()
        invariant RunLoop(State(), cpu, previous) == SchedState.Run(old(State()), cpu)
        decreases NonRunnable(State().pool, ready[cpu]), if ready[cpu] == [] then 1 else 0
      {
        ghost var s := State();
        var outcome := RunOnce(cpu, previous);
        if outcome.Some? { return outcome.value; }
        SchedRun.LoopStep(s, cpu, previous);
        SchedRun.TurnDecreases(s, cpu);
      }
    }

    /** get_all_task_ids. */
    method GetAllTaskIds() returns (ids: seq<nat>)
      requires Valid()
      ensures ids == AllIds(State())
    {
      var r := Concat(ready);
      var b := Concat(blocked);
      var z := Concat(zombie);
      ids := r + b + z;
    }

    static method Concat(qs: PerCpu) returns (ids: seq<nat>)
      ensures ids == Flat(qs)
    {
      ids := [];
      var i := 0;
      assert qs[0..] == qs;
      while i < |qs|
        invariant i <= |qs|
        invariant ids + Flat(qs[i..]) == Flat(qs)
      {
        ids := ids + qs[i];
        assert qs[i..][1..] == qs[i + 1..];
        i := i + 1;
      }
    }
  }
}
