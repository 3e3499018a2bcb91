/** Which of its outcomes a call of run has, told from the state before the call. */
module SchedPanic {
  import opened Base
  import opened SchedState
  import opened SchedInv
  import opened SchedRun
  import opened SchedFair
  import opened SchedOld

  /** x belongs to this CPU, ready or parked. */
  ghost predicate Home(s: System, cpu: Cpu, x: nat) { x in s.ready[cpu] || x in s.blocked[cpu] }

  /** x is runnable, or a zombie in the ready queue will wake it. */
  ghost predicate Coming(s: System, cpu: Cpu, x: nat) {
    RunnableIn(s, x) || exists z :: z in s.ready[cpu] && WokenBy(s, x, z)
  }

  /** Some task of this CPU can be dispatched by the time run gets to it. */
  ghost predicate Saved(s: System, cpu: Cpu) { exists x :: Home(s, cpu, x) && Coming(s, cpu, x) }

  ghost predicate IsDead(pool: map<nat, Task>, id: nat) { id in pool && pool[id].state.Terminated? }

  /** How many entries of a ready queue run removes from the pool on its way. */
  ghost function Dead(pool: map<nat, Task>, q: seq<nat>): nat {
    if q == [] then 0 else (if IsDead(pool, q[0]) then 1 else 0) + Dead(pool, q[1..])
  }

  ghost predicate EndsDead(pool: map<nat, Task>, q: seq<nat>) { q != [] && IsDead(pool, q[|q| - 1]) }

  lemma {:induction false} DeadFrame(p1: map<nat, Task>, p2: map<nat, Task>, q: seq<nat>)
    requires forall x :: x in q ==> IsDead(p1, x) == IsDead(p2, x)
    ensures Dead(p1, q) == Dead(p2, q)
  {
    if q != [] { DeadFrame(p1, p2, q[1..]); }
  }

  // ----- where waking puts tasks ----------------------------------------------------

  lemma {:induction false} RemovedOne(q: seq<nat>, pos: nat, x: nat)
    requires pos < |q|
    ensures x in q <==> x in RemoveAt(q, pos) || x == q[pos]
  {
    RemoveAtBag(q, pos);
    assert x in q <==> x in multiset(q);
    assert x in RemoveAt(q, pos) <==> x in multiset(RemoveAt(q, pos));
  }

  lemma {:induction false} ScanHome(s: System, id: nat, c: nat, cpu: Cpu, x: nat)
    requires c <= NUM_OF_CPUS && id in s.pool
    ensures Home(WakeScan(s, id, c).0, cpu, x) <==> Home(s, cpu, x)
    decreases NUM_OF_CPUS - c
  {
    if c < NUM_OF_CPUS {
      match Position(s.blocked[c], id) {
        case None => ScanHome(s, id, c + 1, cpu, x);
        case Some(pos) => RemovedOne(s.blocked[c], pos, x);
      }
    }
  }

  lemma {:induction false} EachHome(s: System, ids: seq<nat>, cpu: Cpu, x: nat)
    requires forall id :: id in ids ==> id in s.pool
    ensures Home(WakeEach(s, ids).0, cpu, x) <==> Home(s, cpu, x)
    decreases |ids|
  {
    if ids != [] {
      assert ids[0] in ids;
      ScanHome(s, ids[0], 0, cpu, x);
      WakeScanGrows(s, ids[0], 0);
      EachHome(WakeTask(s, ids[0]).0, ids[1..], cpu, x);
    }
  }

  lemma WakeHome(s: System, w: Waker, cpu: Cpu, x: nat)
    requires Waits(s.pool, s.waiting, [])
    ensures Home(WakeAll(s, w).0, cpu, x) <==> Home(s, cpu, x)
  {
    forall id | id in Queue(s.waiting, w) ensures id in s.pool { assert IsBlocked(s.pool, id); }
    EachHome(Drain(s, w), Queue(s.waiting, w), cpu, x);
  }

  lemma HeadTail(q: seq<nat>, x: nat)
    requires q != []
    ensures x in q <==> x == q[0] || x in q[1..]
  {
  }

  lemma WakeTwiceHome(s: System, v: Waker, w: Waker, cpu: Cpu, x: nat)
    requires Placed(s) && Waits(s.pool, s.waiting, [])
    ensures Home(WakeAll(WakeAll(s, v).0, w).0, cpu, x) <==> Home(s, cpu, x)
  {
    WakeHome(s, v, cpu, x);
    WakeAllEffect(s, v);
    WakeHome(WakeAll(s, v).0, w, cpu, x);
  }

  /** The front of the ready queue is a zombie. */
  ghost predicate FrontZombie(s: System, cpu: Cpu) {
    && s.ready[cpu] != [] && s.ready[cpu][0] in s.pool
    && s.pool[s.ready[cpu][0]].state.Zombie? && s.pool[s.ready[cpu][0]].parent.Some?
  }

  lemma ReapHome(s: System, cpu: Cpu, x: nat)
    requires Placed(s) && Waits(s.pool, s.waiting, []) && FrontZombie(s, cpu) && x != s.ready[cpu][0]
    ensures Home(Turn(s, cpu), cpu, x) <==> Home(s, cpu, x)
  {
    var z := s.ready[cpu][0];
    HeadTail(s.ready[cpu], x);
    BuriedPlaced(s, cpu);
    WakeTwiceHome(Buried(PopReady(s, cpu), cpu, z), OfTask(z), OfParent(s.pool[z].parent.value), cpu, x);
  }

  // ----- a turn changes nothing about it --------------------------------------------

  /** What reaping leaves of a ready queue: the rest of it, and runnable tasks behind. */
  lemma ReapEntries(s: System, cpu: Cpu)
    requires FrontZombie(s, cpu)
    ensures s.ready[cpu][1..] <= Turn(s, cpu).ready[cpu]
    ensures forall y :: y in Turn(s, cpu).ready[cpu] ==> y in s.ready[cpu][1..] || RunnableIn(Turn(s, cpu), y)
  {
    var s1, t := PopReady(s, cpu), Turn(s, cpu);
    ReapGrows(s1, cpu, s.ready[cpu][0]);
    assert s1.ready[cpu] == s.ready[cpu][1..];
    forall y | y in t.ready[cpu] ensures y in s1.ready[cpu] || RunnableIn(t, y) {
      var k :| 0 <= k < |t.ready[cpu]| && t.ready[cpu][k] == y;
      if k < |s1.ready[cpu]| { assert s1.ready[cpu][k] == y; }
    }
  }

  lemma ComingReap(s: System, cpu: Cpu, x: nat)
    requires CoreInv(s, {}) && FrontZombie(s, cpu)
    ensures Coming(Turn(s, cpu), cpu, x) <==> Coming(s, cpu, x)
  {
    var z, t := s.ready[cpu][0], Turn(s, cpu);
    ReapRunnable(s, cpu, x);
    ReapEntries(s, cpu);
    if y :| y in s.ready[cpu] && WokenBy(s, x, y) {
      HeadTail(s.ready[cpu], y);
      WokenByTurn(s, cpu, x, y);
      assert y != z ==> y in t.ready[cpu];
    }
    if y :| y in t.ready[cpu] && WokenBy(t, x, y) {
      WokenByTurn(s, cpu, x, y);
      assert y in s.ready[cpu];
    }
    assert z in s.ready[cpu];
  }

  /** A finished task is not coming. */
  lemma FinishedNotComing(s: System, cpu: Cpu, x: nat)
    requires Waits(s.pool, s.waiting, []) && IsFinished(s.pool, x)
    ensures !Coming(s, cpu, x)
  {
    assert forall w :: x in Queue(s.waiting, w) ==> IsBlocked(s.pool, x);
  }

  lemma SavedReap(s: System, cpu: Cpu)
    requires CoreInv(s, {}) && FrontZombie(s, cpu)
    ensures Saved(Turn(s, cpu), cpu) <==> Saved(s, cpu)
  {
    var z, t := s.ready[cpu][0], Turn(s, cpu);
    FinishedNotComing(s, cpu, z);
    forall x ensures Home(t, cpu, x) && Coming(t, cpu, x) <==> Home(s, cpu, x) && Coming(s, cpu, x) {
      ComingReap(s, cpu, x);
      if x != z { ReapHome(s, cpu, x); }
    }
  }

  lemma SavedOther(s: System, cpu: Cpu)
    requires Waits(s.pool, s.waiting, []) && s.ready[cpu] != [] && s.ready[cpu][0] in s.pool
    requires s.pool[s.ready[cpu][0]].state.Terminated? || s.pool[s.ready[cpu][0]].state.Blocked?
    ensures Saved(Turn(s, cpu), cpu) <==> Saved(s, cpu)
  {
    var id, t := s.ready[cpu][0], Turn(s, cpu);
    assert t.ready[cpu] == s.ready[cpu][1..] && t.waiting == s.waiting;
    if s.pool[id].state.Terminated? { FinishedNotComing(s, cpu, id); }
    forall x ensures Home(t, cpu, x) && Coming(t, cpu, x) <==> Home(s, cpu, x) && Coming(s, cpu, x) {
      HeadTail(s.ready[cpu], x);
      OtherComing(s, cpu, x);
    }
  }

  lemma OtherComing(s: System, cpu: Cpu, x: nat)
    requires Waits(s.pool, s.waiting, []) && s.ready[cpu] != [] && s.ready[cpu][0] in s.pool
    requires s.pool[s.ready[cpu][0]].state.Terminated? || s.pool[s.ready[cpu][0]].state.Blocked?
    ensures Coming(Turn(s, cpu), cpu, x) <==> Coming(s, cpu, x)
  {
    var id, t := s.ready[cpu][0], Turn(s, cpu);
    assert t.ready[cpu] == s.ready[cpu][1..] && t.waiting == s.waiting;
    forall z ensures WokenBy(t, x, z) <==> WokenBy(s, x, z) { }
    forall z | WokenBy(s, x, z) ensures z in s.ready[cpu] <==> z in t.ready[cpu] { HeadTail(s.ready[cpu], z); }
  }

  lemma SavedTurn(s: System, cpu: Cpu)
    requires CoreInv(s, {}) && Turns(s, cpu) && s.ready[cpu] != []
    ensures Saved(Turn(s, cpu), cpu) <==> Saved(s, cpu)
  {
    if s.pool[s.ready[cpu][0]].state.Zombie? {
      assert Related(s.pool, s.ready[cpu][0]);
      SavedReap(s, cpu);
    } else {
      SavedOther(s, cpu);
    }
  }

  // ----- the rest of the queue ------------------------------------------------------

  /** When nothing is coming, a turn only drops the front, and the pool shrinks by exactly the dead. */
  lemma UnsavedTurn(s: System, cpu: Cpu)
    requires CoreInv(s, {}) && Turns(s, cpu) && s.ready[cpu] != [] && !Saved(s, cpu)
    ensures var q, t := s.ready[cpu], Turn(s, cpu);
            && t.ready[cpu] == q[1..]
            && |t.pool| - Dead(t.pool, q[1..]) == |s.pool| - Dead(s.pool, q)
            && (EndsDead(t.pool, q[1..]) <==> EndsDead(s.pool, q))
  {
    if s.pool[s.ready[cpu][0]].state.Zombie? {
      assert Related(s.pool, s.ready[cpu][0]);
      UnsavedReap(s, cpu);
    } else if s.pool[s.ready[cpu][0]].state.Terminated? {
      UnsavedRemoval(s, cpu);
    }
  }

  lemma UnsavedReap(s: System, cpu: Cpu)
    requires CoreInv(s, {}) && FrontZombie(s, cpu) && !Saved(s, cpu)
    ensures var q, t := s.ready[cpu], Turn(s, cpu);
            t.ready[cpu] == q[1..] && |t.pool| == |s.pool| && Dead(t.pool, q[1..]) == Dead(s.pool, q)
            && (EndsDead(t.pool, q[1..]) <==> EndsDead(s.pool, q))
  {
    var q, t := s.ready[cpu], Turn(s, cpu);
    SavedReap(s, cpu);
    ReapEntries(s, cpu);
    forall y | y in t.ready[cpu] ensures !RunnableIn(t, y) { assert Home(t, cpu, y); }
    AddedRunnable(s, cpu);
    ReapLife(s, cpu);
    assert |t.pool.Keys| == |s.pool.Keys|;
    forall x ensures IsDead(t.pool, x) == IsDead(s.pool, x) {
      if x in s.pool { assert SameTaskLife(s.pool[x], t.pool[x]); }
    }
    DeadFrame(s.pool, t.pool, q[1..]);
  }

  /** Reaping drops the front, or it has added a runnable task. */
  lemma AddedRunnable(s: System, cpu: Cpu)
    requires FrontZombie(s, cpu)
    ensures Turn(s, cpu).ready[cpu] == s.ready[cpu][1..] ||
            exists y :: y in Turn(s, cpu).ready[cpu] && RunnableIn(Turn(s, cpu), y)
  {
    var s1, t := PopReady(s, cpu), Turn(s, cpu);
    ReapGrows(s1, cpu, s.ready[cpu][0]);
    assert s1.ready[cpu] == s.ready[cpu][1..];
    if |t.ready[cpu]| > |s1.ready[cpu]| {
      var y := t.ready[cpu][|s1.ready[cpu]|];
      assert y in t.ready[cpu] && RunnableIn(t, y);
    }
  }

  lemma UnsavedRemoval(s: System, cpu: Cpu)
    requires Placed(s) && |s.ready[cpu]| > 1 && IsDead(s.pool, s.ready[cpu][0])
    ensures var q, t := s.ready[cpu], Removed(s, cpu);
            t.ready[cpu] == q[1..] && |t.pool| + 1 == |s.pool| && Dead(t.pool, q[1..]) + 1 == Dead(s.pool, q)
            && (EndsDead(t.pool, q[1..]) <==> EndsDead(s.pool, q))
  {
    var q, t := s.ready[cpu], Removed(s, cpu);
    assert t.pool.Keys == s.pool.Keys - {q[0]};
    assert |t.pool| == |s.pool.Keys| - 1;
    forall x | x in q[1..] ensures IsDead(s.pool, x) == IsDead(t.pool, x) {
      var k :| 0 <= k < |q[1..]| && q[1..][k] == x;
      EntriesDistinct(s, cpu, k + 1);
    }
    DeadFrame(s.pool, t.pool, q[1..]);
  }

  // ----- the outcome ----------------------------------------------------------------

  /** What run will answer, from the state before: it dispatches if some task of the CPU is coming; if
      none is, a Terminated task at the end of the queue is a panic, and otherwise an idle task is
      created, which panics exactly when the pool is full even without the removed tasks. */
  ghost predicate Foreseen(s: System, cpu: Cpu, r: RunOutcome) {
    var q := s.ready[cpu];
    if Saved(s, cpu) then r.Dispatched?
    else if EndsDead(s.pool, q) then r.LoneTerminated?
    else if |s.pool| - Dead(s.pool, q) < MAX_TASKS then r.Dispatched?
    else r.PoolFull?
  }

  lemma StopForeseen(s: System, cpu: Cpu, previous: Option<nat>)
    requires CoreInv(s, {}) && !Turns(s, cpu)
    ensures Foreseen(s, cpu, RunLoop(s, cpu, previous).1)
  {
    var q := s.ready[cpu];
    if q != [] {
      HeadInPool(s, cpu);
      if RunnableIn(s, q[0]) {
        assert Home(s, cpu, q[0]) && Coming(s, cpu, q[0]);
      } else {
        LoneUnsaved(s, cpu);
      }
    } else {
      EmptyUnsaved(s, cpu);
    }
  }

  lemma LoneUnsaved(s: System, cpu: Cpu)
    requires Placed(s) && Waits(s.pool, s.waiting, []) && |s.ready[cpu]| == 1 && IsDead(s.pool, s.ready[cpu][0])
    ensures !Saved(s, cpu)
  {
    var d := s.ready[cpu][0];
    forall x | Home(s, cpu, x) ensures !Coming(s, cpu, x) {
      if x == d {
        FinishedNotComing(s, cpu, x);
      } else {
        ParkedNotRunnable(s, cpu, x);
        assert forall z :: z in s.ready[cpu] ==> z == d;
      }
    }
  }

  lemma ParkedNotRunnable(s: System, cpu: Cpu, x: nat)
    requires Placed(s) && x in s.blocked[cpu]
    ensures !RunnableIn(s, x)
  {
    FlatMember(s.blocked, x);
    assert x in BlockedBag(s);
    assert IsBlocked(s.pool, x);
  }

  lemma EmptyUnsaved(s: System, cpu: Cpu)
    requires Placed(s) && s.ready[cpu] == []
    ensures !Saved(s, cpu)
  {
    forall x | Home(s, cpu, x) ensures !Coming(s, cpu, x) { ParkedNotRunnable(s, cpu, x); }
  }

  /** Every call of run in a sound state has the foreseen outcome; the other two panics do not occur. */
  lemma {:induction false} RunForeseen(s: System, cpu: Cpu, previous: Option<nat>)
    requires CoreInv(s, {})
    ensures Foreseen(s, cpu, RunLoop(s, cpu, previous).1)
    decreases NonRunnable(s.pool, s.ready[cpu]), if s.ready[cpu] == [] then 1 else 0
  {
    if !Turns(s, cpu) {
      StopForeseen(s, cpu, previous);
    } else {
      LoopStep(s, cpu, previous);
      TurnDecreases(s, cpu);
      TurnKeeps(s, cpu);
      RunForeseen(Turn(s, cpu), cpu, previous);
      TurnForeseen(s, cpu, RunLoop(s, cpu, previous).1);
    }
  }

  lemma TurnForeseen(s: System, cpu: Cpu, r: RunOutcome)
    requires CoreInv(s, {}) && Turns(s, cpu) && Foreseen(Turn(s, cpu), cpu, r)
    ensures Foreseen(s, cpu, r)
  {
    if s.ready[cpu] == [] {
      EmptyUnsaved(s, cpu);
      var t := Turn(s, cpu);
      assert t.ready[cpu] == [s.nextId];
      assert Home(t, cpu, s.nextId) && Coming(t, cpu, s.nextId);
    } else {
      SavedTurn(s, cpu);
      if !Saved(s, cpu) { UnsavedTurn(s, cpu); }
    }
  }
}
