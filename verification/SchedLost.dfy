/** A Blocked task that nothing will wake again. */
module SchedLost {
  import opened Base
  import opened SchedState
  import opened SchedInv
  import opened SchedRun
  import opened SchedRuns

  /** `c` is in no ready and no blocked queue, so run will never pop it again. */
  ghost predicate Absent(s: System, c: nat) {
    c < s.nextId && forall k: Cpu :: c !in s.ready[k] && c !in s.blocked[k]
  }

  ghost predicate Shielded(s: System, ws: set<Waker>) {
    forall w :: w in ws ==> w.OfTask? && Absent(s, w.id)
  }

  /** `p` is Blocked and waits on exactly the wakers `ws`, which run does not wake. */
  ghost predicate Stays(s: System, p: nat, ws: set<Waker>) {
    && IsBlocked(s.pool, p) && p < s.nextId
    && (forall w :: p in Queue(s.waiting, w) <==> w in ws)
    && Shielded(s, ws)
  }

  /** Blocked, but on nobody's wait queue. */
  ghost predicate Lost(s: System, p: nat) {
    IsBlocked(s.pool, p) && forall w :: p !in Queue(s.waiting, w)
  }

  // ----- waking others --------------------------------------------------------------

  /** What waking a task other than `p` leaves alone. */
  ghost predicate Spared(s: System, t: System, p: nat) {
    && t.waiting == s.waiting && t.nextId == s.nextId
    && (IsBlocked(s.pool, p) ==> IsBlocked(t.pool, p))
    && forall c :: Absent(s, c) ==> Absent(t, c)
  }

  lemma {:induction false} ScanSpares(s: System, id: nat, cpu: nat, p: nat)
    requires cpu <= NUM_OF_CPUS && id != p
    ensures Spared(s, WakeScan(s, id, cpu).0, p)
    decreases NUM_OF_CPUS - cpu
  {
    if cpu < NUM_OF_CPUS {
      match Position(s.blocked[cpu], id) {
        case None => ScanSpares(s, id, cpu + 1, p);
        case Some(pos) =>
          assert s.blocked[cpu][pos] == id && id in s.blocked[cpu];
          var s1 := s.(blocked := s.blocked[cpu := RemoveAt(s.blocked[cpu], pos)]);
          assert forall c :: Absent(s, c) ==> Absent(s1, c);
          if id !in s1.pool { ScanSpares(s1, id, cpu + 1, p); }
      }
    }
  }

  lemma {:induction false} EachSpares(s: System, ids: seq<nat>, p: nat)
    requires p !in ids
    ensures Spared(s, WakeEach(s, ids).0, p)
    decreases |ids|
  {
    if ids != [] {
      ScanSpares(s, ids[0], 0, p);
      EachSpares(WakeTask(s, ids[0]).0, ids[1..], p);
    }
  }

  lemma StaysWakeAll(s: System, w: Waker, p: nat, ws: set<Waker>)
    requires Stays(s, p, ws) && w !in ws
    ensures Stays(WakeAll(s, w).0, p, ws) && WakeAll(s, w).0.nextId == s.nextId
  {
    var d := Drain(s, w);
    forall v ensures p in Queue(d.waiting, v) <==> v in ws { assert p in Queue(s.waiting, v) <==> v in ws; }
    EachSpares(d, Queue(s.waiting, w), p);
    forall v | v in ws ensures Absent(WakeAll(s, w).0, v.id) { assert Absent(d, v.id); }
  }

  lemma StaysWakeOne(s: System, w: Waker, p: nat, ws: set<Waker>)
    requires Stays(s, p, ws) && w !in ws
    ensures Stays(WakeOne(s, w).0, p, ws)
  {
    var q := Queue(s.waiting, w);
    if q != [] {
      var d := s.(waiting := s.waiting[w := q[1..]]);
      assert p !in q;
      forall v ensures p in Queue(d.waiting, v) <==> v in ws { assert p in Queue(s.waiting, v) <==> v in ws; }
      ScanSpares(d, q[0], 0, p);
      forall v | v in ws ensures Absent(WakeOne(s, w).0, v.id) { assert Absent(d, v.id); }
    }
  }

  // ----- run ------------------------------------------------------------------------

  lemma StaysTurn(s: System, cpu: Cpu, p: nat, ws: set<Waker>)
    requires Stays(s, p, ws) && Turns(s, cpu)
    ensures Stays(Turn(s, cpu), p, ws)
  {
    if s.ready[cpu] != [] {
      var id := s.ready[cpu][0];
      assert id in s.ready[cpu];
      assert forall c :: Absent(s, c) ==> Absent(PopReady(s, cpu), c);
      if s.pool[id].state.Zombie? {
        var z := Buried(PopReady(s, cpu), cpu, id);
        assert Stays(z, p, ws);
        assert OfTask(id) !in ws;
        StaysWakeAll(z, OfTask(id), p, ws);
        if s.pool[id].parent.Some? {
          StaysWakeAll(WakeAll(z, OfTask(id)).0, OfParent(s.pool[id].parent.value), p, ws);
        }
      } else if s.pool[id].state.Blocked? {
        ParkSpares(s, cpu);
      }
    }
  }

  lemma ParkSpares(s: System, cpu: Cpu)
    requires s.ready[cpu] != []
    ensures forall c :: Absent(s, c) ==> Absent(Park(PopReady(s, cpu), cpu, s.ready[cpu][0]), c)
  {
    var id := s.ready[cpu][0];
    assert id in s.ready[cpu];
  }

  lemma DispatchSpares(s: System, cpu: Cpu)
    requires s.ready[cpu] != [] && s.ready[cpu][0] in s.pool
    ensures forall c :: Absent(s, c) ==> Absent(Dispatch(PopReady(s, cpu), cpu, s.ready[cpu][0]), c)
  {
    var id := s.ready[cpu][0];
    assert id in s.ready[cpu];
  }

  lemma {:induction false} StaysRun(s: System, cpu: Cpu, previous: Option<nat>, p: nat, ws: set<Waker>)
    requires Stays(s, p, ws) && RunLoop(s, cpu, previous).1.Dispatched?
    ensures Stays(RunLoop(s, cpu, previous).0, p, ws)
    decreases NonRunnable(s.pool, s.ready[cpu]), if s.ready[cpu] == [] then 1 else 0
  {
    LoopStep(s, cpu, previous);
    if Turns(s, cpu) {
      TurnDecreases(s, cpu);
      StaysTurn(s, cpu, p, ws);
      StaysRun(Turn(s, cpu), cpu, previous, p, ws);
    } else {
      DispatchSpares(s, cpu);
    }
  }

  // ----- every other step -----------------------------------------------------------

  lemma StaysBlock(s: System, q: nat, w: Waker, p: nat, ws: set<Waker>)
    requires Stays(s, p, ws) && RunnableIn(s, q)
    ensures Stays(Block(s, q, w), p, ws)
  {
    var t := Block(s, q, w);
    forall v ensures p in Queue(t.waiting, v) <==> v in ws {
      assert p in Queue(s.waiting, v) <==> v in ws;
      assert Queue(t.waiting, v) == if v == w then Queue(s.waiting, w) + [q] else Queue(s.waiting, v);
    }
  }

  lemma StaysCollect(s: System, q: nat, c: nat, p: nat, ws: set<Waker>)
    requires Stays(s, p, ws) && q in s.pool
    ensures Stays(Wait(s, q, c).0, p, ws)
  {
  }

  lemma {:induction false} StaysScan(s: System, q: nat, kids: seq<nat>, p: nat, ws: set<Waker>)
    requires Stays(s, p, ws) && RunnableIn(s, q)
    ensures Stays(WaitAnyScan(s, q, kids).0, p, ws)
    decreases |kids|
  {
    if kids == [] {
      StaysBlock(s, q, OfParent(q), p, ws);
    } else {
      StaysCollect(s, q, kids[0], p, ws);
      StaysScan(s, q, kids[1..], p, ws);
    }
  }

  lemma StaysWait(s: System, q: nat, target: WaitTarget, p: nat, ws: set<Waker>)
    requires Stays(s, p, ws) && RunnableIn(s, q)
    ensures Stays(Waitpid(s, q, target).0, p, ws)
  {
    match target {
      case AnyChild => StaysScan(s, q, s.pool[q].children, p, ws);
      case Child(pid) =>
        StaysCollect(s, q, pid, p, ws);
        StaysBlock(s, q, OfTask(pid), p, ws);
    }
  }

  /** The step wakes somebody waiting on `w`. */
  predicate Wakes(step: Step, w: Waker) { step == WakeFirst(w) || step == WakeEveryone(w) }

  lemma StaysStep(s: System, step: Step, p: nat, ws: set<Waker>)
    requires Stays(s, p, ws) && Enabled(s, step) && forall w :: w in ws ==> !Wakes(step, w)
    ensures Stays(Apply(s, step), p, ws)
  {
    match step {
      case BlockOn(q, n, kind) => StaysBlock(s, q, Device(n, kind), p, ws);
      case SleepBy(q) => StaysBlock(s, q, OfTask(q), p, ws);
      case WaitBy(q, target) => StaysWait(s, q, target, p, ws);
      case WakeFirst(w) => StaysWakeOne(s, w, p, ws);
      case WakeEveryone(w) => StaysWakeAll(s, w, p, ws);
      case Schedule(cpu) => StaysRun(s, cpu, s.current[cpu], p, ws);
      case _ =>
    }
  }

  lemma {:induction false} StaysForever(states: seq<System>, steps: seq<Step>, p: nat, ws: set<Waker>, n: nat)
    requires IsRun(states, steps) && n <= |steps| && Stays(states[0], p, ws)
    requires forall i, w :: 0 <= i < |steps| && w in ws ==> !Wakes(steps[i], w)
    ensures Stays(states[n], p, ws)
  {
    if n > 0 {
      StaysForever(states, steps, p, ws, n - 1);
      assert StepAt(states, steps, n - 1);
      StaysStep(states[n - 1], steps[n - 1], p, ws);
    }
  }

  /** No continuation of any length ever makes a lost task runnable again. */
  lemma LostForever(states: seq<System>, steps: seq<Step>, p: nat, n: nat)
    requires IsRun(states, steps) && n <= |steps| && Lost(states[0], p) && p < states[0].nextId
    ensures Lost(states[n], p)
  {
    StaysForever(states, steps, p, {}, n);
  }

  /** A task that starts to wait for a child already in a zombie queue waits in every continuation in
      which nobody but the scheduler wakes that child's waker. */
  lemma MissedForever(s: System, states: seq<System>, steps: seq<Step>, p: nat, c: nat, n: nat)
    requires CoreInv(s, {}) && RunnableIn(s, p) && c in ZombieBag(s)
    requires IsRun(states, steps) && n <= |steps| && states[0] == Block(s, p, OfTask(c))
    requires forall i :: 0 <= i < |steps| ==> !Wakes(steps[i], OfTask(c))
    ensures IsBlocked(states[n].pool, p) && p in Queue(states[n].waiting, OfTask(c))
  {
    MissedStays(s, p, c);
    StaysForever(states, steps, p, {OfTask(c)}, n);
  }

  lemma MissedStays(s: System, p: nat, c: nat)
    requires CoreInv(s, {}) && RunnableIn(s, p) && c in ZombieBag(s)
    ensures Stays(Block(s, p, OfTask(c)), p, {OfTask(c)})
  {
    var t := Block(s, p, OfTask(c));
    assert !IsBlocked(s.pool, p);
    forall v ensures p in Queue(t.waiting, v) <==> v in {OfTask(c)} {
      assert Queue(t.waiting, v) == if v == OfTask(c) then Queue(s.waiting, v) + [p] else Queue(s.waiting, v);
    }
    InPool(s, c);
    FlatMember(s.ready, c);
    FlatMember(s.blocked, c);
  }
}
