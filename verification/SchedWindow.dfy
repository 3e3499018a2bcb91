/** Waker::wait pushes a task and then marks it Blocked, two separate actions. These lemmas say exactly
    what the steps that others take between the two can do to it. */
module SchedWindow {
  import opened Base
  import opened SchedState
  import opened SchedInv
  import opened SchedRun
  import opened SchedFair
  import opened SchedRuns
  import opened SchedTheorems
  import opened SchedOld
  import opened SchedLost

  // ----- a push and the same system without it --------------------------------------

  /** e is u with its wait queues written differently. */
  ghost predicate Alike(u: System, e: System) {
    e == u.(waiting := e.waiting) && forall v :: Queue(e.waiting, v) == Queue(u.waiting, v)
  }

  /** e is u with p pushed on w, j waiters in front of it. */
  ghost predicate Pushed(u: System, e: System, p: nat, w: Waker, j: nat) {
    && e == u.(waiting := e.waiting)
    && j <= |Queue(u.waiting, w)|
    && Queue(e.waiting, w) == Queue(u.waiting, w)[..j] + [p] + Queue(u.waiting, w)[j..]
    && forall v :: v != w ==> Queue(e.waiting, v) == Queue(u.waiting, v)
  }

  /** Runnable and in no blocked queue, so that waking it does nothing. */
  ghost predicate Unparked(s: System, p: nat) {
    RunnableIn(s, p) && forall c: Cpu :: p !in s.blocked[c]
  }

  lemma RunnableUnparked(s: System, p: nat)
    requires Placed(s) && RunnableIn(s, p)
    ensures Unparked(s, p)
  {
    FlatMember(s.blocked, p);
    assert p !in BlockedBag(s);
    forall c: Cpu ensures p !in s.blocked[c] { }
  }

  lemma AlikeInv(u: System, e: System)
    requires Inv(u) && Alike(u, e)
    ensures Inv(e)
  {
    AlikeWaits(u.pool, u.waiting, e.waiting);
    AlikeExit(u, e);
  }

  lemma AlikeWaits(pool: map<nat, Task>, q: map<Waker, seq<nat>>, r: map<Waker, seq<nat>>)
    requires forall v :: Queue(r, v) == Queue(q, v)
    requires Waits(pool, q, []) && WhoWaits(pool, q)
    ensures Waits(pool, r, []) && WhoWaits(pool, r)
  {
    forall id | IsBlocked(pool, id) ensures WaitsSomewhere(r, id) {
      var w :| id in Queue(q, w);
      assert id in Queue(r, w);
    }
  }

  lemma AlikeExit(u: System, e: System)
    requires Alike(u, e) && Placed(u) && ExitSeen(u, {})
    ensures Placed(e) && ExitSeen(e, {})
  {
    assert ReadyBag(e) == ReadyBag(u) && BlockedBag(e) == BlockedBag(u) && ZombieBag(e) == ZombieBag(u);
    forall c | c in ZombieBag(e) ensures Unawaited(e.pool, e.waiting, c) { assert Unawaited(u.pool, u.waiting, c); }
  }

  // ----- waking does not look at wait queues ----------------------------------------

  lemma {:induction false} WakeScanAnyQueues(s: System, id: nat, cpu: nat, q: map<Waker, seq<nat>>)
    requires cpu <= NUM_OF_CPUS
    ensures WakeScan(s.(waiting := q), id, cpu) ==
            (WakeScan(s, id, cpu).0.(waiting := q), WakeScan(s, id, cpu).1)
    decreases NUM_OF_CPUS - cpu
  {
    if cpu < NUM_OF_CPUS {
      match Position(s.blocked[cpu], id) {
        case None => WakeScanAnyQueues(s, id, cpu + 1, q);
        case Some(pos) =>
          var s1 := s.(blocked := s.blocked[cpu := RemoveAt(s.blocked[cpu], pos)]);
          if id !in s1.pool {
            WakeScanAnyQueues(s1, id, cpu + 1, q);
            assert s1.(waiting := q) == s.(waiting := q).(blocked := s1.blocked);
          }
      }
    }
  }

  lemma {:induction false} WakeEachAnyQueues(s: System, ids: seq<nat>, q: map<Waker, seq<nat>>)
    ensures WakeEach(s.(waiting := q), ids).0 == WakeEach(s, ids).0.(waiting := q)
    decreases |ids|
  {
    if ids != [] {
      WakeScanAnyQueues(s, ids[0], 0, q);
      WakeEachAnyQueues(WakeTask(s, ids[0]).0, ids[1..], q);
    } else {
      assert s.(waiting := q) == WakeEach(s, ids).0.(waiting := q);
    }
  }

  lemma {:induction false} WakeEachConcat(s: System, a: seq<nat>, b: seq<nat>)
    ensures WakeEach(s, a + b).0 == WakeEach(WakeEach(s, a).0, b).0
    decreases |a|
  {
    if a == [] {
      assert a + b == b;
    } else {
      assert (a + b)[1..] == a[1..] + b;
      WakeEachConcat(WakeTask(s, a[0]).0, a[1..], b);
    }
  }

  lemma WakeUnparked(s: System, p: nat)
    requires Unparked(s, p)
    ensures WakeTask(s, p).0 == s
  {
    assert p !in s.blocked[0] && p !in s.blocked[1];
    assert WakeScan(s, p, 2) == (s, false);
    assert WakeScan(s, p, 1) == (s, false);
  }

  lemma {:induction false} ScanUnparked(s: System, id: nat, cpu: nat, p: nat)
    requires cpu <= NUM_OF_CPUS && Unparked(s, p)
    ensures Unparked(WakeScan(s, id, cpu).0, p)
    decreases NUM_OF_CPUS - cpu
  {
    if cpu < NUM_OF_CPUS {
      match Position(s.blocked[cpu], id) {
        case None => ScanUnparked(s, id, cpu + 1, p);
        case Some(pos) =>
          var s1 := s.(blocked := s.blocked[cpu := RemoveAt(s.blocked[cpu], pos)]);
          assert Unparked(s1, p);
          if id !in s1.pool { ScanUnparked(s1, id, cpu + 1, p); }
      }
    }
  }

  lemma {:induction false} EachUnparked(s: System, ids: seq<nat>, p: nat)
    requires Unparked(s, p)
    ensures Unparked(WakeEach(s, ids).0, p)
    decreases |ids|
  {
    if ids != [] {
      ScanUnparked(s, ids[0], 0, p);
      EachUnparked(WakeTask(s, ids[0]).0, ids[1..], p);
    }
  }

  /** Waking a list with an unparked task in it is waking the rest of the list. */
  lemma EachSkips(s: System, a: seq<nat>, b: seq<nat>, p: nat)
    requires Unparked(s, p)
    ensures WakeEach(s, a + [p] + b).0 == WakeEach(s, a + b).0
  {
    var t := WakeEach(s, a).0;
    assert a + [p] + b == a + ([p] + b);
    WakeEachConcat(s, a, [p] + b);
    WakeEachConcat(s, a, b);
    EachUnparked(s, a, p);
    WakeUnparked(t, p);
    assert ([p] + b)[1..] == b;
  }

  // ----- wake_all on both systems ---------------------------------------------------

  /** wake_all of two systems that differ in their queues only, told apart by what the queue of w holds. */
  lemma WakeBoth(u: System, e: System, w: Waker)
    requires e == u.(waiting := e.waiting)
    requires WakeEach(Drain(u, w), Queue(e.waiting, w)).0 == WakeEach(Drain(u, w), Queue(u.waiting, w)).0
    ensures WakeAll(e, w).0 == WakeAll(u, w).0.(waiting := WakeAll(e, w).0.waiting)
    ensures forall v :: Queue(WakeAll(e, w).0.waiting, v) == if v == w then [] else Queue(e.waiting, v)
    ensures forall v :: Queue(WakeAll(u, w).0.waiting, v) == if v == w then [] else Queue(u.waiting, v)
  {
    var d := Drain(u, w);
    assert Drain(e, w) == d.(waiting := Drain(e, w).waiting);
    WakeEachAnyQueues(d, Queue(e.waiting, w), Drain(e, w).waiting);
    forall v ensures Queue(WakeAll(e, w).0.waiting, v) == if v == w then [] else Queue(e.waiting, v) {
      WakeAllQueues(e, w, v);
    }
    forall v ensures Queue(WakeAll(u, w).0.waiting, v) == if v == w then [] else Queue(u.waiting, v) {
      WakeAllQueues(u, w, v);
    }
  }

  lemma WakeAlike(u: System, e: System, v: Waker)
    requires Alike(u, e)
    ensures Alike(WakeAll(u, v).0, WakeAll(e, v).0)
  {
    WakeBoth(u, e, v);
  }

  /** A wake of another waker leaves the push pending. */
  lemma WakeOther(u: System, e: System, p: nat, w: Waker, j: nat, v: Waker)
    requires Pushed(u, e, p, w, j) && v != w
    ensures Pushed(WakeAll(u, v).0, WakeAll(e, v).0, p, w, j)
  {
    WakeBoth(u, e, v);
  }

  /** A wake of the same waker pops p, finds it runnable and does nothing for it. */
  lemma WakeSame(u: System, e: System, p: nat, w: Waker, j: nat)
    requires Pushed(u, e, p, w, j) && Unparked(u, p)
    ensures Alike(WakeAll(u, w).0, WakeAll(e, w).0)
  {
    var q := Queue(u.waiting, w);
    assert q[..j] + q[j..] == q;
    assert Unparked(Drain(u, w), p);
    EachSkips(Drain(u, w), q[..j], q[j..], p);
    WakeBoth(u, e, w);
  }

  // ----- run on both systems --------------------------------------------------------

  /** Reaping z wakes the waiters of w. */
  ghost predicate WakesFor(pool: map<nat, Task>, z: nat, w: Waker) {
    && z in pool && pool[z].state.Zombie?
    && (w == OfTask(z) || (pool[z].parent.Some? && w == OfParent(pool[z].parent.value)))
  }

  lemma BuryAlike(u: System, e: System, cpu: Cpu)
    requires u.ready[cpu] != [] && e == u.(waiting := e.waiting)
    ensures var b := Buried(PopReady(u, cpu), cpu, u.ready[cpu][0]);
            b.waiting == u.waiting && Buried(PopReady(e, cpu), cpu, e.ready[cpu][0]) == b.(waiting := e.waiting)
  {
  }

  lemma ReapAlike(u: System, e: System, cpu: Cpu)
    requires Alike(u, e) && u.ready[cpu] != [] && u.ready[cpu][0] in u.pool
    ensures var z := u.ready[cpu][0]; Alike(Reap(PopReady(u, cpu), cpu, z), Reap(PopReady(e, cpu), cpu, z))
  {
    var z := u.ready[cpu][0];
    BuryAlike(u, e, cpu);
    var bu, be := Buried(PopReady(u, cpu), cpu, z), Buried(PopReady(e, cpu), cpu, z);
    WakeAlike(bu, be, OfTask(z));
    if u.pool[z].parent.Some? {
      WakeAlike(WakeAll(bu, OfTask(z)).0, WakeAll(be, OfTask(z)).0, OfParent(u.pool[z].parent.value));
    }
  }

  lemma ReapPushed(u: System, e: System, p: nat, w: Waker, j: nat, cpu: Cpu)
    requires Pushed(u, e, p, w, j) && Unparked(u, p) && u.ready[cpu] != []
    requires u.ready[cpu][0] in u.pool && u.pool[u.ready[cpu][0]].state.Zombie?
    ensures var z := u.ready[cpu][0];
            var tu, te := Reap(PopReady(u, cpu), cpu, z), Reap(PopReady(e, cpu), cpu, z);
            if WakesFor(u.pool, z, w) then Alike(tu, te) else Pushed(tu, te, p, w, j)
  {
    var z := u.ready[cpu][0];
    BuryAlike(u, e, cpu);
    var bu, be := Buried(PopReady(u, cpu), cpu, z), Buried(PopReady(e, cpu), cpu, z);
    assert Pushed(bu, be, p, w, j) && Unparked(bu, p);
    if w == OfTask(z) {
      WakeSame(bu, be, p, w, j);
      if u.pool[z].parent.Some? {
        WakeAlike(WakeAll(bu, w).0, WakeAll(be, w).0, OfParent(u.pool[z].parent.value));
      }
    } else {
      WakeOther(bu, be, p, w, j, OfTask(z));
      if u.pool[z].parent.Some? {
        WakeParent(bu, WakeAll(bu, OfTask(z)).0, WakeAll(be, OfTask(z)).0, p, w, j, z, OfParent(u.pool[z].parent.value));
      }
    }
  }

  lemma WakeParent(b: System, u: System, e: System, p: nat, w: Waker, j: nat, z: nat, v: Waker)
    requires Unparked(b, p) && u == WakeAll(b, OfTask(z)).0 && Pushed(u, e, p, w, j)
    ensures if v == w then Alike(WakeAll(u, v).0, WakeAll(e, v).0) else Pushed(WakeAll(u, v).0, WakeAll(e, v).0, p, w, j)
  {
    assert Unparked(Drain(b, OfTask(z)), p);
    EachUnparked(Drain(b, OfTask(z)), Queue(b.waiting, OfTask(z)), p);
    if v == w { WakeSame(u, e, p, w, j); } else { WakeOther(u, e, p, w, j, v); }
  }

  lemma TurnAlike(u: System, e: System, cpu: Cpu)
    requires Alike(u, e) && Turns(u, cpu)
    ensures Turns(e, cpu) && Alike(Turn(u, cpu), Turn(e, cpu))
  {
    if u.ready[cpu] != [] && u.pool[u.ready[cpu][0]].state.Zombie? { ReapAlike(u, e, cpu); }
  }

  /** The front of the ready queue is a zombie whose reaping wakes w. */
  ghost predicate ReapsNow(s: System, cpu: Cpu, w: Waker) {
    s.ready[cpu] != [] && WakesFor(s.pool, s.ready[cpu][0], w)
  }

  lemma TurnPushed(u: System, e: System, p: nat, w: Waker, j: nat, cpu: Cpu)
    requires Pushed(u, e, p, w, j) && Unparked(u, p) && Turns(u, cpu)
    ensures Turns(e, cpu)
    ensures if ReapsNow(u, cpu, w) then Alike(Turn(u, cpu), Turn(e, cpu)) else Pushed(Turn(u, cpu), Turn(e, cpu), p, w, j)
  {
    if u.ready[cpu] != [] && u.pool[u.ready[cpu][0]].state.Zombie? { ReapPushed(u, e, p, w, j, cpu); }
  }

  /** Where the loop stops, wait queues do not matter. */
  lemma StopSame(u: System, e: System, cpu: Cpu, previous: Option<nat>)
    requires e == u.(waiting := e.waiting) && !Turns(u, cpu)
    ensures !Turns(e, cpu) && RunLoop(u, cpu, previous).0.waiting == u.waiting
    ensures RunLoop(e, cpu, previous) == (RunLoop(u, cpu, previous).0.(waiting := e.waiting), RunLoop(u, cpu, previous).1)
  {
  }

  lemma {:induction false} RunAlike(u: System, e: System, cpu: Cpu, previous: Option<nat>)
    requires Alike(u, e)
    ensures RunLoop(e, cpu, previous).1 == RunLoop(u, cpu, previous).1
    ensures Alike(RunLoop(u, cpu, previous).0, RunLoop(e, cpu, previous).0)
    decreases NonRunnable(u.pool, u.ready[cpu]), if u.ready[cpu] == [] then 1 else 0
  {
    if Turns(u, cpu) {
      TurnAlike(u, e, cpu);
      LoopStep(u, cpu, previous);
      LoopStep(e, cpu, previous);
      TurnDecreases(u, cpu);
      RunAlike(Turn(u, cpu), Turn(e, cpu), cpu, previous);
    } else {
      StopSame(u, e, cpu, previous);
    }
  }

  /** Entry k of the ready queue is a zombie whose reaping wakes w, and run gets to it because nothing in
      front of it can be dispatched. */
  ghost predicate ReapsAt(s: System, cpu: Cpu, w: Waker, k: nat)
    requires k < |s.ready[cpu]|
  {
    WakesFor(s.pool, s.ready[cpu][k], w) && !AnyServable(s, cpu, k)
  }

  /** A call of run will reap a zombie that wakes w. */
  ghost predicate ReapsFor(s: System, cpu: Cpu, w: Waker) {
    exists k: nat :: k < |s.ready[cpu]| && ReapsAt(s, cpu, w, k)
  }

  lemma EntryLife(s: System, cpu: Cpu, k: nat, w: Waker)
    requires CoreInv(s, {}) && Turns(s, cpu) && 0 < k < |s.ready[cpu]|
    ensures k - 1 < |Turn(s, cpu).ready[cpu]| && Turn(s, cpu).ready[cpu][k - 1] == s.ready[cpu][k]
    ensures WakesFor(Turn(s, cpu).pool, s.ready[cpu][k], w) <==> WakesFor(s.pool, s.ready[cpu][k], w)
  {
    TurnShifts(s, cpu, k);
    var z := s.ready[cpu][k];
    if s.pool[s.ready[cpu][0]].state.Zombie? {
      ReapLife(s, cpu);
      if z in s.pool { assert SameTaskLife(s.pool[z], Turn(s, cpu).pool[z]); }
    } else {
      EntriesDistinct(s, cpu, k);
    }
  }

  lemma ReapsAtTurn(s: System, cpu: Cpu, w: Waker, k: nat)
    requires CoreInv(s, {}) && Turns(s, cpu) && 0 < k < |s.ready[cpu]|
    ensures k - 1 < |Turn(s, cpu).ready[cpu]|
    ensures ReapsAt(s, cpu, w, k) <==> ReapsAt(Turn(s, cpu), cpu, w, k - 1)
  {
    EntryLife(s, cpu, k, w);
    AnyServableAfterTurn(s, cpu, k);
  }

  /** A turn adds only runnable entries. */
  lemma NewEntries(s: System, cpu: Cpu, k: nat)
    requires Turns(s, cpu) && k < |Turn(s, cpu).ready[cpu]| && |s.ready[cpu]| <= k + 1
    ensures RunnableIn(Turn(s, cpu), Turn(s, cpu).ready[cpu][k])
  {
    if s.ready[cpu] != [] && s.pool[s.ready[cpu][0]].state.Zombie? {
      ReapGrows(PopReady(s, cpu), cpu, s.ready[cpu][0]);
    }
  }

  lemma ReapsTurn(s: System, cpu: Cpu, w: Waker)
    requires CoreInv(s, {}) && Turns(s, cpu) && !ReapsNow(s, cpu, w)
    ensures ReapsFor(Turn(s, cpu), cpu, w) <==> ReapsFor(s, cpu, w)
  {
    if ReapsFor(s, cpu, w) { ReapsLater(s, cpu, w); }
    if ReapsFor(Turn(s, cpu), cpu, w) { ReapsEarlier(s, cpu, w); }
  }

  lemma ReapsLater(s: System, cpu: Cpu, w: Waker)
    requires CoreInv(s, {}) && Turns(s, cpu) && !ReapsNow(s, cpu, w) && ReapsFor(s, cpu, w)
    ensures ReapsFor(Turn(s, cpu), cpu, w)
  {
    var k: nat :| k < |s.ready[cpu]| && ReapsAt(s, cpu, w, k);
    assert k > 0;
    ReapsAtTurn(s, cpu, w, k);
    assert ReapsAt(Turn(s, cpu), cpu, w, k - 1);
  }

  lemma ReapsEarlier(s: System, cpu: Cpu, w: Waker)
    requires CoreInv(s, {}) && Turns(s, cpu) && ReapsFor(Turn(s, cpu), cpu, w)
    ensures ReapsFor(s, cpu, w)
  {
    var k: nat :| k < |Turn(s, cpu).ready[cpu]| && ReapsAt(Turn(s, cpu), cpu, w, k);
    if |s.ready[cpu]| <= k + 1 {
      NewEntries(s, cpu, k);
    } else {
      ReapsAtTurn(s, cpu, w, k + 1);
      assert ReapsAt(s, cpu, w, k + 1);
    }
  }

  lemma StopReaps(s: System, cpu: Cpu, previous: Option<nat>, w: Waker)
    requires !Turns(s, cpu) && RunLoop(s, cpu, previous).1.Dispatched?
    ensures !ReapsFor(s, cpu, w)
  {
    LoopStep(s, cpu, previous);
    assert Servable(s, cpu, 0);
    forall k: nat | k < |s.ready[cpu]| ensures !ReapsAt(s, cpu, w, k) {
      if k > 0 { assert AnyServable(s, cpu, k); }
    }
  }

  lemma TurnKeepsRunnable(s: System, cpu: Cpu, p: nat)
    requires Turns(s, cpu) && RunnableIn(s, p) && s.nextId !in s.pool
    ensures RunnableIn(Turn(s, cpu), p)
  {
    if s.ready[cpu] != [] && s.pool[s.ready[cpu][0]].state.Zombie? {
      ReapGrows(PopReady(s, cpu), cpu, s.ready[cpu][0]);
      assert RunnableIn(PopReady(s, cpu), p);
    }
  }

  /** run does the same with and without the push, except that reaping for w takes the push back. */
  lemma {:induction false} RunPushed(u: System, e: System, p: nat, w: Waker, j: nat, cpu: Cpu, previous: Option<nat>)
    requires CoreInv(u, {}) && RunnableIn(u, p) && Pushed(u, e, p, w, j)
    ensures RunLoop(e, cpu, previous).1 == RunLoop(u, cpu, previous).1
    ensures RunLoop(u, cpu, previous).1.Dispatched? ==>
              if ReapsFor(u, cpu, w) then Alike(RunLoop(u, cpu, previous).0, RunLoop(e, cpu, previous).0)
              else Pushed(RunLoop(u, cpu, previous).0, RunLoop(e, cpu, previous).0, p, w, j)
    decreases NonRunnable(u.pool, u.ready[cpu]), if u.ready[cpu] == [] then 1 else 0
  {
    if Turns(u, cpu) {
      RunnableUnparked(u, p);
      TurnPushed(u, e, p, w, j, cpu);
      LoopStep(u, cpu, previous);
      LoopStep(e, cpu, previous);
      if ReapsNow(u, cpu, w) {
        assert ReapsAt(u, cpu, w, 0);
        RunAlike(Turn(u, cpu), Turn(e, cpu), cpu, previous);
      } else {
        TurnDecreases(u, cpu);
        TurnKeeps(u, cpu);
        TurnKeepsRunnable(u, cpu, p);
        ReapsTurn(u, cpu, w);
        RunPushed(Turn(u, cpu), Turn(e, cpu), p, w, j, cpu, previous);
      }
    } else {
      StopSame(u, e, cpu, previous);
      if RunLoop(u, cpu, previous).1.Dispatched? { StopReaps(u, cpu, previous, w); }
    }
  }

  // ----- the steps of others --------------------------------------------------------

  /** p itself acts. */
  predicate TakenBy(step: Step, p: nat) {
    match step
    case CloneBy(id, _) => id == p
    case BlockOn(id, _, _) => id == p
    case SleepBy(id) => id == p
    case WaitBy(id, _) => id == p
    case ExitBy(id, _) => id == p
    case _ => false
  }

  lemma {:induction false} RunKeepsRunnable(s: System, cpu: Cpu, previous: Option<nat>, p: nat)
    requires CoreInv(s, {}) && RunnableIn(s, p) && RunLoop(s, cpu, previous).1.Dispatched?
    ensures RunnableIn(RunLoop(s, cpu, previous).0, p)
    decreases NonRunnable(s.pool, s.ready[cpu]), if s.ready[cpu] == [] then 1 else 0
  {
    LoopStep(s, cpu, previous);
    if Turns(s, cpu) {
      TurnDecreases(s, cpu);
      TurnKeeps(s, cpu);
      TurnKeepsRunnable(s, cpu, p);
      RunKeepsRunnable(Turn(s, cpu), cpu, previous, p);
    }
  }

  /** Nobody else takes a runnable task's turn away for good. */
  lemma OthersKeepRunnable(s: System, step: Step, p: nat)
    requires Inv(s) && Enabled(s, step) && RunnableIn(s, p) && !TakenBy(step, p)
    ensures RunnableIn(Apply(s, step), p)
  {
    match step {
      case CloneBy(id, cpu) => CloneKeepsRunnable(s, id, cpu, p);
      case WaitBy(id, target) => WaitpidEffect(s, id, target);
      case WakeFirst(w) =>
        var q := Queue(s.waiting, w);
        if q != [] {
          assert RunnableIn(s.(waiting := s.waiting[w := q[1..]]), p);
          WakeScanGrows(s.(waiting := s.waiting[w := q[1..]]), q[0], 0);
        }
      case WakeEveryone(w) => WakeAllGrows(s, w);
      case Schedule(cpu) => RunKeepsRunnable(s, cpu, s.current[cpu], p);
      case _ =>
    }
  }

  lemma CloneKeepsRunnable(s: System, id: nat, cpu: Cpu, p: nat)
    requires RunnableIn(s, id) && RunnableIn(s, p) && Ids(s.pool, s.nextId)
    ensures RunnableIn(Clone(s, id, cpu), p)
  {
  }

  lemma {:induction false} OthersRun(states: seq<System>, steps: seq<Step>, p: nat, n: nat)
    requires IsRun(states, steps) && Inv(states[0]) && RunnableIn(states[0], p) && n <= |steps|
    requires forall i :: 0 <= i < |steps| ==> !TakenBy(steps[i], p)
    ensures RunnableIn(states[n], p)
  {
    if n > 0 {
      OthersRun(states, steps, p, n - 1);
      OthersStep(states, steps, p, n - 1);
    }
  }

  lemma OthersStep(states: seq<System>, steps: seq<Step>, p: nat, i: nat)
    requires IsRun(states, steps) && Inv(states[0]) && i < |steps| && RunnableIn(states[i], p) && !TakenBy(steps[i], p)
    ensures RunnableIn(states[i + 1], p)
  {
    Reachable(states, steps, i);
    assert StepAt(states, steps, i);
    OthersKeepRunnable(states[i], steps[i], p);
  }

  lemma InsertAppend(q: seq<nat>, j: nat, p: nat, id: nat)
    requires j <= |q|
    ensures (q[..j] + [p] + q[j..]) + [id] == (q + [id])[..j] + [p] + (q + [id])[j..]
  {
  }

  lemma PushedBlock(u: System, e: System, p: nat, w: Waker, j: nat, id: nat, v: Waker)
    requires Pushed(u, e, p, w, j) && id in u.pool
    ensures Pushed(Block(u, id, v), Block(e, id, v), p, w, j)
  {
    var tu, te := Block(u, id, v), Block(e, id, v);
    InsertAppend(Queue(u.waiting, w), j, p, id);
    forall x | x != w ensures Queue(te.waiting, x) == Queue(tu.waiting, x) {
      assert Queue(e.waiting, x) == Queue(u.waiting, x);
    }
  }

  lemma {:induction false} PushedScan(u: System, e: System, p: nat, w: Waker, j: nat, id: nat, kids: seq<nat>)
    requires Pushed(u, e, p, w, j) && id in u.pool
    ensures Pushed(WaitAnyScan(u, id, kids).0, WaitAnyScan(e, id, kids).0, p, w, j)
    decreases |kids|
  {
    if kids == [] {
      PushedBlock(u, e, p, w, j, id, OfParent(id));
    } else {
      PushedScan(u, e, p, w, j, id, kids[1..]);
    }
  }

  lemma PushedWait(u: System, e: System, p: nat, w: Waker, j: nat, id: nat, target: WaitTarget)
    requires Pushed(u, e, p, w, j) && id in u.pool
    ensures Pushed(Waitpid(u, id, target).0, Waitpid(e, id, target).0, p, w, j)
  {
    match target {
      case AnyChild => PushedScan(u, e, p, w, j, id, u.pool[id].children);
      case Child(pid) => PushedBlock(u, e, p, w, j, id, OfTask(pid));
    }
  }

  /** wake_one takes the first waiter, which is p when nobody is in front of it. */
  lemma PushedWakeOne(u: System, e: System, p: nat, w: Waker, j: nat, v: Waker)
    requires Pushed(u, e, p, w, j) && Unparked(u, p)
    ensures v == w && j == 0 ==> Alike(u, WakeOne(e, v).0)
    ensures v == w && j > 0 ==> Pushed(WakeOne(u, v).0, WakeOne(e, v).0, p, w, j - 1)
    ensures v != w ==> Pushed(WakeOne(u, v).0, WakeOne(e, v).0, p, w, j)
  {
    var q, r := Queue(u.waiting, v), Queue(e.waiting, v);
    if r != [] {
      var d := e.(waiting := e.waiting[v := r[1..]]);
      if v == w && j == 0 {
        assert q[..0] + [p] + q[0..] == [p] + q;
        assert Unparked(d, p);
        WakeUnparked(d, p);
      } else {
        var c := u.(waiting := u.waiting[v := q[1..]]);
        assert r[0] == q[0];
        assert d == c.(waiting := d.waiting);
        PopPushed(u, e, p, w, j, v);
        WakeScanAnyQueues(c, q[0], 0, d.waiting);
        WakeScanQueues(c, q[0], 0);
      }
    }
  }

  lemma PopPushed(u: System, e: System, p: nat, w: Waker, j: nat, v: Waker)
    requires Pushed(u, e, p, w, j) && Queue(e.waiting, v) != [] && (v == w ==> j > 0)
    ensures Queue(u.waiting, v) != []
    ensures Pushed(u.(waiting := u.waiting[v := Queue(u.waiting, v)[1..]]), e.(waiting := e.waiting[v := Queue(e.waiting, v)[1..]]),
                   p, w, if v == w then j - 1 else j)
  {
    var q := Queue(u.waiting, w);
    var c, d := u.waiting[v := Queue(u.waiting, v)[1..]], e.waiting[v := Queue(e.waiting, v)[1..]];
    forall x | x != w ensures Queue(d, x) == Queue(c, x) { assert Queue(e.waiting, x) == Queue(u.waiting, x); }
    if v == w {
      assert (q[..j] + [p] + q[j..])[1..] == q[1..][..j - 1] + [p] + q[1..][j - 1..];
    }
  }

  // ----- the window -----------------------------------------------------------------

  /** The step takes a task with j waiters in front of it off w. */
  ghost predicate Pops(s: System, step: Step, w: Waker, j: nat) {
    match step
    case WakeEveryone(v) => v == w
    case WakeFirst(v) => v == w && j == 0
    case Schedule(cpu) => ReapsFor(s, cpu, w)
    case _ => false
  }

  function Front(step: Step, w: Waker, j: nat): nat {
    if step == WakeFirst(w) && j > 0 then j - 1 else j
  }

  /** One of the steps takes it off: a wake_all, as many wake_ones as there are waiters in front and one
      more, or a call of run that reaps a zombie for w. */
  ghost predicate PopsIn(s: System, steps: seq<Step>, w: Waker, j: nat)
    decreases |steps|
  {
    && steps != [] && Enabled(s, steps[0])
    && (Pops(s, steps[0], w, j) || PopsIn(Apply(s, steps[0]), steps[1..], w, Front(steps[0], w, j)))
  }

  lemma PushedEnabled(u: System, e: System, p: nat, w: Waker, j: nat, step: Step)
    requires Inv(u) && RunnableIn(u, p) && Pushed(u, e, p, w, j) && Enabled(e, step)
    ensures Enabled(u, step)
  {
    if step.Schedule? { RunPushed(u, e, p, w, j, step.cpu, u.current[step.cpu]); }
  }

  /** A step that does not take p off leaves the push pending. */
  lemma StepPushed(u: System, e: System, p: nat, w: Waker, j: nat, step: Step)
    requires Inv(u) && RunnableIn(u, p) && Pushed(u, e, p, w, j)
    requires Enabled(e, step) && Enabled(u, step) && !Pops(u, step, w, j)
    ensures Pushed(Apply(u, step), Apply(e, step), p, w, Front(step, w, j))
  {
    match step {
      case BlockOn(id, n, kind) => PushedBlock(u, e, p, w, j, id, Device(n, kind));
      case SleepBy(id) => PushedBlock(u, e, p, w, j, id, OfTask(id));
      case WaitBy(id, target) => PushedWait(u, e, p, w, j, id, target);
      case WakeFirst(v) =>
        RunnableUnparked(u, p);
        PushedWakeOne(u, e, p, w, j, v);
      case WakeEveryone(v) => WakeOther(u, e, p, w, j, v);
      case Schedule(cpu) => RunPushed(u, e, p, w, j, cpu, u.current[cpu]);
      case _ =>
    }
  }

  /** A step that does leaves a sound system in which p still runs and waits nowhere. */
  lemma StepPops(u: System, e: System, p: nat, w: Waker, j: nat, step: Step)
    requires Inv(u) && RunnableIn(u, p) && Pushed(u, e, p, w, j)
    requires Enabled(e, step) && Enabled(u, step) && Pops(u, step, w, j)
    ensures Inv(Apply(e, step)) && RunnableIn(Apply(e, step), p)
  {
    RunnableUnparked(u, p);
    StepKeeps(u, step);
    OthersKeepRunnable(u, step, p);
    match step {
      case WakeFirst(v) =>
        PushedWakeOne(u, e, p, w, j, v);
        AlikeInv(u, Apply(e, step));
      case WakeEveryone(v) =>
        WakeSame(u, e, p, w, j);
        AlikeInv(Apply(u, step), Apply(e, step));
      case Schedule(cpu) =>
        RunPushed(u, e, p, w, j, cpu, u.current[cpu]);
        AlikeInv(Apply(u, step), Apply(e, step));
      case _ =>
    }
  }

  lemma RunTail(states: seq<System>, steps: seq<Step>)
    requires IsRun(states, steps) && steps != []
    ensures IsRun(states[1..], steps[1..])
  {
    forall i: nat | i < |steps[1..]| ensures StepAt(states[1..], steps[1..], i) { assert StepAt(states, steps, i + 1); }
  }

  lemma {:induction false} Window(u: System, p: nat, w: Waker, j: nat, states: seq<System>, steps: seq<Step>)
    requires Inv(u) && RunnableIn(u, p) && IsRun(states, steps) && Pushed(u, states[0], p, w, j)
    requires forall i :: 0 <= i < |steps| ==> !TakenBy(steps[i], p)
    ensures var e := states[|steps|];
            && RunnableIn(e, p)
            && (PopsIn(u, steps, w, j) ==> forall v :: p !in Queue(e.waiting, v))
            && (!PopsIn(u, steps, w, j) ==> WaitsOnlyOn(e.waiting, p, w))
    decreases |steps|
  {
    if steps == [] {
      PushedOnce(u, states[0], p, w, j);
    } else {
      var step := steps[0];
      assert StepAt(states, steps, 0);
      PushedEnabled(u, states[0], p, w, j, step);
      RunTail(states, steps);
      assert states[1..][|steps[1..]|] == states[|steps|];
      assert forall i :: 0 <= i < |steps[1..]| ==> steps[1..][i] == steps[i + 1];
      if Pops(u, step, w, j) {
        StepPops(u, states[0], p, w, j, step);
        OthersRun(states[1..], steps[1..], p, |steps[1..]|);
        Reachable(states[1..], steps[1..], |steps[1..]|);
        RunnableNotWaiting(states[|steps|], p);
      } else {
        StepPushed(u, states[0], p, w, j, step);
        StepKeeps(u, step);
        OthersKeepRunnable(u, step, p);
        Window(Apply(u, step), p, w, Front(step, w, j), states[1..], steps[1..]);
      }
    }
  }

  lemma RunnableNotWaiting(s: System, p: nat)
    requires CoreInv(s, {}) && RunnableIn(s, p)
    ensures forall w :: p !in Queue(s.waiting, w)
  {
    assert !IsBlocked(s.pool, p);
  }

  lemma PushedOnce(u: System, e: System, p: nat, w: Waker, j: nat)
    requires Inv(u) && RunnableIn(u, p) && Pushed(u, e, p, w, j)
    ensures RunnableIn(e, p) && WaitsOnlyOn(e.waiting, p, w)
  {
    RunnableNotWaiting(u, p);
  }

  /** Waker::wait with any steps of others between its push and its set_state: it ends up Blocked with
      nobody to wake it if and only if one of those steps takes it off its waker; otherwise it waits on
      that waker and no other. */
  lemma LostWakeupIff(s: System, p: nat, w: Waker, states: seq<System>, steps: seq<Step>)
    requires Inv(s) && RunnableIn(s, p) && IsRun(states, steps) && states[0] == Enqueue(s, p, w)
    requires forall i :: 0 <= i < |steps| ==> !TakenBy(steps[i], p)
    ensures RunnableIn(states[|steps|], p)
    ensures Lost(SetState(states[|steps|], p, Blocked(w.Kind())), p) <==> PopsIn(s, steps, w, |Queue(s.waiting, w)|)
    ensures !PopsIn(s, steps, w, |Queue(s.waiting, w)|) ==>
              WaitsOnlyOn(SetState(states[|steps|], p, Blocked(w.Kind())).waiting, p, w)
  {
    var q := Queue(s.waiting, w);
    assert q[..|q|] + [p] + q[|q|..] == q + [p];
    Window(s, p, w, |q|, states, steps);
  }
}
