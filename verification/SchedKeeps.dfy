/** Every operation keeps the scheduler invariant. */
module SchedKeeps {
  import opened Base
  import opened SchedState
  import opened SchedInv

  // ----- waking one waiter ---------------------------------------------------------

  lemma PopWaiter(s: System, w: Waker)
    requires Waits(s.pool, s.waiting, []) && Queue(s.waiting, w) != []
    ensures Waits(s.pool, s.waiting[w := Queue(s.waiting, w)[1..]], [Queue(s.waiting, w)[0]])
  {
    var q := Queue(s.waiting, w);
    var d := s.waiting[w := q[1..]];
    assert q == [q[0]] + q[1..];
    forall v ensures Queue(d, v) == if v == w then q[1..] else Queue(s.waiting, v) {
    }
    assert q[0] in q && NoDup(q) && NoDup(q[1..]) && q[0] !in q[1..];
    assert IsBlocked(s.pool, q[0]);
    assert q[0] in Queue(s.waiting, w);
    forall v, id | id in Queue(d, v) ensures id in Queue(s.waiting, v) && id != q[0] { }
    forall id | IsBlocked(s.pool, id) ensures id in [q[0]] || WaitsSomewhere(d, id) {
      var v :| id in Queue(s.waiting, v);
      if id != q[0] { assert id in Queue(d, v); }
    }
  }

  lemma WakeOneKeeps(s: System, w: Waker)
    requires CoreInv(s, {})
    ensures CoreInv(WakeOne(s, w).0, {})
    ensures WakeOne(s, w).1 <==> Queue(s.waiting, w) != []
  {
    var q := Queue(s.waiting, w);
    if q != [] {
      var d := s.(waiting := s.waiting[w := q[1..]]);
      var t := WakeOne(s, w).0;
      PopWaiter(s, w);
      assert IsBlocked(d.pool, q[0]) by { assert q[0] in [q[0]]; }
      WakeTaskEffect(d, q[0]);
      WakeEachEffect(d, [q[0]]);
      assert WakeEach(d, [q[0]]).0 == t;
      WokeIsSameLife(s, t.pool, [q[0]]);
      FamilyFrame(s.pool, t.pool);
      PoppedWaiters(s, w, 0);
      WaitersFrame(s.pool, t.pool, d.waiting);
      assert ZombieBag(t) == ZombieBag(s);
      forall c | c in ZombieBag(t) ensures Unawaited(t.pool, t.waiting, c) {
        PoppedWaiters(s, w, c);
      }
    }
  }

  lemma PoppedWaiters(s: System, w: Waker, c: nat)
    requires WhoWaits(s.pool, s.waiting) && Queue(s.waiting, w) != []
    ensures WhoWaits(s.pool, s.waiting[w := Queue(s.waiting, w)[1..]])
    ensures Unawaited(s.pool, s.waiting, c) ==> Unawaited(s.pool, s.waiting[w := Queue(s.waiting, w)[1..]], c)
  {
    var q := Queue(s.waiting, w);
    var d := s.waiting[w := q[1..]];
    forall v ensures Queue(d, v) == if v == w then q[1..] else Queue(s.waiting, v) {
    }
    assert forall x :: x in q[1..] ==> x in q;
  }

  // ----- blocking ------------------------------------------------------------------

  /** The wakers a running task uses: a device's, its own (sleep), a child's or its wait-any waker. */
  ghost predicate OwnWaker(pool: map<nat, Task>, p: nat, w: Waker)
    requires p in pool
  {
    match w
    case Device(_, _) => true
    case OfTask(c) => c == p || c in pool[p].children
    case OfParent(q) => q == p
  }

  /** A child that `w` is about has already been moved to a zombie queue, so its wake is over. */
  ghost predicate TooLate(s: System, p: nat, w: Waker)
    requires p in s.pool
  {
    match w
    case Device(_, _) => false
    case OfTask(c) => c in ZombieBag(s)
    case OfParent(_) => exists c :: c in s.pool[p].children && c in ZombieBag(s)
  }

  lemma BlockWaits(s: System, p: nat, w: Waker)
    requires Waits(s.pool, s.waiting, []) && RunnableIn(s, p)
    ensures Waits(Block(s, p, w).pool, Block(s, p, w).waiting, [])
  {
    assert !IsBlocked(s.pool, p);
    assert forall v :: p !in Queue(s.waiting, v);
    PushWaits(s.pool, s.waiting, Block(s, p, w).pool, p, w);
  }

  /** Marking a task Blocked and pushing it on a wait queue at once. */
  lemma PushWaits(p1: map<nat, Task>, q: map<Waker, seq<nat>>, p2: map<nat, Task>, p: nat, w: Waker)
    requires Waits(p1, q, []) && IsBlocked(p2, p) && forall v :: p !in Queue(q, v)
    requires forall id :: id != p ==> IsBlocked(p2, id) == IsBlocked(p1, id)
    ensures Waits(p2, q[w := Queue(q, w) + [p]], [])
  {
    var r := q[w := Queue(q, w) + [p]];
    forall v ensures Queue(r, v) == if v == w then Queue(q, w) + [p] else Queue(q, v) { }
    assert NoDup(Queue(q, w)) && NoDup(Queue(q, w) + [p]);
    forall w1, w2, id | id in Queue(r, w1) && id in Queue(r, w2) ensures w1 == w2 {
      if id != p { assert id in Queue(q, w1) && id in Queue(q, w2); }
    }
    forall id | IsBlocked(p2, id) ensures WaitsSomewhere(r, id) {
      if id == p { assert p in Queue(r, w); }
      else {
        var v :| id in Queue(q, v);
        assert id in Queue(r, v);
      }
    }
  }

  /** Changing the state of a task that is in no blocked or zombie queue keeps the placement. */
  lemma StatePlaced(s: System, t: System, p: nat)
    requires Placed(s) && p in s.pool && !IsBlocked(s.pool, p) && !IsFinished(s.pool, p)
    requires t.pool.Keys == s.pool.Keys && forall id :: id in s.pool && id != p ==> t.pool[id].state == s.pool[id].state
    requires t.ready == s.ready && t.blocked == s.blocked && t.zombie == s.zombie
    ensures Placed(t)
  {
    forall id | id in BlockedBag(t) ensures IsBlocked(t.pool, id) { assert IsBlocked(s.pool, id); }
    forall id | id in ZombieBag(t) ensures IsFinished(t.pool, id) { assert IsFinished(s.pool, id); }
  }

  lemma BlockUnawaited(s: System, p: nat, w: Waker, c: nat)
    requires RunnableIn(s, p) && !TooLate(s, p, w) && c in ZombieBag(s)
    requires (w.OfParent? ==> w.id == p)
    requires IsFinished(s.pool, c) && Related(s.pool, c)
    requires Unawaited(s.pool, s.waiting, c)
    ensures Unawaited(s.pool, s.waiting[w := Queue(s.waiting, w) + [p]], c)
  {
  }

  lemma BlockWhoWaits(pool: map<nat, Task>, waiting: map<Waker, seq<nat>>, p: nat, w: Waker)
    requires p in pool && OwnWaker(pool, p, w) && WhoWaits(pool, waiting)
    ensures WhoWaits(pool, waiting[w := Queue(waiting, w) + [p]])
  {
    var after := waiting[w := Queue(waiting, w) + [p]];
    forall q, c | q in Queue(after, OfTask(c)) && q != c ensures q in pool && c in pool[q].children {
      if OfTask(c) == w && q == p { } else { assert q in Queue(waiting, OfTask(c)); }
    }
    forall x, q | x in Queue(after, OfParent(q)) ensures x == q {
      if OfParent(q) == w && x == p { } else { assert x in Queue(waiting, OfParent(q)); }
    }
  }

  lemma BlockKeeps(s: System, p: nat, w: Waker)
    requires CoreInv(s, {}) && RunnableIn(s, p) && OwnWaker(s.pool, p, w) && !TooLate(s, p, w)
    ensures CoreInv(Block(s, p, w), {})
  {
    var t := Block(s, p, w);
    BlockWaits(s, p, w);
    StatePlaced(s, t, p);
    BlockWhoWaits(s.pool, s.waiting, p, w);
    BlockLife(s, p, w);
    FamilyFrame(s.pool, t.pool);
    WaitersFrame(s.pool, t.pool, t.waiting);
    BlockExit(s, p, w);
  }

  lemma BlockLife(s: System, p: nat, w: Waker)
    requires RunnableIn(s, p)
    ensures SameLife(s.pool, Block(s, p, w).pool)
  {
  }

  lemma BlockExit(s: System, p: nat, w: Waker)
    requires Placed(s) && Family(s.pool) && ExitSeen(s, {}) && RunnableIn(s, p) && OwnWaker(s.pool, p, w) && !TooLate(s, p, w)
    ensures ExitSeen(Block(s, p, w), {})
  {
    var t := Block(s, p, w);
    BlockLife(s, p, w);
    WaitersLife(s.pool, t.pool, t.waiting);
    forall c | c in ZombieBag(t) ensures Unawaited(t.pool, t.waiting, c) {
      assert IsFinished(s.pool, c) && Related(s.pool, c);
      BlockUnawaited(s, p, w, c);
    }
  }

  lemma WaitersLife(p1: map<nat, Task>, p2: map<nat, Task>, waiting: map<Waker, seq<nat>>)
    requires SameLife(p1, p2)
    ensures forall c :: Unawaited(p1, waiting, c) ==> Unawaited(p2, waiting, c)
  {
  }

  /** Blocking is safe exactly when the awaited child has not reached a zombie queue yet. */
  lemma BlockKeepsIff(s: System, p: nat, w: Waker)
    requires CoreInv(s, {}) && RunnableIn(s, p) && OwnWaker(s.pool, p, w)
    ensures CoreInv(Block(s, p, w), {}) <==> !TooLate(s, p, w)
  {
    if TooLate(s, p, w) { TooLateBreaks(s, p, w); } else { BlockKeeps(s, p, w); }
  }

  lemma TooLateBreaks(s: System, p: nat, w: Waker)
    requires CoreInv(s, {}) && RunnableIn(s, p) && OwnWaker(s.pool, p, w) && TooLate(s, p, w)
    ensures !ExitSeen(Block(s, p, w), {})
  {
    var t := Block(s, p, w);
    var c := if w.OfTask? then w.id else var k :| k in s.pool[p].children && k in ZombieBag(s); k;
    assert c in ZombieBag(t);
    assert IsFinished(s.pool, c) && Related(s.pool, p);
    assert c in s.pool[p].children ==> IsChildOf(s.pool, c, p);
    assert p in Queue(t.waiting, w);
    assert !Unawaited(t.pool, t.waiting, c);
  }

  // ----- exiting and collecting ----------------------------------------------------

  /** A task that is not Blocked before or after does not matter to the wait queues. */
  lemma WaitsFrame(p1: map<nat, Task>, p2: map<nat, Task>, waiting: map<Waker, seq<nat>>)
    requires Waits(p1, waiting, [])
    requires forall id :: IsBlocked(p2, id) == IsBlocked(p1, id)
    ensures Waits(p2, waiting, [])
  {
  }

  lemma ExitFamily(s: System, id: nat, status: int)
    requires Family(s.pool) && RunnableIn(s, id)
    ensures Family(Exit(s, id, status).pool)
  {
    var t := Exit(s, id, status).pool;
    forall x | x in t ensures Related(t, x) {
      assert Related(s.pool, x);
      forall c | c in t[x].children ensures IsChildOf(t, c, x) { assert IsChildOf(s.pool, c, x); }
    }
  }

  lemma ExitKeeps(s: System, id: nat, status: int)
    requires CoreInv(s, {}) && RunnableIn(s, id)
    ensures CoreInv(Exit(s, id, status), {})
  {
    var t := Exit(s, id, status);
    ExitFamily(s, id, status);
    StatePlaced(s, t, id);
    forall x ensures IsBlocked(t.pool, x) == IsBlocked(s.pool, x) { }
    WaitsFrame(s.pool, t.pool, s.waiting);
    assert ZombieBag(t) == ZombieBag(s);
    forall c | c in ZombieBag(t) ensures Unawaited(t.pool, t.waiting, c) {
      assert IsFinished(s.pool, c);
      assert Unawaited(s.pool, s.waiting, c);
    }
  }

  /** xv6's kill calls exit on any task: exactly the Blocked ones, and the collected ones whose
      parent lives, break the invariant. */
  lemma ExitKeepsIff(s: System, id: nat, status: int)
    requires CoreInv(s, {}) && id in s.pool
    ensures CoreInv(Exit(s, id, status), {}) <==>
            && !s.pool[id].state.Blocked?
            && !(s.pool[id].state.Terminated? && s.pool[id].parent.Some? && s.pool[id].parent.value in s.pool)
  {
    var t := Exit(s, id, status);
    var st := s.pool[id].state;
    assert Related(s.pool, id);
    if st.Blocked? {
      assert IsBlocked(s.pool, id);
      var w :| id in Queue(s.waiting, w);
      assert id in Queue(t.waiting, w) && !IsBlocked(t.pool, id);
    } else if RunnableIn(s, id) {
      ExitKeeps(s, id, status);
    } else if st.Zombie? {
      ExitAgainKeeps(s, id, status);
    } else if s.pool[id].parent.Some? && s.pool[id].parent.value in s.pool {
      var p := s.pool[id].parent.value;
      assert Related(s.pool, p);
      assert !IsChildOf(s.pool, id, p);
      assert !Related(t.pool, id);
    } else {
      assert t.pool == s.pool;
    }
  }

  lemma ExitAgainKeeps(s: System, id: nat, status: int)
    requires CoreInv(s, {}) && id in s.pool && s.pool[id].state.Zombie?
    ensures CoreInv(Exit(s, id, status), {})
  {
    var t := Exit(s, id, status);
    ExitAgainFamily(s.pool, t.pool, id);
    forall x ensures IsBlocked(t.pool, x) == IsBlocked(s.pool, x) { }
    WaitsFrame(s.pool, t.pool, s.waiting);
    ExitAgainPlaced(s, id, status);
  }

  lemma ExitAgainPlaced(s: System, id: nat, status: int)
    requires Placed(s) && ExitSeen(s, {}) && id in s.pool && s.pool[id].state.Zombie?
    ensures Placed(Exit(s, id, status)) && ExitSeen(Exit(s, id, status), {})
  {
    var t := Exit(s, id, status);
    assert ReadyBag(t) == ReadyBag(s) && BlockedBag(t) == BlockedBag(s) && ZombieBag(t) == ZombieBag(s);
    forall x | x in BlockedBag(t) ensures IsBlocked(t.pool, x) { assert IsBlocked(s.pool, x); }
    forall x | x in ZombieBag(t) ensures IsFinished(t.pool, x) && Unawaited(t.pool, t.waiting, x) {
      assert IsFinished(s.pool, x) && Unawaited(s.pool, s.waiting, x);
    }
  }

  lemma ExitAgainFamily(p1: map<nat, Task>, p2: map<nat, Task>, id: nat)
    requires Family(p1) && id in p1 && p1[id].state.Zombie?
    requires id in p2 && p2 == p1[id := p2[id]]
    requires p2[id].parent == p1[id].parent && p2[id].children == p1[id].children
    requires if p1[id].parent.Some? && p1[id].parent.value in p1
             then p2[id].state.Zombie? && p2[id].exitStatus.Some? else p2[id].state.Terminated?
    ensures Family(p2)
  {
    forall x | x in p2 ensures Related(p2, x) {
      assert Related(p1, x);
      forall c | c in p2[x].children ensures IsChildOf(p2, c, x) { assert IsChildOf(p1, c, x); }
    }
  }

  lemma RemovedChild(children: seq<nat>, c: nat)
    requires NoDup(children)
    ensures NoDup(RemoveChild(children, c))
    ensures forall x :: x in RemoveChild(children, c) <==> x in children && x != c
  {
    match Position(children, c) {
      case None =>
      case Some(pos) => RemoveAtDistinct(children, pos);
    }
  }

  lemma CollectFamily(s: System, p: nat, c: nat)
    requires Family(s.pool) && Ids(s.pool, s.nextId) && p in s.pool && Wait(s, p, c).1.Ok?
    ensures Family(Wait(s, p, c).0.pool) && Ids(Wait(s, p, c).0.pool, s.nextId)
    ensures forall q :: q in s.pool && q != p ==> Wait(s, p, c).0.pool[q].children == s.pool[q].children
  {
    var t := Wait(s, p, c).0.pool;
    assert Related(s.pool, p);
    assert IsChildOf(s.pool, c, p);
    RemovedChild(s.pool[p].children, c);
    forall x | x in t ensures Related(t, x) {
      assert Related(s.pool, x);
      forall k | k in t[x].children ensures IsChildOf(t, k, x) {
        assert IsChildOf(s.pool, k, x);
      }
    }
  }

  /** Collecting a child's status: the status given at exit, by the parent. */
  lemma CollectKeeps(s: System, p: nat, c: nat)
    requires CoreInv(s, {}) && RunnableIn(s, p) && Wait(s, p, c).1.Ok?
    ensures CoreInv(Wait(s, p, c).0, {})
  {
    var t := Wait(s, p, c).0;
    CollectFamily(s, p, c);
    CollectPlaced(s, p, c);
    WaitsFrame(s.pool, t.pool, s.waiting);
    CollectWaiters(s, p, c);
  }

  lemma CollectWaiters(s: System, p: nat, c: nat)
    requires RunnableIn(s, p) && Wait(s, p, c).1.Ok?
    requires forall q, x :: q in Queue(s.waiting, OfTask(x)) ==> IsBlocked(s.pool, q)
    requires WhoWaits(s.pool, s.waiting) && ExitSeen(s, {})
    ensures WhoWaits(Wait(s, p, c).0.pool, s.waiting) && ExitSeen(Wait(s, p, c).0, {})
  {
    var t := Wait(s, p, c).0;
    forall q, x | q in Queue(t.waiting, OfTask(x)) && q != x ensures q in t.pool && x in t.pool[q].children {
      assert IsBlocked(s.pool, q);
    }
    CollectExitSeen(s, p, c);
  }

  lemma CollectExitSeen(s: System, p: nat, c: nat)
    requires RunnableIn(s, p) && Wait(s, p, c).1.Ok? && ExitSeen(s, {})
    ensures ExitSeen(Wait(s, p, c).0, {})
  {
    var t := Wait(s, p, c).0;
    assert ZombieBag(t) == ZombieBag(s);
    forall x | x in ZombieBag(t) ensures Unawaited(t.pool, t.waiting, x) {
      assert Unawaited(s.pool, s.waiting, x);
    }
  }

  lemma CollectPlaced(s: System, p: nat, c: nat)
    requires Placed(s) && RunnableIn(s, p) && Wait(s, p, c).1.Ok?
    ensures Placed(Wait(s, p, c).0)
    ensures forall x :: IsBlocked(Wait(s, p, c).0.pool, x) == IsBlocked(s.pool, x)
  {
    var t := Wait(s, p, c).0;
    assert t.pool.Keys == s.pool.Keys;
    forall x ensures IsBlocked(t.pool, x) == IsBlocked(s.pool, x) { }
    assert ReadyBag(t) == ReadyBag(s) && BlockedBag(t) == BlockedBag(s) && ZombieBag(t) == ZombieBag(s);
    forall x | x in ZombieBag(t) ensures IsFinished(t.pool, x) { assert IsFinished(s.pool, x); }
  }

  // ----- spawning ------------------------------------------------------------------

  lemma AddTaskPlaced(s: System, state: TaskState, parent: Option<nat>, cpu: Cpu)
    requires Placed(s) && Ids(s.pool, s.nextId)
    ensures Placed(AddTask(s, state, parent, cpu))
  {
    var t := AddTask(s, state, parent, cpu);
    var id := s.nextId;
    PushToQueue(s.ready, cpu, id);
    assert id !in s.pool;
    assert t.pool.Keys == s.pool.Keys + {id};
    assert multiset(t.pool.Keys) == multiset(s.pool.Keys) + multiset{id};
    var b, z := BlockedBag(s), ZombieBag(s);
    assert ReadyBag(s) + multiset{id} + b + z == ReadyBag(s) + b + z + multiset{id};
    forall x | x in BlockedBag(t) ensures IsBlocked(t.pool, x) { assert IsBlocked(s.pool, x); }
    forall x | x in ZombieBag(t) ensures IsFinished(t.pool, x) { assert IsFinished(s.pool, x); }
  }

  lemma SpawnKeeps(s: System, cpu: Cpu)
    requires CoreInv(s, {})
    ensures CoreInv(AddTask(s, Ready, None, cpu), {})
  {
    var t := AddTask(s, Ready, None, cpu);
    AddTaskPlaced(s, Ready, None, cpu);
    assert s.nextId !in s.pool;
    forall x ensures IsBlocked(t.pool, x) == IsBlocked(s.pool, x) { }
    WaitsFrame(s.pool, t.pool, s.waiting);
    SpawnFamily(s, cpu);
    SpawnWaiters(s, cpu);
  }

  lemma SpawnFamily(s: System, cpu: Cpu)
    requires Family(s.pool) && Ids(s.pool, s.nextId)
    ensures Family(AddTask(s, Ready, None, cpu).pool)
  {
    var t := AddTask(s, Ready, None, cpu);
    forall x | x in t.pool ensures Related(t.pool, x) {
      if x != s.nextId {
        assert Related(s.pool, x);
        forall c | c in t.pool[x].children ensures IsChildOf(t.pool, c, x) { assert IsChildOf(s.pool, c, x); }
      }
    }
  }

  lemma SpawnWaiters(s: System, cpu: Cpu)
    requires Placed(s) && Ids(s.pool, s.nextId) && WhoWaits(s.pool, s.waiting) && ExitSeen(s, {})
    ensures WhoWaits(AddTask(s, Ready, None, cpu).pool, s.waiting) && ExitSeen(AddTask(s, Ready, None, cpu), {})
  {
    var t := AddTask(s, Ready, None, cpu);
    assert ZombieBag(t) == ZombieBag(s) && s.nextId !in s.pool;
    forall q, c | q in Queue(s.waiting, OfTask(c)) && q != c ensures q in t.pool && c in t.pool[q].children {
      assert q in s.pool && c in s.pool[q].children;
    }
    forall c | c in ZombieBag(t) ensures Unawaited(t.pool, t.waiting, c) {
      assert IsFinished(s.pool, c);
      assert Unawaited(s.pool, s.waiting, c);
    }
  }

  lemma CloneFamily(s: System, p: nat, cpu: Cpu)
    requires Family(s.pool) && Ids(s.pool, s.nextId) && RunnableIn(s, p)
    ensures Family(Clone(s, p, cpu).pool)
    ensures Clone(s, p, cpu).pool ==
            s.pool[p := s.pool[p].(children := s.pool[p].children + [s.nextId])]
                  [s.nextId := Task(s.nextId, s.pool[p].state, 1, Some(p), [], None)]
  {
    var t := Clone(s, p, cpu).pool;
    assert s.nextId !in s.pool;
    assert Related(s.pool, p);
    assert IsChildOf(s.pool, s.nextId, p) ==> false;
    forall x | x in t ensures Related(t, x) {
      if x != s.nextId {
        assert Related(s.pool, x);
        forall c | c in t[x].children && c != s.nextId ensures IsChildOf(t, c, x) { assert IsChildOf(s.pool, c, x); }
      }
    }
  }

  lemma ClonePlaced(s: System, p: nat, cpu: Cpu)
    requires Placed(s) && Ids(s.pool, s.nextId) && RunnableIn(s, p)
    ensures Placed(Clone(s, p, cpu))
    ensures forall x :: IsBlocked(Clone(s, p, cpu).pool, x) == IsBlocked(s.pool, x)
  {
    var t := Clone(s, p, cpu);
    var s1 := AddChild(s, p, s.nextId);
    StatePlaced(s, s1, p);
    AddTaskPlaced(s1, s.pool[p].state, Some(p), cpu);
    forall x ensures IsBlocked(t.pool, x) == IsBlocked(s.pool, x) { }
  }

  lemma CloneKeeps(s: System, p: nat, cpu: Cpu)
    requires CoreInv(s, {}) && RunnableIn(s, p)
    ensures CoreInv(Clone(s, p, cpu), {})
  {
    var t := Clone(s, p, cpu);
    CloneFamily(s, p, cpu);
    ClonePlaced(s, p, cpu);
    WaitsFrame(s.pool, t.pool, s.waiting);
    CloneIds(s, p, cpu);
    CloneWaiters(s, p, cpu);
  }

  lemma CloneIds(s: System, p: nat, cpu: Cpu)
    requires RunnableIn(s, p) && Ids(s.pool, s.nextId)
    ensures Ids(Clone(s, p, cpu).pool, Clone(s, p, cpu).nextId)
  {
  }

  lemma CloneWaiters(s: System, p: nat, cpu: Cpu)
    requires RunnableIn(s, p) && Ids(s.pool, s.nextId)
    requires forall id :: id in ZombieBag(s) ==> IsFinished(s.pool, id)
    requires WhoWaits(s.pool, s.waiting) && ExitSeen(s, {})
    ensures WhoWaits(Clone(s, p, cpu).pool, s.waiting) && ExitSeen(Clone(s, p, cpu), {})
  {
    var t := Clone(s, p, cpu);
    forall q, c | q in Queue(t.waiting, OfTask(c)) && q != c ensures q in t.pool && c in t.pool[q].children {
      assert c in s.pool[q].children;
    }
    assert ZombieBag(t) == ZombieBag(s);
    forall c | c in ZombieBag(t) ensures Unawaited(t.pool, t.waiting, c) {
      assert IsFinished(s.pool, c);
      assert Unawaited(s.pool, s.waiting, c);
    }
  }
}
