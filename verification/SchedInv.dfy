/** The scheduler invariant and its preservation by waking. */
module SchedInv {
  import opened Base
  import opened SchedState

  ghost function ReadyBag(s: System): multiset<nat> { multiset(Flat(s.ready)) }
  ghost function BlockedBag(s: System): multiset<nat> { multiset(Flat(s.blocked)) }
  ghost function ZombieBag(s: System): multiset<nat> { multiset(Flat(s.zombie)) }

  /** Every task of the pool sits exactly once in exactly one queue, nothing else does, and
      blocked and zombie queues hold tasks of the matching state. */
  ghost predicate Placed(s: System) {
    && ReadyBag(s) + BlockedBag(s) + ZombieBag(s) == multiset(s.pool.Keys)
    && (forall id :: id in BlockedBag(s) ==> IsBlocked(s.pool, id))
    && (forall id :: id in ZombieBag(s) ==> IsFinished(s.pool, id))
  }

  ghost predicate IsBlocked(pool: map<nat, Task>, id: nat) { id in pool && pool[id].state.Blocked? }
  ghost predicate IsFinished(pool: map<nat, Task>, id: nat) {
    id in pool && (pool[id].state.Zombie? || pool[id].state.Terminated?)
  }

  ghost predicate WaitsSomewhere(waiting: map<Waker, seq<nat>>, id: nat) { exists w :: id in Queue(waiting, w) }

  /** A task is Blocked exactly when it waits in one wait queue, once; `pending` are tasks taken
      off a wait queue and about to be woken. */
  ghost predicate Waits(pool: map<nat, Task>, waiting: map<Waker, seq<nat>>, pending: seq<nat>) {
    && (forall w, id :: id in Queue(waiting, w) ==> IsBlocked(pool, id) && id !in pending)
    && (forall w :: NoDup(Queue(waiting, w)))
    && (forall w1, w2, id :: id in Queue(waiting, w1) && id in Queue(waiting, w2) ==> w1 == w2)
    && NoDup(pending)
    && (forall id :: id in pending ==> IsBlocked(pool, id))
    && (forall id :: IsBlocked(pool, id) ==> id in pending || WaitsSomewhere(waiting, id))
  }

  /** Parents and children know each other until the child is collected. */
  ghost predicate Family(pool: map<nat, Task>) {
    forall id {:trigger Related(pool, id)} :: id in pool ==> Related(pool, id)
  }

  ghost predicate Related(pool: map<nat, Task>, id: nat)
    requires id in pool
  {
    var t := pool[id];
    && NoDup(t.children)
    && (forall c :: c in t.children ==> IsChildOf(pool, c, id))
    && (!t.state.Terminated? && t.parent.Some? && t.parent.value in pool ==> id in pool[t.parent.value].children)
    && (t.state.Zombie? ==> t.exitStatus.Some? && t.parent.Some?)
  }

  /** `c` is a child of `p` that `p` has not collected. */
  ghost predicate IsChildOf(pool: map<nat, Task>, c: nat, p: nat) {
    c in pool && pool[c].parent == Some(p) && !pool[c].state.Terminated?
  }

  ghost predicate Ids(pool: map<nat, Task>, nextId: nat) {
    forall id :: id in pool ==>
      && id < nextId
      && pool[id].id == id
      && !pool[id].state.NotInitialized?
      && (pool[id].parent.Some? ==> pool[id].parent.value < id)
  }

  /** Only a parent waits for a child (a sleeper waits on its own waker), and only the parent
      itself on its wait-any waker. */
  ghost predicate WhoWaits(pool: map<nat, Task>, waiting: map<Waker, seq<nat>>) {
    && (forall p, c :: p in Queue(waiting, OfTask(c)) && p != c ==> p in pool && c in pool[p].children)
    && (forall x, p :: x in Queue(waiting, OfParent(p)) ==> x == p)
  }

  /** Nobody waits for a task that has reached a zombie queue. */
  ghost predicate Unawaited(pool: map<nat, Task>, waiting: map<Waker, seq<nat>>, c: nat) {
    && Queue(waiting, OfTask(c)) == []
    && (c in pool && pool[c].state.Zombie? && pool[c].parent.Some? ==>
          Queue(waiting, OfParent(pool[c].parent.value)) == [])
  }

  ghost predicate ExitSeen(s: System, exempt: set<nat>) {
    forall c :: c in ZombieBag(s) && c !in exempt ==> Unawaited(s.pool, s.waiting, c)
  }

  ghost predicate CoreInv(s: System, exempt: set<nat>) {
    && Placed(s)
    && Waits(s.pool, s.waiting, [])
    && Family(s.pool)
    && Ids(s.pool, s.nextId)
    && WhoWaits(s.pool, s.waiting)
    && ExitSeen(s, exempt)
  }

  /** What a CPU runs is in that CPU's ready queue. */
  ghost predicate CurrentReady(s: System) {
    forall c: Cpu :: s.current[c].Some? ==> s.current[c].value in s.ready[c]
  }

  ghost predicate Inv(s: System) { CoreInv(s, {}) && CurrentReady(s) }

  lemma EmptyInv()
    ensures Inv(Empty)
  {
    var none: seq<seq<nat>> := [[], []];
    assert none[1..] == [[]] && none[1..][1..] == [];
    assert Flat(none) == [];
    assert forall w :: Queue(Empty.waiting, w) == [];
  }

  // ----- frames --------------------------------------------------------------------

  /** Nothing but runnable/blocked states changed. */
  ghost predicate SameLife(p1: map<nat, Task>, p2: map<nat, Task>) {
    && p2.Keys == p1.Keys
    && (forall id :: id in p1 ==> SameTaskLife(p1[id], p2[id]))
  }

  ghost predicate SameTaskLife(a: Task, b: Task) {
    && a.id == b.id && a.parent == b.parent && a.children == b.children && a.exitStatus == b.exitStatus
    && a.state.Zombie? == b.state.Zombie? && a.state.Terminated? == b.state.Terminated?
    && a.state.NotInitialized? == b.state.NotInitialized?
  }

  lemma FamilyFrame(p1: map<nat, Task>, p2: map<nat, Task>)
    requires SameLife(p1, p2) && Family(p1)
    ensures Family(p2)
  {
    forall id | id in p2 ensures Related(p2, id) {
      assert Related(p1, id);
      assert SameTaskLife(p1[id], p2[id]);
      forall c | c in p2[id].children ensures IsChildOf(p2, c, id) {
        assert IsChildOf(p1, c, id);
        assert SameTaskLife(p1[c], p2[c]);
      }
      var p := p2[id].parent;
      if p.Some? && p.value in p2 { assert SameTaskLife(p1[p.value], p2[p.value]); }
    }
  }

  lemma WaitersFrame(p1: map<nat, Task>, p2: map<nat, Task>, waiting: map<Waker, seq<nat>>)
    requires SameLife(p1, p2) && WhoWaits(p1, waiting)
    ensures WhoWaits(p2, waiting)
    ensures forall c :: Unawaited(p1, waiting, c) ==> Unawaited(p2, waiting, c)
  {
  }

  lemma InPool(s: System, id: nat)
    requires Placed(s)
    ensures id in s.pool <==> id in ReadyBag(s) || id in BlockedBag(s) || id in ZombieBag(s)
    ensures (ReadyBag(s) + BlockedBag(s) + ZombieBag(s))[id] <= 1
  {
    var all := ReadyBag(s) + BlockedBag(s) + ZombieBag(s);
    assert all[id] == multiset(s.pool.Keys)[id];
  }

  // ----- waking one task -----------------------------------------------------------

  lemma RemoveFromQueue(qs: PerCpu, cpu: Cpu, pos: nat)
    requires pos < |qs[cpu]|
    ensures multiset(Flat(qs[cpu := RemoveAt(qs[cpu], pos)])) + multiset{qs[cpu][pos]} == multiset(Flat(qs))
  {
    FlatUpdate(qs, cpu, RemoveAt(qs[cpu], pos));
    RemoveAtBag(qs[cpu], pos);
    var a := multiset(Flat(qs[cpu := RemoveAt(qs[cpu], pos)]));
    var b := multiset(RemoveAt(qs[cpu], pos));
    assert a + (b + multiset{qs[cpu][pos]}) == multiset(Flat(qs)) + b;
    forall x ensures (a + multiset{qs[cpu][pos]})[x] == multiset(Flat(qs))[x] {
      assert (a + (b + multiset{qs[cpu][pos]}))[x] == (multiset(Flat(qs)) + b)[x];
    }
  }

  lemma PushToQueue(qs: PerCpu, cpu: Cpu, id: nat)
    ensures multiset(Flat(qs[cpu := qs[cpu] + [id]])) == multiset(Flat(qs)) + multiset{id}
  {
    FlatUpdate(qs, cpu, qs[cpu] + [id]);
    var a := multiset(Flat(qs[cpu := qs[cpu] + [id]]));
    var b := multiset(qs[cpu]);
    assert multiset(qs[cpu] + [id]) == b + multiset{id};
    forall x ensures a[x] == (multiset(Flat(qs)) + multiset{id})[x] {
      assert (a + b)[x] == (multiset(Flat(qs)) + (b + multiset{id}))[x];
    }
  }

  lemma PopFromQueue(qs: PerCpu, cpu: Cpu)
    requires qs[cpu] != []
    ensures multiset(Flat(qs[cpu := qs[cpu][1..]])) + multiset{qs[cpu][0]} == multiset(Flat(qs))
  {
    assert RemoveAt(qs[cpu], 0) == qs[cpu][1..];
    RemoveFromQueue(qs, cpu, 0);
  }

  /** What wake_task changes, wherever the scan has got to. */
  ghost predicate WokenFrom(s: System, t: System, id: nat)
    requires id in s.pool
  {
    && t.pool == s.pool[id := s.pool[id].(state := Running)]
    && t == s.(pool := t.pool, ready := t.ready, blocked := t.blocked)
    && (if id in BlockedBag(s)
        then BlockedBag(t) + multiset{id} == BlockedBag(s) && ReadyBag(t) == ReadyBag(s) + multiset{id}
        else BlockedBag(t) == BlockedBag(s) && ReadyBag(t) == ReadyBag(s))
  }

  lemma {:induction false} WakeScanEffect(s: System, id: nat, cpu: nat)
    requires cpu <= NUM_OF_CPUS
    requires IsBlocked(s.pool, id)
    requires forall c: Cpu :: c < cpu ==> id !in s.blocked[c]
    ensures WakeScan(s, id, cpu).1
    ensures WokenFrom(s, WakeScan(s, id, cpu).0, id)
    decreases NUM_OF_CPUS - cpu
  {
    FlatMember(s.blocked, id);
    if cpu < NUM_OF_CPUS {
      match Position(s.blocked[cpu], id) {
        case None => WakeScanEffect(s, id, cpu + 1);
        case Some(pos) =>
          RemoveFromQueue(s.blocked, cpu, pos);
          PushToQueue(s.ready, cpu, id);
      }
    }
  }

  /** Moving one element from bag `b` to bag `a`. */
  lemma MoveBag(a: multiset<nat>, b: multiset<nat>, z: multiset<nat>, a1: multiset<nat>, b1: multiset<nat>, x: nat)
    requires b1 + multiset{x} == b && a1 == a + multiset{x}
    ensures a1 + b1 + z == a + b + z
    ensures forall y :: b1[y] <= b[y]
    ensures (a + b + z)[x] <= 1 ==> x !in b1
  {
    assert (b1 + multiset{x})[x] == b[x];
    assert a1 + b1 == a + (b1 + multiset{x});
    forall y ensures b1[y] <= b[y] { assert (b1 + multiset{x})[y] == b[y]; }
  }

  lemma WakeTaskEffect(s: System, id: nat)
    requires Placed(s) && IsBlocked(s.pool, id)
    ensures WakeTask(s, id).1
    ensures WokenFrom(s, WakeTask(s, id).0, id)
    ensures Placed(WakeTask(s, id).0)
    ensures id in ReadyBag(WakeTask(s, id).0)
  {
    WakeScanEffect(s, id, 0);
    WokenPlaced(s, WakeTask(s, id).0, id);
  }

  lemma WokenPlaced(s: System, t: System, id: nat)
    requires Placed(s) && IsBlocked(s.pool, id) && WokenFrom(s, t, id)
    ensures Placed(t) && id in ReadyBag(t)
  {
    InPool(s, id);
    if id in BlockedBag(s) {
      MoveBag(ReadyBag(s), BlockedBag(s), ZombieBag(s), ReadyBag(t), BlockedBag(t), id);
    }
    assert t.pool.Keys == s.pool.Keys;
    forall x | x in BlockedBag(t) ensures IsBlocked(t.pool, x) {
      assert x in BlockedBag(s);
      assert x != id;
      assert IsBlocked(s.pool, x);
    }
    forall x | x in ZombieBag(t) ensures IsFinished(t.pool, x) {
      assert IsFinished(s.pool, x);
    }
  }

  lemma WokenWaits(pool: map<nat, Task>, waiting: map<Waker, seq<nat>>, pending: seq<nat>)
    requires pending != [] && Waits(pool, waiting, pending)
    ensures pending[0] in pool
    ensures Waits(pool[pending[0] := pool[pending[0]].(state := Running)], waiting, pending[1..])
  {
    var id := pending[0];
    assert IsBlocked(pool, id);
    var pool1 := pool[id := pool[id].(state := Running)];
    forall x | x != id ensures IsBlocked(pool1, x) == IsBlocked(pool, x) { }
    forall w, x | x in Queue(waiting, w) ensures IsBlocked(pool1, x) && x !in pending[1..] {
      assert x != id;
    }
    forall x | x in pending[1..] ensures IsBlocked(pool1, x) {
      assert x in pending && x != id;
    }
  }

  /** The tasks in `ids` become Running; everything else about the pool stays. */
  ghost predicate WokePool(p1: map<nat, Task>, p2: map<nat, Task>, ids: seq<nat>) {
    && p2.Keys == p1.Keys
    && (forall id :: id in p1 ==> p2[id] == if id in ids then p1[id].(state := Running) else p1[id])
  }

  ghost predicate Woke(s: System, t: System, ids: seq<nat>) {
    && t == s.(pool := t.pool, ready := t.ready, blocked := t.blocked)
    && WokePool(s.pool, t.pool, ids)
    && (forall id :: id in ids ==> id in ReadyBag(t))
    && ReadyBag(s) <= ReadyBag(t)
  }

  lemma {:induction false} WakeEachEffect(s: System, ids: seq<nat>)
    requires Placed(s) && Waits(s.pool, s.waiting, ids)
    ensures Placed(WakeEach(s, ids).0) && Waits(WakeEach(s, ids).0.pool, s.waiting, [])
    ensures Woke(s, WakeEach(s, ids).0, ids)
    ensures WakeEach(s, ids).1 == |ids|
    decreases |ids|
  {
    if ids != [] {
      var id := ids[0];
      var s1 := WakeTask(s, id).0;
      WakeTaskEffect(s, id);
      WokenWaits(s.pool, s.waiting, ids);
      WakeEachEffect(s1, ids[1..]);
      WokeStep(s, s1, WakeEach(s, ids).0, ids);
    }
  }

  lemma WokeStep(s: System, s1: System, t: System, ids: seq<nat>)
    requires ids != [] && NoDup(ids) && ids[0] in s.pool
    requires WokenFrom(s, s1, ids[0]) && ids[0] in ReadyBag(s1)
    requires Woke(s1, t, ids[1..])
    ensures Woke(s, t, ids)
  {
    assert forall x :: x in ids <==> x == ids[0] || x in ids[1..];
    WokePoolStep(s.pool, s1.pool, t.pool, ids);
  }

  lemma WokePoolStep(p: map<nat, Task>, p1: map<nat, Task>, p2: map<nat, Task>, ids: seq<nat>)
    requires ids != [] && NoDup(ids) && ids[0] in p && p1 == p[ids[0] := p[ids[0]].(state := Running)]
    requires WokePool(p1, p2, ids[1..])
    ensures WokePool(p, p2, ids)
  {
    assert forall x :: x in ids <==> x == ids[0] || x in ids[1..];
  }

  // ----- waking everybody ----------------------------------------------------------

  lemma DrainedWaits(s: System, w: Waker)
    requires Waits(s.pool, s.waiting, [])
    ensures Waits(s.pool, Drain(s, w).waiting, Queue(s.waiting, w))
    ensures forall v :: Queue(Drain(s, w).waiting, v) == if v == w then [] else Queue(s.waiting, v)
  {
    var d := Drain(s, w).waiting;
    forall v ensures Queue(d, v) == if v == w then [] else Queue(s.waiting, v) {
    }
    forall id | IsBlocked(s.pool, id) ensures id in Queue(s.waiting, w) || WaitsSomewhere(d, id) {
      var v :| id in Queue(s.waiting, v);
      if v != w { assert id in Queue(d, v); }
    }
  }

  lemma WakeAllEffect(s: System, w: Waker)
    requires Placed(s) && Waits(s.pool, s.waiting, [])
    ensures Placed(WakeAll(s, w).0) && Waits(WakeAll(s, w).0.pool, WakeAll(s, w).0.waiting, [])
    ensures Woke(Drain(s, w), WakeAll(s, w).0, Queue(s.waiting, w))
    ensures WakeAll(s, w).1 == |Queue(s.waiting, w)|
    ensures SameLife(s.pool, WakeAll(s, w).0.pool)
  {
    DrainedWaits(s, w);
    WakeEachEffect(Drain(s, w), Queue(s.waiting, w));
    WokeIsSameLife(s, WakeAll(s, w).0.pool, Queue(s.waiting, w));
  }

  lemma DrainedWaiters(s: System, w: Waker, c: nat)
    requires WhoWaits(s.pool, s.waiting)
    ensures WhoWaits(s.pool, Drain(s, w).waiting)
    ensures Unawaited(s.pool, s.waiting, c) ==> Unawaited(s.pool, Drain(s, w).waiting, c)
  {
    forall v ensures Queue(Drain(s, w).waiting, v) == if v == w then [] else Queue(s.waiting, v) {
    }
  }

  /** wake_all keeps the invariant. */
  lemma WakeAllKeeps(s: System, w: Waker, exempt: set<nat>)
    requires CoreInv(s, exempt)
    ensures CoreInv(WakeAll(s, w).0, exempt)
  {
    var d := Drain(s, w).waiting;
    var t := WakeAll(s, w).0;
    WakeAllEffect(s, w);
    FamilyFrame(s.pool, t.pool);
    DrainedWaiters(s, w, 0);
    WaitersFrame(s.pool, t.pool, d);
    assert ZombieBag(t) == ZombieBag(s);
    forall c | c in ZombieBag(t) && c !in exempt ensures Unawaited(t.pool, t.waiting, c) {
      DrainedWaiters(s, w, c);
      assert Unawaited(s.pool, d, c);
    }
  }

  lemma WokeIsSameLife(s: System, pool: map<nat, Task>, ids: seq<nat>)
    requires WokePool(s.pool, pool, ids)
    requires forall id :: id in ids ==> IsBlocked(s.pool, id)
    ensures SameLife(s.pool, pool)
  {
    forall id | id in s.pool ensures SameTaskLife(s.pool[id], pool[id]) {
      if id in ids { assert IsBlocked(s.pool, id); }
    }
  }
}
