/** A task's event queue and the scheduler's event pass. */
module Events {
  import opened Base

  datatype EventPriority = Low | Normal | High | Critical

  function Rank(p: EventPriority): nat {
    match p
    case Low => 1
    case Normal => 2
    case High => 3
    case Critical => 4
  }

  datatype ProcessControlType = Kill | OtherControl(code: nat)
  datatype EventContent = ProcessControl(control: ProcessControlType) | Custom(eventId: nat) | OtherContent

  /** An event; the tag stands for its payload and delivery. */
  datatype Event = Event(priority: EventPriority, content: EventContent, tag: nat)

  type Buckets = map<EventPriority, seq<Event>>

  function Bucket(m: Buckets, p: EventPriority): seq<Event> { if p in m then m[p] else [] }

  /** No bucket is empty, and every event is in the bucket of its priority. */
  ghost predicate BucketsOk(m: Buckets) {
    forall p :: p in m ==> m[p] != [] && forall i :: 0 <= i < |m[p]| ==> m[p][i].priority == p
  }

  /** The queued events in the order in which they leave. */
  function Ordered(m: Buckets): seq<Event> {
    Bucket(m, Critical) + Bucket(m, High) + Bucket(m, Normal) + Bucket(m, Low)
  }

  // ----- stable sorting --------------------------------------------------------------

  ghost predicate Descending(s: seq<Event>) {
    forall i, j :: 0 <= i < j < |s| ==> Rank(s[i].priority) >= Rank(s[j].priority)
  }

  /** The events of one priority, in the order of s. */
  function Filter(s: seq<Event>, p: EventPriority): seq<Event> {
    if s == [] then [] else (if s[0].priority == p then [s[0]] else []) + Filter(s[1..], p)
  }

  /** s is a stable sort of es by descending priority. */
  ghost predicate StableSort(s: seq<Event>, es: seq<Event>) {
    Descending(s) && forall p :: Filter(s, p) == Filter(es, p)
  }

  lemma {:induction false} FilterConcat(a: seq<Event>, b: seq<Event>, p: EventPriority)
    ensures Filter(a + b, p) == Filter(a, p) + Filter(b, p)
  {
    if a == [] {
      assert a + b == b;
    } else {
      var head := if a[0].priority == p then [a[0]] else [];
      assert (a + b)[1..] == a[1..] + b;
      FilterConcat(a[1..], b, p);
      assert Filter(a + b, p) == head + Filter(a[1..] + b, p);
      Assoc(head, Filter(a[1..], p), Filter(b, p));
    }
  }

  lemma {:induction false} FilterUniform(s: seq<Event>, q: EventPriority, p: EventPriority)
    requires forall i :: 0 <= i < |s| ==> s[i].priority == q
    ensures Filter(s, p) == if p == q then s else []
  {
    if s != [] { FilterUniform(s[1..], q, p); }
  }

  lemma {:induction false} FilterBag(s: seq<Event>, e: Event)
    ensures multiset(s)[e] == multiset(Filter(s, e.priority))[e]
  {
    if s != [] {
      FilterBag(s[1..], e);
      assert s == [s[0]] + s[1..];
    }
  }

  /** A stable sort is a permutation. */
  lemma StableSortBag(s: seq<Event>, es: seq<Event>)
    requires StableSort(s, es)
    ensures multiset(s) == multiset(es)
  {
    forall e ensures multiset(s)[e] == multiset(es)[e] {
      FilterBag(s, e);
      FilterBag(es, e);
    }
  }

  lemma {:induction false} FilterHas(s: seq<Event>, p: EventPriority) returns (i: nat)
    requires Filter(s, p) != []
    ensures i < |s| && s[i].priority == p
  {
    if s[0].priority == p {
      i := 0;
    } else {
      i := FilterHas(s[1..], p);
      i := i + 1;
    }
  }

  lemma HeadRank(a: seq<Event>, b: seq<Event>)
    requires a != [] && Descending(b) && Filter(a, a[0].priority) == Filter(b, a[0].priority)
    ensures b != [] && Rank(b[0].priority) >= Rank(a[0].priority)
  {
    var i := FilterHas(b, a[0].priority);
  }

  /** There is only one stable sort. */
  lemma {:induction false} StableUnique(a: seq<Event>, b: seq<Event>)
    requires Descending(a) && Descending(b) && forall p :: Filter(a, p) == Filter(b, p)
    ensures a == b
    decreases |a|
  {
    if a == [] {
      if b != [] { assert Filter(b, b[0].priority) == Filter(a, b[0].priority); }
    } else {
      HeadRank(a, b);
      HeadRank(b, a);
      var p := a[0].priority;
      assert b[0].priority == p;
      assert a[0] == Filter(a, p)[0] && b[0] == Filter(b, p)[0];
      forall q ensures Filter(a[1..], q) == Filter(b[1..], q) {
        assert Filter(a, q) == Filter(b, q);
        TailFilter(a, q);
        TailFilter(b, q);
      }
      StableUnique(a[1..], b[1..]);
      assert a == [a[0]] + a[1..] && b == [b[0]] + b[1..];
    }
  }

  lemma TailFilter(s: seq<Event>, q: EventPriority)
    requires s != []
    ensures Filter(s[1..], q) == if s[0].priority == q then Filter(s, q)[1..] else Filter(s, q)
  {
  }

  // ----- the queue on values ---------------------------------------------------------

  lemma OrderedFilter(m: Buckets, p: EventPriority)
    requires BucketsOk(m)
    ensures Filter(Ordered(m), p) == Bucket(m, p)
  {
    var c, h, n, l := Bucket(m, Critical), Bucket(m, High), Bucket(m, Normal), Bucket(m, Low);
    FilterConcat(c + h + n, l, p);
    FilterConcat(c + h, n, p);
    FilterConcat(c, h, p);
    FilterUniform(c, Critical, p);
    FilterUniform(h, High, p);
    FilterUniform(n, Normal, p);
    FilterUniform(l, Low, p);
  }

  lemma OrderedDescending(m: Buckets)
    requires BucketsOk(m)
    ensures Descending(Ordered(m))
  {
    var c, h, n, l := Bucket(m, Critical), Bucket(m, High), Bucket(m, Normal), Bucket(m, Low);
    var s := Ordered(m);
    forall i | 0 <= i < |s|
      ensures s[i].priority == if i < |c| then Critical else if i < |c| + |h| then High else if i < |c| + |h| + |n| then Normal else Low
    {
      if i < |c| { assert s[i] == c[i]; }
      else if i < |c| + |h| { assert s[i] == h[i - |c|]; }
      else if i < |c| + |h| + |n| { assert s[i] == n[i - |c| - |h|]; }
      else { assert s[i] == l[i - |c| - |h| - |n|]; }
    }
  }

  function Enqueued(m: Buckets, e: Event): Buckets { m[e.priority := Bucket(m, e.priority) + [e]] }

  function EnqueuedAll(m: Buckets, es: seq<Event>): Buckets {
    if es == [] then m else Enqueued(EnqueuedAll(m, es[..|es| - 1]), es[|es| - 1])
  }

  lemma {:induction false} EnqueuedAllIs(es: seq<Event>, p: EventPriority)
    ensures BucketsOk(EnqueuedAll(map[], es)) && Bucket(EnqueuedAll(map[], es), p) == Filter(es, p)
  {
    if es != [] {
      var front, last := es[..|es| - 1], es[|es| - 1];
      EnqueuedAllIs(front, p);
      assert es == front + [last];
      FilterConcat(front, [last], p);
      EnqueuedBucket(EnqueuedAll(map[], front), last, p);
    }
  }

  /** The order of a queue that was filled with es is the stable sort of es by descending priority. */
  lemma FilledIsSorted(es: seq<Event>)
    ensures BucketsOk(EnqueuedAll(map[], es)) && StableSort(Ordered(EnqueuedAll(map[], es)), es)
    ensures |Ordered(EnqueuedAll(map[], es))| == |es|
  {
    var m := EnqueuedAll(map[], es);
    EnqueuedAllIs(es, Low);
    OrderedDescending(m);
    forall p ensures Filter(Ordered(m), p) == Filter(es, p) {
      EnqueuedAllIs(es, p);
      OrderedFilter(m, p);
    }
    StableSortBag(Ordered(m), es);
    assert |multiset(Ordered(m))| == |multiset(es)|;
  }

  /** The highest priority with queued events. */
  function Highest(m: Buckets): Option<EventPriority> {
    if Bucket(m, Critical) != [] then Some(Critical)
    else if Bucket(m, High) != [] then Some(High)
    else if Bucket(m, Normal) != [] then Some(Normal)
    else if Bucket(m, Low) != [] then Some(Low)
    else None
  }

  function Dequeued(m: Buckets, p: EventPriority): Buckets
    requires Bucket(m, p) != []
  {
    if |m[p]| == 1 then m - {p} else m[p := m[p][1..]]
  }

  lemma DequeuedBuckets(m: Buckets, p: EventPriority)
    requires BucketsOk(m) && Bucket(m, p) != []
    ensures BucketsOk(Dequeued(m, p)) && m[p][0].priority == p
    ensures Bucket(m, p) == [m[p][0]] + Bucket(Dequeued(m, p), p)
    ensures forall q :: q != p ==> Bucket(Dequeued(m, p), q) == Bucket(m, q)
  {
  }

  lemma ConsFront(x: Event, b: seq<Event>, c: seq<Event>, d: seq<Event>, e: seq<Event>)
    ensures [x] + b + c + d + e == [x] + (b + c + d + e)
  {
  }

  /** dequeue takes the first event of the order and leaves the rest of it. */
  lemma DequeuedIs(m: Buckets, p: EventPriority)
    requires BucketsOk(m) && Highest(m) == Some(p)
    ensures BucketsOk(Dequeued(m, p)) && Ordered(m) == [m[p][0]] + Ordered(Dequeued(m, p))
  {
    DequeuedBuckets(m, p);
    var t := Dequeued(m, p);
    var c, h, n, l := Bucket(t, Critical), Bucket(t, High), Bucket(t, Normal), Bucket(t, Low);
    ConsFront(m[p][0], c, h, n, l);
    match p {
      case Critical =>
      case High => assert c == [] && [m[p][0]] + c + h == c + ([m[p][0]] + h);
      case Normal => assert c == [] && h == [] && [m[p][0]] + c + h + n == c + h + ([m[p][0]] + n);
      case Low => assert c == [] && h == [] && n == [] && [m[p][0]] + c + h + n + l == c + h + n + ([m[p][0]] + l);
    }
  }

  // ----- the queue, updated in place ------------------------------------------------

  class TaskEventQueue {
    var events: Buckets
    var totalCount: nat

    /** total_count is the sum of the bucket lengths. */
    ghost predicate Valid()
      reads this
    {
      BucketsOk(events) && totalCount == |Ordered(events)|
    }

    constructor ()
      ensures Valid() && Ordered(events) == []
    {
      events, totalCount := map[], 0;
    }

    /** Answers whether the queue was empty. */
    method Enqueue(e: Event) returns (wasEmpty: bool)
      requires Valid()
      modifies this
      ensures Valid() && events == Enqueued(old(events), e) && totalCount == old(totalCount) + 1
      ensures wasEmpty <==> Ordered(old(events)) == []
    {
      wasEmpty := totalCount == 0;
      EnqueuedOk(events, e);
      var bucket := if e.priority in events then events[e.priority] else [];
      events := events[e.priority := bucket + [e]];
      totalCount := totalCount + 1;
    }

    method Dequeue() returns (r: Option<Event>)
      requires Valid()
      modifies this
      ensures Valid()
      ensures r.None? <==> Ordered(old(events)) == []
      ensures r.None? ==> events == old(events) && totalCount == old(totalCount)
      ensures r.Some? ==> Ordered(old(events)) == [r.value] + Ordered(events)
      ensures r.None? <==> Highest(old(events)).None?
      ensures r.Some? ==> r.value == old(events)[Highest(old(events)).value][0]
                          && events == Dequeued(old(events), Highest(old(events)).value)
    {
      var p := Highest(events);
      if p.None? { return None; }
      DequeuedIs(events, p.value);
      var bucket := events[p.value];
      r := Some(bucket[0]);
      totalCount := totalCount - 1;
      events := if |bucket| == 1 then events - {p.value} else events[p.value := bucket[1..]];
    }
  }

  datatype Delivery = Delivered | Filtered | BufferFull | TargetNotFound

  /** Without filters everything passes, otherwise what some filter matches. */
  predicate Passes(filters: Option<seq<Event -> bool>>, e: Event) {
    filters.None? || filters.value == [] || exists i :: 0 <= i < |filters.value| && filters.value[i](e)
  }

  /** deliver_to_task: a filtered event is dropped silently; the configured buffer size bounds the queue. */
  method DeliverToTask(filters: Option<seq<Event -> bool>>, target: TaskEventQueue?, bufferSize: nat, e: Event) returns (r: Delivery)
    requires target != null ==> target.Valid()
    modifies if target == null then {} else {target}
    ensures target != null ==> target.Valid()
    ensures r.Filtered? <==> !Passes(filters, e)
    ensures r.TargetNotFound? <==> Passes(filters, e) && target == null
    ensures r.BufferFull? <==> Passes(filters, e) && target != null && old(|Ordered(target.events)|) >= bufferSize
    ensures target != null ==> target.events == if r.Delivered? then Enqueued(old(target.events), e) else old(target.events)
    ensures target != null && old(|Ordered(target.events)|) <= bufferSize ==> |Ordered(target.events)| <= bufferSize
  {
    if filters.Some? && filters.value != [] {
      var matches := exists i :: 0 <= i < |filters.value| && filters.value[i](e);
      if !matches { return Filtered; }
    }
    if target == null { return TargetNotFound; }
    if target.totalCount >= bufferSize { return BufferFull; }
    var _ := target.Enqueue(e);
    r := Delivered;
  }

  lemma EnqueuedBucket(m: Buckets, e: Event, p: EventPriority)
    ensures Bucket(Enqueued(m, e), p) == Bucket(m, p) + Filter([e], p)
  {
    FilterOne(e, p);
  }

  lemma EnqueuedOk(m: Buckets, e: Event)
    requires BucketsOk(m)
    ensures BucketsOk(Enqueued(m, e)) && |Ordered(Enqueued(m, e))| == |Ordered(m)| + 1
  {
    assert forall q :: q != e.priority ==> Bucket(Enqueued(m, e), q) == Bucket(m, q);
  }

  // ----- every run of enqueues and dequeues -----------------------------------------

  datatype QueueOp = Enq(e: Event) | Deq

  /** The queue with its history. */
  datatype Trace = Trace(events: Buckets, arrived: seq<Event>, departed: seq<Event>)

  function Do(t: Trace, op: QueueOp): Trace {
    match op
    case Enq(e) => Trace(Enqueued(t.events, e), t.arrived + [e], t.departed)
    case Deq =>
      match Highest(t.events)
      case None => t
      case Some(p) => t.(events := Dequeued(t.events, p), departed := t.departed + [t.events[p][0]])
  }

  function DoAll(ops: seq<QueueOp>): Trace {
    if ops == [] then Trace(map[], [], []) else Do(DoAll(ops[..|ops| - 1]), ops[|ops| - 1])
  }

  lemma FilterOne(e: Event, p: EventPriority)
    ensures Filter([e], p) == if e.priority == p then [e] else []
  {
    assert [e][1..] == [];
  }

  lemma EnqKeeps(t: Trace, e: Event, p: EventPriority)
    requires Filter(t.departed, p) + Bucket(t.events, p) == Filter(t.arrived, p)
    ensures Filter(t.departed, p) + Bucket(Enqueued(t.events, e), p) == Filter(t.arrived + [e], p)
  {
    FilterConcat(t.arrived, [e], p);
    FilterOne(e, p);
  }

  lemma DeqKeeps(t: Trace, q: EventPriority, p: EventPriority)
    requires BucketsOk(t.events) && Bucket(t.events, q) != []
    requires Filter(t.departed, p) + Bucket(t.events, p) == Filter(t.arrived, p)
    ensures Filter(t.departed + [t.events[q][0]], p) + Bucket(Dequeued(t.events, q), p) == Filter(t.arrived, p)
  {
    var x := t.events[q][0];
    DequeuedBuckets(t.events, q);
    FilterConcat(t.departed, [x], p);
    FilterOne(x, p);
    Assoc(Filter(t.departed, p), [x], Bucket(Dequeued(t.events, q), p));
    assert p != q ==> Filter(t.departed, p) + [] == Filter(t.departed, p);
  }

  lemma Assoc(a: seq<Event>, b: seq<Event>, c: seq<Event>)
    ensures (a + b) + c == a + (b + c)
  {
  }

  lemma DoKeeps(t: Trace, op: QueueOp, p: EventPriority)
    requires BucketsOk(t.events) && Filter(t.departed, p) + Bucket(t.events, p) == Filter(t.arrived, p)
    ensures var u := Do(t, op); BucketsOk(u.events) && Filter(u.departed, p) + Bucket(u.events, p) == Filter(u.arrived, p)
  {
    match op {
      case Enq(e) =>
        EnqueuedOk(t.events, e);
        EnqKeeps(t, e, p);
      case Deq =>
        if Highest(t.events).Some? {
          DequeuedBuckets(t.events, Highest(t.events).value);
          DeqKeeps(t, Highest(t.events).value, p);
        }
    }
  }

  /** Over every run, within each priority the events that left, followed by those still queued, are the
      events that arrived: none is lost or duplicated and each priority is served in order of arrival. */
  lemma {:induction false} FifoPerPriority(ops: seq<QueueOp>, p: EventPriority)
    ensures var t := DoAll(ops); BucketsOk(t.events) && Filter(t.departed, p) + Bucket(t.events, p) == Filter(t.arrived, p)
    decreases |ops|
  {
    if ops != [] {
      FifoPerPriority(ops[..|ops| - 1], p);
      DoKeeps(DoAll(ops[..|ops| - 1]), ops[|ops| - 1], p);
    }
  }

  /** What leaves has the highest priority of all that is queued. */
  lemma LeavesHighest(ops: seq<QueueOp>, e: Event)
    requires Highest(DoAll(ops).events).Some? && e in Ordered(DoAll(ops).events)
    ensures Rank(e.priority) <= Rank(DoAll(ops + [Deq]).departed[|DoAll(ops).departed|].priority)
  {
    var t := DoAll(ops);
    FifoPerPriority(ops, Low);
    var p := Highest(t.events).value;
    assert (ops + [Deq])[..|ops|] == ops;
    DequeuedIs(t.events, p);
    OrderedDescending(t.events);
    var i :| 0 <= i < |Ordered(t.events)| && Ordered(t.events)[i] == e;
    assert Ordered(t.events)[0] == t.events[p][0];
  }

  // ----- filling and draining -------------------------------------------------------

  function Enqs(es: seq<Event>): seq<QueueOp> { seq(|es|, i requires 0 <= i < |es| => Enq(es[i])) }

  function Deqs(n: nat): seq<QueueOp> { seq(n, _ => Deq) }

  lemma {:induction false} FillIs(es: seq<Event>)
    ensures DoAll(Enqs(es)) == Trace(EnqueuedAll(map[], es), es, [])
    decreases |es|
  {
    if es != [] {
      var front := es[..|es| - 1];
      FillIs(front);
      assert Enqs(es)[..|es| - 1] == Enqs(front);
      assert front + [es[|es| - 1]] == es;
    }
  }

  /** The queue of a trace stands in this order. */
  ghost predicate InOrder(t: Trace, order: seq<Event>) { BucketsOk(t.events) && Ordered(t.events) == order }

  lemma SplitAt(order: seq<Event>, n: nat)
    requires 0 < n <= |order|
    ensures order[n - 1..] == [order[n - 1]] + order[n..] && order[..n] == order[..n - 1] + [order[n - 1]]
  {
  }

  lemma {:induction false} DrainIs(ops: seq<QueueOp>, n: nat, order: seq<Event>)
    requires InOrder(DoAll(ops), order) && n <= |order|
    ensures InOrder(DoAll(ops + Deqs(n)), order[n..])
    ensures DoAll(ops + Deqs(n)).departed == DoAll(ops).departed + order[..n]
    decreases n
  {
    if n == 0 {
      assert ops + Deqs(0) == ops;
      assert order[0..] == order && order[..0] == [];
    } else {
      DrainIs(ops, n - 1, order);
      SplitAt(order, n);
      DrainOne(ops, n);
      DeqIs(DoAll(ops + Deqs(n - 1)), order[n - 1], order[n..]);
      Assoc(DoAll(ops).departed, order[..n - 1], [order[n - 1]]);
    }
  }

  lemma DrainOne(ops: seq<QueueOp>, n: nat)
    requires n > 0
    ensures DoAll(ops + Deqs(n)) == Do(DoAll(ops + Deqs(n - 1)), Deq)
  {
    var all := ops + Deqs(n);
    assert all[..|all| - 1] == ops + Deqs(n - 1) && all[|all| - 1] == Deq;
  }

  /** A dequeue from a queue that is not empty. */
  lemma DeqIs(t: Trace, first: Event, rest: seq<Event>)
    requires InOrder(t, [first] + rest)
    ensures InOrder(Do(t, Deq), rest) && Do(t, Deq).departed == t.departed + [first]
  {
    assert Ordered(t.events)[0] == first;
    var p := Highest(t.events).value;
    DequeuedIs(t.events, p);
    SameTail(first, rest, t.events[p][0], Ordered(Dequeued(t.events, p)));
  }

  lemma SameTail(x: Event, a: seq<Event>, y: Event, b: seq<Event>)
    requires [x] + a == [y] + b
    ensures x == y && a == b
  {
    assert ([x] + a)[0] == x && ([y] + b)[0] == y;
    assert ([x] + a)[1..] == a && ([y] + b)[1..] == b;
  }

  /** Enqueueing es and then dequeueing as often yields the stable sort of es by descending priority, a
      permutation of es, and leaves the queue empty. */
  lemma DrainIsStableSort(es: seq<Event>)
    ensures var u := DoAll(Enqs(es) + Deqs(|es|));
            StableSort(u.departed, es) && multiset(u.departed) == multiset(es) && Ordered(u.events) == []
  {
    FillIs(es);
    FilledIsSorted(es);
    var order := Ordered(EnqueuedAll(map[], es));
    DrainIs(Enqs(es), |es|, order);
    assert [] + order[..|es|] == order;
    StableSortBag(order, es);
  }
}
