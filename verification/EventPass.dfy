/** The scheduler's event pass: process_pending_events. */
module EventPass {
  import opened Base
  import opened Events

  // ----- the event pass --------------------------------------------------------------

  const MAX_EVENTS_PER_CYCLE: nat := 8

  predicate IsCritical(e: Event) {
    || e.priority == Critical
    || (e.priority == High && (e.content == ProcessControl(Kill) || (e.content.Custom? && e.content.eventId == 9)))
  }

  /** What handling an event did: whether the handler succeeded, whether events are still enabled, and the
      events it enqueued. */
  datatype Handling = Handling(ok: bool, enabled: bool, arrivals: seq<Event>)

  /** The pass goes on after an event. */
  predicate GoesOn(e: Event, h: Handling) { h.ok && h.enabled && !IsCritical(e) }

  /** n events of the order are what one pass hands to the ABI module. */
  ghost predicate IsPass(order: seq<Event>, outcomes: seq<Handling>, n: nat)
    requires |outcomes| >= MAX_EVENTS_PER_CYCLE
  {
    && n <= MAX_EVENTS_PER_CYCLE && n <= |order|
    && (forall i :: 0 <= i < n - 1 ==> GoesOn(order[i], outcomes[i]))
    && (n == MAX_EVENTS_PER_CYCLE || n == |order| || (n > 0 && !GoesOn(order[n - 1], outcomes[n - 1])))
  }

  /** The length of a pass is determined. */
  lemma PassUnique(order: seq<Event>, outcomes: seq<Handling>, n: nat, k: nat)
    requires |outcomes| >= MAX_EVENTS_PER_CYCLE && IsPass(order, outcomes, n) && IsPass(order, outcomes, k)
    ensures n == k
  {
  }

  // ----- a pass on values --------------------------------------------------------------

  /** What is queued after a pass, and what it handed out. */
  datatype PassEnd = PassEnd(events: Buckets, handed: seq<Event>)

  /** One pass that ends at the latest when the outcomes run out. */
  function PassOf(m: Buckets, outcomes: seq<Handling>): PassEnd
    decreases |outcomes|
  {
    if outcomes == [] || Highest(m).None? then PassEnd(m, [])
    else
      var p := Highest(m).value;
      var e, m1 := m[p][0], EnqueuedAll(Dequeued(m, p), outcomes[0].arrivals);
      if GoesOn(e, outcomes[0]) then
        var r := PassOf(m1, outcomes[1..]);
        PassEnd(r.events, [e] + r.handed)
      else PassEnd(m1, [e])
  }

  function Arrivals(outcomes: seq<Handling>): seq<Event> {
    if outcomes == [] then [] else outcomes[0].arrivals + Arrivals(outcomes[1..])
  }

  lemma {:induction false} MoreBuckets(m: Buckets, es: seq<Event>, p: EventPriority)
    requires BucketsOk(m)
    ensures BucketsOk(EnqueuedAll(m, es)) && Bucket(EnqueuedAll(m, es), p) == Bucket(m, p) + Filter(es, p)
    decreases |es|
  {
    if es != [] {
      var front, last := es[..|es| - 1], es[|es| - 1];
      MoreBuckets(m, front, p);
      assert es == front + [last];
      FilterConcat(front, [last], p);
      EnqueuedBucket(EnqueuedAll(m, front), last, p);
      EnqueuedOk(EnqueuedAll(m, front), last);
      Assoc(Bucket(m, p), Filter(front, p), Filter([last], p));
    }
  }

  /** A pass hands out at most as many events as allowed. Only the last can stop it, and it stops only
      there, when nothing is queued, or at the limit. */
  lemma {:induction false} PassStops(m: Buckets, outcomes: seq<Handling>)
    requires BucketsOk(m)
    ensures var r := PassOf(m, outcomes); var n := |r.handed|;
            && BucketsOk(r.events) && n <= |outcomes|
            && (forall i :: 0 <= i < n - 1 ==> GoesOn(r.handed[i], outcomes[i]))
            && (n == |outcomes| || Highest(r.events).None? || (n > 0 && !GoesOn(r.handed[n - 1], outcomes[n - 1])))
    decreases |outcomes|
  {
    if outcomes != [] && Highest(m).Some? {
      var p := Highest(m).value;
      DequeuedIs(m, p);
      MoreBuckets(Dequeued(m, p), outcomes[0].arrivals, p);
      PassStops(EnqueuedAll(Dequeued(m, p), outcomes[0].arrivals), outcomes[1..]);
    }
  }

  /** Whatever handlers enqueue, within each priority what a pass handed out followed by what is queued is
      what was queued followed by what arrived: nothing is lost, duplicated or overtaken. */
  lemma {:induction false} PassConserves(m: Buckets, outcomes: seq<Handling>, q: EventPriority)
    requires BucketsOk(m)
    ensures var r := PassOf(m, outcomes);
            |r.handed| <= |outcomes| &&
            Filter(r.handed, q) + Bucket(r.events, q) == Bucket(m, q) + Filter(Arrivals(outcomes[..|r.handed|]), q)
    decreases |outcomes|
  {
    if outcomes == [] || Highest(m).None? {
      assert outcomes[..0] == [] && Bucket(m, q) + [] == [] + Bucket(m, q);
    } else {
      var p := Highest(m).value;
      var e, m1 := m[p][0], EnqueuedAll(Dequeued(m, p), outcomes[0].arrivals);
      HandOne(m, p, outcomes[0], q);
      if GoesOn(e, outcomes[0]) {
        PassConserves(m1, outcomes[1..], q);
        var r := PassOf(m1, outcomes[1..]);
        HandMore(e, r, outcomes, Bucket(m, q), Bucket(m1, q), q);
      } else {
        assert outcomes[..1] == [outcomes[0]] && [outcomes[0]][1..] == [];
        assert outcomes[0].arrivals + [] == outcomes[0].arrivals;
      }
    }
  }

  /** One event handed out, and what its handler enqueued. */
  lemma HandOne(m: Buckets, p: EventPriority, h: Handling, q: EventPriority)
    requires BucketsOk(m) && Highest(m) == Some(p)
    ensures var m1 := EnqueuedAll(Dequeued(m, p), h.arrivals);
            BucketsOk(m1) && Filter([m[p][0]], q) + Bucket(m1, q) == Bucket(m, q) + Filter(h.arrivals, q)
  {
    var e, d := m[p][0], Dequeued(m, p);
    DequeuedBuckets(m, p);
    MoreBuckets(d, h.arrivals, q);
    FilterOne(e, q);
    Assoc(Filter([e], q), Bucket(d, q), Filter(h.arrivals, q));
    assert [] + Bucket(d, q) == Bucket(d, q);
  }

  /** The same with the rest of the pass behind it. */
  lemma HandMore(e: Event, r: PassEnd, outcomes: seq<Handling>, b: seq<Event>, b1: seq<Event>, q: EventPriority)
    requires outcomes != [] && |r.handed| < |outcomes| && Filter([e], q) + b1 == b + Filter(outcomes[0].arrivals, q)
    requires Filter(r.handed, q) + Bucket(r.events, q) == b1 + Filter(Arrivals(outcomes[1..][..|r.handed|]), q)
    ensures Filter([e] + r.handed, q) + Bucket(r.events, q) == b + Filter(Arrivals(outcomes[..1 + |r.handed|]), q)
  {
    var later := Filter(Arrivals(outcomes[1..][..|r.handed|]), q);
    FilterConcat([e], r.handed, q);
    assert outcomes[..1 + |r.handed|][1..] == outcomes[1..][..|r.handed|];
    FilterConcat(outcomes[0].arrivals, Arrivals(outcomes[1..][..|r.handed|]), q);
    Assoc(Filter([e], q), Filter(r.handed, q), Bucket(r.events, q));
    Assoc(Filter([e], q), b1, later);
    Assoc(b, Filter(outcomes[0].arrivals, q), later);
  }

  /** When handlers enqueue nothing, a pass hands out a prefix of the order and leaves exactly the rest. */
  lemma {:induction false} PassIsPrefix(m: Buckets, outcomes: seq<Handling>)
    requires BucketsOk(m) && forall i :: 0 <= i < |outcomes| ==> outcomes[i].arrivals == []
    ensures var r := PassOf(m, outcomes); Ordered(m) == r.handed + Ordered(r.events)
    decreases |outcomes|
  {
    if outcomes == [] || Highest(m).None? {
      assert [] + Ordered(m) == Ordered(m);
    } else {
      var p := Highest(m).value;
      DequeuedIs(m, p);
      var d := Dequeued(m, p);
      assert EnqueuedAll(d, outcomes[0].arrivals) == d;
      if GoesOn(m[p][0], outcomes[0]) {
        PassIsPrefix(d, outcomes[1..]);
        var r := PassOf(d, outcomes[1..]);
        Assoc([m[p][0]], r.handed, Ordered(r.events));
      }
    }
  }

  /** ... of at most eight events, none after the first critical, failed or disabling one, and no shorter
      than that. */
  lemma PassIsPass(m: Buckets, outcomes: seq<Handling>)
    requires BucketsOk(m) && |outcomes| == MAX_EVENTS_PER_CYCLE
    requires forall i :: 0 <= i < |outcomes| ==> outcomes[i].arrivals == []
    ensures IsPass(Ordered(m), outcomes, |PassOf(m, outcomes).handed|)
  {
    var r := PassOf(m, outcomes);
    PassIsPrefix(m, outcomes);
    PassStops(m, outcomes);
    IsPassOf(Ordered(m), outcomes, r.handed, Ordered(r.events));
  }

  lemma IsPassOf(order: seq<Event>, outcomes: seq<Handling>, handed: seq<Event>, left: seq<Event>)
    requires |outcomes| == MAX_EVENTS_PER_CYCLE && order == handed + left && |handed| <= |outcomes|
    requires forall i :: 0 <= i < |handed| - 1 ==> GoesOn(handed[i], outcomes[i])
    requires |handed| == |outcomes| || left == [] || (handed != [] && !GoesOn(handed[|handed| - 1], outcomes[|handed| - 1]))
    ensures IsPass(order, outcomes, |handed|)
  {
    assert forall i :: 0 <= i < |handed| ==> order[i] == handed[i];
  }

  // ----- a pass in place ---------------------------------------------------------------

  method EnqueueAll(q: TaskEventQueue, es: seq<Event>)
    requires q.Valid()
    modifies q
    ensures q.Valid() && q.events == EnqueuedAll(old(q.events), es)
  {
    var i := 0;
    assert es[..0] == [];
    while i < |es|
      invariant i <= |es| && q.Valid() && q.events == EnqueuedAll(old(q.events), es[..i])
    {
      assert es[..i + 1][..i] == es[..i];
      var _ := q.Enqueue(es[i]);
      i := i + 1;
    }
    assert es[..i] == es;
  }

  /** process_pending_events: nothing happens while events are disabled; otherwise it is one pass of at
      most eight events, and it fails exactly when the last handler failed. */
  method ProcessPendingEvents(q: TaskEventQueue, enabled: bool, outcomes: seq<Handling>) returns (ok: bool, handed: seq<Event>)
    requires q.Valid() && |outcomes| == MAX_EVENTS_PER_CYCLE
    modifies q
    ensures q.Valid()
    ensures !enabled ==> ok && handed == [] && q.events == old(q.events)
    ensures enabled ==> PassOf(old(q.events), outcomes) == PassEnd(q.events, handed)
    ensures enabled ==> |handed| <= |outcomes| && (ok <==> handed == [] || outcomes[|handed| - 1].ok)
  {
    ok, handed := true, [];
    if !enabled { return; }
    var going, n := true, 0;
    PassStarts(q.events, outcomes);
    while going && n < MAX_EVENTS_PER_CYCLE
      invariant q.Valid() && n == |handed| <= |outcomes|
      invariant PassOf(old(q.events), outcomes) == Behind(handed, Onward(q.events, outcomes, n, going))
      invariant ok <==> n == 0 || outcomes[n - 1].ok
      decreases going, MAX_EVENTS_PER_CYCLE - n
    {
      ghost var m := q.events;
      var e := q.Dequeue();
      if e.None? {
        PassEnds(m, outcomes, n, handed);
        going := false;
      } else {
        EnqueueAll(q, outcomes[n].arrivals);
        PassStep(m, outcomes, n, handed, e.value, q.events);
        handed := handed + [e.value];
        ok, going := outcomes[n].ok, GoesOn(e.value, outcomes[n]);
        n := n + 1;
      }
    }
    if going { PassEnds(q.events, outcomes, n, handed); }
    assert handed + [] == handed;
  }

  function Behind(handed: seq<Event>, r: PassEnd): PassEnd { PassEnd(r.events, handed + r.handed) }

  /** What a pass that has handed out n events does from here. */
  function Onward(m: Buckets, outcomes: seq<Handling>, n: nat, going: bool): PassEnd
    requires n <= |outcomes|
  {
    if going then PassOf(m, outcomes[n..]) else PassEnd(m, [])
  }

  lemma PassStarts(m: Buckets, outcomes: seq<Handling>)
    ensures Behind([], Onward(m, outcomes, 0, true)) == PassOf(m, outcomes)
  {
    assert outcomes[0..] == outcomes;
    assert [] + PassOf(m, outcomes).handed == PassOf(m, outcomes).handed;
  }

  lemma PassEnds(m: Buckets, outcomes: seq<Handling>, n: nat, handed: seq<Event>)
    requires n == |outcomes| || (n < |outcomes| && Highest(m).None?)
    ensures Behind(handed, Onward(m, outcomes, n, true)) == Behind(handed, Onward(m, outcomes, n, false))
  {
  }

  lemma PassStep(m: Buckets, outcomes: seq<Handling>, n: nat, handed: seq<Event>, e: Event, m1: Buckets)
    requires n < |outcomes| && Highest(m).Some? && e == m[Highest(m).value][0]
    requires m1 == EnqueuedAll(Dequeued(m, Highest(m).value), outcomes[n].arrivals)
    ensures Behind(handed, Onward(m, outcomes, n, true)) == Behind(handed + [e], Onward(m1, outcomes, n + 1, GoesOn(e, outcomes[n])))
  {
    var rest := outcomes[n..];
    assert rest[0] == outcomes[n] && rest[1..] == outcomes[n + 1..];
    Assoc(handed, [e], Onward(m1, outcomes, n + 1, GoesOn(e, outcomes[n])).handed);
    assert [e] + [] == [e];
  }

  // ----- repeated passes -------------------------------------------------------------

  /** One pass over an order on which every handler succeeds and leaves events enabled. */
  function PassLength(order: seq<Event>, limit: nat): (n: nat)
    ensures n <= |order| && n <= limit && (order != [] && limit > 0 ==> n > 0)
  {
    if order == [] || limit == 0 then 0
    else if IsCritical(order[0]) then 1
    else 1 + PassLength(order[1..], limit - 1)
  }

  lemma {:induction false} PassLengthIs(order: seq<Event>, limit: nat)
    ensures var n := PassLength(order, limit);
            && (forall i :: 0 <= i < n - 1 ==> !IsCritical(order[i]))
            && (n == limit || n == |order| || (n > 0 && IsCritical(order[n - 1])))
  {
    if order != [] && limit > 0 && !IsCritical(order[0]) {
      PassLengthIs(order[1..], limit - 1);
      assert forall i :: 0 < i < |order| ==> order[i] == order[1..][i - 1];
    }
  }

  lemma PassLengthPass(order: seq<Event>, outcomes: seq<Handling>)
    requires |outcomes| >= MAX_EVENTS_PER_CYCLE && forall i :: 0 <= i < |outcomes| ==> outcomes[i] == Handling(true, true, [])
    ensures IsPass(order, outcomes, PassLength(order, MAX_EVENTS_PER_CYCLE))
  {
    PassLengthIs(order, MAX_EVENTS_PER_CYCLE);
  }

  /** What is left of an order after k passes. */
  function AfterPasses(order: seq<Event>, k: nat): seq<Event>
    decreases k
  {
    if k == 0 then order else AfterPasses(order[PassLength(order, MAX_EVENTS_PER_CYCLE)..], k - 1)
  }

  /** No event waits forever: the event at position i is handed out within i + 1 passes, in order. */
  lemma {:induction false} PassesProgress(order: seq<Event>, k: nat)
    ensures var left := AfterPasses(order, k);
            |left| <= |order| && left == order[|order| - |left|..] && (|left| + k <= |order| || left == [])
    decreases k
  {
    if k > 0 {
      var n := PassLength(order, MAX_EVENTS_PER_CYCLE);
      PassesProgress(order[n..], k - 1);
      var left := AfterPasses(order, k);
      assert order[n..][|order| - n - |left|..] == order[|order| - |left|..];
    }
  }
}
