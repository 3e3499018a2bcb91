/** Every run of reads, writes, clones and drops through the endpoints of a pipe. */
module PipeRuns {
  import opened Base
  import opened Pipe

  /** The pipe, its live endpoints, and the history: what writers were told was accepted and what
      readers were given. */
  datatype World = World(pipe: PipeState, live: map<nat, Endpoint>, accepted: seq<Byte>, delivered: seq<Byte>)

  datatype Call = ReadCall(id: nat, len: nat) | WriteCall(id: nat, data: seq<Byte>) | CloneCall(id: nat, newId: nat) | DropCall(id: nat)

  datatype Answer = Bytes(bytes: seq<Byte>) | Count(n: nat) | Failed(error: StreamError) | Done

  /** create_pair. */
  function Created(maxSize: nat): World {
    var r, w := Endpoint(true, false), Endpoint(false, true);
    World(Registered(Registered(PipeState([], maxSize, 0, 0, false), r), w), map[0 := r, 1 := w], [], [])
  }

  predicate Enabled(w: World, c: Call) {
    c.id in w.live && (c.CloneCall? ==> c.newId !in w.live)
  }

  predicate Bounded(w: World) { |w.pipe.buffer| <= w.pipe.maxSize }

  function Reply(w: World, c: Call): Answer
    requires Enabled(w, c) && Bounded(w)
  {
    match c
    case ReadCall(id, len) =>
      if ReadError(w.pipe, w.live[id]).Some? then Failed(ReadError(w.pipe, w.live[id]).value) else Bytes(Taken(w.pipe, len))
    case WriteCall(id, data) =>
      if WriteError(w.pipe, w.live[id]).Some? then Failed(WriteError(w.pipe, w.live[id]).value) else Count(|Accepts(w.pipe, data)|)
    case _ => Done
  }

  function Perform(w: World, c: Call): World
    requires Enabled(w, c) && Bounded(w)
  {
    match c
    case ReadCall(id, len) =>
      if Reply(w, c).Failed? then w
      else w.(pipe := w.pipe.(buffer := w.pipe.buffer[|Reply(w, c).bytes|..]), delivered := w.delivered + Reply(w, c).bytes)
    case WriteCall(id, data) =>
      if Reply(w, c).Failed? then w
      else w.(pipe := w.pipe.(buffer := w.pipe.buffer + data[..Reply(w, c).n]), accepted := w.accepted + data[..Reply(w, c).n])
    case CloneCall(id, newId) => w.(pipe := Registered(w.pipe, w.live[id]), live := w.live[newId := w.live[id]])
    case DropCall(id) => w.(pipe := Dropped(w.pipe, w.live[id]), live := w.live - {id})
  }

  // ----- the invariant ---------------------------------------------------------------

  function Readers(live: map<nat, Endpoint>): set<nat> { set id | id in live && live[id].canRead }
  function Writers(live: map<nat, Endpoint>): set<nat> { set id | id in live && live[id].canWrite }

  /** The counts are the numbers of live readers and writers; every endpoint is one or the other. */
  ghost predicate Counted(p: PipeState, live: map<nat, Endpoint>) {
    && p.readerCount == |Readers(live)|
    && p.writerCount == |Writers(live)|
    && forall id :: id in live ==> live[id].canRead || live[id].canWrite
  }

  /** Nothing is lost, duplicated or reordered while an endpoint lives. */
  ghost predicate Conserved(w: World) {
    if w.pipe.closed then w.pipe.buffer == [] && w.delivered <= w.accepted else w.delivered + w.pipe.buffer == w.accepted
  }

  ghost predicate Inv(w: World) {
    && Bounded(w)
    && Counted(w.pipe, w.live)
    && (w.pipe.closed <==> w.live == map[])
    && Conserved(w)
  }

  lemma CreatedInv(maxSize: nat)
    ensures Inv(Created(maxSize))
  {
    var w := Created(maxSize);
    assert Readers(w.live) == {0} && Writers(w.live) == {1};
    assert 0 in w.live;
  }

  lemma LiveAdd(live: map<nat, Endpoint>, id: nat, e: Endpoint)
    requires id !in live
    ensures Readers(live[id := e]) == (if e.canRead then Readers(live) + {id} else Readers(live)) && id !in Readers(live)
    ensures Writers(live[id := e]) == (if e.canWrite then Writers(live) + {id} else Writers(live)) && id !in Writers(live)
  {
  }

  lemma CountedAdd(p: PipeState, live: map<nat, Endpoint>, id: nat, e: Endpoint)
    requires Counted(p, live) && id !in live && (e.canRead || e.canWrite)
    ensures Counted(Registered(p, e), live[id := e])
  {
    LiveAdd(live, id, e);
  }

  /** A drop never saturates: the endpoint being dropped was counted. */
  lemma CountedDrop(p: PipeState, live: map<nat, Endpoint>, id: nat)
    requires Counted(p, live) && id in live
    ensures live[id].canRead ==> p.readerCount > 0
    ensures live[id].canWrite ==> p.writerCount > 0
    ensures Counted(Dropped(p, live[id]), live - {id})
  {
    var e := live[id];
    assert id in Readers(live) || id in Writers(live);
    assert Readers(live - {id}) == Readers(live) - {id};
    assert Writers(live - {id}) == Writers(live) - {id};
    if e.canRead { assert id in Readers(live); } else { assert id !in Readers(live); }
    if e.canWrite { assert id in Writers(live); } else { assert id !in Writers(live); }
  }

  /** No counted endpoint means no endpoint. */
  lemma NobodyLeft(p: PipeState, live: map<nat, Endpoint>)
    requires Counted(p, live)
    ensures p.readerCount == 0 && p.writerCount == 0 <==> live == map[]
  {
    assert forall id :: id in live ==> id in Readers(live) || id in Writers(live);
    assert live == map[] ==> Readers(live) == {} && Writers(live) == {};
  }

  lemma PerformKeeps(w: World, c: Call)
    requires Inv(w) && Enabled(w, c)
    ensures Inv(Perform(w, c))
  {
    match c {
      case ReadCall(id, len) => ReadKeeps(w, id, len);
      case WriteCall(id, data) => WriteKeeps(w, id, data);
      case CloneCall(id, newId) =>
        CountedAdd(w.pipe, w.live, newId, w.live[id]);
        assert id in w.live && newId in w.live[newId := w.live[id]];
      case DropCall(id) =>
        CountedDrop(w.pipe, w.live, id);
        NobodyLeft(Dropped(w.pipe, w.live[id]), w.live - {id});
        assert id in w.live;
    }
  }

  lemma ReadKeeps(w: World, id: nat, len: nat)
    requires Inv(w) && Enabled(w, ReadCall(id, len))
    ensures Inv(Perform(w, ReadCall(id, len)))
  {
    if !Reply(w, ReadCall(id, len)).Failed? {
      var taken := Taken(w.pipe, len);
      assert w.pipe.buffer == taken + w.pipe.buffer[|taken|..];
    }
  }

  lemma WriteKeeps(w: World, id: nat, data: seq<Byte>)
    requires Inv(w) && Enabled(w, WriteCall(id, data))
    ensures Inv(Perform(w, WriteCall(id, data)))
  {
  }

  // ----- every run -------------------------------------------------------------------

  ghost predicate StepAt(worlds: seq<World>, calls: seq<Call>, i: nat)
    requires i < |calls| && i + 1 < |worlds|
  {
    Bounded(worlds[i]) ==> Enabled(worlds[i], calls[i]) && worlds[i + 1] == Perform(worlds[i], calls[i])
  }

  ghost predicate IsRun(worlds: seq<World>, calls: seq<Call>, maxSize: nat) {
    && |worlds| == |calls| + 1
    && worlds[0] == Created(maxSize)
    && forall i {:trigger StepAt(worlds, calls, i)} :: 0 <= i < |calls| ==> StepAt(worlds, calls, i)
  }

  /** In every reachable state: bytes read followed by the buffer are the bytes accepted while an
      endpoint lives, the buffer respects its bound, the counts are the live readers and writers, and the
      pipe is closed exactly when no endpoint is left. */
  lemma {:induction false} PipeConserves(worlds: seq<World>, calls: seq<Call>, maxSize: nat, i: nat)
    requires IsRun(worlds, calls, maxSize) && i < |worlds|
    ensures Inv(worlds[i]) && worlds[i].pipe.maxSize == maxSize
    ensures i < |calls| ==> Enabled(worlds[i], calls[i]) && worlds[i + 1] == Perform(worlds[i], calls[i])
  {
    if i == 0 {
      CreatedInv(maxSize);
    } else {
      PipeConserves(worlds, calls, maxSize, i - 1);
      PerformKeeps(worlds[i - 1], calls[i - 1]);
    }
    if i < |calls| { assert StepAt(worlds, calls, i); }
  }

  // ----- what a live endpoint is told ------------------------------------------------

  /** A live reader is given the next accepted bytes in order. It gets the empty answer to a non-empty
      request exactly when no writer is left and everything accepted has been read; it would block
      exactly when everything has been read and a writer is left; Closed is never seen. */
  lemma ReaderTold(w: World, id: nat, len: nat)
    requires Inv(w) && id in w.live && w.live[id].canRead
    ensures var a := Reply(w, ReadCall(id, len));
            && (a.Bytes? || a == Failed(WouldBlock))
            && (a.Bytes? ==> |w.delivered| + |a.bytes| <= |w.accepted|
                             && a.bytes == w.accepted[|w.delivered|..|w.delivered| + |a.bytes|])
            && (len > 0 ==> (a == Bytes([]) <==> Writers(w.live) == {} && w.delivered == w.accepted))
            && (a == Failed(WouldBlock) <==> Writers(w.live) != {} && w.delivered == w.accepted)
  {
    assert !w.pipe.closed by { assert id in w.live; }
    assert w.pipe.writerCount == 0 <==> Writers(w.live) == {};
    assert w.delivered == w.accepted <==> w.pipe.buffer == [] by {
      assert |w.accepted| == |w.delivered| + |w.pipe.buffer|;
      if w.pipe.buffer == [] { assert w.delivered + [] == w.delivered; }
    }
  }

  /** A live writer is refused with BrokenPipe exactly when no reader is left, would block exactly when
      the buffer is full and a reader is left, and otherwise has as much accepted as fits. */
  lemma WriterTold(w: World, id: nat, data: seq<Byte>)
    requires Inv(w) && id in w.live && w.live[id].canWrite
    ensures var a := Reply(w, WriteCall(id, data));
            var held := |w.accepted| - |w.delivered|;
            && (a == Failed(BrokenPipe) <==> Readers(w.live) == {})
            && (a == Failed(WouldBlock) <==> Readers(w.live) != {} && held == w.pipe.maxSize)
            && (a.Count? <==> Readers(w.live) != {} && held < w.pipe.maxSize)
            && (a.Count? ==> a.n == AtMost(|data|, w.pipe.maxSize - held))
  {
    assert !w.pipe.closed by { assert id in w.live; }
    assert w.pipe.readerCount == 0 <==> Readers(w.live) == {};
    assert |w.accepted| == |w.delivered| + |w.pipe.buffer|;
  }

  /** With room for a byte, a live reader and a live writer never both have to wait. */
  lemma NeverBothBlocked(w: World, r: nat, s: nat, len: nat, data: seq<Byte>)
    requires Inv(w) && w.pipe.maxSize > 0 && r in w.live && w.live[r].canRead && s in w.live && w.live[s].canWrite
    ensures !(Reply(w, ReadCall(r, len)) == Failed(WouldBlock) && Reply(w, WriteCall(s, data)) == Failed(WouldBlock))
  {
    ReaderTold(w, r, len);
    WriterTold(w, s, data);
  }

  /** Writers come only from writers: once there is none, there is none later and nothing more is
      accepted. */
  lemma {:induction false} WritersGone(worlds: seq<World>, calls: seq<Call>, maxSize: nat, i: nat, j: nat)
    requires IsRun(worlds, calls, maxSize) && i <= j < |worlds| && Writers(worlds[i].live) == {}
    ensures Writers(worlds[j].live) == {} && worlds[j].accepted == worlds[i].accepted && worlds[i].delivered <= worlds[j].delivered
    decreases j
  {
    if i < j {
      WritersGone(worlds, calls, maxSize, i, j - 1);
      PipeConserves(worlds, calls, maxSize, j - 1);
      NoNewWriters(worlds[j - 1], calls[j - 1]);
    }
  }

  lemma NoNewWriters(w: World, c: Call)
    requires Inv(w) && Enabled(w, c) && Writers(w.live) == {}
    ensures Writers(Perform(w, c).live) == {} && Perform(w, c).accepted == w.accepted && w.delivered <= Perform(w, c).delivered
  {
    assert forall id :: id in w.live && w.live[id].canWrite ==> id in Writers(w.live);
  }

  /** The call is made and answered so. */
  ghost predicate Answered(w: World, c: Call, a: Answer) { Bounded(w) && Enabled(w, c) && Reply(w, c) == a }

  /** A live reader asks for at least one byte. */
  ghost predicate ReadsSome(w: World, c: Call) { c.ReadCall? && c.len > 0 && c.id in w.live && w.live[c.id].canRead }

  /** End of file is final: after one, every read by any endpoint with a request of at least one byte is
      answered with end of file, and everything ever accepted has been delivered. */
  lemma EofFinal(worlds: seq<World>, calls: seq<Call>, maxSize: nat, i: nat, j: nat)
    requires IsRun(worlds, calls, maxSize) && i <= j < |calls|
    requires ReadsSome(worlds[i], calls[i]) && Answered(worlds[i], calls[i], Bytes([]))
    requires ReadsSome(worlds[j], calls[j])
    ensures Answered(worlds[j], calls[j], Bytes([])) && worlds[j].delivered == worlds[j].accepted == worlds[i].accepted
  {
    PipeConserves(worlds, calls, maxSize, i);
    PipeConserves(worlds, calls, maxSize, j);
    ReaderTold(worlds[i], calls[i].id, calls[i].len);
    WritersGone(worlds, calls, maxSize, i, j);
    assert |worlds[j].delivered| <= |worlds[j].accepted|;
    ReaderTold(worlds[j], calls[j].id, calls[j].len);
  }
}
