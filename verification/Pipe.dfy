/** A pipe shared by its endpoints. Reads and writes are atomic and report when they would block. */
module Pipe {
  import opened Base

  datatype StreamError = NotSupported | Closed | WouldBlock | BrokenPipe

  datatype Endpoint = Endpoint(canRead: bool, canWrite: bool)

  datatype PipeState = PipeState(buffer: seq<Byte>, maxSize: nat, readerCount: nat, writerCount: nat, closed: bool)

  function SaturatingDec(n: nat): nat { if n == 0 then 0 else n - 1 }

  function AtMost(a: nat, b: nat): nat { if a < b then a else b }

  // ----- what each call answers and leaves behind -----------------------------------

  function ReadError(p: PipeState, e: Endpoint): Option<StreamError> {
    if !e.canRead then Some(NotSupported)
    else if p.closed then Some(Closed)
    else if p.buffer == [] && p.writerCount != 0 then Some(WouldBlock)
    else None
  }

  /** The bytes a successful read of len bytes takes from the front. */
  function Taken(p: PipeState, len: nat): seq<Byte> { p.buffer[..AtMost(len, |p.buffer|)] }

  function WriteError(p: PipeState, e: Endpoint): Option<StreamError> {
    if !e.canWrite then Some(NotSupported)
    else if p.closed then Some(Closed)
    else if p.readerCount == 0 then Some(BrokenPipe)
    else if p.maxSize <= |p.buffer| then Some(WouldBlock)
    else None
  }

  /** The bytes of data a successful write appends. */
  function Accepts(p: PipeState, data: seq<Byte>): seq<Byte>
    requires |p.buffer| <= p.maxSize
  {
    data[..AtMost(|data|, p.maxSize - |p.buffer|)]
  }

  function Registered(p: PipeState, e: Endpoint): PipeState {
    p.(readerCount := if e.canRead then p.readerCount + 1 else p.readerCount,
       writerCount := if e.canWrite then p.writerCount + 1 else p.writerCount)
  }

  function Dropped(p: PipeState, e: Endpoint): PipeState {
    var q := p.(readerCount := if e.canRead then SaturatingDec(p.readerCount) else p.readerCount,
                writerCount := if e.canWrite then SaturatingDec(p.writerCount) else p.writerCount);
    if q.readerCount == 0 && q.writerCount == 0 then q.(closed := true, buffer := []) else q
  }

  lemma MovedOne(b: seq<Byte>, t: seq<Byte>, i: nat)
    requires i < |b| && i < |t|
    ensures (b[..i] + t[i..])[i := b[i]] == b[..i + 1] + t[i + 1..]
  {
  }

  // ----- the shared state, updated in place -----------------------------------------

  class SharedPipe {
    var buffer: seq<Byte>      // a VecDeque
    const maxSize: nat
    var readerCount: nat
    var writerCount: nat
    var closed: bool

    ghost predicate Valid()
      reads this
    {
      |buffer| <= maxSize
    }

    function State(): PipeState
      reads this
    {
      PipeState(buffer, maxSize, readerCount, writerCount, closed)
    }

    constructor (bufferSize: nat)
      ensures Valid() && State() == PipeState([], bufferSize, 0, 0, false)
    {
      buffer, maxSize := [], bufferSize;
      readerCount, writerCount, closed := 0, 0, false;
    }

    /** PipeEndpoint::new and clone both count the new endpoint. */
    method Register(e: Endpoint)
      requires Valid()
      modifies this
      ensures Valid() && State() == Registered(old(State()), e)
    {
      if e.canRead { readerCount := readerCount + 1; }
      if e.canWrite { writerCount := writerCount + 1; }
    }

    method Drop(e: Endpoint)
      requires Valid()
      modifies this
      ensures Valid() && State() == Dropped(old(State()), e)
    {
      if e.canRead { readerCount := SaturatingDec(readerCount); }
      if e.canWrite { writerCount := SaturatingDec(writerCount); }
      if readerCount == 0 && writerCount == 0 {
        closed := true;
        buffer := [];
      }
    }

    /** Reads into target; the rest of target is left alone. Taking bytes wakes all waiting writers. */
    method Read(e: Endpoint, target: array<Byte>) returns (r: Result<nat, StreamError>, wakesWriters: bool)
      requires Valid()
      modifies this`buffer, target
      ensures Valid()
      ensures r.Err? <==> ReadError(old(State()), e).Some?
      ensures wakesWriters <==> r.Ok? && r.value > 0
      ensures r.Err? ==> Some(r.error) == ReadError(old(State()), e) && State() == old(State()) && target[..] == old(target[..])
      ensures r.Ok? ==>
                && var taken := Taken(old(State()), target.Length);
                && r.value == |taken| <= target.Length
                && target[..] == taken + old(target[..])[|taken|..]
                && State() == old(State()).(buffer := old(buffer)[|taken|..])
    {
      if !e.canRead { return Err(NotSupported), false; }
      if closed { return Err(Closed), false; }
      if buffer == [] {
        if writerCount == 0 {
          return Ok(0), false;
        } else {
          return Err(WouldBlock), false;
        }
      }
      var n := AtMost(target.Length, |buffer|);
      var i := 0;
      while i < n
        invariant i <= n && n <= target.Length && n <= |old(buffer)|
        invariant buffer == old(buffer)[i..]
        invariant target[..] == old(buffer)[..i] + old(target[..])[i..]
      {
        MovedOne(old(buffer), old(target[..]), i);
        ghost var before := target[..];
        target[i] := buffer[0];
        assert target[..] == before[i := old(buffer)[i]];
        buffer := buffer[1..];
        i := i + 1;
      }
      r, wakesWriters := Ok(n), n > 0;
    }

    /** Appending bytes wakes all waiting readers. */
    method Write(e: Endpoint, data: seq<Byte>) returns (r: Result<nat, StreamError>, wakesReaders: bool)
      requires Valid()
      modifies this`buffer
      ensures Valid()
      ensures r.Err? <==> WriteError(old(State()), e).Some?
      ensures wakesReaders <==> r.Ok? && r.value > 0
      ensures r.Err? ==> Some(r.error) == WriteError(old(State()), e) && State() == old(State())
      ensures r.Ok? ==>
                && var accepted := Accepts(old(State()), data);
                && r.value == |accepted|
                && State() == old(State()).(buffer := old(buffer) + accepted)
    {
      if !e.canWrite { return Err(NotSupported), false; }
      if closed { return Err(Closed), false; }
      if readerCount == 0 { return Err(BrokenPipe), false; }
      var space := maxSize - |buffer|;
      if space == 0 { return Err(WouldBlock), false; }
      var n := AtMost(|data|, space);
      var i := 0;
      while i < n
        invariant i <= n <= |data| && n <= space
        invariant buffer == old(buffer) + data[..i]
      {
        buffer := buffer + [data[i]];
        i := i + 1;
      }
      r, wakesReaders := Ok(n), n > 0;
    }
  }
}
