/** Small shared datatypes and facts about sequences. */
module Base {
  newtype Byte = b: int | 0 <= b < 256

  datatype Option<+T> = None | Some(value: T)

  datatype Result<+T, +E> = Ok(value: T) | Err(error: E)

  predicate NoDup<T(==)>(q: seq<T>) {
    forall i, j :: 0 <= i < j < |q| ==> q[i] != q[j]
  }

  /** Removes the element at `pos`, as `VecDeque::remove` and `Vec::remove` do. */
  function RemoveAt<T>(q: seq<T>, pos: nat): seq<T>
    requires pos < |q|
  {
    q[..pos] + q[pos + 1..]
  }

  /** The first index holding `x`, as `iter().position` finds it. */
  function Position<T(==)>(q: seq<T>, x: T): (r: Option<nat>)
    ensures r.Some? ==> r.value < |q| && q[r.value] == x && x !in q[..r.value]
    ensures r.None? <==> x !in q
  {
    if q == [] then None
    else if q[0] == x then Some(0)
    else
      match Position(q[1..], x)
      case None => None
      case Some(k) =>
        assert q[..k + 1] == [q[0]] + q[1..][..k];
        Some(k + 1)
  }

  lemma RemoveAtBag<T>(q: seq<T>, pos: nat)
    requires pos < |q|
    ensures multiset(RemoveAt(q, pos)) + multiset{q[pos]} == multiset(q)
  {
    assert q == q[..pos] + [q[pos]] + q[pos + 1..];
  }

  lemma RemoveAtDistinct<T>(q: seq<T>, pos: nat)
    requires NoDup(q) && pos < |q|
    ensures NoDup(RemoveAt(q, pos))
    ensures forall x :: x in RemoveAt(q, pos) <==> x in q && x != q[pos]
  {
    var r := RemoveAt(q, pos);
    forall x | x in q && x != q[pos] ensures x in r {
      var k :| 0 <= k < |q| && q[k] == x;
      assert x == r[if k < pos then k else k - 1];
    }
  }

  lemma {:induction false} NoDupBag<T>(q: seq<T>, x: T)
    requires NoDup(q) && x in q
    ensures multiset(q)[x] == 1
  {
    if q[0] == x {
      assert q == [x] + q[1..];
      assert x !in q[1..];
    } else {
      assert q == [q[0]] + q[1..];
      NoDupBag(q[1..], x);
    }
  }

  /** All elements of a family of queues, queue after queue. */
  function Flat<T>(qs: seq<seq<T>>): seq<T> {
    if qs == [] then [] else qs[0] + Flat(qs[1..])
  }

  /** Replacing one queue exchanges exactly its elements. */
  lemma {:induction false} FlatUpdate<T>(qs: seq<seq<T>>, c: nat, q: seq<T>)
    requires c < |qs|
    ensures multiset(Flat(qs[c := q])) + multiset(qs[c]) == multiset(Flat(qs)) + multiset(q)
  {
    if c == 0 {
      assert qs[c := q][1..] == qs[1..];
    } else {
      assert qs[c := q][1..] == qs[1..][c - 1 := q];
      FlatUpdate(qs[1..], c - 1, q);
      var rest := multiset(Flat(qs[1..][c - 1 := q]));
      assert qs[1..][c - 1] == qs[c];
      assert multiset(Flat(qs[c := q])) + multiset(qs[c]) == multiset(qs[0]) + (rest + multiset(qs[c]));
    }
  }

  lemma {:induction false} FlatMember<T>(qs: seq<seq<T>>, x: T)
    ensures x in Flat(qs) <==> exists c :: 0 <= c < |qs| && x in qs[c]
  {
    if qs != [] {
      FlatMember(qs[1..], x);
      if c :| 0 <= c < |qs| && x in qs[c] {
        if c > 0 { assert x in qs[1..][c - 1]; }
      }
      if x in Flat(qs[1..]) {
        var c :| 0 <= c < |qs[1..]| && x in qs[1..][c];
        assert x in qs[c + 1];
      }
    }
  }
}
