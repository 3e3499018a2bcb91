/** setup_arguments_on_stack: argc, argv, envp and their strings on the user stack. */
module StackImage {
  import opened Base
  import opened Vmem
  import opened AddressSpace

  const WORD: nat := 8

  type Text = seq<Byte>   // the bytes of a string, without a terminator

  // ----- little-endian words ---------------------------------------------------------

  function Digit(x: nat, i: nat): Byte {
    if i == 0 then (x % 256) as Byte else Digit(x / 256, i - 1)
  }

  /** The n low digits of x, lowest first. */
  function Digits(x: nat, n: nat): seq<Byte> { seq(n, i requires 0 <= i < n => Digit(x, i)) }

  /** to_le_bytes of a usize. */
  function Word(x: nat): seq<Byte> { Digits(x, WORD) }

  function Value(bs: seq<Byte>): nat {
    if bs == [] then 0 else bs[0] as nat + 256 * Value(bs[1..])
  }

  function Pow256(n: nat): nat { if n == 0 then 1 else 256 * Pow256(n - 1) }

  lemma {:induction false} DigitsRoundTrip(x: nat, n: nat)
    requires x < Pow256(n)
    ensures Value(Digits(x, n)) == x
  {
    if n > 0 {
      DigitsRoundTrip(x / 256, n - 1);
      assert Digits(x, n)[1..] == Digits(x / 256, n - 1);
    }
  }

  lemma WordRoundTrip(x: nat)
    requires x < ADDRESS_LIMIT
    ensures Value(Word(x)) == x
  {
    WordFits(x);
    DigitsRoundTrip(x, WORD);
  }

  lemma WordFits(x: nat)
    requires x < ADDRESS_LIMIT
    ensures x < Pow256(WORD)
  {
    assert Pow256(2) == 0x1_0000;
    assert Pow256(4) == 0x1_0000_0000;
    assert Pow256(6) == 0x1_0000 * Pow256(4);
    assert Pow256(8) == 0x1_0000 * Pow256(6);
  }

  // ----- the layout ------------------------------------------------------------------

  /** A slice written at a virtual address. */
  datatype Write = Write(addr: nat, data: seq<Byte>)

  function StringsSize(ss: seq<Text>): nat {
    if ss == [] then 0 else |ss[0]| + 1 + StringsSize(ss[1..])
  }

  /** The pointer array: one word per string, the strings lying one after the other from addr on. */
  function PointerWrites(ss: seq<Text>, at: nat, addr: nat): seq<Write> {
    if ss == [] then [] else [Write(at, Word(addr))] + PointerWrites(ss[1..], at + WORD, addr + |ss[0]| + 1)
  }

  /** Every string is written in two steps: its bytes, then the terminator. */
  function StringWrites(ss: seq<Text>, at: nat): seq<Write> {
    if ss == [] then []
    else [Write(at, ss[0]), Write(at + |ss[0]|, [0])] + StringWrites(ss[1..], at + |ss[0]| + 1)
  }

  function ArraySize(ss: seq<Text>): nat { (|ss| + 1) * WORD }

  function TotalSize(argv: seq<Text>, envp: seq<Text>): nat {
    WORD + ArraySize(argv) + ArraySize(envp) + StringsSize(argv) + StringsSize(envp)
  }

  /** (x + 15) & !15 */
  function Align16(x: nat): nat { (x + 15) / 16 * 16 }

  /** Where the parts of the image begin. */
  datatype Layout = Layout(argvAt: nat, envpAt: nat, argvStrings: nat, envpStrings: nat)

  function LayoutOf(argv: seq<Text>, envp: seq<Text>, sp: nat): Layout {
    var argvAt := sp + WORD;
    var envpAt := argvAt + ArraySize(argv);
    var argvStrings := envpAt + ArraySize(envp);
    Layout(argvAt, envpAt, argvStrings, argvStrings + StringsSize(argv))
  }

  /** A pointer array with its terminating null. */
  function ArrayWrites(ss: seq<Text>, at: nat, addr: nat): seq<Write> {
    PointerWrites(ss, at, addr) + [Write(at + |ss| * WORD, Word(0))]
  }

  /** All slices written, from the new stack pointer on. */
  function Writes(argv: seq<Text>, envp: seq<Text>, sp: nat): seq<Write> {
    var l := LayoutOf(argv, envp, sp);
    [Write(sp, Word(|argv|))]
    + (ArrayWrites(argv, l.argvAt, l.argvStrings)
       + (ArrayWrites(envp, l.envpAt, l.envpStrings)
          + (StringWrites(argv, l.argvStrings) + StringWrites(envp, l.envpStrings))))
  }

  // ----- writing ---------------------------------------------------------------------

  type Translation = nat -> Option<nat>

  /** The translation of an address space. */
  ghost function Through(m: Maps): Translation {
    (v: nat) => if Meaning(m, v).Some? then Some(Meaning(m, v).value.paddr) else None
  }

  /** tr is the translation of m. */
  ghost predicate Follows(m: Maps, tr: Translation) {
    forall v: nat {:trigger Meaning(m, v)} :: tr(v) == if Meaning(m, v).Some? then Some(Meaning(m, v).value.paddr) else None
  }

  lemma ThroughFollows(m: Maps)
    ensures Follows(m, Through(m))
  {
  }

  /** Copying data to the physical address p. */
  function Put(ram: Ram, p: nat, data: seq<Byte>): Ram {
    (a: nat) => if p <= a < p + |data| then data[a - p] else ram(a)
  }

  /** Memory after some writes, and whether all of them were made. */
  datatype Written = Written(ram: Ram, ok: bool)

  /** A series of writes up to the first address that does not translate: each slice goes to consecutive
      physical addresses from the translation of its first byte on. */
  ghost function WriteAll(tr: Translation, ram: Ram, ws: seq<Write>): Written
    decreases |ws|
  {
    if ws == [] then Written(ram, true)
    else match tr(ws[0].addr)
      case None => Written(ram, false)
      case Some(p) => WriteAll(tr, Put(ram, p, ws[0].data), ws[1..])
  }

  lemma {:induction false} WriteAllConcat(tr: Translation, ram: Ram, a: seq<Write>, b: seq<Write>)
    ensures WriteAll(tr, ram, a + b) == if !WriteAll(tr, ram, a).ok then WriteAll(tr, ram, a) else WriteAll(tr, WriteAll(tr, ram, a).ram, b)
    decreases |a|
  {
    if a == [] {
      assert a + b == b;
    } else {
      assert (a + b)[1..] == a[1..] + b;
      if tr(a[0].addr).Some? { WriteAllConcat(tr, Put(ram, tr(a[0].addr).value, a[0].data), a[1..], b); }
    }
  }

  /** Each write starts where the one before it ended. */
  ghost predicate Adjacent(ws: seq<Write>, at: nat)
    decreases |ws|
  {
    ws == [] || (ws[0].addr == at && Adjacent(ws[1..], at + |ws[0].data|))
  }

  function AllBytes(ws: seq<Write>): seq<Byte> {
    if ws == [] then [] else ws[0].data + AllBytes(ws[1..])
  }

  lemma {:induction false} AdjacentConcat(a: seq<Write>, b: seq<Write>, at: nat)
    requires Adjacent(a, at) && Adjacent(b, at + |AllBytes(a)|)
    ensures Adjacent(a + b, at) && AllBytes(a + b) == AllBytes(a) + AllBytes(b)
    decreases |a|
  {
    if a == [] {
      assert a + b == b;
    } else {
      assert (a + b)[1..] == a[1..] + b;
      AdjacentConcat(a[1..], b, at + |a[0].data|);
    }
  }

  function Load(ram: Ram, p: nat, n: nat): seq<Byte> { seq(n, i requires 0 <= i < n => ram(p + i)) }

  /** Memory holds bytes from p on. */
  ghost predicate Holds(ram: Ram, p: nat, bytes: seq<Byte>) { Load(ram, p, |bytes|) == bytes }

  ghost predicate SameOutside(before: Ram, after: Ram, p: nat, size: nat) {
    forall a: nat {:trigger after(a)} :: a < p || p + size <= a ==> after(a) == before(a)
  }

  /** Inside one mapping, adjacent writes lay their bytes out contiguously in physical memory, touch
      nothing else and do not fail. */
  lemma {:induction false} WritesLand(m: Maps, k: nat, tr: Translation, ram: Ram, ws: seq<Write>, at: nat)
    requires k in m && Adjacent(ws, at) && k <= at && Along(m, k, tr)
    requires forall i :: 0 <= i < |ws| ==> m[k].vmarea.Has(ws[i].addr)
    ensures WriteAll(tr, ram, ws).ok
    ensures var p := m[k].pmarea.start + (at - k);
            Holds(WriteAll(tr, ram, ws).ram, p, AllBytes(ws)) && SameOutside(ram, WriteAll(tr, ram, ws).ram, p, |AllBytes(ws)|)
    decreases |ws|
  {
    if ws != [] {
      var p := m[k].pmarea.start + (at - k);
      assert tr(at) == Some(p);
      var mid := Put(ram, p, ws[0].data);
      WritesLand(m, k, tr, mid, ws[1..], at + |ws[0].data|);
      LandStep(ram, mid, WriteAll(tr, mid, ws[1..]).ram, p, ws[0].data, AllBytes(ws[1..]));
    }
  }

  /** tr translates the addresses of the mapping at k. */
  ghost predicate Along(m: Maps, k: nat, tr: Translation)
    requires k in m
  {
    forall v: nat {:trigger tr(v)} :: k <= v && m[k].vmarea.Has(v) ==> tr(v) == Some(m[k].pmarea.start + (v - k))
  }

  lemma AlongMap(m: Maps, k: nat)
    requires Wf(m) && k in m
    ensures Along(m, k, Through(m))
  {
    forall v: nat | k <= v && m[k].vmarea.Has(v) ensures Through(m)(v) == Some(m[k].pmarea.start + (v - k)) {
      assert Covers(m, k, v);
      MeaningAt(m, k, v);
    }
  }

  lemma LandStep(ram: Ram, mid: Ram, after: Ram, p: nat, first: seq<Byte>, rest: seq<Byte>)
    requires mid == Put(ram, p, first)
    requires Holds(after, p + |first|, rest) && SameOutside(mid, after, p + |first|, |rest|)
    ensures Holds(after, p, first + rest) && SameOutside(ram, after, p, |first + rest|)
  {
    var all := Load(after, p, |first + rest|);
    forall i | 0 <= i < |all| ensures all[i] == (first + rest)[i] {
      if i < |first| { assert after(p + i) == mid(p + i); }
      else { assert Load(after, p + |first|, |rest|)[i - |first|] == rest[i - |first|]; }
    }
  }

  // ----- the layout is contiguous ----------------------------------------------------

  ghost predicate StartsIn(ws: seq<Write>, low: nat, high: nat) {
    forall i :: 0 <= i < |ws| ==> low <= ws[i].addr < high
  }

  lemma {:induction false} PointersLie(ss: seq<Text>, at: nat, addr: nat)
    ensures Adjacent(PointerWrites(ss, at, addr), at) && |AllBytes(PointerWrites(ss, at, addr))| == |ss| * WORD
    ensures StartsIn(PointerWrites(ss, at, addr), at, at + ArraySize(ss))
  {
    if ss != [] { PointersLie(ss[1..], at + WORD, addr + |ss[0]| + 1); }
  }

  lemma ArrayLies(ss: seq<Text>, at: nat, addr: nat)
    ensures Fills(ArrayWrites(ss, at, addr), at, at + ArraySize(ss))
    ensures AllBytes(ArrayWrites(ss, at, addr)) == AllBytes(PointerWrites(ss, at, addr)) + Word(0)
  {
    PointersLie(ss, at, addr);
    var last := [Write(at + |ss| * WORD, Word(0))];
    assert last[1..] == [];
    assert AllBytes(last) == Word(0) + [];
    AdjacentConcat(PointerWrites(ss, at, addr), last, at);
  }

  lemma {:induction false} StringsLie(ss: seq<Text>, at: nat)
    ensures Fills(StringWrites(ss, at), at, at + StringsSize(ss))
  {
    if ss != [] {
      StringsLie(ss[1..], at + |ss[0]| + 1);
      var two := [Write(at, ss[0]), Write(at + |ss[0]|, [0])];
      StringPair(ss[0], at);
      AdjacentConcat(two, StringWrites(ss[1..], at + |ss[0]| + 1), at);
    }
  }

  lemma StringPair(s: Text, at: nat)
    ensures var two := [Write(at, s), Write(at + |s|, [0])]; Adjacent(two, at) && AllBytes(two) == s + [0]
  {
    var two := [Write(at, s), Write(at + |s|, [0])];
    assert two[1..] == [Write(at + |s|, [0])] && two[1..][1..] == [];
    assert AllBytes(two[1..]) == [0];
  }

  /** The bytes of the image. */
  function Image(argv: seq<Text>, envp: seq<Text>, sp: nat): seq<Byte> {
    var l := LayoutOf(argv, envp, sp);
    Word(|argv|)
    + (AllBytes(ArrayWrites(argv, l.argvAt, l.argvStrings))
       + (AllBytes(ArrayWrites(envp, l.envpAt, l.envpStrings))
          + (AllBytes(StringWrites(argv, l.argvStrings)) + AllBytes(StringWrites(envp, l.envpStrings)))))
  }

  /** Writes that fill [at, end) one after the other. */
  ghost predicate Fills(ws: seq<Write>, at: nat, end: nat) {
    Adjacent(ws, at) && at + |AllBytes(ws)| == end && StartsIn(ws, at, end)
  }

  lemma FillBoth(a: seq<Write>, b: seq<Write>, at: nat, mid: nat, end: nat)
    requires Fills(a, at, mid) && Fills(b, mid, end)
    ensures Fills(a + b, at, end) && AllBytes(a + b) == AllBytes(a) + AllBytes(b)
  {
    AdjacentConcat(a, b, at);
  }

  lemma FillFive(a: seq<Write>, b: seq<Write>, c: seq<Write>, d: seq<Write>, e: seq<Write>, p: nat, q: nat, r: nat, s: nat, t: nat, u: nat)
    requires Fills(a, p, q) && Fills(b, q, r) && Fills(c, r, s) && Fills(d, s, t) && Fills(e, t, u)
    ensures Fills(a + (b + (c + (d + e))), p, u)
    ensures AllBytes(a + (b + (c + (d + e)))) == AllBytes(a) + (AllBytes(b) + (AllBytes(c) + (AllBytes(d) + AllBytes(e))))
  {
    FillBoth(d, e, s, t, u);
    FillBoth(c, d + e, r, s, u);
    FillBoth(b, c + (d + e), q, r, u);
    FillBoth(a, b + (c + (d + e)), p, q, u);
  }

  lemma HeadFills(x: nat, sp: nat)
    ensures Fills([Write(sp, Word(x))], sp, sp + WORD) && AllBytes([Write(sp, Word(x))]) == Word(x)
  {
    var head := [Write(sp, Word(x))];
    assert head[1..] == [] && AllBytes(head) == Word(x) + [];
  }

  /** All writes lie one after the other from sp on and make up the image; so they are disjoint. */
  lemma ImageLies(argv: seq<Text>, envp: seq<Text>, sp: nat)
    ensures Fills(Writes(argv, envp, sp), sp, sp + TotalSize(argv, envp))
    ensures AllBytes(Writes(argv, envp, sp)) == Image(argv, envp, sp) && |Image(argv, envp, sp)| == TotalSize(argv, envp)
  {
    var l := LayoutOf(argv, envp, sp);
    HeadFills(|argv|, sp);
    ArrayLies(argv, l.argvAt, l.argvStrings);
    ArrayLies(envp, l.envpAt, l.envpStrings);
    StringsLie(argv, l.argvStrings);
    StringsLie(envp, l.envpStrings);
    FillFive([Write(sp, Word(|argv|))], ArrayWrites(argv, l.argvAt, l.argvStrings), ArrayWrites(envp, l.envpAt, l.envpStrings),
             StringWrites(argv, l.argvStrings), StringWrites(envp, l.envpStrings),
             sp, l.argvAt, l.envpAt, l.argvStrings, l.envpStrings, sp + TotalSize(argv, envp));
  }
}
