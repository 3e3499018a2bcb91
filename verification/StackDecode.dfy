/** Reading string arrays back from user memory, and the round trip of the stack image. */
module StackDecode {
  import opened Base
  import opened Vmem
  import opened AddressSpace
  import opened VmManager
  import opened StackImage
  import opened StackSetup

  /** The errors that occur: an overlong string is cut off, not refused. */
  datatype ParseError = NullPointer | TranslationError | TooManyStrings | Utf8Error

  type Utf8 = Text -> bool   // whether bytes are valid UTF-8

  // ----- the reader ------------------------------------------------------------------

  /** The bytes up to a NUL, at most max of them. */
  function CString(ram: Ram, p: nat, max: nat): Text
    decreases max
  {
    if max == 0 || ram(p) == 0 then [] else [ram(p)] + CString(ram, p + 1, max - 1)
  }

  /** cstring_to_string on physical memory. */
  function StringAt(utf8: Utf8, ram: Ram, p: nat, max: nat): Result<Text, ParseError> {
    if p == 0 then Err(NullPointer)
    else if max == 0 then Ok([])
    else if utf8(CString(ram, p, max)) then Ok(CString(ram, p, max))
    else Err(Utf8Error)
  }

  function WordAt(ram: Ram, p: nat): nat { Value(Load(ram, p, WORD)) }

  /** parse_c_string_from_userspace. */
  function ParseString(tr: Translation, utf8: Utf8, ram: Ram, ptr: nat, max: nat): Result<Text, ParseError> {
    if ptr == 0 then Err(NullPointer)
    else match tr(ptr)
      case None => Err(TranslationError)
      case Some(p) => StringAt(utf8, ram, p, max)
  }

  /** The loop of parse_string_array_from_userspace, with count strings already read. */
  function ParseFrom(tr: Translation, utf8: Utf8, ram: Ram, p: nat, count: nat, maxStrings: nat, max: nat): Result<seq<Text>, ParseError>
    requires count <= maxStrings
    decreases maxStrings - count
  {
    var ptr := WordAt(ram, p);
    if ptr == 0 then Ok([])
    else match ParseString(tr, utf8, ram, ptr, max)
      case Err(e) => Err(e)
      case Ok(s) =>
        if count + 1 > maxStrings then Err(TooManyStrings)
        else match ParseFrom(tr, utf8, ram, p + WORD, count + 1, maxStrings, max)
          case Err(e) => Err(e)
          case Ok(rest) => Ok([s] + rest)
  }

  function ParseArray(tr: Translation, utf8: Utf8, ram: Ram, ptr: nat, maxStrings: nat, max: nat): Result<seq<Text>, ParseError> {
    if ptr == 0 then Ok([])
    else match tr(ptr)
      case None => Err(TranslationError)
      case Some(p) => ParseFrom(tr, utf8, ram, p, 0, maxStrings, max)
  }

  method CStringToString(utf8: Utf8, ram: Ram, p: nat, max: nat) returns (r: Result<Text, ParseError>)
    ensures r == StringAt(utf8, ram, p, max)
  {
    if p == 0 { return Err(NullPointer); }
    if max == 0 { return Ok([]); }
    var s: Text := [];
    while |s| < max && ram(p + |s|) != 0
      invariant |s| <= max
      invariant s + CString(ram, p + |s|, max - |s|) == CString(ram, p, max)
      decreases max - |s|
    {
      s := s + [ram(p + |s|)];
    }
    assert s + [] == s;
    r := if utf8(s) then Ok(s) else Err(Utf8Error);
  }

  method ParseStringArray(vm: VirtualMemoryManager, ghost tr: Translation, utf8: Utf8, ram: Ram, ptr: nat, maxStrings: nat, max: nat)
    returns (r: Result<seq<Text>, ParseError>)
    requires vm.Valid() && Follows(vm.memmap, tr)
    ensures r == ParseArray(tr, utf8, ram, ptr, maxStrings, max)
  {
    if ptr == 0 { return Ok([]); }
    var base := vm.TranslateVaddr(ptr);
    assert tr(ptr) == base;
    if base.None? { return Err(TranslationError); }
    r := ParseLoop(vm, tr, utf8, ram, base.value, maxStrings, max);
  }

  /** Strings before those a result brings. */
  function Before(strings: seq<Text>, r: Result<seq<Text>, ParseError>): Result<seq<Text>, ParseError> {
    if r.Ok? then Ok(strings + r.value) else r
  }

  lemma BeforeIs(strings: seq<Text>, s: Text, r: Result<seq<Text>, ParseError>)
    ensures Before([], r) == r
    ensures Before(strings + [s], r) == Before(strings, Before([s], r))
    ensures Before(strings, Ok([])) == Ok(strings)
  {
    if r.Ok? {
      assert [] + r.value == r.value;
      assert (strings + [s]) + r.value == strings + ([s] + r.value);
    }
    assert strings + [] == strings;
  }

  method ParseLoop(vm: VirtualMemoryManager, ghost tr: Translation, utf8: Utf8, ram: Ram, base: nat, maxStrings: nat, max: nat)
    returns (r: Result<seq<Text>, ParseError>)
    requires vm.Valid() && Follows(vm.memmap, tr)
    ensures r == ParseFrom(tr, utf8, ram, base, 0, maxStrings, max)
  {
    var strings: seq<Text> := [];
    var ptr := WordAt(ram, base);
    ghost var all := ParseFrom(tr, utf8, ram, base, 0, maxStrings, max);
    BeforeIs(strings, [], all);
    while ptr != 0
      invariant |strings| <= maxStrings && ptr == WordAt(ram, base + |strings| * WORD)
      invariant all == Before(strings, ParseFrom(tr, utf8, ram, base + |strings| * WORD, |strings|, maxStrings, max))
      decreases maxStrings - |strings|, ptr
    {
      var s := ParseCString(vm, tr, utf8, ram, ptr, max);
      if s.Err? { return Err(s.error); }
      if |strings| + 1 > maxStrings { return Err(TooManyStrings); }
      BeforeIs(strings, s.value, ParseFrom(tr, utf8, ram, base + |strings| * WORD + WORD, |strings| + 1, maxStrings, max));
      strings := strings + [s.value];
      ptr := WordAt(ram, base + |strings| * WORD);
    }
    BeforeIs(strings, [], Ok([]));
    r := Ok(strings);
  }

  method ParseCString(vm: VirtualMemoryManager, ghost tr: Translation, utf8: Utf8, ram: Ram, ptr: nat, max: nat)
    returns (r: Result<Text, ParseError>)
    requires vm.Valid() && Follows(vm.memmap, tr)
    ensures r == ParseString(tr, utf8, ram, ptr, max)
  {
    if ptr == 0 { return Err(NullPointer); }
    var p := vm.TranslateVaddr(ptr);
    assert tr(ptr) == p;
    if p.None? { return Err(TranslationError); }
    r := CStringToString(utf8, ram, p.value, max);
  }

  // ----- reading what was written ----------------------------------------------------

  predicate NulFree(s: Text) { forall i :: 0 <= i < |s| ==> s[i] != 0 }

  ghost predicate AllNulFree(ss: seq<Text>) { forall i :: 0 <= i < |ss| ==> NulFree(ss[i]) }

  function Prefix(s: Text, max: nat): Text { if |s| <= max then s else s[..max] }

  /** What the reader answers for an array of these strings, count of them already read: each is cut to the
      limit and must then be valid UTF-8. */
  function Answer(utf8: Utf8, ss: seq<Text>, count: nat, maxStrings: nat, max: nat): Result<seq<Text>, ParseError>
    requires count <= maxStrings
    decreases |ss|
  {
    if ss == [] then Ok([])
    else if max > 0 && !utf8(Prefix(ss[0], max)) then Err(Utf8Error)
    else if count + 1 > maxStrings then Err(TooManyStrings)
    else Before([Prefix(ss[0], max)], Answer(utf8, ss[1..], count + 1, maxStrings, max))
  }

  /** The strings, each cut to at most max bytes. */
  function Prefixes(ss: seq<Text>, max: nat): seq<Text> {
    if ss == [] then [] else [Prefix(ss[0], max)] + Prefixes(ss[1..], max)
  }

  lemma HoldsSplit(ram: Ram, p: nat, a: seq<Byte>, b: seq<Byte>)
    requires Holds(ram, p, a + b)
    ensures Holds(ram, p, a) && Holds(ram, p + |a|, b)
  {
    var all := Load(ram, p, |a + b|);
    assert Load(ram, p, |a|) == all[..|a|];
    assert Load(ram, p + |a|, |b|) == all[|a|..];
  }

  lemma WordReads(ram: Ram, p: nat, x: nat)
    requires x < ADDRESS_LIMIT && Holds(ram, p, Word(x))
    ensures WordAt(ram, p) == x
  {
    WordRoundTrip(x);
  }

  /** The first byte of a terminated string, and the rest. */
  lemma TerminatedHead(ram: Ram, p: nat, s: Text)
    requires Holds(ram, p, s + [0])
    ensures ram(p) == if s == [] then 0 else s[0]
    ensures s != [] ==> Holds(ram, p + 1, s[1..] + [0])
  {
    assert ram(p) == Load(ram, p, |s| + 1)[0] == (s + [0])[0];
    if s != [] {
      assert s + [0] == [s[0]] + (s[1..] + [0]);
      HoldsSplit(ram, p, [s[0]], s[1..] + [0]);
    }
  }

  lemma {:induction false} StringReads(ram: Ram, p: nat, s: Text, max: nat)
    requires NulFree(s) && Holds(ram, p, s + [0])
    ensures CString(ram, p, max) == Prefix(s, max)
    decreases max
  {
    TerminatedHead(ram, p, s);
    if max > 0 && s != [] {
      StringReads(ram, p + 1, s[1..], max - 1);
      assert Prefix(s, max) == [s[0]] + Prefix(s[1..], max - 1);
    }
  }

  /** Virtual addresses [addr, addr + size) lie at p in physical memory. */
  ghost predicate Contiguous(tr: Translation, addr: nat, size: nat, p: nat) {
    forall v: nat {:trigger tr(v)} :: addr <= v < addr + size ==> tr(v) == Some(p + (v - addr))
  }

  lemma PointerBytes(ss: seq<Text>, at: nat, addr: nat)
    requires ss != []
    ensures AllBytes(PointerWrites(ss, at, addr)) + Word(0) ==
            Word(addr) + (AllBytes(PointerWrites(ss[1..], at + WORD, addr + |ss[0]| + 1)) + Word(0))
  {
    var ws := PointerWrites(ss, at, addr);
    assert ws[1..] == PointerWrites(ss[1..], at + WORD, addr + |ss[0]| + 1);
  }

  /** The first pointer of an array. */
  lemma PointerHead(ram: Ram, ss: seq<Text>, at: nat, addr: nat, table: nat)
    requires ss != [] && addr < ADDRESS_LIMIT && Holds(ram, table, AllBytes(PointerWrites(ss, at, addr)) + Word(0))
    ensures WordAt(ram, table) == addr
    ensures Holds(ram, table + WORD, AllBytes(PointerWrites(ss[1..], at + WORD, addr + |ss[0]| + 1)) + Word(0))
  {
    PointerBytes(ss, at, addr);
    HoldsSplit(ram, table, Word(addr), AllBytes(PointerWrites(ss[1..], at + WORD, addr + |ss[0]| + 1)) + Word(0));
    WordReads(ram, table, addr);
  }

  /** The first string. */
  lemma StringHead(ram: Ram, ss: seq<Text>, addr: nat, p: nat, max: nat)
    requires ss != [] && NulFree(ss[0]) && Holds(ram, p, AllBytes(StringWrites(ss, addr)))
    ensures CString(ram, p, max) == Prefix(ss[0], max)
    ensures Holds(ram, p + |ss[0]| + 1, AllBytes(StringWrites(ss[1..], addr + |ss[0]| + 1)))
  {
    StringBytes(ss, addr);
    HoldsSplit(ram, p, ss[0] + [0], AllBytes(StringWrites(ss[1..], addr + |ss[0]| + 1)));
    StringReads(ram, p, ss[0], max);
  }

  lemma ContiguousNext(tr: Translation, ss: seq<Text>, addr: nat, p: nat)
    requires ss != [] && Contiguous(tr, addr, StringsSize(ss), p)
    ensures tr(addr) == Some(p) && Contiguous(tr, addr + |ss[0]| + 1, StringsSize(ss[1..]), p + |ss[0]| + 1)
  {
  }

  lemma StringBytes(ss: seq<Text>, addr: nat)
    requires ss != []
    ensures AllBytes(StringWrites(ss, addr)) == (ss[0] + [0]) + AllBytes(StringWrites(ss[1..], addr + |ss[0]| + 1))
  {
    StringPair(ss[0], addr);
    StringsLie(ss[1..], addr + |ss[0]| + 1);
    AdjacentConcat([Write(addr, ss[0]), Write(addr + |ss[0]|, [0])], StringWrites(ss[1..], addr + |ss[0]| + 1), addr);
  }

  /** With valid strings the reader gives all of them back, cut to the limit, and refuses exactly an array
      of more strings than allowed. */
  lemma {:induction false} AnswerIs(utf8: Utf8, ss: seq<Text>, count: nat, maxStrings: nat, max: nat)
    requires count <= maxStrings && forall i :: 0 <= i < |ss| ==> utf8(Prefix(ss[i], max))
    ensures Answer(utf8, ss, count, maxStrings, max) ==
            if count + |ss| <= maxStrings then Ok(Prefixes(ss, max)) else Err(TooManyStrings)
    decreases |ss|
  {
    if ss != [] && count + 1 <= maxStrings {
      assert forall i :: 0 <= i < |ss[1..]| ==> ss[1..][i] == ss[i + 1];
      AnswerIs(utf8, ss[1..], count + 1, maxStrings, max);
    }
  }

  /** The kernel's reader, on an array and strings as the writer lays them out, answers as Answer says. */
  lemma {:induction false} ArrayReads(tr: Translation, utf8: Utf8, ram: Ram, ss: seq<Text>, at: nat, addr: nat, table: nat, p: nat,
                                      count: nat, maxStrings: nat, max: nat)
    requires AllNulFree(ss) && 0 < addr && 0 < p && addr + StringsSize(ss) <= ADDRESS_LIMIT && count <= maxStrings
    requires Contiguous(tr, addr, StringsSize(ss), p)
    requires Holds(ram, table, AllBytes(PointerWrites(ss, at, addr)) + Word(0)) && Holds(ram, p, AllBytes(StringWrites(ss, addr)))
    ensures ParseFrom(tr, utf8, ram, table, count, maxStrings, max) ==
            Answer(utf8, ss, count, maxStrings, max)
    decreases |ss|
  {
    if ss == [] {
      assert AllBytes(PointerWrites(ss, at, addr)) + Word(0) == Word(0);
      WordReads(ram, table, 0);
    } else {
      PointerHead(ram, ss, at, addr, table);
      StringHead(ram, ss, addr, p, max);
      ContiguousNext(tr, ss, addr, p);
      if count + 1 <= maxStrings {
        ArrayReads(tr, utf8, ram, ss[1..], at + WORD, addr + |ss[0]| + 1, table + WORD, p + |ss[0]| + 1, count + 1, maxStrings, max);
      }
    }
  }

  // ----- the round trip --------------------------------------------------------------

  /** The five parts of the image in memory. */
  lemma ImageParts(ram: Ram, p: nat, argv: seq<Text>, envp: seq<Text>, sp: nat)
    requires Holds(ram, p, Image(argv, envp, sp))
    ensures var l := LayoutOf(argv, envp, sp);
            && Holds(ram, p, Word(|argv|))
            && Holds(ram, p + (l.argvAt - sp), AllBytes(ArrayWrites(argv, l.argvAt, l.argvStrings)))
            && Holds(ram, p + (l.envpAt - sp), AllBytes(ArrayWrites(envp, l.envpAt, l.envpStrings)))
            && Holds(ram, p + (l.argvStrings - sp), AllBytes(StringWrites(argv, l.argvStrings)))
            && Holds(ram, p + (l.envpStrings - sp), AllBytes(StringWrites(envp, l.envpStrings)))
  {
    var l := LayoutOf(argv, envp, sp);
    var a, e := AllBytes(ArrayWrites(argv, l.argvAt, l.argvStrings)), AllBytes(ArrayWrites(envp, l.envpAt, l.envpStrings));
    var s, t := AllBytes(StringWrites(argv, l.argvStrings)), AllBytes(StringWrites(envp, l.envpStrings));
    ArrayLies(argv, l.argvAt, l.argvStrings);
    ArrayLies(envp, l.envpAt, l.envpStrings);
    StringsLie(argv, l.argvStrings);
    SplitFive(ram, p, Word(|argv|), a, e, s, t);
  }

  lemma SplitFive(ram: Ram, p: nat, w: seq<Byte>, a: seq<Byte>, e: seq<Byte>, s: seq<Byte>, t: seq<Byte>)
    requires Holds(ram, p, w + (a + (e + (s + t))))
    ensures Holds(ram, p, w) && Holds(ram, p + |w|, a) && Holds(ram, p + |w| + |a|, e)
    ensures Holds(ram, p + |w| + |a| + |e|, s) && Holds(ram, p + |w| + |a| + |e| + |s|, t)
  {
    HoldsSplit(ram, p, w, a + (e + (s + t)));
    HoldsSplit(ram, p + |w|, a, e + (s + t));
    HoldsSplit(ram, p + |w| + |a|, e, s + t);
    HoldsSplit(ram, p + |w| + |a| + |e|, s, t);
  }

  lemma ContiguousPart(tr: Translation, a: nat, size: nat, p: nat, b: nat, n: nat)
    requires Contiguous(tr, a, size, p) && a <= b && b + n <= a + size
    ensures Contiguous(tr, b, n, p + (b - a))
    ensures n > 0 ==> tr(b) == Some(p + (b - a))
  {
  }

  /** One of the two arrays of the image, inside a stack mapped in one piece: read at address at with its
      strings from addr on. */
  lemma ArrayOfImage(tr: Translation, utf8: Utf8, ram: Ram, ss: seq<Text>, at: nat, addr: nat, sp: nat, size: nat, p: nat, maxStrings: nat, max: nat)
    requires AllNulFree(ss) && sp < at < addr && addr + StringsSize(ss) <= sp + size <= ADDRESS_LIMIT
    requires Contiguous(tr, sp, size, p)
    requires Holds(ram, p + (at - sp), AllBytes(ArrayWrites(ss, at, addr))) && Holds(ram, p + (addr - sp), AllBytes(StringWrites(ss, addr)))
    ensures ParseArray(tr, utf8, ram, at, maxStrings, max) == Answer(utf8, ss, 0, maxStrings, max)
  {
    ContiguousPart(tr, sp, size, p, at, 1);
    ContiguousPart(tr, sp, size, p, addr, StringsSize(ss));
    ArrayLies(ss, at, addr);
    ArrayReads(tr, utf8, ram, ss, at, addr, p + (at - sp), p + (addr - sp), 0, maxStrings, max);
  }

  lemma ArgvParsed(tr: Translation, utf8: Utf8, ram: Ram, argv: seq<Text>, envp: seq<Text>, sp: nat, p: nat, maxStrings: nat, max: nat)
    requires Contiguous(tr, sp, TotalSize(argv, envp), p) && sp + TotalSize(argv, envp) <= ADDRESS_LIMIT
    requires Holds(ram, p, Image(argv, envp, sp)) && AllNulFree(argv)
    ensures WordAt(ram, p) == |argv|
    ensures ParseArray(tr, utf8, ram, sp + WORD, maxStrings, max) == Answer(utf8, argv, 0, maxStrings, max)
  {
    var l := LayoutOf(argv, envp, sp);
    ImageParts(ram, p, argv, envp, sp);
    WordReads(ram, p, |argv|);
    ArrayOfImage(tr, utf8, ram, argv, l.argvAt, l.argvStrings, sp, TotalSize(argv, envp), p, maxStrings, max);
  }

  lemma EnvpParsed(tr: Translation, utf8: Utf8, ram: Ram, argv: seq<Text>, envp: seq<Text>, sp: nat, p: nat, maxStrings: nat, max: nat)
    requires Contiguous(tr, sp, TotalSize(argv, envp), p) && sp + TotalSize(argv, envp) <= ADDRESS_LIMIT
    requires Holds(ram, p, Image(argv, envp, sp)) && AllNulFree(envp)
    ensures ParseArray(tr, utf8, ram, sp + WORD + ArraySize(argv), maxStrings, max) == Answer(utf8, envp, 0, maxStrings, max)
  {
    var l := LayoutOf(argv, envp, sp);
    ImageParts(ram, p, argv, envp, sp);
    ArrayOfImage(tr, utf8, ram, envp, l.envpAt, l.envpStrings, sp, TotalSize(argv, envp), p, maxStrings, max);
  }

  lemma StackContiguous(m: Maps, k: nat, tr: Translation, sp: nat, size: nat)
    requires OneStack(m, k, sp, sp + size) && Along(m, k, tr)
    ensures Contiguous(tr, sp, size, m[k].pmarea.start + (sp - k)) && sp + size <= ADDRESS_LIMIT
  {
    assert MapWf(m[k]);
  }

  lemma ReadsBackThrough(m: Maps, k: nat, tr: Translation, utf8: Utf8, ram: Ram, after: Ram, argv: seq<Text>, envp: seq<Text>, sp: nat,
                         maxStrings: nat, max: nat)
    requires OneStack(m, k, sp, sp + TotalSize(argv, envp)) && Along(m, k, tr) && AllNulFree(argv) && AllNulFree(envp)
    requires WriteAll(tr, ram, Writes(argv, envp, sp)) == Written(after, true)
    ensures WordAt(after, m[k].pmarea.start + (sp - k)) == |argv|
    ensures ParseArray(tr, utf8, after, sp + WORD, maxStrings, max) == Answer(utf8, argv, 0, maxStrings, max)
    ensures ParseArray(tr, utf8, after, sp + WORD + ArraySize(argv), maxStrings, max) == Answer(utf8, envp, 0, maxStrings, max)
  {
    ImageLands(m, k, tr, ram, argv, envp, sp);
    StackContiguous(m, k, tr, sp, TotalSize(argv, envp));
    var p := m[k].pmarea.start + (sp - k);
    ArgvParsed(tr, utf8, after, argv, envp, sp, p, maxStrings, max);
    EnvpParsed(tr, utf8, after, argv, envp, sp, p, maxStrings, max);
  }

  /** The stack image reads back: in a stack mapped in one piece, the word at the new stack pointer is
      argc, and the kernel's own reader, given the returned argv pointer or the address after argv's null,
      gives back every argument and every environment string. */
  lemma ImageReadsBack(m: Maps, k: nat, utf8: Utf8, ram: Ram, after: Ram, argv: seq<Text>, envp: seq<Text>, sp: nat, initialSp: nat,
                       maxStrings: nat, max: nat)
    requires Align16(TotalSize(argv, envp)) <= initialSp && sp == NewSp(argv, envp, initialSp)
    requires OneStack(m, k, sp, initialSp) && AllNulFree(argv) && AllNulFree(envp)
    requires WriteAll(Through(m), ram, Writes(argv, envp, sp)) == Written(after, true)
    ensures WordAt(after, m[k].pmarea.start + (sp - k)) == |argv|
    ensures ParseArray(Through(m), utf8, after, sp + WORD, maxStrings, max) == Answer(utf8, argv, 0, maxStrings, max)
    ensures ParseArray(Through(m), utf8, after, sp + WORD + ArraySize(argv), maxStrings, max) == Answer(utf8, envp, 0, maxStrings, max)
  {
    SpAligned(TotalSize(argv, envp), initialSp);
    AlongMap(m, k);
    ReadsBackThrough(m, k, Through(m), utf8, ram, after, argv, envp, sp, maxStrings, max);
  }

  /** Within the limits the strings come back unchanged. */
  lemma {:induction false} PrefixesAll(ss: seq<Text>, max: nat)
    requires forall i :: 0 <= i < |ss| ==> |ss[i]| <= max
    ensures Prefixes(ss, max) == ss
  {
    if ss != [] { PrefixesAll(ss[1..], max); }
  }
}
