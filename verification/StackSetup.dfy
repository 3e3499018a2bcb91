/** The stack writer as the kernel runs it, and the kernel's own reader of string arrays. */
module StackSetup {
  import opened Base
  import opened Vmem
  import opened AddressSpace
  import opened VmManager
  import opened StackImage

  // ----- the writer ------------------------------------------------------------------

  /** write_to_stack_memory; nothing is written when the address does not translate. */
  method WriteToStack(vm: VirtualMemoryManager, ghost tr: Translation, ram: Ram, vaddr: nat, data: seq<Byte>) returns (r: Written)
    requires vm.Valid() && Follows(vm.memmap, tr)
    ensures r == WriteAll(tr, ram, [Write(vaddr, data)])
  {
    var p := vm.TranslateVaddr(vaddr);
    assert [Write(vaddr, data)][1..] == [];
    r := if p.None? then Written(ram, false) else Written(Put(ram, p.value, data), true);
  }

  /** The loop over the pointers of an array, and its null. */
  method WriteArray(vm: VirtualMemoryManager, ghost tr: Translation, ram: Ram, ss: seq<Text>, at: nat, addr: nat) returns (r: Written)
    requires vm.Valid() && Follows(vm.memmap, tr)
    ensures r == WriteAll(tr, ram, ArrayWrites(ss, at, addr))
  {
    var current: nat, stringAddr: nat, i: nat := at, addr, 0;
    var now := ram;
    ghost var all := WriteAll(tr, ram, ArrayWrites(ss, at, addr));
    ghost var rest := [Write(at + |ss| * WORD, Word(0))];
    assert ss[0..] == ss;
    while i < |ss|
      invariant i <= |ss| && current == at + i * WORD
      invariant all == WriteAll(tr, now, PointerWrites(ss[i..], current, stringAddr) + rest)
    {
      PointerStep(tr, now, ss, i, current, stringAddr, rest);
      var next := WriteToStack(vm, tr, now, current, Word(stringAddr));
      if !next.ok { return next; }
      now := next.ram;
      current := current + WORD;
      stringAddr := stringAddr + |ss[i]| + 1;
      i := i + 1;
    }
    assert PointerWrites(ss[i..], current, stringAddr) + rest == rest;
    r := WriteToStack(vm, tr, now, current, Word(0));
  }

  lemma PointerStep(tr: Translation, ram: Ram, ss: seq<Text>, i: nat, at: nat, addr: nat, rest: seq<Write>)
    requires i < |ss|
    ensures var w := [Write(at, Word(addr))];
            WriteAll(tr, ram, PointerWrites(ss[i..], at, addr) + rest) ==
            if !WriteAll(tr, ram, w).ok then WriteAll(tr, ram, w)
            else WriteAll(tr, WriteAll(tr, ram, w).ram, PointerWrites(ss[i + 1..], at + WORD, addr + |ss[i]| + 1) + rest)
  {
    assert ss[i..][1..] == ss[i + 1..];
    NextWrite(tr, ram, Write(at, Word(addr)), PointerWrites(ss[i + 1..], at + WORD, addr + |ss[i]| + 1), rest);
  }

  lemma NextWrite(tr: Translation, ram: Ram, w: Write, ws: seq<Write>, rest: seq<Write>)
    ensures WriteAll(tr, ram, ([w] + ws) + rest) ==
            if !WriteAll(tr, ram, [w]).ok then WriteAll(tr, ram, [w]) else WriteAll(tr, WriteAll(tr, ram, [w]).ram, ws + rest)
  {
    assert ([w] + ws) + rest == [w] + (ws + rest);
    WriteAllConcat(tr, ram, [w], ws + rest);
  }

  /** write_string_to_stack for each string. */
  method WriteStrings(vm: VirtualMemoryManager, ghost tr: Translation, ram: Ram, ss: seq<Text>, at: nat) returns (r: Written)
    requires vm.Valid() && Follows(vm.memmap, tr)
    ensures r == WriteAll(tr, ram, StringWrites(ss, at))
  {
    var current: nat, i: nat := at, 0;
    var now := ram;
    ghost var all := WriteAll(tr, ram, StringWrites(ss, at));
    assert ss[0..] == ss;
    while i < |ss|
      invariant i <= |ss|
      invariant all == WriteAll(tr, now, StringWrites(ss[i..], current))
    {
      StringStep(tr, now, ss, i, current);
      var next := WriteString(vm, tr, now, current, ss[i]);
      if !next.ok { return next; }
      now := next.ram;
      current := current + |ss[i]| + 1;
      i := i + 1;
    }
    r := Written(now, true);
  }

  lemma StringStep(tr: Translation, ram: Ram, ss: seq<Text>, i: nat, at: nat)
    requires i < |ss|
    ensures var two := [Write(at, ss[i]), Write(at + |ss[i]|, [0])];
            WriteAll(tr, ram, StringWrites(ss[i..], at)) ==
            if !WriteAll(tr, ram, two).ok then WriteAll(tr, ram, two)
            else WriteAll(tr, WriteAll(tr, ram, two).ram, StringWrites(ss[i + 1..], at + |ss[i]| + 1))
  {
    assert ss[i..][1..] == ss[i + 1..];
    WriteAllConcat(tr, ram, [Write(at, ss[i]), Write(at + |ss[i]|, [0])], StringWrites(ss[i + 1..], at + |ss[i]| + 1));
  }

  method WriteString(vm: VirtualMemoryManager, ghost tr: Translation, ram: Ram, vaddr: nat, s: Text) returns (r: Written)
    requires vm.Valid() && Follows(vm.memmap, tr)
    ensures r == WriteAll(tr, ram, [Write(vaddr, s), Write(vaddr + |s|, [0])])
  {
    assert [Write(vaddr, s), Write(vaddr + |s|, [0])] == [Write(vaddr, s)] + [Write(vaddr + |s|, [0])];
    WriteAllConcat(tr, ram, [Write(vaddr, s)], [Write(vaddr + |s|, [0])]);
    r := WriteToStack(vm, tr, ram, vaddr, s);
    if r.ok { r := WriteToStack(vm, tr, r.ram, vaddr + |s|, [0]); }
  }

  function NewSp(argv: seq<Text>, envp: seq<Text>, initialSp: nat): nat
    requires Align16(TotalSize(argv, envp)) <= initialSp
  {
    initialSp - Align16(TotalSize(argv, envp))
  }

  method WriteArrays(vm: VirtualMemoryManager, ghost tr: Translation, ram: Ram, argv: seq<Text>, envp: seq<Text>, l: Layout) returns (r: Written)
    requires vm.Valid() && Follows(vm.memmap, tr)
    ensures r == WriteAll(tr, ram, ArrayWrites(argv, l.argvAt, l.argvStrings) + ArrayWrites(envp, l.envpAt, l.envpStrings))
  {
    WriteAllConcat(tr, ram, ArrayWrites(argv, l.argvAt, l.argvStrings), ArrayWrites(envp, l.envpAt, l.envpStrings));
    r := WriteArray(vm, tr, ram, argv, l.argvAt, l.argvStrings);
    if r.ok { r := WriteArray(vm, tr, r.ram, envp, l.envpAt, l.envpStrings); }
  }

  method WriteTexts(vm: VirtualMemoryManager, ghost tr: Translation, ram: Ram, argv: seq<Text>, envp: seq<Text>, l: Layout) returns (r: Written)
    requires vm.Valid() && Follows(vm.memmap, tr)
    ensures r == WriteAll(tr, ram, StringWrites(argv, l.argvStrings) + StringWrites(envp, l.envpStrings))
  {
    WriteAllConcat(tr, ram, StringWrites(argv, l.argvStrings), StringWrites(envp, l.envpStrings));
    r := WriteStrings(vm, tr, ram, argv, l.argvStrings);
    if r.ok { r := WriteStrings(vm, tr, r.ram, envp, l.envpStrings); }
  }

  lemma Grouped(tr: Translation, ram: Ram, a: seq<Write>, b: seq<Write>, c: seq<Write>, d: seq<Write>, e: seq<Write>)
    ensures WriteAll(tr, ram, a + (b + (c + (d + e)))) ==
            if !WriteAll(tr, ram, a).ok then WriteAll(tr, ram, a) else WriteAll(tr, WriteAll(tr, ram, a).ram, (b + c) + (d + e))
  {
    assert b + (c + (d + e)) == (b + c) + (d + e);
    WriteAllConcat(tr, ram, a, (b + c) + (d + e));
  }

  /** All parts, from sp on. */
  method WriteImage(vm: VirtualMemoryManager, ghost tr: Translation, ram: Ram, argv: seq<Text>, envp: seq<Text>, sp: nat) returns (r: Written)
    requires vm.Valid() && Follows(vm.memmap, tr)
    ensures r == WriteAll(tr, ram, Writes(argv, envp, sp))
  {
    var l := LayoutOf(argv, envp, sp);
    ghost var b, c := ArrayWrites(argv, l.argvAt, l.argvStrings), ArrayWrites(envp, l.envpAt, l.envpStrings);
    ghost var d, e := StringWrites(argv, l.argvStrings), StringWrites(envp, l.envpStrings);
    Grouped(tr, ram, [Write(sp, Word(|argv|))], b, c, d, e);
    var step := WriteToStack(vm, tr, ram, sp, Word(|argv|));
    if !step.ok { return step; }
    WriteAllConcat(tr, step.ram, b + c, d + e);
    step := WriteArrays(vm, tr, step.ram, argv, envp, l);
    if !step.ok { return step; }
    r := WriteTexts(vm, tr, step.ram, argv, envp, l);
  }

  /** setup_arguments_on_stack: answers the new stack pointer and the address of argv, or nothing when a
      stack address does not translate; the writes before that address stay in memory. */
  method SetupArguments(vm: VirtualMemoryManager, ghost tr: Translation, ram: Ram, argv: seq<Text>, envp: seq<Text>, initialSp: nat)
    returns (r: Option<(nat, nat)>, after: Ram)
    requires vm.Valid() && Follows(vm.memmap, tr) && Align16(TotalSize(argv, envp)) <= initialSp
    ensures WriteAll(tr, ram, Writes(argv, envp, NewSp(argv, envp, initialSp))) == Written(after, r.Some?)
    ensures r.Some? ==> r.value == (NewSp(argv, envp, initialSp), NewSp(argv, envp, initialSp) + WORD)
  {
    var total := WORD + ArraySize(argv) + ArraySize(envp) + StringsSize(argv) + StringsSize(envp);
    var sp := initialSp - Align16(total);
    var written := WriteImage(vm, tr, ram, argv, envp, sp);
    return if written.ok then Some((sp, sp + WORD)) else None, written.ram;
  }

  // ----- where the image goes --------------------------------------------------------

  /** One mapping holds the whole stack area below initialSp that the image needs. */
  ghost predicate OneStack(m: Maps, k: nat, low: nat, high: nat) {
    Wf(m) && k in m && k <= low < high && high - 1 <= m[k].vmarea.end
  }

  lemma SpAligned(total: nat, initialSp: nat)
    requires Align16(total) <= initialSp
    ensures var sp := initialSp - Align16(total);
            sp + total <= initialSp < sp + total + 16 && (initialSp % 16 == 0 ==> sp % 16 == 0)
  {
  }

  lemma ImageLands(m: Maps, k: nat, tr: Translation, ram: Ram, argv: seq<Text>, envp: seq<Text>, sp: nat)
    requires OneStack(m, k, sp, sp + TotalSize(argv, envp)) && Along(m, k, tr)
    ensures var p := m[k].pmarea.start + (sp - k);
            var after := WriteAll(tr, ram, Writes(argv, envp, sp));
            after.ok && Holds(after.ram, p, Image(argv, envp, sp)) && SameOutside(ram, after.ram, p, TotalSize(argv, envp))
  {
    ImageLies(argv, envp, sp);
    WithinStack(m, k, Writes(argv, envp, sp), sp, sp + TotalSize(argv, envp));
    WritesLand(m, k, tr, ram, Writes(argv, envp, sp), sp);
  }

  lemma WithinStack(m: Maps, k: nat, ws: seq<Write>, low: nat, high: nat)
    requires OneStack(m, k, low, high) && StartsIn(ws, low, high)
    ensures forall i :: 0 <= i < |ws| ==> m[k].vmarea.Has(ws[i].addr)
  {
  }

  /** In one contiguous stack mapping the set-up succeeds, the bytes in memory are the image, everything
      outside the bytes of [sp, initialSp) is unchanged, and sp is 16-byte aligned if initialSp is. */
  lemma ImageInMemory(m: Maps, k: nat, ram: Ram, argv: seq<Text>, envp: seq<Text>, sp: nat, initialSp: nat)
    requires Align16(TotalSize(argv, envp)) <= initialSp && sp == NewSp(argv, envp, initialSp)
    requires OneStack(m, k, sp, initialSp)
    ensures WriteAll(Through(m), ram, Writes(argv, envp, sp)).ok
    ensures var p := m[k].pmarea.start + (sp - k);
            var after := WriteAll(Through(m), ram, Writes(argv, envp, sp)).ram;
            Holds(after, p, Image(argv, envp, sp)) && SameOutside(ram, after, p, TotalSize(argv, envp))
    ensures sp + TotalSize(argv, envp) <= initialSp < sp + TotalSize(argv, envp) + 16
    ensures initialSp % 16 == 0 ==> sp % 16 == 0
  {
    SpAligned(TotalSize(argv, envp), initialSp);
    AlongMap(m, k);
    ImageLands(m, k, Through(m), ram, argv, envp, sp);
  }
}
