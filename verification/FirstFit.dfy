/** find_unmapped_area: first fit above the mmap base. */
module FirstFit {
  import opened Vmem
  import opened AddressSpace
  import opened Coalesce

  const MAX_USER_ADDR: nat := 0x8000_0000

  // ----- rounding with a bit mask --------------------------------------------------

  /** x & !y, bit by bit. */
  function AndNot(x: nat, y: nat): nat {
    if x == 0 then 0 else (if x % 2 == 1 && y % 2 == 0 then 1 else 0) + 2 * AndNot(x / 2, y / 2)
  }

  function Pow2(k: nat): (r: nat)
    ensures r > 0
  {
    if k == 0 then 1 else 2 * Pow2(k - 1)
  }

  ghost predicate IsPowerOfTwo(a: nat) { exists k :: a == Pow2(k) }

  /** (x + a - 1) & !(a - 1) */
  function AlignUp(x: nat, a: nat): nat
    requires a > 0
  {
    AndNot(x + a - 1, a - 1)
  }

  lemma {:induction false} MaskClears(x: nat, k: nat)
    ensures AndNot(x, Pow2(k) - 1) == x - x % Pow2(k)
    decreases k, x
  {
    if k == 0 {
      MaskNothing(x);
    } else if x > 0 {
      var p := Pow2(k - 1);
      MaskClears(x / 2, k - 1);
      HalfMod(x, p);
      OddMask(p, Pow2(k));
      MaskLowBit(x, Pow2(k) - 1, x / 2, p - 1, x / 2 % p, x % Pow2(k));
    } else {
      ModUnique(0, Pow2(k), 0, 0);
    }
  }

  /** One step of the mask with its products named: y masks the low bit, h and z are the halves of x and y,
      r and q the remainders of h and x. */
  lemma MaskLowBit(x: nat, y: nat, h: nat, z: nat, r: nat, q: nat)
    requires x > 0 && h == x / 2 && z == y / 2 && y % 2 == 1
    requires r <= h && AndNot(h, z) == h - r && q == 2 * r + x % 2
    ensures AndNot(x, y) == x - q
  {
  }

  lemma OddMask(p: nat, d: nat)
    requires p > 0 && d == p + p
    ensures (d - 1) / 2 == p - 1 && (d - 1) % 2 == 1
  {
  }

  lemma {:induction false} MaskNothing(x: nat)
    ensures AndNot(x, 0) == x
  {
    if x > 0 { MaskNothing(x / 2); }
  }

  // ----- products and remainders ---------------------------------------------------

  lemma MulGe(n: int, d: nat)
    requires n >= 1
    ensures n * d >= d
  {
    assert n * d == (n - 1) * d + d;
  }

  lemma MulLess(q: int, q1: int, d: nat)
    requires q > q1
    ensures q * d >= q1 * d + d
  {
    MulGe(q - q1, d);
    assert (q - q1) * d == q * d - q1 * d;
  }

  lemma QuotientLe(q: nat, r: nat, q1: nat, r1: nat, d: nat)
    requires q * d + r == q1 * d + r1 && r < d && r1 < d
    ensures q <= q1
  {
    if q > q1 { MulLess(q, q1, d); }
  }

  lemma ModUnique(x: nat, d: nat, q: nat, r: nat)
    requires d > 0 && x == q * d + r && r < d
    ensures x % d == r && x / d == q
  {
    assert x == x / d * d + x % d;
    QuotientLe(q, r, x / d, x % d, d);
    QuotientLe(x / d, x % d, q, r, d);
  }

  /** Halving commutes with remainders of even moduli. */
  lemma HalfMod(x: nat, p: nat)
    requires p > 0
    ensures x % (2 * p) == 2 * (x / 2 % p) + x % 2
  {
    var q, r := x / 2 / p, x / 2 % p;
    assert x / 2 == q * p + r;
    assert q * (2 * p) == 2 * (q * p);
    ModUnique(x, 2 * p, q, 2 * r + x % 2);
  }

  predicate AlignedTo(x: nat, a: nat)
    requires a > 0
  {
    x % a == 0
  }

  lemma Floor(y: nat, a: nat)
    requires a > 0
    ensures AlignedTo(y - y % a, a) && y - y % a <= y < y - y % a + a
  {
    assert y == y / a * a + y % a;
    ModUnique(y - y % a, a, y / a, 0);
  }

  lemma FloorLeast(y: nat, a: nat, b: nat)
    requires a > 0 && AlignedTo(b, a) && b + a > y
    ensures y - y % a <= b
  {
    assert y == y / a * a + y % a && b == b / a * a;
    if b / a < y / a {
      MulLess(y / a, b / a, a);
    } else if b / a > y / a {
      MulLess(b / a, y / a, a);
    }
  }

  /** For a power of two the mask rounds up to the least multiple. */
  lemma AlignUpIs(x: nat, a: nat)
    requires a > 0 && IsPowerOfTwo(a)
    ensures AlignedTo(AlignUp(x, a), a) && x <= AlignUp(x, a) < x + a
    ensures forall b: nat :: AlignedTo(b, a) && x <= b ==> AlignUp(x, a) <= b
  {
    var k :| a == Pow2(k);
    MaskClears(x + a - 1, k);
    LeastMultiple(x, a, x + a - 1, AlignUp(x, a));
  }

  lemma LeastMultiple(x: nat, a: nat, y: nat, f: nat)
    requires a > 0 && y == x + a - 1 && f == y - y % a
    ensures AlignedTo(f, a) && x <= f < x + a
    ensures forall b: nat :: AlignedTo(b, a) && x <= b ==> f <= b
  {
    Floor(y, a);
    forall b: nat | AlignedTo(b, a) && x <= b ensures f <= b { FloorLeast(y, a, b); }
  }

  // ----- the search ----------------------------------------------------------------

  /** Overflow is the panic of an address computation that leaves 64 bits. */
  datatype FitResult = Found(addr: nat) | NoSpace | Overflow

  /** The search from `search` on over the remaining mappings. */
  function Fit(ms: seq<VirtualMemoryMap>, search: nat, size: nat, a: nat): FitResult
    requires a > 0
    decreases |ms|
  {
    if search + size >= ADDRESS_LIMIT then Overflow
    else if ms == [] then
      if search + size <= MAX_USER_ADDR then Found(search) else NoSpace
    else if search + size <= ms[0].vmarea.start then Found(search)
    else if ms[0].vmarea.end + 1 >= ADDRESS_LIMIT || ms[0].vmarea.end + 1 + (a - 1) >= ADDRESS_LIMIT then Overflow
    else Fit(ms[1..], AlignUp(ms[0].vmarea.end + 1, a), size, a)
  }

  /** The mappings that start at or above the base, in order. */
  function Above(m: Maps, base: nat): seq<VirtualMemoryMap> {
    Listing(UpFrom(m, base))
  }

  function UpFrom(m: Maps, base: nat): (r: Maps)
    ensures forall k :: k in r <==> k in m && base <= k
    ensures forall k :: k in r ==> r[k] == m[k]
  {
    map k | k in m && base <= k :: m[k]
  }

  function FindUnmapped(m: Maps, base: nat, size: nat, a: nat): FitResult
    requires a > 0
  {
    if size + a - 1 >= ADDRESS_LIMIT then Overflow
    else Fit(Above(m, base), base, AlignUp(size, a), a)
  }

  /** [b, b + size) meets no mapping. */
  ghost predicate FreeRange(m: Maps, b: nat, size: nat) {
    forall k :: k in m ==> m[k].vmarea.end < b || b + size <= m[k].vmarea.start
  }

  ghost predicate FreeInList(ms: seq<VirtualMemoryMap>, b: nat, size: nat) {
    forall i :: 0 <= i < |ms| ==> ms[i].vmarea.end < b || b + size <= ms[i].vmarea.start
  }

  /** No aligned address from lo to hi (exclusive) has `size` free bytes. */
  ghost predicate NoneFree(ms: seq<VirtualMemoryMap>, lo: nat, hi: nat, size: nat, a: nat)
    requires a > 0
  {
    forall b: nat :: lo <= b < hi && AlignedTo(b, a) ==> !FreeInList(ms, b, size)
  }

  ghost predicate StartsBeyond(ms: seq<VirtualMemoryMap>, x: nat) {
    exists i :: 0 <= i < |ms| && x <= ms[i].vmarea.start
  }

  /** No free aligned range from lo on ends before the start of a mapping. */
  ghost predicate NoneUnder(ms: seq<VirtualMemoryMap>, lo: nat, size: nat, a: nat)
    requires a > 0
  {
    forall b: nat :: lo <= b && AlignedTo(b, a) && FreeInList(ms, b, size) ==> !StartsBeyond(ms, b + size)
  }

  lemma SkipHead(ms: seq<VirtualMemoryMap>, search: nat, size: nat, a: nat)
    requires a > 0 && IsPowerOfTwo(a) && ms != [] && search + size > ms[0].vmarea.start
    ensures NoneFree(ms, search, AlignUp(ms[0].vmarea.end + 1, a), size, a)
  {
    AlignUpIs(ms[0].vmarea.end + 1, a);
    forall b: nat | search <= b < AlignUp(ms[0].vmarea.end + 1, a) && AlignedTo(b, a) ensures !FreeInList(ms, b, size) {
      assert b <= ms[0].vmarea.end;
    }
  }

  /** A found address is aligned, free, inside the address space and lowest, and lies below the
      user limit unless a mapping starts beyond it; otherwise nothing below the limit or below a mapping
      is free. */
  ghost predicate FitSpec(ms: seq<VirtualMemoryMap>, search: nat, size: nat, a: nat, r: FitResult)
    requires a > 0
  {
    if r.Found? then
      && search <= r.addr && AlignedTo(r.addr, a) && r.addr + size < ADDRESS_LIMIT
      && FreeInList(ms, r.addr, size)
      && NoneFree(ms, search, r.addr, size, a)
      && (r.addr + size <= MAX_USER_ADDR || StartsBeyond(ms, r.addr + size))
    else
      && (size <= MAX_USER_ADDR ==> NoneFree(ms, search, MAX_USER_ADDR - size + 1, size, a))
      && NoneUnder(ms, search, size, a)
  }

  lemma {:induction false} FitIs(ms: seq<VirtualMemoryMap>, search: nat, size: nat, a: nat)
    requires 0 < a < ADDRESS_LIMIT && IsPowerOfTwo(a) && Chain(ms) && AlignedTo(search, a)
    requires ms != [] ==> search <= AlignUp(ms[0].vmarea.end + 1, a)
    ensures FitSpec(ms, search, size, a, Fit(ms, search, size, a))
    decreases |ms|
  {
    if search + size >= ADDRESS_LIMIT || ms == [] {
      assert forall i :: 0 <= i < |ms| ==> MapWf(ms[i]);
    } else if search + size <= ms[0].vmarea.start {
      HeadFits(ms, search, size, a);
    } else {
      SkipHead(ms, search, size, a);
      var next := AlignUp(ms[0].vmarea.end + 1, a);
      AlignUpIs(ms[0].vmarea.end + 1, a);
      if ms[0].vmarea.end + 1 + (a - 1) < ADDRESS_LIMIT {
        ChainTail(ms, 1);
        if |ms| > 1 { NextHigher(ms, a); }
        FitIs(ms[1..], next, size, a);
        FitSpecCons(ms, search, next, size, a, Fit(ms[1..], next, size, a));
      } else {
        TopReached(ms, search, next, size, a);
      }
    }
  }

  /** When skipping a mapping overflows, nothing below the user limit is left. */
  lemma TopReached(ms: seq<VirtualMemoryMap>, search: nat, next: nat, size: nat, a: nat)
    requires 0 < a < ADDRESS_LIMIT && IsPowerOfTwo(a) && Chain(ms)
    requires ms != [] && ms[0].vmarea.end + 1 + (a - 1) >= ADDRESS_LIMIT
    requires ms[0].vmarea.end < next && AlignedTo(next, a)
    requires NoneFree(ms, search, next, size, a)
    ensures FitSpec(ms, search, size, a, Overflow)
  {
    LimitReached(next, a);
    assert forall i :: 0 <= i < |ms| ==> MapWf(ms[i]);
  }

  /** The size of the address space is a multiple of every smaller power of two. */
  lemma LimitReached(x: nat, a: nat)
    requires 0 < a < ADDRESS_LIMIT && IsPowerOfTwo(a) && AlignedTo(x, a) && x + a > ADDRESS_LIMIT
    ensures x >= ADDRESS_LIMIT
  {
    var k: nat :| a == Pow2(k);
    SmallPower(k);
    LimitIsPower();
    Pow2Split(k, 64 - k);
    MultipleReached(x, a, Pow2(64 - k));
  }

  lemma MultipleReached(x: nat, a: nat, q: nat)
    requires a > 0 && AlignedTo(x, a) && x + a > q * a
    ensures x >= q * a
  {
    assert x == x / a * a;
    if x / a < q { MulLess(q, x / a, a); }
    else if x / a > q { MulLess(x / a, q, a); }
  }

  lemma SmallPower(k: nat)
    requires Pow2(k) < ADDRESS_LIMIT
    ensures k < 64
  {
    LimitIsPower();
    if k >= 64 { PowersGrow(64, k); }
  }

  lemma {:induction false} PowersGrow(j: nat, k: nat)
    requires j <= k
    ensures Pow2(j) <= Pow2(k)
    decreases k
  {
    if j < k { PowersGrow(j, k - 1); }
  }

  lemma LimitIsPower()
    ensures Pow2(64) == ADDRESS_LIMIT
  {
    SquareOf(4, 16);
    SquareOf(8, 0x100);
    SquareOf(16, 0x1_0000);
    SquareOf(32, 0x1_0000_0000);
  }

  lemma SquareOf(k: nat, x: nat)
    requires Pow2(k) == x
    ensures Pow2(k + k) == x * x
  {
    Pow2Split(k, k);
  }

  lemma {:induction false} Pow2Split(j: nat, k: nat)
    ensures Pow2(j + k) == Pow2(j) * Pow2(k)
    decreases k
  {
    if k > 0 {
      Pow2Split(j, k - 1);
      DoubleFactor(Pow2(j), Pow2(k - 1));
    }
  }

  lemma DoubleFactor(a: nat, b: nat)
    ensures a * (2 * b) == 2 * (a * b)
  {
  }

  lemma HeadFits(ms: seq<VirtualMemoryMap>, search: nat, size: nat, a: nat)
    requires a > 0 && Chain(ms) && ms != [] && AlignedTo(search, a)
    requires search + size <= ms[0].vmarea.start && search + size < ADDRESS_LIMIT
    ensures FitSpec(ms, search, size, a, Found(search))
  {
    ChainStarts(ms);
    assert StartsBeyond(ms, search + size);
  }

  lemma NextHigher(ms: seq<VirtualMemoryMap>, a: nat)
    requires a > 0 && IsPowerOfTwo(a) && Chain(ms) && |ms| > 1
    ensures AlignUp(ms[0].vmarea.end + 1, a) <= AlignUp(ms[1].vmarea.end + 1, a)
  {
    AlignUpIs(ms[0].vmarea.end + 1, a);
    AlignUpIs(ms[1].vmarea.end + 1, a);
    assert MapWf(ms[1]);
  }

  lemma FitSpecCons(ms: seq<VirtualMemoryMap>, search: nat, next: nat, size: nat, a: nat, r: FitResult)
    requires a > 0 && Chain(ms) && ms != [] && ms[0].vmarea.end < next && search <= next
    requires NoneFree(ms, search, next, size, a)
    requires FitSpec(ms[1..], next, size, a, r)
    ensures FitSpec(ms, search, size, a, r)
  {
    FitStep(ms, search, next, size, a);
    if !r.Found? { UnderCons(ms, search, next, size, a); }
  }

  lemma UnderCons(ms: seq<VirtualMemoryMap>, search: nat, next: nat, size: nat, a: nat)
    requires a > 0 && Chain(ms) && ms != [] && ms[0].vmarea.end < next
    requires NoneFree(ms, search, next, size, a) && NoneUnder(ms[1..], next, size, a)
    requires forall b: nat :: next <= b ==> (FreeInList(ms, b, size) <==> FreeInList(ms[1..], b, size))
    ensures NoneUnder(ms, search, size, a)
  {
    forall b: nat | search <= b && AlignedTo(b, a) && FreeInList(ms, b, size) ensures !StartsBeyond(ms, b + size) {
      assert next <= b;
      assert FreeInList(ms[1..], b, size) && !StartsBeyond(ms[1..], b + size);
      assert forall i :: 0 < i < |ms| ==> ms[1..][i - 1] == ms[i];
    }
  }

  lemma FitStep(ms: seq<VirtualMemoryMap>, search: nat, next: nat, size: nat, a: nat)
    requires a > 0 && ms != [] && ms[0].vmarea.end < next
    requires NoneFree(ms, search, next, size, a)
    ensures forall b: nat :: next <= b ==> (FreeInList(ms, b, size) <==> FreeInList(ms[1..], b, size))
    ensures forall hi: nat :: NoneFree(ms[1..], next, hi, size, a) ==> NoneFree(ms, search, hi, size, a)
    ensures forall x: nat :: StartsBeyond(ms[1..], x) ==> StartsBeyond(ms, x)
  {
    assert forall i :: 0 <= i < |ms[1..]| ==> ms[1..][i] == ms[i + 1];
    forall b: nat | next <= b ensures FreeInList(ms, b, size) <==> FreeInList(ms[1..], b, size) {
      if FreeInList(ms[1..], b, size) {
        forall i | 0 <= i < |ms| ensures ms[i].vmarea.end < b || b + size <= ms[i].vmarea.start {
          if i > 0 { assert ms[i] == ms[1..][i - 1]; }
        }
      }
    }
  }

  // ----- on address spaces ---------------------------------------------------------

  /** No mapping begins below the base and reaches it. */
  ghost predicate NoStraddle(m: Maps, base: nat) {
    forall k :: k in m && k < base ==> m[k].vmarea.end < base
  }

  lemma UpFromWf(m: Maps, base: nat)
    requires Wf(m)
    ensures Wf(UpFrom(m, base)) && Chain(Above(m, base))
    ensures forall i :: 0 <= i < |Above(m, base)| ==>
              base <= Above(m, base)[i].vmarea.start && Above(m, base)[i].vmarea.start in m
              && m[Above(m, base)[i].vmarea.start] == Above(m, base)[i]
  {
    ListingChain(UpFrom(m, base));
  }

  lemma Listed(m: Maps, k: nat)
    requires k in m
    ensures exists i :: 0 <= i < |Listing(m)| && Listing(m)[i] == m[k]
  {
    AscendingIs(m.Keys);
    assert k in Ascending(m.Keys);
    var i :| 0 <= i < |Ascending(m.Keys)| && Ascending(m.Keys)[i] == k;
    assert Listing(m)[i] == m[k];
  }

  lemma FreeAbove(m: Maps, base: nat, b: nat, size: nat)
    requires Wf(m) && NoStraddle(m, base) && base <= b
    ensures FreeRange(m, b, size) <==> FreeInList(Above(m, base), b, size)
  {
    UpFromWf(m, base);
    var ms := Above(m, base);
    if FreeInList(ms, b, size) {
      forall k | k in m ensures m[k].vmarea.end < b || b + size <= m[k].vmarea.start {
        if base <= k {
          Listed(UpFrom(m, base), k);
          var i :| 0 <= i < |ms| && ms[i] == m[k];
        }
      }
    }
  }

  /** First fit is sound, lowest and complete for the rounded size: a found address is aligned, at or
      above the base, and free; no lower aligned one is; without a result none ends below the limit. */
  lemma FindUnmappedIs(m: Maps, base: nat, size: nat, a: nat)
    requires Wf(m) && NoStraddle(m, base) && 0 < a < ADDRESS_LIMIT && IsPowerOfTwo(a) && AlignedTo(base, a)
    ensures var r := FindUnmapped(m, base, size, a);
            var rounded := AlignUp(size, a);
            if r.Found? then
              && base <= r.addr && AlignedTo(r.addr, a) && r.addr + rounded < ADDRESS_LIMIT
              && FreeRange(m, r.addr, rounded)
              && (forall b: nat :: base <= b < r.addr && AlignedTo(b, a) ==> !FreeRange(m, b, rounded))
            else
              forall b: nat :: base <= b && AlignedTo(b, a) && b + rounded <= MAX_USER_ADDR ==> !FreeRange(m, b, rounded)
  {
    var r := FindUnmapped(m, base, size, a);
    var rounded := AlignUp(size, a);
    AlignUpIs(size, a);
    if size + a - 1 < ADDRESS_LIMIT {
      SearchIs(m, base, size, a);
      if r.Found? { FreeAbove(m, base, r.addr, rounded); }
      forall b: nat | base <= b && AlignedTo(b, a) && FreeRange(m, b, rounded)
        ensures (r.Found? ==> r.addr <= b) && (!r.Found? ==> b + rounded > MAX_USER_ADDR)
      {
        FreeAbove(m, base, b, rounded);
      }
    } else {
      PositiveMultiple(rounded, a);
    }
  }

  /** Some aligned range from the base on ends at or below the user limit. */
  ghost predicate RoomBelowLimit(m: Maps, base: nat, size: nat, a: nat)
    requires a > 0
  {
    exists b: nat :: base <= b && AlignedTo(b, a) && b + size <= MAX_USER_ADDR && FreeRange(m, b, size)
  }

  /** Some aligned range from the base on ends at or below the start of a mapping. */
  ghost predicate RoomUnderMap(m: Maps, base: nat, size: nat, a: nat)
    requires a > 0
  {
    exists b: nat, k: nat :: base <= b && AlignedTo(b, a) && k in m && b + size <= k && FreeRange(m, b, size)
  }

  /** The user limit is passed if and only if no range below it is free but one below some mapping is. */
  lemma LimitPassedIff(m: Maps, base: nat, size: nat, a: nat)
    requires Wf(m) && NoStraddle(m, base) && 0 < a < ADDRESS_LIMIT && IsPowerOfTwo(a) && AlignedTo(base, a)
    ensures var r := FindUnmapped(m, base, size, a);
            var rounded := AlignUp(size, a);
            r.Found? && r.addr + rounded > MAX_USER_ADDR <==>
            !RoomBelowLimit(m, base, rounded, a) && RoomUnderMap(m, base, rounded, a)
  {
    var r := FindUnmapped(m, base, size, a);
    var rounded := AlignUp(size, a);
    FindUnmappedIs(m, base, size, a);
    if r.Found? {
      if r.addr + rounded > MAX_USER_ADDR { FoundUnderMap(m, base, size, a); }
    } else if RoomUnderMap(m, base, rounded, a) {
      var b: nat, k: nat :| base <= b && AlignedTo(b, a) && k in m && b + rounded <= k && FreeRange(m, b, rounded);
      RoomIsFound(m, base, size, a, b, k);
    }
  }

  lemma SearchIs(m: Maps, base: nat, size: nat, a: nat)
    requires Wf(m) && 0 < a < ADDRESS_LIMIT && IsPowerOfTwo(a) && AlignedTo(base, a) && size + a - 1 < ADDRESS_LIMIT
    ensures FitSpec(Above(m, base), base, AlignUp(size, a), a, FindUnmapped(m, base, size, a))
  {
    var ms := Above(m, base);
    UpFromWf(m, base);
    if ms != [] {
      assert MapWf(ms[0]);
      AlignUpIs(ms[0].vmarea.end + 1, a);
    }
    FitIs(ms, base, AlignUp(size, a), a);
  }

  lemma FoundUnderMap(m: Maps, base: nat, size: nat, a: nat)
    requires Wf(m) && NoStraddle(m, base) && 0 < a < ADDRESS_LIMIT && IsPowerOfTwo(a) && AlignedTo(base, a)
    requires var r := FindUnmapped(m, base, size, a); r.Found? && r.addr + AlignUp(size, a) > MAX_USER_ADDR
    ensures RoomUnderMap(m, base, AlignUp(size, a), a)
  {
    var addr, rounded := FindUnmapped(m, base, size, a).addr, AlignUp(size, a);
    SearchIs(m, base, size, a);
    UpFromWf(m, base);
    FreeAbove(m, base, addr, rounded);
    var i :| 0 <= i < |Above(m, base)| && addr + rounded <= Above(m, base)[i].vmarea.start;
    assert Above(m, base)[i].vmarea.start in m;
  }

  lemma RoomIsFound(m: Maps, base: nat, size: nat, a: nat, b: nat, k: nat)
    requires Wf(m) && NoStraddle(m, base) && 0 < a < ADDRESS_LIMIT && IsPowerOfTwo(a) && AlignedTo(base, a)
    requires base <= b && AlignedTo(b, a) && k in m && b + AlignUp(size, a) <= k && FreeRange(m, b, AlignUp(size, a))
    ensures FindUnmapped(m, base, size, a).Found?
  {
    AlignUpIs(size, a);
    assert MapWf(m[k]);
    if size + a - 1 >= ADDRESS_LIMIT {
      LimitReached(AlignUp(size, a), a);
    } else {
      SearchIs(m, base, size, a);
      FreeAbove(m, base, b, AlignUp(size, a));
      Listed(UpFrom(m, base), k);
      assert StartsBeyond(Above(m, base), b + AlignUp(size, a));
    }
  }

  lemma PositiveMultiple(x: nat, a: nat)
    requires a > 0 && AlignedTo(x, a) && x > 0
    ensures x >= a
  {
    assert x == x / a * a;
    MulGe(x / a, a);
  }

  lemma PageIsPowerOfTwo()
    ensures IsPowerOfTwo(PAGE_SIZE)
  {
    assert Pow2(4) == 16;
    assert Pow2(8) == 16 * Pow2(4);
    assert Pow2(12) == 16 * Pow2(8);
  }

  /** Between aligned addresses the size may be rounded up. */
  lemma RoundedBelow(b: nat, size: nat, k: nat)
    requires Aligned(b) && Aligned(k) && b + size <= k
    ensures b + AlignUp(size, PAGE_SIZE) <= k
  {
    AlignedDifference(b, k);
    RoundedFits(size, k - b);
  }

  lemma RoundedFits(size: nat, room: nat)
    requires Aligned(room) && size <= room
    ensures AlignUp(size, PAGE_SIZE) <= room
  {
    PageIsPowerOfTwo();
    AlignUpIs(size, PAGE_SIZE);
    assert AlignedTo(room, PAGE_SIZE);
  }

  lemma PageFree(m: Maps, b: nat, size: nat)
    requires Wf(m) && Aligned(b)
    ensures FreeRange(m, b, size) <==> FreeRange(m, b, AlignUp(size, PAGE_SIZE))
  {
    PageIsPowerOfTwo();
    AlignUpIs(size, PAGE_SIZE);
    if FreeRange(m, b, size) {
      forall k | k in m ensures m[k].vmarea.end < b || b + AlignUp(size, PAGE_SIZE) <= m[k].vmarea.start {
        if b + size <= m[k].vmarea.start { RoundedBelow(b, size, k); }
      }
    }
  }

  /** As the kernel calls it, with page alignment, first fit is exact for the requested size. */
  lemma PageFitExact(m: Maps, base: nat, size: nat)
    requires Wf(m) && NoStraddle(m, base) && Aligned(base)
    ensures var r := FindUnmapped(m, base, size, PAGE_SIZE);
            if r.Found? then
              && base <= r.addr && Aligned(r.addr) && FreeRange(m, r.addr, size)
              && (forall b: nat :: base <= b < r.addr && Aligned(b) ==> !FreeRange(m, b, size))
            else
              forall b: nat :: base <= b && Aligned(b) && b + AlignUp(size, PAGE_SIZE) <= MAX_USER_ADDR ==> !FreeRange(m, b, size)
  {
    PageIsPowerOfTwo();
    FindUnmappedIs(m, base, size, PAGE_SIZE);
    forall b: nat | Aligned(b) ensures AlignedTo(b, PAGE_SIZE) && (FreeRange(m, b, size) <==> FreeRange(m, b, AlignUp(size, PAGE_SIZE))) {
      PageFree(m, b, size);
    }
  }

  /** A stack at the top of the address space. */
  const Stack := VirtualMemoryMap(MemoryArea(0x8000_0000, 0x8000_ffff),
                                  MemoryArea(0xffff_ffff_fffe_f000, 0xffff_ffff_fffe_efff + 0x1_0000), 0xb, false)

  lemma StackListed()
    ensures Wf(map[Stack.vmarea.start := Stack])
    ensures var ms := Above(map[Stack.vmarea.start := Stack], 0x4000_0000); ms != [] && ms[0] == Stack
  {
    var m := map[Stack.vmarea.start := Stack];
    UpFromWf(m, 0x4000_0000);
    Listed(UpFrom(m, 0x4000_0000), Stack.vmarea.start);
    assert Above(m, 0x4000_0000)[0].vmarea.start in m;
  }

  /** The user limit is not enforced below a mapping: with only the stack mapped, a request for more
      than the user space above the base is granted. */
  lemma LimitExample()
    ensures Wf(map[Stack.vmarea.start := Stack])
    ensures FindUnmapped(map[Stack.vmarea.start := Stack], 0x4000_0000, 0x5000_0000, PAGE_SIZE) == Found(0x4000_0000)
    ensures 0x4000_0000 + 0x5000_0000 > MAX_USER_ADDR
  {
    StackListed();
    PageIsPowerOfTwo();
    AlignUpIs(0x5000_0000, PAGE_SIZE);
  }
}
