/** Address windows of the interconnect: the masked compare, its interval and the overlap check. */
module Decode {

  /** `localparam` pair of one target: addresses match when they equal the base outside the mask. */
  datatype Window = Window(name: string, base: nat, mask: nat)

  const WIDTH := 32

  function Pow2(k: nat): (p: nat)
    ensures p > 0
  {
    if k == 0 then 1 else 2 * Pow2(k - 1)
  }

  lemma {:induction false} PowAdd(j: nat, k: nat)
    ensures Pow2(j + k) == Pow2(j) * Pow2(k)
  {
    if j > 0 {
      PowAdd(j - 1, k);
      assert 2 * Pow2(j - 1) * Pow2(k) == 2 * (Pow2(j - 1) * Pow2(k));
    }
  }

  // ---------- bits ----------

  /** Bitwise and, bit by bit from the lowest. */
  function And(a: nat, b: nat): nat {
    if a == 0 || b == 0 then 0
    else 2 * And(a / 2, b / 2) + if a % 2 == 1 && b % 2 == 1 then 1 else 0
  }

  /** Complement in a word of `width` bits. */
  function Not(a: nat, width: nat): nat
    requires a < Pow2(width)
  {
    Pow2(width) - 1 - a
  }

  /** `(addr & ~MASK) == BASE` */
  predicate Decodes(w: Window, address: nat)
    requires w.mask < Pow2(WIDTH)
  {
    And(address, Not(w.mask, WIDTH)) == w.base
  }

  lemma {:induction false} AndZero(a: nat)
    ensures And(a, 0) == 0 && And(0, a) == 0
  {
  }

  lemma {:induction false} AndStep(a: nat, b: nat)
    ensures And(a, b) == 2 * And(a / 2, b / 2) + if a % 2 == 1 && b % 2 == 1 then 1 else 0
  {
    if a == 0 || b == 0 {
      AndZero(a / 2);
      AndZero(b / 2);
    }
  }

  /** Keeping the bits of a word that lie outside a mask of `k` low ones drops the remainder. */
  lemma {:induction false} AndHigh(a: nat, k: nat, width: nat)
    requires k <= width && a < Pow2(width)
    ensures Pow2(k) <= Pow2(width)
    ensures And(a, Not(Pow2(k) - 1, width)) == a - a % Pow2(k)
    decreases width
  {
    hide And, Pow2;
    PowOrder(k, width);
    if width == 0 {
      AndNothing(a);
    } else {
      var p := Pow2(width - 1);
      PowDoubles(width);
      HalfInRange(a, p);
      if k == 0 {
        PowZero();
        AndHigh(a / 2, 0, width - 1);
        ModuloOne(a, a / 2);
        AndOnes(a, p);
      } else {
        PowDoubles(k);
        PowOrder(k - 1, width - 1);
        AndHigh(a / 2, k - 1, width - 1);
        AndFromHalves(a, p, Pow2(k - 1));
      }
    }
  }

  lemma ModuloOne(a: nat, b: nat)
    ensures a % 1 == 0 && b % 1 == 0
  {
  }

  lemma PowZero()
    ensures Pow2(0) == 1
  {
  }

  lemma AndNothing(a: nat)
    requires a < Pow2(0)
    ensures Pow2(0) == 1 && And(a, 0) == 0 && a == 0
  {
  }

  lemma HalfInRange(a: nat, p: nat)
    requires a < 2 * p
    ensures a / 2 < p && 0 < p
  {
  }

  lemma AndOnes(a: nat, p: nat)
    requires p > 0 && And(a / 2, p - 1) == a / 2
    ensures And(a, 2 * p - 1) == a
  {
    hide And;
    var m := 2 * p - 1;
    AndStep(a, m);
    HalfOfMask(m, p, 0);
    assert m / 2 == p - 1;
  }

  lemma AndFromHalves(a: nat, p: nat, q: nat)
    requires 0 < q <= p && And(a / 2, p - q) == a / 2 - (a / 2) % q
    ensures And(a, 2 * p - 2 * q) == a - a % (2 * q)
  {
    hide And;
    var m := 2 * p - 2 * q;
    AndStep(a, m);
    HalfOfMask(m, p, q);
    assert m / 2 == p - q && m % 2 == 0;
    JoinHalves(a, And(a / 2, p - q), q);
  }

  lemma PowDoubles(k: nat)
    requires k > 0
    ensures Pow2(k) == 2 * Pow2(k - 1)
  {
  }

  lemma JoinHalves(a: nat, x: int, p: nat)
    requires p > 0 && x == a / 2 - (a / 2) % p
    ensures 2 * x == a - a % (2 * p)
  {
    HalfRemainder(a, p);
  }

  lemma HalfOfMask(m: nat, p: nat, q: nat)
    ensures m == 2 * p - 1 ==> m / 2 == p - 1 && m % 2 == 1
    ensures m == 2 * p - 2 * q ==> m / 2 == p - q && m % 2 == 0
  {
  }

  lemma HalfRemainder(a: nat, p: nat)
    requires p > 0
    ensures a % (2 * p) == 2 * ((a / 2) % p) + a % 2
  {
    var h := a / 2;
    var q, r := h / p, h % p;
    assert h == q * p + r;
    assert a == 2 * h + a % 2;
    assert a == q * (2 * p) + (2 * r + a % 2);
    RemainderUnique(a, 2 * p, q, 2 * r + a % 2);
  }

  lemma SmallMultiple(x: int, d: int)
    requires d > 0 && -d < x * d < d
    ensures x == 0
  {
  }

  lemma RemainderUnique(a: nat, d: nat, q: nat, r: nat)
    requires d > 0 && a == q * d + r && r < d
    ensures a % d == r && a / d == q
  {
    var x := a / d - q;
    assert a == (a / d) * d + a % d;
    assert x * d == r - a % d;
    SmallMultiple(x, d);
  }

  lemma {:induction false} PowOrder(j: nat, k: nat)
    requires j <= k
    ensures Pow2(j) <= Pow2(k)
  {
    if j < k {
      PowOrder(j, k - 1);
    }
  }

  /** A word with a mask of k low ones. */
  ghost predicate LowMask(w: Window, k: nat) {
    k <= WIDTH && w.mask == Pow2(k) - 1 && w.base < Pow2(WIDTH)
  }

  ghost predicate LowMasked(w: Window) {
    exists k :: LowMask(w, k)
  }

  /** A mask of low ones and a base aligned to it. */
  ghost predicate Aligned(w: Window, k: nat) {
    LowMask(w, k) && w.base % Pow2(k) == 0
  }

  ghost predicate WellFormed(w: Window) {
    exists k :: Aligned(w, k)
  }

  /** The span that the script derives from a window: base and `mask + 1`. */
  predicate InSpan(w: Window, address: int) {
    InRange(w.base, w.mask + 1, address)
  }

  predicate InRange(base: int, size: int, address: int) {
    base <= address < base + size
  }

  /** For an aligned window the masked compare selects exactly the span. */
  lemma DecodeIsInterval(w: Window, address: nat)
    requires WellFormed(w) && address < Pow2(WIDTH)
    ensures w.mask < Pow2(WIDTH)
    ensures Decodes(w, address) <==> InSpan(w, address)
  {
    var k :| Aligned(w, k);
    PowOrder(k, WIDTH);
    AndHigh(address, k, WIDTH);
    SameBlock(address, w.base, Pow2(k));
  }

  /** Whatever the base, the masked compare only selects addresses of the span. */
  lemma DecodedIsInSpan(w: Window, address: nat)
    requires LowMasked(w) && address < Pow2(WIDTH)
    ensures w.mask < Pow2(WIDTH)
    ensures Decodes(w, address) ==> InSpan(w, address)
  {
    var k :| LowMask(w, k);
    PowOrder(k, WIDTH);
    AndHigh(address, k, WIDTH);
  }

  /** With a mask of low ones, decode and span agree on every address if and only if the base is aligned. */
  lemma IntervalIffAligned(w: Window, k: nat)
    requires LowMask(w, k)
    ensures w.mask < Pow2(WIDTH)
    ensures (forall address: nat :: address < Pow2(WIDTH) ==> (Decodes(w, address) <==> InSpan(w, address))) <==> Aligned(w, k)
  {
    PowOrder(k, WIDTH);
    if Aligned(w, k) {
      forall address: nat | address < Pow2(WIDTH)
        ensures Decodes(w, address) <==> InSpan(w, address)
      {
        DecodeIsInterval(w, address);
      }
    } else {
      AndHigh(w.base, k, WIDTH);
      assert InSpan(w, w.base) && !Decodes(w, w.base);
    }
  }

  /** An unaligned base selects nothing at all. */
  lemma UnalignedSelectsNothing(w: Window, k: nat, address: nat)
    requires LowMask(w, k) && !Aligned(w, k) && address < Pow2(WIDTH)
    ensures w.mask < Pow2(WIDTH) && !Decodes(w, address)
  {
    hide And, Pow2;
    PowOrder(k, WIDTH);
    AndHigh(address, k, WIDTH);
    BlockStart(address, Pow2(k));
  }

  lemma BlockStart(a: nat, p: nat)
    requires p > 0
    ensures (a - a % p) % p == 0
  {
    RemainderUnique(a - a % p, p, a / p, 0);
  }

  lemma SameBlock(a: nat, base: nat, p: nat)
    requires p > 0 && base % p == 0
    ensures a - a % p == base <==> base <= a < base + p
  {
    if base <= a < base + p {
      var q := base / p;
      assert base == q * p;
      RemainderUnique(a, p, q, a - base);
    }
  }

  /** Without the alignment the two differ: this base is never what the masked compare leaves. */
  lemma UnalignedBaseIsUnreachable()
    ensures var w := Window("DMA", 1, 1);
            w.mask < Pow2(WIDTH) && InSpan(w, 1) && forall a: nat :: a < Pow2(WIDTH) ==> !Decodes(w, a)
  {
    var w := Window("DMA", 1, 1);
    assert Pow2(1) == 2 by {
      assert Pow2(0) == 1;
    }
    PowOrder(1, WIDTH);
    forall a: nat | a < Pow2(WIDTH)
      ensures !Decodes(w, a)
    {
      AndHigh(a, 1, WIDTH);
    }
  }

  // ---------- overlap ----------

  function RangesOverlap(firstBase: int, firstSize: int, secondBase: int, secondSize: int): bool {
    firstBase < secondBase + secondSize && secondBase < firstBase + firstSize
  }

  /** For positive sizes the test is exact: some address lies in both ranges. */
  lemma OverlapIsExact(b: int, m: int, c: int, n: int)
    requires m > 0 && n > 0
    ensures RangesOverlap(b, m, c, n) <==> exists a :: InRange(b, m, a) && InRange(c, n, a)
  {
    if RangesOverlap(b, m, c, n) {
      var a := if b <= c then c else b;
      assert InRange(b, m, a) && InRange(c, n, a);
    }
  }

  /** An empty range inside another one is still reported. */
  lemma EmptyRangeIsReported()
    ensures RangesOverlap(1, 0, 0, 4) && !exists a :: InRange(1, 0, a) && InRange(0, 4, a)
  {
  }

  predicate Clash(v: Window, w: Window) {
    RangesOverlap(v.base, v.mask + 1, w.base, w.mask + 1)
  }

  /** The pairwise loop of `check_memory_map_consistency`: every pair is compared once, in order. */
  method OverlapErrors(windows: seq<Window>) returns (errors: seq<(string, string)>)
    ensures errors == [] <==> forall i, j :: 0 <= i < j < |windows| ==> !Clash(windows[i], windows[j])
    ensures forall e :: e in errors <==>
              exists i, j :: 0 <= i < j < |windows| && Clash(windows[i], windows[j]) && e == (windows[i].name, windows[j].name)
  {
    errors := [];
    for i := 0 to |windows|
      invariant forall e :: e in errors <==> Reported(windows, i, 0, e)
    {
      for j := i + 1 to |windows|
        invariant forall e :: e in errors <==> Reported(windows, i, j, e)
      {
        if Clash(windows[i], windows[j]) {
          errors := errors + [(windows[i].name, windows[j].name)];
        }
      }
    }
    if i, j :| 0 <= i < j < |windows| && Clash(windows[i], windows[j]) {
      assert Reported(windows, |windows|, 0, (windows[i].name, windows[j].name));
      assert (windows[i].name, windows[j].name) in errors;
    }
    if errors != [] {
      assert errors[0] in errors;
    }
  }

  /** Pairs met before the pair (row, column). */
  ghost predicate Reported(windows: seq<Window>, row: nat, column: nat, e: (string, string)) {
    exists i, j :: 0 <= i < j < |windows| && (i < row || (i == row && j < column))
                   && Clash(windows[i], windows[j]) && e == (windows[i].name, windows[j].name)
  }

  /**
   Decode safety: when the loop over windows with masks of low ones reports nothing, no address
   selects two targets. Aligned or not: an unaligned window selects nothing.
   */
  lemma AtMostOneTarget(windows: seq<Window>, address: nat, i: nat, j: nat)
    requires forall w :: w in windows ==> LowMasked(w)
    requires forall i, j :: 0 <= i < j < |windows| ==> !Clash(windows[i], windows[j])
    requires i < j < |windows| && address < Pow2(WIDTH)
    ensures windows[i].mask < Pow2(WIDTH) && windows[j].mask < Pow2(WIDTH)
    ensures !(Decodes(windows[i], address) && Decodes(windows[j], address))
  {
    DecodedIsInSpan(windows[i], address);
    DecodedIsInSpan(windows[j], address);
  }

  /** Conversely, every reported pair shares an address that selects both targets. */
  lemma ClashIsReal(v: Window, w: Window) returns (address: nat)
    requires WellFormed(v) && WellFormed(w) && Clash(v, w)
    ensures address < Pow2(WIDTH) && v.mask < Pow2(WIDTH) && w.mask < Pow2(WIDTH)
    ensures Decodes(v, address) && Decodes(w, address)
  {
    address := if v.base <= w.base then w.base else v.base;
    DecodeIsInterval(v, address);
    DecodeIsInterval(w, address);
  }

  /** The three windows of the interconnect. */
  const WINDOWS := [
    Window("DRAM", 0x8000_0000, 0x0FFF_FFFF),
    Window("INTC", 0x0C00_0000, 0x0FFF),
    Window("DMA", 0x1001_0000, 0x0FFF)
  ]

  datatype Target = Debug | Dram | Intc | Dma | Error

  /** `decode_addr`: the debug registers, then the windows in this order. */
  function DecodeAddr(address: nat): Target
    requires WINDOWS[0].mask < Pow2(WIDTH) && WINDOWS[1].mask < Pow2(WIDTH) && WINDOWS[2].mask < Pow2(WIDTH)
  {
    if address == 0x1FFF_FFF0 || address == 0x1FFF_FFF4 then Debug
    else if Decodes(WINDOWS[0], address) then Dram
    else if Decodes(WINDOWS[1], address) then Intc
    else if Decodes(WINDOWS[2], address) then Dma
    else Error
  }

  lemma WindowsWellFormed()
    ensures Pow2(WIDTH) == 0x1_0000_0000
    ensures forall w :: w in WINDOWS ==> WellFormed(w)
  {
    assert Pow2(12) == 0x1000;
    assert Pow2(16) == 0x1_0000;
    PowAdd(12, 16);
    PowAdd(16, 16);
    assert Aligned(WINDOWS[0], 28) && Aligned(WINDOWS[1], 12) && Aligned(WINDOWS[2], 12);
  }

  /** The windows are disjoint, so the interconnect selects at most one target for any address. */
  lemma InterconnectDecodes(address: nat, i: nat, j: nat)
    requires i < j < |WINDOWS| && address < Pow2(WIDTH)
    ensures WINDOWS[i].mask < Pow2(WIDTH) && WINDOWS[j].mask < Pow2(WIDTH)
    ensures !(Decodes(WINDOWS[i], address) && Decodes(WINDOWS[j], address))
  {
    WindowsWellFormed();
    AtMostOneTarget(WINDOWS, address, i, j);
  }

  /** What the chain selects, whatever its order: each target exactly on its own interval. */
  lemma DecodeAddrMeans(address: nat)
    requires address < Pow2(WIDTH)
    ensures WINDOWS[0].mask < Pow2(WIDTH) && WINDOWS[1].mask < Pow2(WIDTH) && WINDOWS[2].mask < Pow2(WIDTH)
    ensures DecodeAddr(address) == Debug <==> address == 0x1FFF_FFF0 || address == 0x1FFF_FFF4
    ensures DecodeAddr(address) == Dram <==> InSpan(WINDOWS[0], address)
    ensures DecodeAddr(address) == Intc <==> InSpan(WINDOWS[1], address)
    ensures DecodeAddr(address) == Dma <==> InSpan(WINDOWS[2], address)
  {
    WindowsWellFormed();
    DecodeIsInterval(WINDOWS[0], address);
    DecodeIsInterval(WINDOWS[1], address);
    DecodeIsInterval(WINDOWS[2], address);
  }
}
