/** BF16 ULP ordinals, and what an ordinal distance says about magnitudes. */
module Ordinals {
  import opened Bf16

  /** Signed value of a 16-bit BF16 pattern, in units of 2^-133. */
  function Value16(q: nat): int {
    var m: int := Mag16(q % SIGN16);
    if q < SIGN16 then m else -m
  }

  predicate Finite16(q: nat) {
    q < 2 * SIGN16 && q % SIGN16 < INF16
  }

  /** ord16: the int16 view of a pattern, mirrored below zero. */
  function Ord(q: nat): int
    requires q < 2 * SIGN16
  {
    if q < SIGN16 then q else -((q % SIGN16) as int)
  }

  // ---------------------------------------------------------------------------- spacing

  /** The next larger magnitude is one gap away, across binades too. */
  lemma NextMagnitude(q: nat)
    ensures Mag16(q + 1) == Mag16(q) + Gap(q / FRACTION16)
  {
    var e, f := q / FRACTION16, q % FRACTION16;
    if f + 1 < FRACTION16 {
      assert (q + 1) / FRACTION16 == e && (q + 1) % FRACTION16 == f + 1;
    } else {
      assert (q + 1) / FRACTION16 == e + 1 && (q + 1) % FRACTION16 == 0;
      assert e > 0 ==> Gap(e + 1) == 2 * Gap(e);
    }
  }

  lemma GapMonotone(q: nat)
    ensures Gap(q / FRACTION16) <= Gap((q + 1) / FRACTION16)
  {
    var e := q / FRACTION16;
    assert (q + 1) / FRACTION16 == e || (q + 1) / FRACTION16 == e + 1;
  }

  /** d steps up from q are at least d gaps of q, over any number of binades. */
  lemma {:induction false} StepsUp(q: nat, d: nat)
    ensures Mag16(q + d) >= Mag16(q) + d * Gap(q / FRACTION16)
    ensures Gap((q + d) / FRACTION16) >= Gap(q / FRACTION16)
  {
    hide Mag16, Gap;
    if d > 0 {
      var g := Gap(q / FRACTION16);
      StepsUp(q, d - 1);
      NextMagnitude(q + (d - 1));
      GapMonotone(q + (d - 1));
      assert d * g == (d - 1) * g + g;
    }
  }

  /** |v| < 256 ulp(v). */
  lemma MagnitudeBelow256Gaps(q: nat)
    ensures Mag16(q) < 256 * Gap(q / FRACTION16)
    ensures q >= FRACTION16 ==> Mag16(q) >= 128 * Gap(q / FRACTION16)
  {
    hide Gap;
    var e, f := q / FRACTION16, q % FRACTION16;
    MulStrictly(FRACTION16 + f, 256, Gap(e));
    MulStrictly(127, FRACTION16 + f, Gap(e));
    assert (FRACTION16 + f) * Gap(e) == 128 * Gap(e) + f * Gap(e);
  }

  lemma LargerPattern(p: nat, q: nat)
    requires p < q
    ensures Mag16(p) < Mag16(q)
  {
    hide Mag16, Gap;
    StepsUp(p, q - p);
    MulStrictly(0, q - p, Gap(p / FRACTION16));
  }

  lemma Mag16Strict(p: nat, q: nat)
    ensures p < q <==> Mag16(p) < Mag16(q)
  {
    hide Mag16;
    if p < q { LargerPattern(p, q); } else if q < p { LargerPattern(q, p); }
  }

  /** BF16 patterns are FP32 patterns with a zero low half. */
  lemma {:induction false} Mag16IsMag32(q: nat)
    ensures Mag32(q * HALF) == HALF * Mag16(q)
  {
    assert q * HALF / FRACTION32 == q / FRACTION16 && q * HALF % FRACTION32 == q % FRACTION16 * HALF;
    var e, f := q / FRACTION16, q % FRACTION16;
    assert (FRACTION32 + f * HALF) * Gap(e) == HALF * ((FRACTION16 + f) * Gap(e));
  }

  /** Sign and value of a 16-bit pattern are those of the FP32 pattern it abbreviates. */
  lemma Value16IsValue32(q: nat)
    requires q < 2 * SIGN16
    ensures Value32(q * HALF) == HALF * Value16(q)
  {
    hide Mag16, Mag32;
    Mag16IsMag32(q % SIGN16);
    assert q * HALF % SIGN32 == q % SIGN16 * HALF;
  }

  // -------------------------------------------------------------------------------- ulp

  function FloorLog2(v: nat): (r: nat)
    requires v > 0
    ensures Pow2(r) <= v < 2 * Pow2(r)
  {
    if v == 1 then 0 else 1 + FloorLog2(v / 2)
  }

  lemma LogOfNormal(v: nat)
    requires v >= 128
    ensures FloorLog2(v) >= 7
  {
    if FloorLog2(v) < 7 {
      Pow2Grows(FloorLog2(v), 7);
      Pow2Of7();
      assert false;
    }
  }

  lemma Pow2Of7()
    ensures Pow2(7) == 128
  {
    assert Pow2(3) == 8 && Pow2(4) == 16;
    Pow2Add(3, 4);
  }

  /** ulp_bf16 of a magnitude in units of 2^-133, where 2^-126 is 128. */
  function Ulp(v: nat): (u: nat) {
    var x := if v < 128 then 128 else v;
    LogOfNormal(x);
    Pow2(FloorLog2(x) - 7)
  }

  lemma {:induction false} Pow2Unique(a: nat, b: nat, v: nat)
    requires Pow2(a) <= v < 2 * Pow2(a) && Pow2(b) <= v < 2 * Pow2(b)
    ensures a == b
  {
    if a < b { Pow2Grows(a, b); } else if b < a { Pow2Grows(b, a); }
  }

  lemma {:induction false} Pow2Grows(a: nat, b: nat)
    requires a < b
    ensures 2 * Pow2(a) <= Pow2(b)
    decreases b
  {
    if a + 1 < b { Pow2Grows(a, b - 1); }
  }

  lemma {:induction false} Pow2Add(a: nat, b: nat)
    ensures Pow2(a + b) == Pow2(a) * Pow2(b)
  {
    if b > 0 { Pow2Add(a, b - 1); assert Pow2(a + b) == 2 * Pow2(a + b - 1); }
  }

  /** ulp_bf16 is the distance to the next larger magnitude. */
  lemma UlpIsSpacing(q: nat)
    ensures Ulp(Mag16(q)) == Mag16(q + 1) - Mag16(q)
  {
    NextMagnitude(q);
    var e, v := q / FRACTION16, Mag16(q);
    Pow2Of7();
    if e == 0 {
      Pow2Unique(FloorLog2(128), 7, 128);
    } else {
      UlpOfNormal(q);
    }
  }

  lemma UlpOfNormal(q: nat)
    requires q >= FRACTION16
    ensures Ulp(Mag16(q)) == Gap(q / FRACTION16)
  {
    hide Mag16;
    var e, v := q / FRACTION16, Mag16(q);
    MagnitudeBelow256Gaps(q);
    Pow2Of7();
    Pow2Add(e - 1, 7);
    NormalAtLeast128(e, v);
    Pow2Unique(FloorLog2(v), e - 1 + 7, v);
  }

  lemma NormalAtLeast128(e: nat, v: nat)
    requires e > 0 && v >= 128 * Gap(e)
    ensures v >= 128
  {
  }

  // ---------------------------------------------------------------------------- ordinals

  /** Ordinals order finite values strictly, and identify exactly the two zeros. */
  lemma OrdIsMonotone(p: nat, q: nat)
    requires Finite16(p) && Finite16(q)
    ensures Ord(p) < Ord(q) <==> Value16(p) < Value16(q)
    ensures Ord(p) == Ord(q) <==> Value16(p) == Value16(q)
  {
    hide Mag16;
    Mag16Strict(p % SIGN16, q % SIGN16);
    Mag16Strict(q % SIGN16, p % SIGN16);
    Mag16Strict(0, p % SIGN16);
    Mag16Strict(0, q % SIGN16);
    assert Mag16(0) == 0 by { ZeroMag16(); }
  }

  lemma ZeroMag16()
    ensures Mag16(0) == 0
  {
  }

  /** The pattern of an ordinal. */
  function Pattern(o: int): nat
    requires -0x7F80 < o < 0x7F80
  {
    if o >= 0 then o else SIGN16 + (-o)
  }

  lemma PatternOfOrd(o: int)
    requires -0x7F80 < o < 0x7F80
    ensures Finite16(Pattern(o)) && Ord(Pattern(o)) == o
  {
  }

  /** Ordinals number the finite values without gaps: neighbours in value are one ordinal apart, and only they. */
  lemma OrdCountsValues(p: nat, q: nat)
    requires Finite16(p) && Finite16(q)
    ensures Ord(q) == Ord(p) + 1 <==>
              Value16(p) < Value16(q) && !exists r :: Finite16(r) && Value16(p) < Value16(r) < Value16(q)
  {
    hide Value16, Ord, Pattern;
    OrdIsMonotone(p, q);
    if Ord(p) + 1 < Ord(q) {
      OrdInRange(p);
      OrdInRange(q);
      var r := Pattern(Ord(p) + 1);
      PatternOfOrd(Ord(p) + 1);
      OrdIsMonotone(p, r);
      OrdIsMonotone(r, q);
      assert Finite16(r) && Value16(p) < Value16(r) < Value16(q);
    }
    forall r | Finite16(r) && Value16(p) < Value16(r) < Value16(q) ensures Ord(p) < Ord(r) < Ord(q) {
      OrdIsMonotone(p, r);
      OrdIsMonotone(r, q);
    }
  }

  lemma OrdInRange(p: nat)
    requires Finite16(p)
    ensures -0x7F80 < Ord(p) < 0x7F80
  {
  }

  function Ulps(p: nat, q: nat): nat
    requires p < 2 * SIGN16 && q < 2 * SIGN16
  {
    Distance(Ord(p), Ord(q))
  }

  function Smaller(x: nat, y: nat): nat {
    if x < y then x else y
  }

  predicate SameSigned(p: nat, q: nat)
    requires p < 2 * SIGN16 && q < 2 * SIGN16
  {
    (Ord(p) >= 0 && Ord(q) >= 0) || (Ord(p) <= 0 && Ord(q) <= 0)
  }

  /** A pair d ULPs apart and at most `err` apart: how large it can be. */
  lemma PairMagnitude(p: nat, q: nat, err: nat)
    requires Finite16(p) && Finite16(q) && Ulps(p, q) >= 1 && Distance(Value16(p), Value16(q)) <= err
    ensures var a, b, d := Mag16(p % SIGN16), Mag16(q % SIGN16), Ulps(p, q);
            && err > 0
            && (SameSigned(p, q) ==> Smaller(a, b) * d < 256 * err)
            && (!SameSigned(p, q) ==> a <= err && b <= err && Smaller(a, b) < err)
  {
    hide Mag16, Gap;
    var x, y := p % SIGN16, q % SIGN16;
    OrdIsMonotone(p, q);
    Mag16Strict(x, y);
    Mag16Strict(y, x);
    ZeroMag16();
    if SameSigned(p, q) {
      assert Distance(x, y) == Ulps(p, q);
      if x < y { SameSideMagnitude(x, y, err); } else { SameSideMagnitude(y, x, err); }
    } else {
      Mag16Strict(0, x);
      Mag16Strict(0, y);
    }
  }

  lemma SameSideMagnitude(lo: nat, hi: nat, err: nat)
    requires lo < hi && Mag16(hi) <= Mag16(lo) + err
    ensures Mag16(lo) * (hi - lo) < 256 * err
  {
    hide Mag16, Gap;
    StepsUp(lo, hi - lo);
    MagnitudeBelow256Gaps(lo);
    ScaledBelow(Mag16(lo), hi - lo, Gap(lo / FRACTION16), err);
  }

  lemma ScaledBelow(v: nat, d: nat, g: nat, err: nat)
    requires v < 256 * g && d * g <= err && d > 0
    ensures v * d < 256 * err
  {
    assert v * d < 256 * g * d by { MulStrictly(v, 256 * g, d); }
    assert 256 * g * d == 256 * (d * g);
  }

  /** outlier_magnitude_bound; not a number for d < 1. */
  function OutlierBound(err: real, d: nat): (b: real)
    requires d >= 1
    ensures b >= 256.0 * err / d as real && b >= err && (b == 256.0 * err / d as real || b == err)
  {
    var x := 256.0 * err / d as real;
    if x > err then x else err
  }

  /** The smaller magnitude of an outlier pair lies strictly below the recorded bound. */
  lemma OutlierBoundHolds(p: nat, q: nat, err: nat)
    requires Finite16(p) && Finite16(q) && Ulps(p, q) >= 1 && Distance(Value16(p), Value16(q)) <= err
    ensures Smaller(Mag16(p % SIGN16), Mag16(q % SIGN16)) as real < OutlierBound(err as real, Ulps(p, q))
  {
    hide Mag16;
    PairMagnitude(p, q, err);
    var v, d := Smaller(Mag16(p % SIGN16), Mag16(q % SIGN16)), Ulps(p, q);
    if SameSigned(p, q) { QuotientBelow(v, d, err); }
  }

  lemma QuotientBelow(v: nat, d: nat, err: nat)
    requires d >= 1 && v * d < 256 * err
    ensures v as real < 256.0 * err as real / d as real
  {
    var x := 256.0 * err as real / d as real;
    assert x * d as real == 256.0 * err as real;
    assert v as real * d as real == (v * d) as real;
    assert (x - v as real) * d as real > 0.0;
  }
}
