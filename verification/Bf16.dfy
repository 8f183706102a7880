/** FP32 and BF16 encodings as natural numbers, and the bit trick that rounds one to the other. */
module Bf16 {
  const SIGN32: nat := 0x8000_0000
  const INF32: nat := 0x7F80_0000
  const FRACTION32: nat := 0x80_0000
  const HALF: nat := 0x1_0000
  const SIGN16: nat := 0x8000
  const INF16: nat := 0x7F80
  const FRACTION16: nat := 0x80

  function Pow2(n: nat): (r: nat)
    ensures r > 0
  {
    if n == 0 then 1 else 2 * Pow2(n - 1)
  }

  /** Spacing of the numbers with biased exponent e; subnormals share the spacing of e = 1. */
  function Gap(e: nat): (g: nat)
    ensures g > 0
  {
    if e == 0 then 1 else Pow2(e - 1)
  }

  /** Magnitude of the FP32 pattern m (sign bit cleared), in units of 2^-149. */
  function Mag32(m: nat): nat
  {
    var e, f := m / FRACTION32, m % FRACTION32;
    if e == 0 then f else (FRACTION32 + f) * Gap(e)
  }

  /** Magnitude of the BF16 pattern q (sign bit cleared), in units of 2^-133. */
  function Mag16(q: nat): nat {
    var e, f := q / FRACTION16, q % FRACTION16;
    if e == 0 then f else (FRACTION16 + f) * Gap(e)
  }

  /** Pattern without its sign bit. */
  function Magnitude(b: nat): nat {
    b % SIGN32
  }

  predicate Finite32(b: nat) {
    b < 2 * SIGN32 && Magnitude(b) < INF32
  }

  /** Signed value of an FP32 pattern, in units of 2^-149. */
  function Value32(b: nat): int {
    var m: int := Mag32(Magnitude(b));
    if b < SIGN32 then m else -m
  }

  /** The bit trick: add half a unit (less one bit unless the kept part is odd) and clear the low half. */
  function Bf16Bits(b: nat): (r: nat)
    requires b < 2 * SIGN32
    ensures r % HALF == 0 && r < 2 * SIGN32
  {
    (b + 0x7FFF + b / HALF % 2) / HALF % HALF * HALF
  }

  // ------------------------------------------------------------------------- magnitudes

  /** The kept part of a magnitude after rounding. */
  function RoundMag(m: nat): nat {
    var hi, low := m / HALF, m % HALF;
    if low > 0x8000 || (low == 0x8000 && hi % 2 == 1) then hi + 1 else hi
  }

  lemma BitsAreRoundMag(s: nat, m: nat)
    requires s <= 1 && m < INF32
    ensures Bf16Bits(s * SIGN32 + m) == s * SIGN32 + RoundMag(m) * HALF
    ensures RoundMag(m) <= INF16 && (RoundMag(m) < INF16 <==> m < 0x7F7F_8000)
  {
    var b, hi, low := s * SIGN32 + m, m / HALF, m % HALF;
    assert b == (s * SIGN16 + hi) * HALF + low;
    assert b / HALF == s * SIGN16 + hi && b / HALF % 2 == hi % 2;
    assert (b + 0x7FFF + hi % 2) / HALF == s * SIGN16 + RoundMag(m);
  }

  /** Rounding acts on the magnitude and keeps the sign. */
  lemma BitsRoundMagnitude(b: nat)
    requires Finite32(b)
    ensures Bf16Bits(b) == b / SIGN32 * SIGN32 + RoundMag(Magnitude(b)) * HALF
    ensures RoundMag(Magnitude(b)) <= INF16
    ensures Magnitude(Bf16Bits(b)) == RoundMag(Magnitude(b)) * HALF
    ensures Bf16Bits(b) < SIGN32 <==> b < SIGN32
    ensures Finite32(Bf16Bits(b)) <==> Magnitude(b) < 0x7F7F_8000
  {
    hide Bf16Bits, RoundMag;
    BitsAreRoundMag(b / SIGN32, Magnitude(b));
  }

  /** Within one BF16 step FP32 magnitudes grow linearly, up to and including the next step. */
  lemma StepIsLinear(hi: nat, low: nat)
    requires low <= HALF
    ensures Mag32(hi * HALF + low) == Mag32(hi * HALF) + low * Gap(hi / FRACTION16)
  {
    var e, f := hi / FRACTION16, hi % FRACTION16;
    assert hi * HALF / FRACTION32 == e && hi * HALF % FRACTION32 == f * HALF;
    var m := hi * HALF + low;
    if f * HALF + low < FRACTION32 {
      assert m / FRACTION32 == e && m % FRACTION32 == f * HALF + low;
    } else {
      assert m / FRACTION32 == e + 1 && m % FRACTION32 == 0;
      assert e > 0 ==> Gap(e + 1) == 2 * Gap(e);
    }
  }

  lemma {:induction false} Mag32StepsMonotone(a: nat, b: nat)
    requires a <= b
    ensures Mag32(a * HALF) <= Mag32(b * HALF)
    decreases b - a
  {
    if a < b {
      StepIsLinear(a, HALF);
      assert a * HALF + HALF == (a + 1) * HALF;
      Mag32StepsMonotone(a + 1, b);
    }
  }

  lemma BetweenSteps(m: nat)
    ensures Mag32(m / HALF * HALF) <= Mag32(m) < Mag32((m / HALF + 1) * HALF)
  {
    hide Mag32, Gap;
    var hi := m / HALF;
    StepIsLinear(hi, m % HALF);
    StepIsLinear(hi, HALF);
    MulStrictly(m % HALF, HALF, Gap(hi / FRACTION16));
    assert hi * HALF + HALF == (hi + 1) * HALF;
  }

  lemma Mag32Strict(m: nat, n: nat)
    requires m < n
    ensures Mag32(m) < Mag32(n)
  {
    hide Mag32, Gap;
    var hm, hn := m / HALF, n / HALF;
    if hm == hn {
      StepIsLinear(hm, m % HALF);
      StepIsLinear(hm, n % HALF);
      MulStrictly(m % HALF, n % HALF, Gap(hm / FRACTION16));
    } else {
      BetweenSteps(m);
      BetweenSteps(n);
      Mag32StepsMonotone(hm + 1, hn);
    }
  }

  lemma MulStrictly(x: nat, y: nat, n: nat)
    requires x < y && n > 0
    ensures x * n < y * n
  {
  }

  // ------------------------------------------------------------------ nearest, ties to even

  function Distance(x: int, y: int): nat {
    if x < y then y - x else x - y
  }

  /** `low` units of size g against half a step of HALF units. */
  lemma HalfWay(low: nat, g: nat)
    requires low < HALF && g > 0
    ensures var part, step := low * g, HALF * g;
            && part < step && 2 * (0x8000 * g) == step
            && (low < 0x8000 <==> 2 * part < step) && (low > 0x8000 <==> 2 * part > step)
  {
    MulStrictly(low, HALF, g);
    if low < 0x8000 { MulStrictly(low, 0x8000, g); }
    if low > 0x8000 { MulStrictly(0x8000, low, g); }
  }

  /** Between x and x + step, the nearer end is at least as near as any y outside. */
  lemma NearerEnd(x: nat, part: nat, step: nat, y: nat, up: bool)
    requires part < step && (y <= x || y >= x + step) && (if up then 2 * part >= step else 2 * part <= step)
    ensures var z, v := if up then x + step else x, x + part;
            && Distance(v, z) <= Distance(v, y) && 2 * Distance(v, z) <= step
            && (Distance(v, z) == Distance(v, y) && y != z ==> 2 * part == step)
  {
  }

  /** No BF16 magnitude lies strictly between two neighbours. */
  lemma NoneBetween(hi: nat, q: nat)
    ensures var x, y := Mag32(hi * HALF), Mag32(q * HALF);
            && (q <= hi ==> y <= x) && (q > hi ==> y >= Mag32((hi + 1) * HALF))
  {
    hide Mag32;
    if q <= hi { Mag32StepsMonotone(q, hi); } else { Mag32StepsMonotone(hi + 1, q); }
  }

  lemma DistinctMagnitudes(p: nat, q: nat)
    requires p != q
    ensures Mag32(p * HALF) != Mag32(q * HALF)
  {
    hide Mag32;
    if p < q { Mag32Strict(p * HALF, q * HALF); } else { Mag32Strict(q * HALF, p * HALF); }
  }

  /** The rounded pattern is as close to m as any BF16 magnitude, and even if another one is as close. */
  lemma RoundMagIsNearest(m: nat, q: nat)
    ensures var r := RoundMag(m);
            && Distance(Mag32(m), Mag32(r * HALF)) <= Distance(Mag32(m), Mag32(q * HALF))
            && (Distance(Mag32(m), Mag32(r * HALF)) == Distance(Mag32(m), Mag32(q * HALF)) && q != r ==> r % 2 == 0)
            && Distance(Mag32(m), Mag32(r * HALF)) <= 0x8000 * Gap(m / HALF / FRACTION16)
  {
    hide Mag32, Gap, Distance;
    var hi, low, r := m / HALF, m % HALF, RoundMag(m);
    var g, x, y := Gap(hi / FRACTION16), Mag32(hi * HALF), Mag32(q * HALF);
    StepIsLinear(hi, low);
    StepIsLinear(hi, HALF);
    NextStep(hi);
    HalfWay(low, g);
    NoneBetween(hi, q);
    NearerEnd(x, low * g, HALF * g, y, r == hi + 1);
    if q != r { DistinctMagnitudes(q, r); }
  }

  lemma NextStep(hi: nat)
    ensures hi * HALF + HALF == (hi + 1) * HALF
  {
  }

  /** A BF16 number, as the FP32 pattern with a zero low half. */
  predicate IsBf16Pattern(p: nat) {
    Finite32(p) && p % HALF == 0
  }

  /** Round to nearest, ties to even, over all finite BF16 numbers of either sign. */
  lemma RoundsToNearestEven(b: nat, p: nat)
    requires Finite32(b) && Magnitude(b) < 0x7F7F_8000 && IsBf16Pattern(p)
    ensures var r := Bf16Bits(b);
            && IsBf16Pattern(r)
            && Distance(Value32(b), Value32(r)) <= Distance(Value32(b), Value32(p))
            && (Distance(Value32(b), Value32(r)) == Distance(Value32(b), Value32(p)) && Value32(p) != Value32(r) ==>
                  r / HALF % 2 == 0)
  {
    hide Mag32, RoundMag, Bf16Bits;
    var m, q := Magnitude(b), Magnitude(p) / HALF;
    BitsRoundMagnitude(b);
    assert Magnitude(p) == q * HALF;
    RoundMagIsNearest(m, q);
    RoundMagIsNearest(m, 0);
    assert Mag32(0 * HALF) == 0 by { ZeroMag(); }
    SignedParity(b, RoundMag(m));
  }

  lemma ZeroMag()
    ensures Mag32(0) == 0
  {
  }

  lemma SignedParity(b: nat, r: nat)
    requires b < 2 * SIGN32 && r < SIGN16
    ensures (b / SIGN32 * SIGN32 + r * HALF) / HALF % 2 == r % 2
  {
  }

  // ---------------------------------------------------- monotone, idempotent, error, maxima

  lemma RoundMagMonotone(m: nat, n: nat)
    requires m <= n
    ensures RoundMag(m) <= RoundMag(n)
  {
  }

  lemma Mag32Monotone(m: nat, n: nat)
    ensures Mag32(m) <= Mag32(n) <==> m <= n
  {
    hide Mag32;
    if m < n { Mag32Strict(m, n); }
    if n < m { Mag32Strict(n, m); }
  }

  lemma RoundingIsMonotone(b: nat, b': nat)
    requires Finite32(b) && Finite32(b') && Value32(b) <= Value32(b')
    ensures Value32(Bf16Bits(b)) <= Value32(Bf16Bits(b'))
  {
    hide Mag32, RoundMag, Bf16Bits;
    var m, m' := Magnitude(b), Magnitude(b');
    BitsRoundMagnitude(b);
    BitsRoundMagnitude(b');
    Mag32Monotone(m, m');
    Mag32Monotone(m', m);
    if m <= m' { RoundMagMonotone(m, m'); }
    if m' <= m { RoundMagMonotone(m', m); }
    Mag32Monotone(RoundMag(m) * HALF, RoundMag(m') * HALF);
    Mag32Monotone(RoundMag(m') * HALF, RoundMag(m) * HALF);
    ZeroRounds(m);
    ZeroRounds(m');
  }

  /** Only zero has magnitude 0, and zero rounds to zero. */
  lemma ZeroRounds(m: nat)
    ensures Mag32(m) == 0 <==> m == 0
    ensures RoundMag(0) == 0 && Mag32(0) == 0
  {
    Mag32Monotone(m, 0);
  }

  lemma RoundingIsIdempotent(b: nat)
    requires b < 2 * SIGN32
    ensures Bf16Bits(Bf16Bits(b)) == Bf16Bits(b)
  {
    var q := (b + 0x7FFF + b / HALF % 2) / HALF % HALF;
    assert Bf16Bits(b) == q * HALF;
    assert (q * HALF + 0x7FFF + q % 2) / HALF == q;
  }

  /** The relative error on normal numbers is at most 2^-8. */
  lemma RelativeErrorOfNormals(b: nat)
    requires b < 2 * SIGN32 && FRACTION32 <= Magnitude(b) < 0x7F7F_8000
    ensures 256 * Distance(Value32(b), Value32(Bf16Bits(b))) <= Mag32(Magnitude(b))
  {
    hide Mag32, RoundMag, Bf16Bits;
    var m := Magnitude(b);
    BitsRoundMagnitude(b);
    RoundMagIsNearest(m, 0);
    NormalMagnitude(m);
  }

  lemma NormalMagnitude(m: nat)
    requires m >= FRACTION32
    ensures Mag32(m) >= FRACTION32 * Gap(m / HALF / FRACTION16)
  {
    assert m / HALF / FRACTION16 == m / FRACTION32;
  }

  /** Largest magnitude pattern of a vector. */
  function MaxMagnitude(v: seq<nat>): (m: nat)
    requires |v| > 0
    ensures exists i | 0 <= i < |v| :: m == Magnitude(v[i])
    ensures forall i | 0 <= i < |v| :: Magnitude(v[i]) <= m
  {
    if |v| == 1 then Magnitude(v[0]) else
    var m := MaxMagnitude(v[1..]);
    if Magnitude(v[0]) >= m then Magnitude(v[0]) else m
  }

  predicate AllFinite32(v: seq<nat>) {
    forall i {:trigger v[i]} | 0 <= i < |v| :: Finite32(v[i])
  }

  /** The rounded form of a vector. */
  function RoundAll(v: seq<nat>): (r: seq<nat>)
    requires AllFinite32(v)
    ensures |r| == |v| && forall i | 0 <= i < |v| :: r[i] == Bf16Bits(v[i])
  {
    seq(|v|, i requires 0 <= i < |v| => Bf16Bits(v[i]))
  }

  lemma TopIsFinite(b: nat)
    requires Finite32(b)
    ensures Finite32(Magnitude(b)) && Magnitude(Magnitude(b)) == Magnitude(b) && Magnitude(b) / SIGN32 == 0
  {
  }

  /** max |bf16(r_i)| = bf16(max |r_i|). */
  lemma MaximumOfRounded(v: seq<nat>)
    requires |v| > 0 && AllFinite32(v)
    ensures MaxMagnitude(RoundAll(v)) == Bf16Bits(MaxMagnitude(v))
  {
    hide Bf16Bits, RoundMag, Magnitude;
    var top := MaxMagnitude(v);
    var k :| 0 <= k < |v| && top == Magnitude(v[k]);
    TopIsFinite(v[k]);
    BitsRoundMagnitude(top);
    forall i | 0 <= i < |v| ensures Magnitude(RoundAll(v)[i]) == RoundMag(Magnitude(v[i])) * HALF <= Bf16Bits(top) {
      BitsRoundMagnitude(v[i]);
      RoundMagMonotone(Magnitude(v[i]), top);
    }
    assert Magnitude(RoundAll(v)[k]) == Bf16Bits(top);
  }
}
