/** The offline classification of a checkpoint from its recorded maxima. */
module Criterion {
  import opened Bf16
  import opened Ordinals

  /** What a checkpoint records about the runtime output and the reference. */
  datatype Record = Record(refMaxAbs: nat, maxErr: nat, elements: nat, exactEqual: nat, maxUlp: nat)

  datatype Class = AllExact | BelowFloor | FlipAboveFloor | Undetermined

  datatype Verdict = Verdict(c1: bool, class_: Class)

  /** The recorded maximum rounded to BF16. */
  function RoundedMax(rec: Record): nat
    requires Finite32(rec.refMaxAbs)
  {
    Mag16(Bf16Bits(rec.refMaxAbs) / HALF % SIGN16)
  }

  /** classify, with floor = 0.01 * m and u = 2^-8 cleared of fractions. `refMaxAbs` is an
      FP32 pattern and `maxErr` is in units of 2^-133. */
  function Classify(v: Record): Verdict
    requires v.exactEqual <= v.elements && Finite32(v.refMaxAbs)
  {
    var m := RoundedMax(v);
    var c1 := if m != 0 then 256 * v.maxErr <= m else v.maxErr == 0;
    var class_ :=
      if v.elements - v.exactEqual == 0 then AllExact
      else if 257 * v.maxErr * 100 < m then BelowFloor
      else if v.maxUlp == 1 && 128 * v.maxErr * 100 >= m then FlipAboveFloor
      else Undetermined;
    Verdict(c1, class_)
  }

  // --------------------------------------------------------------- what compare() records

  /** A BF16 output y and the reference x rounded to BF16, as 16-bit patterns. */
  datatype Pair = Pair(y: nat, x: nat)

  predicate ZeroOrNormal(q: nat) {
    Finite16(q) && (q % SIGN16 == 0 || q % SIGN16 >= FRACTION16)
  }

  predicate FinitePair(p: Pair) {
    Finite16(p.y) && Finite16(p.x)
  }

  predicate AllFinitePairs(v: seq<Pair>) {
    forall i {:trigger v[i]} | 0 <= i < |v| :: FinitePair(v[i])
  }

  /** No subnormals. */
  predicate Usable(p: Pair) {
    ZeroOrNormal(p.y) && ZeroOrNormal(p.x)
  }

  predicate AllUsable(v: seq<Pair>) {
    forall i {:trigger v[i]} | 0 <= i < |v| :: Usable(v[i])
  }

  function Err(p: Pair): nat {
    Distance(Value16(p.y), Value16(p.x))
  }

  function UlpsOf(p: Pair): nat
    requires FinitePair(p)
  {
    Ulps(p.y, p.x)
  }

  function RefMag(p: Pair): nat {
    Mag16(p.x % SIGN16)
  }

  function MaxErr(v: seq<Pair>): (e: nat)
    requires |v| > 0
    ensures exists i | 0 <= i < |v| :: Err(v[i]) == e
    ensures forall i | 0 <= i < |v| :: Err(v[i]) <= e
  {
    if |v| == 1 then Err(v[0]) else
    var e := MaxErr(v[1..]);
    if Err(v[0]) >= e then Err(v[0]) else e
  }

  function MaxUlps(v: seq<Pair>): (d: nat)
    requires |v| > 0 && AllFinitePairs(v)
    ensures exists i | 0 <= i < |v| :: UlpsOf(v[i]) == d
    ensures forall i | 0 <= i < |v| :: UlpsOf(v[i]) <= d
  {
    if |v| == 1 then UlpsOf(v[0]) else
    var d := MaxUlps(v[1..]);
    if UlpsOf(v[0]) >= d then UlpsOf(v[0]) else d
  }

  function MaxRef(v: seq<Pair>): (m: nat)
    requires |v| > 0
    ensures exists i | 0 <= i < |v| :: RefMag(v[i]) == m
    ensures forall i | 0 <= i < |v| :: RefMag(v[i]) <= m
  {
    if |v| == 1 then RefMag(v[0]) else
    var m := MaxRef(v[1..]);
    if RefMag(v[0]) >= m then RefMag(v[0]) else m
  }

  function CountExact(v: seq<Pair>): (n: nat)
    requires AllFinitePairs(v)
    ensures n <= |v|
    ensures n == |v| <==> forall i | 0 <= i < |v| :: UlpsOf(v[i]) == 0
  {
    if |v| == 0 then 0 else
    var n := CountExact(v[1..]);
    assert v == [v[0]] + v[1..];
    if UlpsOf(v[0]) == 0 then n + 1 else n
  }

  // -------------------------------------------------------------------------- criterion

  /** C1: the largest error is at most 2^-8 of the largest reference. */
  predicate C1(v: seq<Pair>)
    requires |v| > 0
  {
    256 * MaxErr(v) <= MaxRef(v)
  }

  predicate AboveFloor(v: seq<Pair>, i: nat)
    requires i < |v|
  {
    100 * RefMag(v[i]) >= MaxRef(v)
  }

  /** C2: every error above the floor is at most 2^-8 of its own reference. */
  predicate C2(v: seq<Pair>) {
    forall i | 0 <= i < |v| :: AboveFloor(v, i) ==> 256 * Err(v[i]) <= RefMag(v[i])
  }

  /** The reference is a power of two and the runtime value the next lower BF16 number, both normal. */
  predicate Edge(p: Pair) {
    && p.y % SIGN16 >= FRACTION16
    && (p.y < SIGN16 <==> p.x < SIGN16)
    && p.x % SIGN16 % FRACTION16 == 0
    && p.y % SIGN16 + 1 == p.x % SIGN16
  }

  // ------------------------------------------------------------------------- soundness

  lemma ExactMeansEqual(p: Pair)
    requires FinitePair(p)
    ensures UlpsOf(p) == 0 <==> Err(p) == 0
  {
    hide Mag16;
    OrdIsMonotone(p.y, p.x);
  }

  /** A disagreement of error at most `err` has a reference below 257 * err. */
  lemma DisagreementIsSmall(p: Pair, err: nat)
    requires FinitePair(p) && UlpsOf(p) >= 1 && Err(p) <= err
    ensures RefMag(p) < 257 * err
  {
    hide Mag16, Value16, SameSigned, UlpsOf;
    var a, b, d := Mag16(p.y % SIGN16), Mag16(p.x % SIGN16), UlpsOf(p);
    assert d == Ulps(p.y, p.x) by { UlpsOfIs(p); }
    PairMagnitude(p.y, p.x, err);
    if SameSigned(p.y, p.x) {
      AtLeastOnce(Smaller(a, b), d);
      SameSignedDistance(p);
    }
  }

  lemma UlpsOfIs(p: Pair)
    requires FinitePair(p)
    ensures UlpsOf(p) == Ulps(p.y, p.x)
  {
  }

  lemma AtLeastOnce(x: nat, d: nat)
    requires d >= 1
    ensures x <= x * d
  {
  }

  lemma SameSignedDistance(p: Pair)
    requires FinitePair(p) && SameSigned(p.y, p.x)
    ensures Err(p) == Distance(Mag16(p.y % SIGN16), Mag16(p.x % SIGN16))
    ensures UlpsOf(p) == Distance(p.y % SIGN16, p.x % SIGN16)
  {
    hide Mag16;
    ZeroMag16();
    assert (p.y < SIGN16 <==> p.x < SIGN16) || p.y % SIGN16 == 0 || p.x % SIGN16 == 0;
  }

  lemma FlipIsSameSigned(p: Pair)
    requires FinitePair(p) && UlpsOf(p) == 1
    ensures SameSigned(p.y, p.x) && Distance(p.y % SIGN16, p.x % SIGN16) == 1
    ensures p.y % SIGN16 > 0 && p.x % SIGN16 > 0 ==> (p.y < SIGN16 <==> p.x < SIGN16)
  {
  }

  /** Subnormals are one unit apart. */
  lemma SubnormalStep(q: nat)
    requires q < FRACTION16
    ensures Mag16(q) == q && Mag16(q + 1) == q + 1
  {
    NextMagnitude(q);
  }

  /** A 1-ULP flip: its size against the reference, and the one edge case. Below 2^-7 only outside the
      subnormals, where the error is a single unit. */
  lemma OneUlpFlip(p: Pair)
    requires FinitePair(p) && UlpsOf(p) == 1
    ensures 0 < Err(p) && RefMag(p) <= 256 * Err(p)
    ensures 256 * Err(p) > RefMag(p) <==> !Edge(p)
    ensures Usable(p) || Err(p) >= 2 ==> 128 * Err(p) <= RefMag(p)
  {
    hide Mag16, Gap, SameSigned, Err, UlpsOf;
    FlipIsSameSigned(p);
    SameSignedDistance(p);
    var lo := Smaller(p.y % SIGN16, p.x % SIGN16);
    if lo < FRACTION16 {
      SubnormalStep(lo);
    } else {
      NextMagnitude(lo);
      MagnitudeBelow256Gaps(lo);
      TopOfBinade(lo);
    }
  }

  /** The number above q is 256 gaps of q exactly when q ends its binade. */
  lemma TopOfBinade(q: nat)
    requires q >= FRACTION16
    ensures Mag16(q + 1) <= 256 * Gap(q / FRACTION16)
    ensures Mag16(q + 1) == 256 * Gap(q / FRACTION16) <==> (q + 1) % FRACTION16 == 0
  {
    NextMagnitude(q);
    var e, f := q / FRACTION16, q % FRACTION16;
    assert Mag16(q + 1) == (FRACTION16 + f + 1) * Gap(e);
    if f + 1 < FRACTION16 { MulStrictly(FRACTION16 + f + 1, 256, Gap(e)); }
  }

  /** `rec` is what is recorded for outputs and references `v`, `r` being the unrounded references. */
  predicate Captured(rec: Record, r: seq<nat>, v: seq<Pair>) {
    && |r| == |v| > 0 && AllFinite32(r) && AllFinitePairs(v)
    && (forall i | 0 <= i < |v| :: v[i].x == Bf16Bits(r[i]) / HALF)
    && rec == Record(MaxMagnitude(r), MaxErr(v), |v|, CountExact(v), MaxUlps(v))
  }

  lemma ReferenceMagnitude(b: nat, p: Pair)
    requires Finite32(b) && p.x == Bf16Bits(b) / HALF
    ensures RefMag(p) == Mag16(RoundMag(Magnitude(b)))
  {
    hide Mag16, Bf16Bits, RoundMag;
    BitsRoundMagnitude(b);
  }

  /** C1 and the floor are computed exactly: rounding the maximum gives the maximum of the rounded. */
  lemma MaxRefIsRoundedMax(rec: Record, r: seq<nat>, v: seq<Pair>)
    requires Captured(rec, r, v)
    ensures Finite32(rec.refMaxAbs) && MaxRef(v) == RoundedMax(rec)
  {
    hide Mag16, Bf16Bits, RoundMag, AllFinitePairs, Magnitude;
    var top := MaxMagnitude(r);
    var k :| 0 <= k < |r| && top == Magnitude(r[k]);
    TopIsFinite(r[k]);
    ReferenceMagnitude(r[k], v[k]);
    ReferenceMagnitude(top, Pair(0, Bf16Bits(top) / HALF));
    assert RefMag(v[k]) == Mag16(Bf16Bits(top) / HALF % SIGN16);
    forall i | 0 <= i < |v| ensures RefMag(v[i]) <= RefMag(v[k]) {
      ReferenceMagnitude(r[i], v[i]);
      RoundMagMonotone(Magnitude(r[i]), top);
      Mag16Strict(RoundMag(top), RoundMag(Magnitude(r[i])));
    }
  }

  /** Both passing classes imply C2, and the recorded C1 is C1. */
  lemma PassClassesAreSound(rec: Record, r: seq<nat>, v: seq<Pair>)
    requires Captured(rec, r, v) && Finite32(rec.refMaxAbs)
    ensures Classify(rec).c1 <==> C1(v)
    ensures Classify(rec).class_ == AllExact || Classify(rec).class_ == BelowFloor ==> C2(v)
  {
    hide Mag16, Bf16Bits, FinitePair, UlpsOf, Err, RefMag;
    MaxRefIsRoundedMax(rec, r, v);
    var c := Classify(rec).class_;
    if c == AllExact || c == BelowFloor {
      forall i | 0 <= i < |v| && AboveFloor(v, i) ensures 256 * Err(v[i]) <= RefMag(v[i]) {
        ExactMeansEqual(v[i]);
        if UlpsOf(v[i]) > 0 { DisagreementIsSmall(v[i], MaxErr(v)); }
      }
    }
  }

  /** When each class is returned, in terms of the elements: nothing disagrees; 257 times the largest error is below
      a hundredth of the largest reference; every disagreement is one ULP and 128 times the largest error is not. */
  lemma ClassMeans(rec: Record, r: seq<nat>, v: seq<Pair>)
    requires Captured(rec, r, v) && Finite32(rec.refMaxAbs)
    ensures var exact := forall i | 0 <= i < |v| :: UlpsOf(v[i]) == 0;
            var below := 25700 * MaxErr(v) < MaxRef(v);
            var flips := (forall i | 0 <= i < |v| :: UlpsOf(v[i]) <= 1) && 12800 * MaxErr(v) >= MaxRef(v);
            Classify(rec).class_ ==
              if exact then AllExact else if below then BelowFloor else if flips then FlipAboveFloor else Undetermined
  {
    hide Mag16, Bf16Bits, FinitePair, UlpsOf, Err, RefMag, RoundedMax;
    MaxRefIsRoundedMax(rec, r, v);
  }

  lemma FlipFacts(p: Pair)
    requires FinitePair(p) && UlpsOf(p) <= 1
    ensures UlpsOf(p) == 0 <==> Err(p) == 0
    ensures 256 * Err(p) > RefMag(p) <==> UlpsOf(p) == 1 && !Edge(p)
    ensures UlpsOf(p) == 1 ==> RefMag(p) <= 256 * Err(p)
    ensures Usable(p) || Err(p) >= 2 ==> 128 * Err(p) <= RefMag(p)
  {
    hide Mag16;
    ExactMeansEqual(p);
    if UlpsOf(p) == 1 { OneUlpFlip(p); }
  }

  /** A record in the failing class, of whatever vector. */
  predicate Failing(rec: Record, r: seq<nat>, v: seq<Pair>) {
    Captured(rec, r, v) && Finite32(rec.refMaxAbs) && Classify(rec).class_ == FlipAboveFloor
  }

  /** The failing class: elements with the largest error are flips, above the floor unless subnormal, and
      C2 fails exactly when some flip above the floor is not the edge case. */
  lemma FailClassIsSound(rec: Record, r: seq<nat>, v: seq<Pair>)
    requires Failing(rec, r, v)
    ensures MaxErr(v) > 0
    ensures forall i | 0 <= i < |v| && Err(v[i]) == MaxErr(v) ::
              UlpsOf(v[i]) == 1 && (Usable(v[i]) || MaxErr(v) >= 2 ==> AboveFloor(v, i))
    ensures !C2(v) <==> exists i | 0 <= i < |v| :: AboveFloor(v, i) && UlpsOf(v[i]) == 1 && !Edge(v[i])
  {
    hide Mag16, Bf16Bits, FinitePair, Usable, UlpsOf, Err, RefMag, Edge, RoundedMax;
    MaxRefIsRoundedMax(rec, r, v);
    forall i | 0 <= i < |v|
      ensures UlpsOf(v[i]) <= 1 && (UlpsOf(v[i]) == 0 <==> Err(v[i]) == 0)
      ensures 256 * Err(v[i]) > RefMag(v[i]) <==> UlpsOf(v[i]) == 1 && !Edge(v[i])
      ensures Usable(v[i]) || Err(v[i]) >= 2 ==> 128 * Err(v[i]) <= RefMag(v[i])
    {
      FlipFacts(v[i]);
    }
    var j :| 0 <= j < |v| && UlpsOf(v[j]) == 1;
    assert MaxErr(v) >= Err(v[j]) > 0;
  }

  // --------------------------------------------------------- what a record can conclude

  /** `f` is the flip of a vector with `exactEqual` agreements at the maximum M and copies of f otherwise;
      b is the reference of f before rounding. */
  predicate Fits(rec: Record, M: nat, f: Pair, b: nat) {
    && rec.exactEqual < rec.elements && rec.maxUlp == 1
    && rec.refMaxAbs < INF32 && RoundMag(rec.refMaxAbs) == M < INF16
    && FinitePair(f) && UlpsOf(f) == 1 && Err(f) == rec.maxErr
    && RoundsTo(b, f.x) && b <= rec.refMaxAbs && (rec.exactEqual > 0 || b == rec.refMaxAbs)
    && (256 * Err(f) <= RefMag(f) || (rec.exactEqual > 0 && 100 * RefMag(f) < Mag16(M)))
  }

  function Rival(rec: Record, M: nat, f: Pair): (v: seq<Pair>)
    ensures |v| == rec.elements && forall i | 0 <= i < |v| :: v[i] == if i < rec.exactEqual then Pair(M, M) else f
  {
    seq(rec.elements, i => if i < rec.exactEqual then Pair(M, M) else f)
  }

  function RivalRefs(rec: Record, b: nat): (r: seq<nat>)
    ensures |r| == rec.elements && forall i | 0 <= i < |r| :: r[i] == if i < rec.exactEqual then rec.refMaxAbs else b
  {
    seq(rec.elements, i => if i < rec.exactEqual then rec.refMaxAbs else b)
  }

  /** An FP32 magnitude that rounds to the BF16 magnitude q. */
  predicate RoundsTo(b: nat, q: nat) {
    Finite32(b) && Magnitude(b) == b && Bf16Bits(b) / HALF == q
  }

  lemma MagnitudeRounds(b: nat)
    requires b < INF32
    ensures RoundsTo(b, RoundMag(b))
  {
    hide Bf16Bits, RoundMag;
    BitsRoundMagnitude(b);
  }

  lemma ExactRounds(t: nat)
    requires t < INF16
    ensures RoundsTo(t * HALF, t)
  {
    hide Bf16Bits;
    BitsRoundMagnitude(t * HALF);
    assert RoundMag(t * HALF) == t;
  }

  lemma SmallerStep(top: nat, t: nat)
    requires t < RoundMag(top)
    ensures t * HALF <= top
  {
    assert t <= top / HALF;
  }

  lemma {:induction false} CountOfRival(v: seq<Pair>, exact: nat)
    requires AllFinitePairs(v) && exact <= |v|
    requires forall i | 0 <= i < |v| :: UlpsOf(v[i]) == if i < exact then 0 else 1
    ensures CountExact(v) == exact
  {
    hide UlpsOf, FinitePair;
    if |v| > 0 { CountOfRival(v[1..], if exact > 0 then exact - 1 else 0); }
  }

  /** The references round to the second components and have the recorded maximum. */
  lemma RivalRefsRound(rec: Record, M: nat, f: Pair, b: nat)
    requires Fits(rec, M, f, b)
    ensures var r, v := RivalRefs(rec, b), Rival(rec, M, f);
            && AllFinite32(r) && MaxMagnitude(r) == rec.refMaxAbs
            && forall i | 0 <= i < |v| :: v[i].x == Bf16Bits(r[i]) / HALF
  {
    hide Bf16Bits, Magnitude, Finite32, RoundMag, FinitePair, UlpsOf, Err, RefMag, Mag16;
    var r, v := RivalRefs(rec, b), Rival(rec, M, f);
    MagnitudeRounds(rec.refMaxAbs);
    assert Magnitude(r[0]) == rec.refMaxAbs;
  }

  lemma AgreementFacts(M: nat)
    requires M < INF16
    ensures FinitePair(Pair(M, M)) && UlpsOf(Pair(M, M)) == 0 && Err(Pair(M, M)) == 0 && RefMag(Pair(M, M)) == Mag16(M)
  {
    hide Mag16;
  }

  lemma RivalMaxima(rec: Record, M: nat, f: Pair)
    requires rec.exactEqual < rec.elements && M < INF16 && FinitePair(f) && UlpsOf(f) == 1
    ensures var v := Rival(rec, M, f);
            && AllFinitePairs(v) && MaxErr(v) == Err(f) && MaxUlps(v) == 1 && CountExact(v) == rec.exactEqual
            && (rec.exactEqual > 0 ==> Mag16(M) <= MaxRef(v))
  {
    hide Mag16, Err, UlpsOf, RefMag, FinitePair, MaxErr, MaxUlps, MaxRef, CountExact;
    var v := Rival(rec, M, f);
    AgreementFacts(M);
    assert v[rec.elements - 1] == f;
    assert MaxErr(v) == Err(f) && MaxUlps(v) == 1;
    CountOfRival(v, rec.exactEqual);
    assert rec.exactEqual > 0 ==> RefMag(v[0]) == Mag16(M);
  }

  /** Such a vector is captured by its record and satisfies C2. */
  lemma RivalIsCaptured(rec: Record, M: nat, f: Pair, b: nat)
    requires Fits(rec, M, f, b)
    ensures Captured(rec, RivalRefs(rec, b), Rival(rec, M, f)) && C2(Rival(rec, M, f))
  {
    hide Mag16, Bf16Bits, Err, UlpsOf, RefMag, RoundMag, FinitePair, RoundsTo, MaxErr, MaxUlps, MaxRef, CountExact,
         MaxMagnitude, AllFinitePairs, AllFinite32;
    RivalRefsRound(rec, M, f, b);
    AgreementFacts(M);
    RivalMaxima(rec, M, f);
  }

  // ------------------------------------------------------------------------------ edges

  /** Start of the first binade above q whose lower neighbour is normal. */
  function EdgeAbove(q: nat): nat {
    if q < FRACTION16 then 2 * FRACTION16 else (q / FRACTION16 + 1) * FRACTION16
  }

  lemma EdgeAboveFacts(q: nat)
    ensures var t := EdgeAbove(q);
            && t % FRACTION16 == 0 && t >= 2 * FRACTION16
            && (q >= FRACTION16 ==> (t - 1) / FRACTION16 == q / FRACTION16)
            && (q < FRACTION16 ==> (t - 1) / FRACTION16 == 1)
  {
  }

  /** The edge pair with the error of a given flip. */
  lemma SameSizeEdge(p: Pair)
    requires FinitePair(p) && UlpsOf(p) == 1
    ensures var t := EdgeAbove(Smaller(p.y % SIGN16, p.x % SIGN16));
            && t % FRACTION16 == 0 && t >= 2 * FRACTION16
            && Mag16(t) == 256 * Err(p) && Mag16(t) == Mag16(t - 1) + Err(p)
  {
    hide Mag16, Gap, SameSigned, Err, UlpsOf, EdgeAbove;
    FlipIsSameSigned(p);
    SameSignedDistance(p);
    var lo := Smaller(p.y % SIGN16, p.x % SIGN16);
    var t := EdgeAbove(lo);
    EdgeAboveFacts(lo);
    NextMagnitude(t - 1);
    TopOfBinade(t - 1);
    if lo < FRACTION16 {
      SubnormalStep(lo);
      UnitGap();
    } else {
      NextMagnitude(lo);
    }
  }

  lemma UnitGap()
    ensures Gap(1) == 1
  {
  }

  lemma EdgePairFacts(t: nat)
    requires t % FRACTION16 == 0 && 2 * FRACTION16 <= t < INF16
    ensures var p := Pair(t - 1, t);
            && Usable(p) && FinitePair(p) && UlpsOf(p) == 1 && Edge(p)
            && Mag16(t) == Mag16(t - 1) + Err(p) && RefMag(p) == Mag16(t)
  {
    hide Mag16;
    Mag16Strict(t - 1, t);
  }

  lemma {:induction false} NoneExact(v: seq<Pair>, j: nat)
    requires AllFinitePairs(v) && j < |v| && CountExact(v) == 0
    ensures UlpsOf(v[j]) > 0
  {
    hide UlpsOf, FinitePair;
    if j > 0 { NoneExact(v[1..], j - 1); }
  }

  /** If nothing agrees exactly, the largest reference belongs to a flip. */
  lemma TopIsFlip(v: seq<Pair>) returns (j: nat)
    requires |v| > 0 && AllFinitePairs(v) && MaxUlps(v) == 1 && CountExact(v) == 0
    ensures j < |v| && RefMag(v[j]) == MaxRef(v) && UlpsOf(v[j]) == 1 && 0 < Err(v[j]) <= MaxErr(v)
    ensures MaxRef(v) <= 256 * Err(v[j])
  {
    hide Mag16, Err, RefMag, UlpsOf, Edge, FinitePair, Usable, MaxErr, MaxRef, MaxUlps, CountExact;
    j :| 0 <= j < |v| && RefMag(v[j]) == MaxRef(v);
    NoneExact(v, j);
    OneUlpFlip(v[j]);
  }

  lemma TopOfRecord(rec: Record, r: seq<nat>, v: seq<Pair>)
    requires Captured(rec, r, v) && Finite32(rec.refMaxAbs)
    ensures var top := rec.refMaxAbs;
            top < INF32 && RoundMag(top) < INF16 && MaxRef(v) == Mag16(RoundMag(top)) == RoundedMax(rec)
  {
    hide Mag16, Bf16Bits, RoundMag, Magnitude, MaxErr, MaxRef, MaxUlps, CountExact;
    var top := rec.refMaxAbs;
    MaxRefIsRoundedMax(rec, r, v);
    var k :| 0 <= k < |r| && top == Magnitude(r[k]);
    TopIsFinite(r[k]);
    RoundedPattern(r[k]);
    RoundedPattern(top);
    assert FinitePair(v[k]);
  }

  lemma RoundedPattern(b: nat)
    requires Finite32(b)
    ensures Bf16Bits(b) / HALF % SIGN16 == RoundMag(Magnitude(b)) && (b == Magnitude(b) ==> b < INF32)
  {
    hide Bf16Bits, RoundMag;
    BitsRoundMagnitude(b);
  }

  lemma FlipClassMeans(rec: Record)
    requires rec.exactEqual <= rec.elements && Finite32(rec.refMaxAbs) && Classify(rec).class_ == FlipAboveFloor
    ensures rec.maxUlp == 1 && rec.exactEqual < rec.elements
  {
  }

  /** A flip with the largest error. */
  lemma LargestFlip(rec: Record, r: seq<nat>, v: seq<Pair>) returns (k: nat)
    requires Failing(rec, r, v)
    ensures k < |v| && Err(v[k]) == MaxErr(v) == rec.maxErr > 0 && FinitePair(v[k]) && UlpsOf(v[k]) == 1
    ensures Usable(v[k]) || rec.maxErr >= 2 ==> AboveFloor(v, k)
  {
    hide Mag16, Classify, UlpsOf, Err, MaxErr, MaxRef, MaxUlps, CountExact, C2, Edge, AboveFloor, Usable;
    FailClassIsSound(rec, r, v);
    k :| 0 <= k < |v| && Err(v[k]) == MaxErr(v);
  }

  /** A record that passes C1 has room for an edge of its largest error. */
  lemma EdgeFits(rec: Record, r: seq<nat>, v: seq<Pair>) returns (M: nat, t: nat, b: nat)
    requires Failing(rec, r, v) && Classify(rec).c1
    ensures t % FRACTION16 == 0 && 2 * FRACTION16 <= t <= M < INF16 && Fits(rec, M, Pair(t - 1, t), b)
  {
    hide Mag16, Classify, UlpsOf, Err, RefMag, RoundMag, MaxErr, MaxRef, MaxUlps, CountExact, C2, Usable, FinitePair,
         EdgeAbove, Edge, AboveFloor, RoundsTo, RoundedMax, Finite32;
    FlipClassMeans(rec);
    PassClassesAreSound(rec, r, v);
    TopOfRecord(rec, r, v);
    var k := LargestFlip(rec, r, v);
    t, M := EdgeAbove(Smaller(v[k].y % SIGN16, v[k].x % SIGN16)), RoundMag(rec.refMaxAbs);
    SameSizeEdge(v[k]);
    Mag16Strict(M, t);
    EdgePairFacts(t);
    MagnitudeRounds(rec.refMaxAbs);
    ExactRounds(t);
    b := if t == M then rec.refMaxAbs else t * HALF;
    if t < M { SmallerStep(rec.refMaxAbs, t); }
    if rec.exactEqual == 0 {
      var j := TopIsFlip(v);
      Mag16Strict(t, M);
    }
  }

  /** Next to an agreement, an output of one unit for a reference of 0 has the smallest error there is. */
  lemma UnitFits(rec: Record, r: seq<nat>, v: seq<Pair>)
    requires Failing(rec, r, v) && rec.maxErr == 1 && rec.exactEqual > 0 && RoundedMax(rec) > 0
    ensures Fits(rec, RoundMag(rec.refMaxAbs), Pair(1, 0), 0)
  {
    hide Mag16, Classify, RoundMag, MaxErr, MaxRef, MaxUlps, CountExact, C2, Usable, RoundedMax, RoundsTo,
         FinitePair, UlpsOf, Err, RefMag;
    FlipClassMeans(rec);
    TopOfRecord(rec, r, v);
    ExactRounds(0);
    UnitPairFacts();
  }

  lemma UnitPairFacts()
    ensures var f := Pair(1, 0); FinitePair(f) && UlpsOf(f) == 1 && Err(f) == 1 && RefMag(f) == 0
  {
    hide Mag16;
    SubnormalStep(0);
  }

  /** The failing class does not imply a failure: every power of two as the reference, with the number below
      it as the output, is recorded in the failing class and satisfies C2. */
  lemma FailClassMisleads(t: nat)
    requires t % FRACTION16 == 0 && 2 * FRACTION16 <= t < INF16
    ensures var f := Pair(t - 1, t);
            Failing(Record(t * HALF, Err(f), 1, 0, 1), [t * HALF], [f]) && C2([f])
  {
    hide Mag16, Bf16Bits, Err, UlpsOf, RefMag, RoundMag, FinitePair, Edge, Usable;
    var f, b := Pair(t - 1, t), t * HALF;
    var rec := Record(b, Err(f), 1, 0, 1);
    EdgePairFacts(t);
    OneUlpFlip(f);
    ExactRounds(t);
    RoundedPattern(b);
    assert Fits(rec, t, f, b);
    RivalIsCaptured(rec, t, f, b);
    assert RivalRefs(rec, b) == [b] && Rival(rec, t, f) == [f];
    assert RoundedMax(rec) == RefMag(f) by { MaxRefIsRoundedMax(rec, [b], [f]); }
  }

  // -------------------------------------------------------------------------- conclusions

  /** The failing class decides C2 for a record of this kind. */
  predicate Conclusive(rec: Record)
    requires rec.exactEqual <= rec.elements && Finite32(rec.refMaxAbs)
  {
    !Classify(rec).c1 && (rec.maxErr >= 2 || rec.exactEqual == 0 || RoundedMax(rec) == 0)
  }

  lemma FailedC1Means(rec: Record, r: seq<nat>, v: seq<Pair>)
    requires Failing(rec, r, v) && !Classify(rec).c1
    ensures 256 * MaxErr(v) > MaxRef(v) == RoundedMax(rec)
  {
    hide Classify, RoundedMax, MaxErr, MaxRef, MaxUlps, CountExact, C2;
    PassClassesAreSound(rec, r, v);
    MaxRefIsRoundedMax(rec, r, v);
  }

  /** An error above 2^-8 of the largest reference, at an element above the floor, violates C2. */
  lemma Violates(v: seq<Pair>, i: nat)
    requires i < |v| && AboveFloor(v, i) && 256 * Err(v[i]) > MaxRef(v)
    ensures !C2(v)
  {
    hide Err, RefMag, MaxRef;
    assert RefMag(v[i]) <= MaxRef(v);
  }

  lemma ConclusiveMeans(rec: Record, r: seq<nat>, v: seq<Pair>)
    requires Failing(rec, r, v) && Conclusive(rec)
    ensures !C2(v)
  {
    hide Classify, RoundedMax, MaxErr, MaxRef, MaxUlps, CountExact, C2, Err, RefMag, UlpsOf, FinitePair, Usable, Edge;
    FailedC1Means(rec, r, v);
    FlipClassMeans(rec);
    var k := LargestFlip(rec, r, v);
    if rec.maxErr >= 2 || RoundedMax(rec) == 0 {
      Violates(v, k);
    } else {
      var j := TopIsFlip(v);
      Violates(v, j);
    }
  }

  /** Otherwise the record is also that of a vector that satisfies C2, without subnormals if it passes C1. */
  lemma InconclusiveMeans(rec: Record, r: seq<nat>, v: seq<Pair>) returns (r': seq<nat>, v': seq<Pair>)
    requires Failing(rec, r, v) && !Conclusive(rec)
    ensures Captured(rec, r', v') && C2(v') && (Classify(rec).c1 ==> AllUsable(v'))
  {
    hide Classify, Captured, Fits, C2, RoundedMax, Mag16, UlpsOf, Err, FinitePair;
    SmallestError(rec, r, v);
    if Classify(rec).c1 {
      var M, t, b := EdgeFits(rec, r, v);
      RivalIsCaptured(rec, M, Pair(t - 1, t), b);
      EdgePairFacts(t);
      r', v' := RivalRefs(rec, b), Rival(rec, M, Pair(t - 1, t));
    } else {
      UnitFits(rec, r, v);
      RivalIsCaptured(rec, RoundMag(rec.refMaxAbs), Pair(1, 0), 0);
      r', v' := RivalRefs(rec, 0), Rival(rec, RoundMag(rec.refMaxAbs), Pair(1, 0));
    }
  }

  lemma SmallestError(rec: Record, r: seq<nat>, v: seq<Pair>)
    requires Failing(rec, r, v)
    ensures rec.maxErr >= 1 && rec.exactEqual <= rec.elements
  {
    hide Classify, UlpsOf, Err, MaxErr, MaxUlps, CountExact, FinitePair, Usable;
    var k := LargestFlip(rec, r, v);
  }

  /** For every record in the failing class, all finite vectors it may stand for violate C2 if and only if
      it fails C1 and its largest error is more than one unit, nothing agreed exactly or all references are 0. */
  lemma FailClassIsConclusiveIff(rec: Record, r: seq<nat>, v: seq<Pair>)
    requires Failing(rec, r, v)
    ensures (forall r', v' | Captured(rec, r', v') :: !C2(v')) <==> Conclusive(rec)
  {
    hide C2, Classify, MaxErr, MaxRef, MaxUlps, CountExact, Conclusive;
    if Conclusive(rec) {
      forall r', v' | Captured(rec, r', v') ensures !C2(v') { ConclusiveMeans(rec, r', v'); }
    } else {
      var r', v' := InconclusiveMeans(rec, r, v);
      assert Captured(rec, r', v') && C2(v');
    }
  }

  /** Without subnormals failing C1 is enough. */
  lemma FailedC1IsConclusive(rec: Record, r: seq<nat>, v: seq<Pair>)
    requires Failing(rec, r, v) && AllUsable(v) && !Classify(rec).c1
    ensures !C2(v)
  {
    hide Classify, RoundedMax, MaxErr, MaxRef, MaxUlps, CountExact, C2, Err, RefMag, UlpsOf, FinitePair, Usable, Edge;
    FailedC1Means(rec, r, v);
    var k := LargestFlip(rec, r, v);
    Violates(v, k);
  }

  /** All vectors of zeros and normals with a failing-class record violate C2 if and only if it fails C1. */
  lemma NormalFailClassIsConclusiveIff(rec: Record, r: seq<nat>, v: seq<Pair>)
    requires Failing(rec, r, v)
    ensures (forall r', v' | Captured(rec, r', v') && AllUsable(v') :: !C2(v')) <==> !Classify(rec).c1
  {
    hide AllUsable, C2, Classify, MaxErr, MaxRef, MaxUlps, CountExact;
    if Classify(rec).c1 {
      var r', v' := InconclusiveMeans(rec, r, v);
      assert Captured(rec, r', v') && AllUsable(v') && C2(v');
    } else {
      forall r', v' | Captured(rec, r', v') && AllUsable(v') ensures !C2(v') { FailedC1IsConclusive(rec, r', v'); }
    }
  }
}
