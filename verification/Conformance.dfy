/** The gating conformance checks C1 / C2 of a runtime output against the unrounded reference. */
module Conformance {
  import opened Wrappers
  import opened Tensors
  import opened Bf16

  /** A float: finite, or an infinity or NaN. */
  datatype Float = Finite(v: real) | NonFinite

  const U: real := 1.0 / 256.0
  const FLOOR: real := 0.01

  datatype Decision = Decision(c1: bool, c2: bool, passed: bool)

  function ConformanceDecision(maxAbsR: real, maxAbsErr: real, maxRel: real, yAllZero: bool): Decision {
    if maxAbsR == 0.0 then Decision(yAllZero, yAllZero, yAllZero)
    else
      var c1, c2 := maxAbsErr <= U * maxAbsR, maxRel <= U;
      Decision(c1, c2, c1 && c2)
  }

  function MaxAbs(r: seq<real>): (m: real)
    requires |r| > 0
    ensures exists i | 0 <= i < |r| :: m == Abs(r[i])
    ensures forall i | 0 <= i < |r| :: Abs(r[i]) <= m
  {
    if |r| == 1 then Abs(r[0]) else
    var m := MaxAbs(r[1..]);
    if Abs(r[0]) >= m then Abs(r[0]) else m
  }

  function Differences(y: seq<real>, r: seq<real>): (d: seq<real>)
    requires |y| == |r|
    ensures |d| == |r| && forall i | 0 <= i < |r| :: d[i] == y[i] - r[i]
  {
    seq(|r|, i requires 0 <= i < |r| => y[i] - r[i])
  }

  /** Largest relative error over the elements with |r_i| >= floor; 0 if there is none. */
  function MaxRel(y: seq<real>, r: seq<real>, floor: real): (m: real)
    requires |y| == |r| && floor > 0.0
    ensures m >= 0.0
    ensures forall i | 0 <= i < |r| && Abs(r[i]) >= floor :: Abs(y[i] - r[i]) / Abs(r[i]) <= m
    ensures m == 0.0 || exists i | 0 <= i < |r| && Abs(r[i]) >= floor :: m == Abs(y[i] - r[i]) / Abs(r[i])
  {
    if |r| == 0 then 0.0 else
    var m := MaxRel(y[1..], r[1..], floor);
    if Abs(r[0]) >= floor then
      var x := Abs(y[0] - r[0]) / Abs(r[0]);
      if x > m then x else m
    else m
  }

  function Values(x: seq<Float>): (v: seq<real>)
    requires forall i | 0 <= i < |x| :: x[i].Finite?
    ensures |v| == |x| && forall i | 0 <= i < |x| :: v[i] == x[i].v
  {
    seq(|x|, i requires 0 <= i < |x| => x[i].v)
  }

  function Decide(y: seq<real>, r: seq<real>): Decision
    requires |y| == |r| > 0
  {
    var m := MaxAbs(r);
    var rel := if m > 0.0 then MaxRel(y, r, FLOOR * m) else 0.0;
    ConformanceDecision(m, MaxAbs(Differences(y, r)), rel, AllZero(y))
  }

  function Conformance(y: seq<Float>, r: seq<Float>): Decision {
    if |y| != |r| || |y| == 0 then Decision(false, false, false)
    else if exists i | 0 <= i < |y| :: y[i].NonFinite? || r[i].NonFinite? then Decision(false, false, false)
    else Decide(Values(y), Values(r))
  }

  // ------------------------------------------------------------------------- meaning

  /** Every element within 2^-8 of the largest reference, and of its own above the floor. */
  predicate Conforms(y: seq<real>, r: seq<real>)
    requires |y| == |r| > 0
  {
    forall i | 0 <= i < |r| :: ElementConforms(y[i], r[i], MaxAbs(r))
  }

  predicate ElementConforms(y: real, r: real, m: real) {
    && 256.0 * Abs(y - r) <= m
    && (100.0 * Abs(r) >= m ==> 256.0 * Abs(y - r) <= Abs(r))
  }

  lemma RelativeMeans(d: real, r: real)
    requires d >= 0.0 && r > 0.0
    ensures d / r <= U <==> 256.0 * d <= r
  {
    var q := d / r;
    assert q * r == d;
    assert (U - q) * r == U * r - d;
    assert q <= U ==> (U - q) * r >= 0.0;
    assert q > U ==> (q - U) * r > 0.0;
  }

  lemma DecideMeansConforms(y: seq<real>, r: seq<real>)
    requires |y| == |r| > 0
    ensures Decide(y, r).passed <==> Conforms(y, r)
  {
    hide MaxAbs, MaxRel, Abs;
    AbsFacts(y, r);
    var m, d := MaxAbs(r), Differences(y, r);
    if m > 0.0 {
      var rel := MaxRel(y, r, FLOOR * m);
      forall i | 0 <= i < |r| && Abs(r[i]) >= FLOOR * m
        ensures Abs(y[i] - r[i]) / Abs(r[i]) <= U <==> 256.0 * Abs(y[i] - r[i]) <= Abs(r[i])
      {
        RelativeMeans(Abs(y[i] - r[i]), Abs(r[i]));
      }
    }
  }

  /** Each part of the decision, element by element: C1 against the largest reference, C2 against the element's
      own reference wherever that is at least a hundredth of the largest. */
  lemma DecideParts(y: seq<real>, r: seq<real>)
    requires |y| == |r| > 0
    ensures Decide(y, r).c1 <==> forall i | 0 <= i < |r| :: 256.0 * Abs(y[i] - r[i]) <= MaxAbs(r)
    ensures Decide(y, r).c2 <==>
              forall i | 0 <= i < |r| && 100.0 * Abs(r[i]) >= MaxAbs(r) :: 256.0 * Abs(y[i] - r[i]) <= Abs(r[i])
    ensures Decide(y, r).passed <==> Decide(y, r).c1 && Decide(y, r).c2
  {
    hide MaxAbs, MaxRel, Abs;
    AbsFacts(y, r);
    var m, d := MaxAbs(r), Differences(y, r);
    if m > 0.0 {
      var rel := MaxRel(y, r, FLOOR * m);
      forall i | 0 <= i < |r| && Abs(r[i]) >= FLOOR * m
        ensures Abs(y[i] - r[i]) / Abs(r[i]) <= U <==> 256.0 * Abs(y[i] - r[i]) <= Abs(r[i])
      {
        RelativeMeans(Abs(y[i] - r[i]), Abs(r[i]));
      }
    }
  }

  lemma AbsFacts(y: seq<real>, r: seq<real>)
    requires |y| == |r| > 0
    ensures MaxAbs(r) >= 0.0
    ensures forall i | 0 <= i < |r| :: Abs(r[i]) >= 0.0 && Abs(y[i] - r[i]) >= 0.0
    ensures MaxAbs(r) == 0.0 ==> forall i | 0 <= i < |r| :: r[i] == 0.0 && Abs(r[i]) == 0.0
    ensures forall i | 0 <= i < |r| && r[i] == 0.0 :: Abs(y[i] - r[i]) <= 0.0 <==> y[i] == 0.0
  {
  }

  /** Passing means: same nonempty shape, all finite, and C1 and C2 element by element. */
  lemma ConformanceMeaning(y: seq<Float>, r: seq<Float>)
    ensures Conformance(y, r).passed <==>
              && |y| == |r| > 0
              && (forall i | 0 <= i < |y| :: y[i].Finite? && r[i].Finite?)
              && Conforms(Values(y), Values(r))
    ensures |y| != |r| || |y| == 0 || (exists i | 0 <= i < |y| :: y[i].NonFinite? || r[i].NonFinite?) ==>
              Conformance(y, r) == Decision(false, false, false)
  {
    hide Decide, Conforms;
    if |y| == |r| > 0 && forall i | 0 <= i < |y| :: y[i].Finite? && r[i].Finite? {
      DecideMeansConforms(Values(y), Values(r));
    }
  }

  // ----------------------------------------------------------------------- consequences

  /** Relative error at most 2^-8 everywhere is enough. */
  lemma RelativeErrorConforms(y: seq<real>, r: seq<real>)
    requires |y| == |r| > 0 && forall i | 0 <= i < |r| :: 256.0 * Abs(y[i] - r[i]) <= Abs(r[i])
    ensures Decide(y, r).passed
  {
    DecideMeansConforms(y, r);
  }

  /** Zero, or a normal number whose BF16 rounding is finite. */
  predicate ZeroOrNormal32(b: nat) {
    b < 2 * SIGN32 && (Magnitude(b) == 0 || FRACTION32 <= Magnitude(b) < 0x7F7F_8000)
  }

  function AsReals(v: seq<nat>): (x: seq<real>)
    ensures |x| == |v| && forall i | 0 <= i < |v| :: x[i] == Value32(v[i]) as real
  {
    seq(|v|, i requires 0 <= i < |v| => Value32(v[i]) as real)
  }

  /** A correctly rounded output of a vector of zeros and normals always passes. */
  lemma RoundedOutputPasses(v: seq<nat>)
    requires |v| > 0 && AllFinite32(v) && forall i {:trigger v[i]} | 0 <= i < |v| :: ZeroOrNormal32(v[i])
    ensures Decide(AsReals(RoundAll(v)), AsReals(v)).passed
  {
    hide Value32, Bf16Bits, Decide;
    forall i | 0 <= i < |v|
      ensures 256.0 * Abs(AsReals(RoundAll(v))[i] - AsReals(v)[i]) <= Abs(AsReals(v)[i])
    {
      RoundedElement(v[i]);
    }
    RelativeErrorConforms(AsReals(RoundAll(v)), AsReals(v));
  }

  lemma RoundedElement(b: nat)
    requires ZeroOrNormal32(b)
    ensures 256.0 * Abs(Value32(Bf16Bits(b)) as real - Value32(b) as real) <= Abs(Value32(b) as real)
  {
    hide Mag32, Bf16Bits;
    if Magnitude(b) == 0 {
      BitsRoundMagnitude(b);
      ZeroRounds(0);
    } else {
      RelativeErrorOfNormals(b);
    }
  }

  /** Above the floor a passing output has the sign of the reference. */
  lemma PassKeepsSigns(y: seq<real>, r: seq<real>, i: nat)
    requires |y| == |r| > 0 && i < |r| && Decide(y, r).passed && Abs(r[i]) >= FLOOR * MaxAbs(r)
    ensures r[i] > 0.0 ==> y[i] > 0.0
    ensures r[i] < 0.0 ==> y[i] < 0.0
    ensures r[i] == 0.0 ==> y[i] == 0.0
  {
    DecideMeansConforms(y, r);
  }

  function Times(k: real, x: real): real {
    k * x
  }

  function Scaled(k: real, x: seq<real>): (z: seq<real>)
    ensures |z| == |x| && forall i | 0 <= i < |x| :: z[i] == Times(k, x[i])
  {
    seq(|x|, i requires 0 <= i < |x| => Times(k, x[i]))
  }

  lemma AbsScales(k: real, x: real)
    requires k > 0.0
    ensures Abs(Times(k, x)) == Times(k, Abs(x))
  {
  }

  lemma TimesOrder(k: real, x: real, z: real)
    requires k > 0.0
    ensures Times(k, x) <= Times(k, z) <==> x <= z
  {
    assert Times(k, z) - Times(k, x) == k * (z - x);
    assert z - x < 0.0 ==> k * (z - x) < 0.0;
    assert z - x >= 0.0 ==> k * (z - x) >= 0.0;
  }

  lemma TimesLinear(k: real, x: real, z: real, c: real)
    ensures Times(k, x) - Times(k, z) == Times(k, x - z)
    ensures c * Times(k, x) == Times(k, c * x)
  {
  }

  lemma {:induction false} MaxAbsScales(k: real, r: seq<real>)
    requires k > 0.0 && |r| > 0
    ensures MaxAbs(Scaled(k, r)) == Times(k, MaxAbs(r))
  {
    hide Abs, Times;
    AbsScales(k, r[0]);
    if |r| > 1 {
      assert Scaled(k, r)[1..] == Scaled(k, r[1..]);
      MaxAbsScales(k, r[1..]);
      TimesOrder(k, MaxAbs(r[1..]), Abs(r[0]));
    }
  }

  lemma ElementScales(k: real, y: real, r: real, m: real)
    requires k > 0.0
    ensures ElementConforms(Times(k, y), Times(k, r), Times(k, m)) <==> ElementConforms(y, r, m)
  {
    hide Abs, Times;
    var d, a := Abs(y - r), Abs(r);
    TimesLinear(k, y, r, 0.0);
    AbsScales(k, y - r);
    AbsScales(k, r);
    TimesLinear(k, d, 0.0, 256.0);
    TimesLinear(k, m, 0.0, FLOOR);
    TimesOrder(k, 256.0 * d, m);
    TimesOrder(k, 256.0 * d, a);
    TimesOrder(k, FLOOR * m, a);
  }

  /** The verdict does not depend on a common positive scale. */
  lemma ScaleInvariant(k: real, y: seq<real>, r: seq<real>)
    requires k > 0.0 && |y| == |r| > 0
    ensures Decide(Scaled(k, y), Scaled(k, r)).passed <==> Decide(y, r).passed
  {
    hide Decide, MaxAbs, ElementConforms, Times;
    DecideMeansConforms(y, r);
    DecideMeansConforms(Scaled(k, y), Scaled(k, r));
    MaxAbsScales(k, r);
    forall i | 0 <= i < |r|
      ensures ElementConforms(Scaled(k, y)[i], Scaled(k, r)[i], Times(k, MaxAbs(r))) <==>
                ElementConforms(y[i], r[i], MaxAbs(r))
    {
      ElementScales(k, y[i], r[i], MaxAbs(r));
    }
  }

  // --------------------------------------------------------------------- posterior form

  /** check(): the same criterion from the recorded maxima. */
  function Check(m: real, e: real, rel: Option<real>): Decision
    requires m >= 0.0
  {
    if m == 0.0 then Decision(e == 0.0, e == 0.0, e == 0.0)
    else
      var c1 := e / (U * m) <= 1.0;
      var c2 := (if rel.None? then 0.0 else rel.value) / U <= 1.0;
      Decision(c1, c2, c1 && c2)
  }

  /** On what the diagnostic records of y and r, check() and conformance() agree in each part. */
  lemma CheckAgrees(y: seq<real>, r: seq<real>, rel: Option<real>)
    requires |y| == |r| > 0
    requires MaxAbs(r) > 0.0 ==> rel == Some(MaxRel(y, r, FLOOR * MaxAbs(r)))
    ensures MaxAbs(r) >= 0.0
    ensures Check(MaxAbs(r), MaxAbs(Differences(y, r)), rel) == Decide(y, r)
  {
    hide MaxAbs, MaxRel, Abs, Differences;
    AbsFacts(y, r);
    if MaxAbs(r) > 0.0 {
      RatioMeans(MaxAbs(Differences(y, r)), U * MaxAbs(r));
    } else {
      ZeroError(y, r);
    }
  }

  lemma ZeroError(y: seq<real>, r: seq<real>)
    requires |y| == |r| > 0 && MaxAbs(r) == 0.0
    ensures MaxAbs(Differences(y, r)) == 0.0 <==> AllZero(y)
  {
    hide MaxAbs;
    var d := Differences(y, r);
    forall i | 0 <= i < |r| ensures Abs(d[i]) == Abs(y[i]) { assert Abs(r[i]) <= MaxAbs(r); }
    var j :| 0 <= j < |d| && MaxAbs(d) == Abs(d[j]);
  }

  lemma RatioMeans(e: real, n: real)
    requires n > 0.0
    ensures e / n <= 1.0 <==> e <= n
  {
    var q := e / n;
    assert q * n == e;
    assert q <= 1.0 ==> (1.0 - q) * n >= 0.0;
    assert q > 1.0 ==> (q - 1.0) * n > 0.0;
  }

  /** A missing relative error counts as none. */
  lemma CheckWithoutRel(m: real, e: real)
    requires m >= 0.0
    ensures Check(m, e, None) == Check(m, e, Some(0.0))
  {
  }
}
