/** How far a decoded value is from the raw one, with exact arithmetic around the BF16 casts. */
module Reconstruction {
  import opened Tensors
  import opened Quantizer
  import opened PageLocality
  import opened Sharpness
  import opened Bf16
  import opened Conformance

  /** x and y differ by at most e. */
  predicate Near(x: real, y: real, e: real) {
    -e <= x - y <= e
  }

  /** The cast of x is off by at most u relative to x (u = 2^-8 for zero and BF16 normals). */
  predicate CastIsNear(bf16: real -> real, x: real, u: real) {
    Near(bf16(x), x, u * Abs(x))
  }

  /** A cast that rounds the bits of a zero or normal FP32 number is off by at most 2^-8; `unit` is 2^-149. */
  lemma BitRoundingIsNear(bf16: real -> real, b: nat, unit: real)
    requires ZeroOrNormal32(b) && unit > 0.0
    requires bf16(Times(unit, Value32(b) as real)) == Times(unit, Value32(Bf16Bits(b)) as real)
    ensures CastIsNear(bf16, Times(unit, Value32(b) as real), 1.0 / 256.0)
  {
    hide Value32, Bf16Bits, Abs;
    var x, y := Value32(b) as real, Value32(Bf16Bits(b)) as real;
    RoundedElement(b);
    ScaledRelative(unit, x, y);
  }

  lemma ScaledRelative(k: real, x: real, y: real)
    requires k > 0.0 && 256.0 * Abs(y - x) <= Abs(x)
    ensures Near(Times(k, y), Times(k, x), 1.0 / 256.0 * Abs(Times(k, x)))
  {
    var z, a := y - x, Abs(x);
    AbsScales(k, x);
    Product(k, a - 256.0 * z);
    Product(k, a + 256.0 * z);
    assert k * z == k * y - k * x;
    assert k * (a - 256.0 * z) == k * a - 256.0 * (k * z);
    assert k * (a + 256.0 * z) == k * a + 256.0 * (k * z);
  }

  lemma Product(x: real, y: real)
    requires x >= 0.0 && y >= 0.0
    ensures x * y >= 0.0
  {
  }

  /** Rounding d steps of size `scale` to the nearest of 0 .. levels. */
  lemma NearestStep(d: real, levels: nat, scale: real)
    requires scale > 0.0 && 0.0 <= d <= levels as real * scale
    ensures var r := RoundHalfEven(d / scale);
            0 <= r <= levels && Near(r as real * scale, d, scale / 2.0)
  {
    var q := d / scale;
    assert q * scale == d;
    assert 0.0 <= q;
    assert q <= levels as real by {
      var over := q - levels as real;
      assert over * scale == d - levels as real * scale;
      assert over > 0.0 ==> over * scale > 0.0;
    }
    var e := RoundHalfEven(q) as real - q;
    assert e * scale == RoundHalfEven(q) as real * scale - d;
    Product(0.5 - e, scale);
    Product(0.5 + e, scale);
  }

  predicate IsLevels(levels: nat) {
    levels == K_LEVELS || levels == V_LEVELS || levels == META_LEVELS
  }

  lemma ExactScale(bf16: real -> real, g: seq<real>, levels: nat, eps: real)
    requires |g| > 0 && levels > 0
    ensures var step := (Max(g) - Min(g)) / levels as real;
            Scale(Exact(bf16), g, levels, eps) == if -eps < step < eps then 1.0 else step
  {
    hide Min, Max;
  }

  /** In both scale branches the range of a group is at most `levels` steps. */
  lemma RangeCovered(bf16: real -> real, g: seq<real>, levels: nat, eps: real)
    requires |g| > 0 && IsLevels(levels) && 0.0 < eps <= 0.001
    ensures var scale := Scale(Exact(bf16), g, levels, eps);
            scale > 0.0 && 0.0 <= Max(g) - Min(g) <= levels as real * scale
  {
    hide Min, Max, Scale, Exact;
    ExactScale(bf16, g, levels, eps);
    assert Min(g) <= g[0] <= Max(g);
    StepsCover(Max(g) - Min(g), levels, eps);
  }

  lemma StepsCover(range: real, levels: nat, eps: real)
    requires range >= 0.0 && IsLevels(levels) && 0.0 < eps <= 0.001
    ensures var step := range / levels as real;
            var scale := if -eps < step < eps then 1.0 else step;
            scale > 0.0 && range <= levels as real * scale
  {
    if levels == K_LEVELS {
      assert range / 7.0 * 7.0 == range;
    } else if levels == V_LEVELS {
      assert range / 3.0 * 3.0 == range;
    } else {
      assert range / 255.0 * 255.0 == range;
    }
  }

  /** Clamping never changes a code. */
  lemma ClampIsNoOp(bf16: real -> real, g: seq<real>, levels: nat, eps: real, i: nat)
    requires i < |g| && IsLevels(levels) && 0.0 < eps <= 0.001
    ensures var a := Exact(bf16);
            Scale(a, g, levels, eps) > 0.0
            && Code(a, g, levels, eps, g[i]) == RoundHalfEven((g[i] - Min(g)) / Scale(a, g, levels, eps))
  {
    hide Min, Max, RoundHalfEven, Scale, Near;
    RangeCovered(bf16, g, levels, eps);
    assert Min(g) <= g[i] <= Max(g);
    NearestStep(g[i] - Min(g), levels, Scale(Exact(bf16), g, levels, eps));
  }

  lemma ExactDequantize(bf16: real -> real, code: int, scale: real, min: real)
    ensures Dequantize(Exact(bf16), code, scale, min) == code as real * scale + min
  {
  }

  /** With its own scale and min, a code stands for a value within half a step. */
  lemma AffineError(bf16: real -> real, g: seq<real>, levels: nat, eps: real, i: nat)
    requires i < |g| && IsLevels(levels) && 0.0 < eps <= 0.001
    ensures var a := Exact(bf16);
            var scale := Scale(a, g, levels, eps);
            scale > 0.0 && Near(Dequantize(a, Code(a, g, levels, eps, g[i]), scale, Min(g)), g[i], scale / 2.0)
  {
    hide Min, Max, RoundHalfEven, Scale, Code, Dequantize, Exact;
    ClampIsNoOp(bf16, g, levels, eps, i);
    RangeCovered(bf16, g, levels, eps);
    assert Min(g) <= g[i] <= Max(g);
    var scale := Scale(Exact(bf16), g, levels, eps);
    NearestStep(g[i] - Min(g), levels, scale);
    ExactDequantize(bf16, RoundHalfEven((g[i] - Min(g)) / scale), scale, Min(g));
  }

  lemma ScaledShift(c: real, n: real, s: real, s': real, e: real)
    requires 0.0 <= c <= n && Near(s', s, e)
    ensures Near(c * s', c * s, n * e)
  {
    var d := s' - s;
    Product(c, e - d);
    Product(c, e + d);
    Product(n - c, e);
    assert c * s' - c * s == c * d;
    assert c * (e - d) == c * e - c * d && c * (e + d) == c * e + c * d && (n - c) * e == n * e - c * e;
  }

  /** Decoding with an approximate scale and min. */
  lemma DequantizeError(bf16: real -> real, code: int, levels: nat, scale: real, scale': real, min: real, min': real,
                        x: real, half: real, es: real, em: real)
    requires 0 <= code <= levels && Near(scale', scale, es) && Near(min', min, em)
    requires Near(Dequantize(Exact(bf16), code, scale, min), x, half)
    ensures forall e | e == half + levels as real * es + em :: Near(Dequantize(Exact(bf16), code, scale', min'), x, e)
  {
    hide Dequantize, Exact;
    ExactDequantize(bf16, code, scale, min);
    ExactDequantize(bf16, code, scale', min');
    ScaledShift(code as real, levels as real, scale, scale', es);
  }

  function Range(g: seq<real>): real
    requires |g| > 0
  {
    Max(g) - Min(g)
  }

  /** Either the levels divide the range of a group, or the range is below `levels` thresholds and every code is 0. */
  lemma ScaleCases(bf16: real -> real, g: seq<real>, levels: nat, eps: real, i: nat)
    requires i < |g| && IsLevels(levels) && 0.0 < eps <= 0.001
    ensures var a := Exact(bf16);
            var scale := Scale(a, g, levels, eps);
            if Range(g) < levels as real * eps then scale == 1.0 && Code(a, g, levels, eps, g[i]) == 0
            else levels as real * scale == Range(g)
  {
    hide Min, Max, RoundHalfEven, Scale, Code, Exact;
    ExactScale(bf16, g, levels, eps);
    ClampIsNoOp(bf16, g, levels, eps, i);
    assert Min(g) <= g[i] <= Max(g);
    Threshold(Range(g), levels, eps);
    if Range(g) < levels as real * eps { RoundsToZero(g[i] - Min(g)); }
  }

  lemma Threshold(range: real, levels: nat, eps: real)
    requires range >= 0.0 && IsLevels(levels) && 0.0 < eps <= 0.001
    ensures range / levels as real < eps <==> range < levels as real * eps
    ensures levels as real * (range / levels as real) == range
    ensures range < levels as real * eps ==> range < 0.5
  {
    if levels == K_LEVELS {
      assert range / 7.0 * 7.0 == range;
    } else if levels == V_LEVELS {
      assert range / 3.0 * 3.0 == range;
    } else {
      assert range / 255.0 * 255.0 == range;
    }
  }

  lemma RoundsToZero(d: real)
    requires 0.0 <= d < 0.5
    ensures RoundHalfEven(d / 1.0) == 0
  {
  }

  /** Where the largest value of a group ends up: at the top code, unless the group is as good as constant. */
  lemma TopCodes(bf16: real -> real, g: seq<real>, i: nat)
    requires i < |g| && g[i] == Max(g)
    ensures var a := Exact(bf16);
            && Code(a, g, META_LEVELS, META_EPS, g[i]) == (if Range(g) < 0.000000000255 then 0 else 255)
            && Code(a, g, K_LEVELS, PRIMARY_EPS, g[i]) == (if Range(g) < 0.00000007 then 0 else 7)
            && Code(a, g, V_LEVELS, PRIMARY_EPS, g[i]) == (if Range(g) < 0.00000003 then 0 else 3)
  {
    hide Min, Max, RoundHalfEven, Scale, Code, Exact;
    TopCode(bf16, g, META_LEVELS, META_EPS, i);
    TopCode(bf16, g, K_LEVELS, PRIMARY_EPS, i);
    TopCode(bf16, g, V_LEVELS, PRIMARY_EPS, i);
  }

  lemma TopCode(bf16: real -> real, g: seq<real>, levels: nat, eps: real, i: nat)
    requires i < |g| && g[i] == Max(g) && IsLevels(levels) && 0.0 < eps <= 0.001
    ensures Code(Exact(bf16), g, levels, eps, g[i]) == if Range(g) < levels as real * eps then 0 else levels
  {
    hide Min, Max, RoundHalfEven, Scale, Code, Exact;
    ScaleCases(bf16, g, levels, eps, i);
    ClampIsNoOp(bf16, g, levels, eps, i);
    var scale := Scale(Exact(bf16), g, levels, eps);
    if Range(g) >= levels as real * eps {
      assert Range(g) / scale == levels as real by { QuotientOfProduct(levels as real, scale); }
      RoundsToItself(levels);
    }
  }

  lemma QuotientOfProduct(n: real, scale: real)
    requires scale > 0.0
    ensures n * scale / scale == n
  {
  }

  lemma RoundsToItself(n: nat)
    ensures RoundHalfEven(n as real) == n
  {
  }

  /** Error bound of the META8 values of one block. */
  function BlockBound(g: seq<real>, u: real): real
    requires |g| > 0
  {
    Range(g) * (1.0 / 510.0 + u) + u * Abs(Min(g)) + 0.000000000255
  }

  function MetaBound(flat: seq<real>, i: nat, u: real): real
    requires i < |flat|
  {
    BlockBound(MetaBlock(flat, i / META_GROUP), u)
  }

  /** The two casts of a META8 group, its scale and its minimum, are off by at most u. */
  predicate BlockCasts(bf16: real -> real, g: seq<real>, u: real)
    requires |g| > 0
  {
    CastIsNear(bf16, Scale(Exact(bf16), g, META_LEVELS, META_EPS), u) && CastIsNear(bf16, Min(g), u)
  }

  /** The casts that decode entry i. */
  predicate MetaCasts(bf16: real -> real, flat: seq<real>, i: nat, u: real)
    requires i < |flat|
  {
    BlockCasts(bf16, MetaBlock(flat, i / META_GROUP), u)
  }

  lemma MetaError(bf16: real -> real, flat: seq<real>, i: nat, u: real)
    requires i < |flat| && u >= 0.0 && MetaCasts(bf16, flat, i, u)
    ensures Near(MetaAt(Exact(bf16), flat, i), flat[i], MetaBound(flat, i, u))
  {
    hide MetaBlock, BlockCasts, BlockBound, MetaValue, Near, Exact;
    var b, k := i / META_GROUP, i % META_GROUP;
    BlockEntry(flat, b, k);
    MetaValueError(bf16, MetaBlock(flat, b), k, u);
  }

  lemma MetaValueError(bf16: real -> real, g: seq<real>, k: nat, u: real)
    requires k < |g| && u >= 0.0 && BlockCasts(bf16, g, u)
    ensures Near(MetaValue(Exact(bf16), g, k), g[k], BlockBound(g, u))
  {
    hide Code, Scale, Min, Max, Dequantize, Near, Abs, CastIsNear, Range, BlockBound;
    var a := Exact(bf16);
    var scale, code, m := Scale(a, g, META_LEVELS, META_EPS), Code(a, g, META_LEVELS, META_EPS, g[k]), Min(g);
    var es, em := u * scale, u * Abs(m);
    ScaleCases(bf16, g, META_LEVELS, META_EPS, k);
    CastError(bf16, m, u, em);
    if Range(g) < 255.0 * META_EPS {
      ZeroCodeError(bf16, bf16(scale), bf16(m), g, k, em);
      TinyBlock(g, u, em);
      Widen(MetaValue(a, g, k), g[k], em + Range(g), BlockBound(g, u));
    } else {
      AffineError(bf16, g, META_LEVELS, META_EPS, k);
      PositiveAbs(scale);
      CastError(bf16, scale, u, es);
      DequantizeError(bf16, code, META_LEVELS, scale, bf16(scale), m, bf16(m), g[k], scale / 2.0, es, em);
      WideBlock(g, u, em, scale);
      Widen(MetaValue(a, g, k), g[k], scale / 2.0 + 255.0 * es + em, BlockBound(g, u));
    }
  }

  /** A code 0 decodes to the decoded minimum, off by at most the range. */
  lemma ZeroCodeError(bf16: real -> real, scale: real, min: real, g: seq<real>, k: nat, em: real)
    requires k < |g| && Near(min, Min(g), em)
    ensures Near(Dequantize(Exact(bf16), 0, scale, min), g[k], em + Range(g))
  {
    assert Min(g) <= g[k] <= Max(g);
    ExactDequantize(bf16, 0, scale, min);
  }

  lemma Widen(x: real, y: real, e: real, e': real)
    requires Near(x, y, e) && e <= e'
    ensures Near(x, y, e')
  {
  }

  lemma TinyBlock(g: seq<real>, u: real, em: real)
    requires |g| > 0 && u >= 0.0 && em == u * Abs(Min(g)) && Range(g) < 0.000000000255
    ensures em + Range(g) <= BlockBound(g, u)
  {
    hide Min, Max, Abs;
    assert Min(g) <= g[0] <= Max(g);
    Product(Range(g), 1.0 / 510.0 + u);
  }

  lemma WideBlock(g: seq<real>, u: real, em: real, scale: real)
    requires |g| > 0 && em == u * Abs(Min(g)) && 255.0 * scale == Range(g)
    ensures scale / 2.0 + 255.0 * (u * scale) + em <= BlockBound(g, u)
  {
    hide Min, Max, Abs, Range;
    var range := Range(g);
    assert 255.0 * (u * scale) == u * range;
    assert range * (1.0 / 510.0 + u) == range / 510.0 + u * range;
  }

  lemma CastError(bf16: real -> real, x: real, u: real, e: real)
    requires CastIsNear(bf16, x, u) && e == u * Abs(x)
    ensures Near(bf16(x), x, e)
  {
  }

  lemma PositiveAbs(x: real)
    requires x >= 0.0
    ensures Abs(x) == x
  {
  }

  /** The spread of a group over its levels, `levels` scale-metadata errors and one min-metadata error: for K
      range / 14 + 7e-8 and 7 errors, for V range / 6 + 3e-8 and 3 errors. */
  function RowBound(bf16: real -> real, levels: nat, row: seq<Group>, i: nat, u: real): real
    requires i < |row| && (levels == 7 || levels == 3)
  {
    (if levels == 7 then Range(row[i]) / 14.0 + 0.00000007 else Range(row[i]) / 6.0 + 0.00000003)
      + levels as real * MetaBound(Scales(Exact(bf16), row, levels), i, u)
      + MetaBound(Mins(row), i, u)
  }

  /** The four casts that decode the elements of group i. */
  predicate RowCasts(bf16: real -> real, levels: nat, row: seq<Group>, i: nat, u: real)
    requires i < |row|
  {
    MetaCasts(bf16, Scales(Exact(bf16), row, levels), i, u) && MetaCasts(bf16, Mins(row), i, u)
  }

  lemma MetaBoundPositive(flat: seq<real>, i: nat, u: real)
    requires i < |flat| && u >= 0.0
    ensures MetaBound(flat, i, u) >= 0.0
  {
    hide MetaBlock, Min, Max;
    var g := MetaBlock(flat, i / META_GROUP);
    assert Min(g) <= g[0] <= Max(g);
    Product(Range(g), 1.0 / 510.0 + u);
    Product(u, Abs(Min(g)));
  }

  /** A decoded element against the raw element it stands for. */
  lemma FromRowError(bf16: real -> real, levels: nat, row: seq<Group>, i: nat, j: nat, u: real)
    requires i < |row| && j < GROUP && (levels == 7 || levels == 3) && u >= 0.0 && RowCasts(bf16, levels, row, i, u)
    ensures Near(FromRow(Exact(bf16), levels, row, i, row[i][j]), row[i][j], RowBound(bf16, levels, row, i, u))
  {
    hide MetaAt, MetaBound, Code, Scale, MetaCasts, Min, Max, Dequantize, Exact, Near, Range;
    var a, g := Exact(bf16), row[i];
    var scales, mins := Scales(a, row, levels), Mins(row);
    var es, em := MetaBound(scales, i, u), MetaBound(mins, i, u);
    MetaError(bf16, scales, i, u);
    MetaError(bf16, mins, i, u);
    MetaBoundPositive(scales, i, u);
    var scale, code := Scale(a, g, levels, PRIMARY_EPS), Code(a, g, levels, PRIMARY_EPS, g[j]);
    ScaleCases(bf16, g, levels, PRIMARY_EPS, j);
    NonnegativeRange(g);
    var x, bound := FromRow(a, levels, row, i, g[j]), RowBound(bf16, levels, row, i, u);
    if Range(g) < levels as real * PRIMARY_EPS {
      ZeroCodeError(bf16, MetaAt(a, scales, i), MetaAt(a, mins, i), g, j, em);
      Widen(x, g[j], em + Range(g), bound);
    } else {
      AffineError(bf16, g, levels, PRIMARY_EPS, j);
      DequantizeError(bf16, code, levels, scale, MetaAt(a, scales, i), Min(g), MetaAt(a, mins, i), g[j],
                      scale / 2.0, es, em);
      Widen(x, g[j], scale / 2.0 + levels as real * es + em, bound);
    }
  }

  lemma NonnegativeRange(g: seq<real>)
    requires |g| > 0
    ensures Range(g) >= 0.0
  {
    assert Min(g) <= g[0] <= Max(g);
  }

  /** Every decoded K element, in closed pages and in the open group. */
  lemma K3Error(bf16: real -> real, heads: nat, dim: nat, x: Tensor, t: nat, h: nat, c: nat, u: real)
    requires dim > 0 && t < |x| && h < heads && c < dim && Shaped(x, heads, dim) && u >= 0.0
    ensures var p, groups := Index(h, Groups(|x|), t / GROUP, dim, c), KGroups(heads, dim, x);
            && p < |groups| && groups[p] == KGroup(x, h, t / GROUP, c)
            && (RowCasts(bf16, K_LEVELS, groups, p, u) ==>
                  Near(K3(Exact(bf16), heads, dim, x).decoded[t][h][c], x[t][h][c],
                       RowBound(bf16, K_LEVELS, groups, p, u)))
  {
    hide K3, FromRow, RowBound, RowCasts, Groups, Near;
    var g := t / GROUP;
    K3AtFlat(Exact(bf16), heads, dim, x, t, h, c);
    IndexSplits(h, Groups(|x|), g, dim, c) by { GroupInRange(t, |x|); }
    var p, groups := Index(h, Groups(|x|), g, dim, c), KGroups(heads, dim, x);
    assert KGroup(x, h, g, c)[t % GROUP] == At(x, t, h, c) == x[t][h][c];
    if RowCasts(bf16, K_LEVELS, groups, p, u) { FromRowError(bf16, K_LEVELS, groups, p, t % GROUP, u); }
  }

  /** Every decoded V element. */
  lemma V2Error(bf16: real -> real, heads: nat, dim: nat, x: Tensor, t: nat, h: nat, c: nat, u: real)
    requires dim > 0 && t < |x| && h < heads && c < dim && Shaped(x, heads, dim) && u >= 0.0
    ensures var p, groups := Index(t, heads, h, Groups(dim), c / GROUP), VGroups(heads, dim, x);
            && p < |groups| && groups[p] == VGroup(x, t, h, c / GROUP)
            && (RowCasts(bf16, V_LEVELS, groups, p, u) ==>
                  Near(V2(Exact(bf16), heads, dim, x).decoded[t][h][c], x[t][h][c],
                       RowBound(bf16, V_LEVELS, groups, p, u)))
  {
    hide V2, FromRow, RowBound, RowCasts, Groups, Near;
    var g := c / GROUP;
    V2AtFlat(Exact(bf16), heads, dim, x, t, h, c);
    GroupInRange(c, dim);
    VGroupsAt(heads, dim, x, t, h, g);
    var p, groups := Index(t, heads, h, Groups(dim), g), VGroups(heads, dim, x);
    assert VGroup(x, t, h, g)[c % GROUP] == At(x, t, h, c) == x[t][h][c];
    if RowCasts(bf16, V_LEVELS, groups, p, u) { FromRowError(bf16, V_LEVELS, groups, p, c % GROUP, u); }
  }

  /** The padding of an open group takes part in its range. */
  lemma OpenGroupContainsZero(x: Tensor, h: nat, g: nat, c: nat)
    requires GROUP * (g + 1) > |x|
    ensures Min(KGroup(x, h, g, c)) <= 0.0 <= Max(KGroup(x, h, g, c))
  {
    var group := KGroup(x, h, g, c);
    assert group[GROUP - 1] == At(x, GROUP * g + GROUP - 1, h, c) == 0.0;
  }
}
