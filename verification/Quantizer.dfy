/** Raw tensors in the canonical layout [token][head][channel], and the elementary
    reductions the quantizers are built from. */
module Tensors {

  type Row = seq<real>
  type Token = seq<Row>
  type Tensor = seq<Token>

  predicate ShapedToken(tok: Token, heads: nat, dim: nat) {
    |tok| == heads && forall h | 0 <= h < heads :: |tok[h]| == dim
  }

  predicate Shaped(x: Tensor, heads: nat, dim: nat) {
    forall t | 0 <= t < |x| :: ShapedToken(x[t], heads, dim)
  }

  /** Element access that is 0 outside the tensor: the zero padding of the open K group
      and of the last V channel group. */
  function At(x: Tensor, t: int, h: int, c: int): real {
    if 0 <= t < |x| && 0 <= h < |x[t]| && 0 <= c < |x[t][h]| then x[t][h][c] else 0.0
  }

  /** A token or a tensor converted element by element, as a dtype cast does. */
  function CastToken(cast: real -> real, tok: Token): (r: Token)
    ensures |r| == |tok|
    ensures forall h | 0 <= h < |tok| :: |r[h]| == |tok[h]|
    ensures forall h, c | 0 <= h < |tok| && 0 <= c < |tok[h]| :: r[h][c] == cast(tok[h][c])
  {
    seq(|tok|, h requires 0 <= h < |tok| => seq(|tok[h]|, c requires 0 <= c < |tok[h]| => cast(tok[h][c])))
  }

  function Cast(cast: real -> real, x: Tensor): (r: Tensor)
    ensures |r| == |x|
    ensures forall t | 0 <= t < |x| :: r[t] == CastToken(cast, x[t])
  {
    seq(|x|, t requires 0 <= t < |x| => CastToken(cast, x[t]))
  }

  function Min(s: seq<real>): (m: real)
    requires |s| > 0
    ensures m in s
    ensures forall i | 0 <= i < |s| :: m <= s[i]
  {
    if |s| == 1 then s[0] else
    var m := Min(s[1..]);
    if s[0] <= m then s[0] else m
  }

  function Max(s: seq<real>): (m: real)
    requires |s| > 0
    ensures m in s
    ensures forall i | 0 <= i < |s| :: s[i] <= m
  {
    if |s| == 1 then s[0] else
    var m := Max(s[1..]);
    if s[0] >= m then s[0] else m
  }

  function Abs(x: real): real {
    if x < 0.0 then -x else x
  }

  predicate AllZero(x: seq<real>) {
    forall i | 0 <= i < |x| :: x[i] == 0.0
  }

  /** torch.round: to the nearest integer, ties to the even one. */
  function RoundHalfEven(x: real): (r: int)
    ensures -0.5 <= x - r as real <= 0.5
    ensures x - r as real == 0.5 || x - r as real == -0.5 ==> r % 2 == 0
  {
    var f := x.Floor;
    var frac := x - f as real;
    if frac < 0.5 || (frac == 0.5 && f % 2 == 0) then f else f + 1
  }

  function Clamp(x: int, lo: int, hi: int): (r: int)
    requires lo <= hi
    ensures lo <= r <= hi
    ensures (x <= lo ==> r == lo) && (x >= hi ==> r == hi) && (lo <= x <= hi ==> r == x)
  {
    if x < lo then lo else if x > hi then hi else x
  }

  /** q * n + r splits back into q and r. */
  lemma DivModUnique(q: int, n: int, r: int)
    requires 0 <= r < n
    ensures (q * n + r) / n == q && (q * n + r) % n == r
  {
    var s := q * n + r;
    assert s == (s / n) * n + s % n;
    var k := s / n - q;
    assert k * n == r - s % n;
    assert k >= 1 ==> k * n >= n;
    assert k <= -1 ==> k * n <= -n;
  }
}

/** META8g64, K3 and V2 of canonical_rabit_quality.py. */
module Quantizer {
  import opened Tensors

  const GROUP: nat := 32
  const RESIDUAL: nat := 4
  const META_GROUP: nat := 64
  const K_LEVELS: nat := 7
  const V_LEVELS: nat := 3
  const META_LEVELS: nat := 255
  const PRIMARY_EPS: real := 0.00000001
  const META_EPS: real := 0.000000000001

  /** The FP32 operations of the quantizers and the BF16 cast. Page locality and the
      refinement theorems hold for any such functions, hence for correctly rounded FP32;
      the reconstruction bounds are about `Exact`. */
  datatype Arith = Arith(
    sub: (real, real) -> real,
    div: (real, real) -> real,
    mul: (real, real) -> real,
    add: (real, real) -> real,
    bf16: real -> real)

  function Exact(bf16: real -> real): Arith {
    Arith((x, y) => x - y, (x, y) => if y == 0.0 then 0.0 else x / y, (x, y) => x * y, (x, y) => x + y, bf16)
  }

  /** (max - min) / levels, or 1 when that is below the threshold in magnitude. */
  function Scale(a: Arith, g: seq<real>, levels: nat, eps: real): real
    requires |g| > 0
  {
    var sc := a.div(a.sub(Max(g), Min(g)), levels as real);
    if -eps < sc < eps then 1.0 else sc
  }

  function Code(a: Arith, g: seq<real>, levels: nat, eps: real, x: real): (code: int)
    requires |g| > 0
    ensures 0 <= code <= levels
  {
    Clamp(RoundHalfEven(a.div(a.sub(x, Min(g)), Scale(a, g, levels, eps))), 0, levels)
  }

  /** code * scale + min, in this order. */
  function Dequantize(a: Arith, code: int, scale: real, min: real): real {
    a.add(a.mul(code as real, scale), min)
  }

  // ---------------------------------------------------------------------- META8g64

  function PadTo(n: nat, group: nat): (pad: nat)
    requires group > 0
    ensures pad < group && (n + pad) % group == 0
  {
    PadCompletes(n, group);
    (-(n as int)) % group
  }

  lemma PadCompletes(n: nat, group: nat)
    requires group > 0
    ensures (n + (-(n as int)) % group) % group == 0
  {
    var m := -(n as int);
    assert m == m / group * group + m % group;
    DivModUnique(-(m / group), group, 0);
  }

  /** The flat metadata padded to whole groups with its last value. */
  function MetaPadded(flat: seq<real>): (r: seq<real>)
    requires |flat| > 0
    ensures |r| % META_GROUP == 0 && |flat| <= |r| < |flat| + META_GROUP
    ensures forall i | 0 <= i < |r| :: r[i] == flat[if i < |flat| then i else |flat| - 1]
  {
    flat + seq(PadTo(|flat|, META_GROUP), _ => flat[|flat| - 1])
  }

  function MetaBlock(flat: seq<real>, b: nat): (g: seq<real>)
    requires |flat| > 0 && b * META_GROUP < |flat|
    ensures |g| == META_GROUP
  {
    MetaPadded(flat)[b * META_GROUP..(b + 1) * META_GROUP]
  }

  /** codes, BF16 group min and scale, and the decoded values in the order of the input. */
  datatype Meta8 = Meta8(codes: seq<seq<int>>, min: seq<real>, scale: seq<real>, pad: nat, decoded: seq<real>)

  function Meta8Roundtrip(a: Arith, flat: seq<real>): (m: Meta8)
    requires |flat| > 0
    ensures |m.decoded| == |flat|
    ensures forall i | 0 <= i < |flat| :: m.decoded[i] == MetaAt(a, flat, i)
  {
    var blocks := MetaBlocks(flat);
    var n := |blocks|;
    var codes := seq(n, b requires 0 <= b < n => MetaCodes(a, blocks[b]));
    var min := seq(n, b requires 0 <= b < n => a.bf16(Min(blocks[b])));
    var scale := seq(n, b requires 0 <= b < n => a.bf16(Scale(a, blocks[b], META_LEVELS, META_EPS)));
    Meta8(codes, min, scale, PadTo(|flat|, META_GROUP),
          seq(|flat|, i requires 0 <= i < |flat| =>
            Dequantize(a, codes[i / META_GROUP][i % META_GROUP], scale[i / META_GROUP], min[i / META_GROUP])))
  }

  function MetaBlocks(flat: seq<real>): (r: seq<seq<real>>)
    requires |flat| > 0
    ensures |r| * META_GROUP == |flat| + PadTo(|flat|, META_GROUP)
    ensures forall b | 0 <= b < |r| :: b * META_GROUP < |flat| && r[b] == MetaBlock(flat, b)
  {
    var n := (|flat| + PadTo(|flat|, META_GROUP)) / META_GROUP;
    seq(n, b requires 0 <= b < n => MetaBlock(flat, b))
  }

  function MetaCodes(a: Arith, g: seq<real>): (codes: seq<int>)
    requires |g| == META_GROUP
    ensures |codes| == META_GROUP
  {
    seq(META_GROUP, k requires 0 <= k < META_GROUP => Code(a, g, META_LEVELS, META_EPS, g[k]))
  }

  /** The META8 value that stands for entry i of the flattened metadata. */
  function MetaAt(a: Arith, flat: seq<real>, i: nat): real
    requires i < |flat|
  {
    MetaValue(a, MetaBlock(flat, i / META_GROUP), i % META_GROUP)
  }

  function MetaValue(a: Arith, g: seq<real>, k: nat): real
    requires k < |g|
  {
    Dequantize(a, Code(a, g, META_LEVELS, META_EPS, g[k]),
               a.bf16(Scale(a, g, META_LEVELS, META_EPS)), a.bf16(Min(g)))
  }

  // ------------------------------------------------------------------------ groups

  type Group = g: seq<real> | |g| == GROUP witness seq(GROUP, _ => 0.0)

  function Mins(groups: seq<Group>): seq<real> {
    seq(|groups|, i requires 0 <= i < |groups| => Min(groups[i]))
  }

  function Scales(a: Arith, groups: seq<Group>, levels: nat): seq<real> {
    seq(|groups|, i requires 0 <= i < |groups| => Scale(a, groups[i], levels, PRIMARY_EPS))
  }

  function Groups(n: nat): nat {
    (n + PadTo(n, GROUP)) / GROUP
  }

  lemma GroupInRange(t: nat, n: nat)
    requires t < n
    ensures t / GROUP < Groups(n)
  {
  }

  /** Position of entry (i, j, k) of an array [_, nj, nk] in row-major order. */
  function Index(i: nat, nj: nat, j: nat, nk: nat, k: nat): nat {
    (i * nj + j) * nk + k
  }

  lemma IndexInRange(i: nat, ni: nat, j: nat, nj: nat, k: nat, nk: nat)
    requires i < ni && j < nj && k < nk
    ensures Index(i, nj, j, nk, k) < ni * nj * nk
  {
    MulMonotone(i + 1, ni, nj);
    MulMonotone(i * nj + j + 1, ni * nj, nk);
  }

  lemma MulMonotone(x: nat, y: nat, n: nat)
    requires x <= y
    ensures x * n <= y * n
  {
  }

  lemma IndexSplits(i: nat, nj: nat, j: nat, nk: nat, k: nat)
    requires j < nj && k < nk
    ensures var p := Index(i, nj, j, nk, k); p / nk / nj == i && p / nk % nj == j && p % nk == k
  {
    DivModUnique(i * nj + j, nk, k);
    DivModUnique(i, nj, j);
  }

  // ---------------------------------------------------------------------------- K3

  /** 32 consecutive tokens of one head and channel. */
  function KGroup(x: Tensor, h: nat, g: nat, c: nat): Group {
    seq(GROUP, j => At(x, GROUP * g + j, h, c))
  }

  /** All K groups in the order (head, token group, channel). */
  function KGroups(heads: nat, dim: nat, x: Tensor): (r: seq<Group>)
    requires heads > 0 && dim > 0 && |x| > 0
    ensures |r| == heads * Groups(|x|) * dim
  {
    var n := Groups(|x|);
    seq(heads * n * dim, i requires 0 <= i => KGroup(x, i / dim / n, i / dim % n, i % dim))
  }

  datatype Quantized = Quantized(codes: seq<seq<seq<int>>>, minMeta: Meta8, scaleMeta: Meta8, decoded: Tensor)

  function K3(a: Arith, heads: nat, dim: nat, x: Tensor): (q: Quantized)
    requires heads > 0 && dim > 0 && |x| > 0
    ensures |q.decoded| == |x| && Shaped(q.decoded, heads, dim)
  {
    var n := Groups(|x|);
    var groups := KGroups(heads, dim, x);
    var minMeta := Meta8Roundtrip(a, Mins(groups));
    var scaleMeta := Meta8Roundtrip(a, Scales(a, groups, K_LEVELS));
    var codes := seq(n * GROUP, t requires 0 <= t => seq(heads, h requires 0 <= h => seq(dim, c requires 0 <= c =>
      Code(a, KGroup(x, h, t / GROUP, c), K_LEVELS, PRIMARY_EPS, At(x, t, h, c)))));
    var decoded := seq(|x|, t requires 0 <= t < |x| =>
      seq(heads, h requires 0 <= h < heads =>
        seq(dim, c requires 0 <= c < dim =>
          IndexInRange(h, heads, t / GROUP, n, c, dim);
          var p := Index(h, n, t / GROUP, dim, c);
          Dequantize(a, codes[t][h][c], scaleMeta.decoded[p], minMeta.decoded[p]))));
    Quantized(codes, minMeta, scaleMeta, decoded)
  }

  // ---------------------------------------------------------------------------- V2

  /** 32 consecutive channels of one token and head. */
  function VGroup(x: Tensor, t: nat, h: nat, g: nat): Group {
    seq(GROUP, j => At(x, t, h, GROUP * g + j))
  }

  /** All V groups in the order (token, head, channel group). */
  function VGroups(heads: nat, dim: nat, x: Tensor): (r: seq<Group>)
    requires heads > 0 && dim > 0
    ensures |r| == |x| * heads * Groups(dim)
  {
    var n := Groups(dim);
    seq(|x| * heads * n, i requires 0 <= i => VGroup(x, i / n / heads, i / n % heads, i % n))
  }

  function V2(a: Arith, heads: nat, dim: nat, x: Tensor): (q: Quantized)
    requires heads > 0 && dim > 0 && |x| > 0
    ensures |q.decoded| == |x| && Shaped(q.decoded, heads, dim)
  {
    var n := Groups(dim);
    var groups := VGroups(heads, dim, x);
    IndexInRange(0, |x|, 0, heads, 0, n);
    var minMeta := Meta8Roundtrip(a, Mins(groups));
    var scaleMeta := Meta8Roundtrip(a, Scales(a, groups, V_LEVELS));
    var codes := seq(|x|, t requires 0 <= t => seq(heads, h requires 0 <= h => seq(n * GROUP, c requires 0 <= c =>
      Code(a, VGroup(x, t, h, c / GROUP), V_LEVELS, PRIMARY_EPS, At(x, t, h, c)))));
    var decoded := seq(|x|, t requires 0 <= t < |x| =>
      seq(heads, h requires 0 <= h < heads =>
        seq(dim, c requires 0 <= c < dim =>
          IndexInRange(t, |x|, h, heads, c / GROUP, n);
          var p := Index(t, heads, h, n, c / GROUP);
          Dequantize(a, codes[t][h][c], scaleMeta.decoded[p], minMeta.decoded[p]))));
    Quantized(codes, minMeta, scaleMeta, decoded)
  }
}
