/** Page locality holds for head dimensions that are multiples of 64 and for no others. */
module Sharpness {
  import opened Tensors
  import opened Quantizer
  import opened PageLocality
  import opened LayerState
  import opened Bf16

  // ------------------------------------------------------------ where META8 groups lie

  /** Entries p and q of the flattened metadata share a META8 group. */
  predicate SameBlock(p: nat, q: nat) {
    p / META_GROUP == q / META_GROUP
  }

  lemma DivOfDiv(p: nat, m: nat)
    requires m > 0
    ensures p / META_GROUP / m == p / (m * META_GROUP)
  {
    var q := p / META_GROUP;
    var s, u := q / m, q % m;
    var r := u * META_GROUP + p % META_GROUP;
    assert p == s * (m * META_GROUP) + r by { assert q == s * m + u; }
    assert 0 <= r < m * META_GROUP by { MulMonotone(u + 1, m, META_GROUP); }
    DivModUnique(s, m * META_GROUP, r);
  }

  /** Rows of w entries are unions of META8 groups exactly when w is a multiple of 64. */
  lemma RowsHoldWholeBlocks(w: nat, total: nat)
    requires 0 < w < total
    ensures (forall p: nat, q: nat | p < total && q < total && SameBlock(p, q) :: p / w == q / w)
            <==> w % META_GROUP == 0
  {
    if w % META_GROUP == 0 {
      forall p: nat, q: nat | SameBlock(p, q) ensures p / w == q / w {
        DivOfDiv(p, w / META_GROUP);
        DivOfDiv(q, w / META_GROUP);
      }
    } else {
      DivModUnique(0, w, w - 1);
      DivModUnique(1, w, 0);
      assert SameBlock(w - 1, w);
      assert (w - 1) / w != w / w;
    }
  }

  /** Two or more K token groups: no META8 group crosses a page iff dim is a multiple of 64. */
  lemma KMetaGroupsStayInPages(heads: nat, dim: nat, n: nat)
    requires heads > 0 && dim > 0 && n >= 2
    ensures (forall p: nat, q: nat | p < heads * n * dim && q < heads * n * dim && SameBlock(p, q) ::
               p / dim % n == q / dim % n)
            <==> dim % META_GROUP == 0
  {
    if dim % META_GROUP == 0 {
      forall p: nat, q: nat | SameBlock(p, q) ensures p / dim == q / dim {
        DivOfDiv(p, dim / META_GROUP);
        DivOfDiv(q, dim / META_GROUP);
      }
    } else {
      DivModUnique(0, dim, dim - 1);
      DivModUnique(1, dim, 0);
      IndexInRange(0, heads, 1, n, 0, dim);
      assert SameBlock(dim - 1, dim);
      assert (dim - 1) / dim % n != dim / dim % n;
    }
  }

  /** More than 32 tokens of V: no META8 group crosses a page iff a page holds whole META8 groups. */
  lemma VMetaGroupsStayInPages(heads: nat, dim: nat, tokens: nat)
    requires heads > 0 && dim > 0 && tokens > GROUP
    ensures var page := heads * (Groups(dim) * GROUP);
            (forall p: nat, q: nat | p < tokens * (heads * Groups(dim)) && q < tokens * (heads * Groups(dim))
                && SameBlock(p, q) ::
               p / page == q / page)
            <==> page % META_GROUP == 0
  {
    var row := heads * Groups(dim);
    assert row > 0;
    assert heads * (Groups(dim) * GROUP) == GROUP * row;
    MulMonotone(GROUP + 1, tokens, row);
    RowsHoldWholeBlocks(GROUP * row, tokens * row);
  }

  // ---------------------------------------------------------------- a failing sequence

  /** What the failing sequence asks of the arithmetic: operations on 0 and -1 are exact, dividing 1 by its
      rounded 255th gives 255 when rounded, and 255 times the BF16 cast of that 255th is not 1. Rounded FP32
      arithmetic meets this, and so does exact arithmetic (ExactIsElementary). */
  ghost predicate Elementary(a: Arith) {
    var s := a.div(1.0, 255.0);
    && a.sub(0.0, 0.0) == 0.0 && a.sub(0.0, -1.0) == 1.0 && a.add(0.0, 0.0) == 0.0 && (forall x :: a.mul(0.0, x) == 0.0)
    && a.div(0.0, 1.0) == 0.0 && a.div(0.0, 3.0) == 0.0 && a.div(0.0, 7.0) == 0.0 && a.div(0.0, 255.0) == 0.0
    && s >= META_EPS && RoundHalfEven(a.div(1.0, s)) == 255
    && a.bf16(0.0) == 0.0 && a.bf16(-1.0) == -1.0 && Shifted(a) != 0.0
  }

  /** What a zero becomes next to a -1 in the same META8 group. */
  function Shifted(a: Arith): real {
    a.add(0.0, ShiftedMin(a))
  }

  function ShiftedMin(a: Arith): real {
    a.add(a.mul(255.0, a.bf16(a.div(1.0, 255.0))), -1.0)
  }

  /** With exact operations any cast will do that keeps 0 and -1 and, like every binary format, not 1/255. */
  lemma ExactIsElementary(bf16: real -> real)
    requires bf16(0.0) == 0.0 && bf16(-1.0) == -1.0 && bf16(1.0 / 255.0) != 1.0 / 255.0
    ensures Elementary(Exact(bf16))
  {
    assert RoundHalfEven(255.0) == 255;
  }

  /** No multiple of a power of two is 1/255, whatever the binary format. */
  lemma NoBinary255th(m: int, n: nat)
    ensures m as real / Pow2(n) as real != 1.0 / 255.0
  {
    hide Pow2;
    PowerIsNoThird(n);
    assert 255 * m == 3 * (85 * m);
    QuotientOf255(m as real, Pow2(n) as real);
  }

  lemma QuotientOf255(m: real, p: real)
    requires p > 0.0
    ensures m / p == 1.0 / 255.0 ==> 255.0 * m == p
  {
    assert m / p * p == m;
  }

  lemma {:induction false} PowerIsNoThird(n: nat)
    ensures Pow2(n) % 3 != 0
  {
    if n > 0 {
      PowerIsNoThird(n - 1);
      DoubleIsNoThird(Pow2(n - 1));
    }
  }

  lemma DoubleIsNoThird(p: nat)
    requires p % 3 != 0
    ensures 2 * p % 3 != 0
  {
  }

  function WitnessValue(t: nat, h: nat, c: nat): real {
    if t == GROUP && h == 0 && c == 0 then -1.0 else 0.0
  }

  /** n tokens that are 0 but for a -1 in the first element after page 0. */
  function Witness(n: nat, heads: nat, dim: nat): (x: Tensor)
    ensures |x| == n && Shaped(x, heads, dim)
  {
    seq(n, t requires 0 <= t => seq(heads, h requires 0 <= h => seq(dim, c requires 0 <= c => WitnessValue(t, h, c))))
  }

  lemma WitnessAt(n: nat, heads: nat, dim: nat, t: nat, h: nat, c: nat)
    requires heads > 0 && dim > 0
    ensures At(Witness(n, heads, dim), t, h, c) == if t < n then WitnessValue(t, h, c) else 0.0
  {
  }

  lemma WitnessPrefix(n: nat, m: nat, heads: nat, dim: nat)
    requires m <= n
    ensures Witness(n, heads, dim)[..m] == Witness(m, heads, dim)
  {
    var x, y := Witness(n, heads, dim)[..m], Witness(m, heads, dim);
    forall t | 0 <= t < m ensures x[t] == y[t] {
      forall h | 0 <= h < heads ensures x[t][h] == y[t][h] {}
    }
  }

  /** Flat metadata that is 0 but for a -1 in entry s. */
  predicate Stepped(flat: seq<real>, s: nat) {
    s < |flat| && forall i | 0 <= i < |flat| :: flat[i] == if i == s then -1.0 else 0.0
  }

  lemma WitnessKMin(n: nat, heads: nat, dim: nat, h: nat, g: nat, c: nat)
    requires heads > 0 && dim > 0
    ensures var group := KGroup(Witness(n, heads, dim), h, g, c);
            && Min(group) == (if n > GROUP && h == 0 && g == 1 && c == 0 then -1.0 else 0.0)
            && (g == 0 ==> group == seq(GROUP, _ => 0.0))
  {
    hide Witness;
    var group := KGroup(Witness(n, heads, dim), h, g, c);
    forall j | 0 <= j < GROUP ensures group[j] == if GROUP * g + j < n then WitnessValue(GROUP * g + j, h, c) else 0.0 {
      WitnessAt(n, heads, dim, GROUP * g + j, h, c);
    }
    assert group[0] == 0.0 || group[0] == -1.0;
    assert group[1] == 0.0;
  }

  lemma WitnessVMin(n: nat, heads: nat, dim: nat, t: nat, h: nat, g: nat)
    requires heads > 0 && dim > 0 && t < n
    ensures var group := VGroup(Witness(n, heads, dim), t, h, g);
            && Min(group) == (if t == GROUP && h == 0 && g == 0 then -1.0 else 0.0)
            && (t != GROUP ==> group == seq(GROUP, _ => 0.0))
  {
    hide Witness;
    var group := VGroup(Witness(n, heads, dim), t, h, g);
    forall j | 0 <= j < GROUP ensures group[j] == WitnessValue(t, h, GROUP * g + j) {
      WitnessAt(n, heads, dim, t, h, GROUP * g + j);
    }
    assert group[0] == 0.0 || group[0] == -1.0;
    assert group[1] == 0.0;
  }

  /** The K minima: zeros for page 0 alone, and a -1 after the first `dim` entries if there is more. */
  lemma WitnessKMins(n: nat, heads: nat, dim: nat)
    requires heads > 0 && dim > 0 && n >= GROUP
    ensures var mins := Mins(KGroups(heads, dim, Witness(n, heads, dim)));
            if n == GROUP then AllZero(mins) else Stepped(mins, dim)
  {
    hide KGroup, Witness;
    var x, k := Witness(n, heads, dim), Groups(n);
    var mins := Mins(KGroups(heads, dim, x));
    forall i | 0 <= i < |mins| ensures mins[i] == if i == dim && n > GROUP then -1.0 else 0.0 {
      var h, g, c := RowMajorSplit(i, k, dim);
      IndexSplits(h, k, g, dim, c);
      WitnessKMin(n, heads, dim, h, g, c);
      if n > GROUP { IndexSplits(0, k, 1, dim, 0); }
    }
    if n > GROUP { IndexInRange(0, heads, 1, k, 0, dim); }
  }

  /** The V minima: the -1 comes after those of the first 32 tokens. */
  lemma WitnessVMins(n: nat, heads: nat, dim: nat)
    requires heads > 0 && dim > 0 && n >= GROUP
    ensures var mins := Mins(VGroups(heads, dim, Witness(n, heads, dim)));
            if n == GROUP then AllZero(mins) else Stepped(mins, GROUP * heads * Groups(dim))
  {
    hide VGroup, Witness;
    var x, k := Witness(n, heads, dim), Groups(dim);
    var mins := Mins(VGroups(heads, dim, x));
    forall i | 0 <= i < |mins| ensures mins[i] == if i == GROUP * heads * k then -1.0 else 0.0 {
      var t, h, g := RowMajorSplit(i, heads, k);
      RowMajorBound(i, n, heads, k);
      IndexSplits(t, heads, h, k, g);
      WitnessVMin(n, heads, dim, t, h, g);
      IndexSplits(GROUP, heads, 0, k, 0);
    }
    if n > GROUP { IndexInRange(GROUP, n, 0, heads, 0, k); }
  }

  // ------------------------------------------------------------- what becomes of a zero

  lemma BlockEntry(flat: seq<real>, b: nat, j: nat)
    requires b * META_GROUP < |flat| && j < META_GROUP
    ensures var i := b * META_GROUP + j; MetaBlock(flat, b)[j] == flat[if i < |flat| then i else |flat| - 1]
  {
  }

  lemma ZerosDecodeToZero(a: Arith, flat: seq<real>, i: nat)
    requires Elementary(a) && AllZero(flat) && i < |flat|
    ensures MetaAt(a, flat, i) == 0.0
  {
    hide MetaBlock, Elementary;
    var b, k := i / META_GROUP, i % META_GROUP;
    var g := MetaBlock(flat, b);
    forall j | 0 <= j < META_GROUP ensures g[j] == 0.0 { BlockEntry(flat, b, j); }
    ZeroCode(a, g, k);
  }

  lemma ZeroCode(a: Arith, g: seq<real>, k: nat)
    requires Elementary(a) && k < |g| && g[k] == 0.0 && Max(g) == 0.0 && (Min(g) == 0.0 || Min(g) == -1.0)
    ensures MetaValue(a, g, k) == if Min(g) == 0.0 then 0.0 else ShiftedMin(a)
  {
    hide RoundHalfEven, Min, Max;
    if Min(g) == 0.0 {
      assert Scale(a, g, META_LEVELS, META_EPS) == 1.0;
      RoundZero();
    } else {
      assert Scale(a, g, META_LEVELS, META_EPS) == a.div(1.0, 255.0);
    }
  }

  lemma RoundZero()
    ensures RoundHalfEven(0.0) == 0
  {
  }

  /** Next to a -1 in the same META8 group, a zero is decoded to something else. */
  lemma StepShiftsNeighbour(a: Arith, flat: seq<real>, s: nat)
    requires Elementary(a) && Stepped(flat, s) && s % META_GROUP != 0
    ensures MetaAt(a, flat, s - 1) == ShiftedMin(a)
  {
    hide MetaBlock, MetaValue, Elementary;
    var b, k := (s - 1) / META_GROUP, (s - 1) % META_GROUP;
    var g := MetaBlock(flat, b);
    forall j | 0 <= j < META_GROUP ensures g[j] == 0.0 || g[j] == -1.0 { BlockEntry(flat, b, j); }
    BlockEntry(flat, b, k);
    BlockEntry(flat, b, k + 1);
    assert g[k] == 0.0 && g[k + 1] == -1.0;
    ZeroCode(a, g, k);
  }

  /** An element of a group of zeros decodes to the decoded minimum of its group. */
  lemma ZeroGroup(a: Arith, levels: nat, row: seq<Group>, i: nat)
    requires Elementary(a) && (levels == K_LEVELS || levels == V_LEVELS) && i < |row| && row[i] == seq(GROUP, _ => 0.0)
    ensures var d, m := FromRow(a, levels, row, i, 0.0), MetaAt(a, Mins(row), i);
            d == a.add(0.0, m) && (m == 0.0 ==> d == 0.0) && (m == ShiftedMin(a) ==> d != 0.0)
  {
    hide MetaAt, Min, Max, RoundHalfEven;
    var g := row[i];
    assert g[0] == 0.0 && Min(g) == 0.0 && Max(g) == 0.0;
    assert Scale(a, g, levels, PRIMARY_EPS) == 1.0;
    RoundZero();
  }

  /** The last K element of page 0 and head 0. */
  lemma WitnessKDecoded(a: Arith, n: nat, heads: nat, dim: nat)
    requires Elementary(a) && heads > 0 && dim > 0 && n >= GROUP && dim % META_GROUP != 0
    ensures K3(a, heads, dim, Witness(n, heads, dim)).decoded[0][0][dim - 1] == 0.0 <==> n == GROUP
  {
    hide K3, MetaAt, KGroup, FromRow, Witness, Elementary, Stepped, AllZero;
    var x := Witness(n, heads, dim);
    var groups := KGroups(heads, dim, x);
    K3AtFlat(a, heads, dim, x, 0, 0, dim - 1);
    IndexSplits(0, Groups(n), 0, dim, dim - 1);
    WitnessAt(n, heads, dim, 0, 0, dim - 1);
    WitnessKMin(n, heads, dim, 0, 0, dim - 1);
    ZeroGroup(a, K_LEVELS, groups, dim - 1);
    WitnessKMins(n, heads, dim);
    if n == GROUP {
      ZerosDecodeToZero(a, Mins(groups), dim - 1);
    } else {
      StepShiftsNeighbour(a, Mins(groups), dim);
    }
  }

  /** The last V element of page 0. */
  lemma WitnessVDecoded(a: Arith, n: nat, heads: nat, dim: nat)
    requires Elementary(a) && heads > 0 && dim > 0 && n >= GROUP && heads * (Groups(dim) * GROUP) % META_GROUP != 0
    ensures V2(a, heads, dim, Witness(n, heads, dim)).decoded[GROUP - 1][heads - 1][dim - 1] == 0.0 <==> n == GROUP
  {
    hide V2, MetaAt, VGroup, FromRow, Witness, Elementary, Stepped, AllZero;
    var x, t, h, c := Witness(n, heads, dim), GROUP - 1, heads - 1, dim - 1;
    var groups, p := VGroups(heads, dim, x), GROUP * heads * Groups(dim) - 1;
    LastOfPage(heads, dim);
    V2AtFlat(a, heads, dim, x, t, h, c);
    VGroupsAt(heads, dim, x, t, h, c / GROUP) by { GroupInRange(c, dim); }
    WitnessAt(n, heads, dim, t, h, c);
    WitnessVMin(n, heads, dim, t, h, c / GROUP);
    ZeroGroup(a, V_LEVELS, groups, p);
    WitnessVMins(n, heads, dim);
    if n == GROUP {
      ZerosDecodeToZero(a, Mins(groups), p);
    } else {
      StepShiftsNeighbour(a, Mins(groups), p + 1);
    }
  }

  lemma LastOfPage(heads: nat, dim: nat)
    requires heads > 0 && dim > 0
    ensures var k := Groups(dim);
            && Index(GROUP - 1, heads, heads - 1, k, (dim - 1) / GROUP) == GROUP * heads * k - 1 >= 0
            && heads * (k * GROUP) == GROUP * heads * k
  {
    var k := Groups(dim);
    assert (dim - 1) / GROUP == k - 1;
    assert (GROUP - 1) * heads + heads - 1 == GROUP * heads - 1;
    assert (GROUP * heads - 1) * k + (k - 1) == GROUP * heads * k - 1;
    MulMonotone(1, GROUP * heads, k);
  }

  // ------------------------------------------------------------------- exact conditions

  const FIRST_PAGE_AND_RESIDUAL: nat := GROUP + RESIDUAL

  /** Up to 36 tokens only one region is ever quantized: the two forms agree for any decoder. */
  lemma ShortSequencesAgree(decode: Tensor -> Tensor, bf16: real -> real, raw: Tensor)
    requires |raw| <= FIRST_PAGE_AND_RESIDUAL && IsBf16(bf16, raw)
    ensures Incremental(decode, raw) == Canonical(decode, bf16, raw)
  {
    hide Cast;
    var p, aged := ClosedPages(|raw|), Old(|raw|);
    assert Cast(bf16, raw[aged..]) == Cast(bf16, raw)[aged..];
    assert Pages(decode, raw, 0) == [];
    if p == 1 {
      assert Pages(decode, raw, 1) == decode(raw[0..GROUP]);
      assert raw[0..GROUP] == raw[..aged];
    } else {
      assert raw[0..] == raw;
    }
  }

  /** Longer ones differ if page 0 decodes to something else on its own. */
  lemma PageZeroDiffers(decode: Tensor -> Tensor, bf16: real -> real, x: Tensor, t: nat)
    requires |x| > FIRST_PAGE_AND_RESIDUAL && t < |decode(x[..GROUP])| && t < |decode(x[..Old(|x|)])|
    requires decode(x[..GROUP])[t] != decode(x[..Old(|x|)])[t]
    ensures Incremental(decode, x) != Canonical(decode, bf16, x)
  {
    PagesExtend(decode, x, 1, ClosedPages(|x|));
    assert Pages(decode, x, 0) == [];
    assert x[0..GROUP] == x[..GROUP];
    assert Pages(decode, x, 1) == decode(x[..GROUP]);
    assert Incremental(decode, x)[t] == Pages(decode, x, 1)[t];
    assert Canonical(decode, bf16, x)[t] == decode(x[..Old(|x|)])[t];
  }

  lemma WitnessIsBf16(bf16: real -> real, n: nat, heads: nat, dim: nat)
    requires bf16(0.0) == 0.0 && bf16(-1.0) == -1.0
    ensures IsBf16(bf16, Witness(n, heads, dim))
  {
    var x := Witness(n, heads, dim);
    forall t, h, c | 0 <= t < |x| && 0 <= h < heads && 0 <= c < dim ensures bf16(x[t][h][c]) == x[t][h][c] {}
    TensorEqual(Cast(bf16, x), x, heads, dim);
  }

  /** From 37 tokens on the incremental K of the witness differs from its canonical K. */
  lemma WitnessKDiffers(a: Arith, n: nat, heads: nat, dim: nat)
    requires Elementary(a) && n > FIRST_PAGE_AND_RESIDUAL && heads > 0 && dim > 0 && dim % META_GROUP != 0
    ensures var decode, x := Rabit(a, heads, dim).k, Witness(n, heads, dim);
            IsBf16(a.bf16, x) && Incremental(decode, x) != Canonical(decode, a.bf16, x)
  {
    hide Rabit, K3, V2, Witness, Incremental, Canonical;
    var x := Witness(n, heads, dim);
    WitnessIsBf16(a.bf16, n, heads, dim);
    WitnessPrefix(n, GROUP, heads, dim);
    WitnessPrefix(n, Old(n), heads, dim);
    WitnessKDecoded(a, GROUP, heads, dim);
    WitnessKDecoded(a, Old(n), heads, dim);
    RabitDecodes(a, heads, dim, x[..GROUP]);
    RabitDecodes(a, heads, dim, x[..Old(n)]);
    PageZeroDiffers(Rabit(a, heads, dim).k, a.bf16, x, 0);
  }

  /** The same for V. */
  lemma WitnessVDiffers(a: Arith, n: nat, heads: nat, dim: nat)
    requires Elementary(a) && n > FIRST_PAGE_AND_RESIDUAL && heads > 0 && dim > 0
    requires heads * (Groups(dim) * GROUP) % META_GROUP != 0
    ensures var decode, x := Rabit(a, heads, dim).v, Witness(n, heads, dim);
            IsBf16(a.bf16, x) && Incremental(decode, x) != Canonical(decode, a.bf16, x)
  {
    hide Rabit, K3, V2, Witness, Incremental, Canonical, Groups;
    var x := Witness(n, heads, dim);
    WitnessIsBf16(a.bf16, n, heads, dim);
    WitnessPrefix(n, GROUP, heads, dim);
    WitnessPrefix(n, Old(n), heads, dim);
    WitnessVDecoded(a, GROUP, heads, dim);
    WitnessVDecoded(a, Old(n), heads, dim);
    RabitDecodes(a, heads, dim, x[..GROUP]);
    RabitDecodes(a, heads, dim, x[..Old(n)]);
    PageZeroDiffers(Rabit(a, heads, dim).v, a.bf16, x, GROUP - 1);
  }

  /** The layer state shows the canonical state of every BF16 sequence of n tokens. */
  ghost predicate Refines(decode: Tensor -> Tensor, bf16: real -> real, n: nat) {
    forall x | |x| == n && IsBf16(bf16, x) :: Incremental(decode, x) == Canonical(decode, bf16, x)
  }

  lemma LocalRefines(decode: Tensor -> Tensor, bf16: real -> real, n: nat)
    requires PageLocal(decode) || n <= FIRST_PAGE_AND_RESIDUAL
    ensures Refines(decode, bf16, n)
  {
    hide Incremental, Canonical, PageLocal, IsBf16;
    forall x | |x| == n && IsBf16(bf16, x) ensures Incremental(decode, x) == Canonical(decode, bf16, x) {
      if PageLocal(decode) { IncrementalIsCanonical(decode, bf16, x); } else { ShortSequencesAgree(decode, bf16, x); }
    }
  }

  /** At every length: K is right exactly up to 36 tokens or for head dimensions that are multiples of 64. */
  lemma KRefinesIff(a: Arith, n: nat, heads: nat, dim: nat)
    requires Elementary(a) && heads > 0 && dim > 0
    ensures Refines(Rabit(a, heads, dim).k, a.bf16, n) <==> n <= FIRST_PAGE_AND_RESIDUAL || dim % META_GROUP == 0
  {
    hide Incremental, Canonical, Rabit, IsBf16, Witness;
    if n <= FIRST_PAGE_AND_RESIDUAL || dim % META_GROUP == 0 {
      if dim % META_GROUP == 0 { RabitIsPageLocal(a, heads, dim); }
      LocalRefines(Rabit(a, heads, dim).k, a.bf16, n);
    } else {
      WitnessKDiffers(a, n, heads, dim);
    }
  }

  /** V is right exactly up to 36 tokens or when heads times the padded dimension is a multiple of 64. */
  lemma VRefinesIff(a: Arith, n: nat, heads: nat, dim: nat)
    requires Elementary(a) && heads > 0 && dim > 0
    ensures Refines(Rabit(a, heads, dim).v, a.bf16, n) <==>
              n <= FIRST_PAGE_AND_RESIDUAL || heads * (Groups(dim) * GROUP) % META_GROUP == 0
  {
    hide Incremental, Canonical, Rabit, IsBf16, Witness, Groups;
    var decode := Rabit(a, heads, dim).v;
    if n <= FIRST_PAGE_AND_RESIDUAL {
      LocalRefines(decode, a.bf16, n);
    } else if heads * (Groups(dim) * GROUP) % META_GROUP == 0 {
      forall y, z { RabitVSplits(a, heads, dim, y, z); }
      LocalRefines(decode, a.bf16, n);
    } else {
      WitnessVDiffers(a, n, heads, dim);
    }
  }

  /** The layer state is right for K and V of every length exactly when dim is a multiple of 64. */
  lemma RefinementIffAligned(a: Arith, heads: nat, dim: nat)
    requires Elementary(a) && heads > 0 && dim > 0
    ensures var c := Rabit(a, heads, dim);
            (forall n: nat :: Refines(c.k, a.bf16, n) && Refines(c.v, a.bf16, n)) <==> dim % META_GROUP == 0
  {
    hide Rabit, Refines, Groups;
    var c := Rabit(a, heads, dim);
    if dim % META_GROUP == 0 {
      PagesAreAligned(heads, dim);
      forall n: nat ensures Refines(c.k, a.bf16, n) && Refines(c.v, a.bf16, n) {
        KRefinesIff(a, n, heads, dim);
        VRefinesIff(a, n, heads, dim);
      }
    } else {
      KRefinesIff(a, FIRST_PAGE_AND_RESIDUAL + 1, heads, dim);
    }
  }

  /** Two heads of dimension 32 meet the documented conditions, and the layer state is wrong for them
      from 37 tokens on. */
  lemma DocumentedConditionIsTooWeak(a: Arith, n: nat)
    requires Elementary(a) && n > FIRST_PAGE_AND_RESIDUAL
    ensures var heads, dim := 2, 32;
            dim % GROUP == 0 && heads * dim % META_GROUP == 0 && !Refines(Rabit(a, heads, dim).k, a.bf16, n)
  {
    hide Rabit, Refines;
    KRefinesIff(a, n, 2, 32);
  }
}
