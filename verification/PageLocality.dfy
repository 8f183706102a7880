/** When the quantization of a page does not depend on the tokens after it. */
module PageLocality {
  import opened Tensors
  import opened Quantizer

  // ------------------------------------------------------- META8 on aligned windows

  lemma AlignedBlock(flat: seq<real>, o: nat, n: nat, b: nat)
    requires o % META_GROUP == 0 && b * META_GROUP < n && o + n <= |flat|
    requires n % META_GROUP == 0 || o + n == |flat|
    ensures MetaBlock(flat, o / META_GROUP + b) == MetaBlock(flat[o..o + n], b)
  {
    hide MetaPadded;
    var w, s := flat[o..o + n], b * META_GROUP;
    var whole, part := MetaPadded(flat), MetaPadded(w);
    BlockFits(s, |part|);
    BlockFits(o + s, |whole|);
    if n % META_GROUP == 0 { BlockFits(s, n); }
    forall i | s <= i < s + META_GROUP ensures part[i] == whole[o + i] {
      assert i >= n ==> o + n == |flat|;
    }
    assert whole[o + s..o + s + META_GROUP] == part[s..s + META_GROUP];
  }

  lemma BlockFits(s: nat, n: nat)
    requires s < n && s % META_GROUP == 0 && n % META_GROUP == 0
    ensures s + META_GROUP <= n
  {
  }

  /** A window of the flattened metadata that starts on a META8 boundary and ends on one
      (or at the end of the data) is grouped and padded as if it stood alone. */
  lemma AlignedWindow(a: Arith, flat: seq<real>, o: nat, n: nat, i: nat)
    requires o % META_GROUP == 0 && i < n && o + n <= |flat|
    requires n % META_GROUP == 0 || o + n == |flat|
    ensures MetaAt(a, flat, o + i) == MetaAt(a, flat[o..o + n], i)
  {
    hide MetaValue;
    var b := i / META_GROUP;
    AlignedBlock(flat, o, n, b);
    assert (o + i) / META_GROUP == o / META_GROUP + b && (o + i) % META_GROUP == i % META_GROUP;
  }

  // ---------------------------------------------------------------------------- K3

  /** The groups of one head and one token group: a row of `dim` neighbours in canonical order. */
  function KRow(dim: nat, x: Tensor, h: nat, g: nat): (r: seq<Group>) {
    seq(dim, c requires 0 <= c => KGroup(x, h, g, c))
  }

  /** A decoded element computed from a metadata row and nothing else. */
  function FromRow(a: Arith, levels: nat, row: seq<Group>, i: nat, x: real): real
    requires i < |row|
  {
    Dequantize(a, Code(a, row[i], levels, PRIMARY_EPS, x),
               MetaAt(a, Scales(a, row, levels), i), MetaAt(a, Mins(row), i))
  }

  lemma KRowInFlat(heads: nat, dim: nat, x: Tensor, h: nat, g: nat)
    requires dim > 0 && |x| > 0 && h < heads && g < Groups(|x|)
    ensures var o := Index(h, Groups(|x|), g, dim, 0);
            o + dim <= |KGroups(heads, dim, x)| && KGroups(heads, dim, x)[o..o + dim] == KRow(dim, x, h, g)
  {
    var n := Groups(|x|);
    var o := Index(h, n, g, dim, 0);
    IndexInRange(h, heads, g, n, dim - 1, dim);
    forall c | 0 <= c < dim ensures KGroups(heads, dim, x)[o + c] == KGroup(x, h, g, c) {
      IndexSplits(h, n, g, dim, c);
    }
  }

  lemma K3AtFlat(a: Arith, heads: nat, dim: nat, x: Tensor, t: nat, h: nat, c: nat)
    requires dim > 0 && t < |x| && h < heads && c < dim
    ensures var p := Index(h, Groups(|x|), t / GROUP, dim, c);
            && p < |KGroups(heads, dim, x)|
            && K3(a, heads, dim, x).decoded[t][h][c]
               == FromRow(a, K_LEVELS, KGroups(heads, dim, x), p, At(x, t, h, c))
  {
    hide Meta8Roundtrip, MetaAt, Code, Scale, PadTo, Dequantize;
    IndexInRange(h, heads, t / GROUP, Groups(|x|), c, dim);
    IndexSplits(h, Groups(|x|), t / GROUP, dim, c);
  }

  /** For dim a multiple of 64 a decoded K value depends only on its own head and token group. */
  lemma K3IsRowLocal(a: Arith, heads: nat, dim: nat, x: Tensor, t: nat, h: nat, c: nat)
    requires dim > 0 && dim % META_GROUP == 0 && t < |x| && h < heads && c < dim
    ensures K3(a, heads, dim, x).decoded[t][h][c]
         == FromRow(a, K_LEVELS, KRow(dim, x, h, t / GROUP), c, At(x, t, h, c))
  {
    hide K3, KGroups, KRow, PadTo, Groups, FromRow;
    var o := Index(h, Groups(|x|), t / GROUP, dim, 0);
    GroupInRange(t, |x|);
    K3AtFlat(a, heads, dim, x, t, h, c);
    KRowInFlat(heads, dim, x, h, t / GROUP);
    MulKeepsAlignment(h * Groups(|x|) + t / GROUP, dim);
    FromRowWindow(a, K_LEVELS, KGroups(heads, dim, x), o, dim, c, At(x, t, h, c));
  }

  /** Decoding on a META8-aligned window needs only that window. */
  lemma FromRowWindow(a: Arith, levels: nat, groups: seq<Group>, o: nat, n: nat, i: nat, x: real)
    requires o % META_GROUP == 0 && i < n && o + n <= |groups|
    requires n % META_GROUP == 0 || o + n == |groups|
    ensures FromRow(a, levels, groups, o + i, x) == FromRow(a, levels, groups[o..o + n], i, x)
  {
    hide MetaAt, Code, Scale, Dequantize;
    var w := groups[o..o + n];
    assert Mins(groups)[o..o + n] == Mins(w);
    assert Scales(a, groups, levels)[o..o + n] == Scales(a, w, levels);
    AlignedWindow(a, Mins(groups), o, n, i);
    AlignedWindow(a, Scales(a, groups, levels), o, n, i);
  }

  lemma MulKeepsAlignment(q: nat, n: nat)
    requires n % META_GROUP == 0
    ensures q * n % META_GROUP == 0
  {
    var m := n / META_GROUP;
    assert q * n == (q * m) * META_GROUP;
    DivModUnique(q * m, META_GROUP, 0);
  }

  lemma KGroupOfConcat(y: Tensor, z: Tensor, h: nat, g: nat, c: nat)
    requires |y| % GROUP == 0
    ensures g < |y| / GROUP ==> KGroup(y + z, h, g, c) == KGroup(y, h, g, c)
    ensures g >= |y| / GROUP ==> KGroup(y + z, h, g, c) == KGroup(z, h, g - |y| / GROUP, c)
  {
    forall j | 0 <= j < GROUP
      ensures g < |y| / GROUP ==> KGroup(y + z, h, g, c)[j] == KGroup(y, h, g, c)[j]
      ensures g >= |y| / GROUP ==> KGroup(y + z, h, g, c)[j] == KGroup(z, h, g - |y| / GROUP, c)[j]
    {
      var t := GROUP * g + j;
      assert KGroup(y + z, h, g, c)[j] == At(y + z, t, h, c);
      assert g < |y| / GROUP ==> KGroup(y, h, g, c)[j] == At(y, t, h, c);
      assert g >= |y| / GROUP ==> KGroup(z, h, g - |y| / GROUP, c)[j] == At(z, t - |y|, h, c);
    }
  }

  /** Closing pages early is sound for K: a page-aligned prefix quantizes on its own. */
  lemma K3Splits(a: Arith, heads: nat, dim: nat, y: Tensor, z: Tensor)
    requires heads > 0 && dim > 0 && dim % META_GROUP == 0
    requires |y| > 0 && |z| > 0 && |y| % GROUP == 0
    ensures K3(a, heads, dim, y + z).decoded == K3(a, heads, dim, y).decoded + K3(a, heads, dim, z).decoded
  {
    hide K3, FromRow, KGroup;
    var full, left, right := K3(a, heads, dim, y + z).decoded, K3(a, heads, dim, y).decoded,
        K3(a, heads, dim, z).decoded;
    forall t, h, c | 0 <= t < |y + z| && 0 <= h < heads && 0 <= c < dim
      ensures full[t][h][c] == (left + right)[t][h][c]
    {
      K3IsRowLocal(a, heads, dim, y + z, t, h, c);
      var g := t / GROUP;
      forall k: nat ensures g < |y| / GROUP ==> KGroup(y + z, h, g, k) == KGroup(y, h, g, k)
                    ensures g >= |y| / GROUP ==> KGroup(y + z, h, g, k) == KGroup(z, h, g - |y| / GROUP, k) {
        KGroupOfConcat(y, z, h, g, k);
      }
      if t < |y| {
        K3IsRowLocal(a, heads, dim, y, t, h, c);
        assert KRow(dim, y + z, h, g) == KRow(dim, y, h, g);
      } else {
        K3IsRowLocal(a, heads, dim, z, t - |y|, h, c);
        assert (t - |y|) / GROUP == g - |y| / GROUP;
        assert KRow(dim, y + z, h, g) == KRow(dim, z, h, g - |y| / GROUP);
      }
    }
    TensorEqual(full, left + right, heads, dim);
  }

  lemma TensorEqual(x: Tensor, y: Tensor, heads: nat, dim: nat)
    requires |x| == |y| && Shaped(x, heads, dim) && Shaped(y, heads, dim)
    requires forall t, h, c | 0 <= t < |x| && 0 <= h < heads && 0 <= c < dim :: x[t][h][c] == y[t][h][c]
    ensures x == y
  {
    forall t | 0 <= t < |x| ensures x[t] == y[t] {
      forall h | 0 <= h < heads ensures x[t][h] == y[t][h] {}
    }
  }

  // ---------------------------------------------------------------------------- V2

  lemma VGroupsAt(heads: nat, dim: nat, x: Tensor, t: nat, h: nat, g: nat)
    requires dim > 0 && t < |x| && h < heads && g < Groups(dim)
    ensures Index(t, heads, h, Groups(dim), g) < |VGroups(heads, dim, x)|
    ensures VGroups(heads, dim, x)[Index(t, heads, h, Groups(dim), g)] == VGroup(x, t, h, g)
  {
    hide VGroup, Groups;
    IndexInRange(t, |x|, h, heads, g, Groups(dim));
    IndexSplits(t, heads, h, Groups(dim), g);
  }

  lemma VGroupOfConcat(y: Tensor, z: Tensor, t: nat, h: nat, g: nat)
    ensures VGroup(y + z, t, h, g) == if t < |y| then VGroup(y, t, h, g) else VGroup(z, t - |y|, h, g)
  {
    var r := if t < |y| then VGroup(y, t, h, g) else VGroup(z, t - |y|, h, g);
    forall j | 0 <= j < GROUP ensures VGroup(y + z, t, h, g)[j] == r[j] {
      assert VGroup(y + z, t, h, g)[j] == At(y + z, t, h, GROUP * g + j);
    }
  }

  lemma VGroupsOfConcat(heads: nat, dim: nat, y: Tensor, z: Tensor)
    requires heads > 0 && dim > 0
    ensures VGroups(heads, dim, y + z) == VGroups(heads, dim, y) + VGroups(heads, dim, z)
  {
    hide VGroups, VGroup, Groups;
    var n := Groups(dim);
    var whole, left, right := VGroups(heads, dim, y + z), VGroups(heads, dim, y), VGroups(heads, dim, z);
    assert |whole| == |left| + |right| by {
      assert (|y| + |z|) * heads == |y| * heads + |z| * heads;
    }
    forall i | 0 <= i < |whole| ensures whole[i] == (left + right)[i] {
      var t, h, g := RowMajorSplit(i, heads, n);
      RowMajorBound(i, |y + z|, heads, n);
      VGroupsAt(heads, dim, y + z, t, h, g);
      VGroupOfConcat(y, z, t, h, g);
      if t < |y| {
        VGroupsAt(heads, dim, y, t, h, g);
      } else {
        VGroupsAt(heads, dim, z, t - |y|, h, g);
        IndexShift(t - |y|, |y|, heads, h, n, g);
      }
    }
  }

  lemma IndexShift(i: nat, d: nat, nj: nat, j: nat, nk: nat, k: nat)
    ensures Index(i + d, nj, j, nk, k) == Index(i, nj, j, nk, k) + d * nj * nk
  {
    assert (i + d) * nj == i * nj + d * nj;
    assert (i * nj + j + d * nj) * nk == (i * nj + j) * nk + d * nj * nk;
  }

  lemma RowMajorSplit(p: nat, nj: nat, nk: nat) returns (i: nat, j: nat, k: nat)
    requires nj > 0 && nk > 0
    ensures i == p / nk / nj && j < nj && k < nk && p == Index(i, nj, j, nk, k)
  {
    var q := p / nk;
    i, j, k := q / nj, q % nj, p % nk;
    assert q == i * nj + j;
    assert p == q * nk + k;
  }

  lemma RowMajorBound(p: nat, ni: nat, nj: nat, nk: nat)
    requires nj > 0 && nk > 0 && p < ni * nj * nk
    ensures p / nk / nj < ni
  {
    QuotientBound(p, ni * nj, nk);
    QuotientBound(p / nk, ni, nj);
  }

  lemma QuotientBound(p: nat, m: nat, n: nat)
    requires n > 0 && p < m * n
    ensures p / n < m
  {
    if p / n >= m {
      MulMonotone(m, p / n, n);
      assert false;
    }
  }

  lemma V2AtFlat(a: Arith, heads: nat, dim: nat, x: Tensor, t: nat, h: nat, c: nat)
    requires dim > 0 && t < |x| && h < heads && c < dim
    ensures var p := Index(t, heads, h, Groups(dim), c / GROUP);
            && p < |VGroups(heads, dim, x)|
            && V2(a, heads, dim, x).decoded[t][h][c]
               == FromRow(a, V_LEVELS, VGroups(heads, dim, x), p, At(x, t, h, c))
  {
    hide Meta8Roundtrip, MetaAt, Code, Scale, PadTo, Dequantize;
    IndexInRange(t, |x|, h, heads, c / GROUP, Groups(dim));
    IndexSplits(t, heads, h, Groups(dim), c / GROUP);
  }

  lemma FromRowSplits(a: Arith, levels: nat, p: seq<Group>, q: seq<Group>, i: nat, x: real)
    requires |p| % META_GROUP == 0 && i < |p| + |q|
    ensures FromRow(a, levels, p + q, i, x)
         == if i < |p| then FromRow(a, levels, p, i, x) else FromRow(a, levels, q, i - |p|, x)
  {
    hide FromRow;
    if i < |p| {
      assert (p + q)[0..0 + |p|] == p;
      FromRowWindow(a, levels, p + q, 0, |p|, i, x);
    } else {
      assert (p + q)[|p|..|p| + |q|] == q;
      FromRowWindow(a, levels, p + q, |p|, |q|, i - |p|, x);
    }
  }

  /** Closing pages early is sound for V whenever a page holds whole META8 groups. */
  lemma V2Splits(a: Arith, heads: nat, dim: nat, y: Tensor, z: Tensor)
    requires heads > 0 && dim > 0 && heads * (Groups(dim) * GROUP) % META_GROUP == 0
    requires |y| > 0 && |z| > 0 && |y| % GROUP == 0
    ensures V2(a, heads, dim, y + z).decoded == V2(a, heads, dim, y).decoded + V2(a, heads, dim, z).decoded
  {
    hide V2, FromRow, VGroups;
    var n := Groups(dim);
    var full, left, right := V2(a, heads, dim, y + z).decoded, V2(a, heads, dim, y).decoded,
        V2(a, heads, dim, z).decoded;
    VGroupsOfConcat(heads, dim, y, z);
    var p, q := VGroups(heads, dim, y), VGroups(heads, dim, z);
    assert |p| % META_GROUP == 0 by {
      assert |p| == |y| / GROUP * (heads * (n * GROUP));
      MulKeepsAlignment(|y| / GROUP, heads * (n * GROUP));
    }
    forall t, h, c | 0 <= t < |y + z| && 0 <= h < heads && 0 <= c < dim
      ensures full[t][h][c] == (left + right)[t][h][c]
    {
      V2AtFlat(a, heads, dim, y + z, t, h, c);
      var i := Index(t, heads, h, n, c / GROUP);
      FromRowSplits(a, V_LEVELS, p, q, i, At(y + z, t, h, c));
      if t < |y| {
        V2AtFlat(a, heads, dim, y, t, h, c);
      } else {
        V2AtFlat(a, heads, dim, z, t - |y|, h, c);
        IndexShift(t - |y|, |y|, heads, h, n, c / GROUP);
      }
    }
    TensorEqual(full, left + right, heads, dim);
  }

  // -------------------------------------------------------------------------- storage

  /** META8 values are read back from what is stored: 8-bit codes, and the BF16 minimum and scale of their group. */
  lemma MetaIsStored(a: Arith, flat: seq<real>, i: nat)
    requires i < |flat|
    ensures var m, b, k := Meta8Roundtrip(a, flat), i / 64, i % 64;
            && b < |m.codes| == |m.min| == |m.scale| && |m.codes[b]| == 64 && 0 <= m.codes[b][k] <= 255
            && m.min[b] == a.bf16(Min(MetaBlock(flat, b))) && |m.decoded| == |flat|
            && m.decoded[i] == a.add(a.mul(m.codes[b][k] as real, m.scale[b]), m.min[b])
  {
    hide MetaBlock, Scale, Min, Code;
  }

  /** K elements are read back from 3-bit codes and decoded metadata. */
  lemma K3IsStored(a: Arith, heads: nat, dim: nat, x: Tensor, t: nat, h: nat, c: nat)
    requires t < |x| && h < heads && c < dim
    ensures var q, p := K3(a, heads, dim, x), Index(h, Groups(|x|), t / 32, dim, c);
            && t < |q.codes| && h < |q.codes[t]| && c < |q.codes[t][h]| && 0 <= q.codes[t][h][c] <= 7
            && p < |q.scaleMeta.decoded| == |q.minMeta.decoded|
            && q.decoded[t][h][c] == a.add(a.mul(q.codes[t][h][c] as real, q.scaleMeta.decoded[p]),
                                           q.minMeta.decoded[p])
  {
    hide Meta8Roundtrip, MetaAt, Code, Scale, KGroup;
    IndexInRange(h, heads, t / GROUP, Groups(|x|), c, dim);
  }

  /** V elements are read back from 2-bit codes and decoded metadata. */
  lemma V2IsStored(a: Arith, heads: nat, dim: nat, x: Tensor, t: nat, h: nat, c: nat)
    requires t < |x| && h < heads && c < dim
    ensures var q, p := V2(a, heads, dim, x), Index(t, heads, h, Groups(dim), c / 32);
            && t < |q.codes| && h < |q.codes[t]| && c < |q.codes[t][h]| && 0 <= q.codes[t][h][c] <= 3
            && p < |q.scaleMeta.decoded| == |q.minMeta.decoded|
            && q.decoded[t][h][c] == a.add(a.mul(q.codes[t][h][c] as real, q.scaleMeta.decoded[p]),
                                           q.minMeta.decoded[p])
  {
    hide Meta8Roundtrip, MetaAt, Code, Scale, VGroup;
    IndexInRange(t, |x|, h, heads, c / GROUP, Groups(dim));
  }
}
