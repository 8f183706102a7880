/** logical_bytes: the storage a canonical state of n tokens stands for. */
module LogicalBytes {
  import opened Tensors
  import opened Quantizer
  import opened LayerState

  datatype Bytes = Bytes(kPayload: nat, vPayload: nat, kMeta: nat, vMeta: nat, residual: nat) {
    function Total(): nat {
      kPayload + vPayload + kMeta + vMeta + residual
    }

    function Times(layers: nat): Bytes {
      Bytes(layers * kPayload, layers * vPayload, layers * kMeta, layers * vMeta, layers * residual)
    }
  }

  /** uint8 codes, and a BF16 min and scale per group. */
  function MetaBytes(count: nat): nat {
    var padded := count + PadTo(count, META_GROUP);
    padded + padded / META_GROUP * 4
  }

  /** Bytes of that many bits, rounded up. */
  function Packed(bits: nat): nat {
    (bits + 7) / 8
  }

  function Volume(x: nat, y: nat, z: nat): nat {
    x * y * z
  }

  function PerLayer(n: nat, heads: nat, dim: nat): Bytes {
    var aged := Old(n);
    var residual := Volume(Recent(n), heads, dim) * 2 * 2;
    if aged == 0 then Bytes(0, 0, 0, 0, residual) else
    var tp, dp := aged + PadTo(aged, GROUP), dim + PadTo(dim, GROUP);
    Bytes(Packed(Volume(tp, heads, dim) * 3), Packed(Volume(aged, heads, dp) * 2),
          2 * MetaBytes(Volume(heads, tp / GROUP, dim)), 2 * MetaBytes(Volume(aged, heads, dp / GROUP)), residual)
  }

  function LogicalBytes(n: nat, layers: nat, heads: nat, dim: nat): Bytes {
    PerLayer(n, heads, dim).Times(layers)
  }

  lemma TotalIsLinear(b: Bytes, layers: nat)
    ensures b.Times(layers).Total() == layers * b.Total()
  {
  }

  // ------------------------------------------------------ sizes of the built structures

  function StoredMeta(m: Meta8): nat {
    |m.codes| * META_GROUP + 2 * |m.min| + 2 * |m.scale|
  }

  lemma MetaBytesAreStored(a: Arith, flat: seq<real>)
    requires |flat| > 0
    ensures StoredMeta(Meta8Roundtrip(a, flat)) == MetaBytes(|flat|)
    ensures forall b | 0 <= b < |Meta8Roundtrip(a, flat).codes| :: |Meta8Roundtrip(a, flat).codes[b]| == META_GROUP
  {
    hide MetaBlocks, MetaCodes;
    assert |MetaBlocks(flat)| * META_GROUP == |flat| + PadTo(|flat|, META_GROUP);
  }

  function RowEntries<T>(rows: seq<seq<T>>): nat {
    if rows == [] then 0 else |rows[0]| + RowEntries(rows[1..])
  }

  /** Number of elements of a three-dimensional array. */
  function Entries<T>(x: seq<seq<seq<T>>>): nat {
    if x == [] then 0 else RowEntries(x[0]) + Entries(x[1..])
  }

  predicate Uniform3<T>(x: seq<seq<seq<T>>>, y: nat, z: nat) {
    forall i | 0 <= i < |x| :: |x[i]| == y && forall j | 0 <= j < y :: |x[i][j]| == z
  }

  lemma {:induction false} UniformRows<T>(rows: seq<seq<T>>, z: nat)
    requires forall j | 0 <= j < |rows| :: |rows[j]| == z
    ensures RowEntries(rows) == |rows| * z
  {
    if rows != [] { UniformRows(rows[1..], z); }
  }

  lemma {:induction false} UniformEntries<T>(x: seq<seq<seq<T>>>, y: nat, z: nat)
    requires Uniform3(x, y, z)
    ensures Entries(x) == Volume(|x|, y, z)
  {
    hide Volume, RowEntries;
    if x == [] {
      VolumeZero(y, z);
    } else {
      UniformRows(x[0], z);
      UniformEntries(x[1..], y, z);
      VolumeGrows(|x| - 1, 1, y, z);
    }
  }

  lemma K3CodesShape(a: Arith, heads: nat, dim: nat, x: Tensor)
    requires heads > 0 && dim > 0 && |x| > 0
    ensures var codes := K3(a, heads, dim, x).codes; |codes| == Groups(|x|) * GROUP && Uniform3(codes, heads, dim)
  {
    hide Meta8Roundtrip, Code, KGroup, KGroups, Groups;
  }

  lemma V2CodesShape(a: Arith, heads: nat, dim: nat, x: Tensor)
    requires heads > 0 && dim > 0 && |x| > 0
    ensures var codes := V2(a, heads, dim, x).codes; |codes| == |x| && Uniform3(codes, heads, Groups(dim) * GROUP)
  {
    hide Meta8Roundtrip, Code, VGroup, VGroups, Groups;
  }

  /** The metadata k3 and v2 build, in bytes. */
  lemma MetadataIsStored(a: Arith, heads: nat, dim: nat, x: Tensor)
    requires heads > 0 && dim > 0 && |x| > 0
    ensures var q, w := K3(a, heads, dim, x), V2(a, heads, dim, x);
            && StoredMeta(q.minMeta) + StoredMeta(q.scaleMeta) == 2 * MetaBytes(Volume(heads, Groups(|x|), dim))
            && StoredMeta(w.minMeta) + StoredMeta(w.scaleMeta) == 2 * MetaBytes(Volume(|x|, heads, Groups(dim)))
  {
    hide Meta8Roundtrip, MetaBytes, KGroup, VGroup, Code, Scale, KGroups, VGroups, StoredMeta, Groups;
    var kg, vg := KGroups(heads, dim, x), VGroups(heads, dim, x);
    KFlatNonempty(heads, dim, x);
    VFlatNonempty(heads, dim, x);
    MetaBytesAreStored(a, Mins(kg));
    MetaBytesAreStored(a, Scales(a, kg, K_LEVELS));
    MetaBytesAreStored(a, Mins(vg));
    MetaBytesAreStored(a, Scales(a, vg, V_LEVELS));
  }

  /** 3 bits per K code, 2 bits per V code, the metadata, and 2 bytes per recent value: the counted bytes
      are those of the structures built for n tokens. */
  lemma BytesAreStored(a: Arith, heads: nat, dim: nat, k: Tensor, v: Tensor)
    requires heads > 0 && dim > 0 && |k| == |v| && Shaped(k, heads, dim) && Shaped(v, heads, dim)
    ensures var n, b := Old(|k|), PerLayer(|k|, heads, dim);
            && b.residual == 2 * Entries(k[n..]) + 2 * Entries(v[n..])
            && (n == 0 ==> b == Bytes(0, 0, 0, 0, b.residual))
            && (n > 0 ==>
                  var q, w := K3(a, heads, dim, k[..n]), V2(a, heads, dim, v[..n]);
                  && b.kPayload == Packed(3 * Entries(q.codes))
                  && b.kMeta == StoredMeta(q.minMeta) + StoredMeta(q.scaleMeta)
                  && b.vPayload == Packed(2 * Entries(w.codes))
                  && b.vMeta == StoredMeta(w.minMeta) + StoredMeta(w.scaleMeta))
  {
    hide K3, V2, MetaBytes, StoredMeta, Packed, Volume, PadTo;
    var n := Old(|k|);
    UniformEntries(k[n..], heads, dim);
    UniformEntries(v[n..], heads, dim);
    if n > 0 {
      K3CodesShape(a, heads, dim, k[..n]);
      V2CodesShape(a, heads, dim, v[..n]);
      UniformEntries(K3(a, heads, dim, k[..n]).codes, heads, dim);
      UniformEntries(V2(a, heads, dim, v[..n]).codes, heads, Groups(dim) * GROUP);
      MetadataIsStored(a, heads, dim, k[..n]);
      MetadataIsStored(a, heads, dim, v[..n]);
    }
  }

  function SumOver(n: nat, f: nat -> nat): nat {
    if n == 0 then 0 else SumOver(n - 1, f) + f(n - 1)
  }

  lemma {:induction false} SumOfConstant(n: nat, f: nat -> nat, x: nat)
    requires forall i | 0 <= i < n :: f(i) == x
    ensures SumOver(n, f) == n * x
  {
    if n > 0 { SumOfConstant(n - 1, f, x); }
  }

  /** Bytes that hold a number of bits, and no more. */
  predicate Holds(bytes: nat, bits: nat) {
    bits <= 8 * bytes < bits + 8
  }

  /** What one layer of a state stores. */
  predicate IsLayerStore(a: Arith, heads: nat, dim: nat, k: Tensor, v: Tensor, b: Bytes)
    requires heads > 0 && dim > 0 && |k| == |v|
  {
    var n := if |k| < 4 then 0 else |k| - 4;
    && b.residual == 2 * Entries(k[n..]) + 2 * Entries(v[n..])
    && if n == 0 then b.kPayload == b.vPayload == b.kMeta == b.vMeta == 0
       else
         var q, w := K3(a, heads, dim, k[..n]), V2(a, heads, dim, v[..n]);
         && Holds(b.kPayload, 3 * Entries(q.codes)) && Holds(b.vPayload, 2 * Entries(w.codes))
         && b.kMeta == StoredMeta(q.minMeta) + StoredMeta(q.scaleMeta)
         && b.vMeta == StoredMeta(w.minMeta) + StoredMeta(w.scaleMeta)
  }

  lemma LayerIsStored(a: Arith, heads: nat, dim: nat, k: Tensor, v: Tensor)
    requires heads > 0 && dim > 0 && |k| == |v| && Shaped(k, heads, dim) && Shaped(v, heads, dim)
    ensures IsLayerStore(a, heads, dim, k, v, PerLayer(|k|, heads, dim))
  {
    hide K3, V2, Entries, StoredMeta, Packed, PerLayer;
    BytesAreStored(a, heads, dim, k, v);
    var n := Old(|k|);
    if n > 0 {
      PackedBound(3 * Entries(K3(a, heads, dim, k[..n]).codes));
      PackedBound(2 * Entries(V2(a, heads, dim, v[..n]).codes));
    }
  }

  /** For any number of layers every field of logical_bytes is the sum of what the layers store. */
  lemma AllLayersAreStored(a: Arith, n: nat, heads: nat, dim: nat, ks: seq<Tensor>, vs: seq<Tensor>)
    returns (per: Bytes)
    requires heads > 0 && dim > 0 && |ks| == |vs|
    requires forall l | 0 <= l < |ks| ::
              |ks[l]| == |vs[l]| == n && Shaped(ks[l], heads, dim) && Shaped(vs[l], heads, dim)
    ensures forall l | 0 <= l < |ks| :: IsLayerStore(a, heads, dim, ks[l], vs[l], per)
    ensures var b := LogicalBytes(n, |ks|, heads, dim);
            && b.kPayload == SumOver(|ks|, _ => per.kPayload) && b.vPayload == SumOver(|ks|, _ => per.vPayload)
            && b.kMeta == SumOver(|ks|, _ => per.kMeta) && b.vMeta == SumOver(|ks|, _ => per.vMeta)
            && b.residual == SumOver(|ks|, _ => per.residual)
            && b.Total() == b.kPayload + b.vPayload + b.kMeta + b.vMeta + b.residual
  {
    hide PerLayer, IsLayerStore;
    per := PerLayer(n, heads, dim);
    forall l | 0 <= l < |ks| ensures IsLayerStore(a, heads, dim, ks[l], vs[l], per) {
      LayerIsStored(a, heads, dim, ks[l], vs[l]);
    }
    SumOfConstant(|ks|, _ => per.kPayload, per.kPayload);
    SumOfConstant(|ks|, _ => per.vPayload, per.vPayload);
    SumOfConstant(|ks|, _ => per.kMeta, per.kMeta);
    SumOfConstant(|ks|, _ => per.vMeta, per.vMeta);
    SumOfConstant(|ks|, _ => per.residual, per.residual);
  }

  lemma KFlatNonempty(heads: nat, dim: nat, x: Tensor)
    requires heads > 0 && dim > 0 && |x| > 0
    ensures |KGroups(heads, dim, x)| == heads * Groups(|x|) * dim > 0
  {
    IndexInRange(0, heads, 0, Groups(|x|), 0, dim);
  }

  lemma VFlatNonempty(heads: nat, dim: nat, x: Tensor)
    requires heads > 0 && dim > 0 && |x| > 0
    ensures |VGroups(heads, dim, x)| == |x| * heads * Groups(dim) > 0
  {
    IndexInRange(0, |x|, 0, heads, 0, Groups(dim));
  }

  // ---------------------------------------------------------------------- lower bound

  lemma MetaBytesBound(count: nat)
    ensures 16 * MetaBytes(count) >= 17 * count
  {
  }

  lemma VolumeCommutes(x: nat, y: nat, z: nat)
    ensures Volume(x, y, z) == x * (y * z) == Volume(y, x, z)
  {
  }

  lemma VolumeMonotone(x: nat, x': nat, y: nat, z: nat, z': nat)
    requires x <= x' && z <= z'
    ensures Volume(x, y, z) <= Volume(x', y, z')
  {
    MulMonotone(x, x', y);
    MulMonotone(x * y, x' * y, z);
    MulMonotone(z, z', x' * y);
  }

  /** The padded token and channel counts only enlarge the volumes. */
  lemma PaddedVolumes(aged: nat, heads: nat, dim: nat)
    ensures var tp, dp, m := aged + PadTo(aged, GROUP), dim + PadTo(dim, GROUP), Volume(aged, heads, dim);
            && Volume(tp, heads, dim) >= m && GROUP * Volume(heads, tp / GROUP, dim) == Volume(tp, heads, dim)
            && Volume(aged, heads, dp) >= m && GROUP * Volume(aged, heads, dp / GROUP) == Volume(aged, heads, dp)
  {
    var tp, dp := aged + PadTo(aged, GROUP), dim + PadTo(dim, GROUP);
    VolumeCommutes(aged, heads, dim);
    VolumeMonotone(aged, tp, heads, dim, dim);
    VolumeMonotone(aged, aged, heads, dim, dp);
    GroupedVolume(tp, heads, dim);
    GroupedVolume(dp, aged, heads);
    VolumeCommutes(dp, aged, heads);
    VolumeCommutes(aged, heads, dp / GROUP);
    VolumeCommutes(aged, heads, dp);
    VolumeRotates(aged, heads, dp);
    VolumeRotates(aged, heads, dp / GROUP);
  }

  lemma VolumeRotates(x: nat, y: nat, z: nat)
    ensures Volume(x, y, z) == Volume(x, z, y)
  {
  }

  lemma GroupedVolume(p: nat, y: nat, z: nat)
    requires p % GROUP == 0
    ensures GROUP * Volume(y, p / GROUP, z) == Volume(p, y, z)
  {
    var q := p / GROUP;
    VolumeCommutes(y, q, z);
    assert p == GROUP * q;
    assert GROUP * (q * (y * z)) == p * (y * z);
    VolumeCommutes(p, y, z);
  }

  lemma PackedBound(bits: nat)
    ensures bits <= 8 * Packed(bits) < bits + 8
  {
  }

  /** At least 97/128 byte per old value pair and 4 bytes per recent one, for every shape. */
  lemma BytesBound(n: nat, heads: nat, dim: nat)
    ensures 128 * PerLayer(n, heads, dim).Total() >= 512 * Volume(Recent(n), heads, dim)
              + 97 * Volume(Old(n), heads, dim)
  {
    hide Volume, MetaBytes, PadTo, Packed, Recent;
    var aged := Old(n);
    var tp, dp := aged + PadTo(aged, GROUP), dim + PadTo(dim, GROUP);
    PaddedVolumes(aged, heads, dim);
    VolumeZero(heads, dim);
    PackedBound(Volume(tp, heads, dim) * 3);
    PackedBound(Volume(aged, heads, dp) * 2);
    MetaBytesBound(Volume(heads, tp / GROUP, dim));
    MetaBytesBound(Volume(aged, heads, dp / GROUP));
  }

  lemma LayerBound(n: nat, heads: nat, dim: nat)
    requires n > 0 && heads > 0 && dim > 0
    ensures 97 * Volume(n, heads, dim) < 128 * PerLayer(n, heads, dim).Total()
  {
    hide PerLayer, Volume;
    BytesBound(n, heads, dim);
    VolumeGrows(Old(n), Recent(n), heads, dim);
    VolumeCommutes(Recent(n), heads, dim);
    assert Recent(n) * (heads * dim) > 0 by { MulMonotone(1, Recent(n), heads * dim); }
  }

  /** The compression against BF16 K and V is strictly below 512/97. */
  lemma CompressionBound(n: nat, layers: nat, heads: nat, dim: nat)
    requires n > 0 && layers > 0 && heads > 0 && dim > 0
    ensures 97 * (layers * (Volume(n, heads, dim) * 2 * 2)) < 512 * LogicalBytes(n, layers, heads, dim).Total()
  {
    hide PerLayer, Volume;
    LayerBound(n, heads, dim);
    TotalIsLinear(PerLayer(n, heads, dim), layers);
    ScaleUp(Volume(n, heads, dim), PerLayer(n, heads, dim).Total(), layers);
  }

  lemma ScaleUp(v: nat, t: nat, layers: nat)
    requires 97 * v < 128 * t && layers > 0
    ensures 97 * (layers * (v * 2 * 2)) < 512 * (layers * t)
  {
    var d := 128 * t - 97 * v;
    assert layers * d > 0;
    assert layers * d == 128 * (layers * t) - 97 * (layers * v);
    assert layers * (v * 2 * 2) == 4 * (layers * v);
  }

  // ---------------------------------------------------------------------------- growth

  lemma MetaBytesGrow(count: nat, w: nat)
    requires w % META_GROUP == 0
    ensures 16 * MetaBytes(count + w) == 16 * MetaBytes(count) + 17 * w
  {
    var q := w / META_GROUP;
    assert w == q * META_GROUP;
    assert PadTo(count + w, META_GROUP) == PadTo(count, META_GROUP);
  }

  lemma VolumeGrows(x: nat, d: nat, y: nat, z: nat)
    ensures Volume(x + d, y, z) == Volume(x, y, z) + d * (y * z)
  {
    VolumeCommutes(x + d, y, z);
    VolumeCommutes(x, y, z);
  }

  /** 32 more tokens of m values each, at 2 or 3 bits a value. */
  lemma PackedGrows(v: nat, m: nat, bits: nat)
    requires m % 8 == 0 && (bits == 2 || bits == 3)
    ensures Packed((v + GROUP * m) * bits) == Packed(v * bits) + 4 * bits * m
  {
    if bits == 2 {
      assert Packed((v + GROUP * m) * 2) == Packed(v * 2) + 8 * m;
    } else {
      assert Packed((v + GROUP * m) * 3) == Packed(v * 3) + 12 * m;
    }
  }

  /** The branch without old tokens agrees with the formulas at 0. */
  lemma PerLayerFormula(n: nat, heads: nat, dim: nat)
    requires dim % GROUP == 0
    ensures var aged := Old(n);
            var tp := aged + PadTo(aged, GROUP);
            PerLayer(n, heads, dim) ==
            Bytes(Packed(Volume(tp, heads, dim) * 3), Packed(Volume(aged, heads, dim) * 2),
                  2 * MetaBytes(Volume(heads, tp / GROUP, dim)), 2 * MetaBytes(Volume(aged, heads, dim / GROUP)),
                  Volume(Recent(n), heads, dim) * 2 * 2)
  {
    hide MetaBytes, Volume, PadTo, Packed, Recent;
    PadsToNothing(dim);
    if Old(n) == 0 {
      PadsToNothing(0);
      VolumeZero(heads, dim);
      VolumeZero(heads, dim / GROUP);
      NothingTakesNothing();
    }
  }

  lemma PadsToNothing(n: nat)
    requires n % GROUP == 0
    ensures PadTo(n, GROUP) == 0
  {
  }

  lemma NothingTakesNothing()
    ensures MetaBytes(0) == 0 && Packed(0) == 0
  {
  }

  lemma VolumeZero(y: nat, z: nat)
    ensures Volume(0, y, z) == 0 && Volume(y, 0, z) == 0
  {
  }

  lemma PayloadGrows(x: nat, heads: nat, dim: nat, bits: nat)
    requires heads * dim % META_GROUP == 0 && (bits == 2 || bits == 3)
    ensures Packed(Volume(x + GROUP, heads, dim) * bits)
              == Packed(Volume(x, heads, dim) * bits) + 4 * bits * (heads * dim)
  {
    hide Packed, Volume;
    VolumeGrows(x, GROUP, heads, dim);
    EighthOfMeta(heads * dim);
    PackedGrows(Volume(x, heads, dim), heads * dim, bits);
  }

  lemma EighthOfMeta(m: nat)
    requires m % META_GROUP == 0
    ensures m % 8 == 0
  {
    assert m == 8 * (8 * (m / META_GROUP));
  }

  lemma KMetaGrows(g: nat, heads: nat, dim: nat)
    requires heads * dim % META_GROUP == 0
    ensures 16 * MetaBytes(Volume(heads, g + 1, dim)) == 16 * MetaBytes(Volume(heads, g, dim)) + 17 * (heads * dim)
  {
    hide MetaBytes, Volume;
    VolumeCommutes(heads, g + 1, dim);
    VolumeCommutes(heads, g, dim);
    VolumeGrows(g, 1, heads, dim);
    MetaBytesGrow(Volume(heads, g, dim), heads * dim);
  }

  lemma VMetaGrows(aged: nat, heads: nat, dim: nat)
    requires dim % GROUP == 0 && heads * dim % META_GROUP == 0
    ensures 16 * MetaBytes(Volume(aged + GROUP, heads, dim / GROUP))
         == 16 * MetaBytes(Volume(aged, heads, dim / GROUP)) + 17 * (heads * dim)
  {
    hide MetaBytes, Volume;
    var c := dim / GROUP;
    VolumeGrows(aged, GROUP, heads, c);
    assert GROUP * (heads * c) == heads * dim by { assert dim == GROUP * c; }
    MetaBytesGrow(Volume(aged, heads, c), heads * dim);
  }

  /** 32 more tokens cost a layer exactly 97/4 bytes per head and channel. */
  lemma LayerGrowth(n: nat, heads: nat, dim: nat)
    requires n >= RESIDUAL && dim % GROUP == 0 && heads * dim % META_GROUP == 0
    ensures 4 * PerLayer(n + GROUP, heads, dim).Total() == 4 * PerLayer(n, heads, dim).Total() + 97 * (heads * dim)
  {
    hide MetaBytes, Volume, PerLayer, PadTo, Packed;
    var aged := Old(n);
    var tp := aged + PadTo(aged, GROUP);
    PerLayerFormula(n, heads, dim);
    PerLayerFormula(n + GROUP, heads, dim);
    PadPeriodic(aged);
    PayloadGrows(tp, heads, dim, 3);
    PayloadGrows(aged, heads, dim, 2);
    KMetaGrows(tp / GROUP, heads, dim);
    VMetaGrows(aged, heads, dim);
  }

  /** Every further page costs the same, at any length: 97/4 bytes per layer, head and channel. */
  lemma GrowthPerPage(n: nat, layers: nat, heads: nat, dim: nat)
    requires n >= RESIDUAL && dim % GROUP == 0 && heads * dim % META_GROUP == 0
    ensures 4 * LogicalBytes(n + GROUP, layers, heads, dim).Total()
         == 4 * LogicalBytes(n, layers, heads, dim).Total() + 97 * (layers * (heads * dim))
  {
    hide PerLayer;
    var b, b' := PerLayer(n, heads, dim), PerLayer(n + GROUP, heads, dim);
    LayerGrowth(n, heads, dim);
    TotalIsLinear(b, layers);
    TotalIsLinear(b', layers);
    assert layers * (4 * b'.Total()) == layers * (4 * b.Total() + 97 * (heads * dim));
  }

  lemma PadPeriodic(n: nat)
    ensures PadTo(n + GROUP, GROUP) == PadTo(n, GROUP)
  {
  }

  lemma LayerMonotone(n: nat, n': nat, heads: nat, dim: nat)
    requires n <= n'
    ensures PerLayer(n, heads, dim).Total() <= PerLayer(n', heads, dim).Total()
  {
    hide MetaBytes, Volume, PadTo;
    var aged, aged' := Old(n), Old(n');
    var tp, tp' := aged + PadTo(aged, GROUP), aged' + PadTo(aged', GROUP);
    var dp := dim + PadTo(dim, GROUP);
    VolumeMonotone(Recent(n), Recent(n'), heads, dim, dim);
    PaddedMonotone(aged, aged');
    VolumeMonotone(tp, tp', heads, dim, dim);
    VolumeMonotone(aged, aged', heads, dp, dp);
    VolumeMonotone(aged, aged', heads, dp / GROUP, dp / GROUP);
    VolumeCommutes(heads, tp / GROUP, dim);
    VolumeCommutes(heads, tp' / GROUP, dim);
    VolumeMonotone(tp / GROUP, tp' / GROUP, heads, dim, dim);
    MetaBytesMonotone(Volume(heads, tp / GROUP, dim), Volume(heads, tp' / GROUP, dim));
    MetaBytesMonotone(Volume(aged, heads, dp / GROUP), Volume(aged', heads, dp / GROUP));
  }

  /** More tokens never take less. */
  lemma BytesMonotone(n: nat, n': nat, layers: nat, heads: nat, dim: nat)
    requires n <= n'
    ensures LogicalBytes(n, layers, heads, dim).Total() <= LogicalBytes(n', layers, heads, dim).Total()
  {
    hide PerLayer;
    LayerMonotone(n, n', heads, dim);
    TotalIsLinear(PerLayer(n, heads, dim), layers);
    TotalIsLinear(PerLayer(n', heads, dim), layers);
    MulMonotone(PerLayer(n, heads, dim).Total(), PerLayer(n', heads, dim).Total(), layers);
  }

  lemma PaddedMonotone(n: nat, n': nat)
    requires n <= n'
    ensures n + PadTo(n, GROUP) <= n' + PadTo(n', GROUP)
  {
  }

  lemma MetaBytesMonotone(count: nat, count': nat)
    requires count <= count'
    ensures MetaBytes(count) <= MetaBytes(count')
  {
    assert count + PadTo(count, META_GROUP) <= count' + PadTo(count', META_GROUP);
  }
}
