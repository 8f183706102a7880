/** canonical_state and the layer state that reaches it token by token. */
module LayerState {
  import opened Wrappers
  import opened Tensors
  import opened Quantizer
  import opened PageLocality

  /** How the tokens of the old region are stored and read back, for K and for V. */
  datatype Codec = Codec(k: Tensor -> Tensor, v: Tensor -> Tensor, bf16: real -> real)

  function Rabit(a: Arith, heads: nat, dim: nat): Codec
    requires heads > 0 && dim > 0
  {
    Codec(x => RabitK(a, heads, dim, x), x => RabitV(a, heads, dim, x), a.bf16)
  }

  function RabitK(a: Arith, heads: nat, dim: nat, x: Tensor): Tensor
    requires heads > 0 && dim > 0
  {
    if |x| > 0 then K3(a, heads, dim, x).decoded else []
  }

  function RabitV(a: Arith, heads: nat, dim: nat, x: Tensor): Tensor
    requires heads > 0 && dim > 0
  {
    if |x| > 0 then V2(a, heads, dim, x).decoded else []
  }

  // ---------------------------------------------------------------- the definition

  function Recent(n: nat): nat {
    if n < RESIDUAL then n else RESIDUAL
  }

  function Old(n: nat): nat {
    n - Recent(n)
  }

  /** The decoded state by definition: all old tokens as one region from token 0. */
  function Canonical(decode: Tensor -> Tensor, bf16: real -> real, raw: Tensor): Tensor {
    var aged := Old(|raw|);
    (if aged > 0 then decode(raw[..aged]) else []) + Cast(bf16, raw[aged..])
  }

  // ------------------------------------------------------------ the incremental form

  function ClosedPages(n: nat): nat {
    Old(n) / GROUP
  }

  /** The first p pages, each decoded from its own 32 raw tokens. */
  function Pages(decode: Tensor -> Tensor, raw: Tensor, p: nat): Tensor
    requires p * GROUP <= |raw|
  {
    if p == 0 then [] else Pages(decode, raw, p - 1) + decode(raw[(p - 1) * GROUP..p * GROUP])
  }

  /** What a layer state that has received `raw` shows: cached pages, the open group, the residual. */
  function Incremental(decode: Tensor -> Tensor, raw: Tensor): Tensor {
    var p := ClosedPages(|raw|);
    var tail := raw[p * GROUP..];
    var aged := Old(|tail|);
    Pages(decode, raw, p) + (if aged > 0 then decode(tail[..aged]) else []) + tail[aged..]
  }

  // ----------------------------------------------------------------------- refinement

  /** Quantizing a page-aligned prefix does not need the tokens after it. */
  ghost predicate PageLocal(decode: Tensor -> Tensor) {
    forall y, z :: SplitsAt(decode, y, z)
  }

  predicate SplitsAt(decode: Tensor -> Tensor, y: Tensor, z: Tensor) {
    |y| > 0 && |z| > 0 && |y| % GROUP == 0 ==> decode(y + z) == decode(y) + decode(z)
  }

  predicate IsBf16(bf16: real -> real, x: Tensor) {
    Cast(bf16, x) == x
  }

  lemma {:induction false} PagesAreOneRegion(decode: Tensor -> Tensor, raw: Tensor, p: nat)
    requires PageLocal(decode) && p > 0 && p * GROUP <= |raw|
    ensures Pages(decode, raw, p) == decode(raw[..p * GROUP])
  {
    if p == 1 {
      assert Pages(decode, raw, 0) == [];
    } else {
      PagesAreOneRegion(decode, raw, p - 1);
      var y, z := raw[..(p - 1) * GROUP], raw[(p - 1) * GROUP..p * GROUP];
      assert y + z == raw[..p * GROUP];
      assert SplitsAt(decode, y, z);
    }
  }

  /** The old region is its closed pages followed by the open group. */
  lemma OldRegionSplits(decode: Tensor -> Tensor, raw: Tensor, p: nat, aged: nat)
    requires PageLocal(decode) && p * GROUP <= aged <= |raw|
    ensures Pages(decode, raw, p) + (if p * GROUP < aged then decode(raw[p * GROUP..aged]) else [])
         == if aged > 0 then decode(raw[..aged]) else []
  {
    hide PageLocal;
    var y, z := raw[..p * GROUP], raw[p * GROUP..aged];
    assert y + z == raw[..aged];
    if p > 0 {
      PagesAreOneRegion(decode, raw, p);
      assert SplitsAt(decode, y, z) by { LocalSplits(decode, y, z); }
      assert p * GROUP == aged ==> y == raw[..aged];
    } else {
      assert raw[p * GROUP..aged] == raw[..aged];
    }
  }

  lemma LocalSplits(decode: Tensor -> Tensor, y: Tensor, z: Tensor)
    requires PageLocal(decode)
    ensures SplitsAt(decode, y, z)
  {
  }

  /** The cache equals the thing it speeds up, at every length. */
  lemma IncrementalIsCanonical(decode: Tensor -> Tensor, bf16: real -> real, raw: Tensor)
    requires PageLocal(decode) && IsBf16(bf16, raw)
    ensures Incremental(decode, raw) == Canonical(decode, bf16, raw)
  {
    hide PageLocal, Pages, Cast;
    var p, aged := ClosedPages(|raw|), Old(|raw|);
    var tail := raw[p * GROUP..];
    assert Old(|tail|) == aged - p * GROUP;
    assert tail[Old(|tail|)..] == raw[aged..];
    assert tail[..Old(|tail|)] == raw[p * GROUP..aged];
    assert Cast(bf16, raw[aged..]) == Cast(bf16, raw)[aged..];
    OldRegionSplits(decode, raw, p, aged);
  }

  /** x is the state of the n tokens `raw`: all but the newest 4 as one decoded region, the newest 4 as they are. */
  predicate IsStateOf(decode: Tensor -> Tensor, raw: Tensor, x: Tensor) {
    && |x| == |raw|
    && forall t | 0 <= t < |raw| ::
         if t + 4 < |raw| then t < |decode(raw[..|raw| - 4])| && x[t] == decode(raw[..|raw| - 4])[t] else x[t] == raw[t]
  }

  /** Token by token, canonical_state is the decoded old region and the cast of the newest 4 tokens. */
  lemma CanonicalAt(decode: Tensor -> Tensor, bf16: real -> real, raw: Tensor, t: nat)
    requires KeepsLength(decode) && t < |raw|
    ensures |Canonical(decode, bf16, raw)| == |raw|
    ensures t + 4 < |raw| ==> |decode(raw[..|raw| - 4])| == |raw| - 4
                              && Canonical(decode, bf16, raw)[t] == decode(raw[..|raw| - 4])[t]
    ensures t + 4 >= |raw| ==> Canonical(decode, bf16, raw)[t] == CastToken(bf16, raw[t])
  {
  }

  lemma CanonicalIsState(decode: Tensor -> Tensor, bf16: real -> real, raw: Tensor)
    requires KeepsLength(decode) && IsBf16(bf16, raw)
    ensures IsStateOf(decode, raw, Canonical(decode, bf16, raw))
  {
    hide Canonical, KeepsLength;
    forall t | 0 <= t < |raw| ensures CastToken(bf16, raw[t]) == raw[t] { assert Cast(bf16, raw)[t] == raw[t]; }
    forall t | 0 <= t < |raw| { CanonicalAt(decode, bf16, raw, t); }
    if |raw| > 0 { CanonicalAt(decode, bf16, raw, 0); } else { NoTokens(decode, bf16); }
  }

  lemma NoTokens(decode: Tensor -> Tensor, bf16: real -> real)
    ensures Canonical(decode, bf16, []) == []
  {
  }

  lemma {:induction false} PagesAt(decode: Tensor -> Tensor, raw: Tensor, p: nat, t: nat)
    requires KeepsLength(decode) && t < 32 * p <= |raw|
    ensures |Pages(decode, raw, p)| == 32 * p
    ensures var page := raw[32 * (t / 32)..32 * (t / 32) + 32];
            |decode(page)| == 32 && Pages(decode, raw, p)[t] == decode(page)[t % 32]
  {
    hide KeepsLength;
    PagesLength(decode, raw, p);
    PagesLength(decode, raw, p - 1);
    LengthKept(decode, raw[32 * (t / 32)..32 * (t / 32) + 32]);
    if t < 32 * (p - 1) { PagesAt(decode, raw, p - 1, t); }
  }

  lemma LengthKept(decode: Tensor -> Tensor, y: Tensor)
    requires KeepsLength(decode) && |y| > 0
    ensures |decode(y)| == |y|
  {
  }

  /** Token by token, the incremental state of n tokens for any decoder: closed pages decoded one by one, the rest
      of the old tokens as one region, the newest 4 tokens as they are. */
  lemma IncrementalAt(decode: Tensor -> Tensor, raw: Tensor, t: nat)
    requires KeepsLength(decode) && t < |raw|
    ensures |Incremental(decode, raw)| == |raw|
    ensures var n, x := |raw|, Incremental(decode, raw);
            if t + 4 >= n then x[t] == raw[t]
            else
              var closed, first := 32 * ((n - 4) / 32), 32 * (t / 32);
              if t < closed then
                |decode(raw[first..first + 32])| == 32 && x[t] == decode(raw[first..first + 32])[t - first]
              else
                |decode(raw[closed..n - 4])| == n - 4 - closed && x[t] == decode(raw[closed..n - 4])[t - closed]
  {
    hide KeepsLength, Pages;
    var n, p := |raw|, ClosedPages(|raw|);
    var tail := raw[p * GROUP..];
    var aged := Old(|tail|);
    PagesLength(decode, raw, p);
    if aged > 0 {
      LengthKept(decode, tail[..aged]);
      assert tail[..aged] == raw[32 * p..n - 4];
    }
    if t < 32 * p { PagesAt(decode, raw, p, t); }
  }

  /** Pages that have closed never change, whatever is appended later. */
  lemma {:induction false} ClosedPagesAreFinal(decode: Tensor -> Tensor, raw: Tensor, more: Tensor, p: nat)
    requires p * GROUP <= |raw|
    ensures Pages(decode, raw + more, p) == Pages(decode, raw, p)
  {
    if p > 0 {
      ClosedPagesAreFinal(decode, raw, more, p - 1);
      assert (raw + more)[(p - 1) * GROUP..p * GROUP] == raw[(p - 1) * GROUP..p * GROUP];
    }
  }

  lemma {:induction false} PagesExtend(decode: Tensor -> Tensor, raw: Tensor, p: nat, q: nat)
    requires p <= q && q * GROUP <= |raw|
    ensures Pages(decode, raw, p) <= Pages(decode, raw, q)
    decreases q
  {
    if p < q { PagesExtend(decode, raw, p, q - 1); }
  }

  datatype Stage = Residual | Open | Closed

  /** Where token i lives when n tokens have been received. */
  function StageOf(i: nat, n: nat): Stage
    requires i < n
  {
    if i >= Old(n) then Residual else if i < ClosedPages(n) * GROUP then Closed else Open
  }

  /** Tokens only age, and close exactly when their whole page has left the residual. */
  lemma TokensAge(i: nat, n: nat, m: nat)
    requires i < n <= m
    ensures StageOf(i, n) == Closed <==> GROUP * (i / GROUP + 1) <= n - RESIDUAL
    ensures StageOf(i, n) == Closed ==> StageOf(i, m) == Closed
    ensures StageOf(i, n) == Open ==> StageOf(i, m) != Residual
    ensures n - ClosedPages(n) * GROUP < GROUP + RESIDUAL
  {
  }

  // ------------------------------------------------------------------ the layer state

  function OrEmpty(x: Option<Tensor>): Tensor {
    if x.None? then [] else x.value
  }

  function Concat(x: Option<Tensor>, y: Tensor): Option<Tensor> {
    Some(if x.None? then y else x.value + y)
  }

  /** p pages of `raw` are cached in `closed` and the rest of it is `tail`. */
  ghost predicate Split(decode: Tensor -> Tensor, raw: Tensor, p: nat, closed: Option<Tensor>, tail: Option<Tensor>) {
    && p * GROUP <= |raw|
    && (closed.None? <==> p == 0)
    && OrEmpty(closed) == Pages(decode, raw, p)
    && OrEmpty(tail) == raw[p * GROUP..]
  }

  lemma SplitAppend(decode: Tensor -> Tensor, raw: Tensor, p: nat, closed: Option<Tensor>, tail: Option<Tensor>,
                    x: Tensor)
    requires Split(decode, raw, p, closed, tail)
    ensures Split(decode, raw + x, p, closed, Concat(tail, x))
    ensures ClosedPages(|raw|) <= ClosedPages(|raw + x|)
  {
    ClosedPagesAreFinal(decode, raw, x, p);
  }

  lemma SplitClose(decode: Tensor -> Tensor, raw: Tensor, p: nat, closed: Option<Tensor>, tail: Option<Tensor>)
    requires Split(decode, raw, p, closed, tail) && tail.Some? && |tail.value| >= GROUP
    ensures Split(decode, raw, p + 1, Concat(closed, decode(tail.value[..GROUP])), Some(tail.value[GROUP..]))
  {
    assert tail.value[..GROUP] == raw[p * GROUP..(p + 1) * GROUP];
    assert [] + decode(tail.value[..GROUP]) == decode(tail.value[..GROUP]);
  }

  class CanonicalLayerState {
    const codec: Codec
    var closedK: Option<Tensor>
    var closedV: Option<Tensor>
    var tailK: Option<Tensor>
    var tailV: Option<Tensor>

    /** Every token received so far, as BF16. */
    ghost var rawK: Tensor
    ghost var rawV: Tensor

    ghost predicate Holds(p: nat)
      reads this
    {
      && |rawK| == |rawV|
      && tailK.None? == tailV.None?
      && Split(codec.k, rawK, p, closedK, tailK)
      && Split(codec.v, rawV, p, closedV, tailV)
    }

    ghost predicate Valid()
      reads this
    {
      Holds(ClosedPages(|rawK|))
    }

    constructor (codec: Codec)
      ensures Valid() && this.codec == codec && tailK.None? && rawK == [] && rawV == []
    {
      this.codec := codec;
      closedK, closedV, tailK, tailV := None, None, None, None;
      rawK, rawV := [], [];
    }

    /** The `n` property. */
    function Length(): (n: nat)
      reads this
      requires Valid()
      requires KeepsLength(codec.k)
      ensures n == |rawK|
    {
      PagesLength(codec.k, rawK, ClosedPages(|rawK|));
      |OrEmpty(closedK)| + |OrEmpty(tailK)|
    }

    method Append(k: Tensor, v: Tensor)
      requires Valid() && |k| == |v|
      modifies this
      ensures Valid() && tailK.Some?
      ensures rawK == old(rawK) + Cast(codec.bf16, k)
      ensures rawV == old(rawV) + Cast(codec.bf16, v)
    {
      hide Split, Cast, ClosedPages;
      ghost var p: nat := ClosedPages(|rawK|);
      var k16, v16 := Cast(codec.bf16, k), Cast(codec.bf16, v);
      SplitAppend(codec.k, rawK, p, closedK, tailK, k16);
      SplitAppend(codec.v, rawV, p, closedV, tailV, v16);
      rawK, rawV := rawK + k16, rawV + v16;
      tailK, tailV := Concat(tailK, k16), Concat(tailV, v16);
      while |tailK.value| - RESIDUAL >= GROUP
        invariant Holds(p) && tailK.Some? && p <= ClosedPages(|rawK|)
        invariant rawK == old(rawK) + k16 && rawV == old(rawV) + v16
        decreases |OrEmpty(tailK)|
      {
        SplitLengths(codec.k, rawK, p, closedK, tailK);
        SplitLengths(codec.v, rawV, p, closedV, tailV);
        SplitClose(codec.k, rawK, p, closedK, tailK);
        SplitClose(codec.v, rawV, p, closedV, tailV);
        var pageK, pageV := codec.k(tailK.value[..GROUP]), codec.v(tailV.value[..GROUP]);
        closedK, closedV := Concat(closedK, pageK), Concat(closedV, pageV);
        tailK, tailV := Some(tailK.value[GROUP..]), Some(tailV.value[GROUP..]);
        p := p + 1;
      }
      SplitLengths(codec.k, rawK, p, closedK, tailK);
    }

    /** Attention-visible K and V; fails before the first append, when there is no tail. */
    method Decoded() returns (r: Option<(Tensor, Tensor)>)
      requires Valid()
      ensures r.None? <==> tailK.None?
      ensures r.Some? ==> r.value == (Incremental(codec.k, rawK), Incremental(codec.v, rawV))
      ensures r.Some? && PageLocal(codec.k) && PageLocal(codec.v) && IsBf16(codec.bf16, rawK)
                && IsBf16(codec.bf16, rawV) ==>
                r.value == (Canonical(codec.k, codec.bf16, rawK), Canonical(codec.v, codec.bf16, rawV))
      ensures r.Some? && PageLocal(codec.k) && PageLocal(codec.v) && KeepsLength(codec.k) && KeepsLength(codec.v)
                && IsBf16(codec.bf16, rawK) && IsBf16(codec.bf16, rawV) ==>
                IsStateOf(codec.k, rawK, r.value.0) && IsStateOf(codec.v, rawV, r.value.1)
    {
      hide PageLocal, IsBf16, Canonical, KeepsLength, IsStateOf;
      if PageLocal(codec.k) && PageLocal(codec.v) && IsBf16(codec.bf16, rawK) && IsBf16(codec.bf16, rawV) {
        IncrementalIsCanonical(codec.k, codec.bf16, rawK);
        IncrementalIsCanonical(codec.v, codec.bf16, rawV);
        if KeepsLength(codec.k) && KeepsLength(codec.v) {
          CanonicalIsState(codec.k, codec.bf16, rawK);
          CanonicalIsState(codec.v, codec.bf16, rawV);
        }
      }
      if tailK.None? { return None; }
      var aged := |tailK.value| - Recent(|tailK.value|);
      var partsK, partsV := OrEmpty(closedK), OrEmpty(closedV);
      if aged > 0 {
        partsK := partsK + codec.k(tailK.value[..aged]);
        partsV := partsV + codec.v(tailV.value[..aged]);
      }
      assert OrEmpty(closedK) + [] == OrEmpty(closedK) && OrEmpty(closedV) + [] == OrEmpty(closedV);
      assert tailK.value == rawK[ClosedPages(|rawK|) * GROUP..] && tailV.value == rawV[ClosedPages(|rawV|) * GROUP..];
      return Some((partsK + tailK.value[aged..], partsV + tailV.value[aged..]));
    }
  }

  /** Chunking leaves no trace: the fields depend only on the tokens received. */
  lemma FieldsDependOnTokens(s: CanonicalLayerState, t: CanonicalLayerState)
    requires s.Valid() && t.Valid() && s.codec == t.codec && s.rawK == t.rawK && s.rawV == t.rawV
    requires s.tailK.None? == t.tailK.None?
    ensures s.closedK == t.closedK && s.closedV == t.closedV && s.tailK == t.tailK && s.tailV == t.tailV
  {
    hide Pages;
  }

  ghost predicate KeepsLength(decode: Tensor -> Tensor) {
    forall y | |y| > 0 :: |decode(y)| == |y|
  }

  lemma SplitLengths(decode: Tensor -> Tensor, raw: Tensor, p: nat, closed: Option<Tensor>, tail: Option<Tensor>)
    requires Split(decode, raw, p, closed, tail)
    ensures |OrEmpty(tail)| == |raw| - p * GROUP
    ensures |OrEmpty(tail)| >= GROUP + RESIDUAL <==> p < ClosedPages(|raw|)
  {
  }

  lemma {:induction false} PagesLength(decode: Tensor -> Tensor, raw: Tensor, p: nat)
    requires p * GROUP <= |raw| && KeepsLength(decode)
    ensures |Pages(decode, raw, p)| == p * GROUP
  {
    if p > 0 { PagesLength(decode, raw, p - 1); }
  }

  // -------------------------------------------------------------------- RABIT itself

  lemma RabitDecodes(a: Arith, heads: nat, dim: nat, x: Tensor)
    requires heads > 0 && dim > 0 && |x| > 0
    ensures Rabit(a, heads, dim).k(x) == K3(a, heads, dim, x).decoded
    ensures Rabit(a, heads, dim).v(x) == V2(a, heads, dim, x).decoded
  {
    hide K3, V2;
    assert Rabit(a, heads, dim).k(x) == RabitK(a, heads, dim, x);
    assert Rabit(a, heads, dim).v(x) == RabitV(a, heads, dim, x);
  }

  /** One decoded token per stored token, at every head dimension. */
  lemma RabitKeepsLength(a: Arith, heads: nat, dim: nat)
    requires heads > 0 && dim > 0
    ensures KeepsLength(Rabit(a, heads, dim).k) && KeepsLength(Rabit(a, heads, dim).v)
  {
    hide Rabit;
    forall y: Tensor | |y| > 0
      ensures |Rabit(a, heads, dim).k(y)| == |y| && |Rabit(a, heads, dim).v(y)| == |y|
    {
      RabitDecodes(a, heads, dim, y);
    }
  }

  lemma PagesAreAligned(heads: nat, dim: nat)
    requires dim % META_GROUP == 0
    ensures heads * (Groups(dim) * GROUP) % META_GROUP == 0
  {
    assert dim == 2 * (dim / META_GROUP) * GROUP;
    DivModUnique(2 * (dim / META_GROUP), GROUP, 0);
    assert -(dim as int) == -(dim as int) / GROUP * GROUP;
    assert Groups(dim) * GROUP == dim;
    MulKeepsAlignment(heads, dim);
  }

  lemma RabitKSplits(a: Arith, heads: nat, dim: nat, y: Tensor, z: Tensor)
    requires heads > 0 && dim > 0 && dim % META_GROUP == 0
    ensures SplitsAt(Rabit(a, heads, dim).k, y, z)
  {
    hide Rabit, K3, V2;
    if |y| > 0 && |z| > 0 && |y| % GROUP == 0 {
      RabitDecodes(a, heads, dim, y + z);
      RabitDecodes(a, heads, dim, y);
      RabitDecodes(a, heads, dim, z);
      K3Splits(a, heads, dim, y, z);
    }
  }

  lemma RabitVSplits(a: Arith, heads: nat, dim: nat, y: Tensor, z: Tensor)
    requires heads > 0 && dim > 0 && heads * (Groups(dim) * GROUP) % META_GROUP == 0
    ensures SplitsAt(Rabit(a, heads, dim).v, y, z)
  {
    hide Rabit, K3, V2, Groups;
    if |y| > 0 && |z| > 0 && |y| % GROUP == 0 {
      RabitDecodes(a, heads, dim, y + z);
      RabitDecodes(a, heads, dim, y);
      RabitDecodes(a, heads, dim, z);
      V2Splits(a, heads, dim, y, z);
    }
  }

  lemma RabitIsPageLocal(a: Arith, heads: nat, dim: nat)
    requires heads > 0 && dim > 0 && dim % META_GROUP == 0
    ensures PageLocal(Rabit(a, heads, dim).k) && PageLocal(Rabit(a, heads, dim).v)
  {
    hide Rabit, SplitsAt;
    PagesAreAligned(heads, dim);
    forall y, z { RabitKSplits(a, heads, dim, y, z); }
    forall y, z { RabitVSplits(a, heads, dim, y, z); }
  }

  /** A RABIT state that has received BF16 tokens, in any chunks, decodes to canonical_state of them. */
  method DecodedRabit(st: CanonicalLayerState, ghost a: Arith, ghost heads: nat, ghost dim: nat)
    returns (r: Option<(Tensor, Tensor)>)
    requires heads > 0 && dim > 0 && dim % META_GROUP == 0 && st.Valid() && st.codec == Rabit(a, heads, dim)
    requires IsBf16(a.bf16, st.rawK) && IsBf16(a.bf16, st.rawV)
    ensures r.None? <==> st.tailK.None?
    ensures r.Some? ==> var c := Rabit(a, heads, dim);
                        r.value == (Canonical(c.k, a.bf16, st.rawK), Canonical(c.v, a.bf16, st.rawV))
    ensures r.Some? ==> |r.value.0| == |st.rawK| && |r.value.1| == |st.rawV|
    ensures r.Some? ==> forall t | 0 <= t < |st.rawK| :: KShown(a, heads, dim, st.rawK, r.value.0, t)
    ensures r.Some? ==> forall t | 0 <= t < |st.rawV| :: VShown(a, heads, dim, st.rawV, r.value.1, t)
  {
    hide Canonical, IsBf16, PageLocal, Incremental, KeepsLength, IsStateOf, KShown, VShown, K3, V2;
    RabitIsPageLocal(a, heads, dim);
    RabitKeepsLength(a, heads, dim);
    r := st.Decoded();
    if r.Some? {
      forall t | 0 <= t < |st.rawK| { StateShowsK(a, heads, dim, st.rawK, r.value.0, t); }
      forall t | 0 <= t < |st.rawV| { StateShowsV(a, heads, dim, st.rawV, r.value.1, t); }
      assert IsStateOf(st.codec.k, st.rawK, r.value.0) && IsStateOf(st.codec.v, st.rawV, r.value.1);
      StateLength(st.codec.k, st.rawK, r.value.0);
      StateLength(st.codec.v, st.rawV, r.value.1);
    }
  }

  /** Token t of a K state: quantized with all other old tokens, or one of the newest 4 and exact. */
  predicate KShown(a: Arith, heads: nat, dim: nat, raw: Tensor, x: Tensor, t: nat)
    requires heads > 0 && dim > 0 && t < |raw|
  {
    t < |x| && x[t] == if t + 4 < |raw| then K3(a, heads, dim, raw[..|raw| - 4]).decoded[t] else raw[t]
  }

  predicate VShown(a: Arith, heads: nat, dim: nat, raw: Tensor, x: Tensor, t: nat)
    requires heads > 0 && dim > 0 && t < |raw|
  {
    t < |x| && x[t] == if t + 4 < |raw| then V2(a, heads, dim, raw[..|raw| - 4]).decoded[t] else raw[t]
  }

  lemma StateShowsK(a: Arith, heads: nat, dim: nat, raw: Tensor, x: Tensor, t: nat)
    requires heads > 0 && dim > 0 && t < |raw|
    ensures IsStateOf(Rabit(a, heads, dim).k, raw, x) ==> KShown(a, heads, dim, raw, x, t)
  {
    hide Rabit, K3, V2;
    if t + 4 < |raw| { RabitDecodes(a, heads, dim, raw[..|raw| - 4]); }
  }

  lemma StateShowsV(a: Arith, heads: nat, dim: nat, raw: Tensor, x: Tensor, t: nat)
    requires heads > 0 && dim > 0 && t < |raw|
    ensures IsStateOf(Rabit(a, heads, dim).v, raw, x) ==> VShown(a, heads, dim, raw, x, t)
  {
    hide Rabit, K3, V2;
    if t + 4 < |raw| { RabitDecodes(a, heads, dim, raw[..|raw| - 4]); }
  }

  lemma StateLength(decode: Tensor -> Tensor, raw: Tensor, x: Tensor)
    requires IsStateOf(decode, raw, x)
    ensures |x| == |raw|
  {
  }

  /** For every head count, every head dimension that is a multiple of 64 and any BF16 tokens. */
  lemma RabitRefinement(a: Arith, heads: nat, dim: nat, rawK: Tensor, rawV: Tensor)
    requires heads > 0 && dim > 0 && dim % META_GROUP == 0
    requires IsBf16(a.bf16, rawK) && IsBf16(a.bf16, rawV)
    ensures var c := Rabit(a, heads, dim);
            && Incremental(c.k, rawK) == Canonical(c.k, a.bf16, rawK)
            && Incremental(c.v, rawV) == Canonical(c.v, a.bf16, rawV)
  {
    RabitIsPageLocal(a, heads, dim);
    IncrementalIsCanonical(Rabit(a, heads, dim).k, a.bf16, rawK);
    IncrementalIsCanonical(Rabit(a, heads, dim).v, a.bf16, rawV);
  }
}
