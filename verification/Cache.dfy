/** The KV cache object of a decode run. */
module Cache {
  import opened Wrappers
  import opened Tensors
  import opened LayerState
  import opened Decoding

  datatype Arm = DenseArm | RabitArm

  /** A tensor [batch, head, token, channel]; `data` is its first batch entry. */
  datatype HfTensor = HfTensor(batch: nat, tokens: nat, data: Tensor)

  predicate WellShaped(x: HfTensor, heads: nat) {
    |x.data| == heads && forall h | 0 <= h < heads :: |x.data[h]| == x.tokens
  }

  function ToHf(heads: nat, x: Tensor): HfTensor {
    HfTensor(1, |x|, Permute(heads, x))
  }

  function FromHf(x: HfTensor): (r: Tensor)
    ensures |r| == x.tokens
  {
    Permute(x.tokens, x.data)
  }

  datatype Error = BatchSize | OneTokenPerForward | NoLayers | UnknownArm | CacheReplaced | CacheLength | LayerLengths
                 | NoLogits | RowCount | NoTokens

  // ------------------------------------------------------------------------ views, store

  function ViewOf(arm: Arm, c: Codec, heads: nat): View {
    if arm == DenseArm then Dense(heads) else Cached(c, heads)
  }

  /** What the cache remembers of tokens it is given. */
  function Stored(arm: Arm, c: Codec, x: Tensor): (r: Tensor)
    ensures |r| == |x|
  {
    if arm == DenseArm then x else Cast(c.bf16, x)
  }

  function Joined(x: HfTensor, y: HfTensor): HfTensor
    requires |x.data| == |y.data|
  {
    HfTensor(1, x.tokens + y.tokens, seq(|x.data|, h requires 0 <= h < |x.data| => x.data[h] + y.data[h]))
  }

  lemma JoinedIsPermuted(heads: nat, raw: Tensor, y: HfTensor)
    requires WellShaped(y, heads)
    ensures Joined(ToHf(heads, raw), y) == ToHf(heads, raw + FromHf(y))
  {
    var x, z := ToHf(heads, raw), FromHf(y);
    forall h | 0 <= h < heads ensures x.data[h] + y.data[h] == Permute(heads, raw + z)[h] {
      forall t | 0 <= t < |raw| + |z| ensures (x.data[h] + y.data[h])[t] == Permute(heads, raw + z)[h][t] {}
    }
  }

  lemma HfRoundTrip(heads: nat, x: Tensor)
    requires forall t | 0 <= t < |x| :: |x[t]| == heads
    ensures WellShaped(ToHf(heads, x), heads) && FromHf(ToHf(heads, x)) == x
  {
    PermuteTwice(heads, x);
  }

  lemma IncrementalLength(decode: Tensor -> Tensor, raw: Tensor)
    requires KeepsLength(decode)
    ensures |Incremental(decode, raw)| == |raw|
  {
    PagesLength(decode, raw, ClosedPages(|raw|));
  }

  // ------------------------------------------------------------------------------- cache

  /** The stored tensors are what `view` makes of the tokens received. */
  predicate Shows(view: View, raw: LayerRaw, k: HfTensor, v: HfTensor) {
    && |raw.k| == |raw.v|
    && k == HfTensor(1, |raw.k|, view(raw).k)
    && v == HfTensor(1, |raw.v|, view(raw).v)
  }

  ghost predicate HasReceived(st: CanonicalLayerState, c: Codec, raw: LayerRaw)
    reads st
  {
    st.Valid() && st.codec == c && st.tailK.Some? && st.rawK == raw.k && st.rawV == raw.v
  }

  /** The tensors a layer state decodes to are the cached view of its tokens. */
  lemma DecodedShows(c: Codec, heads: nat, raw: LayerRaw)
    requires KeepsLength(c.k) && KeepsLength(c.v) && |raw.k| == |raw.v|
    ensures Shows(Cached(c, heads), raw, ToHf(heads, Cast(c.bf16, Incremental(c.k, raw.k))),
                  ToHf(heads, Cast(c.bf16, Incremental(c.v, raw.v))))
  {
    hide Incremental, Permute;
    IncrementalLength(c.k, raw.k);
    IncrementalLength(c.v, raw.v);
  }

  /** Appends to a layer state and lays its decoded state out for the model. */
  method Grow(st: CanonicalLayerState, heads: nat, k: HfTensor, v: HfTensor, ghost raw: LayerRaw)
    returns (kNew: HfTensor, vNew: HfTensor)
    requires st.Valid() && st.rawK == raw.k && st.rawV == raw.v && k.tokens == v.tokens
    requires KeepsLength(st.codec.k) && KeepsLength(st.codec.v)
    modifies st
    ensures HasReceived(st, st.codec, Longer(st.codec, raw, k, v))
    ensures Shows(Cached(st.codec, heads), Longer(st.codec, raw, k, v), kNew, vNew)
  {
    hide KeepsLength, Incremental, ToHf, FromHf, Cast;
    st.Append(FromHf(k), FromHf(v));
    var d := st.Decoded();
    kNew, vNew := ToHf(heads, Cast(st.codec.bf16, d.value.0)), ToHf(heads, Cast(st.codec.bf16, d.value.1));
    DecodedShows(st.codec, heads, Longer(st.codec, raw, k, v));
  }

  /** The tokens of a layer state after it has been given k and v. */
  function Longer(c: Codec, raw: LayerRaw, k: HfTensor, v: HfTensor): LayerRaw {
    LayerRaw(raw.k + Cast(c.bf16, FromHf(k)), raw.v + Cast(c.bf16, FromHf(v)))
  }

  lemma JoinedShows(heads: nat, raw: LayerRaw, k: HfTensor, v: HfTensor, x: HfTensor, y: HfTensor)
    requires Shows(Dense(heads), raw, k, v) && WellShaped(x, heads) && WellShaped(y, heads) && x.tokens == y.tokens
    ensures |k.data| == |v.data| == heads
    ensures Shows(Dense(heads), LayerRaw(raw.k + FromHf(x), raw.v + FromHf(y)), Joined(k, x), Joined(v, y))
  {
    JoinedIsPermuted(heads, raw.k, x);
    JoinedIsPermuted(heads, raw.v, y);
  }

  /** DynamicCache, and CanonicalRabitCache, which adds one layer state per layer to it. */
  class KvCache {
    const arm: Arm
    const codec: Codec
    const heads: nat
    var states: seq<CanonicalLayerState>
    var keyCache: seq<HfTensor>
    var valueCache: seq<HfTensor>
    var seen: nat

    /** The tokens each layer has received. */
    ghost var hist: History

    ghost predicate Valid()
      reads this, states
    {
      && heads > 0 && KeepsLength(codec.k) && KeepsLength(codec.v)
      && |keyCache| == |valueCache| == |hist|
      && (forall l | 0 <= l < |hist| :: Shows(ViewOf(arm, codec, heads), hist[l], keyCache[l], valueCache[l]))
      && (arm == RabitArm ==> |states| == |hist|)
      && (forall i, j | 0 <= i < j < |states| :: states[i] != states[j])
      && (forall l | 0 <= l < |states| && arm == RabitArm :: HasReceived(states[l], codec, hist[l]))
    }

    /** get_seq_length: the token count of layer 0. */
    function SeqLength(): (n: nat)
      reads this, states
      requires Valid()
      ensures n == Length(hist)
    {
      if |keyCache| == 0 then 0 else keyCache[0].tokens
    }

    /** The prefill cache itself, as it comes out of the model. */
    constructor FromModel(codec: Codec, heads: nat, prefill: History)
      requires heads > 0 && KeepsLength(codec.k) && KeepsLength(codec.v)
      requires forall l | 0 <= l < |prefill| :: |prefill[l].k| == |prefill[l].v|
      ensures Valid() && arm == DenseArm && this.codec == codec && this.heads == heads
      ensures hist == prefill && seen == Length(prefill) && states == []
    {
      this.arm, this.codec, this.heads := DenseArm, codec, heads;
      keyCache := seq(|prefill|, l requires 0 <= l < |prefill| => ToHf(heads, prefill[l].k));
      valueCache := seq(|prefill|, l requires 0 <= l < |prefill| => ToHf(heads, prefill[l].v));
      states, seen, hist := [], Length(prefill), prefill;
    }

    constructor Empty(codec: Codec, heads: nat)
      requires heads > 0 && KeepsLength(codec.k) && KeepsLength(codec.v)
      ensures Valid() && arm == RabitArm && this.codec == codec && this.heads == heads
      ensures hist == [] && states == []
    {
      this.arm, this.codec, this.heads := RabitArm, codec, heads;
      states, keyCache, valueCache, seen, hist := [], [], [], 0, [];
    }

    /** One more layer of a prefill cache. */
    method AddLayer(k: HfTensor, v: HfTensor) returns (r: Option<Error>)
      requires Valid() && arm == RabitArm && WellShaped(k, heads) && WellShaped(v, heads) && k.tokens == v.tokens
      modifies this
      ensures Valid()
      ensures r == if k.batch != 1 then Some(BatchSize) else None
      ensures r.Some? ==> unchanged(this)
      ensures r.None? ==> hist == old(hist) + [LayerRaw(Cast(codec.bf16, FromHf(k)), Cast(codec.bf16, FromHf(v)))]
      ensures r.None? ==> |states| == |old(states)| + 1 && states[..|old(states)|] == old(states)
      ensures r.None? ==> fresh(states[|old(states)|])
      ensures seen == old(seen)
    {
      hide Shows, KeepsLength, HasReceived, FromHf, Cast, Cached;
      if k.batch != 1 { return Some(BatchSize); }
      var st := new CanonicalLayerState(codec);
      ghost var raw := Longer(codec, LayerRaw([], []), k, v);
      var kNew, vNew := Grow(st, heads, k, v, LayerRaw([], []));
      states, keyCache, valueCache := states + [st], keyCache + [kNew], valueCache + [vNew];
      hist := hist + [raw];
      assert raw == LayerRaw(Cast(codec.bf16, FromHf(k)), Cast(codec.bf16, FromHf(v)));
      return None;
    }

    /** Closes the construction from a prefill cache; fails without layers. */
    method CountTokens() returns (ok: bool)
      requires Valid()
      modifies this`seen
      ensures Valid() && ok == (|hist| > 0)
      ensures ok ==> seen == Length(hist)
    {
      ok := |keyCache| > 0;
      if ok { seen := keyCache[0].tokens; }
    }

    /** Hands layer l the K and V of new tokens and returns what it attends to. */
    method Update(k: HfTensor, v: HfTensor, l: nat) returns (r: Result<Visible, Error>)
      requires Valid() && l < |hist| && WellShaped(k, heads) && WellShaped(v, heads) && k.tokens == v.tokens
      modifies this, states
      ensures Valid() && states == old(states)
      ensures r.Failure? <==> k.batch != 1 || (arm == RabitArm && k.tokens != 1)
      ensures r.Failure? ==> hist == old(hist)
      ensures seen == old(seen) + if l == 0 && (r.Success? || arm == DenseArm) then k.tokens else 0
      ensures r.Success? ==> hist == old(hist)[l := LayerRaw(old(hist)[l].k + Stored(arm, codec, FromHf(k)),
                                                             old(hist)[l].v + Stored(arm, codec, FromHf(v)))]
      ensures r.Success? ==> r.value == ViewOf(arm, codec, heads)(hist[l])
    {
      hide Shows, KeepsLength, HasReceived, FromHf, Cast, Cached, Dense;
      if arm == RabitArm && (k.batch != 1 || k.tokens != 1) { return Failure(OneTokenPerForward); }
      if l == 0 { seen := seen + k.tokens; }
      if arm == DenseArm && k.batch != 1 { return Failure(BatchSize); }
      var kNew, vNew;
      ghost var raw := LayerRaw(hist[l].k + Stored(arm, codec, FromHf(k)), hist[l].v + Stored(arm, codec, FromHf(v)));
      if arm == RabitArm {
        assert HasReceived(states[l], codec, hist[l]);
        HasReceivedMeans(states[l], codec, hist[l]);
        kNew, vNew := Grow(states[l], heads, k, v, hist[l]);
      } else {
        JoinedShows(heads, hist[l], keyCache[l], valueCache[l], k, v);
        kNew, vNew := Joined(keyCache[l], k), Joined(valueCache[l], v);
      }
      keyCache, valueCache := keyCache[l := kNew], valueCache[l := vNew];
      hist := hist[l := raw];
      ShownIsView(ViewOf(arm, codec, heads), raw, kNew, vNew);
      return Success(Visible(keyCache[l].data, valueCache[l].data));
    }
  }

  lemma HasReceivedMeans(st: CanonicalLayerState, c: Codec, raw: LayerRaw)
    requires HasReceived(st, c, raw)
    ensures st.Valid() && st.codec == c && st.rawK == raw.k && st.rawV == raw.v
  {
  }

  lemma ShownIsView(view: View, raw: LayerRaw, k: HfTensor, v: HfTensor)
    requires Shows(view, raw, k, v)
    ensures view(raw) == Visible(k.data, v.data)
  {
  }
}
