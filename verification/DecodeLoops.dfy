/** from_prefill, the model's forward over a cache, generate and score_stepwise. */
module DecodeLoops {
  import opened Wrappers
  import opened Tensors
  import opened LayerState
  import opened Decoding
  import opened DecodingProperties
  import opened Cache
  import opened Scoring

  type Legacy = seq<(HfTensor, HfTensor)>

  /** The prefill cache in the model's layout. */
  function ToLegacy(heads: nat, hist: History): (r: Legacy)
    ensures |r| == |hist|
    ensures forall l | 0 <= l < |hist| :: r[l] == (ToHf(heads, hist[l].k), ToHf(heads, hist[l].v))
  {
    seq(|hist|, l requires 0 <= l < |hist| => (ToHf(heads, hist[l].k), ToHf(heads, hist[l].v)))
  }

  function FromLegacy(c: Codec, legacy: Legacy): (r: History)
    ensures |r| == |legacy|
  {
    seq(|legacy|, l requires 0 <= l < |legacy| =>
      LayerRaw(Cast(c.bf16, FromHf(legacy[l].0)), Cast(c.bf16, FromHf(legacy[l].1))))
  }

  predicate LegacyShaped(legacy: Legacy, heads: nat) {
    forall l | 0 <= l < |legacy| ::
      WellShaped(legacy[l].0, heads) && WellShaped(legacy[l].1, heads) && legacy[l].0.tokens == legacy[l].1.tokens
  }

  lemma LegacyRoundTrip(c: Codec, heads: nat, hist: History, n: nat)
    requires Uniform(c.bf16, heads, hist, n)
    ensures LegacyShaped(ToLegacy(heads, hist), heads)
    ensures FromLegacy(c, ToLegacy(heads, hist)) == hist
  {
    forall l | 0 <= l < |hist| ensures FromLegacy(c, ToLegacy(heads, hist))[l] == hist[l] {
      HfRoundTrip(heads, hist[l].k);
      HfRoundTrip(heads, hist[l].v);
      Bf16RawIsBf16(c.bf16, heads, hist[l]);
    }
  }

  method FromPrefill(c: Codec, heads: nat, legacy: Legacy) returns (r: Result<KvCache, Error>)
    requires heads > 0 && KeepsLength(c.k) && KeepsLength(c.v) && LegacyShaped(legacy, heads)
    ensures r.Failure? <==> legacy == [] || exists l | 0 <= l < |legacy| :: legacy[l].0.batch != 1
    ensures r.Success? ==>
              && fresh(r.value) && fresh(r.value.states) && r.value.Valid()
              && r.value.arm == RabitArm && r.value.codec == c && r.value.heads == heads
              && r.value.hist == FromLegacy(c, legacy) && r.value.seen == Length(r.value.hist)
  {
    hide KeepsLength, KvCache.Valid, FromHf, Cast;
    var obj := new KvCache.Empty(c, heads);
    for l := 0 to |legacy|
      invariant fresh(obj) && fresh(obj.states) && obj.Valid() && obj.arm == RabitArm && obj.codec == c
                && obj.heads == heads
      invariant obj.hist == FromLegacy(c, legacy)[..l]
      invariant forall i | 0 <= i < l :: legacy[i].0.batch == 1
    {
      var e := obj.AddLayer(legacy[l].0, legacy[l].1);
      if e.Some? { return Failure(e.value); }
    }
    var counted := obj.CountTokens();
    return if counted then Success(obj) else Failure(NoLayers);
  }

  // ---------------------------------------------------------------------------- forward

  lemma StoredToken(arm: Arm, c: Codec, heads: nat, tok: Token)
    requires Bf16Token(c.bf16, heads, tok)
    ensures ToHf(heads, [tok]).batch == 1 && ToHf(heads, [tok]).tokens == 1
    ensures WellShaped(ToHf(heads, [tok]), heads) && Stored(arm, c, FromHf(ToHf(heads, [tok]))) == [tok]
  {
    HfRoundTrip(heads, [tok]);
    assert Cast(c.bf16, [tok])[0] == tok;
  }

  /** A cache ready for the next token of model m. */
  ghost predicate Ready<S(!new)>(m: Model<S>, cache: KvCache)
    reads cache, cache.states
  {
    && cache.Valid() && |cache.hist| == m.layers && cache.heads == m.heads
    && Bf16Model(m, cache.codec.bf16)
    && Uniform(cache.codec.bf16, cache.heads, cache.hist, cache.seen)
  }

  method Forward<S(!new)>(m: Model<S>, cache: KvCache, token: int) returns (logits: seq<real>)
    requires Ready(m, cache)
    modifies cache, cache.states
    ensures Ready(m, cache) && cache.states == old(cache.states) && cache.seen == old(cache.seen) + 1
    ensures (cache.hist, logits) == Step(m, ViewOf(cache.arm, cache.codec, cache.heads), old(cache.hist), token)
  {
    hide Bf16Raw, Bf16Token, ViewOf, KvCache.Valid, ToHf, FromHf, WellShaped, Stored, Partway, Uniform, Bf16Model;
    ghost var n, view, bf16 := cache.seen, ViewOf(cache.arm, cache.codec, cache.heads), cache.codec.bf16;
    var s := m.embed(token, cache.SeqLength());
    ghost var s0 := s;
    PartwayEnds(bf16, m.heads, cache.hist, n);
    ProjectsBf16(m, bf16, 0, s);
    var l := 0;
    while l < m.layers
      invariant 0 <= l <= m.layers == |cache.hist| && cache.Valid() && cache.states == old(cache.states)
      invariant cache.seen == if l == 0 then n else n + 1
      invariant Partway(bf16, m.heads, cache.hist, n, l)
      invariant Through(m, view, cache.hist, s, l) == Through(m, view, old(cache.hist), s0, 0)
    {
      var (k, v) := m.project(l, s);
      PartwayStep(m, bf16, cache.hist, s, l, n);
      ProjectsBf16(m, bf16, l, s);
      StoredToken(cache.arm, cache.codec, cache.heads, k);
      StoredToken(cache.arm, cache.codec, cache.heads, v);
      var shown := cache.Update(ToHf(cache.heads, [k]), ToHf(cache.heads, [v]), l);
      s := m.attend(l, s, shown.value);
      l := l + 1;
    }
    PartwayEnds(bf16, m.heads, cache.hist, n);
    logits := m.logits(s);
  }

  // --------------------------------------------------------------------- generate, scoring

  function ArmOf(name: string): Option<Arm> {
    if name == "bf16" then Some(DenseArm) else if name == "rabit" then Some(RabitArm) else None
  }

  function ClassName(arm: Arm): string {
    if arm == DenseArm then "DynamicCache" else "CanonicalRabitCache"
  }

  /** The two arms by name, what they attend to and the class of their cache. */
  lemma ArmNames(name: string, c: Codec, heads: nat)
    ensures ArmOf(name).None? <==> name !in {"bf16", "rabit"}
    ensures ArmOf(name).Some? ==>
              var arm := ArmOf(name).value;
              && ViewOf(arm, c, heads) == (if name == "bf16" then Dense(heads) else Cached(c, heads))
              && ClassName(arm) == (if name == "bf16" then "DynamicCache" else "CanonicalRabitCache")
  {
    hide Dense, Cached;
  }

  /** The cache an arm starts from: the prefill cache itself or the canonical state built from it. */
  method Prefilled<S(!new)>(m: Model<S>, c: Codec, arm: Arm, ids: seq<int>) returns (cache: KvCache)
    requires Bf16Model(m, c.bf16) && KeepsLength(c.k) && KeepsLength(c.v)
    ensures fresh(cache) && fresh(cache.states) && Ready(m, cache)
    ensures cache.arm == arm && cache.codec == c && cache.hist == m.prefill(ids).0 && cache.seen == |ids|
  {
    hide KeepsLength, KvCache.Valid, Bf16Raw;
    var hist := m.prefill(ids).0;
    LayersAgree(m, c.bf16, ids);
    if arm == DenseArm {
      cache := new KvCache.FromModel(c, m.heads, hist);
    } else {
      LegacyRoundTrip(c, m.heads, hist, |ids|);
      var r := FromPrefill(c, m.heads, ToLegacy(m.heads, hist));
      cache := r.value;
    }
  }

  lemma LayersAgree<S(!new)>(m: Model<S>, bf16: real -> real, ids: seq<int>)
    requires Bf16Model(m, bf16)
    ensures var hist := m.prefill(ids).0;
            && |hist| == m.layers > 0 && Uniform(bf16, m.heads, hist, |ids|) && Length(hist) == |ids|
            && forall l | 0 <= l < |hist| :: |hist[l].k| == |hist[l].v|
  {
  }

  /** Every layer state holds exactly `n` tokens. */
  predicate StatesHold(cache: KvCache, n: int)
    requires cache.Valid() && cache.arm == RabitArm
    reads cache, cache.states
  {
    |cache.states| > 0 && forall i | 0 <= i < |cache.states| :: HeldBy(cache, i) == n
  }

  function HeldBy(cache: KvCache, i: nat): (n: nat)
    requires cache.Valid() && cache.arm == RabitArm && i < |cache.states|
    reads cache, cache.states
    ensures n == |cache.hist[i].k|
  {
    assert HasReceived(cache.states[i], cache.codec, cache.hist[i]);
    cache.states[i].Length()
  }

  lemma ReadyStatesHold<S(!new)>(m: Model<S>, cache: KvCache)
    requires Ready(m, cache)
    ensures cache.SeqLength() == cache.seen
    ensures cache.arm == RabitArm ==> StatesHold(cache, cache.seen)
  {
    hide Bf16Raw;
    assert m.layers > 0;
  }

  datatype Generated = Generated(
    ids: seq<int>, cacheClass: string, forwards: nat, prefixTokens: nat, finalTokens: nat, stopped: bool)

  method GenerateTokens<S(!new)>(m: Model<S>, c: Codec, prompt: seq<int>, armName: string, maxNewTokens: int,
                                 eos: Option<int>)
    returns (r: Result<Generated, Error>)
    requires Bf16Model(m, c.bf16) && KeepsLength(c.k) && KeepsLength(c.v)
    ensures r.Failure? <==> armName !in {"bf16", "rabit"} || |prompt| == 0 || !m.keepsCache
    ensures r.Success? ==>
              var view := if armName == "bf16" then Dense(m.heads) else Cached(c, m.heads);
              var g := Generate(m, view, prompt, if maxNewTokens < 0 then 0 else maxNewTokens, eos);
              var name := if armName == "bf16" then "DynamicCache" else "CanonicalRabitCache";
              r.value == Generated(g.ids, name, g.forwards,
                                   |prompt| - 1, |prompt| - 1 + g.forwards, g.stopped)
  {
    ArmNames(armName, c, m.heads);
    hide KeepsLength, Ready, ViewOf, Step, StatesHold, KvCache.Valid, Uniform, Bf16Model, ArgMax, ArmOf, ClassName,
         Dense, Cached, GreedyLoop;
    if ArmOf(armName).None? { return Failure(UnknownArm); }
    if |prompt| == 0 { return Failure(NoLogits); }
    var arm, prefix := ArmOf(armName).value, |prompt| - 1;
    LayersAgree(m, c.bf16, prompt[..prefix]);
    var cache := Prefilled(m, c, arm, prompt[..prefix]);
    ReadyMeans(m, cache);
    var logits := Forward(m, cache, prompt[prefix]);
    if !m.keepsCache { return Failure(CacheReplaced); }
    ReadyMeans(m, cache);
    var budget := if maxNewTokens < 0 then 0 else maxNewTokens;
    var generated, forwards, stopped := GreedySteps(m, cache, ArgMax(logits), budget, eos);
    ReadyMeans(m, cache);
    ReadyStatesHold(m, cache);
    var seen := cache.SeqLength();
    r := if seen != prefix + (1 + forwards) then Failure(CacheLength)
         else if arm == RabitArm && !StatesHold(cache, seen) then Failure(LayerLengths)
         else Success(Generated(generated, ClassName(arm), 1 + forwards, prefix, seen, stopped));
  }

  /** The loop of generate, from the token chosen after the last prompt token. */
  method GreedySteps<S(!new)>(m: Model<S>, cache: KvCache, first: int, budget: nat, eos: Option<int>)
    returns (generated: seq<int>, forwards: nat, stopped: bool)
    requires Ready(m, cache)
    modifies cache, cache.states
    ensures Ready(m, cache) && cache.states == old(cache.states) && cache.seen == old(cache.seen) + forwards
    ensures var g := GreedyLoop(m, ViewOf(cache.arm, cache.codec, cache.heads), old(cache.hist), first, budget, eos);
            (generated, forwards, stopped, cache.hist) == (g.ids, g.forwards, g.stopped, g.hist)
  {
    hide Ready, ViewOf, Step, KvCache.Valid, ArgMax;
    ReadyMeans(m, cache);
    ghost var view := ViewOf(cache.arm, cache.codec, cache.heads);
    ghost var whole := GreedyLoop(m, view, cache.hist, first, budget, eos);
    var next := first;
    generated, forwards, stopped := [], 0, false;
    while forwards < budget
      invariant forwards <= budget && !stopped
      invariant Ready(m, cache) && cache.states == old(cache.states) && cache.seen == old(cache.seen) + forwards
      invariant |cache.hist| == m.layers && |generated| == forwards
      invariant Follows(whole, generated, GreedyLoop(m, view, cache.hist, next, budget - forwards, eos))
    {
      if eos.Some? && next == eos.value {
        stopped := true;
        break;
      }
      generated := generated + [next];
      var logits := Forward(m, cache, next);
      ReadyMeans(m, cache);
      forwards, next := forwards + 1, ArgMax(logits);
    }
    assert generated + [] == generated;
  }

  /** `whole` is what has been generated so far followed by `rest`. */
  predicate Follows(whole: Generation, generated: seq<int>, rest: Generation) {
    && whole.ids == generated + rest.ids
    && whole.forwards == |generated| + rest.forwards
    && whole.stopped == rest.stopped
    && whole.hist == rest.hist
  }

  lemma ReadyMeans<S(!new)>(m: Model<S>, cache: KvCache)
    requires Ready(m, cache)
    ensures cache.Valid() && |cache.hist| == m.layers && cache.heads == m.heads
  {
  }

  datatype ScoreRow = ScoreRow(row: LossRow, cacheClass: string, forwards: nat)

  method ScoreStepwise<S(!new)>(m: Model<S>, c: Codec, loss: Loss, context: seq<int>, continuation: seq<int>,
                                armName: string)
    returns (r: Result<ScoreRow, Error>)
    requires Bf16Model(m, c.bf16) && KeepsLength(c.k) && KeepsLength(c.v)
    ensures r.Failure? <==> armName !in {"bf16", "rabit"} || |context| == 0 || |continuation| == 0
                            || (!m.keepsCache && |continuation| > 1)
    ensures r.Success? ==>
              var view := if armName == "bf16" then Dense(m.heads) else Cached(c, m.heads);
              var name := if armName == "bf16" then "DynamicCache" else "CanonicalRabitCache";
              r.value == ScoreRow(Scored(m, loss, view, context, continuation), name, |continuation| - 1)
  {
    ArmNames(armName, c, m.heads);
    hide KeepsLength, Ready, ViewOf, StatesHold, KvCache.Valid, Uniform, Bf16Model, RowOf, Forced, ArmOf, ClassName,
         Dense, Cached;
    if ArmOf(armName).None? { return Failure(UnknownArm); }
    var arm, steps := ArmOf(armName).value, |continuation| - 1;
    LayersAgree(m, c.bf16, context);
    var first := if |context| == 0 then [] else [m.prefill(context).1];
    var cache := Prefilled(m, c, arm, context);
    ReadyMeans(m, cache);
    var forced := ForcedSteps(m, cache, if steps < 0 then [] else continuation[..steps]);
    if forced.Failure? { return Failure(forced.error); }
    var rows := first + forced.value;
    ReadyStatesHold(m, cache);
    r := if arm == RabitArm && !StatesHold(cache, |context| + steps) then Failure(LayerLengths)
         else if |rows| != |continuation| then Failure(RowCount)
         else if |continuation| == 0 then Failure(NoTokens)
         else Success(ScoreRow(RowOf(loss, rows, continuation), ClassName(arm), steps));
  }

  /** The loop of score_stepwise: one teacher-forced token per forward, the cache checked after each. */
  method ForcedSteps<S(!new)>(m: Model<S>, cache: KvCache, tokens: seq<int>) returns (r: Result<seq<seq<real>>, Error>)
    requires Ready(m, cache) && |cache.hist| == m.layers
    modifies cache, cache.states
    ensures r.Failure? <==> !m.keepsCache && |tokens| > 0
    ensures Ready(m, cache) && cache.Valid() && cache.states == old(cache.states)
    ensures r.Success? ==> cache.seen == old(cache.seen) + |tokens|
    ensures r.Success? ==> r.value == Forced(m, ViewOf(cache.arm, cache.codec, cache.heads), old(cache.hist), tokens).1
  {
    hide Ready, ViewOf, Step, KvCache.Valid, StatesHold;
    ReadyMeans(m, cache);
    ghost var view := ViewOf(cache.arm, cache.codec, cache.heads);
    var before, rows := cache.SeqLength(), [];
    ReadyStatesHold(m, cache);
    for t := 0 to |tokens|
      invariant Ready(m, cache) && cache.Valid() && cache.states == old(cache.states)
      invariant |cache.hist| == m.layers && cache.seen == old(cache.seen) + t && (t > 0 ==> m.keepsCache)
      invariant (cache.hist, rows) == Forced(m, view, old(cache.hist), tokens[..t])
    {
      var row := Forward(m, cache, tokens[t]);
      ReadyMeans(m, cache);
      if !m.keepsCache { return Failure(CacheReplaced); }
      ReadyStatesHold(m, cache);
      if cache.SeqLength() != before + t + 1 { return Failure(CacheLength); }
      assert tokens[..t + 1][..t] == tokens[..t];
      rows := rows + [row];
    }
    assert tokens[..|tokens|] == tokens;
    return Success(rows);
  }

  // --------------------------------------------------------------------------- self-check

  lemma CanonicalLength(decode: Tensor -> Tensor, bf16: real -> real, raw: Tensor)
    requires KeepsLength(decode)
    ensures |Canonical(decode, bf16, raw)| == |raw|
  {
  }

  /** canonical_state of a layer, laid out for the model. */
  lemma DefinedShows(c: Codec, heads: nat, raw: LayerRaw)
    requires KeepsLength(c.k) && KeepsLength(c.v) && |raw.k| == |raw.v|
    ensures Shows(Defined(c, heads), raw, ToHf(heads, Cast(c.bf16, Canonical(c.k, c.bf16, raw.k))),
                  ToHf(heads, Cast(c.bf16, Canonical(c.v, c.bf16, raw.v))))
  {
    hide Canonical, Permute;
    CanonicalLength(c.k, c.bf16, raw.k);
    CanonicalLength(c.v, c.bf16, raw.v);
  }

  lemma SameShown(v: View, w: View, raw: LayerRaw, kv: HfTensor, vv: HfTensor, kw: HfTensor, vw: HfTensor)
    requires Shows(v, raw, kv, vv) && Shows(w, raw, kw, vw)
    ensures (kv == kw && vv == vw) <==> v(raw) == w(raw)
  {
  }

  /** The layers whose cache differs from canonical_state of the prefill. */
  method PrefillStateParity<S(!new)>(m: Model<S>, c: Codec, context: seq<int>) returns (bad: seq<nat>, passed: bool)
    requires Bf16Model(m, c.bf16) && KeepsLength(c.k) && KeepsLength(c.v)
    ensures forall l: nat :: l in bad <==> l < m.layers && Mismatch(c, m.heads, m.prefill(context).0, l)
    ensures passed <==> bad == []
    ensures PageLocal(c.k) && PageLocal(c.v) ==> passed
  {
    hide KeepsLength, Ready, KvCache.Valid, Uniform, Bf16Model, Shows, Cached, Defined, Canonical, Cast, ToHf,
         PageLocal, Mismatch;
    LayersAgree(m, c.bf16, context);
    var raw := m.prefill(context).0;
    var cache := Prefilled(m, c, RabitArm, context);
    bad := [];
    for l := 0 to |raw|
      invariant Ready(m, cache) && cache.arm == RabitArm && cache.codec == c && cache.hist == raw
      invariant forall i: nat :: i in bad <==> i < l && Mismatch(c, m.heads, raw, i)
    {
      var ek := ToHf(m.heads, Cast(c.bf16, Canonical(c.k, c.bf16, raw[l].k)));
      var ev := ToHf(m.heads, Cast(c.bf16, Canonical(c.v, c.bf16, raw[l].v)));
      LayerShows(m, cache, l);
      DefinedShows(c, m.heads, raw[l]);
      SameShown(Cached(c, m.heads), Defined(c, m.heads), raw[l], cache.keyCache[l], cache.valueCache[l], ek, ev);
      MismatchMeans(c, m.heads, raw, l);
      if !(ek == cache.keyCache[l] && ev == cache.valueCache[l]) { bad := bad + [l]; }
    }
    passed := bad == [] && |raw| > 0;
    if PageLocal(c.k) && PageLocal(c.v) && bad != [] {
      assert bad[0] in bad;
      NoMismatch(m, c, context, bad[0]);
      assert false;
    }
  }

  predicate Mismatch(c: Codec, heads: nat, raw: History, l: nat)
    requires l < |raw|
  {
    Cached(c, heads)(raw[l]) != Defined(c, heads)(raw[l])
  }

  lemma MismatchMeans(c: Codec, heads: nat, raw: History, l: nat)
    requires l < |raw|
    ensures Mismatch(c, heads, raw, l) <==> Cached(c, heads)(raw[l]) != Defined(c, heads)(raw[l])
  {
  }

  lemma LayerShows<S(!new)>(m: Model<S>, cache: KvCache, l: nat)
    requires Ready(m, cache) && cache.arm == RabitArm && l < m.layers
    ensures |cache.keyCache| == |cache.valueCache| == m.layers
    ensures Shows(Cached(cache.codec, m.heads), cache.hist[l], cache.keyCache[l], cache.valueCache[l])
  {
    hide Shows, Cached;
  }

  lemma NoMismatch<S(!new)>(m: Model<S>, c: Codec, context: seq<int>, l: nat)
    requires Bf16Model(m, c.bf16) && PageLocal(c.k) && PageLocal(c.v) && l < m.layers
    ensures !Mismatch(c, m.heads, m.prefill(context).0, l)
  {
    hide Cached, Defined, PageLocal, Bf16Raw;
    LayersAgree(m, c.bf16, context);
    PageLocalLooksDefined(c, m.heads);
    LooksAlike(c.bf16, m.heads, Cached(c, m.heads), Defined(c, m.heads), m.prefill(context).0[l]);
  }
}
