/** Laws of whole decode runs, for every deterministic model. */
module DecodingProperties {
  import opened Wrappers
  import opened Tensors
  import opened Quantizer
  import opened LayerState
  import opened Decoding

  // ------------------------------------------------------------------ lengths of layers

  /** Inside a forward the layers below l have n + 1 tokens and the others n. */
  predicate Partway(bf16: real -> real, heads: nat, hist: History, n: nat, l: nat) {
    forall i | 0 <= i < |hist| ::
      Bf16Raw(bf16, heads, hist[i]) && |hist[i].k| == if i < l then n + 1 else n
  }

  lemma PartwayEnds(bf16: real -> real, heads: nat, hist: History, n: nat)
    ensures Uniform(bf16, heads, hist, n) <==> Partway(bf16, heads, hist, n, 0)
    ensures Uniform(bf16, heads, hist, n + 1) <==> Partway(bf16, heads, hist, n, |hist|)
  {
  }

  lemma ProjectsBf16<S(!new)>(m: Model<S>, bf16: real -> real, l: nat, s: S)
    requires Bf16Model(m, bf16)
    ensures m.layers > 0 && Bf16Token(bf16, m.heads, m.project(l, s).0) && Bf16Token(bf16, m.heads, m.project(l, s).1)
  {
  }

  lemma ReceivedIsBf16(bf16: real -> real, heads: nat, raw: LayerRaw, kv: (Token, Token))
    requires Bf16Raw(bf16, heads, raw) && Bf16Token(bf16, heads, kv.0) && Bf16Token(bf16, heads, kv.1)
    ensures Bf16Raw(bf16, heads, Received(raw, kv))
  {
  }

  /** One more layer receives the new token. */
  lemma PartwayStep<S(!new)>(m: Model<S>, bf16: real -> real, hist: History, s: S, l: nat, n: nat)
    requires Bf16Model(m, bf16) && l < |hist| && Partway(bf16, m.heads, hist, n, l)
    ensures var raw := Received(hist[l], m.project(l, s));
            Bf16Raw(bf16, m.heads, raw) && Partway(bf16, m.heads, hist[l := raw], n, l + 1)
  {
    hide Bf16Raw;
    ReceivedIsBf16(bf16, m.heads, hist[l], m.project(l, s));
  }

  lemma {:induction false} ThroughLengths<S(!new)>(m: Model<S>, bf16: real -> real, view: View, hist: History, s: S,
                                                   l: nat, n: nat)
    requires Bf16Model(m, bf16) && |hist| == m.layers && l <= m.layers
    requires Partway(bf16, m.heads, hist, n, l)
    ensures Partway(bf16, m.heads, Through(m, view, hist, s, l).0, n, m.layers)
    decreases m.layers - l
  {
    hide Partway, Bf16Raw, Bf16Model;
    if l < m.layers {
      var raw := Received(hist[l], m.project(l, s));
      PartwayStep(m, bf16, hist, s, l, n);
      ThroughLengths(m, bf16, view, hist[l := raw], m.attend(l, s, view(raw)), l + 1, n);
    }
  }

  lemma StepLengths<S(!new)>(m: Model<S>, bf16: real -> real, view: View, hist: History, token: int, n: nat)
    requires Bf16Model(m, bf16) && |hist| == m.layers && Uniform(bf16, m.heads, hist, n)
    ensures Uniform(bf16, m.heads, Step(m, view, hist, token).0, n + 1)
  {
    ThroughLengths(m, bf16, view, hist, m.embed(token, Length(hist)), 0, n);
  }

  lemma {:induction false} GreedyLengths<S(!new)>(m: Model<S>, bf16: real -> real, view: View, hist: History, next: int,
                                            budget: nat, eos: Option<int>, n: nat)
    requires Bf16Model(m, bf16) && |hist| == m.layers && Uniform(bf16, m.heads, hist, n)
    ensures var g := GreedyLoop(m, view, hist, next, budget, eos); Uniform(bf16, m.heads, g.hist, n + g.forwards)
    decreases budget
  {
    hide Uniform, Bf16Model;
    if budget > 0 && eos != Some(next) {
      var (h, logits) := Step(m, view, hist, next);
      StepLengths(m, bf16, view, hist, next, n);
      GreedyLengths(m, bf16, view, h, ArgMax(logits), budget - 1, eos, n + 1);
    }
  }

  // --------------------------------------------------------------- caches that look alike

  /** Two caches show the same K and V for every BF16 history. */
  ghost predicate LookAlike(bf16: real -> real, heads: nat, v: View, w: View) {
    forall raw | Bf16Raw(bf16, heads, raw) :: v(raw) == w(raw)
  }

  lemma LooksAlike(bf16: real -> real, heads: nat, v: View, w: View, raw: LayerRaw)
    requires LookAlike(bf16, heads, v, w) && Bf16Raw(bf16, heads, raw)
    ensures v(raw) == w(raw)
  {
  }

  lemma {:induction false} ThroughAlike<S(!new)>(m: Model<S>, bf16: real -> real, v: View, w: View, hist: History,
                                                 s: S, l: nat, n: nat)
    requires Bf16Model(m, bf16) && LookAlike(bf16, m.heads, v, w) && |hist| == m.layers && l <= m.layers
    requires Partway(bf16, m.heads, hist, n, l)
    ensures Through(m, v, hist, s, l) == Through(m, w, hist, s, l)
    decreases m.layers - l
  {
    hide Partway, Bf16Raw, Bf16Model, LookAlike;
    if l < m.layers {
      var raw := Received(hist[l], m.project(l, s));
      PartwayStep(m, bf16, hist, s, l, n);
      LooksAlike(bf16, m.heads, v, w, raw);
      ThroughAlike(m, bf16, v, w, hist[l := raw], m.attend(l, s, v(raw)), l + 1, n);
    }
  }

  lemma StepAlike<S(!new)>(m: Model<S>, bf16: real -> real, v: View, w: View, hist: History, token: int, n: nat)
    requires Bf16Model(m, bf16) && LookAlike(bf16, m.heads, v, w) && |hist| == m.layers
              && Uniform(bf16, m.heads, hist, n)
    ensures Step(m, v, hist, token) == Step(m, w, hist, token)
  {
    ThroughAlike(m, bf16, v, w, hist, m.embed(token, Length(hist)), 0, n);
  }

  lemma {:induction false} GreedyAlike<S(!new)>(m: Model<S>, bf16: real -> real, v: View, w: View, hist: History,
                                                next: int, budget: nat, eos: Option<int>, n: nat)
    requires Bf16Model(m, bf16) && LookAlike(bf16, m.heads, v, w) && |hist| == m.layers
              && Uniform(bf16, m.heads, hist, n)
    ensures GreedyLoop(m, v, hist, next, budget, eos) == GreedyLoop(m, w, hist, next, budget, eos)
    decreases budget
  {
    hide Uniform, Bf16Model, LookAlike;
    if budget > 0 && eos != Some(next) {
      var (h, logits) := Step(m, v, hist, next);
      StepAlike(m, bf16, v, w, hist, next, n);
      StepLengths(m, bf16, v, hist, next, n);
      GreedyAlike(m, bf16, v, w, h, ArgMax(logits), budget - 1, eos, n + 1);
    }
  }

  lemma GenerateAlike<S(!new)>(m: Model<S>, bf16: real -> real, v: View, w: View, prompt: seq<int>, budget: nat,
                               eos: Option<int>)
    requires Bf16Model(m, bf16) && LookAlike(bf16, m.heads, v, w) && |prompt| > 0
    ensures Generate(m, v, prompt, budget, eos) == Generate(m, w, prompt, budget, eos)
  {
    hide Uniform, LookAlike;
    var n := |prompt| - 1;
    var prefix, last := m.prefill(prompt[..n]).0, prompt[n];
    StepAlike(m, bf16, v, w, prefix, last, n);
    StepLengths(m, bf16, v, prefix, last, n);
    var (h, logits) := Step(m, v, prefix, last);
    GreedyAlike(m, bf16, v, w, h, ArgMax(logits), budget, eos, n + 1);
  }

  lemma {:induction false} ForcedAlike<S(!new)>(m: Model<S>, bf16: real -> real, v: View, w: View, hist: History,
                                                tokens: seq<int>, n: nat)
    requires Bf16Model(m, bf16) && LookAlike(bf16, m.heads, v, w) && |hist| == m.layers
              && Uniform(bf16, m.heads, hist, n)
    ensures Forced(m, v, hist, tokens) == Forced(m, w, hist, tokens)
    ensures Uniform(bf16, m.heads, Forced(m, v, hist, tokens).0, n + |tokens|)
    decreases |tokens|
  {
    hide Uniform, Bf16Model, LookAlike;
    if |tokens| > 0 {
      var k := |tokens| - 1;
      ForcedAlike(m, bf16, v, w, hist, tokens[..k], n);
      var h := Forced(m, v, hist, tokens[..k]).0;
      StepAlike(m, bf16, v, w, h, tokens[k], n + k);
      StepLengths(m, bf16, v, h, tokens[k], n + k);
    }
  }

  lemma ScoresAlike<S(!new)>(m: Model<S>, bf16: real -> real, v: View, w: View, context: seq<int>,
                             continuation: seq<int>)
    requires Bf16Model(m, bf16) && LookAlike(bf16, m.heads, v, w) && |continuation| > 0
    ensures Scores(m, v, context, continuation) == Scores(m, w, context, continuation)
  {
    ForcedAlike(m, bf16, v, w, m.prefill(context).0, continuation[..|continuation| - 1], |context|);
  }

  lemma Bf16RawIsBf16(bf16: real -> real, heads: nat, raw: LayerRaw)
    requires Bf16Raw(bf16, heads, raw)
    ensures IsBf16(bf16, raw.k) && IsBf16(bf16, raw.v)
  {
  }

  lemma PageLocalLooksDefined(c: Codec, heads: nat)
    requires PageLocal(c.k) && PageLocal(c.v)
    ensures LookAlike(c.bf16, heads, Cached(c, heads), Defined(c, heads))
  {
    hide Incremental, Canonical, PageLocal, Permute, Cast;
    forall raw | Bf16Raw(c.bf16, heads, raw) ensures Cached(c, heads)(raw) == Defined(c, heads)(raw) {
      Bf16RawIsBf16(c.bf16, heads, raw);
      IncrementalIsCanonical(c.k, c.bf16, raw.k);
      IncrementalIsCanonical(c.v, c.bf16, raw.v);
    }
  }

  /** With the RABIT codec every step of a run attends to the BF16 cast of canonical_state. */
  lemma RabitRunsAreCanonical<S(!new)>(m: Model<S>, a: Arith, dim: nat, prompt: seq<int>, budget: nat, eos: Option<int>,
                                 context: seq<int>, continuation: seq<int>)
    requires Bf16Model(m, a.bf16) && dim > 0 && dim % META_GROUP == 0 && |prompt| > 0 && |continuation| > 0
    ensures var c := Rabit(a, m.heads, dim);
            && Generate(m, Cached(c, m.heads), prompt, budget, eos)
                 == Generate(m, Defined(c, m.heads), prompt, budget, eos)
            && Scores(m, Cached(c, m.heads), context, continuation)
                 == Scores(m, Defined(c, m.heads), context, continuation)
  {
    hide Generate, Scores, LookAlike, Cached, Defined;
    var c := Rabit(a, m.heads, dim);
    RabitIsPageLocal(a, m.heads, dim);
    PageLocalLooksDefined(c, m.heads);
    GenerateAlike(m, a.bf16, Cached(c, m.heads), Defined(c, m.heads), prompt, budget, eos);
    ScoresAlike(m, a.bf16, Cached(c, m.heads), Defined(c, m.heads), context, continuation);
  }

  // ---------------------------------------------------------------- identity decoders

  function Identity(bf16: real -> real): Codec {
    Codec((x: Tensor) => x, (x: Tensor) => x, bf16)
  }

  lemma {:induction false} IdentityPages(raw: Tensor, p: nat)
    requires p * GROUP <= |raw|
    ensures Pages((x: Tensor) => x, raw, p) == raw[..p * GROUP]
  {
    if p > 0 { IdentityPages(raw, p - 1); }
  }

  lemma IdentityIncremental(raw: Tensor)
    ensures Incremental((x: Tensor) => x, raw) == raw
  {
    IdentityPages(raw, ClosedPages(|raw|));
  }

  lemma IdentityLooksDense(bf16: real -> real, heads: nat)
    ensures LookAlike(bf16, heads, Cached(Identity(bf16), heads), Dense(heads))
  {
    hide Incremental, Permute, Cast;
    forall raw | Bf16Raw(bf16, heads, raw) ensures Cached(Identity(bf16), heads)(raw) == Dense(heads)(raw) {
      Bf16RawIsBf16(bf16, heads, raw);
      IdentityIncremental(raw.k);
      IdentityIncremental(raw.v);
    }
  }

  /** The paging itself is invisible: without quantization both arms agree token for token. */
  lemma ArmsAgreeWithoutQuantization<S(!new)>(m: Model<S>, bf16: real -> real, prompt: seq<int>, budget: nat,
                                              eos: Option<int>, context: seq<int>, continuation: seq<int>)
    requires Bf16Model(m, bf16) && |prompt| > 0 && |continuation| > 0
    ensures var rabit, dense := Cached(Identity(bf16), m.heads), Dense(m.heads);
            && Generate(m, rabit, prompt, budget, eos) == Generate(m, dense, prompt, budget, eos)
            && Scores(m, rabit, context, continuation) == Scores(m, dense, context, continuation)
  {
    hide Generate, Scores, LookAlike, Cached, Dense;
    IdentityLooksDense(bf16, m.heads);
    GenerateAlike(m, bf16, Cached(Identity(bf16), m.heads), Dense(m.heads), prompt, budget, eos);
    ScoresAlike(m, bf16, Cached(Identity(bf16), m.heads), Dense(m.heads), context, continuation);
  }

  // -------------------------------------------------------------------------- EOS, budget

  /** `part` is the longest prefix of `whole` without e. */
  predicate LongestWithout(part: seq<int>, whole: seq<int>, e: int) {
    && part <= whole
    && e !in part
    && (|part| < |whole| ==> whole[|part|] == e)
  }

  lemma {:induction false} EosTruncatesLoop<S>(m: Model<S>, view: View, hist: History, next: int, budget: nat, e: int)
    requires |hist| == m.layers
    ensures var g, f := GreedyLoop(m, view, hist, next, budget, Some(e)), GreedyLoop(m, view, hist, next, budget, None);
            && |f.ids| == budget && !f.stopped
            && LongestWithout(g.ids, f.ids, e)
            && (g.stopped <==> e in f.ids)
    decreases budget
  {
    if budget > 0 {
      var (h, logits) := Step(m, view, hist, next);
      EosTruncatesLoop(m, view, h, ArgMax(logits), budget - 1, e);
      var g', f' := GreedyLoop(m, view, h, ArgMax(logits), budget - 1, Some(e)),
          GreedyLoop(m, view, h, ArgMax(logits), budget - 1, None);
      var f := GreedyLoop(m, view, hist, next, budget, None);
      assert f.ids == [next] + f'.ids;
      if next != e {
        var g := GreedyLoop(m, view, hist, next, budget, Some(e));
        assert g.ids == [next] + g'.ids;
        assert |g.ids| < |f.ids| ==> f.ids[|g.ids|] == f'.ids[|g'.ids|];
      }
    }
  }

  /** EOS only cuts generation short, and only where it occurs. */
  lemma EosTruncates<S>(m: Model<S>, view: View, prompt: seq<int>, budget: nat, e: int)
    requires |prompt| > 0 && |m.prefill(prompt[..|prompt| - 1]).0| == m.layers
    ensures var g, f := Generate(m, view, prompt, budget, Some(e)), Generate(m, view, prompt, budget, None);
            && |f.ids| == budget
            && LongestWithout(g.ids, f.ids, e)
            && (g.stopped <==> e in f.ids)
            && g.forwards == |g.ids| + 1
  {
    var (h, logits) := Step(m, view, m.prefill(prompt[..|prompt| - 1]).0, prompt[|prompt| - 1]);
    EosTruncatesLoop(m, view, h, ArgMax(logits), budget, e);
  }

  lemma {:induction false} BudgetExtendsLoop<S>(m: Model<S>, view: View, hist: History, next: int, b: nat, b': nat,
                                                eos: Option<int>)
    requires |hist| == m.layers && b <= b'
    ensures var g, g' := GreedyLoop(m, view, hist, next, b, eos), GreedyLoop(m, view, hist, next, b', eos);
            && g.ids <= g'.ids
            && (|g.ids| < b ==> g == g')
            && (g.stopped ==> g' == g)
    decreases b
  {
    if b > 0 && eos != Some(next) {
      var (h, logits) := Step(m, view, hist, next);
      BudgetExtendsLoop(m, view, h, ArgMax(logits), b - 1, b' - 1, eos);
    }
  }

  /** A larger budget only appends, and changes nothing once generation has stopped. */
  lemma BudgetExtends<S>(m: Model<S>, view: View, prompt: seq<int>, b: nat, b': nat, eos: Option<int>)
    requires |prompt| > 0 && |m.prefill(prompt[..|prompt| - 1]).0| == m.layers && b <= b'
    ensures var g, g' := Generate(m, view, prompt, b, eos), Generate(m, view, prompt, b', eos);
            g.ids <= g'.ids && (|g.ids| < b || g.stopped ==> g == g')
  {
    var (h, logits) := Step(m, view, m.prefill(prompt[..|prompt| - 1]).0, prompt[|prompt| - 1]);
    BudgetExtendsLoop(m, view, h, ArgMax(logits), b, b', eos);
  }

  // -------------------------------------------------------------------------- causality

  lemma {:induction false} ForcedPrefix<S>(m: Model<S>, view: View, hist: History, tokens: seq<int>, k: nat)
    requires |hist| == m.layers && k <= |tokens|
    ensures Forced(m, view, hist, tokens).1[..k] == Forced(m, view, hist, tokens[..k]).1
    decreases |tokens|
  {
    if k < |tokens| {
      var most := tokens[..|tokens| - 1];
      ForcedPrefix(m, view, hist, most, k);
      assert most[..k] == tokens[..k];
    } else {
      assert tokens[..k] == tokens;
    }
  }

  /** Row i of the scores depends on the context and the first i continuation tokens only. */
  lemma ScoresAreCausal<S>(m: Model<S>, view: View, context: seq<int>, c: seq<int>, d: seq<int>, i: nat)
    requires |m.prefill(context).0| == m.layers && i < |c| && i < |d| && c[..i] == d[..i]
    ensures Scores(m, view, context, c)[..i + 1] == Scores(m, view, context, d)[..i + 1]
  {
    var hist := m.prefill(context).0;
    ForcedPrefix(m, view, hist, c[..|c| - 1], i);
    ForcedPrefix(m, view, hist, d[..|d| - 1], i);
    assert c[..|c| - 1][..i] == c[..i] && d[..|d| - 1][..i] == d[..i];
  }

  // ---------------------------------------------------------------------- what runs compute

  /** The hidden states of one forward: s[0] is the embedding of the token at its position, every layer attends to its
      history with the token's own K and V, and s[l + 1] is what it makes of that. */
  ghost predicate IsForward<S>(m: Model<S>, view: View, hist: History, token: int, after: History, s: seq<S>)
    requires |hist| == |after| == m.layers
  {
    && |s| == m.layers + 1
    && s[0] == m.embed(token, Length(hist))
    && forall l | 0 <= l < m.layers ::
         && after[l] == LayerRaw(hist[l].k + [m.project(l, s[l]).0], hist[l].v + [m.project(l, s[l]).1])
         && s[l + 1] == m.attend(l, s[l], view(after[l]))
  }

  lemma {:induction false} ThroughMeans<S>(m: Model<S>, view: View, hist: History, s: S, l: nat) returns (ss: seq<S>)
    requires |hist| == m.layers && l <= m.layers
    ensures var r := Through(m, view, hist, s, l);
            && |ss| == m.layers - l + 1 && ss[0] == s && ss[m.layers - l] == r.1
            && (forall i | 0 <= i < l :: r.0[i] == hist[i])
            && (forall i | l <= i < m.layers ::
                  && r.0[i] == LayerRaw(hist[i].k + [m.project(i, ss[i - l]).0],
                                        hist[i].v + [m.project(i, ss[i - l]).1])
                  && ss[i - l + 1] == m.attend(i, ss[i - l], view(r.0[i])))
    decreases m.layers - l
  {
    if l == m.layers {
      ss := [s];
    } else {
      var raw := Received(hist[l], m.project(l, s));
      var rest := ThroughMeans(m, view, hist[l := raw], m.attend(l, s, view(raw)), l + 1);
      ss := [s] + rest;
    }
  }

  /** One forward through all layers: its logits come from the last hidden state. */
  lemma StepMeans<S>(m: Model<S>, view: View, hist: History, token: int) returns (s: seq<S>)
    requires |hist| == m.layers
    ensures var r := Step(m, view, hist, token);
            IsForward(m, view, hist, token, r.0, s) && r.1 == m.logits(s[m.layers])
  {
    hide Through;
    s := ThroughMeans(m, view, hist, m.embed(token, Length(hist)), 0);
    var r := Through(m, view, hist, m.embed(token, Length(hist)), 0).0;
    forall l | 0 <= l < m.layers
      ensures r[l] == LayerRaw(hist[l].k + [m.project(l, s[l]).0], hist[l].v + [m.project(l, s[l]).1])
      ensures s[l + 1] == m.attend(l, s[l], view(r[l]))
    {
      assert s[l - 0] == s[l] && s[l - 0 + 1] == s[l + 1];
    }
  }

  /** Teacher forcing no token does nothing, forcing one is one forward. */
  lemma ForcedSmall<S>(m: Model<S>, view: View, hist: History, t: int)
    requires |hist| == m.layers
    ensures Forced(m, view, hist, []) == (hist, [])
    ensures Forced(m, view, hist, [t]) == (Step(m, view, hist, t).0, [Step(m, view, hist, t).1])
  {
    hide Step;
    var row := Step(m, view, hist, t).1;
    assert [t][..|[t]| - 1] == [] && [t][|[t]| - 1] == t;
    assert [] + [row] == [row];
  }

  /** Forcing more tokens continues from the history reached and leaves the earlier rows alone. */
  lemma {:induction false} ForcedAppend<S>(m: Model<S>, view: View, hist: History, xs: seq<int>, ys: seq<int>)
    requires |hist| == m.layers
    ensures var f := Forced(m, view, hist, xs);
            var g := Forced(m, view, f.0, ys);
            Forced(m, view, hist, xs + ys) == (g.0, f.1 + g.1)
    decreases |ys|
  {
    hide Step;
    var f := Forced(m, view, hist, xs);
    if ys == [] {
      assert xs + ys == xs;
      assert f.1 + [] == f.1;
    } else {
      var n := |ys| - 1;
      ForcedAppend(m, view, hist, xs, ys[..n]);
      assert (xs + ys)[..|xs + ys| - 1] == xs + ys[..n] && (xs + ys)[|xs + ys| - 1] == ys[n];
      var g := Forced(m, view, f.0, ys[..n]);
      var row := Step(m, view, g.0, ys[n]).1;
      assert f.1 + (g.1 + [row]) == f.1 + g.1 + [row];
    }
  }

  /** The rows of xs are not changed by what follows, and the row after `next` comes first. */
  lemma ForcedCons<S>(m: Model<S>, view: View, hist: History, next: int, ys: seq<int>)
    requires |hist| == m.layers
    ensures var (h, row) := Step(m, view, hist, next);
            Forced(m, view, hist, [next] + ys) == (Forced(m, view, h, ys).0, [row] + Forced(m, view, h, ys).1)
  {
    hide Step;
    ForcedSmall(m, view, hist, next);
    ForcedAppend(m, view, hist, [next], ys);
  }

  /** The greedy loop leaves the history of forcing its own output, and stops early exactly on EOS. */
  lemma {:induction false} GreedyLoopEnds<S>(m: Model<S>, view: View, hist: History, next: int, budget: nat,
                                             eos: Option<int>)
    requires |hist| == m.layers
    ensures var g := GreedyLoop(m, view, hist, next, budget, eos);
            && g.hist == Forced(m, view, hist, g.ids).0
            && (|g.ids| < budget <==> g.stopped)
            && (g.stopped ==>
                  eos == Some(if g.ids == [] then next else ArgMax(Forced(m, view, hist, g.ids).1[|g.ids| - 1])))
    decreases budget
  {
    hide Step, ArgMax, Forced;
    ForcedSmall(m, view, hist, next);
    if budget > 0 && eos != Some(next) {
      var (h, row) := Step(m, view, hist, next);
      var rest := GreedyLoop(m, view, h, ArgMax(row), budget - 1, eos);
      GreedyLoopEnds(m, view, h, ArgMax(row), budget - 1, eos);
      ForcedCons(m, view, hist, next, rest.ids);
    }
  }

  /** It emits `next` and then the argmax of each row that forcing its own output produces. */
  lemma {:induction false} GreedyLoopAt<S>(m: Model<S>, view: View, hist: History, next: int, budget: nat,
                                           eos: Option<int>, i: nat)
    requires |hist| == m.layers && i < |GreedyLoop(m, view, hist, next, budget, eos).ids|
    ensures var ids := GreedyLoop(m, view, hist, next, budget, eos).ids;
            ids[i] == if i == 0 then next else ArgMax(Forced(m, view, hist, ids[..i]).1[i - 1])
    decreases budget
  {
    hide Step, ArgMax, Forced;
    var (h, row) := Step(m, view, hist, next);
    var ids := GreedyLoop(m, view, hist, next, budget, eos).ids;
    var rest := GreedyLoop(m, view, h, ArgMax(row), budget - 1, eos).ids;
    assert ids == [next] + rest;
    if i > 0 {
      GreedyLoopAt(m, view, h, ArgMax(row), budget - 1, eos, i - 1);
      ForcedCons(m, view, hist, next, rest[..i - 1]);
      assert ids[..i] == [next] + rest[..i - 1];
    }
  }

  /** Greedy output is the argmax of the teacher-forced rows of its own output, up to EOS or the budget. */
  lemma GenerateIsGreedy<S>(m: Model<S>, view: View, prompt: seq<int>, budget: nat, eos: Option<int>, i: nat)
    requires |prompt| > 0 && |m.prefill(prompt[..|prompt| - 1]).0| == m.layers
    ensures var g, prefix := Generate(m, view, prompt, budget, eos), m.prefill(prompt[..|prompt| - 1]).0;
            var last := [prompt[|prompt| - 1]];
            && g.hist == Forced(m, view, prefix, last + g.ids).0
            && (i < |g.ids| ==> g.ids[i] == ArgMax(Forced(m, view, prefix, last + g.ids[..i]).1[i]))
            && (|g.ids| < budget <==> g.stopped)
            && (g.stopped ==> eos == Some(ArgMax(Forced(m, view, prefix, last + g.ids).1[|g.ids|])))
            && g.forwards == 1 + |g.ids|
  {
    hide Step, ArgMax, Forced;
    var prefix, last := m.prefill(prompt[..|prompt| - 1]).0, prompt[|prompt| - 1];
    var (h, row) := Step(m, view, prefix, last);
    var g := Generate(m, view, prompt, budget, eos);
    GreedyLoopEnds(m, view, h, ArgMax(row), budget, eos);
    ForcedCons(m, view, prefix, last, g.ids);
    if i < |g.ids| {
      GreedyLoopAt(m, view, h, ArgMax(row), budget, eos, i);
      ForcedCons(m, view, prefix, last, g.ids[..i]);
    }
  }

  /** Row 0 comes from the prefill, row i from forcing the first i continuation tokens. */
  lemma ScoresMean<S>(m: Model<S>, view: View, context: seq<int>, c: seq<int>, i: nat)
    requires i < |c| && |m.prefill(context).0| == m.layers
    ensures Scores(m, view, context, c)[i] ==
              if i == 0 then m.prefill(context).1 else Forced(m, view, m.prefill(context).0, c[..i]).1[i - 1]
  {
    hide Forced;
    if i > 0 {
      var hist := m.prefill(context).0;
      ForcedPrefix(m, view, hist, c[..|c| - 1], i);
      assert c[..|c| - 1][..i] == c[..i];
    }
  }

  // --------------------------------------------------------------------- what is attended to

  /** What head h of the BF16 arm attends to at token t. */
  lemma DenseAt(heads: nat, raw: LayerRaw, h: nat, t: nat)
    requires h < heads && t < |raw.k| == |raw.v| && h < |raw.k[t]| && h < |raw.v[t]|
    ensures var x := Dense(heads)(raw);
            && |x.k| == |x.v| == heads && |x.k[h]| == |x.v[h]| == |raw.k|
            && x.k[h][t] == raw.k[t][h] && x.v[h][t] == raw.v[t][h]
  {
  }

  /** What head h of the RABIT arm attends to at token t of n: the BF16 cast of the quantized value, where all tokens
      but the newest 4 are quantized as one region, and the token itself among the newest 4. */
  lemma RabitAt(a: Arith, heads: nat, dim: nat, raw: LayerRaw, h: nat, t: nat)
    requires dim > 0 && dim % META_GROUP == 0 && h < heads && t < |raw.k| && Bf16Raw(a.bf16, heads, raw)
    ensures var n, x := |raw.k|, Cached(Rabit(a, heads, dim), heads)(raw);
            && |x.k| == |x.v| == heads && |x.k[h]| == |x.v[h]| == n
            && (t + 4 < n ==>
                  && x.k[h][t] == CastToken(a.bf16, K3(a, heads, dim, raw.k[..n - 4]).decoded[t])[h]
                  && x.v[h][t] == CastToken(a.bf16, V2(a, heads, dim, raw.v[..n - 4]).decoded[t])[h])
            && (t + 4 >= n ==> x.k[h][t] == raw.k[t][h] && x.v[h][t] == raw.v[t][h])
  {
    hide Incremental, Canonical, K3, V2, Rabit, IsStateOf, PageLocal, KeepsLength, KShown, VShown;
    var c := Rabit(a, heads, dim);
    RabitCast(a, heads, dim);
    RabitIsPageLocal(a, heads, dim);
    RabitKeepsLength(a, heads, dim);
    Bf16RawIsBf16(a.bf16, heads, raw);
    IncrementalIsCanonical(c.k, a.bf16, raw.k);
    IncrementalIsCanonical(c.v, a.bf16, raw.v);
    CanonicalIsState(c.k, a.bf16, raw.k);
    CanonicalIsState(c.v, a.bf16, raw.v);
    var k, v := Incremental(c.k, raw.k), Incremental(c.v, raw.v);
    StateLength(c.k, raw.k, k);
    StateLength(c.v, raw.v, v);
    StateShowsK(a, heads, dim, raw.k, k, t);
    StateShowsV(a, heads, dim, raw.v, v, t);
    ShownTokens(a, heads, dim, raw, k, v, t);
    assert Cast(a.bf16, k)[t] == CastToken(a.bf16, k[t]) && Cast(a.bf16, v)[t] == CastToken(a.bf16, v[t]);
  }

  lemma RabitCast(a: Arith, heads: nat, dim: nat)
    requires heads > 0 && dim > 0
    ensures Rabit(a, heads, dim).bf16 == a.bf16
  {
  }

  lemma ShownTokens(a: Arith, heads: nat, dim: nat, raw: LayerRaw, k: Tensor, v: Tensor, t: nat)
    requires heads > 0 && dim > 0 && t < |raw.k| == |raw.v| && Bf16Raw(a.bf16, heads, raw)
    requires KShown(a, heads, dim, raw.k, k, t) && VShown(a, heads, dim, raw.v, v, t)
    ensures |k[t]| == heads && |v[t]| == heads
    ensures t + 4 < |raw.k| ==> k[t] == K3(a, heads, dim, raw.k[..|raw.k| - 4]).decoded[t]
                                && v[t] == V2(a, heads, dim, raw.v[..|raw.v| - 4]).decoded[t]
    ensures t + 4 >= |raw.k| ==> CastToken(a.bf16, k[t]) == raw.k[t] && CastToken(a.bf16, v[t]) == raw.v[t]
  {
    hide K3, V2;
    assert Bf16Token(a.bf16, heads, raw.k[t]) && Bf16Token(a.bf16, heads, raw.v[t]);
    if t + 4 < |raw.k| {
      assert ShapedToken(K3(a, heads, dim, raw.k[..|raw.k| - 4]).decoded[t], heads, dim);
      assert ShapedToken(V2(a, heads, dim, raw.v[..|raw.v| - 4]).decoded[t], heads, dim);
    }
  }
}
