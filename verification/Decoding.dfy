/** What a decode run computes, as a function of the tokens each layer has received. */
module Decoding {
  import opened Wrappers
  import opened Tensors
  import opened LayerState

  // -------------------------------------------------------------------------- layouts

  /** permute(1, 0, 2) of a tensor whose second dimension has size n. */
  function Permute(n: nat, x: Tensor): (r: Tensor)
    ensures |r| == n && forall j | 0 <= j < n :: |r[j]| == |x|
  {
    seq(n, j => seq(|x|, i requires 0 <= i < |x| => if 0 <= j < |x[i]| then x[i][j] else []))
  }

  lemma PermuteTwice(n: nat, x: Tensor)
    requires forall i | 0 <= i < |x| :: |x[i]| == n
    ensures Permute(|x|, Permute(n, x)) == x
  {
    var r := Permute(|x|, Permute(n, x));
    forall i | 0 <= i < |x| ensures r[i] == x[i] {
      forall j | 0 <= j < n ensures r[i][j] == x[i][j] {}
    }
  }

  /** K and V of a set of tokens of one layer, in the canonical layout. */
  datatype LayerRaw = LayerRaw(k: Tensor, v: Tensor)

  /** K and V as the model reads them, [head][token][channel]. */
  datatype Visible = Visible(k: Tensor, v: Tensor)

  type View = LayerRaw -> Visible
  type History = seq<LayerRaw>

  function Dense(heads: nat): View {
    (raw: LayerRaw) => Visible(Permute(heads, raw.k), Permute(heads, raw.v))
  }

  function Cached(c: Codec, heads: nat): View {
    (raw: LayerRaw) => Visible(Permute(heads, Cast(c.bf16, Incremental(c.k, raw.k))),
                               Permute(heads, Cast(c.bf16, Incremental(c.v, raw.v))))
  }

  /** The BF16 cast of canonical_state of the received tokens. */
  function Defined(c: Codec, heads: nat): View {
    (raw: LayerRaw) => Visible(Permute(heads, Cast(c.bf16, Canonical(c.k, c.bf16, raw.k))),
                               Permute(heads, Cast(c.bf16, Canonical(c.v, c.bf16, raw.v))))
  }

  // ---------------------------------------------------------------------------- model

  /** Any deterministic decoder: hidden states of type S pass through the layers, each of
      which projects K and V of the new token and attends to what the cache shows. A forward returns
      the cache object it was given, or always another one. */
  datatype Model<!S> = Model(
    layers: nat,
    heads: nat,
    embed: (int, nat) -> S,
    project: (nat, S) -> (Token, Token),
    attend: (nat, S, Visible) -> S,
    logits: S -> seq<real>,
    prefill: seq<int> -> (History, seq<real>),
    keepsCache: bool)

  predicate Bf16Token(bf16: real -> real, heads: nat, tok: Token) {
    |tok| == heads && CastToken(bf16, tok) == tok
  }

  predicate Bf16Raw(bf16: real -> real, heads: nat, raw: LayerRaw) {
    && |raw.k| == |raw.v|
    && (forall t | 0 <= t < |raw.k| :: Bf16Token(bf16, heads, raw.k[t]))
    && (forall t | 0 <= t < |raw.v| :: Bf16Token(bf16, heads, raw.v[t]))
  }

  /** All layers hold n BF16 tokens. */
  predicate Uniform(bf16: real -> real, heads: nat, hist: History, n: nat) {
    forall l | 0 <= l < |hist| :: Bf16Raw(bf16, heads, hist[l]) && |hist[l].k| == n
  }

  ghost predicate Bf16Model<S(!new)>(m: Model<S>, bf16: real -> real) {
    && m.layers > 0 && m.heads > 0
    && (forall l: nat, s: S :: Bf16Token(bf16, m.heads, m.project(l, s).0)
         && Bf16Token(bf16, m.heads, m.project(l, s).1))
    && (forall ids :: |m.prefill(ids).0| == m.layers && Uniform(bf16, m.heads, m.prefill(ids).0, |ids|))
  }

  /** First index of a largest element. */
  function ArgMax(x: seq<real>): (i: nat)
    ensures |x| > 0 ==> i < |x| && forall j | 0 <= j < |x| :: if j < i then x[j] < x[i] else x[j] <= x[i]
  {
    if |x| <= 1 then 0 else
    var i := ArgMax(x[..|x| - 1]);
    if x[i] < x[|x| - 1] then |x| - 1 else i
  }

  // ------------------------------------------------------------------------ one forward

  function Received(raw: LayerRaw, kv: (Token, Token)): LayerRaw {
    LayerRaw(raw.k + [kv.0], raw.v + [kv.1])
  }

  /** Layers l and above, for the hidden state s. */
  function Through<S>(m: Model<S>, view: View, hist: History, s: S, l: nat): (r: (History, S))
    requires |hist| == m.layers && l <= m.layers
    ensures |r.0| == m.layers
    decreases m.layers - l
  {
    if l == m.layers then (hist, s) else
    var raw := Received(hist[l], m.project(l, s));
    Through(m, view, hist[l := raw], m.attend(l, s, view(raw)), l + 1)
  }

  function Length(hist: History): nat {
    if |hist| == 0 then 0 else |hist[0].k|
  }

  function Step<S>(m: Model<S>, view: View, hist: History, token: int): (r: (History, seq<real>))
    requires |hist| == m.layers
    ensures |r.0| == m.layers
  {
    var (h, s) := Through(m, view, hist, m.embed(token, Length(hist)), 0);
    (h, m.logits(s))
  }

  // ------------------------------------------------------------------- generate, scoring

  datatype Generation = Generation(ids: seq<int>, forwards: nat, stopped: bool, hist: History)

  function GreedyLoop<S>(m: Model<S>, view: View, hist: History, next: int, budget: nat,
                         eos: Option<int>): (g: Generation)
    requires |hist| == m.layers
    ensures |g.hist| == m.layers
    ensures |g.ids| == g.forwards <= budget
    decreases budget
  {
    if budget == 0 then Generation([], 0, false, hist)
    else if eos == Some(next) then Generation([], 0, true, hist)
    else
      var (h, logits) := Step(m, view, hist, next);
      var g := GreedyLoop(m, view, h, ArgMax(logits), budget - 1, eos);
      Generation([next] + g.ids, g.forwards + 1, g.stopped, g.hist)
  }

  /** The prompt but its last token is prefilled; the last token is the first decode step. */
  function Generate<S>(m: Model<S>, view: View, prompt: seq<int>, budget: nat, eos: Option<int>): (g: Generation)
    requires |prompt| > 0 && |m.prefill(prompt[..|prompt| - 1]).0| == m.layers
    ensures |g.hist| == m.layers
  {
    var prefix := m.prefill(prompt[..|prompt| - 1]).0;
    var (h, logits) := Step(m, view, prefix, prompt[|prompt| - 1]);
    var g := GreedyLoop(m, view, h, ArgMax(logits), budget, eos);
    g.(forwards := g.forwards + 1)
  }

  /** Logit rows of teacher-forced tokens, and the history after them. */
  function Forced<S>(m: Model<S>, view: View, hist: History, tokens: seq<int>): (r: (History, seq<seq<real>>))
    requires |hist| == m.layers
    ensures |r.0| == m.layers && |r.1| == |tokens|
    decreases |tokens|
  {
    if tokens == [] then (hist, []) else
    var (h, rows) := Forced(m, view, hist, tokens[..|tokens| - 1]);
    var (h', row) := Step(m, view, h, tokens[|tokens| - 1]);
    (h', rows + [row])
  }

  /** One row per continuation token: the prefill row, then one forward for each token but the last. */
  function Scores<S>(m: Model<S>, view: View, context: seq<int>, continuation: seq<int>): (rows: seq<seq<real>>)
    requires |continuation| > 0 && |m.prefill(context).0| == m.layers
    ensures |rows| == |continuation|
  {
    [m.prefill(context).1] + Forced(m, view, m.prefill(context).0, continuation[..|continuation| - 1]).1
  }
}
