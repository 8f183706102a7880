/** What the worker prints, and that the sweep reads back exactly that. */
module SweepEmission {
  import opened Wrappers
  import opened Json
  import opened SweepParser

  // ------------------------------------------------------------------------------ printing

  datatype Emit = Tag(name: string, payload: Json) | Warmup(record: Json) | Sample(record: Json) | Mark(marker: string)

  function Print(c: JsonCodec, e: Emit): string {
    match e
    case Tag(name, payload) => name + "=" + c.dumps(payload)
    case Warmup(record) => WARMUP + c.dumps(record)
    case Sample(record) => SAMPLE + c.dumps(record)
    case Mark(marker) => marker
  }

  /** json of an object: braces around it, and loads undoes dumps. */
  predicate RoundTrips(c: JsonCodec, j: Json) {
    var d := c.dumps(j);
    j.Obj? && |d| >= 2 && d[0] == '{' && d[|d| - 1] == '}' && c.loads(d) == Some(j)
  }

  predicate Printable(c: JsonCodec, e: Emit) {
    match e
    case Tag(name, payload) => "EXP5_" <= name && '=' !in name && ' ' !in name && RoundTrips(c, payload)
    case Warmup(record) => RoundTrips(c, record)
    case Sample(record) => RoundTrips(c, record)
    case Mark(marker) => marker in MARKERS
  }

  /** A line of the captured stream: something the worker printed, relayed with the prefix, or other output. */
  datatype Line = Out(e: Emit) | Noise(raw: string)

  function Raw(c: JsonCodec, prefix: string, line: Line): string {
    match line
    case Out(e) => prefix + Print(c, e)
    case Noise(raw) => raw
  }

  function Body(prefix: string, raw: string): Option<string> {
    if prefix <= raw then Some(Strip(raw[|prefix|..])) else None
  }

  predicate Legit(c: JsonCodec, prefix: string, line: Line) {
    match line
    case Out(e) => Printable(c, e)
    case Noise(raw) => Body(prefix, raw).None? || !("EXP5_" <= Body(prefix, raw).value)
  }

  // ------------------------------------------------------------------------- reading a line

  /** The effect a line is meant to have. */
  function Apply(prefix: string, p: Parsed, line: Line): Parsed {
    match line
    case Out(Tag(name, payload)) =>
      if name == "EXP5_GPU_MEMORY" then p
      else if name == "EXP5_WORKLOAD_FAILURE" then p.(failures := p.failures + [payload])
      else p.(tags := p.tags[name := payload])
    case Out(Warmup(record)) => p.(warmups := p.warmups + [record])
    case Out(Sample(record)) => p.(samples := p.samples + [record])
    case Out(Mark(m)) =>
      p.(markers := p.markers + [m],
         measuring := if m == MEASUREMENT_BEGIN then true else if EndsWith(m, "_END") then false else p.measuring)
    case Noise(raw) =>
      if p.measuring && Body(prefix, raw).Some? && Contains(Body(prefix, raw).value, JIT) then p.(jit := p.jit + 1)
      else p
  }

  lemma StripKeeps(s: string)
    requires s != "" && !IsSpace(s[0]) && !IsSpace(s[|s| - 1])
    ensures Strip(s) == s
  {
  }

  lemma NoTagStartsWith(name: string, rest: string, head: string)
    requires ' ' !in name && '=' !in head && ' ' in head
    ensures !(head <= name + "=" + rest)
  {
    var s := name + "=" + rest;
    var k :| 0 <= k < |head| && head[k] == ' ';
    assert s[|name|] == '=';
    assert |name| < |head| ==> head[|name|] in head;
    assert |head| <= |name| ==> s[k] == name[k] && name[k] in name;
  }

  lemma NoEqualsSign(s: string)
    requires '=' !in s
    ensures !Contains(s, "={")
  {
    forall i | 0 <= i <= |s| ensures !("={" <= s[i..]) {
      assert "={"[0] == '=';
      assert i < |s| ==> s[i..][0] == s[i] && s[i] in s;
    }
  }

  lemma TagSplits(name: string, d: string)
    requires '=' !in name && d != "" && d[0] == '{'
    ensures var s := name + "=" + d;
            Contains(s, "={") && IndexOf(s, '=') == |name| && s[..|name|] == name && s[|name| + 1..] == d
  {
    var s := name + "=" + d;
    assert s[|name|..] == "=" + d && "={" <= s[|name|..];
    assert s[|name|] == '=' && forall k | 0 <= k < |name| :: s[k] == name[k];
  }

  lemma DropPrefix(prefix: string, s: string)
    ensures prefix <= prefix + s && (prefix + s)[|prefix|..] == s
  {
  }

  /** How a printed tag reads. */
  lemma TagText(c: JsonCodec, e: Emit)
    requires e.Tag? && Printable(c, e)
    ensures var s := Print(c, e);
            && Strip(s) == s && "EXP5_" <= s && !(SAMPLE <= s) && !(WARMUP <= s) && Contains(s, "={")
            && IndexOf(s, '=') == |e.name| < |s| && s[..|e.name|] == e.name && s[|e.name| + 1..] == c.dumps(e.payload)
  {
    hide Contains, IndexOf, Strip;
    var s, d := Print(c, e), c.dumps(e.payload);
    assert s[0] == 'E' && s[|s| - 1] == '}';
    StripKeeps(s);
    NoTagStartsWith(e.name, d, SAMPLE) by { assert SAMPLE[11] == ' '; }
    NoTagStartsWith(e.name, d, WARMUP) by { assert WARMUP[11] == ' '; }
    TagSplits(e.name, d);
  }

  lemma TagParses(c: JsonCodec, prefix: string, p: Parsed, e: Emit)
    requires e.Tag? && Printable(c, e)
    ensures ParseLine(c, prefix, p, prefix + Print(c, e)) == Some(Apply(prefix, p, Out(e)))
  {
    hide Contains, IndexOf, Strip, Print;
    DropPrefix(prefix, Print(c, e));
    TagText(c, e);
  }

  lemma RecordParses(c: JsonCodec, prefix: string, p: Parsed, e: Emit)
    requires (e.Warmup? || e.Sample?) && Printable(c, e)
    ensures ParseLine(c, prefix, p, prefix + Print(c, e)) == Some(Apply(prefix, p, Out(e)))
  {
    hide Contains, IndexOf, Strip;
    var s, d := Print(c, e), c.dumps(e.record);
    assert (prefix + s)[|prefix|..] == s;
    assert s[0] == 'E' && s[|s| - 1] == '}';
    StripKeeps(s);
    if e.Sample? {
      assert SAMPLE <= s && s[|SAMPLE|..] == d;
    } else {
      assert WARMUP <= s && s[|WARMUP|..] == d;
      assert SAMPLE[5] != WARMUP[5];
    }
  }

  lemma MarkParses(c: JsonCodec, prefix: string, p: Parsed, m: string)
    requires m in MARKERS
    ensures ParseLine(c, prefix, p, prefix + m) == Some(Apply(prefix, p, Out(Mark(m))))
  {
    hide Contains, IndexOf, Strip;
    assert (prefix + m)[|prefix|..] == m;
    MarkerFacts(m);
    StripKeeps(m);
    NoEqualsSign(m);
  }

  lemma MarkerFacts(m: string)
    requires m in MARKERS
    ensures m != "" && m[0] == 'E' && !IsSpace(m[|m| - 1]) && '=' !in m && !(SAMPLE <= m) && !(WARMUP <= m)
  {
    assert SAMPLE[11] == ' ' && WARMUP[11] == ' ';
    if m == WARMUP_BEGIN {
      assert m[11] == '_';
    } else if m == WARMUP_END {
      assert m[11] == '_';
    } else if m == MEASUREMENT_BEGIN {
      assert m[11] == 'E';
    } else if m == MEASUREMENT_END {
      assert m[11] == 'E';
    } else {
      assert m == WORKER_COMPLETE && m[11] == '_';
    }
  }

  lemma NoiseParses(c: JsonCodec, prefix: string, p: Parsed, raw: string)
    requires Legit(c, prefix, Noise(raw))
    ensures ParseLine(c, prefix, p, raw) == Some(Apply(prefix, p, Noise(raw)))
  {
    hide Contains, IndexOf, Strip;
    if prefix <= raw {
      var s := Strip(raw[|prefix|..]);
      assert "EXP5_" <= SAMPLE && "EXP5_" <= WARMUP;
      assert SAMPLE <= s ==> "EXP5_" <= s;
      assert WARMUP <= s ==> "EXP5_" <= s;
      if s in MARKERS { MarkersAreTagged(s); }
    }
  }

  lemma MarkersAreTagged(m: string)
    requires m in MARKERS
    ensures "EXP5_" <= m
  {
  }

  /** Printing a line and parsing it has exactly the meant effect. */
  lemma LineParses(c: JsonCodec, prefix: string, p: Parsed, line: Line)
    requires Legit(c, prefix, line)
    ensures ParseLine(c, prefix, p, Raw(c, prefix, line)) == Some(Apply(prefix, p, line))
  {
    hide ParseLine, Apply;
    match line
    case Noise(raw) => NoiseParses(c, prefix, p, raw);
    case Out(e) =>
      match e
      case Tag(_, _) => TagParses(c, prefix, p, e);
      case Warmup(_) => RecordParses(c, prefix, p, e);
      case Sample(_) => RecordParses(c, prefix, p, e);
      case Mark(m) => MarkParses(c, prefix, p, m);
  }

  // ------------------------------------------------------------------------ reading a stream

  function Raws(c: JsonCodec, prefix: string, lines: seq<Line>): (r: seq<string>)
    ensures |r| == |lines|
  {
    seq(|lines|, i requires 0 <= i < |lines| => Raw(c, prefix, lines[i]))
  }

  predicate AllLegit(c: JsonCodec, prefix: string, lines: seq<Line>) {
    forall i | 0 <= i < |lines| :: Legit(c, prefix, lines[i])
  }

  function Replay(prefix: string, lines: seq<Line>): Parsed {
    if lines == [] then EMPTY else Apply(prefix, Replay(prefix, lines[..|lines| - 1]), lines[|lines| - 1])
  }

  lemma {:induction false} StreamParses(c: JsonCodec, prefix: string, lines: seq<Line>)
    requires AllLegit(c, prefix, lines)
    ensures ParseLines(c, prefix, Raws(c, prefix, lines)) == Some(Replay(prefix, lines))
  {
    hide ParseLine, Apply, Raw, Legit;
    if lines != [] {
      var n := |lines| - 1;
      StreamParses(c, prefix, lines[..n]);
      assert Raws(c, prefix, lines)[..n] == Raws(c, prefix, lines[..n]);
      LineParses(c, prefix, Replay(prefix, lines[..n]), lines[n]);
    }
  }

  /** What the worker printed, without the noise. */
  function Emitted(lines: seq<Line>): seq<Emit> {
    if lines == [] then [] else
    var rest, last := Emitted(lines[..|lines| - 1]), lines[|lines| - 1];
    if last.Out? then rest + [last.e] else rest
  }

  /** The emissions of one kind, in order. */
  function Pick<T>(es: seq<Emit>, f: Emit -> Option<T>): seq<T> {
    if es == [] then [] else Own(es[0], f) + Pick(es[1..], f)
  }

  function Own<T>(e: Emit, f: Emit -> Option<T>): seq<T> {
    if f(e).Some? then [f(e).value] else []
  }

  lemma PickStep<T>(es: seq<Emit>, f: Emit -> Option<T>)
    ensures Pick<T>([], f) == []
    ensures es != [] ==> Pick(es, f) == Own(es[0], f) + Pick(es[1..], f)
  {
  }

  lemma ConcatIsAssociative<T>(a: seq<T>, b: seq<T>, c: seq<T>)
    ensures a + b + c == a + (b + c)
  {
  }

  lemma {:induction false} PickConcat<T>(xs: seq<Emit>, ys: seq<Emit>, f: Emit -> Option<T>)
    ensures Pick(xs + ys, f) == Pick(xs, f) + Pick(ys, f)
  {
    hide Pick, Own;
    PickStep(xs, f);
    if xs == [] {
      assert xs + ys == ys && [] + Pick(ys, f) == Pick(ys, f);
    } else {
      PickConcat(xs[1..], ys, f);
      PickStep(xs + ys, f);
      assert (xs + ys)[0] == xs[0] && (xs + ys)[1..] == xs[1..] + ys;
      ConcatIsAssociative(Own(xs[0], f), Pick(xs[1..], f), Pick(ys, f));
    }
  }

  lemma PickOne<T>(xs: seq<Emit>, e: Emit, f: Emit -> Option<T>)
    ensures Pick(xs + [e], f) == Pick(xs, f) + if f(e).Some? then [f(e).value] else []
  {
    PickConcat(xs, [e], f);
    assert [e][1..] == [];
  }

  const SampleOf: Emit -> Option<Json> := (e: Emit) => if e.Sample? then Some(e.record) else None
  const WarmupOf: Emit -> Option<Json> := (e: Emit) => if e.Warmup? then Some(e.record) else None
  const MarkerOf: Emit -> Option<string> := (e: Emit) => if e.Mark? then Some(e.marker) else None
  const FailureOf: Emit -> Option<Json> :=
    (e: Emit) => if e.Tag? && e.name == "EXP5_WORKLOAD_FAILURE" then Some(e.payload) else None

  /** The last payload printed under each tag that is kept. */
  function LastPayloads(es: seq<Emit>): map<string, Json> {
    if es == [] then map[] else
    var rest, e := LastPayloads(es[..|es| - 1]), es[|es| - 1];
    if e.Tag? && e.name != "EXP5_GPU_MEMORY" && e.name != "EXP5_WORKLOAD_FAILURE" then rest[e.name := e.payload]
    else rest
  }

  lemma EmptyPicks()
    ensures Pick([], SampleOf) == [] && Pick([], WarmupOf) == [] && Pick([], MarkerOf) == []
              && Pick([], FailureOf) == []
  {
  }

  /** Whatever noise is interleaved, the tags, warmups, samples, markers and failures read back are
      exactly those printed. */
  lemma {:induction false} EmissionReadsBack(prefix: string, lines: seq<Line>)
    ensures var p, es := Replay(prefix, lines), Emitted(lines);
            && p.tags == LastPayloads(es) && p.samples == Pick(es, SampleOf) && p.warmups == Pick(es, WarmupOf)
            && p.markers == Pick(es, MarkerOf) && p.failures == Pick(es, FailureOf)
  {
    hide Contains, Body, EndsWith, Pick;
    EmptyPicks();
    if lines != [] {
      var n := |lines| - 1;
      EmissionReadsBack(prefix, lines[..n]);
      if lines[n].Out? {
        var es, e := Emitted(lines[..n]), lines[n].e;
        assert (es + [e])[..|es|] == es;
        PickOne(es, e, SampleOf);
        PickOne(es, e, WarmupOf);
        PickOne(es, e, MarkerOf);
        PickOne(es, e, FailureOf);
      }
    }
  }
}
