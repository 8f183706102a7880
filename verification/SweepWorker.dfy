/** The worker process of one cell, from its first line to its exit code, and the sweep's verdict on it. */
module SweepWorker {
  import opened Wrappers
  import opened Json
  import opened SweepParser
  import opened SweepVerifier
  import opened SweepEmission
  import opened SweepJit

  /** One engine request: its record, or the failure report of the exception it raised. */
  datatype Request = Done(record: Json) | Failed(failure: Json)

  /** The records printed before the first request. */
  datatype Header = Header(
    leg: Json, rabitMarkers: Json, stage3c: Json, requested: Json, effective: Json, kvDtype: Json, capacity: Json,
    gpuInit: Json, workload: Json, gpuAfter: Json)

  const FAILURE := "EXP5_WORKLOAD_FAILURE"

  function HeaderEmits(h: Header): seq<Emit> {
    [Tag("EXP5_LEG", h.leg), Tag("EXP5_RABIT_MARKERS", h.rabitMarkers), Tag("EXP5_STAGE3C", h.stage3c),
     Tag(REQUESTED, h.requested), Tag(EFFECTIVE, h.effective), Tag(KV_DTYPE, h.kvDtype), Tag(CAPACITY, h.capacity),
     Tag("EXP5_GPU_MEMORY", h.gpuInit), Tag(WORKLOAD, h.workload)]
  }

  /** Records of the requests before the first failure. */
  function Served(rs: seq<Request>): seq<Json> {
    if rs == [] || rs[0].Failed? then [] else [rs[0].record] + Served(rs[1..])
  }

  function FirstFailure(rs: seq<Request>): Option<Json> {
    if rs == [] then None else if rs[0].Failed? then Some(rs[0].failure) else FirstFailure(rs[1..])
  }

  function Warmups(js: seq<Json>): seq<Emit> {
    seq(|js|, i requires 0 <= i < |js| => Warmup(js[i]))
  }

  function Samples(js: seq<Json>): seq<Emit> {
    seq(|js|, i requires 0 <= i < |js| => Sample(js[i]))
  }

  datatype Exit = Exit(emits: seq<Emit>, code: int)

  /** Exit code of an uncaught exception. */
  const CRASH_EXIT: int := 1
  const HEADER_LINES: nat := 9

  /** Where an exception outside the requests ends the worker, if any does: after n lines of the
      header, or in the memory query after the measurement. */
  datatype Fate = Lives | DiesAfter(n: nat) | LastQueryFails

  predicate Possible(fate: Fate) {
    fate.DiesAfter? ==> fate.n < HEADER_LINES
  }

  /** Everything a worker prints, and its exit code. */
  function Worker(h: Header, fate: Fate, warm: seq<Request>, reps: seq<Request>): Exit
    requires Possible(fate)
  {
    if fate.DiesAfter? then Exit(HeaderEmits(h)[..fate.n], CRASH_EXIT) else
    var head := HeaderEmits(h) + [Mark(WARMUP_BEGIN)] + Warmups(Served(warm));
    if FirstFailure(warm).Some? then Exit(head + [Tag(FAILURE, FirstFailure(warm).value)], WORKLOAD_FAILURE_EXIT)
    else
      var body := head + [Mark(WARMUP_END), Mark(MEASUREMENT_BEGIN)] + Samples(Served(reps));
      if FirstFailure(reps).Some? then Exit(body + [Tag(FAILURE, FirstFailure(reps).value)], WORKLOAD_FAILURE_EXIT)
      else if fate.LastQueryFails? then Exit(body + [Mark(MEASUREMENT_END)], CRASH_EXIT)
      else Exit(body + [Mark(MEASUREMENT_END), Tag("EXP5_GPU_MEMORY", h.gpuAfter), Mark(WORKER_COMPLETE)], 0)
  }

  lemma {:induction false} ServedUpTo(rs: seq<Request>, n: nat)
    requires n < |rs| && forall i | 0 <= i < n :: rs[i].Done?
    ensures Served(rs[..n + 1]) == Served(rs[..n]) + if rs[n].Done? then [rs[n].record] else []
    ensures FirstFailure(rs[..n]).None?
    ensures rs[n].Failed? ==> Served(rs) == Served(rs[..n]) && FirstFailure(rs) == Some(rs[n].failure)
    decreases n
  {
    if n > 0 {
      ServedUpTo(rs[1..], n - 1);
      assert rs[..n + 1][1..] == rs[1..][..n] && rs[..n][1..] == rs[1..][..n - 1];
    }
  }

  /** One phase of requests; it ends at the first exception. */
  method Serve(rs: seq<Request>, warmup: bool) returns (out: seq<Emit>, failure: Option<Json>)
    ensures out == if warmup then Warmups(Served(rs)) else Samples(Served(rs))
    ensures failure == FirstFailure(rs)
  {
    out := [];
    for i := 0 to |rs|
      invariant forall k | 0 <= k < i :: rs[k].Done?
      invariant out == if warmup then Warmups(Served(rs[..i])) else Samples(Served(rs[..i]))
    {
      ServedUpTo(rs, i);
      if rs[i].Failed? { return out, Some(rs[i].failure); }
      out := out + [if warmup then Warmup(rs[i].record) else Sample(rs[i].record)];
    }
    assert rs[..|rs|] == rs;
    if |rs| > 0 { ServedUpTo(rs, |rs| - 1); }
    AllServed(rs);
    return out, None;
  }

  /** Without a failure every request is served. */
  lemma {:induction false} AllServed(rs: seq<Request>)
    ensures FirstFailure(rs).None? <==> forall i | 0 <= i < |rs| :: rs[i].Done?
    ensures FirstFailure(rs).None? ==> |Served(rs)| == |rs|
  {
    if rs != [] {
      AllServed(rs[1..]);
      assert rs == [rs[0]] + rs[1..];
    }
  }

  method WorkerMain(h: Header, fate: Fate, warm: seq<Request>, reps: seq<Request>) returns (x: Exit)
    requires Possible(fate)
    ensures x == Worker(h, fate, warm, reps)
  {
    hide Served, FirstFailure, Warmups, Samples;
    if fate.DiesAfter? { return Exit(HeaderEmits(h)[..fate.n], CRASH_EXIT); }
    var out := HeaderEmits(h) + [Mark(WARMUP_BEGIN)];
    var printed, failure := Serve(warm, true);
    out := out + printed;
    if failure.None? {
      out := out + [Mark(WARMUP_END), Mark(MEASUREMENT_BEGIN)];
      printed, failure := Serve(reps, false);
      out := out + printed;
    }
    if failure.Some? { return Exit(out + [Tag(FAILURE, failure.value)], WORKLOAD_FAILURE_EXIT); }
    out := out + [Mark(MEASUREMENT_END)];
    if fate.LastQueryFails? { return Exit(out, CRASH_EXIT); }
    assert out + [Tag("EXP5_GPU_MEMORY", h.gpuAfter), Mark(WORKER_COMPLETE)]
        == out[..|out| - 1] + [Mark(MEASUREMENT_END), Tag("EXP5_GPU_MEMORY", h.gpuAfter), Mark(WORKER_COMPLETE)];
    return Exit(out + [Tag("EXP5_GPU_MEMORY", h.gpuAfter), Mark(WORKER_COMPLETE)], 0);
  }

  // -------------------------------------------------------------------- what is read back

  function HeaderTags(h: Header): map<string, Json> {
    map["EXP5_LEG" := h.leg, "EXP5_RABIT_MARKERS" := h.rabitMarkers, "EXP5_STAGE3C" := h.stage3c,
        REQUESTED := h.requested, EFFECTIVE := h.effective, KV_DTYPE := h.kvDtype, CAPACITY := h.capacity,
        WORKLOAD := h.workload]
  }

  predicate Untagged(e: Emit) {
    !e.Tag? || e.name == "EXP5_GPU_MEMORY" || e.name == FAILURE
  }

  lemma {:induction false} UntaggedTail(xs: seq<Emit>, ys: seq<Emit>)
    requires forall i | 0 <= i < |ys| :: Untagged(ys[i])
    ensures LastPayloads(xs + ys) == LastPayloads(xs)
    decreases |ys|
  {
    if ys == [] {
      assert xs + ys == xs;
    } else {
      var n := |ys| - 1;
      UntaggedTail(xs, ys[..n]);
      assert (xs + ys)[..|xs + ys| - 1] == xs + ys[..n] && (xs + ys)[|xs + ys| - 1] == ys[n];
    }
  }

  lemma HeaderReadsBack(h: Header)
    ensures LastPayloads(HeaderEmits(h)) == HeaderTags(h)
  {
    hide LastPayloads;
    var e := HeaderEmits(h);
    HeaderFront(h);
    HeaderStep(e, 5); HeaderStep(e, 6); HeaderStep(e, 7); HeaderStep(e, 8);
    assert e[..9] == e;
  }

  lemma HeaderFront(h: Header)
    ensures LastPayloads(HeaderEmits(h)[..5]) ==
            map["EXP5_LEG" := h.leg, "EXP5_RABIT_MARKERS" := h.rabitMarkers, "EXP5_STAGE3C" := h.stage3c,
                REQUESTED := h.requested, EFFECTIVE := h.effective]
  {
    hide LastPayloads;
    var e := HeaderEmits(h);
    assert LastPayloads(e[..0]) == map[] by { NoPayloads(); }
    HeaderStep(e, 0); HeaderStep(e, 1); HeaderStep(e, 2); HeaderStep(e, 3); HeaderStep(e, 4);
  }

  /** The header is printed in this order. */
  lemma HeaderOrder(h: Header, i: nat)
    requires i < 9
    ensures |HeaderEmits(h)| == 9 && HeaderEmits(h)[i].Tag?
    ensures HeaderEmits(h)[i].name ==
              ["EXP5_LEG", "EXP5_RABIT_MARKERS", "EXP5_STAGE3C", "EXP5_REQUESTED_ENGINE_KWARGS",
               "EXP5_EFFECTIVE_ENGINE_CONFIG", "EXP5_KV_DTYPE", "EXP5_CAPACITY", "EXP5_GPU_MEMORY", "EXP5_WORKLOAD"][i]
  {
  }

  lemma NoPayloads()
    ensures LastPayloads([]) == map[]
  {
  }

  lemma HeaderStep(e: seq<Emit>, n: nat)
    requires n < |e|
    ensures LastPayloads(e[..n + 1]) == if Untagged(e[n]) then LastPayloads(e[..n])
              else LastPayloads(e[..n])[e[n].name := e[n].payload]
  {
    assert e[..n + 1][..n] == e[..n] && e[..n + 1][n] == e[n];
  }

  lemma {:induction false} PickNothing<T>(xs: seq<Emit>, f: Emit -> Option<T>)
    requires forall i | 0 <= i < |xs| :: f(xs[i]).None?
    ensures Pick(xs, f) == []
  {
    if xs != [] { PickNothing(xs[1..], f); }
  }

  lemma {:induction false} PickWarmups(js: seq<Json>)
    ensures Pick(Warmups(js), WarmupOf) == js
  {
    if js != [] {
      PickWarmups(js[1..]);
      assert Warmups(js)[1..] == Warmups(js[1..]);
    }
  }

  lemma {:induction false} PickSamples(js: seq<Json>)
    ensures Pick(Samples(js), SampleOf) == js
  {
    if js != [] {
      PickSamples(js[1..]);
      assert Samples(js)[1..] == Samples(js[1..]);
    }
  }

  /** Header, marks, warmups, marks, samples, end: the parts a printed stream is made of. */
  function Parts(h: Header, m: seq<Emit>, ws: seq<Json>, n: seq<Emit>, ss: seq<Json>, end: seq<Emit>): seq<Emit> {
    HeaderEmits(h) + m + Warmups(ws) + n + Samples(ss) + end
  }

  lemma PickParts<T>(h: Header, m: seq<Emit>, ws: seq<Json>, n: seq<Emit>, ss: seq<Json>, end: seq<Emit>,
                     f: Emit -> Option<T>)
    ensures Pick(Parts(h, m, ws, n, ss, end), f)
         == Pick(HeaderEmits(h), f) + Pick(m, f) + Pick(Warmups(ws), f) + Pick(n, f) + Pick(Samples(ss), f)
             + Pick(end, f)
  {
    hide Pick, HeaderEmits, Warmups, Samples;
    var a, w, b := HeaderEmits(h), Warmups(ws), Samples(ss);
    PickConcat(a, m, f);
    PickConcat(a + m, w, f);
    PickConcat(a + m + w, n, f);
    PickConcat(a + m + w + n, b, f);
    PickConcat(a + m + w + n + b, end, f);
  }

  /** Only marks and the final report, no records. */
  predicate Plain(xs: seq<Emit>) {
    forall i | 0 <= i < |xs| :: !xs[i].Warmup? && !xs[i].Sample? && Untagged(xs[i])
  }

  lemma HeaderPicksNothing(h: Header)
    ensures Pick(HeaderEmits(h), SampleOf) == [] && Pick(HeaderEmits(h), WarmupOf) == []
    ensures Pick(HeaderEmits(h), MarkerOf) == [] && Pick(HeaderEmits(h), FailureOf) == []
  {
    var e := HeaderEmits(h);
    assert forall i | 0 <= i < |e| :: e[i].Tag? && e[i].name != FAILURE;
    PickNothing(e, SampleOf);
    PickNothing(e, WarmupOf);
    PickNothing(e, MarkerOf);
    PickNothing(e, FailureOf);
  }

  lemma PartsReadBack(h: Header, m: seq<Emit>, ws: seq<Json>, n: seq<Emit>, ss: seq<Json>, end: seq<Emit>)
    requires Plain(m) && Plain(n) && Plain(end)
    ensures var es := Parts(h, m, ws, n, ss, end);
            && LastPayloads(es) == HeaderTags(h) && Pick(es, WarmupOf) == ws && Pick(es, SampleOf) == ss
            && Pick(es, MarkerOf) == Pick(m, MarkerOf) + Pick(n, MarkerOf) + Pick(end, MarkerOf)
            && Pick(es, FailureOf) == Pick(m, FailureOf) + Pick(n, FailureOf) + Pick(end, FailureOf)
  {
    hide Pick, HeaderEmits, HeaderTags, LastPayloads;
    HeaderReadsBack(h);
    HeaderPicksNothing(h);
    var w, b := Warmups(ws), Samples(ss);
    PickParts(h, m, ws, n, ss, end, SampleOf);
    PickParts(h, m, ws, n, ss, end, WarmupOf);
    PickParts(h, m, ws, n, ss, end, MarkerOf);
    PickParts(h, m, ws, n, ss, end, FailureOf);
    PickWarmups(ws);
    PickSamples(ss);
    PickNothing(m, SampleOf); PickNothing(n, SampleOf); PickNothing(end, SampleOf); PickNothing(w, SampleOf);
    PickNothing(m, WarmupOf); PickNothing(n, WarmupOf); PickNothing(end, WarmupOf); PickNothing(b, WarmupOf);
    PickNothing(w, MarkerOf); PickNothing(b, MarkerOf); PickNothing(w, FailureOf); PickNothing(b, FailureOf);
    PartsTail(h, m, ws, n, ss, end);
  }

  lemma PartsTail(h: Header, m: seq<Emit>, ws: seq<Json>, n: seq<Emit>, ss: seq<Json>, end: seq<Emit>)
    requires Plain(m) && Plain(n) && Plain(end)
    ensures LastPayloads(Parts(h, m, ws, n, ss, end)) == LastPayloads(HeaderEmits(h))
  {
    hide LastPayloads, HeaderEmits;
    var a, w, b := HeaderEmits(h), Warmups(ws), Samples(ss);
    UntaggedTail(a, m);
    UntaggedTail(a + m, w);
    UntaggedTail(a + m + w, n);
    UntaggedTail(a + m + w + n, b);
    UntaggedTail(a + m + w + n + b, end);
  }

  // ------------------------------------------------------------------------------ verdicts

  /** The failure report of a run, if a request failed. */
  function Report(warm: seq<Request>, reps: seq<Request>): Option<Json> {
    if FirstFailure(warm).Some? then FirstFailure(warm) else FirstFailure(reps)
  }

  /** Markers a run gets to print. */
  function Reached(fate: Fate, warm: seq<Request>, reps: seq<Request>): seq<string> {
    if FirstFailure(warm).Some? then MARKERS[..1] else if FirstFailure(reps).Some? then MARKERS[..3]
    else if fate.LastQueryFails? then MARKERS[..4] else MARKERS
  }

  /** What a worker that gets past its header means to report. */
  function Reported(h: Header, fate: Fate, warm: seq<Request>, reps: seq<Request>, jit: nat, measuring: bool): Parsed {
    Parsed(HeaderTags(h), if FirstFailure(warm).Some? then [] else Served(reps), Served(warm),
           Reached(fate, warm, reps), jit,
           if Report(warm, reps).Some? then [Report(warm, reps).value] else [], measuring)
  }

  /** What follows the samples of a run without failure. */
  function Closing(h: Header, fate: Fate): seq<Emit> {
    if fate.LastQueryFails? then [Mark(MEASUREMENT_END)]
    else [Mark(MEASUREMENT_END), Tag("EXP5_GPU_MEMORY", h.gpuAfter), Mark(WORKER_COMPLETE)]
  }

  lemma WorkerParts(h: Header, fate: Fate, warm: seq<Request>, reps: seq<Request>)
    requires !fate.DiesAfter?
    ensures var es, ws, ss := Worker(h, fate, warm, reps).emits, Served(warm), Served(reps);
            var m, n := [Mark(WARMUP_BEGIN)], [Mark(WARMUP_END), Mark(MEASUREMENT_BEGIN)];
            && (FirstFailure(warm).Some? ==> es == Parts(h, m, ws, [], [], [Tag(FAILURE, FirstFailure(warm).value)]))
            && (FirstFailure(warm).None? && FirstFailure(reps).Some? ==>
                  es == Parts(h, m, ws, n, ss, [Tag(FAILURE, FirstFailure(reps).value)]))
            && (Report(warm, reps).None? ==> es == Parts(h, m, ws, n, ss, Closing(h, fate)))
  {
    hide HeaderEmits, Served, FirstFailure;
    var head := HeaderEmits(h) + [Mark(WARMUP_BEGIN)] + Warmups(Served(warm));
    assert Samples([]) == [] && head + [] == head && head + [] + Samples([]) == head;
  }

  /** A printed stream, whatever noise surrounds it, is read back as exactly what was reported. */
  lemma WorkerReadsBack(c: JsonCodec, prefix: string, lines: seq<Line>, h: Header, fate: Fate, warm: seq<Request>,
                        reps: seq<Request>)
    requires !fate.DiesAfter? && AllLegit(c, prefix, lines) && Emitted(lines) == Worker(h, fate, warm, reps).emits
    ensures var p := ParseLines(c, prefix, Raws(c, prefix, lines));
            p.Some? && p.value == Reported(h, fate, warm, reps, p.value.jit, p.value.measuring)
  {
    hide HeaderEmits, HeaderTags, Served, FirstFailure, Pick, Worker, Parts, ParseLines, Replay, AllLegit, LastPayloads;
    StreamParses(c, prefix, lines);
    EmissionReadsBack(prefix, lines);
    WorkerParts(h, fate, warm, reps);
    SmallPicks();
    var ws, ss, m, n := Served(warm), Served(reps), [Mark(WARMUP_BEGIN)], [Mark(WARMUP_END), Mark(MEASUREMENT_BEGIN)];
    if FirstFailure(warm).Some? {
      var f := FirstFailure(warm).value;
      ReportPicks(f);
      PartsReadBack(h, m, ws, [], [], [Tag(FAILURE, f)]);
    } else if FirstFailure(reps).Some? {
      var f := FirstFailure(reps).value;
      ReportPicks(f);
      PartsReadBack(h, m, ws, n, ss, [Tag(FAILURE, f)]);
    } else {
      ClosingPicks(h, fate);
      PartsReadBack(h, m, ws, n, ss, Closing(h, fate));
    }
  }

  lemma SmallPicks()
    ensures Pick([], MarkerOf) == [] && Pick([], FailureOf) == []
    ensures var m := [Mark(WARMUP_BEGIN)];
            Pick(m, MarkerOf) == [WARMUP_BEGIN] && Pick(m, FailureOf) == []
    ensures var n := [Mark(WARMUP_END), Mark(MEASUREMENT_BEGIN)];
            Pick(n, MarkerOf) == [WARMUP_END, MEASUREMENT_BEGIN] && Pick(n, FailureOf) == []
  {
    PickOne([], Mark(WARMUP_BEGIN), MarkerOf);
    PickNothing([Mark(WARMUP_BEGIN)], FailureOf);
    PickOne([], Mark(WARMUP_END), MarkerOf);
    PickOne([Mark(WARMUP_END)], Mark(MEASUREMENT_BEGIN), MarkerOf);
    PickNothing([Mark(WARMUP_END), Mark(MEASUREMENT_BEGIN)], FailureOf);
    assert [] + [Mark(WARMUP_BEGIN)] == [Mark(WARMUP_BEGIN)] && [] + [Mark(WARMUP_END)] == [Mark(WARMUP_END)];
    assert [Mark(WARMUP_END)] + [Mark(MEASUREMENT_BEGIN)] == [Mark(WARMUP_END), Mark(MEASUREMENT_BEGIN)];
  }

  lemma ReportPicks(f: Json)
    ensures Pick([Tag(FAILURE, f)], MarkerOf) == [] && Pick([Tag(FAILURE, f)], FailureOf) == [f]
  {
    PickNothing([Tag(FAILURE, f)], MarkerOf);
    PickOne([], Tag(FAILURE, f), FailureOf);
    assert [] + [Tag(FAILURE, f)] == [Tag(FAILURE, f)];
  }

  lemma ClosingPicks(h: Header, fate: Fate)
    ensures var end := Closing(h, fate);
            && Pick(end, MarkerOf) == (if fate.LastQueryFails? then [MEASUREMENT_END]
                 else [MEASUREMENT_END, WORKER_COMPLETE])
            && Pick(end, FailureOf) == []
  {
    hide Pick;
    var a, b, d := Mark(MEASUREMENT_END), Tag("EXP5_GPU_MEMORY", h.gpuAfter), Mark(WORKER_COMPLETE);
    PickNothing([], MarkerOf);
    PickOne([], a, MarkerOf);
    PickOne([a], b, MarkerOf);
    PickOne([a, b], d, MarkerOf);
    assert [] + [a] == [a] && [a] + [b] == [a, b] && [a, b] + [d] == [a, b, d];
    PickNothing(Closing(h, fate), FailureOf);
  }

  lemma ReasonsIgnorePhase(p: Parsed, b: bool, cell: Cell, ref: Reference)
    requires Complete(p) && Readable(p)
    ensures Complete(p.(measuring := b)) && Readable(p.(measuring := b))
    ensures Reasons(p.(measuring := b), cell, ref) == Reasons(p, cell, ref)
  {
    hide If, FixedProtocol, WorkloadMatches, Stage3cMatches, RecordReasons, Norm, Truthy, Differs, PyEq;
  }

  /** The captured lines contain no JIT text between the measurement markers. */
  predicate QuietMeasurement(prefix: string, raws: seq<string>) {
    forall i | 0 <= i < |raws| :: !(InMeasurement(prefix, raws, i) && JitText(Body(prefix, raws[i])))
  }

  /** What the sweep concludes about a worker whose records follow the plan and fit the reference state:
      accepted if it completed; otherwise the sweep goes on only for a continuable failure of a measured,
      cleanly reaped cell. */
  lemma WorkerVerdict(c: JsonCodec, prefix: string, lines: seq<Line>, h: Header, fate: Fate, warm: seq<Request>,
                      reps: seq<Request>, cell: Cell, m: Meta, ref: Reference)
    requires !fate.DiesAfter? && AllLegit(c, prefix, lines) && Emitted(lines) == Worker(h, fate, warm, reps).emits
    requires m.returncode == Worker(h, fate, warm, reps).code && |warm| == cell.warmups && |reps| == WantReps(cell)
    requires QuietMeasurement(prefix, Raws(c, prefix, lines))
    requires Report(warm, reps).Some? ==> Report(warm, reps).value.Obj?
    requires var q := Reported(h, fate, warm, reps, 0, false);
             Complete(q) && Readable(q) && FollowsPlan(q, cell) && FitsReference(q, cell, ref)
    ensures var v, f := Judge(ParseLines(c, prefix, Raws(c, prefix, lines)), cell, m, ref), Report(warm, reps);
            v == if f.None? && fate.Lives? then Ok
                 else if f.Some? && Get(f.value, "kind") in CONTINUABLE && cell.role == "measured" && Reaped(m)
                     then WorkloadFailure(f.value)
                 else Stop([FailureReason(cell, m)])
  {
    hide Reasons, Complete, FollowsPlan, FitsReference, HeaderTags, ParseLines, Raws, AllLegit, InMeasurement,
         JitText, Body, HeaderEmits, EnvReadable;
    WorkerReadsBack(c, prefix, lines, h, fate, warm, reps);
    var raws := Raws(c, prefix, lines);
    JitCountMeans(c, prefix, raws);
    var p, q := ParseLines(c, prefix, raws).value, Reported(h, fate, warm, reps, 0, false);
    assert p == q.(measuring := p.measuring);
    NoReasonsMeans(q, cell, ref);
    PlanReadsEnv(q, cell);
    ReasonsIgnorePhase(q, p.measuring, cell, ref);
    if Report(warm, reps).None? {
      AllServed(warm);
      AllServed(reps);
    }
  }

  lemma {:induction false} NoPayloadUnder(es: seq<Emit>, name: string)
    requires forall i | 0 <= i < |es| :: !(es[i].Tag? && es[i].name == name)
    ensures name !in LastPayloads(es)
  {
    if es != [] { NoPayloadUnder(es[..|es| - 1], name); }
  }

  /** A header cut short never reaches the workload record. */
  lemma CutHeader(h: Header, n: nat)
    requires n < HEADER_LINES
    ensures WORKLOAD !in LastPayloads(HeaderEmits(h)[..n])
  {
    hide LastPayloads;
    var e := HeaderEmits(h);
    WorkloadIsLast(h);
    NoPayloadUnder(e[..n], WORKLOAD);
  }

  lemma WorkloadIsLast(h: Header)
    ensures forall i | 0 <= i < HEADER_LINES - 1 :: HeaderEmits(h)[i].Tag? && HeaderEmits(h)[i].name != WORKLOAD
  {
    assert WORKLOAD[5] == 'W' && "EXP5_LEG"[5] == 'L' && "EXP5_RABIT_MARKERS"[5] == 'R' && "EXP5_STAGE3C"[5] == 'S';
    assert REQUESTED[5] == 'R' && EFFECTIVE[5] == 'E' && KV_DTYPE[5] == 'K' && CAPACITY[5] == 'C'
        && "EXP5_GPU_MEMORY"[5] == 'G';
  }

  /** A worker that dies outside its requests always stops the sweep, before the first request as an
      engine initialization failure. */
  lemma DyingWorkerStops(c: JsonCodec, prefix: string, lines: seq<Line>, h: Header, fate: Fate, warm: seq<Request>,
                         reps: seq<Request>, cell: Cell, m: Meta, ref: Reference)
    requires Possible(fate) && AllLegit(c, prefix, lines) && Emitted(lines) == Worker(h, fate, warm, reps).emits
    requires m.returncode == Worker(h, fate, warm, reps).code == CRASH_EXIT
    ensures var v := Judge(ParseLines(c, prefix, Raws(c, prefix, lines)), cell, m, ref);
            && (v.Stop? || v.Raised?)
            && (fate.DiesAfter? ==> v.Stop? && Initialization in v.reasons)
  {
    hide Reasons, Readable, ParseLines, Raws, AllLegit, HeaderEmits, LastPayloads, Replay, EnvReadable, PyEq, Pick;
    if fate.DiesAfter? {
      StreamParses(c, prefix, lines);
      EmissionReadsBack(prefix, lines);
      CutHeader(h, fate.n);
      assert WORKLOAD in NEED;
    }
  }

  // ------------------------------------------------------------------------ a planned cell

  /** What the engine and its surroundings contribute to the header of a cell. */
  datatype Engine = Engine(
    impl: string, queryBlock: int, effective: Json, cacheDtype: string, promptSha: string)

  /** The records a worker prints for a cell of the plan, as far as the sweep looks into them. */
  predicate IsHeaderOf(h: Header, cell: Cell, e: Engine) {
    && h.effective == e.effective
    && IsLegOf(h.leg, cell) && IsStage3cOf(h.stage3c, cell, e) && IsWorkloadOf(h.workload, cell, e)
    && h.requested.Obj? && Get(h.requested, "kv_cache_dtype") == Str(cell.dtype)
    && h.kvDtype.Obj? && Get(h.kvDtype, "requested_kv_cache_dtype") == Str(cell.dtype)
    && Get(h.kvDtype, "engine_cache_dtype") == Str(e.cacheDtype)
  }

  predicate IsLegOf(leg: Json, cell: Cell) {
    && leg.Obj? && leg.fields.Keys == {"leg", "kv_cache_dtype", "role", "context_point", "prompt_tokens"}
    && leg.fields["leg"] == Str(cell.name) && leg.fields["kv_cache_dtype"] == Str(cell.dtype)
    && leg.fields["role"] == Str(cell.role) && leg.fields["context_point"] == Num(cell.context as real)
    && leg.fields["prompt_tokens"] == Num(cell.prompt as real)
  }

  /** For a dtype without a selection the environment variables are removed and read back as null. */
  predicate IsStage3cOf(s3: Json, cell: Cell, e: Engine) {
    && s3.Obj? && "applicable" in s3.fields
    && if cell.dtype == "rabit_kv2" then
         && s3.fields["applicable"] == Bool(true)
         && Get(s3, "requested_impl") == Str(cell.impl) && Get(s3, "effective_impl") == Str(e.impl)
         && Get(s3, "requested_query_block") == Num(cell.queryBlock as real)
         && Get(s3, "effective_query_block") == Num(e.queryBlock as real)
       else
         && s3.fields["applicable"] == Bool(false)
         && Get(s3, "env").Obj? && forall v | v in Get(s3, "env").fields.Values :: v == Null
  }

  predicate IsWorkloadOf(wl: Json, cell: Cell, e: Engine) {
    && wl.Obj? && Get(wl, "role") == Str(cell.role) && Get(wl, "context_point") == Num(cell.context as real)
    && Get(wl, "prompt_tokens") == Num(cell.prompt as real) && Get(wl, "output_tokens") == Num(32.0)
    && Get(wl, "warmups") == Num(cell.warmups as real)
    && Get(wl, "reps") == Num(if cell.role == "conditioning" then 0.0 else cell.reps as real)
    && Get(wl, "temperature") == Num(0.0) && Get(wl, "ignore_eos") == Bool(true) && Get(wl, "max_tokens") == Num(32.0)
    && Get(wl, "prompt_token_ids_sha256") == Str(e.promptSha)
  }

  /** The engine runs the fixed protocol with the cache dtype and selection asked for. */
  predicate Obeys(e: Engine, cell: Cell) {
    && e.effective.Obj? && FixedProtocol(e.effective) && e.cacheDtype == cell.dtype
    && (cell.dtype == "rabit_kv2" ==> e.impl == cell.impl && e.queryBlock == cell.queryBlock)
  }

  /** A request of the planned prompt that produced 32 tokens and, where one is expected, the expected output. */
  predicate IsPlanned(r: Json, cell: Cell, e: Engine) {
    && r.Obj? && Get(r, "prompt_tokens") == Num(cell.prompt as real) && Get(r, "output_tokens") == Num(32.0)
    && Get(r, "prompt_token_ids_sha256") == Str(e.promptSha)
    && (cell.expectedSha != "" ==> Get(r, "output_token_ids_sha256") == Str(cell.expectedSha))
  }

  lemma TagNamesDiffer()
    ensures var n := ["EXP5_LEG", "EXP5_RABIT_MARKERS", "EXP5_STAGE3C", REQUESTED, EFFECTIVE, KV_DTYPE, CAPACITY,
                      WORKLOAD];
            forall i, j | 0 <= i < j < |n| :: n[i] != n[j]
  {
    var n := ["EXP5_LEG", "EXP5_RABIT_MARKERS", "EXP5_STAGE3C", REQUESTED, EFFECTIVE, KV_DTYPE, CAPACITY, WORKLOAD];
    assert n[0][5] == 'L' && n[1][5] == 'R' && n[1][6] == 'A' && n[2][5] == 'S' && n[3][5] == 'R' && n[3][6] == 'E';
    assert n[4][5] == 'E' && n[5][5] == 'K' && n[6][5] == 'C' && n[7][5] == 'W';
  }

  /** Every header record is found under its own name. */
  lemma TagsOfHeader(h: Header)
    ensures var t := HeaderTags(h);
            && "EXP5_LEG" in t && t["EXP5_LEG"] == h.leg && "EXP5_STAGE3C" in t && t["EXP5_STAGE3C"] == h.stage3c
            && REQUESTED in t && t[REQUESTED] == h.requested && EFFECTIVE in t && t[EFFECTIVE] == h.effective
            && KV_DTYPE in t && t[KV_DTYPE] == h.kvDtype && CAPACITY in t && t[CAPACITY] == h.capacity
            && WORKLOAD in t && t[WORKLOAD] == h.workload
  {
    TagNamesDiffer();
    var n := ["EXP5_LEG", "EXP5_RABIT_MARKERS", "EXP5_STAGE3C", REQUESTED, EFFECTIVE, KV_DTYPE, CAPACITY, WORKLOAD];
    assert n[0] != n[1] && n[0] != n[2] && n[0] != n[3] && n[0] != n[4] && n[0] != n[5] && n[0] != n[6] && n[0] != n[7];
    assert n[2] != n[3] && n[2] != n[4] && n[2] != n[5] && n[2] != n[6] && n[2] != n[7];
    assert n[3] != n[4] && n[3] != n[5] && n[3] != n[6] && n[3] != n[7] && n[4] != n[5] && n[4] != n[6] && n[4] != n[7];
    assert n[5] != n[6] && n[5] != n[7] && n[6] != n[7];
  }

  lemma PyEqReflexive(j: Json)
    ensures PyEq(j, j)
  {
  }

  lemma PlannedLeg(leg: Json, cell: Cell)
    requires IsLegOf(leg, cell)
    ensures PyEq(leg, Leg(cell))
  {
    hide PyEq;
    LegMeans(leg, cell);
    PyEqReflexive(Num(cell.context as real));
    PyEqReflexive(Num(cell.prompt as real));
  }

  lemma PlannedWorkload(wl: Json, cell: Cell, e: Engine)
    requires IsWorkloadOf(wl, cell, e)
    ensures WorkloadMatches(wl, cell)
  {
    hide PyEq, WorkloadMatches;
    WorkloadMeans(wl, cell);
    PyEqReflexive(Num(cell.context as real));
    PyEqReflexive(Num(cell.prompt as real));
    PyEqReflexive(Num(cell.warmups as real));
    PyEqReflexive(Num(if cell.role == "conditioning" then 0.0 else cell.reps as real));
  }

  lemma PlannedStage3c(s3: Json, cell: Cell, e: Engine)
    requires IsStage3cOf(s3, cell, e) && Obeys(e, cell)
    ensures Truthy(s3) && Stage3cMatches(s3, cell)
  {
    hide PyEq, Stage3cMatches, FixedProtocol;
    Stage3cMeans(s3, cell);
    PyEqReflexive(Num(cell.queryBlock as real));
  }

  lemma PlannedRequest(r: Json, cell: Cell, e: Engine)
    requires IsPlanned(r, cell, e)
    ensures r.Obj? && RequestMatches(r, cell, Str(e.promptSha))
    ensures cell.expectedSha != "" ==> PyEq(Get(r, "output_token_ids_sha256"), Str(cell.expectedSha))
  {
    hide PyEq;
    PyEqReflexive(Num(cell.prompt as real));
    PyEqReflexive(Num(32.0));
    PyEqReflexive(Str(e.promptSha));
    PyEqReflexive(Str(cell.expectedSha));
  }

  /** A worker that does as planned follows the plan, whatever the cell. */
  lemma PlannedFollowsPlan(h: Header, cell: Cell, e: Engine, p: Parsed)
    requires IsHeaderOf(h, cell, e) && Obeys(e, cell) && p.tags == HeaderTags(h) && p.jit == 0
    requires forall r | r in p.warmups + p.samples :: IsPlanned(r, cell, e)
    ensures Complete(p) && Readable(p) && FollowsPlan(p, cell)
  {
    hide FixedProtocol, PyEq, Leg, WorkloadMatches, Stage3cMatches, HeaderTags, RequestMatches, Truthy, IsPlanned,
         Complete, IsLegOf, IsStage3cOf;
    CompleteMeans(p);
    TagsOfHeader(h);
    PlannedLeg(h.leg, cell);
    PlannedWorkload(h.workload, cell, e);
    PlannedStage3c(h.stage3c, cell, e);
    PyEqReflexive(Str(cell.dtype));
    assert h.stage3c.Obj? by { Stage3cIsObject(h.stage3c, cell, e); }
    forall r | r in p.warmups + p.samples
      ensures r.Obj? && RequestMatches(r, cell, Str(e.promptSha))
      ensures cell.expectedSha != "" ==> PyEq(Get(r, "output_token_ids_sha256"), Str(cell.expectedSha))
    {
      PlannedRequest(r, cell, e);
    }
  }

  lemma Stage3cIsObject(s3: Json, cell: Cell, e: Engine)
    requires IsStage3cOf(s3, cell, e)
    ensures s3.Obj?
  {
  }

  /** A planned cell that completes with a quiet measurement is accepted, whatever noise surrounds its output. */
  lemma PlannedCellIsAccepted(c: JsonCodec, prefix: string, lines: seq<Line>, h: Header, e: Engine, warm: seq<Request>,
                              reps: seq<Request>, cell: Cell, m: Meta, ref: Reference)
    requires AllLegit(c, prefix, lines) && Emitted(lines) == Worker(h, Lives, warm, reps).emits && m.returncode == 0
    requires IsHeaderOf(h, cell, e) && Obeys(e, cell) && QuietMeasurement(prefix, Raws(c, prefix, lines))
    requires FirstFailure(warm).None? && FirstFailure(reps).None?
    requires |warm| == cell.warmups && |reps| == if cell.role == "conditioning" then 0 else cell.reps
    requires forall r | r in Served(warm) + Served(reps) :: IsPlanned(r, cell, e)
    requires var q := Reported(h, Lives, warm, reps, 0, false);
             Complete(q) && Readable(q) && FitsReference(q, cell, ref)
    ensures Judge(ParseLines(c, prefix, Raws(c, prefix, lines)), cell, m, ref) == Ok
  {
    hide Judge, ParseLines, Raws, Emitted, AllLegit, IsHeaderOf, Obeys, QuietMeasurement, FitsReference, FollowsPlan,
         HeaderTags, IsPlanned, Readable, Complete, HeaderEmits;
    PlannedFollowsPlan(h, cell, e, Reported(h, Lives, warm, reps, 0, false));
    WorkerVerdict(c, prefix, lines, h, Lives, warm, reps, cell, m, ref);
  }
}
