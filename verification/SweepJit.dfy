/** Just-in-time compilation during measurement, read off the lines themselves. */
module SweepJit {
  import opened Wrappers
  import opened Json
  import opened SweepParser
  import opened SweepVerifier
  import opened SweepEmission
  import opened SweepRun

  predicate EndsPhase(b: Option<string>) {
    b == Some(WARMUP_END) || b == Some(MEASUREMENT_END)
  }

  /** The last phase marker before line i is the start of the measurement. */
  predicate InMeasurement(prefix: string, lines: seq<string>, i: nat)
    requires i <= |lines|
  {
    exists b | 0 <= b < i :: StartsAt(prefix, lines, b, i)
  }

  predicate StartsAt(prefix: string, lines: seq<string>, b: nat, i: nat)
    requires b < i <= |lines|
  {
    && Body(prefix, lines[b]) == Some(MEASUREMENT_BEGIN)
    && forall e | b < e < i :: !EndsPhase(Body(prefix, lines[e]))
  }

  /** Free text of the cell: neither a payload line nor a marker. */
  predicate FreeText(s: string) {
    !(SAMPLE <= s) && !(WARMUP <= s) && !("EXP5_" <= s && Contains(s, "={")) && s !in MARKERS
  }

  predicate JitText(b: Option<string>) {
    b.Some? && FreeText(b.value) && Contains(b.value, JIT)
  }

  lemma LastLineMeasurement(prefix: string, lines: seq<string>)
    requires |lines| > 0
    ensures var n := |lines| - 1;
            InMeasurement(prefix, lines, |lines|) <==>
              || Body(prefix, lines[n]) == Some(MEASUREMENT_BEGIN)
              || (InMeasurement(prefix, lines[..n], n) && !EndsPhase(Body(prefix, lines[n])))
  {
    hide Body, EndsPhase;
    var n := |lines| - 1;
    if InMeasurement(prefix, lines, |lines|) {
      var b :| 0 <= b < |lines| && StartsAt(prefix, lines, b, |lines|);
      if b < n { assert StartsAt(prefix, lines[..n], b, n); }
    }
    if Body(prefix, lines[n]) == Some(MEASUREMENT_BEGIN) { assert StartsAt(prefix, lines, n, |lines|); }
    if InMeasurement(prefix, lines[..n], n) && !EndsPhase(Body(prefix, lines[n])) {
      var b :| 0 <= b < n && StartsAt(prefix, lines[..n], b, n);
      assert StartsAt(prefix, lines, b, |lines|);
    }
  }

  lemma EarlierMeasurement(prefix: string, lines: seq<string>, n: nat, i: nat)
    requires i <= n <= |lines|
    ensures InMeasurement(prefix, lines[..n], i) <==> InMeasurement(prefix, lines, i)
  {
    hide Body, EndsPhase;
    if InMeasurement(prefix, lines[..n], i) {
      var b :| 0 <= b < i && StartsAt(prefix, lines[..n], b, i);
      assert StartsAt(prefix, lines, b, i);
    }
    if InMeasurement(prefix, lines, i) {
      var b :| 0 <= b < i && StartsAt(prefix, lines, b, i);
      assert StartsAt(prefix, lines[..n], b, i);
    }
  }

  lemma MarkerPhases(s: string)
    requires s in MARKERS
    ensures EndsWith(s, "_END") <==> s == WARMUP_END || s == MEASUREMENT_END
    ensures !("EXP5_" <= s && Contains(s, "={")) && !(SAMPLE <= s) && !(WARMUP <= s)
  {
    hide Contains;
    MarkerFacts(s);
    NoEqualsSign(s);
    assert "_END"[2] == 'N' && "_END"[0] == '_';
    if s == WARMUP_BEGIN {
      assert s[|s| - 2] == 'I';
    } else if s == MEASUREMENT_BEGIN {
      assert s[|s| - 2] == 'I';
    } else if s == WORKER_COMPLETE {
      assert s[|s| - 2] == 'T';
    } else if s == WARMUP_END {
      assert s[|s| - 4..] == "_END";
    } else {
      assert s[|s| - 4..] == "_END";
    }
  }

  /** How one line moves the phase and the count. */
  lemma LinePhase(c: JsonCodec, prefix: string, p: Parsed, raw: string)
    requires ParseLine(c, prefix, p, raw).Some?
    ensures var q, b := ParseLine(c, prefix, p, raw).value, Body(prefix, raw);
            && (q.measuring <==> b == Some(MEASUREMENT_BEGIN) || (p.measuring && !EndsPhase(b)))
            && q.jit == p.jit + if p.measuring && JitText(b) then 1 else 0
  {
    hide Contains, IndexOf, Strip, EndsWith;
    if prefix <= raw {
      var s := Strip(raw[|prefix|..]);
      if s in MARKERS { MarkerPhases(s); }
      assert MEASUREMENT_BEGIN in MARKERS && WARMUP_END in MARKERS && MEASUREMENT_END in MARKERS;
    }
  }

  /** The parser counts exactly the JIT lines that fall into the measurement. */
  lemma {:induction false} JitCountMeans(c: JsonCodec, prefix: string, lines: seq<string>)
    requires ParseLines(c, prefix, lines).Some?
    ensures var p := ParseLines(c, prefix, lines).value;
            && (p.measuring <==> InMeasurement(prefix, lines, |lines|))
            && (p.jit > 0 <==> exists i | 0 <= i < |lines| ::
                 InMeasurement(prefix, lines, i) && JitText(Body(prefix, lines[i])))
  {
    hide Body, JitText, ParseLine, EndsPhase, InMeasurement;
    if lines == [] {
      assert !InMeasurement(prefix, lines, 0) by { NothingMeasured(prefix, lines); }
    } else {
      var n := |lines| - 1;
      JitCountMeans(c, prefix, lines[..n]);
      LinePhase(c, prefix, ParseLines(c, prefix, lines[..n]).value, lines[n]);
      LastLineMeasurement(prefix, lines);
      forall i | 0 <= i <= n ensures InMeasurement(prefix, lines[..n], i) <==> InMeasurement(prefix, lines, i) {
        EarlierMeasurement(prefix, lines, n, i);
      }
    }
  }

  lemma NothingMeasured(prefix: string, lines: seq<string>)
    ensures !InMeasurement(prefix, lines, 0)
  {
  }

  /** An accepted cell printed no JIT line between the measurement markers. */
  lemma AcceptedHasNoJit(c: JsonCodec, plan: seq<Cell>, runs: seq<CellRun>, k: nat, i: nat)
    requires k < |plan| == |runs| && Accepted(c, plan, runs, k) && i < |runs[k].lines|
    ensures var prefix, lines := LegPrefix(k + 1, plan[k]), runs[k].lines;
            !(InMeasurement(prefix, lines, i) && JitText(Body(prefix, lines[i])))
  {
    hide InMeasurement, JitText, Body, ParseLines, LegPrefix;
    AcceptedAgrees(c, plan, runs, k);
    JitCountMeans(c, LegPrefix(k + 1, plan[k]), runs[k].lines);
  }
}
