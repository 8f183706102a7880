/** _run_cells: the whole sweep, and what holds over every run of it. */
module SweepRun {
  import opened Wrappers
  import opened Json
  import opened SweepParser
  import opened SweepVerifier

  function Decimal(n: nat): string {
    var digit := [('0' as int + n % 10) as char];
    if n < 10 then digit else Decimal(n / 10) + digit
  }

  /** The line prefix of the k-th cell, counted from 1. */
  function LegPrefix(k: nat, cell: Cell): string {
    "[leg" + Decimal(k) + ":" + cell.dtype + "] "
  }

  /** What the surroundings of one cell did: clean checks, process record, output. */
  datatype CellRun = CellRun(cleanBefore: bool, meta: Meta, lines: seq<string>, cleanAfter: bool)

  datatype State = Running(ref: Reference, failed: seq<string>) | Stopped

  function Output(c: JsonCodec, plan: seq<Cell>, runs: seq<CellRun>, k: nat): Option<Parsed>
    requires k < |plan| == |runs|
  {
    ParseLines(c, LegPrefix(k + 1, plan[k]), runs[k].lines)
  }

  /** The watchdog neither timed out nor left processes behind. */
  predicate Guarded(m: Meta) {
    !m.timedOut && m.remaining == []
  }

  /** Cell k of a sweep that stands at `ref`, `failed`. */
  function Next(c: JsonCodec, plan: seq<Cell>, runs: seq<CellRun>, k: nat, ref: Reference, failed: seq<string>): State
    requires k < |plan| == |runs|
  {
    var cell, run := plan[k], runs[k];
    if !run.cleanBefore || !Guarded(run.meta) then Stopped else
    var v := Judge(Output(c, plan, runs, k), cell, run.meta, ref);
    match v
    case Ok => Running(Carried(Output(c, plan, runs, k), cell, ref), failed)
    case WorkloadFailure(_) => if run.cleanAfter then Running(ref, failed + [cell.name]) else Stopped
    case _ => Stopped
  }

  /** The sweep after its first n cells. */
  function Sweep(c: JsonCodec, plan: seq<Cell>, runs: seq<CellRun>, n: nat): State
    requires n <= |plan| == |runs|
  {
    if n == 0 then Running(NO_REFERENCE, []) else
    match Sweep(c, plan, runs, n - 1)
    case Stopped => Stopped
    case Running(ref, failed) => Next(c, plan, runs, n - 1, ref, failed)
  }

  lemma {:induction false} StoppedStays(c: JsonCodec, plan: seq<Cell>, runs: seq<CellRun>, m: nat, n: nat)
    requires m <= n <= |plan| == |runs| && Sweep(c, plan, runs, m).Stopped?
    ensures Sweep(c, plan, runs, n).Stopped?
    decreases n
  {
    hide Next;
    if m < n { StoppedStays(c, plan, runs, m, n - 1); }
  }

  /** Returns the failed cells, or None where the source raises. */
  method RunCells(c: JsonCodec, plan: seq<Cell>, runs: seq<CellRun>) returns (r: Option<seq<string>>)
    requires |plan| == |runs|
    ensures var s := Sweep(c, plan, runs, |plan|);
            r == if s.Running? then Some(s.failed) else None
  {
    hide Judge, Carried, LegPrefix;
    var ref := new SweepReference();
    var failed := [];
    for k := 0 to |plan|
      invariant Sweep(c, plan, runs, k) == Running(ref.current, failed)
      invariant fresh(ref)
    {
      var cell, run := plan[k], runs[k];
      var ok := run.cleanBefore && Guarded(run.meta);
      if ok {
        var v := ref.VerifyCell(c, run.lines, LegPrefix(k + 1, cell), cell, run.meta);
        ok := v == Ok || (v.WorkloadFailure? && run.cleanAfter);
        if ok && v.WorkloadFailure? { failed := failed + [cell.name]; }
      }
      if !ok {
        StoppedStays(c, plan, runs, k + 1, |plan|);
        return None;
      }
    }
    return Some(failed);
  }

  // ------------------------------------------------------------------------ accepted cells

  /** Cell k was accepted in the run. */
  predicate Accepted(c: JsonCodec, plan: seq<Cell>, runs: seq<CellRun>, k: nat)
    requires k < |plan| == |runs|
  {
    var s := Sweep(c, plan, runs, k);
    && s.Running? && runs[k].cleanBefore && Guarded(runs[k].meta)
    && Judge(Output(c, plan, runs, k), plan[k], runs[k].meta, s.ref) == Ok
  }

  /** Cell k failed at workload level and the sweep went on. */
  predicate PassedOver(c: JsonCodec, plan: seq<Cell>, runs: seq<CellRun>, k: nat)
    requires k < |plan| == |runs|
  {
    var s := Sweep(c, plan, runs, k);
    && s.Running? && runs[k].cleanBefore && Guarded(runs[k].meta) && runs[k].cleanAfter
    && Judge(Output(c, plan, runs, k), plan[k], runs[k].meta, s.ref).WorkloadFailure?
  }

  /** The parse result of an accepted cell. */
  function Claims(c: JsonCodec, plan: seq<Cell>, runs: seq<CellRun>, k: nat): (p: Parsed)
    requires k < |plan| == |runs| && Accepted(c, plan, runs, k)
    ensures Complete(p) && Readable(p)
  {
    Output(c, plan, runs, k).value
  }

  /** The reference state agrees with what a cell claims. */
  predicate Agrees(ref: Reference, p: Parsed, cell: Cell)
    requires Complete(p) && Readable(p)
  {
    && ref.requested.Some? && PyEq(ref.requested.value, Requested(p))
    && ref.effective.Some? && PyEq(ref.effective.value, p.tags[EFFECTIVE])
    && cell.dtype in ref.kv && PyEq(ref.kv[cell.dtype], p.tags[KV_DTYPE])
    && cell.dtype in ref.capacity && PyEq(ref.capacity[cell.dtype], p.tags[CAPACITY])
    && cell.context in ref.promptHash && PyEq(ref.promptHash[cell.context], PromptHash(p))
  }

  /** `later` keeps everything `ref` has fixed. */
  predicate Keeps(ref: Reference, later: Reference) {
    && (ref.requested.Some? ==> later.requested == ref.requested)
    && (ref.effective.Some? ==> later.effective == ref.effective)
    && (forall d | d in ref.kv :: d in later.kv && later.kv[d] == ref.kv[d])
    && (forall d | d in ref.capacity :: d in later.capacity && later.capacity[d] == ref.capacity[d])
    && (forall x | x in ref.promptHash :: x in later.promptHash && later.promptHash[x] == ref.promptHash[x])
  }

  lemma AcceptedAgrees(c: JsonCodec, plan: seq<Cell>, runs: seq<CellRun>, k: nat)
    requires k < |plan| == |runs| && Accepted(c, plan, runs, k)
    ensures var s, p := Sweep(c, plan, runs, k), Claims(c, plan, runs, k);
            var later := Extended(s.ref, p, plan[k]);
            && Sweep(c, plan, runs, k + 1) == Running(later, s.failed)
            && Agrees(later, p, plan[k]) && Keeps(s.ref, later) && FollowsPlan(p, plan[k])
  {
    hide Reasons, Norm, Finished, Requested, PromptHash, Readable, Complete, ParseLines, FollowsPlan;
    var s := Sweep(c, plan, runs, k);
    NoReasonsMeans(Claims(c, plan, runs, k), plan[k], s.ref);
  }

  lemma KeepsChain(a: Reference, b: Reference, d: Reference)
    requires Keeps(a, b) && Keeps(b, d)
    ensures Keeps(a, d)
  {
  }

  /** Cell k either leaves the reference state as it is or, when accepted, only adds to it. */
  lemma CellKeepsReference(c: JsonCodec, plan: seq<Cell>, runs: seq<CellRun>, k: nat)
    requires k < |plan| == |runs| && Sweep(c, plan, runs, k + 1).Running?
    ensures var s, t := Sweep(c, plan, runs, k), Sweep(c, plan, runs, k + 1);
            s.Running? && Keeps(s.ref, t.ref) && (!Accepted(c, plan, runs, k) ==> s.ref == t.ref)
  {
    hide Judge, Carried, Output, Extended;
    if Accepted(c, plan, runs, k) { AcceptedAgrees(c, plan, runs, k); }
  }

  /** The reference state is write-once, and only accepted cells write it. */
  lemma {:induction false} ReferenceIsWriteOnce(c: JsonCodec, plan: seq<Cell>, runs: seq<CellRun>, m: nat, n: nat)
    requires m <= n <= |plan| == |runs| && Sweep(c, plan, runs, n).Running?
    ensures Sweep(c, plan, runs, m).Running?
    ensures Keeps(Sweep(c, plan, runs, m).ref, Sweep(c, plan, runs, n).ref)
    ensures (forall k | m <= k < n :: !Accepted(c, plan, runs, k)) ==>
              Sweep(c, plan, runs, m).ref == Sweep(c, plan, runs, n).ref
    decreases n
  {
    hide Sweep, Keeps, Accepted;
    if m < n {
      CellKeepsReference(c, plan, runs, n - 1);
      ReferenceIsWriteOnce(c, plan, runs, m, n - 1);
      KeepsChain(Sweep(c, plan, runs, m).ref, Sweep(c, plan, runs, n - 1).ref, Sweep(c, plan, runs, n).ref);
    } else {
      KeepsItself(Sweep(c, plan, runs, m).ref);
    }
  }

  lemma KeepsItself(a: Reference)
    ensures Keeps(a, a)
  {
  }

  lemma AgreesStays(ref: Reference, later: Reference, p: Parsed, cell: Cell)
    requires Complete(p) && Readable(p) && Agrees(ref, p, cell) && Keeps(ref, later)
    ensures Agrees(later, p, cell)
  {
    hide Requested, PromptHash, Norm, Readable, Complete;
  }

  /** Two cells claim the same, as far as their dtype and context make them comparable. */
  predicate SameConfiguration(p: Parsed, x: Cell, q: Parsed, y: Cell)
    requires Complete(p) && Readable(p) && Complete(q) && Readable(q)
  {
    && PyEq(Requested(p), Requested(q)) && PyEq(p.tags[EFFECTIVE], q.tags[EFFECTIVE])
    && (x.dtype == y.dtype ==> PyEq(p.tags[KV_DTYPE], q.tags[KV_DTYPE]) && PyEq(p.tags[CAPACITY], q.tags[CAPACITY]))
    && (x.context == y.context ==> PyEq(PromptHash(p), PromptHash(q)))
  }

  lemma AgreementIsTransitive(ref: Reference, p: Parsed, x: Cell, q: Parsed, y: Cell)
    requires Complete(p) && Readable(p) && Complete(q) && Readable(q) && Agrees(ref, p, x) && Agrees(ref, q, y)
    ensures SameConfiguration(p, x, q, y)
  {
    hide Requested, PromptHash, Norm, Readable, Complete;
  }

  /** Any two accepted cells of any run ran the same configuration. */
  lemma AcceptedCellsAgree(c: JsonCodec, plan: seq<Cell>, runs: seq<CellRun>, i: nat, j: nat)
    requires i < j < |plan| == |runs| && Accepted(c, plan, runs, i) && Accepted(c, plan, runs, j)
    ensures SameConfiguration(Claims(c, plan, runs, i), plan[i], Claims(c, plan, runs, j), plan[j])
  {
    hide SameConfiguration, Agrees, Readable, Complete, Keeps, Accepted, Extended, Sweep, Claims, FollowsPlan;
    AcceptedAgrees(c, plan, runs, i);
    AcceptedAgrees(c, plan, runs, j);
    ReferenceIsWriteOnce(c, plan, runs, i + 1, j + 1);
    var p, later := Claims(c, plan, runs, i), Sweep(c, plan, runs, j + 1).ref;
    AgreesStays(Sweep(c, plan, runs, i + 1).ref, later, p, plan[i]);
    AgreementIsTransitive(later, p, plan[i], Claims(c, plan, runs, j), plan[j]);
  }

  // --------------------------------------------------------------------- normal termination

  /** What lets the sweep continue past a failed cell. */
  predicate Continuable(c: JsonCodec, plan: seq<Cell>, runs: seq<CellRun>, k: nat)
    requires k < |plan| == |runs|
  {
    var p, m := Output(c, plan, runs, k), runs[k].meta;
    && plan[k].role == "measured" && m.returncode == WORKLOAD_FAILURE_EXIT && Reaped(m)
    && runs[k].cleanBefore && runs[k].cleanAfter
    && p.Some? && |p.value.failures| == 1 && p.value.failures[0].Obj?
    && Get(p.value.failures[0], "kind") in CONTINUABLE
  }

  lemma PassedOverIsContinuable(c: JsonCodec, plan: seq<Cell>, runs: seq<CellRun>, k: nat)
    requires k < |plan| == |runs| && PassedOver(c, plan, runs, k)
    ensures Continuable(c, plan, runs, k) && !Accepted(c, plan, runs, k)
  {
    hide Reasons, ParseLines, Readable;
  }

  /** Names of the cells passed over, in plan order. */
  function PassedOverNames(c: JsonCodec, plan: seq<Cell>, runs: seq<CellRun>, n: nat): seq<string>
    requires n <= |plan| == |runs|
  {
    if n == 0 then [] else
    PassedOverNames(c, plan, runs, n - 1) + if PassedOver(c, plan, runs, n - 1) then [plan[n - 1].name] else []
  }

  /** The sweep is still running exactly when every cell was accepted or passed over, and its list is
      exactly the cells passed over. */
  lemma {:induction false} RunningMeans(c: JsonCodec, plan: seq<Cell>, runs: seq<CellRun>, n: nat)
    requires n <= |plan| == |runs|
    ensures Sweep(c, plan, runs, n).Running? <==>
              forall k | 0 <= k < n :: Accepted(c, plan, runs, k) || PassedOver(c, plan, runs, k)
    ensures Sweep(c, plan, runs, n).Running? ==> Sweep(c, plan, runs, n).failed == PassedOverNames(c, plan, runs, n)
  {
    hide Accepted, PassedOver, Next;
    if n > 0 {
      RunningMeans(c, plan, runs, n - 1);
      NextMeans(c, plan, runs, n - 1);
    }
  }

  lemma NextMeans(c: JsonCodec, plan: seq<Cell>, runs: seq<CellRun>, k: nat)
    requires k < |plan| == |runs|
    ensures var s, t := Sweep(c, plan, runs, k), Sweep(c, plan, runs, k + 1);
            && (t.Running? <==> s.Running? && (Accepted(c, plan, runs, k) || PassedOver(c, plan, runs, k)))
            && (t.Running? ==> t.failed == s.failed + if PassedOver(c, plan, runs, k) then [plan[k].name] else [])
  {
    hide Judge, Carried, Output;
  }

  lemma {:induction false} NamesAreMeasured(c: JsonCodec, plan: seq<Cell>, runs: seq<CellRun>, n: nat, x: string)
    requires n <= |plan| == |runs| && x in PassedOverNames(c, plan, runs, n)
    ensures exists k | 0 <= k < n :: plan[k].name == x && Continuable(c, plan, runs, k)
  {
    hide PassedOver, Continuable;
    if PassedOver(c, plan, runs, n - 1) && x == plan[n - 1].name {
      PassedOverIsContinuable(c, plan, runs, n - 1);
    } else {
      NamesAreMeasured(c, plan, runs, n - 1, x);
    }
  }

  /** Every cell of a sweep that returns was accepted or continuable, never both; the failed list
      names continuable, hence measured, cells only. */
  lemma SweepReturns(c: JsonCodec, plan: seq<Cell>, runs: seq<CellRun>)
    requires |plan| == |runs| && Sweep(c, plan, runs, |plan|).Running?
    ensures forall k | 0 <= k < |plan| :: Accepted(c, plan, runs, k) != Continuable(c, plan, runs, k)
    ensures Sweep(c, plan, runs, |plan|).failed == PassedOverNames(c, plan, runs, |plan|)
    ensures forall x | x in Sweep(c, plan, runs, |plan|).failed ::
              exists k | 0 <= k < |plan| :: plan[k].name == x && plan[k].role == "measured"
                  && Continuable(c, plan, runs, k)
  {
    hide Judge, Output, PassedOver;
    RunningMeans(c, plan, runs, |plan|);
    forall k | 0 <= k < |plan| ensures Accepted(c, plan, runs, k) != Continuable(c, plan, runs, k) {
      if PassedOver(c, plan, runs, k) {
        PassedOverIsContinuable(c, plan, runs, k);
      } else {
        AcceptedExitsZero(c, plan, runs, k);
      }
    }
    forall x | x in PassedOverNames(c, plan, runs, |plan|)
      ensures exists k | 0 <= k < |plan| ::
                plan[k].name == x && plan[k].role == "measured" && Continuable(c, plan, runs, k)
    {
      NamesAreMeasured(c, plan, runs, |plan|, x);
    }
  }

  lemma AcceptedExitsZero(c: JsonCodec, plan: seq<Cell>, runs: seq<CellRun>, k: nat)
    requires k < |plan| == |runs| && Accepted(c, plan, runs, k)
    ensures runs[k].meta.returncode == 0 && !Continuable(c, plan, runs, k)
    ensures Finished(Claims(c, plan, runs, k), plan[k])
  {
    hide Reasons, ParseLines, Readable, Finished;
  }

  // ------------------------------------------------------------------- acceptance, literally

  /** An accepted cell started clean, neither timed out nor left processes, exited with 0 and printed the five
      markers in order, all planned warmups and samples and no failure. */
  lemma AcceptedMeans(c: JsonCodec, plan: seq<Cell>, runs: seq<CellRun>, k: nat)
    requires k < |plan| == |runs| && Accepted(c, plan, runs, k)
    ensures var m, p, cell := runs[k].meta, Claims(c, plan, runs, k), plan[k];
            && runs[k].cleanBefore && !m.timedOut && m.remaining == [] && m.returncode == 0
            && p.markers == ["EXP5_WARMUP_BEGIN", "EXP5_WARMUP_END", "EXP5_MEASUREMENT_BEGIN", "EXP5_MEASUREMENT_END",
                             "EXP5_WORKER_COMPLETE"]
            && |p.warmups| == cell.warmups && |p.samples| == (if cell.role == "conditioning" then 0 else cell.reps)
            && p.failures == []
  {
    hide Reasons, ParseLines, Readable;
  }

  /** A cell passed over was measured, exited with 75 after one report of a continuable kind, left no process behind
      at any time, and was followed by a clean state. */
  lemma PassedOverMeans(c: JsonCodec, plan: seq<Cell>, runs: seq<CellRun>, k: nat)
    requires k < |plan| == |runs| && PassedOver(c, plan, runs, k)
    ensures var m, p := runs[k].meta, Output(c, plan, runs, k);
            && plan[k].role == "measured" && m.returncode == 75 && runs[k].cleanBefore && runs[k].cleanAfter
            && !m.timedOut && m.afterLeaderExit == [] && m.remaining == []
            && p.Some? && |p.value.failures| == 1 && p.value.failures[0].Obj? && "kind" in p.value.failures[0].fields
            && p.value.failures[0].fields["kind"] in {Str("request_oom"), Str("request_execution_failure")}
  {
    hide Reasons, ParseLines, Readable;
  }

  /** No cell whose output holds a broken payload is accepted or passed over. */
  lemma BrokenOutputStops(c: JsonCodec, plan: seq<Cell>, runs: seq<CellRun>, k: nat, i: nat)
    requires k < |plan| == |runs| && i < |runs[k].lines| && Broken(c, LegPrefix(k + 1, plan[k]), runs[k].lines[i])
    ensures !Accepted(c, plan, runs, k) && !PassedOver(c, plan, runs, k) && Sweep(c, plan, runs, k + 1).Stopped?
  {
    hide Broken, ParseLines, LegPrefix;
    ParseFailsIff(c, LegPrefix(k + 1, plan[k]), runs[k].lines);
  }

  /** Accepted cells ran the same configuration, record by record: the same requested kwargs under every key but the
      KV dtype, the same effective settings; with the same dtype the same KV record and capacity, with the same context
      the same prompt. Payloads without booleans are identical. */
  lemma AcceptedRecordsAgree(c: JsonCodec, plan: seq<Cell>, runs: seq<CellRun>, i: nat, j: nat)
    requires i < j < |plan| == |runs| && Accepted(c, plan, runs, i) && Accepted(c, plan, runs, j)
    ensures var t, u := Claims(c, plan, runs, i).tags, Claims(c, plan, runs, j).tags;
            && SameBut(t["EXP5_REQUESTED_ENGINE_KWARGS"], u["EXP5_REQUESTED_ENGINE_KWARGS"], {"kv_cache_dtype"})
            && SameBut(t["EXP5_EFFECTIVE_ENGINE_CONFIG"], u["EXP5_EFFECTIVE_ENGINE_CONFIG"], {})
            && (plan[i].dtype == plan[j].dtype ==>
                  Same(t["EXP5_KV_DTYPE"], u["EXP5_KV_DTYPE"]) && Same(t["EXP5_CAPACITY"], u["EXP5_CAPACITY"]))
            && (plan[i].context == plan[j].context ==>
                  Same(Get(t["EXP5_WORKLOAD"], "prompt_token_ids_sha256"),
                       Get(u["EXP5_WORKLOAD"], "prompt_token_ids_sha256")))
  {
    hide PyEq, BoolFree, Accepted;
    AcceptedCellsAgree(c, plan, runs, i, j);
    var p, q := Claims(c, plan, runs, i), Claims(c, plan, runs, j);
    PyEqOfObjects(Requested(p), Requested(q));
    PyEqOfObjects(p.tags[EFFECTIVE], q.tags[EFFECTIVE]);
    SameFields(p.tags[REQUESTED], q.tags[REQUESTED], {"kv_cache_dtype"});
    SameFields(p.tags[EFFECTIVE], q.tags[EFFECTIVE], {});
    SameMeans(p.tags[KV_DTYPE], q.tags[KV_DTYPE]);
    SameMeans(p.tags[CAPACITY], q.tags[CAPACITY]);
    SameMeans(PromptHash(p), PromptHash(q));
  }

  /** Equal in Python, and identical unless booleans are involved. */
  predicate Same(a: Json, b: Json) {
    PyEq(a, b) && (BoolFree(a) && BoolFree(b) ==> a == b)
  }

  ghost predicate SameBut(a: Json, b: Json, keys: set<string>) {
    a.Obj? && b.Obj? && forall k | k !in keys && (k in a.fields || k in b.fields) ::
      k in a.fields && k in b.fields && Same(a.fields[k], b.fields[k])
  }

  lemma SameMeans(a: Json, b: Json)
    ensures PyEq(a, b) ==> Same(a, b)
  {
    hide PyEq, BoolFree;
    if BoolFree(a) && BoolFree(b) { PyEqIsEquality(a, b); }
  }

  lemma SameFields(a: Json, b: Json, keys: set<string>)
    requires a.Obj? && b.Obj? && (a.fields - keys).Keys == (b.fields - keys).Keys
    requires forall k | k in a.fields - keys :: PyEq(a.fields[k], b.fields[k])
    ensures SameBut(a, b, keys)
  {
    hide PyEq, BoolFree, Same;
    forall k | k !in keys && (k in a.fields || k in b.fields)
      ensures k in a.fields && k in b.fields && Same(a.fields[k], b.fields[k])
    {
      assert k in (a.fields - keys).Keys && k in (b.fields - keys).Keys;
      SameMeans(a.fields[k], b.fields[k]);
    }
  }

  // ------------------------------------------------------------------------------ prefixes

  /** The number a string of digits stands for. */
  function Undecimal(s: string): int {
    if s == "" then 0 else 10 * Undecimal(s[..|s| - 1]) + (s[|s| - 1] as int - '0' as int)
  }

  lemma {:induction false} DecimalReadsBack(n: nat)
    ensures Undecimal(Decimal(n)) == n && Decimal(n) != ""
    ensures forall i | 0 <= i < |Decimal(n)| :: '0' <= Decimal(n)[i] <= '9'
  {
    var s := Decimal(n);
    if n < 10 {
      assert s[..|s| - 1] == "";
    } else {
      DecimalReadsBack(n / 10);
      assert s[..|s| - 1] == Decimal(n / 10);
    }
  }

  /** No line carries the prefixes of two cells. */
  lemma PrefixesAreDistinct(j: nat, x: Cell, k: nat, y: Cell, raw: string)
    requires LegPrefix(j, x) <= raw && LegPrefix(k, y) <= raw
    ensures j == k
  {
    hide Decimal, Undecimal;
    DecimalReadsBack(j);
    DecimalReadsBack(k);
    var d, e := Decimal(j), Decimal(k);
    PrefixParts(j, x, raw);
    PrefixParts(k, y, raw);
    assert |d| == |e|;
    assert d == raw[4..4 + |d|] && e == raw[4..4 + |e|];
  }

  lemma PrefixParts(j: nat, x: Cell, raw: string)
    requires LegPrefix(j, x) <= raw
    ensures var d := Decimal(j); 4 + |d| < |raw| && raw[4..4 + |d|] == d && raw[4 + |d|] == ':'
    ensures forall i | 4 <= i < 4 + |Decimal(j)| :: raw[i] == Decimal(j)[i - 4]
  {
    hide Decimal;
    var d := Decimal(j);
    var p := LegPrefix(j, x);
    assert p == "[leg" + (d + (":" + (x.dtype + "] ")));
    assert p[4..] == d + (":" + (x.dtype + "] "));
    assert p[4 + |d|] == ':' && p[4..4 + |d|] == d;
    assert raw[..|p|] == p;
    assert raw[4..4 + |d|] == raw[..|p|][4..4 + |d|];
  }
}
