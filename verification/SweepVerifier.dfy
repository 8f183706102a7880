/** _verify_cell: the verdict on one finished cell, and the reference state it carries on. */
module SweepVerifier {
  import opened Wrappers
  import opened Json
  import opened SweepParser

  const OUTPUT_TOKENS: int := 32
  const WORKLOAD_FAILURE_EXIT: int := 75
  const CONTINUABLE := [Str("request_oom"), Str("request_execution_failure")]
  const REQUESTED := "EXP5_REQUESTED_ENGINE_KWARGS"
  const EFFECTIVE := "EXP5_EFFECTIVE_ENGINE_CONFIG"
  const KV_DTYPE := "EXP5_KV_DTYPE"
  const CAPACITY := "EXP5_CAPACITY"
  const WORKLOAD := "EXP5_WORKLOAD"
  const NEED := [REQUESTED, EFFECTIVE, KV_DTYPE, CAPACITY, WORKLOAD]

  datatype Cell = Cell(
    name: string, dtype: string, role: string, context: int, prompt: int, warmups: int, reps: int,
    impl: string, queryBlock: int, expectedSha: string)

  /** The watchdog's record of the worker process group. */
  datatype Meta = Meta(returncode: int, timedOut: bool, afterLeaderExit: seq<int>, remaining: seq<int>)

  /** What accepted cells have fixed so far. */
  datatype Reference = Reference(
    requested: Option<Json>, effective: Option<Json>,
    kv: map<string, Json>, capacity: map<string, Json>, promptHash: map<int, Json>)

  const NO_REFERENCE := Reference(None, None, map[], map[], map[])

  datatype Reason =
    | CellIdentity | RequestedDtype | RequestedDiffers | EffectiveDiffers | Protocol | KvDtype | KvDiffers
    | CapacityDiffers | WorkloadRecord | PromptHashDiffers | PromptTokens | OutputTokens | RequestHash
    | JitInMeasurement | Stage3cSelection | OutputHash
    | Unparseable | Initialization | Incomplete | Conditioning | NotReaped | WorkerFailure

  /** Raised stands for an exception on a payload that is not an object; it stops the sweep too. */
  datatype Verdict = Ok | WorkloadFailure(failure: Json) | Stop(reasons: seq<Reason>) | Raised

  // ------------------------------------------------------------------- what a cell claims

  function Without(j: Json, key: string): Json
    requires j.Obj?
  {
    Obj(j.fields - {key})
  }

  predicate Complete(p: Parsed) {
    forall x | x in NEED :: x in p.tags
  }

  /** The records the checks look into are objects. */
  predicate Readable(p: Parsed)
    requires Complete(p)
  {
    && p.tags[REQUESTED].Obj? && p.tags[EFFECTIVE].Obj? && p.tags[KV_DTYPE].Obj? && p.tags[WORKLOAD].Obj?
    && Stage3c(p).Obj? && (forall r | r in p.warmups + p.samples :: r.Obj?)
  }

  /** The environment of a Stage3C record is looked into only where no selection applies. */
  predicate EnvReadable(s3: Json, cell: Cell)
    requires s3.Obj?
  {
    cell.dtype != "rabit_kv2" && Get(s3, "applicable") == Bool(false) && "env" in s3.fields ==> s3.fields["env"].Obj?
  }

  function Stage3c(p: Parsed): Json {
    if "EXP5_STAGE3C" in p.tags && Truthy(p.tags["EXP5_STAGE3C"]) then p.tags["EXP5_STAGE3C"] else Obj(map[])
  }

  function Leg(cell: Cell): Json {
    Obj(map["leg" := Str(cell.name), "kv_cache_dtype" := Str(cell.dtype), "role" := Str(cell.role),
            "context_point" := Int(cell.context), "prompt_tokens" := Int(cell.prompt)])
  }

  /** Requested kwargs without the KV cache dtype. */
  function Requested(p: Parsed): Json
    requires Complete(p) && Readable(p)
  {
    Without(p.tags[REQUESTED], "kv_cache_dtype")
  }

  function PromptHash(p: Parsed): Json
    requires Complete(p) && Readable(p)
  {
    Get(p.tags[WORKLOAD], "prompt_token_ids_sha256")
  }

  function WantReps(cell: Cell): int {
    if cell.role == "conditioning" then 0 else cell.reps
  }

  // ------------------------------------------------------------------------------ checks

  predicate FixedProtocol(eff: Json)
    requires eff.Obj?
  {
    var backend := Get(eff, "attention_backend");
    && Get(eff, "compilation_mode") == Str("NONE") && Get(eff, "cudagraph_mode") == Str("NONE")
    && Get(eff, "enforce_eager") == Bool(true)
    && backend.Str? && EndsWith(backend.s, "TRITON_ATTN")
    && Get(eff, "calculate_kv_scales") == Bool(false)
    && Get(eff, "hf_quantization_config") == Null && Get(eff, "quantization") == Null
  }

  predicate WorkloadMatches(wl: Json, cell: Cell)
    requires wl.Obj?
  {
    && PyEq(Get(wl, "role"), Str(cell.role)) && PyEq(Get(wl, "context_point"), Int(cell.context))
    && PyEq(Get(wl, "prompt_tokens"), Int(cell.prompt)) && PyEq(Get(wl, "output_tokens"), Int(OUTPUT_TOKENS))
    && PyEq(Get(wl, "max_tokens"), Int(OUTPUT_TOKENS)) && PyEq(Get(wl, "temperature"), Num(0.0))
    && Get(wl, "ignore_eos") == Bool(true) && PyEq(Get(wl, "warmups"), Int(cell.warmups))
    && PyEq(Get(wl, "reps"), Int(WantReps(cell)))
  }

  function RecordReason(r: Json, cell: Cell, h: Json): Option<Reason>
    requires r.Obj?
  {
    if !PyEq(Get(r, "prompt_tokens"), Int(cell.prompt)) then Some(PromptTokens)
    else if !PyEq(Get(r, "output_tokens"), Int(OUTPUT_TOKENS)) then Some(OutputTokens)
    else if !PyEq(Get(r, "prompt_token_ids_sha256"), h) then Some(RequestHash)
    else None
  }

  /** The first request that deviates from the plan. */
  function RecordReasons(rs: seq<Json>, cell: Cell, h: Json): seq<Reason>
    requires forall r | r in rs :: r.Obj?
  {
    if rs == [] then [] else
    var x := RecordReason(rs[0], cell, h);
    if x.Some? then [x.value] else RecordReasons(rs[1..], cell, h)
  }

  predicate Stage3cMatches(s3: Json, cell: Cell)
    requires s3.Obj?
  {
    if cell.dtype == "rabit_kv2" then
      && Get(s3, "applicable") == Bool(true)
      && PyEq(Get(s3, "requested_impl"), Str(cell.impl)) && PyEq(Get(s3, "effective_impl"), Str(cell.impl))
      && PyEq(Get(s3, "requested_query_block"), Int(cell.queryBlock))
      && PyEq(Get(s3, "effective_query_block"), Int(cell.queryBlock))
    else
      && Get(s3, "applicable") == Bool(false)
      && ("env" in s3.fields ==>
            s3.fields["env"].Obj? && forall k | k in s3.fields["env"].fields :: !Truthy(s3.fields["env"].fields[k]))
  }

  function If(bad: bool, r: Reason): seq<Reason> {
    if bad then [r] else []
  }

  predicate Differs(earlier: Option<Json>, now: Json) {
    earlier.Some? && !PyEq(earlier.value, now)
  }

  function At<K(==)>(m: map<K, Json>, k: K): Option<Json> {
    if k in m then Some(m[k]) else None
  }

  /** The reasons that concern the configuration, in order. */
  function ConfigReasons(p: Parsed, cell: Cell, ref: Reference): seq<Reason>
    requires Complete(p) && Readable(p)
  {
    var t, dtype := p.tags, Str(cell.dtype);
    If(!("EXP5_LEG" in t && PyEq(t["EXP5_LEG"], Leg(cell))), CellIdentity)
    + If(!PyEq(Get(t[REQUESTED], "kv_cache_dtype"), dtype), RequestedDtype)
    + If(Differs(ref.requested, Requested(p)), RequestedDiffers)
    + If(Differs(ref.effective, t[EFFECTIVE]), EffectiveDiffers)
    + If(!FixedProtocol(t[EFFECTIVE]), Protocol)
    + If(!KvMatches(t[KV_DTYPE], cell), KvDtype)
    + If(Differs(At(ref.kv, cell.dtype), t[KV_DTYPE]), KvDiffers)
    + If(Differs(At(ref.capacity, cell.dtype), t[CAPACITY]), CapacityDiffers)
  }

  predicate KvMatches(kv: Json, cell: Cell)
    requires kv.Obj?
  {
    && PyEq(Get(kv, "requested_kv_cache_dtype"), Str(cell.dtype))
    && PyEq(Get(kv, "engine_cache_dtype"), Str(cell.dtype))
  }

  /** The reasons that concern the requests, in order. */
  function RequestReasons(p: Parsed, cell: Cell, ref: Reference): seq<Reason>
    requires Complete(p) && Readable(p)
  {
    If(!WorkloadMatches(p.tags[WORKLOAD], cell), WorkloadRecord)
    + If(Differs(At(ref.promptHash, cell.context), PromptHash(p)), PromptHashDiffers)
    + RecordReasons(p.warmups + p.samples, cell, PromptHash(p))
    + If(p.jit > 0, JitInMeasurement)
    + If(!Stage3cMatches(Stage3c(p), cell), Stage3cSelection)
    + If(WrongOutputs(p, cell), OutputHash)
  }

  /** The reasons of _verify_cell, in order. */
  function Reasons(p: Parsed, cell: Cell, ref: Reference): seq<Reason>
    requires Complete(p) && Readable(p)
  {
    ConfigReasons(p, cell, ref) + RequestReasons(p, cell, ref)
  }

  /** Some request of a cell with a pre-established output hash produced another one. */
  predicate WrongOutputs(p: Parsed, cell: Cell)
    requires forall r | r in p.warmups + p.samples :: r.Obj?
  {
    cell.expectedSha != ""
    && exists r | r in p.warmups + p.samples :: !PyEq(Get(r, "output_token_ids_sha256"), Str(cell.expectedSha))
  }

  predicate Finished(p: Parsed, cell: Cell) {
    p.markers == MARKERS && |p.warmups| == cell.warmups && |p.samples| == WantReps(cell) && p.failures == []
  }

  predicate Reaped(m: Meta) {
    !m.timedOut && m.afterLeaderExit == [] && m.remaining == []
  }

  /** The verdict once all methodology checks have passed. */
  function Conclude(p: Parsed, cell: Cell, m: Meta): Verdict {
    if m.returncode == 0 then
      if Finished(p, cell) then Ok else Stop([Incomplete])
    else if m.returncode == WORKLOAD_FAILURE_EXIT && |p.failures| == 1 && p.failures[0] != Null then
      if !p.failures[0].Obj? then Raised
      else if Get(p.failures[0], "kind") in CONTINUABLE && cell.role == "measured" && Reaped(m) then
        WorkloadFailure(p.failures[0])
      else Stop([FailureReason(cell, m)])
    else Stop([FailureReason(cell, m)])
  }

  function FailureReason(cell: Cell, m: Meta): Reason {
    if cell.role == "conditioning" then Conditioning else if !Reaped(m) then NotReaped else WorkerFailure
  }

  function Judge(parsed: Option<Parsed>, cell: Cell, m: Meta, ref: Reference): Verdict {
    if parsed.None? then Stop([Unparseable]) else
    var p := parsed.value;
    if !Complete(p) then Stop(If(!("EXP5_LEG" in p.tags && PyEq(p.tags["EXP5_LEG"], Leg(cell))), CellIdentity)
        + [Initialization])
    else if !Readable(p) || !EnvReadable(Stage3c(p), cell) then Raised
    else
      var reasons := Reasons(p, cell, ref);
      if reasons != [] then Stop(reasons) else Conclude(p, cell, m)
  }

  // --------------------------------------------------------------- what acceptance means

  /** A request ran the planned prompt for the planned number of tokens. */
  predicate RequestMatches(r: Json, cell: Cell, h: Json)
    requires r.Obj?
  {
    && PyEq(Get(r, "prompt_tokens"), Int(cell.prompt)) && PyEq(Get(r, "output_tokens"), Int(OUTPUT_TOKENS))
    && PyEq(Get(r, "prompt_token_ids_sha256"), h)
  }

  /** Everything the plan demands of a cell by itself. */
  predicate FollowsPlan(p: Parsed, cell: Cell)
    requires Complete(p) && Readable(p)
  {
    var t, dtype := p.tags, Str(cell.dtype);
    && "EXP5_LEG" in t && PyEq(t["EXP5_LEG"], Leg(cell))
    && PyEq(Get(t[REQUESTED], "kv_cache_dtype"), dtype) && FixedProtocol(t[EFFECTIVE])
    && KvMatches(t[KV_DTYPE], cell)
    && WorkloadMatches(t[WORKLOAD], cell) && Stage3cMatches(Stage3c(p), cell) && p.jit == 0
    && (forall r | r in p.warmups + p.samples :: RequestMatches(r, cell, PromptHash(p)))
    && (cell.expectedSha != "" ==>
          forall r | r in p.warmups + p.samples :: PyEq(Get(r, "output_token_ids_sha256"), Str(cell.expectedSha)))
  }

  /** Nothing differs from what earlier cells have fixed. */
  predicate FitsReference(p: Parsed, cell: Cell, ref: Reference)
    requires Complete(p) && Readable(p)
  {
    && !Differs(ref.requested, Requested(p)) && !Differs(ref.effective, p.tags[EFFECTIVE])
    && !Differs(At(ref.kv, cell.dtype), p.tags[KV_DTYPE]) && !Differs(At(ref.capacity, cell.dtype), p.tags[CAPACITY])
    && !Differs(At(ref.promptHash, cell.context), PromptHash(p))
  }

  lemma RequestMatchesMeans(r: Json, cell: Cell, h: Json)
    requires r.Obj?
    ensures RequestMatches(r, cell, h) <==> RecordReason(r, cell, h).None?
  {
    hide PyEq;
  }

  lemma {:induction false} NoDeviationMeans(rs: seq<Json>, cell: Cell, h: Json)
    requires forall r | r in rs :: r.Obj?
    ensures RecordReasons(rs, cell, h) == [] <==> forall r | r in rs :: RequestMatches(r, cell, h)
  {
    hide RecordReason, RequestMatches;
    if rs != [] {
      NoDeviationMeans(rs[1..], cell, h);
      assert rs == [rs[0]] + rs[1..];
      RequestMatchesMeans(rs[0], cell, h);
    }
  }

  /** No reason is found exactly when the cell follows the plan and fits the reference state. */
  lemma NoReasonsMeans(p: Parsed, cell: Cell, ref: Reference)
    requires Complete(p) && Readable(p)
    ensures Reasons(p, cell, ref) == [] <==> FollowsPlan(p, cell) && FitsReference(p, cell, ref)
  {
    hide Differs, PyEq, FixedProtocol, WorkloadMatches, Stage3cMatches, RecordReasons, RequestMatches, Requested,
         PromptHash, Leg, Stage3c, At;
    NoDeviationMeans(p.warmups + p.samples, cell, PromptHash(p));
  }

  lemma PlanReadsEnv(p: Parsed, cell: Cell)
    requires Complete(p) && Readable(p) && FollowsPlan(p, cell)
    ensures EnvReadable(Stage3c(p), cell)
  {
    hide PyEq, FixedProtocol, WorkloadMatches, RequestMatches, PromptHash, Leg;
  }

  // ------------------------------------------------------------------- the plan, literally

  /** The identity record names the cell, its dtype, role, context and prompt length, and nothing else. */
  lemma LegMeans(leg: Json, cell: Cell)
    ensures PyEq(leg, Leg(cell)) <==>
              && leg.Obj? && leg.fields.Keys == {"leg", "kv_cache_dtype", "role", "context_point", "prompt_tokens"}
              && leg.fields["leg"] == Str(cell.name) && leg.fields["kv_cache_dtype"] == Str(cell.dtype)
              && leg.fields["role"] == Str(cell.role) && PyEq(leg.fields["context_point"], Num(cell.context as real))
              && PyEq(leg.fields["prompt_tokens"], Num(cell.prompt as real))
  {
    hide PyEq;
    PyEqSymmetric(leg, Leg(cell));
    PyEqOfObjects(Leg(cell), leg);
    forall k, x | leg.Obj? && k in leg.fields ensures PyEq(Str(x), leg.fields[k]) <==> leg.fields[k] == Str(x) {
      PyEqOfAtoms(Str(x), leg.fields[k]);
    }
    forall k, x | leg.Obj? && k in leg.fields ensures PyEq(x, leg.fields[k]) <==> PyEq(leg.fields[k], x) {
      PyEqSymmetric(x, leg.fields[k]);
    }
  }

  lemma PyEqSymmetric(a: Json, b: Json)
    ensures PyEq(a, b) <==> PyEq(b, a)
  {
  }

  /** The settings of the fixed protocol, and no others, are required of the engine. */
  lemma ProtocolMeans(eff: Json)
    requires eff.Obj?
    ensures FixedProtocol(eff) <==>
              var f := eff.fields;
              && "compilation_mode" in f && f["compilation_mode"] == Str("NONE")
              && "cudagraph_mode" in f && f["cudagraph_mode"] == Str("NONE")
              && "enforce_eager" in f && f["enforce_eager"] == Bool(true)
              && "calculate_kv_scales" in f && f["calculate_kv_scales"] == Bool(false)
              && ("hf_quantization_config" in f ==> f["hf_quantization_config"] == Null)
              && ("quantization" in f ==> f["quantization"] == Null)
              && "attention_backend" in f && f["attention_backend"].Str?
              && exists head :: f["attention_backend"].s == head + "TRITON_ATTN"
  {
    if "attention_backend" in eff.fields && eff.fields["attention_backend"].Str? {
      EndsWithMeans(eff.fields["attention_backend"].s, "TRITON_ATTN");
    }
  }

  lemma EndsWithMeans(s: string, t: string)
    ensures EndsWith(s, t) <==> exists head :: s == head + t
  {
    if EndsWith(s, t) { assert s == s[..|s| - |t|] + t; }
    if exists head :: s == head + t {
      var head :| s == head + t;
      assert s[|head|..] == t;
    }
  }

  /** The workload record, field by field: 32 greedy tokens without EOS. */
  lemma WorkloadMeans(wl: Json, cell: Cell)
    requires wl.Obj?
    ensures WorkloadMatches(wl, cell) <==>
              && Get(wl, "role") == Str(cell.role) && Get(wl, "ignore_eos") == Bool(true)
              && Get(wl, "output_tokens") == Num(32.0) && Get(wl, "max_tokens") == Num(32.0)
              && (Get(wl, "temperature") == Num(0.0) || Get(wl, "temperature") == Bool(false))
              && PyEq(Get(wl, "context_point"), Num(cell.context as real))
              && PyEq(Get(wl, "prompt_tokens"), Num(cell.prompt as real))
              && PyEq(Get(wl, "warmups"), Num(cell.warmups as real))
              && PyEq(Get(wl, "reps"), Num(if cell.role == "conditioning" then 0.0 else cell.reps as real))
  {
    hide PyEq;
    PyEqSymmetric(Str(cell.role), Get(wl, "role"));
    PyEqOfAtoms(Str(cell.role), Get(wl, "role"));
    PyEqSymmetric(Num(32.0), Get(wl, "output_tokens"));
    PyEqOfAtoms(Num(32.0), Get(wl, "output_tokens"));
    PyEqSymmetric(Num(32.0), Get(wl, "max_tokens"));
    PyEqOfAtoms(Num(32.0), Get(wl, "max_tokens"));
    PyEqSymmetric(Num(0.0), Get(wl, "temperature"));
    PyEqOfAtoms(Num(0.0), Get(wl, "temperature"));
  }

  /** A rabit_kv2 cell ran the planned Stage3C selection; any other cell ran none. */
  lemma Stage3cMeans(s3: Json, cell: Cell)
    requires s3.Obj?
    ensures cell.dtype == "rabit_kv2" ==>
              (Stage3cMatches(s3, cell) <==>
                 && Get(s3, "applicable") == Bool(true)
                 && Get(s3, "requested_impl") == Str(cell.impl) == Get(s3, "effective_impl")
                 && PyEq(Get(s3, "requested_query_block"), Num(cell.queryBlock as real))
                 && PyEq(Get(s3, "effective_query_block"), Num(cell.queryBlock as real)))
    ensures cell.dtype != "rabit_kv2" ==>
              (Stage3cMatches(s3, cell) <==>
                 && Get(s3, "applicable") == Bool(false)
                 && ("env" in s3.fields ==>
                       s3.fields["env"].Obj? && forall v | v in s3.fields["env"].fields.Values :: !Truthy(v)))
  {
    hide PyEq, Truthy;
    PyEqSymmetric(Str(cell.impl), Get(s3, "requested_impl"));
    PyEqOfAtoms(Str(cell.impl), Get(s3, "requested_impl"));
    PyEqSymmetric(Str(cell.impl), Get(s3, "effective_impl"));
    PyEqOfAtoms(Str(cell.impl), Get(s3, "effective_impl"));
  }

  /** All five records a cell must print, by name. */
  lemma CompleteMeans(p: Parsed)
    ensures Complete(p) <==>
              && "EXP5_REQUESTED_ENGINE_KWARGS" in p.tags && "EXP5_EFFECTIVE_ENGINE_CONFIG" in p.tags
              && "EXP5_KV_DTYPE" in p.tags && "EXP5_CAPACITY" in p.tags && "EXP5_WORKLOAD" in p.tags
  {
    assert forall x :: x in NEED <==>
      x == REQUESTED || x == EFFECTIVE || x == KV_DTYPE || x == CAPACITY || x == WORKLOAD;
  }

  lemma IfMeans(bad: bool, r: Reason, x: Reason)
    ensures x in If(bad, r) <==> bad && x == r
  {
  }

  lemma ConfigReasonsAre(p: Parsed, cell: Cell, ref: Reference, x: Reason)
    requires Complete(p) && Readable(p)
    ensures x in ConfigReasons(p, cell, ref) <==>
              match x
              case CellIdentity => !("EXP5_LEG" in p.tags && PyEq(p.tags["EXP5_LEG"], Leg(cell)))
              case RequestedDtype => !PyEq(Get(p.tags[REQUESTED], "kv_cache_dtype"), Str(cell.dtype))
              case RequestedDiffers => Differs(ref.requested, Requested(p))
              case EffectiveDiffers => Differs(ref.effective, p.tags[EFFECTIVE])
              case Protocol => !FixedProtocol(p.tags[EFFECTIVE])
              case KvDtype => !KvMatches(p.tags[KV_DTYPE], cell)
              case KvDiffers => Differs(At(ref.kv, cell.dtype), p.tags[KV_DTYPE])
              case CapacityDiffers => Differs(At(ref.capacity, cell.dtype), p.tags[CAPACITY])
              case _ => false
  {
    hide If, Differs, PyEq, FixedProtocol, KvMatches, Requested, Leg, At, Stage3c;
    forall bad, r { IfMeans(bad, r, x); }
  }

  lemma RequestReasonsAre(p: Parsed, cell: Cell, ref: Reference, x: Reason)
    requires Complete(p) && Readable(p)
    ensures x in RequestReasons(p, cell, ref) <==>
              match x
              case WorkloadRecord => !WorkloadMatches(p.tags[WORKLOAD], cell)
              case PromptHashDiffers => Differs(At(ref.promptHash, cell.context), PromptHash(p))
              case PromptTokens => x in RecordReasons(p.warmups + p.samples, cell, PromptHash(p))
              case OutputTokens => x in RecordReasons(p.warmups + p.samples, cell, PromptHash(p))
              case RequestHash => x in RecordReasons(p.warmups + p.samples, cell, PromptHash(p))
              case JitInMeasurement => p.jit > 0
              case Stage3cSelection => !Stage3cMatches(Stage3c(p), cell)
              case OutputHash => WrongOutputs(p, cell)
              case _ => false
  {
    hide If, Differs, WorkloadMatches, Stage3cMatches, RecordReasons, WrongOutputs, PromptHash, At;
    forall bad, r { IfMeans(bad, r, x); }
    OnlyRecordReasons(p.warmups + p.samples, cell, PromptHash(p), x);
  }

  /** The request loop gives the reason of the first request that deviates. */
  lemma {:induction false} OnlyRecordReasons(rs: seq<Json>, cell: Cell, h: Json, x: Reason)
    requires forall r | r in rs :: r.Obj?
    ensures x in RecordReasons(rs, cell, h) ==> x == PromptTokens || x == OutputTokens || x == RequestHash
    ensures x in RecordReasons(rs, cell, h) <==> exists i | 0 <= i < |rs| :: FirstReason(rs, cell, h, i) == Some(x)
  {
    hide PyEq;
    if rs != [] {
      OnlyRecordReasons(rs[1..], cell, h, x);
      var r := RecordReason(rs[0], cell, h);
      assert FirstReason(rs, cell, h, 0) == r;
      forall i | 0 < i < |rs| ensures r.None? ==> FirstReason(rs, cell, h, i) == FirstReason(rs[1..], cell, h, i - 1)
                              ensures r.Some? ==> FirstReason(rs, cell, h, i) == None {
        FirstReasonTail(rs, cell, h, i);
      }
      if r.None? && x in RecordReasons(rs[1..], cell, h) {
        var i :| 0 <= i < |rs[1..]| && FirstReason(rs[1..], cell, h, i) == Some(x);
        assert FirstReason(rs, cell, h, i + 1) == Some(x);
      }
    }
  }

  /** The reason of request i, if all earlier requests are as planned. */
  function FirstReason(rs: seq<Json>, cell: Cell, h: Json, i: nat): Option<Reason>
    requires i < |rs| && forall r | r in rs :: r.Obj?
  {
    if exists j | 0 <= j < i :: !RequestMatches(rs[j], cell, h) then None
    else if !PyEq(Get(rs[i], "prompt_tokens"), Num(cell.prompt as real)) then Some(PromptTokens)
    else if !PyEq(Get(rs[i], "output_tokens"), Num(32.0)) then Some(OutputTokens)
    else if !PyEq(Get(rs[i], "prompt_token_ids_sha256"), h) then Some(RequestHash)
    else None
  }

  lemma FirstReasonTail(rs: seq<Json>, cell: Cell, h: Json, i: nat)
    requires 0 < i < |rs| && forall r | r in rs :: r.Obj?
    ensures RecordReason(rs[0], cell, h).None? ==> FirstReason(rs, cell, h, i) == FirstReason(rs[1..], cell, h, i - 1)
    ensures RecordReason(rs[0], cell, h).Some? ==> FirstReason(rs, cell, h, i) == None
  {
    hide PyEq;
    RequestMatchesMeans(rs[0], cell, h);
    assert forall j | 0 < j < |rs| :: rs[j] == rs[1..][j - 1];
    if RecordReason(rs[0], cell, h).None? {
      assert (exists j | 0 <= j < i :: !RequestMatches(rs[j], cell, h)) ==>
             (exists j | 0 <= j < i - 1 :: !RequestMatches(rs[1..][j], cell, h)) by {
        if exists j | 0 <= j < i :: !RequestMatches(rs[j], cell, h) {
          var j :| 0 <= j < i && !RequestMatches(rs[j], cell, h);
          assert !RequestMatches(rs[1..][j - 1], cell, h);
        }
      }
    }
  }

  /** A cell is accepted exactly when its output is readable, follows the plan, fits the reference
      state and is complete, and its process exited with 0. */
  lemma OkMeans(parsed: Option<Parsed>, cell: Cell, m: Meta, ref: Reference)
    ensures Judge(parsed, cell, m, ref) == Ok <==>
              && parsed.Some? && Complete(parsed.value) && Readable(parsed.value)
              && FollowsPlan(parsed.value, cell) && FitsReference(parsed.value, cell, ref)
              && Finished(parsed.value, cell) && m.returncode == 0
  {
    hide Complete, Readable, FitsReference, Finished, Reasons, PyEq, FixedProtocol, WorkloadMatches, RequestMatches,
         PromptHash, Leg;
    if parsed.Some? && Complete(parsed.value) && Readable(parsed.value) { NoReasonsMeans(parsed.value, cell, ref); }
  }

  /** An accepted cell has every required setting: a cell with any one of them changed is not accepted. */
  lemma OkRequires(parsed: Option<Parsed>, cell: Cell, m: Meta, ref: Reference)
    requires Judge(parsed, cell, m, ref) == Ok
    ensures parsed.Some? && Complete(parsed.value) && Readable(parsed.value) && "EXP5_LEG" in parsed.value.tags
    ensures var t := parsed.value.tags;
            var leg, eff, kv, wl := t["EXP5_LEG"], t[EFFECTIVE], t[KV_DTYPE], t[WORKLOAD];
            && leg.Obj? && Get(leg, "leg") == Str(cell.name) && Get(leg, "kv_cache_dtype") == Str(cell.dtype)
            && Get(leg, "role") == Str(cell.role) && Get(t[REQUESTED], "kv_cache_dtype") == Str(cell.dtype)
            && Get(kv, "requested_kv_cache_dtype") == Str(cell.dtype) == Get(kv, "engine_cache_dtype")
            && Get(eff, "compilation_mode") == Str("NONE") == Get(eff, "cudagraph_mode")
            && Get(eff, "enforce_eager") == Bool(true) && Get(eff, "calculate_kv_scales") == Bool(false)
            && Get(eff, "hf_quantization_config") == Null == Get(eff, "quantization")
            && Get(wl, "role") == Str(cell.role) && Get(wl, "ignore_eos") == Bool(true)
            && Get(wl, "output_tokens") == Num(32.0) == Get(wl, "max_tokens")
    ensures Stage3cMatches(Stage3c(parsed.value), cell) && parsed.value.jit == 0
  {
    hide PyEq, Leg, FixedProtocol, WorkloadMatches, Stage3cMatches, RequestMatches, Finished, Stage3c, FitsReference,
         PromptHash, Judge;
    OkMeans(parsed, cell, m, ref);
    var t := parsed.value.tags;
    LegMeans(t["EXP5_LEG"], cell);
    ProtocolMeans(t[EFFECTIVE]);
    WorkloadMeans(t[WORKLOAD], cell);
    DtypeIs(Get(t[REQUESTED], "kv_cache_dtype"), cell.dtype);
    DtypeIs(Get(t[KV_DTYPE], "requested_kv_cache_dtype"), cell.dtype);
    DtypeIs(Get(t[KV_DTYPE], "engine_cache_dtype"), cell.dtype);
  }

  lemma DtypeIs(j: Json, dtype: string)
    ensures PyEq(j, Str(dtype)) <==> j == Str(dtype)
  {
    hide PyEq;
    PyEqSymmetric(j, Str(dtype));
    PyEqOfAtoms(Str(dtype), j);
  }

  /** The sweep may go on past a failed cell exactly when its output is readable, follows the plan and
      fits the reference state, and a measured, reaped process reported one continuable failure with exit 75. */
  lemma WorkloadFailureMeans(parsed: Option<Parsed>, cell: Cell, m: Meta, ref: Reference)
    ensures Judge(parsed, cell, m, ref).WorkloadFailure? <==>
              && parsed.Some? && Complete(parsed.value) && Readable(parsed.value)
              && FollowsPlan(parsed.value, cell) && FitsReference(parsed.value, cell, ref)
              && m.returncode == WORKLOAD_FAILURE_EXIT && |parsed.value.failures| == 1 && parsed.value.failures[0].Obj?
              && Get(parsed.value.failures[0], "kind") in CONTINUABLE && cell.role == "measured" && Reaped(m)
  {
    hide Complete, Readable, FitsReference, Finished, Reasons, PyEq, FixedProtocol, WorkloadMatches, RequestMatches,
         PromptHash, Leg;
    if parsed.Some? && Complete(parsed.value) && Readable(parsed.value) { NoReasonsMeans(parsed.value, cell, ref); }
  }

  /** The remaining verdicts. Unparseable output and missing records stop; a record of the wrong kind raises; a
      deviation stops with its reasons; exit 0 without a complete output stops; and of any other exit it is said,
      in this order, that a conditioning cell failed, that processes were left, or that the worker failed. */
  lemma OtherVerdicts(parsed: Option<Parsed>, cell: Cell, m: Meta, ref: Reference)
    ensures var v := Judge(parsed, cell, m, ref);
            && (parsed.None? ==> v == Stop([Unparseable]))
            && (parsed.Some? && !Complete(parsed.value) ==> v.Stop? && Initialization in v.reasons)
    ensures parsed.Some? && Complete(parsed.value) ==>
              (!AllObjects(parsed.value, cell) ==> Judge(parsed, cell, m, ref) == Raised)
    ensures parsed.Some? && Complete(parsed.value) && AllObjects(parsed.value, cell) ==>
              && Readable(parsed.value)
              && var p, v := parsed.value, Judge(parsed, cell, m, ref);
              if !(FollowsPlan(p, cell) && FitsReference(p, cell, ref))
                  then v == Stop(Reasons(p, cell, ref)) && v.reasons != []
              else if m.returncode == 0 then v == if Finished(p, cell) then Ok else Stop([Incomplete])
              else if m.returncode == 75 && |p.failures| == 1 && !p.failures[0].Obj? && !p.failures[0].Null?
                  then v == Raised
              else
                v.WorkloadFailure?
                || v == Stop([if cell.role == "conditioning" then Conditioning
                              else if m.timedOut || m.afterLeaderExit != [] || m.remaining != [] then NotReaped
                              else WorkerFailure])
  {
    hide Complete, FollowsPlan, FitsReference, Finished, Reasons, PyEq, Truthy;
    if parsed.Some? && Complete(parsed.value) && Readable(parsed.value) { NoReasonsMeans(parsed.value, cell, ref); }
  }

  /** Every record the checks look into is a JSON object. */
  predicate AllObjects(p: Parsed, cell: Cell)
    requires Complete(p)
  {
    && p.tags[REQUESTED].Obj? && p.tags[EFFECTIVE].Obj? && p.tags[KV_DTYPE].Obj? && p.tags[WORKLOAD].Obj?
    && (forall r | r in p.warmups + p.samples :: r.Obj?)
    && ("EXP5_STAGE3C" in p.tags && Truthy(p.tags["EXP5_STAGE3C"]) ==>
          var s3 := p.tags["EXP5_STAGE3C"];
          s3.Obj? && (cell.dtype != "rabit_kv2" && Get(s3, "applicable") == Bool(false) && "env" in s3.fields ==>
                        s3.fields["env"].Obj?))
  }

  // ----------------------------------------------------------------------- reference state

  function SetDefault<K>(m: map<K, Json>, k: K, v: Json): map<K, Json> {
    if k in m then m else m[k := v]
  }

  /** The reference state after an accepted cell: only what was still unset is set. */
  function Extended(ref: Reference, p: Parsed, cell: Cell): Reference
    requires Complete(p) && Readable(p)
  {
    Reference(
      if ref.requested.Some? then ref.requested else Some(Requested(p)),
      if ref.effective.Some? then ref.effective else Some(p.tags[EFFECTIVE]),
      SetDefault(ref.kv, cell.dtype, p.tags[KV_DTYPE]),
      SetDefault(ref.capacity, cell.dtype, p.tags[CAPACITY]),
      SetDefault(ref.promptHash, cell.context, PromptHash(p)))
  }

  /** The `ref` dictionary shared by the cells of a sweep. */
  class SweepReference {
    var current: Reference

    constructor ()
      ensures current == NO_REFERENCE
    {
      current := NO_REFERENCE;
    }

    /** The methodology checks, one after the other. */
    method Check(p: Parsed, cell: Cell) returns (reasons: seq<Reason>)
      requires Complete(p) && Readable(p)
      ensures reasons == Reasons(p, cell, current)
      ensures reasons == [] <==> FollowsPlan(p, cell) && FitsReference(p, cell, current)
    {
      hide FixedProtocol, WorkloadMatches, Stage3cMatches, Norm, Truthy, RecordReason, If, Differs, At, PyEq,
           FollowsPlan, FitsReference;
      var t, h := p.tags, PromptHash(p);
      var config := If(!("EXP5_LEG" in t && PyEq(t["EXP5_LEG"], Leg(cell))), CellIdentity);
      config := config + If(!PyEq(Get(t[REQUESTED], "kv_cache_dtype"), Str(cell.dtype)), RequestedDtype);
      config := config + If(Differs(current.requested, Requested(p)), RequestedDiffers);
      config := config + If(Differs(current.effective, t[EFFECTIVE]), EffectiveDiffers);
      config := config + If(!FixedProtocol(t[EFFECTIVE]), Protocol);
      config := config + If(!KvMatches(t[KV_DTYPE], cell), KvDtype);
      config := config + If(Differs(At(current.kv, cell.dtype), t[KV_DTYPE]), KvDiffers);
      config := config + If(Differs(At(current.capacity, cell.dtype), t[CAPACITY]), CapacityDiffers);
      var requests := If(!WorkloadMatches(t[WORKLOAD], cell), WorkloadRecord);
      requests := requests + If(Differs(At(current.promptHash, cell.context), h), PromptHashDiffers);
      var deviation := FirstDeviation(p.warmups + p.samples, cell, h);
      requests := requests + deviation;
      requests := requests + If(p.jit > 0, JitInMeasurement);
      requests := requests + If(!Stage3cMatches(Stage3c(p), cell), Stage3cSelection);
      requests := requests + If(WrongOutputs(p, cell), OutputHash);
      reasons := config + requests;
      NoReasonsMeans(p, cell, current);
    }

    method VerifyCell(c: JsonCodec, lines: seq<string>, prefix: string, cell: Cell, m: Meta) returns (v: Verdict)
      modifies this
      ensures v == Judge(ParseLines(c, prefix, lines), cell, m, old(current))
      ensures current == if v == Ok then Carried(ParseLines(c, prefix, lines), cell, old(current)) else old(current)
    {
      hide Reasons, Finished, ParseLine, EnvReadable;
      var parsed := ParseCell(c, lines, prefix);
      if parsed.None? { return Stop([Unparseable]); }
      var p := parsed.value;
      if !Complete(p) {
        var identity := If(!("EXP5_LEG" in p.tags && PyEq(p.tags["EXP5_LEG"], Leg(cell))), CellIdentity);
        return Stop(identity + [Initialization]);
      }
      if !Readable(p) || !EnvReadable(Stage3c(p), cell) { return Raised; }
      var reasons := Check(p, cell);
      if reasons != [] { return Stop(reasons); }
      v := Conclude(p, cell, m);
      if v == Ok { current := Extended(current, p, cell); }
    }
  }

  /** The loop over warmups and samples, which stops at the first deviating request. */
  method FirstDeviation(rs: seq<Json>, cell: Cell, h: Json) returns (reasons: seq<Reason>)
    requires forall r | r in rs :: r.Obj?
    ensures reasons == RecordReasons(rs, cell, h)
  {
    hide RecordReason;
    for i := 0 to |rs|
      invariant RecordReasons(rs, cell, h) == RecordReasons(rs[i..], cell, h)
    {
      var x := RecordReason(rs[i], cell, h);
      assert rs[i..][0] == rs[i] && rs[i..][1..] == rs[i + 1..];
      if x.Some? { return [x.value]; }
    }
    return [];
  }

  /** The reference state an accepted cell leaves behind. */
  function Carried(parsed: Option<Parsed>, cell: Cell, ref: Reference): Reference {
    if parsed.Some? && Complete(parsed.value) && Readable(parsed.value) then Extended(ref, parsed.value, cell) else ref
  }
}
