/** _parse_cell: one cell's output lines read back into tags, samples and markers. */
module SweepParser {
  import opened Wrappers
  import opened Json

  // ----------------------------------------------------------------------------- strings

  /** str.isspace, for str.strip. */
  predicate IsSpace(c: char) {
    var n := c as int;
    9 <= n <= 13 || 28 <= n <= 32 || n == 0x85 || n == 0xA0 || n == 0x1680 || 0x2000 <= n <= 0x200A
    || n == 0x2028 || n == 0x2029 || n == 0x202F || n == 0x205F || n == 0x3000
  }

  function Strip(s: string): string {
    if s == "" then s
    else if IsSpace(s[0]) then Strip(s[1..])
    else if IsSpace(s[|s| - 1]) then Strip(s[..|s| - 1])
    else s
  }

  predicate Contains(s: string, t: string) {
    exists i | 0 <= i <= |s| :: t <= s[i..]
  }

  /** Index of the first occurrence of c, or |s|. */
  function IndexOf(s: string, c: char): (i: nat)
    ensures i <= |s| && c !in s[..i] && (i < |s| ==> s[i] == c)
  {
    if s == "" || s[0] == c then 0 else 1 + IndexOf(s[1..], c)
  }

  predicate EndsWith(s: string, t: string) {
    |t| <= |s| && s[|s| - |t|..] == t
  }

  // ------------------------------------------------------------------------------ parser

  const WARMUP_BEGIN := "EXP5_WARMUP_BEGIN"
  const WARMUP_END := "EXP5_WARMUP_END"
  const MEASUREMENT_BEGIN := "EXP5_MEASUREMENT_BEGIN"
  const MEASUREMENT_END := "EXP5_MEASUREMENT_END"
  const WORKER_COMPLETE := "EXP5_WORKER_COMPLETE"
  const MARKERS := [WARMUP_BEGIN, WARMUP_END, MEASUREMENT_BEGIN, MEASUREMENT_END, WORKER_COMPLETE]
  const SAMPLE := "EXP5_SAMPLE "
  const WARMUP := "EXP5_WARMUP "
  const JIT := "Triton kernel JIT compilation during inference"

  datatype Parsed = Parsed(
    tags: map<string, Json>,
    samples: seq<Json>,
    warmups: seq<Json>,
    markers: seq<string>,
    jit: nat,
    failures: seq<Json>,
    measuring: bool)

  const EMPTY := Parsed(map[], [], [], [], 0, [], false)

  /** One output line; None when a payload is not JSON. */
  function ParseLine(c: JsonCodec, prefix: string, p: Parsed, raw: string): Option<Parsed> {
    if !(prefix <= raw) then Some(p) else
    var s := Strip(raw[|prefix|..]);
    if SAMPLE <= s then
      var j := c.loads(s[|SAMPLE|..]);
      if j.None? then None else Some(p.(samples := p.samples + [j.value]))
    else if WARMUP <= s then
      var j := c.loads(s[|WARMUP|..]);
      if j.None? then None else Some(p.(warmups := p.warmups + [j.value]))
    else if "EXP5_" <= s && Contains(s, "={") then
      var i := IndexOf(s, '=');
      var tag, j := s[..i], c.loads(s[if i < |s| then i + 1 else i..]);
      if tag == "EXP5_GPU_MEMORY" then Some(p)
      else if j.None? then None
      else if tag == "EXP5_WORKLOAD_FAILURE" then Some(p.(failures := p.failures + [j.value]))
      else Some(p.(tags := p.tags[tag := j.value]))
    else if s in MARKERS then
      Some(p.(markers := p.markers + [s],
              measuring := if s == MEASUREMENT_BEGIN then true else if EndsWith(s, "_END") then false else p.measuring))
    else if p.measuring && Contains(s, JIT) then
      Some(p.(jit := p.jit + 1))
    else Some(p)
  }

  function ParseLines(c: JsonCodec, prefix: string, lines: seq<string>): Option<Parsed> {
    if lines == [] then Some(EMPTY) else
    var p := ParseLines(c, prefix, lines[..|lines| - 1]);
    if p.None? then None else ParseLine(c, prefix, p.value, lines[|lines| - 1])
  }

  lemma {:induction false} ParseStops(c: JsonCodec, prefix: string, lines: seq<string>, n: nat)
    requires n <= |lines| && ParseLines(c, prefix, lines[..n]).None?
    ensures ParseLines(c, prefix, lines).None?
    decreases |lines|
  {
    if n < |lines| {
      assert lines[..|lines| - 1][..n] == lines[..n];
      ParseStops(c, prefix, lines[..|lines| - 1], n);
    } else {
      assert lines[..n] == lines;
    }
  }

  method ParseCell(c: JsonCodec, lines: seq<string>, prefix: string) returns (r: Option<Parsed>)
    ensures r == ParseLines(c, prefix, lines)
    ensures r.None? <==> exists i | 0 <= i < |lines| :: Broken(c, prefix, lines[i])
  {
    hide ParseLine, Broken;
    ParseFailsIff(c, prefix, lines);
    var p := EMPTY;
    for i := 0 to |lines|
      invariant ParseLines(c, prefix, lines[..i]) == Some(p)
    {
      assert lines[..i + 1][..i] == lines[..i];
      var q := ParseLine(c, prefix, p, lines[i]);
      if q.None? {
        ParseStops(c, prefix, lines, i + 1);
        return None;
      }
      p := q.value;
    }
    assert lines[..|lines|] == lines;
    return Some(p);
  }

  // ----------------------------------------------------------------------- what it means

  /** Strip removes exactly the surrounding white space. */
  lemma {:induction false} StripMeans(s: string) returns (i: nat, j: nat)
    ensures i <= j <= |s| && Strip(s) == s[i..j]
    ensures (forall k | 0 <= k < i || j <= k < |s| :: IsSpace(s[k])) && (i < j ==> !IsSpace(s[i]) && !IsSpace(s[j - 1]))
    decreases |s|
  {
    hide IsSpace;
    if s == "" {
      i, j := 0, 0;
    } else if IsSpace(s[0]) {
      i, j := StripMeans(s[1..]);
      assert s[1..][i..j] == s[i + 1..j + 1];
      assert forall k | 0 <= k < |s| - 1 :: s[1..][k] == s[k + 1];
      forall k | 0 <= k < i + 1 || j + 1 <= k < |s| ensures IsSpace(s[k]) {
        if k > 0 { assert s[1..][k - 1] == s[k]; }
      }
      i, j := i + 1, j + 1;
    } else if IsSpace(s[|s| - 1]) {
      i, j := StripMeans(s[..|s| - 1]);
      assert s[..|s| - 1][i..j] == s[i..j];
      forall k | 0 <= k < i || j <= k < |s| ensures IsSpace(s[k]) {
        if k < |s| - 1 { assert s[..|s| - 1][k] == s[k]; }
      }
    } else {
      i, j := 0, |s|;
    }
  }

  /** A payload of the cell that is not JSON: a sample, a warmup, or a tag other than the GPU memory. */
  predicate Broken(c: JsonCodec, prefix: string, raw: string) {
    prefix <= raw &&
    var s := Strip(raw[|prefix|..]);
    || ("EXP5_SAMPLE " <= s && c.loads(s[12..]).None?)
    || ("EXP5_WARMUP " <= s && c.loads(s[12..]).None?)
    || (!("EXP5_SAMPLE " <= s) && !("EXP5_WARMUP " <= s) && "EXP5_" <= s && Contains(s, "={") && BrokenTag(c, s))
  }

  predicate BrokenTag(c: JsonCodec, s: string) {
    exists i | 0 <= i < |s| :: s[i] == '=' && '=' !in s[..i] && s[..i] != "EXP5_GPU_MEMORY" && c.loads(s[i + 1..]).None?
  }

  lemma FirstIsUnique(s: string, i: nat, k: nat)
    requires i <= |s| && '=' !in s[..i] && k < |s| && s[k] == '='
    ensures i <= k
  {
  }

  lemma BrokenTagMeans(c: JsonCodec, s: string)
    requires Contains(s, "={")
    ensures var i := IndexOf(s, '=');
            i < |s| && (BrokenTag(c, s) <==> s[..i] != "EXP5_GPU_MEMORY" && c.loads(s[i + 1..]).None?)
  {
    var i := IndexOf(s, '=');
    var n :| 0 <= n <= |s| && "={" <= s[n..];
    assert "={"[0] == '=' && s[n..][0] == '=' && s[n] == '=';
    FirstIsUnique(s, i, n);
    forall k | 0 <= k < |s| && s[k] == '=' && '=' !in s[..k] ensures k == i {
      FirstIsUnique(s, i, k);
      FirstIsUnique(s, k, i);
    }
  }

  lemma LineFailsIff(c: JsonCodec, prefix: string, p: Parsed, raw: string)
    ensures ParseLine(c, prefix, p, raw).None? <==> Broken(c, prefix, raw)
  {
    hide Contains, IndexOf, Strip, BrokenTag, EndsWith;
    if prefix <= raw {
      var s := Strip(raw[|prefix|..]);
      assert SAMPLE[5] != WARMUP[5];
      if Contains(s, "={") { BrokenTagMeans(c, s); }
    }
  }

  /** The output of a cell is unparseable exactly when one of its lines carries a broken payload. */
  lemma {:induction false} ParseFailsIff(c: JsonCodec, prefix: string, lines: seq<string>)
    ensures ParseLines(c, prefix, lines).None? <==> exists i | 0 <= i < |lines| :: Broken(c, prefix, lines[i])
  {
    hide ParseLine, Broken;
    if lines != [] {
      var n := |lines| - 1;
      ParseFailsIff(c, prefix, lines[..n]);
      var p := ParseLines(c, prefix, lines[..n]);
      if p.Some? { LineFailsIff(c, prefix, p.value, lines[n]); }
    }
  }

  /** The effect of any line that carries a payload: samples, warmups and failure reports are appended, the GPU memory
      is dropped, and any other tag takes its latest payload. */
  lemma PayloadEffect(c: JsonCodec, prefix: string, p: Parsed, raw: string, i: nat)
    requires prefix <= raw && !Broken(c, prefix, raw)
    ensures var s, q := Strip(raw[|prefix|..]), ParseLine(c, prefix, p, raw);
            if "EXP5_SAMPLE " <= s then
              c.loads(s[12..]).Some? && q == Some(p.(samples := p.samples + [c.loads(s[12..]).value]))
            else if "EXP5_WARMUP " <= s then
              c.loads(s[12..]).Some? && q == Some(p.(warmups := p.warmups + [c.loads(s[12..]).value]))
            else if "EXP5_" <= s && Contains(s, "={") && i < |s| && s[i] == '=' && '=' !in s[..i] then
              if s[..i] == "EXP5_GPU_MEMORY" then q == Some(p)
              else
                && c.loads(s[i + 1..]).Some?
                && var j := c.loads(s[i + 1..]).value;
                q == Some(if s[..i] == "EXP5_WORKLOAD_FAILURE" then p.(failures := p.failures + [j])
                          else p.(tags := p.tags[s[..i] := j]))
            else true
  {
    hide Contains, IndexOf, Strip, BrokenTag, EndsWith;
    var s := Strip(raw[|prefix|..]);
    LineFailsIff(c, prefix, p, raw);
    if Contains(s, "={") && i < |s| && s[i] == '=' && '=' !in s[..i] {
      BrokenTagMeans(c, s);
      FirstIsUnique(s, i, IndexOf(s, '='));
      FirstIsUnique(s, IndexOf(s, '='), i);
    }
  }

  /** The effect of any other line of the cell: markers are recorded and move the phase, JIT text is counted while
      measuring, everything else is ignored, and so are the lines of other cells. */
  lemma PlainEffect(c: JsonCodec, prefix: string, p: Parsed, raw: string)
    ensures var q := ParseLine(c, prefix, p, raw);
            if !(prefix <= raw) then q == Some(p)
            else
              var s := Strip(raw[|prefix|..]);
              if "EXP5_SAMPLE " <= s || "EXP5_WARMUP " <= s || ("EXP5_" <= s && Contains(s, "={")) then true
              else if s in {"EXP5_WARMUP_BEGIN", "EXP5_WORKER_COMPLETE"} then q == Some(p.(markers := p.markers + [s]))
              else if s in {"EXP5_WARMUP_END", "EXP5_MEASUREMENT_END"} then
                q == Some(p.(markers := p.markers + [s], measuring := false))
              else if s == "EXP5_MEASUREMENT_BEGIN" then q == Some(p.(markers := p.markers + [s], measuring := true))
              else if p.measuring && Contains(s, "Triton kernel JIT compilation during inference") then
                q == Some(p.(jit := p.jit + 1))
              else q == Some(p)
  {
    hide Contains, IndexOf, Strip;
    EndingMarkers();
  }

  lemma EndingMarkers()
    ensures EndsWith("EXP5_WARMUP_END", "_END") && EndsWith("EXP5_MEASUREMENT_END", "_END")
    ensures !EndsWith("EXP5_WARMUP_BEGIN", "_END") && !EndsWith("EXP5_WORKER_COMPLETE", "_END")
  {
    assert "_END"[2] == 'N' && "EXP5_WARMUP_BEGIN"[15] == 'I' && "EXP5_WORKER_COMPLETE"[18] == 'T';
    assert "EXP5_WARMUP_END"[11..] == "_END" && "EXP5_MEASUREMENT_END"[16..] == "_END";
  }
}
