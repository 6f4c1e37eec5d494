/**
 * The run log of one http-hello measurement, as both http-hello analyses parse it: the run
 * id from the file name, the cold start from the last `cold_start_ms=` line, and the
 * latencies of the requests answered with status 200.
 */
module HelloRunLog {
  import opened Common
  import opened Seqs
  import opened Text
  import opened LogFiles

  /** `YYYY-MM-DDTHH-MM-SSZ`: `\d{4}-\d{2}-\d{2}T\d{2}-\d{2}-\d{2}Z`. */
  predicate IsTimestamp(t: string) {
    && |t| == 20
    && (forall k :: 0 <= k < 20 && k !in {4, 7, 10, 13, 16, 19} ==> IsDigit(t[k]))
    && t[4] == '-' && t[7] == '-' && t[10] == 'T' && t[13] == '-' && t[16] == '-' && t[19] == 'Z'
  }

  /** The run-log pattern `(<timestamp>)_run\.log$` at `i`; yields the timestamp. */
  function RunIdAt(s: string, i: nat): (r: Option<string>)
    ensures r.Some? ==> i + 28 <= |s| && r.value == s[i..i + 20] && IsTimestamp(r.value)
  {
    if i + 28 <= |s| && IsTimestamp(s[i..i + 20]) && RunLogSuffixAt(s, i + 20).Some? then
      Some(s[i..i + 20])
    else None
  }

  /** `RUN_LOG_PATTERN.search(name).group(1)`. */
  function RunId(name: string): Option<string> {
    Search(RunIdAt, name)
  }

  /**
   * A run log's id is the timestamp just before its `_run.log` suffix, and a name without
   * one there has no id.
   */
  lemma RunIdOfRunLog(name: string)
    requires EndsWith(name, "_run.log")
    ensures RunId(name).Some? <==> |name| >= 28 && IsTimestamp(name[|name| - 28..|name| - 8])
    ensures RunId(name).Some? ==> RunId(name).value == name[|name| - 28..|name| - 8]
  {
    var n := |name|;
    assert name[n - 8..] == "_run.log";
    forall i | 0 <= i <= n && RunIdAt(name, i).Some? ensures i == n - 28 {
    }
    if n >= 28 && IsTimestamp(name[n - 28..n - 8]) {
      assert name[n - 8..n] == "_run.log";
      assert RunIdAt(name, n - 28).Some?;
      SearchLeftmost(RunIdAt, name, 0, n - 28);
    }
  }

  /** `COLD_START_PATTERN.search(line)`, the number `float()` makes of it. */
  function ColdStartOf(line: string): Option<real> {
    Search(ColdStartField, line)
  }

  /** What the loop sees of a line: its cold start once the line is stripped. */
  function ColdStartLine(line: string): Option<real> {
    ColdStartOf(Strip(line))
  }

  function ColdStartField(s: string, i: nat): Option<real> {
    DecimalFieldAt(s, i, "cold_start_ms=")
  }

  /** One request line: the status code and the latency in milliseconds. */
  datatype Latency = Latency(code: nat, ms: real)

  /**
   * `req=(\d+)\s+http_code=(\d{3})\s+latency_ns=(\d+)\s+latency_ms=(\d+\.?\d*)` at `i`.
   * Each run is followed by a character outside its class, so the greedy runs are maximal.
   */
  function LatencyAt(s: string, i: nat): (r: Option<Latency>)
    ensures r.Some? ==> r.value.code < 1000
  {
    var a :- Lit(s, i, "req=");
    var b :- Run1(s, a, Digit);
    var c :- Run1(s, b, Space);
    var d :- Lit(s, c, "http_code=");
    var e :- Exactly(s, d, 3, Digit);
    var f :- Run1(s, e, Space);
    var g :- Lit(s, f, "latency_ns=");
    var h :- Run1(s, g, Digit);
    var k :- Run1(s, h, Space);
    var l :- Lit(s, k, "latency_ms=");
    var m :- DecimalEnd(s, l);
    ThreeDigitsBelow1000(s[d..e]);
    Some(Latency(DigitsValue(s[d..e]), DecimalValue(s, l, m)))
  }

  lemma ThreeDigitsBelow1000(t: string)
    requires |t| == 3 && AllIn(t, Digit)
    ensures DigitsValue(t) < 1000
  {
    ThreeDigits(t);
  }

  lemma ThreeDigits(t: string)
    requires |t| == 3 && AllIn(t, Digit)
    ensures DigitsValue(t) == DigitValue(t[0]) * 100 + DigitValue(t[1]) * 10 + DigitValue(t[2])
  {
    var t2, t1 := t[..2], t[..1];
    assert t2[..1] == t1 && t1[..0] == [];
    assert DigitsValue(t1) == DigitValue(t[0]);
    assert DigitsValue(t2) == DigitValue(t[0]) * 10 + DigitValue(t[1]);
  }

  /** `int(m.group(2)) == 200` holds exactly for the code text "200". */
  lemma CodeIs200Iff(t: string)
    requires |t| == 3 && AllIn(t, Digit)
    ensures DigitsValue(t) == 200 <==> t == "200"
  {
    ThreeDigits(t);
    if DigitsValue(t) == 200 {
      assert DigitValue(t[0]) == 2 && DigitValue(t[1]) == 0 && DigitValue(t[2]) == 0;
    }
  }

  function LatencyOf(line: string): Option<Latency> {
    Search(LatencyAt, line)
  }

  function LatencyLine(line: string): Option<Latency> {
    LatencyOf(Strip(line))
  }

  /** The latency a stripped line contributes: only a request answered with 200. */
  function OkLatency(line: string): (r: Option<real>)
    ensures r.Some? <==> LatencyLine(line).Some? && LatencyLine(line).value.code == 200
    ensures r.Some? ==> r.value == LatencyLine(line).value.ms
  {
    var lat :- LatencyLine(line);
    if lat.code == 200 then Some(lat.ms) else None
  }

  /**
   * The value `cold_start_ms` holds after the loop: the cold start of the last line that
   * has one (each such line overwrites the previous value).
   */
  function LastColdStart(lines: seq<string>): Option<real> {
    LastSome(ColdStartLine, lines)
  }

  /** The latencies of the 200 responses, in line order. */
  function OkLatencies(lines: seq<string>): seq<real> {
    FilterMap(OkLatency, lines)
  }

  /** A parsed run log. */
  datatype Run = Run(runId: string, coldStartMs: real, latenciesMs: seq<real>)

  /**
   * `parse_run_log`: `None` for a name without a run id, and when the file has no cold
   * start or no 200 latency.
   */
  function RunOf(file: LogFile): (r: Option<Run>)
    ensures r.Some? ==> r.value.latenciesMs != []
  {
    var id :- RunId(file.name);
    var coldStart :- LastColdStart(file.lines);
    var latencies := OkLatencies(file.lines);
    if latencies == [] then None else Some(Run(id, coldStart, latencies))
  }

  method ParseRunLog(file: LogFile) returns (r: Option<Run>)
    ensures r == RunOf(file)
  {
    var id := RunId(file.name);
    if id.None? {
      return None;
    }
    var coldStart, latencies := ScanLines(file.lines);
    if coldStart.None? || latencies == [] {
      return None;
    }
    r := Some(Run(id.value, coldStart.value, latencies));
  }

  /** The line loop of `parse_run_log`. */
  method ScanLines(lines: seq<string>) returns (coldStart: Option<real>, latencies: seq<real>)
    ensures coldStart == LastColdStart(lines)
    ensures latencies == OkLatencies(lines)
  {
    coldStart := None;
    latencies := [];
    for i := 0 to |lines|
      invariant coldStart == LastColdStart(lines[..i])
      invariant latencies == OkLatencies(lines[..i])
    {
      var cs := ColdStartLine(lines[i]);
      if cs.Some? {
        coldStart := cs;
      }
      var lat := LatencyLine(lines[i]);
      if lat.Some? && lat.value.code == 200 {
        latencies := latencies + [lat.value.ms];
      }
      LastSomeSnoc(ColdStartLine, lines, i);
      FilterMapSnoc(OkLatency, lines, i);
    }
    assert lines[..|lines|] == lines;
  }

  /**
   * A parsed run: its cold start is that of the last line with one, and its latencies are
   * exactly those of the lines reporting status 200, none missing.
   */
  lemma RunOfCharacterised(file: LogFile, x: real)
    requires RunOf(file).Some?
    ensures RunOf(file).value.latenciesMs != []
    ensures x in RunOf(file).value.latenciesMs <==>
      exists i :: 0 <= i < |file.lines| && LatencyLine(file.lines[i]) == Some(Latency(200, x))
    ensures exists i :: (0 <= i < |file.lines| && ColdStartLine(file.lines[i]) == Some(RunOf(file).value.coldStartMs)
      && forall j :: i < j < |file.lines| ==> ColdStartLine(file.lines[j]).None?)
  {
    RunParts(file);
    LinesCharacterised(file.lines, RunOf(file).value.coldStartMs, RunOf(file).value.latenciesMs, x);
  }

  lemma RunParts(file: LogFile)
    requires RunOf(file).Some?
    ensures LastColdStart(file.lines) == Some(RunOf(file).value.coldStartMs)
    ensures OkLatencies(file.lines) == RunOf(file).value.latenciesMs
  {
    var id, cs := RunId(file.name), LastColdStart(file.lines);
    assert id.Some? && cs.Some?;
    assert RunOf(file) == Some(Run(id.value, cs.value, OkLatencies(file.lines)));
  }

  lemma LinesCharacterised(lines: seq<string>, coldStart: real, latencies: seq<real>, x: real)
    requires LastColdStart(lines) == Some(coldStart) && OkLatencies(lines) == latencies
    ensures x in latencies <==> exists i :: 0 <= i < |lines| && LatencyLine(lines[i]) == Some(Latency(200, x))
    ensures exists i :: (0 <= i < |lines| && ColdStartLine(lines[i]) == Some(coldStart)
      && forall j :: i < j < |lines| ==> ColdStartLine(lines[j]).None?)
  {
    FilterMapMember(OkLatency, lines, x);
  }
}
