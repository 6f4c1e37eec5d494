/**
 * The cpu-hash scaling analysis: each run log line `conc=<N> ... throughput_iter_s=<x>`
 * gives one throughput at one concurrency level; the throughputs are grouped per level,
 * and every level of every runtime with samples is summarised in ascending order.
 */
module CpuHashScaling {
  import opened Common
  import opened Seqs
  import opened Sorting
  import opened Text
  import opened Stats
  import opened LogFiles
  import opened RuntimeTable

  const Runtimes: Table := [
    ("native", "results/raw/native/cpu-hash-scaling"),
    ("docker", "results/raw/docker/cpu-hash-scaling"),
    ("wasmtime", "results/raw/wasm/cpu-hash-scaling"),
    ("wasmedge", "results/raw/wasmedge/cpu-hash-scaling")]

  const ConcKey: string := "conc="
  const ThroughputKey: string := "throughput_iter_s="

  // ---------------------------------------------------------------------------------
  // `conc=(\d+).*throughput_iter_s=([0-9.]+)`

  /**
   * The pattern at `i`: group 1 and group 2. The digit run is read to its end: giving
   * digits back cannot help, since `throughput_iter_s=` does not start with a digit.
   */
  function ScaleAt(s: string, i: nat): (r: Option<(string, string)>)
    ensures r.Some? ==> LitAt(s, i, ConcKey)
    ensures r.Some? ==> r.value.0 != [] && AllIn(r.value.0, Digit) && r.value.1 != [] && AllIn(r.value.1, NumChar)
  {
    var c :- Capture(s, i, ConcKey, Digit);
    var t :- Greedy(Field(ThroughputKey), s, c.1);
    Some((c.0, t))
  }

  function ScalePattern(): (string, nat) -> Option<(string, string)> {
    (s: string, i: nat) => ScaleAt(s, i)
  }

  /**
   * What one line contributes: nothing without a match, else the pair `(int(group 1),
   * float(group 2))`; `None` when `float()` rejects the throughput token.
   */
  function ScaleSample(line: string): (r: Option<seq<(nat, real)>>)
    ensures Search(ScalePattern(), line).None? ==> r == Some([])
    ensures Search(ScalePattern(), line).Some? ==> (r.Some? <==> WellFormedDecimal(Search(ScalePattern(), line).value.1))
    ensures r.Some? ==> |r.value| <= 1
    ensures r.Some? && r.value != [] ==> r.value[0].1 >= 0.0
  {
    match Search(ScalePattern(), line)
    case None => Some([])
    case Some(m) =>
      var throughput :- ParseDecimal(m.1);
      Some([(DigitsValue(m.0), throughput)])
  }

  /** A line in which `conc=` does not occur yields nothing. */
  lemma NoConcNoSample(line: string)
    requires forall k :: 0 <= k <= |line| ==> !LitAt(line, k, ConcKey)
    ensures ScaleSample(line) == Some([])
  {
  }

  /** The text of a scaling line: `conc=<digits><mid>throughput_iter_s=<token><rest>`. */
  function ScaleLineText(digits: string, mid: string, token: string, rest: string): string {
    ConcKey + (digits + (mid + (ThroughputKey + (token + rest))))
  }

  /**
   * A line that starts with the concurrency field yields its level and throughput, whatever
   * stands between them on the same line, when no later `throughput_iter_s=` follows.
   */
  lemma ScaleLineReads(digits: string, mid: string, token: string, rest: string)
    requires digits != [] && AllIn(digits, Digit)
    requires (mid == [] || !IsDigit(mid[0])) && forall k :: 0 <= k < |mid| ==> mid[k] != '\n'
    requires token != [] && AllIn(token, NumChar) && WellFormedDecimal(token)
    requires rest == [] || !IsNumChar(rest[0])
    requires forall k :: 0 <= k < |rest| ==> !LitAt(rest, k, ThroughputKey)
    ensures ScaleSample(ScaleLineText(digits, mid, token, rest)) ==
      Some([(DigitsValue(digits), ParseDecimal(token).value)])
  {
    var line := ScaleLineText(digits, mid, token, rest);
    var fromThroughput := ThroughputKey + (token + rest);
    assert line[0..] == line;
    ScaleAtReads(line, digits, mid, token, rest, fromThroughput);
    SearchLeftmost(ScalePattern(), line, 0, 0);
  }

  lemma ScaleAtReads(line: string, digits: string, mid: string, token: string, rest: string, fromThroughput: string)
    requires line[0..] == ConcKey + (digits + (mid + fromThroughput)) && fromThroughput == ThroughputKey + (token + rest)
    requires digits != [] && AllIn(digits, Digit)
    requires (mid == [] || !IsDigit(mid[0])) && forall k :: 0 <= k < |mid| ==> mid[k] != '\n'
    requires token != [] && AllIn(token, NumChar)
    requires rest == [] || !IsNumChar(rest[0])
    requires forall k :: 0 <= k < |rest| ==> !LitAt(rest, k, ThroughputKey)
    ensures ScaleAt(line, 0) == Some((digits, token))
  {
    var e := |ConcKey| + |digits|;
    assert Capture(line, 0, ConcKey, Digit) == Some((digits, e)) && line[e..] == mid + fromThroughput by {
      assert fromThroughput[0] == 't';
      LevelReads(line, digits, mid, fromThroughput);
    }
    var p := e + |mid|;
    assert p <= LineEnd(line, e) <= |line| && line[p..] == fromThroughput by {
      var p' := MidReads(line, e, mid, fromThroughput);
    }
    assert FieldAt(line, p, ThroughputKey) == Some(token) && forall q :: p < q <= |line| ==> FieldAt(line, q, ThroughputKey).None? by {
      ThroughputReads(line, p, token, rest);
    }
    ScaleAtChain(line, digits, e, p, token);
  }

  /** `conc=(\d+)` at the start of the line reads the level, up to the first non-digit. */
  lemma LevelReads(line: string, digits: string, mid: string, fromThroughput: string)
    requires line[0..] == ConcKey + (digits + (mid + fromThroughput))
    requires digits != [] && AllIn(digits, Digit)
    requires (mid == [] || !IsDigit(mid[0])) && fromThroughput != [] && !IsDigit(fromThroughput[0])
    ensures Capture(line, 0, ConcKey, Digit) == Some((digits, |ConcKey| + |digits|))
    ensures line[|ConcKey| + |digits|..] == mid + fromThroughput
  {
    var after := mid + fromThroughput;
    assert after[0] == if mid == [] then fromThroughput[0] else mid[0];
    CaptureReads(line, 0, ConcKey, Digit, digits, after);
  }

  /** `.*` after the level: the text up to the throughput field holds no line break. */
  lemma MidReads(line: string, e: nat, mid: string, fromThroughput: string) returns (p: nat)
    requires e <= |line| && line[e..] == mid + fromThroughput
    requires forall k :: 0 <= k < |mid| ==> mid[k] != '\n'
    ensures e <= p <= |line| && line[p..] == fromThroughput && LineEnd(line, e) >= p
  {
    p := e + |mid|;
    DropPrefix(line, e, mid, fromThroughput);
    MidOnOneLine(line, e, mid, fromThroughput);
  }

  /** From the capture and the last throughput field on its line, the match of the pattern at 0. */
  lemma ScaleAtChain(line: string, digits: string, e: nat, p: nat, token: string)
    requires Capture(line, 0, ConcKey, Digit) == Some((digits, e))
    requires e <= p <= LineEnd(line, e) <= |line|
    requires FieldAt(line, p, ThroughputKey) == Some(token)
    requires forall q :: p < q <= |line| ==> FieldAt(line, q, ThroughputKey).None?
    ensures ScaleAt(line, 0) == Some((digits, token))
  {
    GreedyLast(Field(ThroughputKey), line, e, LineEnd(line, e), p);
  }

  /** `.*` reaches across `mid`, which holds no line break. */
  lemma MidOnOneLine(s: string, e: nat, mid: string, after: string)
    requires e <= |s| && s[e..] == mid + after
    requires forall k :: 0 <= k < |mid| ==> mid[k] != '\n'
    ensures LineEnd(s, e) >= e + |mid|
  {
    forall k | e <= k < e + |mid| ensures s[k] != '\n' {
      assert s[k] == s[e..][k - e] == mid[k - e];
    }
  }

  /** `throughput_iter_s=([0-9.]+)` at `p` reads the token and matches at no later position. */
  lemma ThroughputReads(s: string, p: nat, token: string, rest: string)
    requires p <= |s| && s[p..] == ThroughputKey + (token + rest)
    requires token != [] && AllIn(token, NumChar)
    requires rest == [] || !IsNumChar(rest[0])
    requires forall k :: 0 <= k < |rest| ==> !LitAt(rest, k, ThroughputKey)
    ensures FieldAt(s, p, ThroughputKey) == Some(token)
    ensures forall q :: p < q <= |s| ==> FieldAt(s, q, ThroughputKey).None?
  {
    CaptureReads(s, p, ThroughputKey, NumChar, token, rest);
    assert forall k :: 0 <= k < |ThroughputKey| - 1 ==> ThroughputKey[k] != ThroughputKey[|ThroughputKey| - 1];
    forall q | p < q <= |s| ensures FieldAt(s, q, ThroughputKey).None? {
      LitNotAfter(s, p, ThroughputKey, token, rest, q);
    }
  }

  // ---------------------------------------------------------------------------------
  // `load_samples`: a `defaultdict(list)` keyed by concurrency

  /** `load_samples(path)`; `None` when a `ValueError` escapes. */
  function Samples(fs: FileSystem, dir: string): Option<map<nat, seq<real>>> {
    Grouped(CheckedRunLogs(Listing(fs, dir)), ScaleSample)
  }

  method LoadSamples(fs: FileSystem, dir: string) returns (r: Option<map<nat, seq<real>>>)
    ensures r == Samples(fs, dir)
  {
    r := GroupKeptSamples(RunLogs(Listing(fs, dir)), NameRechecked, ScaleSample);
  }

  /**
   * A level is present exactly when some line of a file read yields a throughput at that
   * level; its list holds the throughputs of that level in file then line order.
   */
  lemma LevelsFromLines(files: seq<LogFile>, f: string -> Option<seq<(nat, real)>>, c: nat)
    requires forall line :: f(line).Some? ==> |f(line).value| <= 1
    requires Grouped(files, f).Some?
    ensures c in Grouped(files, f).value <==>
      exists file, line, y :: file in files && line in file.lines && f(line) == Some([(c, y)])
    ensures c in Grouped(files, f).value ==>
      Grouped(files, f).value[c] == ValuesFor(Traverse(PerFile(f), files).value, c) != []
  {
    GroupedKeys(files, f, c);
    if c in Grouped(files, f).value {
      LevelHasLine(files, f, c);
    }
    if exists file, line, y :: file in files && line in file.lines && f(line) == Some([(c, y)]) {
      var file, line, y :| file in files && line in file.lines && f(line) == Some([(c, y)]);
      assert (c, y) in f(line).value;
    }
  }

  lemma LevelHasLine(files: seq<LogFile>, f: string -> Option<seq<(nat, real)>>, c: nat)
    requires forall line :: f(line).Some? ==> |f(line).value| <= 1
    requires exists file, line, p :: file in files && line in file.lines && f(line).Some? && p in f(line).value && p.0 == c
    ensures exists file, line, y :: file in files && line in file.lines && f(line) == Some([(c, y)])
  {
    var file, line, p :| file in files && line in file.lines && f(line).Some? && p in f(line).value && p.0 == c;
    var v := f(line).value;
    assert |v| == 1 && v[0] == p;
    assert v == [(c, p.1)];
    var y := p.1;
    assert file in files && line in file.lines && f(line) == Some([(c, y)]);
  }

  /** The same, for the run logs of a directory. */
  lemma SampleLevels(fs: FileSystem, dir: string, c: nat)
    requires Samples(fs, dir).Some?
    ensures c in Samples(fs, dir).value <==>
      exists file, line, y :: file in CheckedRunLogs(Listing(fs, dir)) && line in file.lines && ScaleSample(line) == Some([(c, y)])
    ensures c in Samples(fs, dir).value ==> Samples(fs, dir).value[c] != []
  {
    LevelsFromLines(CheckedRunLogs(Listing(fs, dir)), ScaleSample, c);
  }

  // ---------------------------------------------------------------------------------
  // `main`

  function LoadOf(fs: FileSystem): string -> Option<map<nat, seq<real>>> {
    (dir: string) => Samples(fs, dir)
  }

  /** One summary line: a runtime at one level, with mean, min, max and count. */
  datatype LevelLine = LevelLine(runtime: string, conc: nat, mean: real, min: real, max: real, n: nat)

  /** Every level's list is non-empty, as a `defaultdict` only creates it on an append. */
  ghost predicate Measured(concMap: map<nat, seq<real>>) {
    forall c :: c in concMap ==> concMap[c] != []
  }

  function LevelLineOf(runtime: string, c: nat, vals: seq<real>): (l: LevelLine)
    requires vals != []
    ensures l.runtime == runtime && l.conc == c && l.n == |vals|
    ensures l.min <= l.mean <= l.max && l.min in vals && l.max in vals
  {
    MeanBounds(vals);
    LevelLine(runtime, c, Mean(vals), Min(vals), Max(vals), |vals|)
  }

  /** The lines of one runtime, over `sorted(conc_map.keys())`. */
  function RuntimeLines(runtime: string, concMap: map<nat, seq<real>>): (r: seq<LevelLine>)
    requires Measured(concMap)
    ensures |r| == |concMap.Keys|
    ensures forall i, j :: 0 <= i < j < |r| ==> r[i].conc < r[j].conc
    ensures forall i :: 0 <= i < |r| ==> r[i].conc in concMap && r[i] == LevelLineOf(runtime, r[i].conc, concMap[r[i].conc])
    ensures forall c :: c in concMap <==> exists i :: 0 <= i < |r| && r[i].conc == c
  {
    var concs := SortedNats(concMap.Keys);
    var r := LinesOf(runtime, concMap, concs);
    LinesCoverLevels(concMap, concs, r);
    r
  }

  function LinesOf(runtime: string, concMap: map<nat, seq<real>>, concs: seq<nat>): (r: seq<LevelLine>)
    requires Measured(concMap) && forall c :: c in concs ==> c in concMap
    ensures |r| == |concs|
    ensures forall i :: 0 <= i < |r| ==> r[i] == LevelLineOf(runtime, concs[i], concMap[concs[i]])
  {
    seq(|concs|, i requires 0 <= i < |concs| => LevelLineOf(runtime, concs[i], concMap[concs[i]]))
  }

  lemma LinesCoverLevels(concMap: map<nat, seq<real>>, concs: seq<nat>, r: seq<LevelLine>)
    requires |r| == |concs| && forall i :: 0 <= i < |r| ==> r[i].conc == concs[i]
    requires forall c :: c in concs <==> c in concMap
    ensures forall c :: c in concMap <==> exists i :: 0 <= i < |r| && r[i].conc == c
  {
    forall c | c in concMap ensures exists i :: 0 <= i < |r| && r[i].conc == c {
      var i :| 0 <= i < |concs| && concs[i] == c;
      assert r[i].conc == c;
    }
  }

  /** The summary: every runtime of `data` in order, each level ascending. */
  function SummaryOf(data: seq<(string, map<nat, seq<real>>)>): seq<LevelLine>
    requires forall e :: e in data ==> Measured(e.1)
  {
    if data == [] then []
    else
      var init, last := data[..|data| - 1], data[|data| - 1];
      assert forall e :: e in init ==> e in data;
      SummaryOf(init) + RuntimeLines(last.0, last.1)
  }

  /** A line is in the summary exactly when it is a line of some runtime of `data`. */
  lemma {:induction false} SummaryMember(data: seq<(string, map<nat, seq<real>>)>, l: LevelLine)
    requires forall e :: e in data ==> Measured(e.1)
    ensures l in SummaryOf(data) <==> exists e :: e in data && l in RuntimeLines(e.0, e.1)
  {
    if data != [] {
      var init, last := data[..|data| - 1], data[|data| - 1];
      assert forall e :: e in init ==> e in data;
      SummaryMember(init, l);
      assert forall e :: e in data ==> e in init || e == last;
    }
  }

  lemma RuntimesDistinct()
    ensures DistinctNames(Runtimes)
  {
  }

  /** How the script ends: an exception, no data (it returns before any summary), or the report. */
  datatype Outcome =
    | Raised
    | NoData
    | Report(data: seq<(string, map<nat, seq<real>>)>, summary: seq<LevelLine>)

  /** Every runtime in `data` has levels, each with samples. */
  lemma DataMeasured(fs: FileSystem)
    requires Collected(LoadOf(fs), map[], Runtimes).Some?
    ensures forall e :: e in Collected(LoadOf(fs), map[], Runtimes).value ==> e.1 != map[] && Measured(e.1)
  {
    forall e | e in Collected(LoadOf(fs), map[], Runtimes).value ensures e.1 != map[] && Measured(e.1) {
      CollectedMember(LoadOf(fs), map[], Runtimes, e);
      var i :| 0 <= i < |Runtimes| && Runtimes[i].0 == e.0 && Samples(fs, Runtimes[i].1) == Some(e.1) && e.1 != map[];
      forall c | c in e.1 ensures e.1[c] != [] {
        SampleLevels(fs, Runtimes[i].1, c);
      }
    }
  }

  function OutcomeOf(fs: FileSystem): Outcome {
    match Collected(LoadOf(fs), map[], Runtimes)
    case None => Raised
    case Some(data) =>
      if data == [] then NoData
      else
        DataMeasured(fs);
        Report(data, SummaryOf(data))
  }

  /** The loop over the runtimes in `main`: each directory's samples, or the first exception. */
  method CollectData(fs: FileSystem) returns (r: Option<seq<(string, map<nat, seq<real>>)>>)
    ensures r == Collected(LoadOf(fs), map[], Runtimes)
  {
    var runtimes := Runtimes;
    var data: seq<(string, map<nat, seq<real>>)> := [];
    for i := 0 to |runtimes|
      invariant CollectedUpTo(LoadOf(fs), map[], runtimes, i, data)
    {
      var rt := runtimes[i];
      var samples := LoadSamples(fs, rt.1);
      if samples.None? {
        CollectFails(LoadOf(fs), map[], runtimes, i);
        return None;
      }
      CollectStep(LoadOf(fs), map[], runtimes, i, data, samples.value);
      if samples.value != map[] {
        data := data + [(rt.0, samples.value)];
      }
    }
    CollectDone(LoadOf(fs), map[], runtimes, data);
    r := Some(data);
  }


  method Analyze(fs: FileSystem) returns (o: Outcome)
    ensures o == OutcomeOf(fs)
  {
    var collected := CollectData(fs);
    if collected.None? {
      return Raised;
    }
    var data := collected.value;
    if data == [] {
      return NoData;
    }
    DataMeasured(fs);
    o := Report(data, SummaryOf(data));
  }

  /** The script stops before any summary exactly when no runtime's logs yield a sample. */
  lemma NoDataIffNoSamples(fs: FileSystem)
    requires OutcomeOf(fs) != Raised
    ensures OutcomeOf(fs) == NoData <==> forall i :: 0 <= i < |Runtimes| ==> Samples(fs, Runtimes[i].1) == Some(map[])
  {
    CollectedEmpty(LoadOf(fs), map[], Runtimes);
  }

  /**
   * A summary line stands for a level that occurs in the logs of its runtime: it reports
   * that level's samples, and each level of each runtime with samples has a line.
   */
  lemma SummaryCoversLevels(fs: FileSystem, i: nat, c: nat)
    requires OutcomeOf(fs).Report? && i < |Runtimes|
    requires Samples(fs, Runtimes[i].1).Some? && c in Samples(fs, Runtimes[i].1).value
    ensures exists l :: (l in OutcomeOf(fs).summary && l.runtime == Runtimes[i].0 && l.conc == c &&
      l.n == |Samples(fs, Runtimes[i].1).value[c]|)
  {
    var m := Samples(fs, Runtimes[i].1).value;
    var e := (Runtimes[i].0, m);
    CollectedMember(LoadOf(fs), map[], Runtimes, e);
    assert e in OutcomeOf(fs).data;
    DataMeasured(fs);
    var lines := RuntimeLines(e.0, e.1);
    var k :| 0 <= k < |lines| && lines[k].conc == c;
    assert lines[k] in lines;
    SummaryMember(OutcomeOf(fs).data, lines[k]);
  }

  /** A runtime without samples is not in `data`. */
  lemma RuntimeWithoutSamplesAbsent(fs: FileSystem, j: nat)
    requires OutcomeOf(fs).Report? && j < |Runtimes|
    requires Samples(fs, Runtimes[j].1) == Some(map[])
    ensures forall e :: e in OutcomeOf(fs).data ==> e.0 != Runtimes[j].0
  {
    RuntimesDistinct();
    CollectedAbsent(LoadOf(fs), map[], Runtimes, j);
  }
}
