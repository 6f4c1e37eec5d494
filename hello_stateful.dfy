/**
 * The stateless-versus-stateful comparison of http-hello: latencies are filed under the
 * request path a record names (`/` when it names none), and the mean of `/state` is set
 * against the mean of `/` as a percentage overhead.
 */
module HelloStateful {
  import opened Common
  import opened Seqs
  import opened Sorting
  import opened Text
  import opened Stats
  import opened LogFiles
  import opened RuntimeTable

  const Runtimes: Table := [
    ("native", "results/raw/native/http-hello"),
    ("docker", "results/raw/docker/http-hello"),
    ("wasmtime", "results/raw/wasmtime/http-hello")]

  const Stateless: string := "/"
  const Stateful: string := "/state"

  // ---------------------------------------------------------------------------------
  // `req=\d+(?:\s+path=([^\s]+))?\s+.*?latency_ms=([0-9.]+)`

  /** A match of the latency pattern: group 1 (the path, if the optional part matched), group 2. */
  datatype LatencyMatch = LatencyMatch(path: Option<string>, latencyMs: string)

  /** `\s+path=([^\s]+)` at `i`: the captured path and the position after it. */
  function PathFieldAt(s: string, i: nat): (r: Option<(string, nat)>)
    ensures r.Some? ==> r.value.0 != [] && AllIn(r.value.0, NonSpace) && r.value.1 <= |s|
    ensures r.Some? ==> exists b :: LitAt(s, b, "path=") && StartsWith(s[b + 5..], r.value.0)
  {
    var a :- Run1(s, i, Space);
    var b :- Lit(s, a, "path=");
    var c :- Run1(s, b, NonSpace);
    assert LitAt(s, a, "path=") && s[b..][..c - b] == s[b..c];
    Some((s[b..c], c))
  }

  /** `\s+.*?latency_ms=([0-9.]+)` at `i`: the captured latency token. */
  function LatencyTailAt(s: string, i: nat): (r: Option<string>)
    ensures r.Some? ==> r.value != [] && AllIn(r.value, NumChar)
  {
    var a :- Run1(s, i, Space);
    Lazy(Field("latency_ms="), s, a)
  }

  /**
   * The whole pattern at `i`. The optional path part is tried first; only when the rest of
   * the pattern then fails does the engine retry without it, leaving group 1 unset.
   */
  function LatencyMatchAt(s: string, i: nat): (r: Option<LatencyMatch>)
    ensures r.Some? ==> ValidMatch(r.value)
    ensures r.Some? && r.value.path.Some? ==>
      exists b :: LitAt(s, b, "path=") && StartsWith(s[b + 5..], r.value.path.value)
  {
    var j :- Lit(s, i, "req=");
    var k :- Run1(s, j, Digit);
    var withPath :=
      match PathFieldAt(s, k)
      case None => None
      case Some(pc) =>
        match LatencyTailAt(s, pc.1)
        case None => None
        case Some(t) => Some(LatencyMatch(Some(pc.0), t));
    if withPath.Some? then withPath
    else
      var t :- LatencyTailAt(s, k);
      Some(LatencyMatch(None, t))
  }

  /** Group 2 is a `[0-9.]+` token and group 1, when set, a non-empty path. */
  predicate ValidMatch(m: LatencyMatch) {
    && m.latencyMs != [] && AllIn(m.latencyMs, NumChar)
    && (m.path.Some? ==> m.path.value != [])
  }

  function LatencyPattern(): (string, nat) -> Option<LatencyMatch> {
    (s: string, i: nat) => LatencyMatchAt(s, i)
  }

  lemma SearchedMatchValid(line: string)
    ensures Search(LatencyPattern(), line).Some? ==> ValidMatch(Search(LatencyPattern(), line).value)
  {
    var r := Search(LatencyPattern(), line);
    if r.Some? {
      var j :| 0 <= j <= |line| && LatencyPattern()(line, j) == r;
      assert LatencyMatchAt(line, j) == r;
    }
  }

  /**
   * What one line adds to `by_path`: nothing without a match, else the latency filed under
   * the captured path or under `/`; `None` when `float()` rejects the captured token.
   */
  function PathSample(line: string): (r: Option<seq<(string, real)>>)
    ensures r.Some? ==> |r.value| <= 1
    ensures r.Some? && r.value != [] ==> r.value[0].0 != [] && r.value[0].1 >= 0.0
  {
    match Search(LatencyPattern(), line)
    case None => Some([])
    case Some(m) =>
      SearchedMatchValid(line);
      var ms :- ParseDecimal(m.latencyMs);
      Some([(m.path.GetOr(Stateless), ms)])
  }

  /** A line in which `path=` does not occur files its latency under `/`. */
  lemma LineWithoutPathFieldIsStateless(line: string)
    requires forall b :: !LitAt(line, b, "path=")
    requires PathSample(line).Some? && PathSample(line).value != []
    ensures PathSample(line).value[0].0 == Stateless
  {
  }

  /**
   * What may stand between the request number (or the path) and `latency_ms=` in a record
   * such as `http_code=200 latency_ns=412000 `: no line break, no leading white space, and
   * no `latency_ms=` of its own.
   */
  predicate PlainGap(mid: string) {
    && (mid == [] || !IsSpace(mid[0]))
    && (forall q :: 0 <= q < |mid| ==> mid[q] != '\n')
    && (forall q :: 0 <= q < |mid| ==> !LitAt(mid + "latency_ms=", q, "latency_ms="))
  }

  /** A latency token followed by something that cannot extend it. */
  predicate LatencyToken(n: string, rest: string) {
    n != [] && AllIn(n, NumChar) && (rest == [] || !IsNumChar(rest[0]))
  }

  /** The tail of the pattern reads the latency of a record whose gap is plain. */
  lemma LatencyTail(s: string, k: nat, mid: string, n: string, rest: string)
    requires k <= |s| && s[k..] == " " + (mid + ("latency_ms=" + (n + rest)))
    requires PlainGap(mid) && LatencyToken(n, rest)
    ensures LatencyTailAt(s, k) == Some(n)
  {
    var field := "latency_ms=" + (n + rest);
    var a, f := k + 1, k + 1 + |mid|;
    assert (mid + field)[0] == (if mid == [] then 'l' else mid[0]);
    Run1Reads(s, k, Space, " ", mid + field);
    DropPrefix(s, k, " ", mid + field);
    DropPrefix(s, a, mid, field);
    LatencyFieldReads(s, f, n, rest);
    GapHasNoField(s, a, mid, n + rest);
    LazyFirst(Field("latency_ms="), s, a, f);
  }

  lemma LatencyFieldReads(s: string, f: nat, n: string, rest: string)
    requires f <= |s| && s[f..] == "latency_ms=" + (n + rest)
    requires LatencyToken(n, rest)
    ensures FieldAt(s, f, "latency_ms=") == Some(n)
  {
    LitReads(s, f, "latency_ms=", n + rest);
    DropPrefix(s, f, "latency_ms=", n + rest);
    Run1Reads(s, f + 11, NumChar, n, rest);
  }

  lemma GapHasNoField(s: string, a: nat, mid: string, tail: string)
    requires a <= |s| && s[a..] == mid + ("latency_ms=" + tail)
    requires PlainGap(mid)
    ensures forall q :: a <= q < a + |mid| ==> Field("latency_ms=")(s, q).None? && s[q] != '\n'
  {
    forall q | a <= q < a + |mid|
      ensures Field("latency_ms=")(s, q).None? && s[q] != '\n'
    {
      assert s[q] == s[a..][q - a] == mid[q - a];
      assert !LitAt(mid + "latency_ms=", q - a, "latency_ms=");
      assert s[q..q + 11] == s[a..][q - a..q - a + 11] == (mid + "latency_ms=")[q - a..q - a + 11];
    }
  }

  /**
   * A record without a `path=` field right after the request number, such as
   * `req=7 http_code=200 latency_ns=412000 latency_ms=0.412`, files its latency under `/`,
   * whatever its status code.
   */
  lemma RecordWithoutPath(line: string, d: string, mid: string, n: string, rest: string)
    requires line == "req=" + d + " " + mid + "latency_ms=" + n + rest
    requires d != [] && AllIn(d, Digit)
    requires PlainGap(mid) && !StartsWith(mid + "latency_ms=", "path=")
    requires LatencyToken(n, rest) && WellFormedDecimal(n)
    ensures PathSample(line) == Some([(Stateless, ParseDecimal(n).value)])
  {
    var after := mid + ("latency_ms=" + (n + rest));
    assert line == "req=" + (d + (" " + after));
    assert after == (mid + "latency_ms=") + (n + rest);
    NoPathRecordReads(line, d, after, mid, n, rest);
  }

  lemma NoPathRecordReads(line: string, d: string, after: string, mid: string, n: string, rest: string)
    requires line == "req=" + (d + (" " + after))
    requires after == mid + ("latency_ms=" + (n + rest)) && after == (mid + "latency_ms=") + (n + rest)
    requires d != [] && AllIn(d, Digit)
    requires PlainGap(mid) && !StartsWith(mid + "latency_ms=", "path=")
    requires LatencyToken(n, rest) && WellFormedDecimal(n)
    ensures PathSample(line) == Some([(Stateless, ParseDecimal(n).value)])
  {
    var k := 4 + |d|;
    assert after[0] == (mid + "latency_ms=")[0];
    RequestNumberReads(line, d, after);
    DropPrefix(line, k, " ", after);
    PrefixOfLonger(mid + "latency_ms=", n + rest, "path=");
    NoPathField(line, k, after);
    LatencyTail(line, k, mid, n, rest);
    MatchWithoutPath(line, k, n);
    SampleOfFirstMatch(line, LatencyMatch(None, n));
  }

  lemma PrefixOfLonger(x: string, y: string, p: string)
    requires |p| <= |x|
    ensures StartsWith(x + y, p) == StartsWith(x, p)
  {
    assert (x + y)[..|p|] == x[..|p|];
  }

  /** A blank not followed by `path=` leaves the optional path part unmatched. */
  lemma NoPathField(s: string, k: nat, after: string)
    requires Run1(s, k, Space) == Some(k + 1)
    requires k + 1 <= |s| && s[k + 1..] == after && !StartsWith(after, "path=")
    ensures PathFieldAt(s, k).None?
  {
    if k + 6 <= |s| {
      assert s[k + 1..k + 6] == after[..5];
    }
  }

  lemma MatchWithoutPath(s: string, k: nat, n: string)
    requires Lit(s, 0, "req=") == Some(4) && Run1(s, 4, Digit) == Some(k)
    requires PathFieldAt(s, k).None? && LatencyTailAt(s, k) == Some(n)
    ensures LatencyMatchAt(s, 0) == Some(LatencyMatch(None, n))
  {
  }

  lemma MatchWithPath(s: string, k: nat, path: string, c: nat, n: string)
    requires Lit(s, 0, "req=") == Some(4) && Run1(s, 4, Digit) == Some(k)
    requires PathFieldAt(s, k) == Some((path, c)) && LatencyTailAt(s, c) == Some(n)
    ensures LatencyMatchAt(s, 0) == Some(LatencyMatch(Some(path), n))
  {
  }

  /**
   * A record with a `path=` field right after the request number, such as
   * `req=7 path=/state http_code=200 latency_ns=412000 latency_ms=0.412`, files its latency
   * under the captured path.
   */
  lemma RecordWithPath(line: string, d: string, path: string, mid: string, n: string, rest: string)
    requires line == "req=" + (d + (" " + ("path=" + (path + (" " + (mid + ("latency_ms=" + (n + rest))))))))
    requires d != [] && AllIn(d, Digit)
    requires path != [] && AllIn(path, NonSpace)
    requires PlainGap(mid)
    requires LatencyToken(n, rest) && WellFormedDecimal(n)
    ensures PathSample(line) == Some([(path, ParseDecimal(n).value)])
  {
    var after := mid + ("latency_ms=" + (n + rest));
    var fromPath := "path=" + (path + (" " + after));
    RequestNumberReads(line, d, fromPath);
    DropPrefix(line, 4, d, " " + fromPath);
    PathTailReads(line, 4 + |d|, path, mid, n, rest);
    SampleOfFirstMatch(line, LatencyMatch(Some(path), n));
  }

  /** From the blank after the request number on: the path, the gap and the latency. */
  lemma PathTailReads(line: string, k: nat, path: string, mid: string, n: string, rest: string)
    requires Lit(line, 0, "req=") == Some(4) && Run1(line, 4, Digit) == Some(k)
    requires k <= |line| && line[k..] == " " + ("path=" + (path + (" " + (mid + ("latency_ms=" + (n + rest))))))
    requires path != [] && AllIn(path, NonSpace)
    requires PlainGap(mid) && LatencyToken(n, rest)
    ensures LatencyMatchAt(line, 0) == Some(LatencyMatch(Some(path), n))
  {
    var c := PathTailFacts(line, k, path, mid, n, rest);
    MatchWithPath(line, k, path, c, n);
  }

  /** The path field and the latency tail of such a line, each read on its own. */
  lemma PathTailFacts(line: string, k: nat, path: string, mid: string, n: string, rest: string) returns (c: nat)
    requires k <= |line| && line[k..] == " " + ("path=" + (path + (" " + (mid + ("latency_ms=" + (n + rest))))))
    requires path != [] && AllIn(path, NonSpace)
    requires PlainGap(mid) && LatencyToken(n, rest)
    ensures c <= |line| && PathFieldAt(line, k) == Some((path, c)) && LatencyTailAt(line, c) == Some(n)
  {
    var after := mid + ("latency_ms=" + (n + rest));
    c := k + 6 + |path|;
    assert PathFieldAt(line, k) == Some((path, c)) && line[c..] == " " + after by {
      PathFieldReads(line, k, path, after);
    }
    assert LatencyTailAt(line, c) == Some(n) by {
      LatencyTail(line, c, mid, n, rest);
    }
  }

  /** `\s+path=([^\s]+)` reads one blank, the key and the path up to the next blank. */
  lemma PathFieldReads(line: string, k: nat, path: string, after: string)
    requires k <= |line| && line[k..] == " " + ("path=" + (path + (" " + after)))
    requires path != [] && AllIn(path, NonSpace)
    ensures PathFieldAt(line, k) == Some((path, k + 6 + |path|))
    ensures line[k + 6 + |path|..] == " " + after
  {
    var b, c := PathFieldSteps(line, k, path, after);
    PathFieldChain(line, k, b, c);
  }

  /** The blank, the key and the path of `\s+path=([^\s]+)`, one step at a time. */
  lemma PathFieldSteps(line: string, k: nat, path: string, after: string) returns (b: nat, c: nat)
    requires k <= |line| && line[k..] == " " + ("path=" + (path + (" " + after)))
    requires path != [] && AllIn(path, NonSpace)
    ensures b == k + 6 && c == b + |path| && c <= |line|
    ensures Run1(line, k, Space) == Some(k + 1) && Lit(line, k + 1, "path=") == Some(b)
    ensures Run1(line, b, NonSpace) == Some(c) && line[b..c] == path && line[c..] == " " + after
  {
    Run1Reads(line, k, Space, " ", "path=" + (path + (" " + after)));
    DropPrefix(line, k, " ", "path=" + (path + (" " + after)));
    LitReads(line, k + 1, "path=", path + (" " + after));
    DropPrefix(line, k + 1, "path=", path + (" " + after));
    b, c := k + 6, k + 6 + |path|;
    Run1Reads(line, b, NonSpace, path, " " + after);
    DropPrefix(line, b, path, " " + after);
  }

  lemma PathFieldChain(line: string, k: nat, b: nat, c: nat)
    requires Run1(line, k, Space) == Some(k + 1) && Lit(line, k + 1, "path=") == Some(b)
    requires b <= c <= |line| && Run1(line, b, NonSpace) == Some(c)
    ensures PathFieldAt(line, k) == Some((line[b..c], c))
  {
  }

  /** A match at the start of the line is the one `search` returns. */
  lemma SampleOfFirstMatch(line: string, m: LatencyMatch)
    requires LatencyMatchAt(line, 0) == Some(m) && WellFormedDecimal(m.latencyMs)
    ensures PathSample(line) == Some([(m.path.GetOr(Stateless), ParseDecimal(m.latencyMs).value)])
  {
    SearchLeftmost(LatencyPattern(), line, 0, 0);
  }

  /** `req=\d+` and the white space after it read the request number and one blank. */
  lemma RequestNumberReads(line: string, d: string, after: string)
    requires line == "req=" + (d + (" " + after))
    requires d != [] && AllIn(d, Digit)
    ensures Lit(line, 0, "req=") == Some(4)
    ensures Run1(line, 4, Digit) == Some(4 + |d|)
    ensures line[4 + |d|..] == " " + after
    ensures after != [] && !IsSpace(after[0]) ==> Run1(line, 4 + |d|, Space) == Some(5 + |d|)
  {
    LitReads(line, 0, "req=", d + (" " + after));
    DropPrefix(line, 0, "req=", d + (" " + after));
    Run1Reads(line, 4, Digit, d, " " + after);
    DropPrefix(line, 4, d, " " + after);
    if after != [] && !IsSpace(after[0]) {
      Run1Reads(line, 4 + |d|, Space, " ", after);
    }
  }

  // ---------------------------------------------------------------------------------
  // `load_samples_by_path`

  /** `dict(by_path)`; `None` when a `ValueError` escapes. */
  function SamplesByPath(fs: FileSystem, dir: string): Option<map<string, seq<real>>> {
    Grouped(RunLogs(Listing(fs, dir)), PathSample)
  }

  method LoadSamplesByPath(fs: FileSystem, dir: string) returns (r: Option<map<string, seq<real>>>)
    ensures r == SamplesByPath(fs, dir)
  {
    r := GroupSamples(RunLogs(Listing(fs, dir)), PathSample);
  }

  /**
   * A path is a key exactly when some line of some run log files a latency under it, with
   * no filtering on the status code; its list holds that path's latencies in file then line
   * order.
   */
  lemma SamplesByPathKeys(fs: FileSystem, dir: string, path: string)
    requires SamplesByPath(fs, dir).Some?
    ensures path in SamplesByPath(fs, dir).value <==>
      exists file, line, ms :: file in RunLogs(Listing(fs, dir)) && line in file.lines && PathSample(line) == Some([(path, ms)])
    ensures path in SamplesByPath(fs, dir).value ==>
      SamplesByPath(fs, dir).value[path] == ValuesFor(Traverse(PerFile(PathSample), RunLogs(Listing(fs, dir))).value, path) != []
  {
    GroupedKeys(RunLogs(Listing(fs, dir)), PathSample, path);
    forall line, ms | PathSample(line).Some? && (path, ms) in PathSample(line).value
      ensures PathSample(line) == Some([(path, ms)])
    {
    }
  }

  // ---------------------------------------------------------------------------------
  // `calculate_overhead_pct`

  /**
   * The overhead of the stateful mean over the stateless one, in percent; 0 when the
   * stateless value is 0.
   */
  function OverheadPct(stateless: real, stateful: real): (r: real)
    ensures stateless != 0.0 ==> stateful == stateless + stateless * r / 100.0
  {
    if stateless == 0.0 then 0.0 else (stateful - stateless) / stateless * 100.0
  }

  /** With a positive stateless value the overhead has the sign of the difference. */
  lemma OverheadSign(stateless: real, stateful: real)
    requires stateless > 0.0
    ensures OverheadPct(stateless, stateful) > 0.0 <==> stateful > stateless
    ensures OverheadPct(stateless, stateful) == 0.0 <==> stateful == stateless
    ensures OverheadPct(stateless, stateful) < 0.0 <==> stateful < stateless
  {
    var r := OverheadPct(stateless, stateful);
    assert stateful - stateless == stateless * r / 100.0;
    ProductSign(stateless, r);
  }

  lemma ProductSign(a: real, b: real)
    requires a > 0.0
    ensures a * b / 100.0 > 0.0 <==> b > 0.0
    ensures a * b / 100.0 < 0.0 <==> b < 0.0
  {
    if b > 0.0 {
      assert a * b > 0.0;
    } else if b < 0.0 {
      assert a * -b > 0.0;
    }
  }

  /** A zero stateless value gives no overhead, whatever the stateful value. */
  lemma OverheadOfZero(stateful: real)
    ensures OverheadPct(0.0, stateful) == 0.0
  {
  }

  // ---------------------------------------------------------------------------------
  // The both-paths gate of `print_summary` and `plot_overhead_bar_chart`

  /** Every list of a `by_path` dictionary is non-empty, as `Group` makes it. */
  predicate NonEmptyLists(pathData: map<string, seq<real>>) {
    forall k :: k in pathData ==> pathData[k] != []
  }

  predicate HasBothPaths(pathData: map<string, seq<real>>) {
    Stateless in pathData && Stateful in pathData
  }

  datatype PathStats = PathStats(mean: real, median: real, samples: nat)

  /** What `print_summary` reports for one runtime. */
  datatype RuntimeReport =
    | Compared(stateless: PathStats, stateful: PathStats, overheadPct: real)
    | PathsFound(paths: set<string>, warnNoState: bool)

  function StatsOf(samples: seq<real>): (r: PathStats)
    requires samples != []
    ensures r.samples == |samples| && Min(samples) <= r.median <= Max(samples)
  {
    PathStats(Mean(samples), Median(samples), |samples|)
  }

  /**
   * The comparison is made exactly when both `/` and `/state` have latencies; otherwise the
   * paths found are listed, with a warning when `/state` is the one missing.
   */
  function ReportOf(pathData: map<string, seq<real>>): (r: RuntimeReport)
    requires NonEmptyLists(pathData)
    ensures r.Compared? <==> HasBothPaths(pathData)
    ensures r.Compared? ==> r.overheadPct == OverheadPct(Mean(pathData[Stateless]), Mean(pathData[Stateful]))
    ensures r.Compared? ==> r.stateless.samples == |pathData[Stateless]| && r.stateful.samples == |pathData[Stateful]|
    ensures r.PathsFound? ==> r.paths == pathData.Keys && (r.warnNoState <==> Stateful !in pathData)
  {
    if HasBothPaths(pathData) then
      var sl, st := StatsOf(pathData[Stateless]), StatsOf(pathData[Stateful]);
      Compared(sl, st, OverheadPct(sl.mean, st.mean))
    else
      PathsFound(pathData.Keys, Stateful !in pathData)
  }

  /** One bar of the overhead chart, for a runtime with both paths. */
  function BarOf(e: (string, map<string, seq<real>>)): Option<(string, real)> {
    if HasBothPaths(e.1) && NonEmptyLists(e.1) then
      Some((e.0, OverheadPct(Mean(e.1[Stateless]), Mean(e.1[Stateful]))))
    else None
  }

  /** The bars of the overhead chart: the runtimes in name order, those with both paths. */
  function OverheadBars(data: seq<(string, map<string, seq<real>>)>): seq<(string, real)> {
    FilterMap(BarOf, SortByKey(data))
  }

  /** A bar is red when the overhead is positive, green otherwise. */
  datatype Colour = Red | Green

  function BarColour(overheadPct: real): Colour {
    if overheadPct > 0.0 then Red else Green
  }

  /** With a positive stateless mean a bar is red exactly when `/state` is slower on average. */
  lemma BarColourRule(stateless: real, stateful: real)
    requires stateless > 0.0
    ensures BarColour(OverheadPct(stateless, stateful)) == Red <==> stateful > stateless
  {
    OverheadSign(stateless, stateful);
  }

  /** A runtime has a bar exactly when it has both paths, and the bar carries its overhead. */
  lemma OverheadBarsGate(data: seq<(string, map<string, seq<real>>)>, rt: string, o: real)
    requires forall e :: e in data ==> NonEmptyLists(e.1)
    ensures (rt, o) in OverheadBars(data) <==>
      exists e :: e in data && e.0 == rt && NonEmptyLists(e.1) && HasBothPaths(e.1) && o == OverheadPct(Mean(e.1[Stateless]), Mean(e.1[Stateful]))
  {
    var sorted := SortByKey(data);
    FilterMapMember(BarOf, sorted, (rt, o));
    if (rt, o) in OverheadBars(data) {
      var i :| 0 <= i < |sorted| && BarOf(sorted[i]) == Some((rt, o));
      assert sorted[i] in sorted;
    }
    if exists e :: e in data && e.0 == rt && NonEmptyLists(e.1) && HasBothPaths(e.1) && o == OverheadPct(Mean(e.1[Stateless]), Mean(e.1[Stateful])) {
      var e :| e in data && e.0 == rt && NonEmptyLists(e.1) && HasBothPaths(e.1) && o == OverheadPct(Mean(e.1[Stateless]), Mean(e.1[Stateful]));
      assert e in sorted;
      var i :| 0 <= i < |sorted| && sorted[i] == e;
    }
  }

  // ---------------------------------------------------------------------------------
  // `main`

  function LoadOf(fs: FileSystem): string -> Option<map<string, seq<real>>> {
    (dir: string) => SamplesByPath(fs, dir)
  }

  /** Every list `load_samples_by_path` returns holds at least one latency. */
  lemma SamplesByPathNonEmpty(fs: FileSystem, dir: string)
    requires SamplesByPath(fs, dir).Some?
    ensures NonEmptyLists(SamplesByPath(fs, dir).value)
  {
    forall k | k in SamplesByPath(fs, dir).value ensures SamplesByPath(fs, dir).value[k] != [] {
      GroupedKeys(RunLogs(Listing(fs, dir)), PathSample, k);
    }
  }

  /** How the script ends: an exception, exit status 1 without data, or the report. */
  datatype Outcome =
    | Raised
    | NoData
    | Report(data: seq<(string, map<string, seq<real>>)>, hasStateful: bool,
             summary: seq<(string, RuntimeReport)>, bars: seq<(string, real)>)

  /** `data` of a run that did not raise: every list in it is non-empty. */
  lemma DataNonEmpty(fs: FileSystem)
    requires Collected(LoadOf(fs), map[], Runtimes).Some?
    ensures forall e :: e in Collected(LoadOf(fs), map[], Runtimes).value ==> NonEmptyLists(e.1)
  {
    forall e | e in Collected(LoadOf(fs), map[], Runtimes).value ensures NonEmptyLists(e.1) {
      CollectedMember(LoadOf(fs), map[], Runtimes, e);
      var i :| 0 <= i < |Runtimes| && Runtimes[i].0 == e.0 && LoadOf(fs)(Runtimes[i].1) == Some(e.1) && e.1 != map[];
      SamplesByPathNonEmpty(fs, Runtimes[i].1);
    }
  }

  function SummaryOf(data: seq<(string, map<string, seq<real>>)>): (r: seq<(string, RuntimeReport)>)
    requires forall e :: e in data ==> NonEmptyLists(e.1)
    ensures |r| == |data|
    ensures forall i :: 0 <= i < |data| ==> r[i] == (data[i].0, ReportOf(data[i].1))
  {
    seq(|data|, i requires 0 <= i < |data| => (assert data[i] in data; (data[i].0, ReportOf(data[i].1))))
  }

  function OutcomeOf(fs: FileSystem): Outcome {
    match Collected(LoadOf(fs), map[], Runtimes)
    case None => Raised
    case Some(data) =>
      if data == [] then NoData
      else
        DataNonEmpty(fs);
        Report(data, exists e :: e in data && Stateful in e.1, SummaryOf(data), OverheadBars(data))
  }

  method Analyze(fs: FileSystem) returns (o: Outcome)
    ensures o == OutcomeOf(fs)
  {
    var data := CollectData(fs);
    if data.None? {
      return Raised;
    }
    if data.value == [] {
      return NoData;
    }
    DataNonEmpty(fs);
    var d := data.value;
    o := Report(d, exists e :: e in d && Stateful in e.1, SummaryOf(d), OverheadBars(d));
  }

  /** The loop of `main` that fills `data`. */
  method CollectData(fs: FileSystem) returns (r: Option<seq<(string, map<string, seq<real>>)>>)
    ensures r == Collected(LoadOf(fs), map[], Runtimes)
  {
    var runtimes := Runtimes;
    var data: seq<(string, map<string, seq<real>>)> := [];
    for i := 0 to |runtimes|
      invariant CollectedUpTo(LoadOf(fs), map[], runtimes, i, data)
    {
      var rt := runtimes[i];
      var pathData := LoadSamplesByPath(fs, rt.1);
      if pathData.None? {
        CollectFails(LoadOf(fs), map[], runtimes, i);
        return None;
      }
      CollectStep(LoadOf(fs), map[], runtimes, i, data, pathData.value);
      if pathData.value != map[] {
        data := data + [(rt.0, pathData.value)];
      }
    }
    CollectDone(LoadOf(fs), map[], runtimes, data);
    r := Some(data);
  }


  /** The script exits with status 1 exactly when no runtime's directory yields a latency. */
  lemma NoDataIffNoSamples(fs: FileSystem)
    requires OutcomeOf(fs) != Raised
    ensures OutcomeOf(fs) == NoData <==> forall i :: 0 <= i < |Runtimes| ==> SamplesByPath(fs, Runtimes[i].1) == Some(map[])
  {
    CollectedEmpty(LoadOf(fs), map[], Runtimes);
  }

  /** A runtime without latencies is not in `data`. */
  lemma RuntimeWithoutSamplesAbsent(fs: FileSystem, j: nat)
    requires OutcomeOf(fs).Report? && j < |Runtimes|
    requires SamplesByPath(fs, Runtimes[j].1) == Some(map[])
    ensures forall e :: e in OutcomeOf(fs).data ==> e.0 != Runtimes[j].0
  {
    RuntimesDistinct();
    CollectedAbsent(LoadOf(fs), map[], Runtimes, j);
  }

  /** A runtime with latencies is in `data`, with its paths. */
  lemma RuntimeWithSamplesPresent(fs: FileSystem, j: nat)
    requires OutcomeOf(fs).Report? && j < |Runtimes|
    requires SamplesByPath(fs, Runtimes[j].1).Some? && SamplesByPath(fs, Runtimes[j].1).value != map[]
    ensures (Runtimes[j].0, SamplesByPath(fs, Runtimes[j].1).value) in OutcomeOf(fs).data
  {
    CollectedMember(LoadOf(fs), map[], Runtimes, (Runtimes[j].0, SamplesByPath(fs, Runtimes[j].1).value));
  }

  lemma RuntimesDistinct()
    ensures DistinctNames(Runtimes)
  {
  }
}
