/**
 * The cross-benchmark summary report: per benchmark and runtime, the samples one field of
 * the run logs yields; percentiles; the markdown comparison sections with their speedup
 * relative to Docker.
 */
module Summary {
  import opened Common
  import opened Seqs
  import opened Sorting
  import opened Text
  import opened LogFiles
  import opened Stats

  /**
   * One benchmark: its report name and unit, the run-log directory of each runtime (in
   * declaration order), the `key=` of the field it collects, and whether samples are
   * converted from KB to MB.
   */
  datatype Benchmark = Benchmark(
    key: string, name: string, unit: string,
    runtimes: seq<(string, string)>, field: string, kbToMb: bool)

  const HttpHelloDirs: seq<(string, string)> := [
    ("native", "results/raw/native/http-hello"),
    ("docker", "results/raw/docker/http-hello"),
    ("wasmtime", "results/raw/wasmtime/http-hello")]

  const CpuHashDirs: seq<(string, string)> := [
    ("native", "results/raw/native/cpu-hash"),
    ("docker", "results/raw/docker/cpu-hash"),
    ("wasmtime", "results/raw/wasm/cpu-hash"),
    ("wasmedge", "results/raw/wasmedge/cpu-hash")]

  const Benchmarks: seq<Benchmark> := [
    Benchmark("cold_start", "Cold Start", "ms", HttpHelloDirs, "cold_start_ms=", false),
    Benchmark("http_latency", "HTTP Latency (p50)", "ms", HttpHelloDirs, "latency_ms=", false),
    Benchmark("http_throughput", "HTTP Throughput", "req/s", HttpHelloDirs, "throughput_rps=", false),
    Benchmark("memory_usage", "Memory Usage", "MB", HttpHelloDirs, "rss_kb=", true),
    Benchmark("cpu_hash", "CPU Hash Performance", "ms", CpuHashDirs, "outer_ms=", false)]

  // ---------------------------------------------------------------------------------
  // load_samples

  function Convert(v: real, kbToMb: bool): real {
    if kbToMb then v / 1024.0 else v
  }

  /**
   * What one line contributes: nothing without a `field` match, the converted number
   * otherwise; `None` when `float()` rejects the captured token.
   */
  function LineSample(field: string, kbToMb: bool, line: string): (r: Option<seq<real>>)
    ensures SearchField(line, field).None? ==> r == Some([])
    ensures SearchField(line, field).Some? ==> (r.Some? <==> WellFormedDecimal(SearchField(line, field).value))
    ensures r.Some? ==> |r.value| <= 1
  {
    match SearchField(line, field)
    case None => Some([])
    case Some(token) =>
      var v :- ParseDecimal(token);
      Some([Convert(v, kbToMb)])
  }

  function SampleOf(field: string, kbToMb: bool): string -> Option<seq<real>> {
    (line: string) => LineSample(field, kbToMb, line)
  }

  /** The samples of `dir`: its run logs in name order, each line in order. */
  function Samples(fs: FileSystem, dir: string, field: string, kbToMb: bool): Option<seq<real>> {
    Traverse(PerFile(SampleOf(field, kbToMb)), RunLogs(Listing(fs, dir)))
  }

  method LoadSamples(fs: FileSystem, dir: string, field: string, kbToMb: bool) returns (r: Option<seq<real>>)
    ensures r == Samples(fs, dir, field, kbToMb)
    ensures dir !in fs ==> r == Some([])
  {
    if dir !in fs {
      return Some([]);
    }
    r := GatherSamples(RunLogs(Listing(fs, dir)), SampleOf(field, kbToMb));
  }

  /** A file contributes at most one sample per line. */
  lemma FileSamplesAtMostOnePerLine(field: string, kbToMb: bool, file: LogFile)
    requires PerFile(SampleOf(field, kbToMb))(file).Some?
    ensures |PerFile(SampleOf(field, kbToMb))(file).value| <= |file.lines|
  {
    TraverseAtMostOne(SampleOf(field, kbToMb), file.lines);
  }

  /**
   * The KB-to-MB conversion is applied to every sample: the converted run yields the
   * unconverted samples, each divided by 1024, and fails on the same input.
   */
  lemma ConversionAppliedToEverySample(fs: FileSystem, dir: string, field: string)
    ensures Samples(fs, dir, field, true).Some? == Samples(fs, dir, field, false).Some?
    ensures Samples(fs, dir, field, false).Some? ==>
      Samples(fs, dir, field, true).value == MapSeq(KbToMb, Samples(fs, dir, field, false).value)
  {
    var plain, converted := SampleOf(field, false), SampleOf(field, true);
    forall file: LogFile
      ensures PerFile(converted)(file).Some? == PerFile(plain)(file).Some?
      ensures PerFile(plain)(file).Some? ==> PerFile(converted)(file).value == MapSeq(KbToMb, PerFile(plain)(file).value)
    {
      FileConversion(field, file);
    }
    TraverseMapped(PerFile(plain), PerFile(converted), KbToMb, RunLogs(Listing(fs, dir)));
  }

  /** The conversion on one run log. */
  lemma FileConversion(field: string, file: LogFile)
    ensures PerFile(SampleOf(field, true))(file).Some? == PerFile(SampleOf(field, false))(file).Some?
    ensures PerFile(SampleOf(field, false))(file).Some? ==>
      PerFile(SampleOf(field, true))(file).value == MapSeq(KbToMb, PerFile(SampleOf(field, false))(file).value)
  {
    var plain, converted := SampleOf(field, false), SampleOf(field, true);
    forall line: string
      ensures converted(line).Some? == plain(line).Some?
      ensures plain(line).Some? ==> converted(line).value == MapSeq(KbToMb, plain(line).value)
    {
      LineConversion(field, line);
    }
    TraverseMapped(plain, converted, KbToMb, file.lines);
  }

  /** The conversion on one line. */
  lemma LineConversion(field: string, line: string)
    ensures LineSample(field, true, line).Some? == LineSample(field, false, line).Some?
    ensures LineSample(field, false, line).Some? ==>
      LineSample(field, true, line).value == MapSeq(KbToMb, LineSample(field, false, line).value)
  {
    var plain := LineSample(field, false, line);
    if plain.Some? && plain.value != [] {
      assert MapSeq(KbToMb, plain.value) == [KbToMb(plain.value[0])];
    }
  }

  function KbToMb(v: real): real {
    v / 1024.0
  }

  // ---------------------------------------------------------------------------------
  // calculate_percentile

  /** `int(x)` of a quotient: truncation toward zero. */
  function TruncDiv(a: int, b: nat): (q: int)
    requires b > 0
    ensures a >= 0 ==> q == a / b
    ensures a < 0 ==> q == -((-a) / b)
  {
    if a >= 0 then a / b else -((-a) / b)
  }

  /** `min(int(n * p / 100), n - 1)`. */
  function PercentileIndex(n: nat, p: int): int
    requires n > 0
  {
    var index := TruncDiv(n * p, 100);
    if index < n - 1 then index else n - 1
  }

  lemma PercentileIndexRange(n: nat, p: int)
    requires n > 0
    ensures p >= 0 ==> 0 <= PercentileIndex(n, p)
    ensures p >= -100 ==> -(n as int) <= PercentileIndex(n, p)
    ensures PercentileIndex(n, p) <= n - 1
  {
    if p >= 0 {
      assert n * p >= 0;
    } else if p >= -100 {
      assert -(n * p) <= n * 100;
    }
  }

  /**
   * `calculate_percentile`: 0.0 for no samples, otherwise the sorted samples indexed by
   * `PercentileIndex` with Python's negative indexing; `None` where that raises IndexError.
   */
  function Percentile(samples: seq<real>, p: int): (r: Option<real>)
    ensures samples == [] ==> r == Some(0.0)
    ensures samples != [] && p >= -100 ==> r.Some? && r.value in samples
    ensures samples != [] && p >= -100 ==> Min(samples) <= r.value <= Max(samples)
  {
    if samples == [] then Some(0.0)
    else
      var t := Sort(samples, RealLe);
      var n := |t|;
      var i := PercentileIndex(n, p);
      PercentileIndexRange(n, p);
      if 0 <= i then
        assert t[i] in multiset(samples);
        Some(t[i])
      else if -n <= i then
        assert t[n + i] in multiset(samples);
        Some(t[n + i])
      else None
  }

  lemma SortedFirstIsMin(s: seq<real>)
    requires |s| > 0
    ensures Sort(s, RealLe)[0] == Min(s)
  {
    RealLeTotalPreorder();
    SortEnds(s, RealLe, Min(s));
    SortedMembers(s, RealLe, Sort(s, RealLe)[0]);
  }

  lemma SortedLastIsMax(s: seq<real>)
    requires |s| > 0
    ensures Sort(s, RealLe)[|s| - 1] == Max(s)
  {
    RealLeTotalPreorder();
    SortEnds(s, RealLe, Max(s));
    SortedMembers(s, RealLe, Sort(s, RealLe)[|s| - 1]);
  }

  /** The 0th percentile is the minimum. */
  lemma PercentileZeroIsMin(samples: seq<real>)
    requires samples != []
    ensures Percentile(samples, 0) == Some(Min(samples))
  {
    SortedFirstIsMin(samples);
  }

  /** From the 100th percentile on, the result is the maximum. */
  lemma PercentileHundredIsMax(samples: seq<real>, p: int)
    requires samples != [] && p >= 100
    ensures Percentile(samples, p) == Some(Max(samples))
  {
    var n := |samples|;
    assert n * p >= n * 100;
    assert PercentileIndex(n, p) == n - 1;
    SortedLastIsMax(samples);
  }

  /** For a fixed list of samples, a higher percentile never gives a smaller value. */
  lemma PercentileMonotone(samples: seq<real>, p: int, q: int)
    requires samples != [] && 0 <= p <= q
    ensures Percentile(samples, p).value <= Percentile(samples, q).value
  {
    var n := |samples|;
    var t := Sort(samples, RealLe);
    var i, j := PercentileIndex(n, p), PercentileIndex(n, q);
    IndexMonotone(n, p, q);
    PercentileIndexRange(n, p);
    assert Percentile(samples, p) == Some(t[i]);
    assert Percentile(samples, q) == Some(t[j]);
    RealLeTotalPreorder();
    SortSorted(samples, RealLe);
    if i < j {
      assert RealLe(t[i], t[j]);
    }
  }

  lemma IndexMonotone(n: nat, p: int, q: int)
    requires n > 0 && 0 <= p <= q
    ensures PercentileIndex(n, p) <= PercentileIndex(n, q)
  {
    assert n * p <= n * q;
    DivMonotone(n * p, n * q);
  }

  lemma DivMonotone(a: nat, b: nat)
    requires a <= b
    ensures a / 100 <= b / 100
  {
  }

  // ---------------------------------------------------------------------------------
  // Speedup relative to Docker (generate_markdown_table)

  /** The units the report treats as "lower is better", as written: milliseconds and seconds. */
  predicate LowerIsBetterAsWritten(unit: string) {
    unit == "ms" || unit == "s"
  }

  /** The speedup factor as written; `None` where the division raises ZeroDivisionError. */
  function SpeedupFactorAsWritten(unit: string, dockerMean: real, rtMean: real): (r: Option<real>)
    ensures r.None? <==> (if LowerIsBetterAsWritten(unit) then rtMean == 0.0 else dockerMean == 0.0)
  {
    if LowerIsBetterAsWritten(unit) then
      if rtMean == 0.0 then None else Some(dockerMean / rtMean)
    else
      if dockerMean == 0.0 then None else Some(rtMean / dockerMean)
  }

  /**
   * Memory (unit "MB") falls in the "higher is better" branch: a runtime that uses half of
   * Docker's memory is reported with speedup 0.5, the corrected rule reports 2.0.
   */
  lemma MemorySpeedupInverted()
    ensures SpeedupFactorAsWritten("MB", 100.0, 50.0) == Some(0.5)
    ensures SpeedupFactor("MB", 100.0, 50.0) == Some(2.0)
  {
  }

  /** The units for which a smaller mean is better: time and memory. */
  predicate LowerIsBetter(unit: string) {
    unit == "ms" || unit == "s" || unit == "MB"
  }

  /** The speedup factor of a runtime over Docker, the smaller-is-better units inverted. */
  function SpeedupFactor(unit: string, dockerMean: real, rtMean: real): (r: Option<real>)
    ensures r.None? <==> (if LowerIsBetter(unit) then rtMean == 0.0 else dockerMean == 0.0)
  {
    if LowerIsBetter(unit) then
      if rtMean == 0.0 then None else Some(dockerMean / rtMean)
    else
      if dockerMean == 0.0 then None else Some(rtMean / dockerMean)
  }

  /** For positive means, the factor exceeds 1 exactly when the runtime beats Docker. */
  lemma SpeedupAboveOneIffBetter(unit: string, dockerMean: real, rtMean: real)
    requires dockerMean > 0.0 && rtMean > 0.0
    ensures SpeedupFactor(unit, dockerMean, rtMean).Some?
    ensures SpeedupFactor(unit, dockerMean, rtMean).value > 1.0 <==>
      (if LowerIsBetter(unit) then rtMean < dockerMean else rtMean > dockerMean)
  {
    if LowerIsBetter(unit) {
      QuotientAboveOne(dockerMean, rtMean);
    } else {
      QuotientAboveOne(rtMean, dockerMean);
    }
  }

  lemma QuotientAboveOne(a: real, b: real)
    requires b > 0.0
    ensures a / b > 1.0 <==> a > b
  {
    assert a / b * b == a;
    if a / b > 1.0 {
      assert a / b * b > 1.0 * b;
    }
    if a > b {
      assert a / b * b > b;
    }
  }

  datatype Speedup = Speedup(runtime: string, factor: real)

  /** A dictionary as the items it holds in insertion order. */
  function Lookup<V>(d: seq<(string, V)>, key: string): (r: Option<V>)
    ensures r.Some? ==> (key, r.value) in d
    ensures r.None? <==> forall i :: 0 <= i < |d| ==> d[i].0 != key
  {
    if d == [] then None
    else if d[0].0 == key then Some(d[0].1)
    else Lookup(d[1..], key)
  }

  /** A rule giving the speedup factor from the unit, Docker's mean and the runtime's mean. */
  type FactorRule = (string, real, real) -> Option<real>

  function SpeedupEntry(factor: FactorRule, unit: string, dockerMean: real, entry: (string, seq<real>)): Option<seq<Speedup>> {
    if entry.0 == "docker" || entry.1 == [] then Some([])
    else
      var f :- factor(unit, dockerMean, Mean(entry.1));
      Some([Speedup(entry.0, f)])
  }

  function SpeedupOf(factor: FactorRule, unit: string, dockerMean: real): ((string, seq<real>)) -> Option<seq<Speedup>> {
    (entry: (string, seq<real>)) => SpeedupEntry(factor, unit, dockerMean, entry)
  }

  /**
   * A "Speedup vs Docker" list under a factor rule: nothing unless Docker has samples, then
   * one factor per other runtime with samples, in runtime-name order.
   */
  function SpeedupsBy(factor: FactorRule, unit: string, results: seq<(string, seq<real>)>): Option<seq<Speedup>> {
    match Lookup(results, "docker")
    case Some(docker) =>
      if docker == [] then Some([])
      else Traverse(SpeedupOf(factor, unit, Mean(docker)), SortByKey(results))
    case None => Some([])
  }

  /** The list the report prints, with the factor as the script computes it. */
  function SpeedupVsDocker(unit: string, results: seq<(string, seq<real>)>): Option<seq<Speedup>> {
    SpeedupsBy(SpeedupFactorAsWritten, unit, results)
  }

  /** The same list with memory counted as lower-is-better. */
  function CorrectedSpeedupVsDocker(unit: string, results: seq<(string, seq<real>)>): Option<seq<Speedup>> {
    SpeedupsBy(SpeedupFactor, unit, results)
  }

  method SpeedupLines(unit: string, results: seq<(string, seq<real>)>) returns (r: Option<seq<Speedup>>)
    ensures r == SpeedupVsDocker(unit, results)
  {
    var docker := Lookup(results, "docker");
    if docker.Some? && docker.value != [] {
      r := AppendEach(SpeedupOf(SpeedupFactorAsWritten, unit, Mean(docker.value)), SortByKey(results));
    } else {
      r := Some([]);
    }
  }

  /** What a speedup list under any factor rule holds. */
  lemma ListingBy(factor: FactorRule, unit: string, results: seq<(string, seq<real>)>, docker: seq<real>)
    requires Lookup(results, "docker") == Some(docker) && docker != []
    requires SpeedupsBy(factor, unit, results).Some?
    ensures forall sp :: sp in SpeedupsBy(factor, unit, results).value ==>
      sp.runtime != "docker" &&
      exists e :: e in results && e.0 == sp.runtime && e.1 != [] && factor(unit, Mean(docker), Mean(e.1)) == Some(sp.factor)
    ensures forall e :: e in results && e.0 != "docker" && e.1 != [] ==>
      factor(unit, Mean(docker), Mean(e.1)).Some? &&
      Speedup(e.0, factor(unit, Mean(docker), Mean(e.1)).value) in SpeedupsBy(factor, unit, results).value
  {
    var f, sorted := SpeedupOf(factor, unit, Mean(docker)), SortByKey(results);
    forall sp | sp in SpeedupsBy(factor, unit, results).value
      ensures sp.runtime != "docker"
      ensures exists e :: e in results && e.0 == sp.runtime && e.1 != [] && factor(unit, Mean(docker), Mean(e.1)) == Some(sp.factor)
    {
      TraverseMember(f, sorted, sp);
      var i :| 0 <= i < |sorted| && f(sorted[i]).Some? && sp in f(sorted[i]).value;
      assert sorted[i] in results;
    }
    forall e | e in results && e.0 != "docker" && e.1 != []
      ensures factor(unit, Mean(docker), Mean(e.1)).Some?
      ensures Speedup(e.0, factor(unit, Mean(docker), Mean(e.1)).value) in SpeedupsBy(factor, unit, results).value
    {
      assert e in sorted;
      var i :| 0 <= i < |sorted| && sorted[i] == e;
      assert f(sorted[i]).Some?;
      TraverseMember(f, sorted, Speedup(e.0, factor(unit, Mean(docker), Mean(e.1)).value));
    }
  }

  /**
   * Every printed speedup is for a runtime other than Docker with samples, with the factor
   * the script computes for its mean against Docker's; every such runtime is printed.
   */
  lemma SpeedupListing(unit: string, results: seq<(string, seq<real>)>, docker: seq<real>)
    requires Lookup(results, "docker") == Some(docker) && docker != []
    requires SpeedupVsDocker(unit, results).Some?
    ensures forall sp :: sp in SpeedupVsDocker(unit, results).value ==>
      sp.runtime != "docker" &&
      exists e :: e in results && e.0 == sp.runtime && e.1 != [] && SpeedupFactorAsWritten(unit, Mean(docker), Mean(e.1)) == Some(sp.factor)
    ensures forall e :: e in results && e.0 != "docker" && e.1 != [] ==>
      SpeedupFactorAsWritten(unit, Mean(docker), Mean(e.1)).Some? &&
      Speedup(e.0, SpeedupFactorAsWritten(unit, Mean(docker), Mean(e.1)).value) in SpeedupVsDocker(unit, results).value
  {
    ListingBy(SpeedupFactorAsWritten, unit, results, docker);
  }

  /**
   * In the corrected list, for positive means, a factor above 1 means exactly that the
   * runtime beats Docker, and every runtime other than Docker with samples is listed.
   */
  lemma CorrectedSpeedupListing(unit: string, results: seq<(string, seq<real>)>, docker: seq<real>)
    requires Lookup(results, "docker") == Some(docker) && docker != [] && Mean(docker) > 0.0
    requires CorrectedSpeedupVsDocker(unit, results).Some?
    ensures forall sp :: sp in CorrectedSpeedupVsDocker(unit, results).value ==>
      sp.runtime != "docker" &&
      exists e :: e in results && e.0 == sp.runtime && e.1 != [] && SpeedupFactor(unit, Mean(docker), Mean(e.1)) == Some(sp.factor) &&
        (Mean(e.1) > 0.0 ==> (sp.factor > 1.0 <==> if LowerIsBetter(unit) then Mean(e.1) < Mean(docker) else Mean(e.1) > Mean(docker)))
    ensures forall e :: e in results && e.0 != "docker" && e.1 != [] ==>
      SpeedupFactor(unit, Mean(docker), Mean(e.1)).Some? &&
      Speedup(e.0, SpeedupFactor(unit, Mean(docker), Mean(e.1)).value) in CorrectedSpeedupVsDocker(unit, results).value
  {
    ListingBy(SpeedupFactor, unit, results, docker);
    forall e | e in results && e.1 != [] && Mean(e.1) > 0.0
      ensures SpeedupFactor(unit, Mean(docker), Mean(e.1)).Some?
      ensures SpeedupFactor(unit, Mean(docker), Mean(e.1)).value > 1.0 <==>
        (if LowerIsBetter(unit) then Mean(e.1) < Mean(docker) else Mean(e.1) > Mean(docker))
    {
      SpeedupAboveOneIffBetter(unit, Mean(docker), Mean(e.1));
    }
  }

  /** Outside memory the printed list is the corrected one. */
  lemma ListingsAgreeExceptMemory(unit: string, results: seq<(string, seq<real>)>)
    requires unit != "MB"
    ensures SpeedupVsDocker(unit, results) == CorrectedSpeedupVsDocker(unit, results)
  {
    match Lookup(results, "docker")
    case Some(docker) =>
      if docker != [] {
        var sorted := SortByKey(results);
        var f, g := SpeedupOf(SpeedupFactorAsWritten, unit, Mean(docker)), SpeedupOf(SpeedupFactor, unit, Mean(docker));
        forall i | 0 <= i < |sorted| ensures f(sorted[i]) == g(sorted[i]) {
          if sorted[i].0 != "docker" && sorted[i].1 != [] {
            assert SpeedupFactorAsWritten(unit, Mean(docker), Mean(sorted[i].1)) == SpeedupFactor(unit, Mean(docker), Mean(sorted[i].1));
          }
        }
        TraverseCongruent(f, g, sorted);
      }
    case None =>
  }

  /** For memory, with positive means, the printed factor is the reciprocal of the corrected one. */
  lemma MemoryFactorsReciprocal(dockerMean: real, rtMean: real)
    requires dockerMean > 0.0 && rtMean > 0.0
    ensures SpeedupFactorAsWritten("MB", dockerMean, rtMean).Some? && SpeedupFactor("MB", dockerMean, rtMean).Some?
    ensures SpeedupFactorAsWritten("MB", dockerMean, rtMean).value * SpeedupFactor("MB", dockerMean, rtMean).value == 1.0
  {
    assert rtMean / dockerMean * (dockerMean / rtMean) == (rtMean * dockerMean) / (dockerMean * rtMean);
  }

  // ---------------------------------------------------------------------------------
  // The markdown sections

  /** One table row: the runtime and the statistics of its samples (standard deviation aside). */
  datatype Row = Row(runtime: string, mean: real, median: real, min: real, max: real, count: nat)

  datatype Section = Section(name: string, unit: string, rows: seq<Row>, speedups: seq<Speedup>)

  function RowOf(entry: (string, seq<real>)): Option<Row> {
    if entry.1 == [] then None
    else Some(Row(entry.0, Mean(entry.1), Median(entry.1), Min(entry.1), Max(entry.1), |entry.1|))
  }

  /**
   * The section of one benchmark: none when the benchmark has no entry or no runtime;
   * otherwise a row per runtime with samples in name order, and the speedups.
   */
  function SectionOf(results: seq<(string, seq<(string, seq<real>)>)>, b: Benchmark): Option<seq<Section>> {
    match Lookup(results, b.key)
    case None => Some([])
    case Some(byRuntime) =>
      if byRuntime == [] then Some([])
      else
        var speedups :- SpeedupVsDocker(b.unit, byRuntime);
        Some([Section(b.name, b.unit, FilterMap(RowOf, SortByKey(byRuntime)), speedups)])
  }

  function SectionsOf(results: seq<(string, seq<(string, seq<real>)>)>): Benchmark -> Option<seq<Section>> {
    (b: Benchmark) => SectionOf(results, b)
  }

  function Markdown(results: seq<(string, seq<(string, seq<real>)>)>): Option<seq<Section>> {
    Traverse(SectionsOf(results), Benchmarks)
  }

  method MarkdownSections(results: seq<(string, seq<(string, seq<real>)>)>) returns (r: Option<seq<Section>>)
    ensures r == Markdown(results)
  {
    r := AppendEach(SectionsOf(results), Benchmarks);
  }

  lemma BenchmarkNamesDistinct()
    ensures NamesDistinct(Benchmarks)
  {
  }

  predicate NamesDistinct(bs: seq<Benchmark>) {
    forall i, j :: 0 <= i < j < |bs| ==> bs[i].name != bs[j].name
  }

  /** The section `b` contributes, when its results hold a runtime. */
  function SectionFor(b: Benchmark, byRuntime: seq<(string, seq<real>)>): Section
    requires SpeedupVsDocker(b.unit, byRuntime).Some?
  {
    Section(b.name, b.unit, FilterMap(RowOf, SortByKey(byRuntime)), SpeedupVsDocker(b.unit, byRuntime).value)
  }

  predicate HasResults(results: seq<(string, seq<(string, seq<real>)>)>, key: string) {
    Lookup(results, key).Some? && Lookup(results, key).value != []
  }

  lemma SectionsNamed(results: seq<(string, seq<(string, seq<real>)>)>, bs: seq<Benchmark>, b: Benchmark)
    requires b in bs && NamesDistinct(bs)
    requires Traverse(SectionsOf(results), bs).Some?
    ensures (exists s :: s in Traverse(SectionsOf(results), bs).value && s.name == b.name) <==> HasResults(results, b.key)
    ensures HasResults(results, b.key) ==>
      SpeedupVsDocker(b.unit, Lookup(results, b.key).value).Some? &&
      SectionFor(b, Lookup(results, b.key).value) in Traverse(SectionsOf(results), bs).value
  {
    var f := SectionsOf(results);
    var k :| 0 <= k < |bs| && bs[k] == b;
    assert f(bs[k]).Some?;
    if s: Section :| s in Traverse(f, bs).value && s.name == b.name {
      TraverseMember(f, bs, s);
      var i :| 0 <= i < |bs| && f(bs[i]).Some? && s in f(bs[i]).value;
      assert s.name == bs[i].name;
      assert i == k;
    }
    if HasResults(results, b.key) {
      var s := SectionFor(b, Lookup(results, b.key).value);
      assert f(bs[k]) == Some([s]);
      TraverseMember(f, bs, s);
    }
  }

  /**
   * The report has a section for a benchmark exactly when the results hold at least one
   * runtime under its key; that section lists the runtimes' rows in name order and the
   * speedups the script prints for them.
   */
  lemma SectionExactlyWithResults(results: seq<(string, seq<(string, seq<real>)>)>, b: Benchmark)
    requires b in Benchmarks
    requires Markdown(results).Some?
    ensures (exists s :: s in Markdown(results).value && s.name == b.name) <==> HasResults(results, b.key)
    ensures HasResults(results, b.key) ==>
      var byRuntime := Lookup(results, b.key).value;
      SpeedupVsDocker(b.unit, byRuntime).Some? &&
      Section(b.name, b.unit, FilterMap(RowOf, SortByKey(byRuntime)), SpeedupVsDocker(b.unit, byRuntime).value) in Markdown(results).value
  {
    BenchmarkNamesDistinct();
    SectionsNamed(results, Benchmarks, b);
  }

  /**
   * Each row describes a runtime that has samples: its count is the number of samples and
   * min <= median <= max, with the mean in between as well.
   */
  lemma RowsDescribeSamples(byRuntime: seq<(string, seq<real>)>, row: Row)
    requires row in FilterMap(RowOf, SortByKey(byRuntime))
    ensures exists e :: e in byRuntime && e.0 == row.runtime && e.1 != [] && row.count == |e.1|
    ensures row.min <= row.median <= row.max
    ensures row.min <= row.mean <= row.max
  {
    var sorted := SortByKey(byRuntime);
    var i :| 0 <= i < |sorted| && RowOf(sorted[i]) == Some(row);
    assert sorted[i] in byRuntime;
    MeanBounds(sorted[i].1);
  }

  // ---------------------------------------------------------------------------------
  // main: collecting the results

  function RuntimeResult(fs: FileSystem, b: Benchmark, rt: (string, string)): (r: Option<seq<(string, seq<real>)>>)
    ensures r.Some? ==> |r.value| <= 1 && forall e :: e in r.value ==> e.0 == rt.0 && e.1 != []
  {
    var samples :- Samples(fs, rt.1, b.field, b.kbToMb);
    Some(if samples == [] then [] else [(rt.0, samples)])
  }

  function RuntimesOf(fs: FileSystem, b: Benchmark): ((string, string)) -> Option<seq<(string, seq<real>)>> {
    (rt: (string, string)) => RuntimeResult(fs, b, rt)
  }

  function BenchmarkResult(fs: FileSystem, b: Benchmark): Option<seq<(string, seq<(string, seq<real>)>)>> {
    var byRuntime :- Traverse(RuntimesOf(fs, b), b.runtimes);
    Some([(b.key, byRuntime)])
  }

  function BenchmarksOf(fs: FileSystem): Benchmark -> Option<seq<(string, seq<(string, seq<real>)>)>> {
    (b: Benchmark) => BenchmarkResult(fs, b)
  }

  /** `results` after the collecting loop of `main`; `None` if a `float()` raised. */
  function Results(fs: FileSystem): Option<seq<(string, seq<(string, seq<real>)>)>> {
    Traverse(BenchmarksOf(fs), Benchmarks)
  }

  /** The inner loop of `main`: one benchmark, its runtimes in declaration order. */
  method CollectBenchmark(fs: FileSystem, b: Benchmark) returns (r: Option<seq<(string, seq<real>)>>)
    ensures r == Traverse(RuntimesOf(fs, b), b.runtimes)
  {
    var byRuntime: seq<(string, seq<real>)> := [];
    for ri := 0 to |b.runtimes|
      invariant Traverse(RuntimesOf(fs, b), b.runtimes[..ri]) == Some(byRuntime)
    {
      var rt := b.runtimes[ri];
      var samples := LoadSamples(fs, rt.1, b.field, b.kbToMb);
      if samples.None? {
        assert RuntimesOf(fs, b)(b.runtimes[ri]).None?;
        return None;
      }
      TraverseSnoc(RuntimesOf(fs, b), b.runtimes, ri);
      assert RuntimesOf(fs, b)(rt) == Some(if samples.value == [] then [] else [(rt.0, samples.value)]);
      if samples.value != [] {
        byRuntime := byRuntime + [(rt.0, samples.value)];
      } else {
        assert byRuntime + [] == byRuntime;
      }
    }
    assert b.runtimes[..|b.runtimes|] == b.runtimes;
    r := Some(byRuntime);
  }

  method CollectResults(fs: FileSystem) returns (r: Option<seq<(string, seq<(string, seq<real>)>)>>)
    ensures r == Results(fs)
  {
    var benchmarks := Benchmarks;
    var results: seq<(string, seq<(string, seq<real>)>)> := [];
    for bi := 0 to |benchmarks|
      invariant Traverse(BenchmarksOf(fs), benchmarks[..bi]) == Some(results)
    {
      var b := benchmarks[bi];
      var byRuntime := CollectBenchmark(fs, b);
      if byRuntime.None? {
        assert BenchmarksOf(fs)(benchmarks[bi]).None?;
        return None;
      }
      TraverseSnoc(BenchmarksOf(fs), benchmarks, bi);
      results := results + [(b.key, byRuntime.value)];
    }
    assert benchmarks[..|benchmarks|] == benchmarks;
    r := Some(results);
  }

  /**
   * A runtime enters a benchmark's results exactly when its directory yields at least one
   * sample, and then with those samples.
   */
  lemma ResultsHoldOnlyRuntimesWithSamples(fs: FileSystem, b: Benchmark, rt: (string, string))
    requires rt in b.runtimes
    requires Traverse(RuntimesOf(fs, b), b.runtimes).Some?
    ensures Samples(fs, rt.1, b.field, b.kbToMb).Some?
    ensures var samples := Samples(fs, rt.1, b.field, b.kbToMb).value;
      samples != [] ==> (rt.0, samples) in Traverse(RuntimesOf(fs, b), b.runtimes).value
    ensures forall e :: e in Traverse(RuntimesOf(fs, b), b.runtimes).value ==> e.1 != []
  {
    var f := RuntimesOf(fs, b);
    var i :| 0 <= i < |b.runtimes| && b.runtimes[i] == rt;
    assert f(b.runtimes[i]).Some?;
    var samples := Samples(fs, rt.1, b.field, b.kbToMb).value;
    if samples != [] {
      TraverseMember(f, b.runtimes, (rt.0, samples));
    }
    forall e: (string, seq<real>) | e in Traverse(f, b.runtimes).value ensures e.1 != [] {
      TraverseMember(f, b.runtimes, e);
    }
  }
}
