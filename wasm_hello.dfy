/**
 * The hello-wasm comparison: every `elapsed_ms=` value in the run logs of each WASM
 * runtime, and the per-runtime summary of the runtimes that have one.
 */
module WasmHello {
  import opened Common
  import opened Seqs
  import opened Text
  import opened Stats
  import opened LogFiles
  import opened RuntimeTable
  import Summary

  const Runtimes: Table := [
    ("wasmtime", "results/raw/wasm/hello-wasm"),
    ("wasmedge", "results/raw/wasmedge/hello-wasm")]

  const ElapsedKey: string := "elapsed_ms="

  /** What one line contributes: its `elapsed_ms=([0-9.]+)` value, if it has one. */
  function ElapsedSample(line: string): Option<seq<real>> {
    Summary.LineSample(ElapsedKey, false, line)
  }

  /** The line holds a match of `elapsed_ms=([0-9.]+)`. */
  predicate HasElapsed(line: string) {
    SearchField(line, ElapsedKey).Some?
  }

  /**
   * A line yields nothing without a match and exactly one sample with one; a matched
   * token that `float()` rejects raises.
   */
  lemma OneSamplePerMatchingLine(line: string)
    ensures !HasElapsed(line) ==> ElapsedSample(line) == Some([])
    ensures HasElapsed(line) ==> (ElapsedSample(line).Some? <==> WellFormedDecimal(SearchField(line, ElapsedKey).value))
    ensures HasElapsed(line) && ElapsedSample(line).Some? ==>
      ElapsedSample(line) == Some([ParseDecimal(SearchField(line, ElapsedKey).value).value])
  {
  }

  /** A file that does not raise yields one sample per line with a match. */
  lemma FileSampleCount(file: LogFile)
    requires PerFile(ElapsedSample)(file).Some?
    ensures |PerFile(ElapsedSample)(file).value| == |Filter(HasElapsed, file.lines)|
  {
    forall line ensures ElapsedSample(line).Some? ==> |ElapsedSample(line).value| == (if HasElapsed(line) then 1 else 0) {
      OneSamplePerMatchingLine(line);
    }
    TraverseCount(ElapsedSample, HasElapsed, file.lines);
  }

  /**
   * `load_samples(path)`: the run logs in name order whose names pass the `.*_run\.log$`
   * check, each line in order; `None` when a `ValueError` escapes.
   */
  function Samples(fs: FileSystem, dir: string): Option<seq<real>> {
    Traverse(PerFile(ElapsedSample), CheckedRunLogs(Listing(fs, dir)))
  }

  method LoadSamples(fs: FileSystem, dir: string) returns (r: Option<seq<real>>)
    ensures r == Samples(fs, dir)
  {
    r := GatherKeptSamples(RunLogs(Listing(fs, dir)), NameRechecked, ElapsedSample);
  }

  /**
   * Every sample is the value of some line of a file that was read, and every line of such
   * a file with a well-formed match gives its value.
   */
  lemma SamplesFromReadFiles(fs: FileSystem, dir: string, y: real)
    requires Samples(fs, dir).Some?
    ensures y in Samples(fs, dir).value <==>
      exists file, line :: file in CheckedRunLogs(Listing(fs, dir)) && line in file.lines && ElapsedSample(line) == Some([y])
  {
    SamplesFromFiles(CheckedRunLogs(Listing(fs, dir)), y);
  }

  lemma SamplesFromFiles(files: seq<LogFile>, y: real)
    requires Traverse(PerFile(ElapsedSample), files).Some?
    ensures y in Traverse(PerFile(ElapsedSample), files).value <==>
      exists file, line :: file in files && line in file.lines && ElapsedSample(line) == Some([y])
  {
    GatheredMember(files, ElapsedSample, y);
    forall line: string ensures (ElapsedSample(line).Some? && y in ElapsedSample(line).value) <==> ElapsedSample(line) == Some([y]) {
      SingleSample(line, y);
    }
  }

  /** A line's samples hold `y` exactly when the line yields `y` alone. */
  lemma SingleSample(line: string, y: real)
    ensures (ElapsedSample(line).Some? && y in ElapsedSample(line).value) <==> ElapsedSample(line) == Some([y])
  {
    OneSamplePerMatchingLine(line);
  }

  // ---------------------------------------------------------------------------------
  // `main`

  function LoadOf(fs: FileSystem): string -> Option<seq<real>> {
    (dir: string) => Samples(fs, dir)
  }

  /** One summary line: mean, median (p50), min, max and count of a runtime's samples. */
  datatype SummaryLine = SummaryLine(runtime: string, mean: real, p50: real, min: real, max: real, n: nat)

  function SummaryLineOf(runtime: string, samples: seq<real>): (r: SummaryLine)
    requires samples != []
    ensures r.n == |samples| && r.min in samples && r.max in samples
    ensures r.min <= r.p50 <= r.max && r.min <= r.mean <= r.max
  {
    MeanBounds(samples);
    SummaryLine(runtime, Mean(samples), Median(samples), Min(samples), Max(samples), |samples|)
  }

  /** How the script ends: an exception, no data (it returns before any summary), or the report. */
  datatype Outcome =
    | Raised
    | NoData
    | Report(data: seq<(string, seq<real>)>, summary: seq<SummaryLine>)

  function SummaryOf(data: seq<(string, seq<real>)>): (r: seq<SummaryLine>)
    requires forall e :: e in data ==> e.1 != []
    ensures |r| == |data|
    ensures forall i :: 0 <= i < |data| ==> r[i].runtime == data[i].0 && r[i].n == |data[i].1|
  {
    seq(|data|, i requires 0 <= i < |data| => (assert data[i] in data; SummaryLineOf(data[i].0, data[i].1)))
  }

  /** Every runtime in `data` has samples. */
  lemma DataNonEmpty(fs: FileSystem)
    requires Collected(LoadOf(fs), [], Runtimes).Some?
    ensures forall e :: e in Collected(LoadOf(fs), [], Runtimes).value ==> e.1 != []
  {
    forall e | e in Collected(LoadOf(fs), [], Runtimes).value ensures e.1 != [] {
      CollectedMember(LoadOf(fs), [], Runtimes, e);
    }
  }

  function OutcomeOf(fs: FileSystem): Outcome {
    match Collected(LoadOf(fs), [], Runtimes)
    case None => Raised
    case Some(data) =>
      if data == [] then NoData
      else
        DataNonEmpty(fs);
        Report(data, SummaryOf(data))
  }

  /** The loop over the runtimes in `main`: each directory's samples, or the first exception. */
  method CollectData(fs: FileSystem) returns (r: Option<seq<(string, seq<real>)>>)
    ensures r == Collected(LoadOf(fs), [], Runtimes)
  {
    var runtimes := Runtimes;
    var data: seq<(string, seq<real>)> := [];
    for i := 0 to |runtimes|
      invariant CollectedUpTo(LoadOf(fs), [], runtimes, i, data)
    {
      var rt := runtimes[i];
      var samples := LoadSamples(fs, rt.1);
      if samples.None? {
        CollectFails(LoadOf(fs), [], runtimes, i);
        return None;
      }
      CollectStep(LoadOf(fs), [], runtimes, i, data, samples.value);
      if samples.value != [] {
        data := data + [(rt.0, samples.value)];
      }
    }
    CollectDone(LoadOf(fs), [], runtimes, data);
    r := Some(data);
  }


  method Analyze(fs: FileSystem) returns (o: Outcome)
    ensures o == OutcomeOf(fs)
  {
    var collected := CollectData(fs);
    if collected.None? {
      return Raised;
    }
    var data := collected.value;
    if data == [] {
      return NoData;
    }
    DataNonEmpty(fs);
    o := Report(data, SummaryOf(data));
  }

  /** The script stops before any summary exactly when neither runtime's logs yield a sample. */
  lemma NoDataIffNoSamples(fs: FileSystem)
    requires OutcomeOf(fs) != Raised
    ensures OutcomeOf(fs) == NoData <==> forall i :: 0 <= i < |Runtimes| ==> Samples(fs, Runtimes[i].1) == Some([])
  {
    CollectedEmpty(LoadOf(fs), [], Runtimes);
  }

  /** A runtime is in `data` exactly when its logs yield samples, and then with those samples. */
  lemma ReportedRuntimes(fs: FileSystem, e: (string, seq<real>))
    requires OutcomeOf(fs).Report?
    ensures e in OutcomeOf(fs).data <==>
      exists i :: 0 <= i < |Runtimes| && Runtimes[i].0 == e.0 && Samples(fs, Runtimes[i].1) == Some(e.1) && e.1 != []
  {
    CollectedMember(LoadOf(fs), [], Runtimes, e);
  }

  /** A runtime without samples is not in `data`. */
  lemma RuntimeWithoutSamplesAbsent(fs: FileSystem, j: nat)
    requires OutcomeOf(fs).Report? && j < |Runtimes|
    requires Samples(fs, Runtimes[j].1) == Some([])
    ensures forall e :: e in OutcomeOf(fs).data ==> e.0 != Runtimes[j].0
  {
    RuntimesDistinct();
    CollectedAbsent(LoadOf(fs), [], Runtimes, j);
  }

  lemma RuntimesDistinct()
    ensures DistinctNames(Runtimes)
  {
  }
}
