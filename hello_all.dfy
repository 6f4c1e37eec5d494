/** The analysis of http-hello across native, Docker and the two wasmCloud deployments. */
module HelloAll {
  import opened Common
  import opened Seqs
  import opened Stats
  import opened LogFiles
  import opened HelloRunLog
  import opened RuntimeTable

  const Runtimes: seq<(string, string)> := [
    ("native", "results/raw/native/http-hello"),
    ("docker", "results/raw/docker/http-hello"),
    ("wasmcloud_full", "results/raw/wasmcloud/http-hello"),
    ("wasmcloud_comp", "results/raw/wasmcloud-component/http-hello")]

  /** The runs of a directory: its run logs in name order, those that do not parse dropped. */
  function RuntimeRuns(fs: FileSystem, dir: string): seq<Run> {
    FilterMap(RunOf, RunLogs(Listing(fs, dir)))
  }

  method LoadRuntime(fs: FileSystem, dir: string) returns (runs: seq<Run>)
    ensures runs == RuntimeRuns(fs, dir)
  {
    var logs := RunLogs(Listing(fs, dir));
    runs := [];
    for i := 0 to |logs|
      invariant runs == FilterMap(RunOf, logs[..i])
    {
      var parsed := ParseRunLog(logs[i]);
      if parsed.Some? {
        runs := runs + [parsed.value];
      }
      FilterMapSnoc(RunOf, logs, i);
    }
    assert logs[..|logs|] == logs;
  }

  datatype Aggregate = Aggregate(mean: real, median: real, min: real, max: real)

  /** `agg_latencies` of a non-empty list: min <= median <= max and min <= mean <= max. */
  function AggLatencies(latencies: seq<real>): (r: Aggregate)
    requires latencies != []
    ensures r.min in latencies && r.max in latencies
    ensures r.min <= r.median <= r.max
    ensures r.min <= r.mean <= r.max
    ensures forall x :: x in latencies ==> r.min <= x <= r.max
  {
    MeanBounds(latencies);
    Aggregate(Mean(latencies), Median(latencies), Min(latencies), Max(latencies))
  }

  /** `[x for r in runs for x in r["latencies_ms"]]`. */
  function AllLatencies(runs: seq<Run>): seq<real> {
    if runs == [] then []
    else AllLatencies(runs[..|runs| - 1]) + runs[|runs| - 1].latenciesMs
  }

  /** The flattened list holds each run's latencies, in run order, and nothing else. */
  lemma {:induction false} AllLatenciesMember(runs: seq<Run>, x: real)
    ensures x in AllLatencies(runs) <==> exists i :: 0 <= i < |runs| && x in runs[i].latenciesMs
  {
    if runs != [] {
      var init := runs[..|runs| - 1];
      assert forall i :: 0 <= i < |init| ==> init[i] == runs[i];
      AllLatenciesMember(init, x);
    }
  }

  lemma {:induction false} AllLatenciesAppend(a: seq<Run>, b: seq<Run>)
    ensures AllLatencies(a + b) == AllLatencies(a) + AllLatencies(b)
    decreases |b|
  {
    if b == [] {
      assert a + b == a;
    } else {
      assert (a + b)[..|a + b| - 1] == a + b[..|b| - 1];
      AllLatenciesAppend(a, b[..|b| - 1]);
    }
  }

  function LoadOf(fs: FileSystem): string -> Option<seq<Run>> {
    (dir: string) => Some(RuntimeRuns(fs, dir))
  }

  /** `data`: the runtimes with at least one run, in declaration order. */
  function Data(fs: FileSystem): seq<(string, seq<Run>)> {
    Collected(LoadOf(fs), [], Runtimes).value
  }

  lemma DataDefined(fs: FileSystem)
    ensures Collected(LoadOf(fs), [], Runtimes).Some?
  {
    CollectedFails(LoadOf(fs), [], Runtimes);
  }

  method CollectData(fs: FileSystem) returns (data: seq<(string, seq<Run>)>)
    ensures Collected(LoadOf(fs), [], Runtimes) == Some(data)
  {
    var runtimes := Runtimes;
    data := [];
    for i := 0 to |runtimes|
      invariant CollectedUpTo(LoadOf(fs), [], runtimes, i, data)
    {
      var rt := runtimes[i];
      var runs := LoadRuntime(fs, rt.1);
      CollectStep(LoadOf(fs), [], runtimes, i, data, runs);
      if runs != [] {
        data := data + [(rt.0, runs)];
      }
    }
    CollectDone(LoadOf(fs), [], runtimes, data);
  }

  /**
   * Every runtime in `data` has runs, each with latencies, so the aggregate of its flattened
   * latencies is defined; a runtime with no valid run is absent.
   */
  lemma DataEntriesAggregate(fs: FileSystem, e: (string, seq<Run>))
    requires Collected(LoadOf(fs), [], Runtimes).Some? && e in Collected(LoadOf(fs), [], Runtimes).value
    ensures e.1 != [] && AllLatencies(e.1) != []
    ensures exists i :: 0 <= i < |Runtimes| && Runtimes[i].0 == e.0 && e.1 == RuntimeRuns(fs, Runtimes[i].1)
  {
    CollectedMember(LoadOf(fs), [], Runtimes, e);
    NonEmptyRunsHaveLatencies(e.1);
  }

  lemma NonEmptyRunsHaveLatencies(runs: seq<Run>)
    requires runs != []
    requires forall r :: r in runs ==> r.latenciesMs != []
    ensures AllLatencies(runs) != []
  {
    assert runs[|runs| - 1] in runs;
  }

  lemma AbsentWithoutRuns(fs: FileSystem, j: nat)
    requires j < |Runtimes| && RuntimeRuns(fs, Runtimes[j].1) == []
    ensures Collected(LoadOf(fs), [], Runtimes).Some?
    ensures forall e :: e in Collected(LoadOf(fs), [], Runtimes).value ==> e.0 != Runtimes[j].0
  {
    DataDefined(fs);
    RuntimesDistinct();
    CollectedAbsent(LoadOf(fs), [], Runtimes, j);
  }

  lemma RuntimesDistinct()
    ensures DistinctNames(Runtimes)
  {
  }
}
