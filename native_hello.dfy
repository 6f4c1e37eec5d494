/** The analysis of the native http-hello runs: which run logs become runs, and when it stops. */
module NativeHello {
  import opened Common
  import opened Seqs
  import opened LogFiles
  import opened HelloRunLog

  const RawDir: string := "results/raw/native/http-hello"

  /** How `main` ends: no run log at all, no run log that parses, or the parsed runs. */
  datatype Outcome = NoRunLogs | NoValidRuns | Report(runs: seq<Run>)

  function OutcomeOf(listing: seq<LogFile>): Outcome {
    var logs := RunLogs(listing);
    if logs == [] then NoRunLogs
    else
      var runs := FilterMap(RunOf, logs);
      if runs == [] then NoValidRuns else Report(runs)
  }

  method Analyze(fs: FileSystem) returns (o: Outcome)
    ensures o == OutcomeOf(Listing(fs, RawDir))
  {
    var logs := RunLogs(Listing(fs, RawDir));
    if logs == [] {
      return NoRunLogs;
    }
    var runs := ParseRuns(logs);
    if runs == [] {
      return NoValidRuns;
    }
    o := Report(runs);
  }

  /** The loop over the run logs: each one that parses adds its run, in order. */
  method ParseRuns(logs: seq<LogFile>) returns (runs: seq<Run>)
    ensures runs == FilterMap(RunOf, logs)
  {
    runs := [];
    for i := 0 to |logs|
      invariant runs == FilterMap(RunOf, logs[..i])
    {
      var parsed := ParseRunLog(logs[i]);
      FilterMapSnoc(RunOf, logs, i);
      if parsed.Some? {
        runs := runs + [parsed.value];
      }
    }
    assert logs[..|logs|] == logs;
  }

  /**
   * The report holds exactly the runs that parse from run logs of the directory, and stops
   * with `NoValidRuns` exactly when there are run logs but none parses.
   */
  lemma ReportHoldsParsedRuns(listing: seq<LogFile>, run: Run)
    ensures OutcomeOf(listing).Report? ==>
      (run in OutcomeOf(listing).runs <==> exists f :: f in listing && IsRunLog(f) && RunOf(f) == Some(run))
    ensures OutcomeOf(listing) == NoValidRuns <==>
      RunLogs(listing) != [] && forall f :: f in listing && IsRunLog(f) ==> RunOf(f).None?
    ensures OutcomeOf(listing) == NoRunLogs <==> forall f :: f in listing ==> !IsRunLog(f)
  {
    RunLogsFilterMap(RunOf, listing, run);
  }
}
