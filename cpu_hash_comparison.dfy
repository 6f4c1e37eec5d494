/**
 * The cpu-hash comparison: every `outer_ms=` value in the run logs of each runtime, the
 * confidence-interval guards, and the pairwise significance report over the runtimes that
 * have samples. The Mann-Whitney p-value and the confidence margin are inputs: the model
 * states which pairs are tested, which are skipped, and how a p-value is banded.
 */
module CpuHashComparison {
  import opened Common
  import opened Seqs
  import opened Stats
  import Text
  import opened LogFiles
  import opened RuntimeTable
  import Summary

  const Runtimes: Table := [
    ("native", "results/raw/native/cpu-hash"),
    ("docker", "results/raw/docker/cpu-hash"),
    ("wasmtime", "results/raw/wasm/cpu-hash"),
    ("wasmedge", "results/raw/wasmedge/cpu-hash")]

  /** What one line contributes: its `outer_ms=([0-9.]+)` value, if it has one. */
  function OuterSample(line: string): Option<seq<real>> {
    Summary.LineSample("outer_ms=", false, line)
  }

  /**
   * `load_samples(path)`: the run logs in name order whose names pass the `.*_run\.log$`
   * check, each line in order; `None` when a `ValueError` escapes.
   */
  function Samples(fs: FileSystem, dir: string): Option<seq<real>> {
    Traverse(PerFile(OuterSample), CheckedRunLogs(Listing(fs, dir)))
  }

  method LoadSamples(fs: FileSystem, dir: string) returns (r: Option<seq<real>>)
    ensures r == Samples(fs, dir)
  {
    r := GatherKeptSamples(RunLogs(Listing(fs, dir)), NameRechecked, OuterSample);
  }

  /** Only `*_run.log` files are read: a listing without one yields no sample. */
  lemma NoRunLogsNoSamples(fs: FileSystem, dir: string)
    requires forall f :: f in Listing(fs, dir) ==> !IsRunLog(f)
    ensures Samples(fs, dir) == Some([])
  {
    RunLogsFilterMap((f: LogFile) => None, Listing(fs, dir), 0);
    assert RunLogs(Listing(fs, dir)) == [];
  }

  /** The line holds a match of `outer_ms=([0-9.]+)`. */
  predicate HasOuter(line: string) {
    Text.SearchField(line, "outer_ms=").Some?
  }

  /** A file that does not raise yields exactly one sample per line with a match. */
  lemma FileSampleCount(file: LogFile)
    requires PerFile(OuterSample)(file).Some?
    ensures |PerFile(OuterSample)(file).value| == |Filter(HasOuter, file.lines)|
  {
    TraverseCount(OuterSample, HasOuter, file.lines);
  }

  // ---------------------------------------------------------------------------------
  // `compute_confidence_interval`

  /**
   * The interval `mean ± margin`, where `margin` stands for the standard error times the
   * t quantile; `None` (the pair `(None, None)`) without scipy or with fewer than 2 samples.
   */
  function ConfidenceInterval(scipyAvailable: bool, samples: seq<real>, margin: real): (r: Option<(real, real)>)
    ensures r.None? <==> !scipyAvailable || |samples| < 2
    ensures r.Some? ==> r.value.0 + r.value.1 == 2.0 * Mean(samples)
    ensures r.Some? ==> (r.value.0 <= r.value.1 <==> margin >= 0.0)
  {
    if !scipyAvailable || |samples| < 2 then None
    else
      var mean := Mean(samples);
      Some((mean - margin, mean + margin))
  }

  // ---------------------------------------------------------------------------------
  // Significance bands

  /** The stars printed after a p-value. */
  function Band(p: real): (r: string)
    ensures r == "***" || r == "**" || r == "*" || r == "ns"
  {
    if p < 0.001 then "***" else if p < 0.01 then "**" else if p < 0.05 then "*" else "ns"
  }

  /** How many stars a band shows. */
  function Stars(band: string): nat {
    if band == "ns" then 0 else |band|
  }

  /** The verdict line: a significant difference below 0.05. */
  predicate Significant(p: real) {
    p < 0.05
  }

  /** The verdict is "significant" exactly when the band is not "ns". */
  lemma SignificantIffStarred(p: real)
    ensures Significant(p) <==> Band(p) != "ns"
    ensures Significant(p) <==> Stars(Band(p)) > 0
  {
  }

  /** Each band covers exactly its interval of p-values. */
  lemma BandIntervals(p: real)
    ensures Stars(Band(p)) == 3 <==> p < 0.001
    ensures Stars(Band(p)) == 2 <==> 0.001 <= p < 0.01
    ensures Stars(Band(p)) == 1 <==> 0.01 <= p < 0.05
    ensures Stars(Band(p)) == 0 <==> 0.05 <= p
  {
  }

  /** A smaller p-value never shows fewer stars. */
  lemma BandMonotone(p: real, q: real)
    requires p <= q
    ensures Stars(Band(p)) >= Stars(Band(q))
  {
  }

  // ---------------------------------------------------------------------------------
  // The pairs `for i, rt1 in enumerate(runtimes): for rt2 in runtimes[i+1:]`

  /** `(a, b)` for `b` from `a + 1` up to, not including, `j`. */
  function RowUpTo(a: nat, j: nat): (r: seq<(nat, nat)>)
    ensures |r| == if j > a then j - a - 1 else 0
    ensures forall k :: 0 <= k < |r| ==> r[k] == (a, a + 1 + k)
  {
    if j <= a + 1 then [] else RowUpTo(a, j - 1) + [(a, j - 1)]
  }

  /** The pairs the double loop visits before the outer index reaches `i`. */
  function PairsBefore(n: nat, i: nat): seq<(nat, nat)>
    requires i <= n
  {
    if i == 0 then [] else PairsBefore(n, i - 1) + RowUpTo(i - 1, n)
  }

  /** Every pair the double loop visits, in visiting order. */
  function Pairs(n: nat): seq<(nat, nat)> {
    PairsBefore(n, n)
  }

  predicate PairLess(x: (nat, nat), y: (nat, nat)) {
    x.0 < y.0 || (x.0 == y.0 && x.1 < y.1)
  }

  /** The pairs visited before `i` are the `(a, b)` with `a < i` and `a < b < n`. */
  lemma {:induction false} PairsBeforeMember(n: nat, i: nat, x: (nat, nat))
    requires i <= n
    ensures x in PairsBefore(n, i) <==> x.0 < i && x.0 < x.1 < n
  {
    if i > 0 {
      PairsBeforeMember(n, i - 1, x);
      var row := RowUpTo(i - 1, n);
      if x.0 == i - 1 && x.0 < x.1 < n {
        assert row[x.1 - i] == x;
      }
    }
  }

  /** The visiting order is strictly increasing: first index, then second. */
  lemma {:induction false} PairsBeforeOrdered(n: nat, i: nat)
    requires i <= n
    ensures forall x, y :: 0 <= x < y < |PairsBefore(n, i)| ==> PairLess(PairsBefore(n, i)[x], PairsBefore(n, i)[y])
  {
    if i > 0 {
      PairsBeforeOrdered(n, i - 1);
      var init, row := PairsBefore(n, i - 1), RowUpTo(i - 1, n);
      var all := init + row;
      forall x, y | 0 <= x < y < |all| ensures PairLess(all[x], all[y]) {
        if y >= |init| && x < |init| {
          PairsBeforeMember(n, i - 1, init[x]);
          assert init[x] in init;
        }
      }
    }
  }

  /**
   * Each unordered pair of distinct runtimes is visited exactly once, the earlier-inserted
   * runtime first.
   */
  lemma EachPairOnce(n: nat)
    ensures forall x :: x in Pairs(n) <==> x.0 < x.1 < n
    ensures forall x, y :: 0 <= x < y < |Pairs(n)| ==> Pairs(n)[x] != Pairs(n)[y]
  {
    forall x ensures x in Pairs(n) <==> x.0 < x.1 < n {
      PairsBeforeMember(n, n, x);
    }
    PairsBeforeOrdered(n, n);
  }

  // ---------------------------------------------------------------------------------
  // `compare_runtimes_statistically`

  /** The report on one pair. */
  datatype PairReport =
    | Skipped(rt1: string, rt2: string)
    | Compared(rt1: string, rt2: string, mean1: real, mean2: real, diffPct: real,
               pValue: real, band: string, significant: bool)

  /** A pair needs at least 3 samples on each side. */
  predicate Testable(s1: seq<real>, s2: seq<real>) {
    |s1| >= 3 && |s2| >= 3
  }

  /**
   * The report on the pair of entries `a` and `b` of `data`, `pValue` standing for the
   * two-sided Mann-Whitney test; `None` where `diff_pct` divides by a zero mean.
   */
  function PairReportOf(data: seq<(string, seq<real>)>, pValue: (seq<real>, seq<real>) -> real, x: (nat, nat)): (r: Option<seq<PairReport>>)
    ensures x.0 < |data| && x.1 < |data| && r.Some? ==> |r.value| == 1 && r.value[0].rt1 == data[x.0].0 && r.value[0].rt2 == data[x.1].0
    ensures x.0 < |data| && x.1 < |data| && r.Some? ==> (r.value[0].Skipped? <==> !Testable(data[x.0].1, data[x.1].1))
    ensures x.0 < |data| && x.1 < |data| && r.Some? && r.value[0].Compared? ==>
      r.value[0].significant == (r.value[0].band != "ns")
  {
    if x.0 >= |data| || x.1 >= |data| then Some([])
    else
      var (rt1, s1) := data[x.0];
      var (rt2, s2) := data[x.1];
      if !Testable(s1, s2) then Some([Skipped(rt1, rt2)])
      else
        var p := pValue(s1, s2);
        var mean1, mean2 := Mean(s1), Mean(s2);
        if mean1 == 0.0 then None
        else
          SignificantIffStarred(p);
          Some([Compared(rt1, rt2, mean1, mean2, (mean2 - mean1) / mean1 * 100.0, p, Band(p), Significant(p))])
  }

  function PairReportsOf(data: seq<(string, seq<real>)>, pValue: (seq<real>, seq<real>) -> real): ((nat, nat)) -> Option<seq<PairReport>> {
    (x: (nat, nat)) => PairReportOf(data, pValue, x)
  }

  /** The reports of all pairs in visiting order; nothing at all without scipy. */
  function Comparisons(scipyAvailable: bool, data: seq<(string, seq<real>)>, pValue: (seq<real>, seq<real>) -> real): Option<seq<PairReport>> {
    if !scipyAvailable then Some([])
    else Traverse(PairReportsOf(data, pValue), Pairs(|data|))
  }

  /** The body of the inner loop: one pair's report, or `None` where `diff_pct` raises. */
  method ReportPair(data: seq<(string, seq<real>)>, pValue: (seq<real>, seq<real>) -> real, i: nat, j: nat)
    returns (r: Option<seq<PairReport>>)
    requires i < j < |data|
    ensures r == PairReportOf(data, pValue, (i, j))
  {
    var s1, s2 := data[i].1, data[j].1;
    if |s1| < 3 || |s2| < 3 {
      return Some([Skipped(data[i].0, data[j].0)]);
    }
    var p := pValue(s1, s2);
    var mean1, mean2 := Mean(s1), Mean(s2);
    if mean1 == 0.0 {
      return None;
    }
    var diffPct := (mean2 - mean1) / mean1 * 100.0;
    var band := if p < 0.001 then "***" else if p < 0.01 then "**" else if p < 0.05 then "*" else "ns";
    r := Some([Compared(data[i].0, data[j].0, mean1, mean2, diffPct, p, band, p < 0.05)]);
  }

  method CompareRuntimes(scipyAvailable: bool, data: seq<(string, seq<real>)>, pValue: (seq<real>, seq<real>) -> real)
    returns (r: Option<seq<PairReport>>)
    ensures r == Comparisons(scipyAvailable, data, pValue)
  {
    if !scipyAvailable {
      return Some([]);
    }
    var n := |data|;
    var reports: seq<PairReport> := [];
    for i := 0 to n
      invariant Traverse(PairReportsOf(data, pValue), PairsBefore(n, i)) == Some(reports)
    {
      var row := CompareRow(data, pValue, i, reports);
      if row.None? {
        return None;
      }
      reports := row.value;
    }
    assert Pairs(n) == PairsBefore(n, n);
    r := Some(reports);
  }

  /** The inner loop for `i`: the reports of the pairs `(i, j)` appended to those before `i`. */
  method CompareRow(data: seq<(string, seq<real>)>, pValue: (seq<real>, seq<real>) -> real, i: nat, before: seq<PairReport>)
    returns (r: Option<seq<PairReport>>)
    requires i < |data|
    requires Traverse(PairReportsOf(data, pValue), PairsBefore(|data|, i)) == Some(before)
    ensures r.Some? ==> Traverse(PairReportsOf(data, pValue), PairsBefore(|data|, i + 1)) == r
    ensures r.None? ==> Traverse(PairReportsOf(data, pValue), Pairs(|data|)).None?
  {
    var n := |data|;
    var reports := before;
    RowStart(n, i);
    for j := i + 1 to n
      invariant RowDone(data, pValue, i, j, reports)
    {
      var report := ReportPair(data, pValue, i, j);
      if report.None? {
        PairFails(PairReportsOf(data, pValue), n, i, j);
        return None;
      }
      RowStep(data, pValue, i, j, reports);
      reports := reports + report.value;
    }
    r := Some(reports);
  }

  /** The reports of the pairs before `i` and of `(i, i + 1)` up to `(i, j - 1)`. */
  ghost predicate RowDone(data: seq<(string, seq<real>)>, pValue: (seq<real>, seq<real>) -> real, i: nat, j: nat, reports: seq<PairReport>)
    requires i < |data|
  {
    Traverse(PairReportsOf(data, pValue), PairsBefore(|data|, i) + RowUpTo(i, j)) == Some(reports)
  }

  lemma RowStep(data: seq<(string, seq<real>)>, pValue: (seq<real>, seq<real>) -> real, i: nat, j: nat, reports: seq<PairReport>)
    requires i < j < |data| && RowDone(data, pValue, i, j, reports)
    requires PairReportOf(data, pValue, (i, j)).Some?
    ensures RowDone(data, pValue, i, j + 1, reports + PairReportOf(data, pValue, (i, j)).value)
  {
    VisitStep(PairReportsOf(data, pValue), |data|, i, j);
  }

  /** A pair whose report raises makes the whole comparison raise. */
  lemma PairFails<B>(f: ((nat, nat)) -> Option<seq<B>>, n: nat, i: nat, j: nat)
    requires i < j < n && f((i, j)).None?
    ensures Traverse(f, Pairs(n)).None?
  {
    PairsBeforeMember(n, n, (i, j));
    var k :| 0 <= k < |Pairs(n)| && Pairs(n)[k] == (i, j);
  }

  lemma RowStart(n: nat, i: nat)
    requires i < n
    ensures PairsBefore(n, i) + RowUpTo(i, i + 1) == PairsBefore(n, i)
  {
    assert RowUpTo(i, i + 1) == [];
  }

  /** The inner loop visits `(i, j)` after the pairs visited so far. */
  lemma VisitStep<B>(f: ((nat, nat)) -> Option<seq<B>>, n: nat, i: nat, j: nat)
    requires i < j < n
    ensures Traverse(f, PairsBefore(n, i) + RowUpTo(i, j + 1)) ==
      var t := Traverse(f, PairsBefore(n, i) + RowUpTo(i, j));
      if t.Some? && f((i, j)).Some? then Some(t.value + f((i, j)).value) else None
  {
    var visited := PairsBefore(n, i) + RowUpTo(i, j);
    assert RowUpTo(i, j + 1) == RowUpTo(i, j) + [(i, j)];
    assert PairsBefore(n, i) + RowUpTo(i, j + 1) == visited + [(i, j)];
    TraverseAppendOne(f, visited, (i, j));
  }

  /**
   * Every pair of distinct runtimes gets exactly one report, in visiting order; it is
   * skipped exactly when a side has fewer than 3 samples.
   */
  lemma ReportPerPair(data: seq<(string, seq<real>)>, pValue: (seq<real>, seq<real>) -> real)
    requires Comparisons(true, data, pValue).Some?
    ensures |Comparisons(true, data, pValue).value| == |Pairs(|data|)|
    ensures forall k :: 0 <= k < |Pairs(|data|)| ==>
      var x, rep := Pairs(|data|)[k], Comparisons(true, data, pValue).value[k];
      x.0 < x.1 < |data| && rep.rt1 == data[x.0].0 && rep.rt2 == data[x.1].0 &&
      (rep.Skipped? <==> !Testable(data[x.0].1, data[x.1].1))
  {
    var f, ps := PairReportsOf(data, pValue), Pairs(|data|);
    EachPairOnce(|data|);
    ReportsAligned(f, data, pValue, ps);
  }

  lemma {:induction false} ReportsAligned(f: ((nat, nat)) -> Option<seq<PairReport>>, data: seq<(string, seq<real>)>,
                                          pValue: (seq<real>, seq<real>) -> real, ps: seq<(nat, nat)>)
    requires f == PairReportsOf(data, pValue)
    requires forall x :: x in ps ==> x.0 < x.1 < |data|
    requires Traverse(f, ps).Some?
    ensures |Traverse(f, ps).value| == |ps|
    ensures forall k :: 0 <= k < |ps| ==>
      Traverse(f, ps).value[k] == f(ps[k]).value[0] && f(ps[k]).value == [Traverse(f, ps).value[k]]
  {
    if ps != [] {
      var init := ps[..|ps| - 1];
      assert forall k :: 0 <= k < |init| ==> init[k] == ps[k];
      ReportsAligned(f, data, pValue, init);
      assert ps[|ps| - 1] in ps;
    }
  }

  // ---------------------------------------------------------------------------------
  // `main`

  function LoadOf(fs: FileSystem): string -> Option<seq<real>> {
    (dir: string) => Samples(fs, dir)
  }

  /** A runtime with fewer than 3 samples gets a warning. */
  function LowSampleWarnings(data: seq<(string, seq<real>)>): (r: seq<string>)
    ensures forall rt :: rt in r <==> exists e :: e in data && e.0 == rt && |e.1| < 3
  {
    var low := Filter((e: (string, seq<real>)) => |e.1| < 3, data);
    var names := MapSeq((e: (string, seq<real>)) => e.0, low);
    assert forall e :: e in low ==> e.0 in names by {
      forall e | e in low ensures e.0 in names {
        var k :| 0 <= k < |low| && low[k] == e;
        assert names[k] == e.0;
      }
    }
    assert forall rt :: rt in names ==> exists e :: e in low && e.0 == rt by {
      forall rt | rt in names ensures exists e :: e in low && e.0 == rt {
        var k :| 0 <= k < |names| && names[k] == rt;
        assert low[k] in low;
      }
    }
    names
  }

  /** How the script ends: an exception, no data (it returns before any summary), or the report. */
  datatype Outcome =
    | Raised
    | NoData
    | Report(data: seq<(string, seq<real>)>, warnings: seq<string>,
             intervals: seq<Option<(real, real)>>, comparisons: seq<PairReport>)

  function Intervals(scipyAvailable: bool, data: seq<(string, seq<real>)>, margin: seq<real> -> real): (r: seq<Option<(real, real)>>)
    ensures |r| == |data|
    ensures forall i :: 0 <= i < |data| ==> r[i] == ConfidenceInterval(scipyAvailable, data[i].1, margin(data[i].1))
  {
    seq(|data|, i requires 0 <= i < |data| => ConfidenceInterval(scipyAvailable, data[i].1, margin(data[i].1)))
  }

  function OutcomeOf(fs: FileSystem, scipyAvailable: bool, margin: seq<real> -> real, pValue: (seq<real>, seq<real>) -> real): Outcome {
    match Collected(LoadOf(fs), [], Runtimes)
    case None => Raised
    case Some(data) =>
      if data == [] then NoData
      else
        match Comparisons(scipyAvailable, data, pValue)
        case None => Raised
        case Some(comparisons) =>
          Report(data, LowSampleWarnings(data), Intervals(scipyAvailable, data, margin), comparisons)
  }

  /** The loop over the runtimes in `main`: each directory's samples, or the first exception. */
  method CollectData(fs: FileSystem) returns (r: Option<seq<(string, seq<real>)>>)
    ensures r == Collected(LoadOf(fs), [], Runtimes)
  {
    var runtimes := Runtimes;
    var data: seq<(string, seq<real>)> := [];
    for i := 0 to |runtimes|
      invariant CollectedUpTo(LoadOf(fs), [], runtimes, i, data)
    {
      var rt := runtimes[i];
      var samples := LoadSamples(fs, rt.1);
      if samples.None? {
        CollectFails(LoadOf(fs), [], runtimes, i);
        return None;
      }
      CollectStep(LoadOf(fs), [], runtimes, i, data, samples.value);
      if samples.value != [] {
        data := data + [(rt.0, samples.value)];
      }
    }
    CollectDone(LoadOf(fs), [], runtimes, data);
    r := Some(data);
  }


  method Analyze(fs: FileSystem, scipyAvailable: bool, margin: seq<real> -> real, pValue: (seq<real>, seq<real>) -> real)
    returns (o: Outcome)
    ensures o == OutcomeOf(fs, scipyAvailable, margin, pValue)
  {
    var collected := CollectData(fs);
    if collected.None? {
      return Raised;
    }
    var data := collected.value;
    if data == [] {
      return NoData;
    }
    var comparisons := CompareRuntimes(scipyAvailable, data, pValue);
    if comparisons.None? {
      return Raised;
    }
    o := Report(data, LowSampleWarnings(data), Intervals(scipyAvailable, data, margin), comparisons.value);
  }

  /** The script stops before any summary exactly when no runtime's logs yield a sample. */
  lemma NoDataIffNoSamples(fs: FileSystem, scipyAvailable: bool, margin: seq<real> -> real, pValue: (seq<real>, seq<real>) -> real)
    requires Collected(LoadOf(fs), [], Runtimes).Some?
    ensures OutcomeOf(fs, scipyAvailable, margin, pValue) == NoData <==>
      forall i :: 0 <= i < |Runtimes| ==> Samples(fs, Runtimes[i].1) == Some([])
  {
    CollectedEmpty(LoadOf(fs), [], Runtimes);
  }

  /**
   * A runtime is in `data` exactly when its logs yield samples, with those samples; it is
   * warned about exactly when it has one or two.
   */
  lemma ReportedRuntimes(fs: FileSystem, scipyAvailable: bool, margin: seq<real> -> real, pValue: (seq<real>, seq<real>) -> real,
                         e: (string, seq<real>))
    requires OutcomeOf(fs, scipyAvailable, margin, pValue).Report?
    ensures var o := OutcomeOf(fs, scipyAvailable, margin, pValue);
      e in o.data <==>
        exists i :: 0 <= i < |Runtimes| && Runtimes[i].0 == e.0 && Samples(fs, Runtimes[i].1) == Some(e.1) && e.1 != []
    ensures var o := OutcomeOf(fs, scipyAvailable, margin, pValue);
      e in o.data && |e.1| < 3 ==> e.0 in o.warnings && 1 <= |e.1|
  {
    CollectedMember(LoadOf(fs), [], Runtimes, e);
  }

  /** A runtime without samples is not in `data`. */
  lemma RuntimeWithoutSamplesAbsent(fs: FileSystem, scipyAvailable: bool, margin: seq<real> -> real,
                                    pValue: (seq<real>, seq<real>) -> real, j: nat)
    requires OutcomeOf(fs, scipyAvailable, margin, pValue).Report? && j < |Runtimes|
    requires Samples(fs, Runtimes[j].1) == Some([])
    ensures forall e :: e in OutcomeOf(fs, scipyAvailable, margin, pValue).data ==> e.0 != Runtimes[j].0
  {
    RuntimesDistinct();
    CollectedAbsent(LoadOf(fs), [], Runtimes, j);
  }

  lemma RuntimesDistinct()
    ensures DistinctNames(Runtimes)
  {
  }
}
