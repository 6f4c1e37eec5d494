/**
 * The scaling analysis of http-hello: every run log line of a scaling benchmark gives the
 * throughput and memory of one run at one concurrency level; the values are gathered per
 * level into three parallel lists, and each level's mean throughput is set against the
 * mean at concurrency 1 as a scaling efficiency.
 */
module HelloScaling {
  import opened Common
  import opened Seqs
  import opened Sorting
  import opened Text
  import opened Stats
  import opened LogFiles
  import opened RuntimeTable

  const Runtimes: Table := [
    ("native", "results/raw/native/http-hello-scaling"),
    ("docker", "results/raw/docker/http-hello-scaling"),
    ("wasmtime", "results/raw/wasmtime/http-hello-scaling")]

  // ---------------------------------------------------------------------------------
  // `run=(\d+)\s+conc=(\d+)\s+total_requests=(\d+)\s+elapsed_ms=([0-9.]+)\s+`
  // `throughput_rps=([0-9.]+).*total_rss_kb=(\d+).*avg_rss_kb=(\d+)`

  /** The groups of a match the script reads: 2 (conc), 5, 6 and 7. */
  datatype ScaleMatch = ScaleMatch(conc: string, throughputRps: string, totalRssKb: string, avgRssKb: string)

  /** `avg_rss_kb=(\d+)` at `q`: group 7. */
  function AvgRssAt(s: string, q: nat): (r: Option<string>)
    ensures r.Some? ==> LitAt(s, q, "avg_rss_kb=") && r.value != [] && AllIn(r.value, Digit)
  {
    var c :- Capture(s, q, "avg_rss_kb=", Digit);
    Some(c.0)
  }

  function AvgRss(): (string, nat) -> Option<string> {
    (s: string, q: nat) => AvgRssAt(s, q)
  }

  /**
   * `total_rss_kb=(\d+).*avg_rss_kb=(\d+)` at `p`: groups 6 and 7. The digit run cannot
   * end early to help the rest match, since `avg_rss_kb=` does not start with a digit.
   */
  function RssFieldsAt(s: string, p: nat): (r: Option<(string, string)>)
    ensures r.Some? ==> LitAt(s, p, "total_rss_kb=")
    ensures r.Some? ==> r.value.0 != [] && AllIn(r.value.0, Digit) && r.value.1 != [] && AllIn(r.value.1, Digit)
  {
    var t :- Capture(s, p, "total_rss_kb=", Digit);
    var a :- Greedy(AvgRss(), s, t.1);
    Some((t.0, a))
  }

  function RssFields(): (string, nat) -> Option<(string, string)> {
    (s: string, p: nat) => RssFieldsAt(s, p)
  }

  /** `key(cls+)\s+` at `i`: the captured run and the position after the white space. */
  function SpacedFieldAt(s: string, i: nat, key: string, cls: CharClass): (r: Option<(string, nat)>)
    ensures r.Some? ==> r.value.0 != [] && AllIn(r.value.0, cls) && r.value.1 <= |s|
  {
    var v :- Capture(s, i, key, cls);
    var j :- Run1(s, v.1, Space);
    Some((v.0, j))
  }

  /**
   * `run=(\d+)\s+conc=(\d+)\s+total_requests=(\d+)\s+elapsed_ms=([0-9.]+)\s+throughput_rps=([0-9.]+)`
   * at `i`: groups 2 and 5 and the position after the throughput.
   */
  function HeadAt(s: string, i: nat): (r: Option<(string, string, nat)>)
    ensures r.Some? ==> LitAt(s, i, "run=") && r.value.2 <= |s|
    ensures r.Some? ==> r.value.0 != [] && AllIn(r.value.0, Digit)
    ensures r.Some? ==> r.value.1 != [] && AllIn(r.value.1, NumChar)
  {
    var run :- SpacedFieldAt(s, i, "run=", Digit);
    var conc :- SpacedFieldAt(s, run.1, "conc=", Digit);
    var total :- SpacedFieldAt(s, conc.1, "total_requests=", Digit);
    var elapsed :- SpacedFieldAt(s, total.1, "elapsed_ms=", NumChar);
    var thr :- Capture(s, elapsed.1, "throughput_rps=", NumChar);
    Some((conc.0, thr.0, thr.1))
  }

  /**
   * The whole pattern at `i`. Every run before `.*` is followed by white space or by a
   * letter, so it is read to its end; the two `.*` take the last position from which the
   * rest of the pattern matches.
   */
  function ScaleMatchAt(s: string, i: nat): (r: Option<ScaleMatch>)
    ensures r.Some? ==> LitAt(s, i, "run=")
    ensures r.Some? ==> r.value.conc != [] && AllIn(r.value.conc, Digit)
    ensures r.Some? ==> r.value.throughputRps != [] && AllIn(r.value.throughputRps, NumChar)
    ensures r.Some? ==> AllIn(r.value.totalRssKb, Digit) && AllIn(r.value.avgRssKb, Digit)
  {
    var head :- HeadAt(s, i);
    var rss :- Greedy(RssFields(), s, head.2);
    Some(ScaleMatch(head.0, head.1, rss.0, rss.1))
  }

  function ScalePattern(): (string, nat) -> Option<ScaleMatch> {
    (s: string, i: nat) => ScaleMatchAt(s, i)
  }

  /** One run's values, as `load_samples` appends them. */
  datatype Sample = Sample(throughputRps: real, totalRssKb: nat, avgRssKb: nat)

  /**
   * What one line contributes: nothing without a match, else its concurrency and values;
   * `None` when `float()` rejects the captured throughput.
   */
  function ScaleSample(line: string): (r: Option<seq<(nat, Sample)>>)
    ensures r.Some? ==> |r.value| <= 1
    ensures r.Some? && r.value != [] ==> r.value[0].1.throughputRps >= 0.0
  {
    match Search(ScalePattern(), line)
    case None => Some([])
    case Some(m) =>
      var throughput :- ParseDecimal(m.throughputRps);
      Some([(DigitsValue(m.conc), Sample(throughput, DigitsValue(m.totalRssKb), DigitsValue(m.avgRssKb)))])
  }

  // ---------------------------------------------------------------------------------
  // Reading a scaling record

  /** No character of `t` is `c`. */
  predicate Lacks(t: string, c: char) {
    forall k :: 0 <= k < |t| ==> t[k] != c
  }

  /** Where neither memory key occurs in what follows the last field. */
  predicate QuietTail(rest: string) {
    && (rest == [] || !IsDigit(rest[0]))
    && forall k :: 0 <= k < |rest| ==> !LitAt(rest, k, "total_rss_kb=") && !LitAt(rest, k, "avg_rss_kb=")
  }

  /** The memory fields at the end of a record. */
  function RssText(totalRss: string, avgRss: string, rest: string): string {
    "total_rss_kb=" + (totalRss + (" " + ("avg_rss_kb=" + (avgRss + rest))))
  }

  /**
   * A record such as
   * `run=3 conc=8 total_requests=8000 elapsed_ms=812.5 throughput_rps=9846.2 total_rss_kb=41000 avg_rss_kb=5125`,
   * with `mid` between the throughput and the memory fields and `rest` after them.
   */
  function ScaleLineText(run: string, conc: string, total: string, elapsed: string, throughput: string,
                         mid: string, totalRss: string, avgRss: string, rest: string): string
  {
    "run=" + (run + (" " + ("conc=" + (conc + (" " + ("total_requests=" + (total + (" " +
    ("elapsed_ms=" + (elapsed + (" " + ("throughput_rps=" + (throughput + (mid +
    RssText(totalRss, avgRss, rest)))))))))))))))
  }

  /**
   * A record yields its concurrency, its throughput and its two memory values, whatever
   * stands between the throughput and `total_rss_kb=` on the same line.
   */
  lemma ScaleLineReads(run: string, conc: string, total: string, elapsed: string, throughput: string,
                       mid: string, totalRss: string, avgRss: string, rest: string)
    requires run != [] && AllIn(run, Digit) && conc != [] && AllIn(conc, Digit)
    requires total != [] && AllIn(total, Digit)
    requires elapsed != [] && AllIn(elapsed, NumChar)
    requires throughput != [] && AllIn(throughput, NumChar) && WellFormedDecimal(throughput)
    requires Lacks(mid, '\n') && (mid == [] || !IsNumChar(mid[0]))
    requires totalRss != [] && AllIn(totalRss, Digit) && avgRss != [] && AllIn(avgRss, Digit)
    requires QuietTail(rest)
    ensures ScaleSample(ScaleLineText(run, conc, total, elapsed, throughput, mid, totalRss, avgRss, rest)) ==
      Some([(DigitsValue(conc), Sample(ParseDecimal(throughput).value, DigitsValue(totalRss), DigitsValue(avgRss)))])
  {
    var line := ScaleLineText(run, conc, total, elapsed, throughput, mid, totalRss, avgRss, rest);
    var after := mid + RssText(totalRss, avgRss, rest);
    var fromThroughput := "throughput_rps=" + (throughput + after);
    var fromElapsed := "elapsed_ms=" + (elapsed + (" " + fromThroughput));
    var fromTotal := "total_requests=" + (total + (" " + fromElapsed));
    var fromConc := "conc=" + (conc + (" " + fromTotal));
    var a, b, c, d := HeadSteps(line, run, conc, total, elapsed, throughput, after, fromConc, fromTotal, fromElapsed, fromThroughput);
    var e := d + 15 + |throughput|;
    RecordTailReads(line, e, mid, totalRss, avgRss, rest);
    ScaleChain(line, run, a, conc, b, total, c, elapsed, d, throughput, e, totalRss, avgRss);
  }

  /** Between the throughput and the end of the line: `.*total_rss_kb=(\d+).*avg_rss_kb=(\d+)`. */
  lemma RecordTailReads(line: string, e: nat, mid: string, totalRss: string, avgRss: string, rest: string)
    requires e <= |line| && line[e..] == mid + RssText(totalRss, avgRss, rest)
    requires Lacks(mid, '\n')
    requires totalRss != [] && AllIn(totalRss, Digit) && avgRss != [] && AllIn(avgRss, Digit)
    requires QuietTail(rest)
    ensures Greedy(RssFields(), line, e) == Some((totalRss, avgRss))
  {
    var p := e + |mid|;
    DropPrefix(line, e, mid, RssText(totalRss, avgRss, rest));
    RssTailReads(line, p, totalRss, avgRss, rest);
    assert LineEnd(line, e) >= p by {
      forall k | e <= k < p ensures line[k] != '\n' {
        assert line[k] == line[e..][k - e] == mid[k - e];
      }
    }
    GreedyLast(RssFields(), line, e, LineEnd(line, e), p);
  }

  /** The pieces of a match assembled: the head fields, then the memory fields. */
  lemma ScaleChain(s: string, run: string, a: nat, conc: string, b: nat, total: string, c: nat, elapsed: string, d: nat,
                   throughput: string, e: nat, totalRss: string, avgRss: string)
    requires SpacedFieldAt(s, 0, "run=", Digit) == Some((run, a))
    requires SpacedFieldAt(s, a, "conc=", Digit) == Some((conc, b))
    requires SpacedFieldAt(s, b, "total_requests=", Digit) == Some((total, c))
    requires SpacedFieldAt(s, c, "elapsed_ms=", NumChar) == Some((elapsed, d))
    requires Capture(s, d, "throughput_rps=", NumChar) == Some((throughput, e))
    requires Greedy(RssFields(), s, e) == Some((totalRss, avgRss))
    requires WellFormedDecimal(throughput)
    ensures ScaleSample(s) ==
      Some([(DigitsValue(conc), Sample(ParseDecimal(throughput).value, DigitsValue(totalRss), DigitsValue(avgRss)))])
  {
    assert HeadAt(s, 0) == Some((conc, throughput, e));
    assert ScaleMatchAt(s, 0) == Some(ScaleMatch(conc, throughput, totalRss, avgRss));
    SearchLeftmost(ScalePattern(), s, 0, 0);
  }

  /** The five leading fields, each but the last read with the blank after it. */
  lemma HeadSteps(line: string, run: string, conc: string, total: string, elapsed: string, throughput: string, after: string,
                  fromConc: string, fromTotal: string, fromElapsed: string, fromThroughput: string)
    returns (a: nat, b: nat, c: nat, d: nat)
    requires line[0..] == "run=" + (run + (" " + fromConc))
    requires fromConc == "conc=" + (conc + (" " + fromTotal))
    requires fromTotal == "total_requests=" + (total + (" " + fromElapsed))
    requires fromElapsed == "elapsed_ms=" + (elapsed + (" " + fromThroughput))
    requires fromThroughput == "throughput_rps=" + (throughput + after)
    requires run != [] && AllIn(run, Digit) && conc != [] && AllIn(conc, Digit)
    requires total != [] && AllIn(total, Digit)
    requires elapsed != [] && AllIn(elapsed, NumChar)
    requires throughput != [] && AllIn(throughput, NumChar)
    requires after == [] || !IsNumChar(after[0])
    ensures SpacedFieldAt(line, 0, "run=", Digit) == Some((run, a))
    ensures SpacedFieldAt(line, a, "conc=", Digit) == Some((conc, b))
    ensures SpacedFieldAt(line, b, "total_requests=", Digit) == Some((total, c))
    ensures SpacedFieldAt(line, c, "elapsed_ms=", NumChar) == Some((elapsed, d))
    ensures Capture(line, d, "throughput_rps=", NumChar) == Some((throughput, d + 15 + |throughput|))
    ensures d + 15 + |throughput| <= |line| && line[d + 15 + |throughput|..] == after
  {
    a := FieldReads(line, 0, "run=", Digit, run, fromConc);
    b := FieldReads(line, a, "conc=", Digit, conc, fromTotal);
    c := FieldReads(line, b, "total_requests=", Digit, total, fromElapsed);
    d := FieldReads(line, c, "elapsed_ms=", NumChar, elapsed, fromThroughput);
    ThroughputFieldReads(line, d, throughput, after);
  }

  lemma ThroughputFieldReads(s: string, d: nat, throughput: string, after: string)
    requires d <= |s| && s[d..] == "throughput_rps=" + (throughput + after)
    requires throughput != [] && AllIn(throughput, NumChar) && (after == [] || !IsNumChar(after[0]))
    ensures Capture(s, d, "throughput_rps=", NumChar) == Some((throughput, d + 15 + |throughput|))
    ensures s[d + 15 + |throughput|..] == after
  {
    CaptureReads(s, d, "throughput_rps=", NumChar, throughput, after);
  }

  /** `key(cls+)\s+` on a field and one blank, with a letter after the blank. */
  lemma FieldReads(s: string, i: nat, key: string, cls: CharClass, v: string, after: string) returns (j: nat)
    requires i <= |s| && s[i..] == key + (v + (" " + after))
    requires v != [] && AllIn(v, cls) && !In(' ', cls)
    requires after != [] && 'a' <= after[0] <= 'z'
    ensures SpacedFieldAt(s, i, key, cls) == Some((v, j))
    ensures j <= |s| && s[j..] == after
  {
    CaptureReads(s, i, key, cls, v, " " + after);
    BlankReads(s, i + |key| + |v|, after);
    j := i + |key| + |v| + 1;
  }

  /**
   * The memory fields at `p` match, and no later position starts `total_rss_kb=`: the
   * greedy `.*` stops at `p`.
   */
  lemma RssTailReads(s: string, p: nat, totalRss: string, avgRss: string, rest: string)
    requires p <= |s| && s[p..] == RssText(totalRss, avgRss, rest)
    requires totalRss != [] && AllIn(totalRss, Digit) && avgRss != [] && AllIn(avgRss, Digit)
    requires QuietTail(rest)
    ensures RssFieldsAt(s, p) == Some((totalRss, avgRss))
    ensures forall q :: p < q <= |s| ==> RssFieldsAt(s, q).None?
  {
    var fromAvg := "avg_rss_kb=" + (avgRss + rest);
    RssFieldsRead(s, p, totalRss, avgRss, rest, " " + fromAvg, fromAvg);
    var gap := totalRss + (" " + ("avg_rss_kb=" + avgRss));
    Regroup(totalRss, " ", "avg_rss_kb=", avgRss, rest);
    GapLacksT(totalRss, avgRss);
    NoLaterRss(s, p, gap, rest);
  }

  lemma Regroup(a: string, b: string, c: string, d: string, e: string)
    ensures a + (b + (c + (d + e))) == (a + (b + (c + d))) + e
  {
  }

  lemma RssFieldsRead(s: string, p: nat, totalRss: string, avgRss: string, rest: string, fromBlank: string, fromAvg: string)
    requires p <= |s| && s[p..] == "total_rss_kb=" + (totalRss + fromBlank)
    requires fromBlank == " " + fromAvg && fromAvg == "avg_rss_kb=" + (avgRss + rest)
    requires totalRss != [] && AllIn(totalRss, Digit) && avgRss != [] && AllIn(avgRss, Digit)
    requires QuietTail(rest)
    ensures RssFieldsAt(s, p) == Some((totalRss, avgRss))
  {
    CaptureReads(s, p, "total_rss_kb=", Digit, totalRss, fromBlank);
    var t := p + 13 + |totalRss|;
    DropPrefix(s, t, " ", fromAvg);
    AvgTailReads(s, t + 1, avgRss, rest);
    assert s[t] == ' ';
    assert LineEnd(s, t) >= t + 1;
    GreedyLast(AvgRss(), s, t, LineEnd(s, t), t + 1);
  }

  /** Digits, a blank and `avg_rss_kb=` hold no `t`. */
  lemma GapLacksT(totalRss: string, avgRss: string)
    requires AllIn(totalRss, Digit) && AllIn(avgRss, Digit)
    ensures Lacks(totalRss + (" " + ("avg_rss_kb=" + avgRss)), 't')
  {
    var gap := totalRss + (" " + ("avg_rss_kb=" + avgRss));
    forall k | 0 <= k < |gap| ensures gap[k] != 't' {
      if k < |totalRss| {
        assert gap[k] == totalRss[k];
      } else if k < |totalRss| + 12 {
        assert gap[k] == " avg_rss_kb="[k - |totalRss|];
      } else {
        assert gap[k] == avgRss[k - |totalRss| - 12];
      }
    }
  }

  lemma NoLaterRss(s: string, p: nat, gap: string, rest: string)
    requires p <= |s| && s[p..] == "total_rss_kb=" + (gap + rest)
    requires Lacks(gap, 't') && QuietTail(rest)
    ensures forall q :: p < q <= |s| ==> RssFieldsAt(s, q).None?
  {
    UniqueLast("total_rss_kb=");
    forall q | p < q <= |s| ensures RssFieldsAt(s, q).None? {
      LitNotAfter(s, p, "total_rss_kb=", gap, rest, q);
    }
  }

  /** The last character of each key, `=`, occurs in it only there. */
  lemma UniqueLast(lit: string)
    requires lit == "total_rss_kb=" || lit == "avg_rss_kb="
    ensures forall k :: 0 <= k < |lit| - 1 ==> lit[k] != lit[|lit| - 1]
  {
  }

  /** `avg_rss_kb=(\d+)` at `a` reads the value, and matches at no later position. */
  lemma AvgTailReads(s: string, a: nat, avgRss: string, rest: string)
    requires a <= |s| && s[a..] == "avg_rss_kb=" + (avgRss + rest)
    requires avgRss != [] && AllIn(avgRss, Digit)
    requires QuietTail(rest)
    ensures AvgRssAt(s, a) == Some(avgRss)
    ensures forall q :: a < q ==> AvgRssAt(s, q).None?
  {
    CaptureReads(s, a, "avg_rss_kb=", Digit, avgRss, rest);
    UniqueLast("avg_rss_kb=");
    forall q | a < q ensures AvgRssAt(s, q).None? {
      LitNotAfter(s, a, "avg_rss_kb=", avgRss, rest, q);
    }
  }

  // ---------------------------------------------------------------------------------
  // `load_samples`: three parallel lists per concurrency level

  /** `samples[conc]`: the `throughput_rps`, `total_rss_kb` and `avg_rss_kb` lists. */
  datatype Series = Series(throughputRps: seq<real>, totalRssKb: seq<nat>, avgRssKb: seq<nat>)

  /** The three lists hold one entry per run. */
  predicate Aligned(s: Series) {
    |s.throughputRps| == |s.totalRssKb| == |s.avgRssKb|
  }

  /** The three appends of one line, on the level's lists (empty on first use). */
  function AddSample(samples: map<nat, Series>, conc: nat, x: Sample): map<nat, Series> {
    var s := if conc in samples then samples[conc] else Series([], [], []);
    samples[conc := Series(s.throughputRps + [x.throughputRps], s.totalRssKb + [x.totalRssKb], s.avgRssKb + [x.avgRssKb])]
  }

  /** `dict(samples)` after appending every pair of `ps` in order. */
  function Accumulate(ps: seq<(nat, Sample)>): map<nat, Series> {
    if ps == [] then map[]
    else AddSample(Accumulate(ps[..|ps| - 1]), ps[|ps| - 1].0, ps[|ps| - 1].1)
  }

  /** The three columns of a list of samples. */
  function SeriesOf(xs: seq<Sample>): (r: Series)
    ensures Aligned(r) && |r.throughputRps| == |xs|
  {
    Series(MapSeq((x: Sample) => x.throughputRps, xs), MapSeq((x: Sample) => x.totalRssKb, xs),
           MapSeq((x: Sample) => x.avgRssKb, xs))
  }

  /**
   * The lists of a level are the columns of that level's samples, in file then line order:
   * the same keys as grouping the samples whole, and each level's three lists read off its
   * group.
   */
  lemma {:induction false} AccumulateColumns(ps: seq<(nat, Sample)>)
    ensures Accumulate(ps).Keys == Group(ps).Keys
    ensures forall c :: c in Accumulate(ps) ==> Accumulate(ps)[c] == SeriesOf(Group(ps)[c])
  {
    if ps != [] {
      var init, last := ps[..|ps| - 1], ps[|ps| - 1];
      AccumulateColumns(init);
      var g := if last.0 in Group(init) then Group(init)[last.0] else [];
      SeriesSnoc(g, last.1);
      assert SeriesOf([]) == Series([], [], []);
    }
  }

  /** One more sample appends its three values to the three columns. */
  lemma SeriesSnoc(xs: seq<Sample>, x: Sample)
    ensures SeriesOf(xs + [x]) ==
      var s := SeriesOf(xs);
      Series(s.throughputRps + [x.throughputRps], s.totalRssKb + [x.totalRssKb], s.avgRssKb + [x.avgRssKb])
  {
    assert SeriesOf(xs + [x]).throughputRps == SeriesOf(xs).throughputRps + [x.throughputRps];
    assert SeriesOf(xs + [x]).totalRssKb == SeriesOf(xs).totalRssKb + [x.totalRssKb];
    assert SeriesOf(xs + [x]).avgRssKb == SeriesOf(xs).avgRssKb + [x.avgRssKb];
  }

  /**
   * Every level present has three lists of equal, non-zero length, the level occurs in
   * some pair, and its throughputs are those of its pairs, in order.
   */
  lemma SamplesAligned(ps: seq<(nat, Sample)>, c: nat)
    ensures c in Accumulate(ps) <==> exists i :: 0 <= i < |ps| && ps[i].0 == c
    ensures c in Accumulate(ps) ==> Aligned(Accumulate(ps)[c]) && Accumulate(ps)[c].throughputRps != []
    ensures c in Accumulate(ps) ==>
      Accumulate(ps)[c].throughputRps == MapSeq((x: Sample) => x.throughputRps, ValuesFor(ps, c))
  {
    AccumulateColumns(ps);
    GroupSpec(ps, c);
  }

  /** `load_samples(path)`; `None` when a `ValueError` escapes. */
  function ScalingSamples(fs: FileSystem, dir: string): Option<map<nat, Series>> {
    var ps :- Traverse(PerFile(ScaleSample), CheckedRunLogs(Listing(fs, dir)));
    Some(Accumulate(ps))
  }

  method LoadSamples(fs: FileSystem, dir: string) returns (r: Option<map<nat, Series>>)
    ensures r == ScalingSamples(fs, dir)
  {
    r := AccumulateFiles(RunLogs(Listing(fs, dir)), NameRechecked, ScaleSample);
  }

  /** The loop over the files, skipping those `keep` rejects; `f` reads one line. */
  method AccumulateFiles(files: seq<LogFile>, keep: LogFile -> bool, f: string -> Option<seq<(nat, Sample)>>)
    returns (r: Option<map<nat, Series>>)
    ensures r.Some? <==> Traverse(PerFile(f), Filter(keep, files)).Some?
    ensures r.Some? ==> r.value == Accumulate(Traverse(PerFile(f), Filter(keep, files)).value)
  {
    var samples: map<nat, Series> := map[];
    ghost var pairs: seq<(nat, Sample)> := [];
    for fi := 0 to |files|
      invariant Traverse(PerFile(f), Filter(keep, files[..fi])) == Some(pairs)
      invariant samples == Accumulate(pairs)
    {
      var read := Filter(keep, files[..fi]);
      FilterSnoc(keep, files, fi);
      if !keep(files[fi]) {
        assert read + [] == read;
        continue;
      }
      TraverseAppendOne(PerFile(f), read, files[fi]);
      var next := AccumulateLines(samples, pairs, files[fi].lines, f);
      if next.None? {
        return None;
      }
      pairs := pairs + PerFile(f)(files[fi]).value;
      samples := next.value;
    }
    assert files[..|files|] == files;
    r := Some(samples);
  }

  /** The loop over the lines of one file: the three appends for every pair a line yields. */
  method AccumulateLines(samples: map<nat, Series>, ghost pairs: seq<(nat, Sample)>, lines: seq<string>,
                         f: string -> Option<seq<(nat, Sample)>>)
    returns (r: Option<map<nat, Series>>)
    requires samples == Accumulate(pairs)
    ensures r.Some? <==> Traverse(f, lines).Some?
    ensures r.Some? ==> r.value == Accumulate(pairs + Traverse(f, lines).value)
  {
    var acc := samples;
    ghost var accPairs := pairs;
    for li := 0 to |lines|
      invariant Traverse(f, lines[..li]).Some?
      invariant accPairs == pairs + Traverse(f, lines[..li]).value
      invariant acc == Accumulate(accPairs)
    {
      var v := f(lines[li]);
      if v.None? {
        return None;
      }
      TraverseSnoc(f, lines, li);
      ghost var before := accPairs;
      for vi := 0 to |v.value|
        invariant accPairs == before + v.value[..vi]
        invariant acc == Accumulate(accPairs)
      {
        assert (accPairs + [v.value[vi]])[..|accPairs|] == accPairs;
        acc := AddSample(acc, v.value[vi].0, v.value[vi].1);
        accPairs := accPairs + [v.value[vi]];
        assert before + v.value[..vi + 1] == accPairs;
      }
      assert v.value[..|v.value|] == v.value;
    }
    assert lines[..|lines|] == lines;
    r := Some(acc);
  }

  /**
   * When each line yields at most one run, a level is present exactly when some line of
   * some file yields a run at that level; each present level has three aligned, non-empty
   * lists.
   */
  lemma AccumulatedKeys(files: seq<LogFile>, f: string -> Option<seq<(nat, Sample)>>, c: nat)
    requires forall line :: f(line).Some? ==> |f(line).value| <= 1
    requires Traverse(PerFile(f), files).Some?
    ensures var m := Accumulate(Traverse(PerFile(f), files).value);
      c in m <==> exists file, line, x :: file in files && line in file.lines && f(line) == Some([(c, x)])
    ensures var m := Accumulate(Traverse(PerFile(f), files).value);
      c in m ==> Aligned(m[c]) && m[c].throughputRps != []
  {
    var ps := Traverse(PerFile(f), files).value;
    SamplesAligned(ps, c);
    if c in Accumulate(ps) {
      LevelHasLine(files, f, c);
    }
    if exists file, line, x :: file in files && line in file.lines && f(line) == Some([(c, x)]) {
      var file, line, x :| file in files && line in file.lines && f(line) == Some([(c, x)]);
      LineGivesLevel(files, f, file, line, c, x);
    }
  }

  lemma LevelHasLine(files: seq<LogFile>, f: string -> Option<seq<(nat, Sample)>>, c: nat)
    requires forall line :: f(line).Some? ==> |f(line).value| <= 1
    requires Traverse(PerFile(f), files).Some?
    requires exists i :: 0 <= i < |Traverse(PerFile(f), files).value| && Traverse(PerFile(f), files).value[i].0 == c
    ensures exists file, line, x :: file in files && line in file.lines && f(line) == Some([(c, x)])
  {
    var ps := Traverse(PerFile(f), files).value;
    var i :| 0 <= i < |ps| && ps[i].0 == c;
    GatheredMember(files, f, ps[i]);
    var file, line :| file in files && line in file.lines && f(line).Some? && ps[i] in f(line).value;
    Singleton(f(line).value, ps[i]);
  }

  lemma Singleton<T>(v: seq<T>, y: T)
    requires |v| <= 1 && y in v
    ensures v == [y]
  {
  }

  lemma LineGivesLevel(files: seq<LogFile>, f: string -> Option<seq<(nat, Sample)>>, file: LogFile, line: string, c: nat, x: Sample)
    requires Traverse(PerFile(f), files).Some?
    requires file in files && line in file.lines && f(line) == Some([(c, x)])
    ensures exists i :: 0 <= i < |Traverse(PerFile(f), files).value| && Traverse(PerFile(f), files).value[i].0 == c
  {
    var ps := Traverse(PerFile(f), files).value;
    GatheredMember(files, f, (c, x));
    var i :| 0 <= i < |ps| && ps[i] == (c, x);
  }

  /**
   * A level is present exactly when some line of some file read yields a run at that
   * level; the files read are the run logs whose names hold no line break.
   */
  lemma ScalingSamplesKeys(fs: FileSystem, dir: string, c: nat)
    requires ScalingSamples(fs, dir).Some?
    ensures c in ScalingSamples(fs, dir).value <==>
      exists file, line, x :: file in CheckedRunLogs(Listing(fs, dir)) && line in file.lines && ScaleSample(line) == Some([(c, x)])
    ensures c in ScalingSamples(fs, dir).value ==>
      Aligned(ScalingSamples(fs, dir).value[c]) && ScalingSamples(fs, dir).value[c].throughputRps != []
  {
    AccumulatedKeys(CheckedRunLogs(Listing(fs, dir)), ScaleSample, c);
  }

  // ---------------------------------------------------------------------------------
  // `calculate_scaling_efficiency`

  /** The entry for one level: `actual_speedup`, `ideal_speedup`, `efficiency_pct`. */
  datatype Efficiency = Efficiency(actualSpeedup: real, idealSpeedup: nat, efficiencyPct: real)

  /** Every level has at least one throughput, so `statistics.mean` does not raise. */
  predicate Measured(concMap: map<nat, Series>) {
    forall c :: c in concMap ==> concMap[c].throughputRps != []
  }

  function MeanThroughput(concMap: map<nat, Series>, c: nat): real
    requires Measured(concMap) && c in concMap
  {
    Mean(concMap[c].throughputRps)
  }

  /**
   * The efficiency table; `None` when a division by zero raises: a zero mean throughput at
   * concurrency 1, or a level 0.
   */
  function ScalingEfficiency(concMap: map<nat, Series>): (r: Option<map<nat, Efficiency>>)
    requires Measured(concMap)
    ensures 1 !in concMap ==> r == Some(map[])
    ensures r.None? <==> 1 in concMap && (MeanThroughput(concMap, 1) == 0.0 || 0 in concMap)
    ensures r.Some? && 1 in concMap ==> r.value.Keys == concMap.Keys
  {
    if 1 !in concMap then Some(map[])
    else
      var baseline := MeanThroughput(concMap, 1);
      if baseline == 0.0 || 0 in concMap then None
      else Some(map c | c in concMap :: EntryAt(concMap, baseline, c))
  }

  function EntryAt(concMap: map<nat, Series>, baseline: real, c: nat): Efficiency
    requires Measured(concMap) && c in concMap && baseline != 0.0 && c != 0
  {
    var speedup := MeanThroughput(concMap, c) / baseline;
    Efficiency(speedup, c, speedup / c as real * 100.0)
  }

  /** The loop over `sorted(conc_map.keys())`. */
  method CalculateScalingEfficiency(concMap: map<nat, Series>) returns (r: Option<map<nat, Efficiency>>)
    requires Measured(concMap)
    ensures r == ScalingEfficiency(concMap)
  {
    var concs := SortedNats(concMap.Keys);
    if concs == [] || 1 !in concs {
      return Some(map[]);
    }
    var baseline := Mean(concMap[1].throughputRps);
    r := FillEfficiency(concMap, concs, baseline);
  }

  /** The loop body over the sorted levels, against the baseline mean at concurrency 1. */
  method FillEfficiency(concMap: map<nat, Series>, concs: seq<nat>, baseline: real) returns (r: Option<map<nat, Efficiency>>)
    requires Measured(concMap) && 1 in concMap && baseline == MeanThroughput(concMap, 1)
    requires concs != [] && forall c :: c in concs <==> c in concMap
    ensures r == ScalingEfficiency(concMap)
  {
    var efficiency: map<nat, Efficiency> := map[];
    for i := 0 to |concs|
      invariant forall j :: 0 <= j < i ==> concs[j] in efficiency
      invariant Filled(concMap, baseline, efficiency)
    {
      var conc := concs[i];
      var actualThroughput := Mean(concMap[conc].throughputRps);
      if baseline == 0.0 {
        return None;
      }
      var actualSpeedup := actualThroughput / baseline;
      if conc == 0 {
        return None;
      }
      var entry := Efficiency(actualSpeedup, conc, actualSpeedup / conc as real * 100.0);
      FillStep(concMap, baseline, efficiency, conc, entry);
      efficiency := efficiency[conc := entry];
    }
    FilledTable(concMap, concs, baseline, efficiency);
    r := Some(efficiency);
  }

  /** Every entry filled so far is the one the table prescribes. */
  ghost predicate Filled(concMap: map<nat, Series>, baseline: real, efficiency: map<nat, Efficiency>)
    requires Measured(concMap)
  {
    forall c :: c in efficiency ==>
      c in concMap && c != 0 && baseline != 0.0 && efficiency[c] == EntryAt(concMap, baseline, c)
  }

  lemma FillStep(concMap: map<nat, Series>, baseline: real, efficiency: map<nat, Efficiency>, conc: nat, entry: Efficiency)
    requires Measured(concMap) && Filled(concMap, baseline, efficiency)
    requires conc in concMap && conc != 0 && baseline != 0.0
    requires entry == Efficiency(MeanThroughput(concMap, conc) / baseline, conc,
      MeanThroughput(concMap, conc) / baseline / conc as real * 100.0)
    ensures Filled(concMap, baseline, efficiency[conc := entry])
    ensures efficiency.Keys <= efficiency[conc := entry].Keys
  {
  }

  /** After the loop every level has its entry, so none was 0 and the baseline was not 0. */
  lemma FilledTable(concMap: map<nat, Series>, concs: seq<nat>, baseline: real, efficiency: map<nat, Efficiency>)
    requires Measured(concMap) && concs != [] && forall c :: c in concs <==> c in concMap
    requires forall j :: 0 <= j < |concs| ==> concs[j] in efficiency
    requires Filled(concMap, baseline, efficiency)
    ensures baseline != 0.0 && 0 !in concMap
    ensures efficiency == map c | c in concMap :: EntryAt(concMap, baseline, c)
  {
    assert concs[0] in efficiency;
    forall c | c in concMap ensures c in efficiency {
      var j :| 0 <= j < |concs| && concs[j] == c;
    }
  }

  /** At concurrency 1 the speedup is 1 and the efficiency 100%. */
  lemma BaselineIsFullyEfficient(concMap: map<nat, Series>)
    requires Measured(concMap) && ScalingEfficiency(concMap).Some? && 1 in concMap
    ensures ScalingEfficiency(concMap).value[1] == Efficiency(1.0, 1, 100.0)
  {
    var b := MeanThroughput(concMap, 1);
    assert b != 0.0;
    assert ScalingEfficiency(concMap).value[1] == EntryAt(concMap, b, 1);
    assert b / b == 1.0;
  }

  /**
   * Each entry states the level's mean throughput as a multiple of the baseline: the
   * efficiency is 100% exactly when the mean is `conc` times the baseline, above 100%
   * exactly when it is more.
   */
  lemma EfficiencyMeaning(concMap: map<nat, Series>, c: nat)
    requires Measured(concMap) && ScalingEfficiency(concMap).Some? && 1 in concMap && c in concMap
    ensures var e := ScalingEfficiency(concMap).value[c];
      && e.idealSpeedup == c
      && e.actualSpeedup * MeanThroughput(concMap, 1) == MeanThroughput(concMap, c)
      && e.efficiencyPct * c as real * MeanThroughput(concMap, 1) == 100.0 * MeanThroughput(concMap, c)
    ensures var e := ScalingEfficiency(concMap).value[c];
      (e.efficiencyPct == 100.0 <==> MeanThroughput(concMap, c) == c as real * MeanThroughput(concMap, 1))
  {
    var base, m := MeanThroughput(concMap, 1), MeanThroughput(concMap, c);
    var e := ScalingEfficiency(concMap).value[c];
    assert e == EntryAt(concMap, base, c);
    assert e.actualSpeedup == m / base;
    assert e.efficiencyPct == m / base / c as real * 100.0;
    calc {
      e.efficiencyPct * c as real * base;
      m / base / c as real * 100.0 * c as real * base;
      100.0 * m;
    }
  }

  // ---------------------------------------------------------------------------------
  // `main`

  function LoadOf(fs: FileSystem): string -> Option<map<nat, Series>> {
    (dir: string) => ScalingSamples(fs, dir)
  }

  /**
   * `calculate_scaling_efficiency(data, rt)` for one runtime, as `print_summary` calls it:
   * the runtime with its table, or `None` where it raises. A level without a throughput
   * makes `statistics.mean` raise once level 1 is present.
   */
  function RuntimeEfficiency(entry: (string, map<nat, Series>)): Option<seq<(string, map<nat, Efficiency>)>> {
    if !Measured(entry.1) then
      if 1 in entry.1 then None else Some([(entry.0, map[])])
    else
      var table :- ScalingEfficiency(entry.1);
      Some([(entry.0, table)])
  }

  /**
   * How the script ends: an exception, exit status 1 without data, or the report on `data`
   * with the efficiency table `print_summary` computes for each runtime.
   */
  datatype Outcome =
    | Raised
    | NoData
    | Report(data: seq<(string, map<nat, Series>)>, efficiency: seq<(string, map<nat, Efficiency>)>)

  function OutcomeOf(fs: FileSystem): Outcome {
    match Collected(LoadOf(fs), map[], Runtimes)
    case None => Raised
    case Some(data) =>
      if data == [] then NoData
      else
        match Traverse(RuntimeEfficiency, data)
        case None => Raised
        case Some(tables) => Report(data, tables)
  }

  /** The loop over the runtimes in `main`: each directory's samples, or the first exception. */
  method CollectData(fs: FileSystem) returns (r: Option<seq<(string, map<nat, Series>)>>)
    ensures r == Collected(LoadOf(fs), map[], Runtimes)
  {
    var runtimes := Runtimes;
    var data: seq<(string, map<nat, Series>)> := [];
    for i := 0 to |runtimes|
      invariant CollectedUpTo(LoadOf(fs), map[], runtimes, i, data)
    {
      var rt := runtimes[i];
      var samples := LoadSamples(fs, rt.1);
      if samples.None? {
        CollectFails(LoadOf(fs), map[], runtimes, i);
        return None;
      }
      CollectStep(LoadOf(fs), map[], runtimes, i, data, samples.value);
      if samples.value != map[] {
        data := data + [(rt.0, samples.value)];
      }
    }
    CollectDone(LoadOf(fs), map[], runtimes, data);
    r := Some(data);
  }

  /** `main`: collect the runtimes, then `print_summary`, which computes each runtime's efficiency. */
  method Analyze(fs: FileSystem) returns (o: Outcome)
    ensures o == OutcomeOf(fs)
  {
    var collected := CollectData(fs);
    if collected.None? {
      return Raised;
    }
    var data := collected.value;
    if data == [] {
      return NoData;
    }
    forall e | e in data ensures Measured(e.1) {
      DataMeasured(fs, e);
    }
    var tables := SummaryEfficiencies(data);
    o := if tables.None? then Raised else Report(data, tables.value);
  }

  /** The `calculate_scaling_efficiency` call `print_summary` makes for each runtime in turn. */
  method SummaryEfficiencies(data: seq<(string, map<nat, Series>)>) returns (r: Option<seq<(string, map<nat, Efficiency>)>>)
    requires forall e :: e in data ==> Measured(e.1)
    ensures r == Traverse(RuntimeEfficiency, data)
  {
    var tables: seq<(string, map<nat, Efficiency>)> := [];
    for i := 0 to |data|
      invariant Traverse(RuntimeEfficiency, data[..i]) == Some(tables)
    {
      var rt := data[i];
      var table := CalculateScalingEfficiency(rt.1);
      if table.None? {
        assert RuntimeEfficiency(data[i]).None?;
        return None;
      }
      TraverseSnoc(RuntimeEfficiency, data, i);
      tables := tables + [(rt.0, table.value)];
    }
    assert data[..|data|] == data;
    r := Some(tables);
  }

  /** Every runtime collected has levels with three aligned, non-empty lists. */
  lemma DataMeasured(fs: FileSystem, e: (string, map<nat, Series>))
    requires Collected(LoadOf(fs), map[], Runtimes).Some?
    requires e in Collected(LoadOf(fs), map[], Runtimes).value
    ensures Measured(e.1) && forall c :: c in e.1 ==> Aligned(e.1[c])
  {
    CollectedMember(LoadOf(fs), map[], Runtimes, e);
    var i :| 0 <= i < |Runtimes| && Runtimes[i].0 == e.0 && ScalingSamples(fs, Runtimes[i].1) == Some(e.1) && e.1 != map[];
    forall c | c in e.1 ensures e.1[c].throughputRps != [] && Aligned(e.1[c]) {
      ScalingSamplesKeys(fs, Runtimes[i].1, c);
    }
  }

  /** With a report, every runtime's efficiency table is defined and reported under its name. */
  lemma ReportedEfficiency(fs: FileSystem, e: (string, map<nat, Series>))
    requires OutcomeOf(fs).Report? && e in OutcomeOf(fs).data
    ensures Measured(e.1) && ScalingEfficiency(e.1).Some?
    ensures (e.0, ScalingEfficiency(e.1).value) in OutcomeOf(fs).efficiency
  {
    var data := Collected(LoadOf(fs), map[], Runtimes).value;
    DataMeasured(fs, e);
    var i :| 0 <= i < |data| && data[i] == e;
    assert RuntimeEfficiency(data[i]).Some?;
    TraverseMember(RuntimeEfficiency, data, (e.0, ScalingEfficiency(e.1).value));
  }

  /**
   * Once some runtime has data, the script raises exactly when some runtime has level 1
   * with a zero mean throughput, or level 1 together with a level 0.
   */
  lemma RaisesOnUndefinedEfficiency(fs: FileSystem)
    requires Collected(LoadOf(fs), map[], Runtimes).Some? && Collected(LoadOf(fs), map[], Runtimes).value != []
    ensures OutcomeOf(fs) == Raised <==>
      exists e :: e in Collected(LoadOf(fs), map[], Runtimes).value && Measured(e.1) && 1 in e.1 &&
        (MeanThroughput(e.1, 1) == 0.0 || 0 in e.1)
  {
    var data := Collected(LoadOf(fs), map[], Runtimes).value;
    forall e | e in data ensures Measured(e.1) {
      DataMeasured(fs, e);
    }
    if OutcomeOf(fs) == Raised {
      var i :| 0 <= i < |data| && RuntimeEfficiency(data[i]).None?;
      assert data[i] in data;
    }
  }

  /** The script exits with status 1 exactly when no runtime's directory yields a run. */
  lemma NoDataIffNoSamples(fs: FileSystem)
    requires OutcomeOf(fs) != Raised
    ensures OutcomeOf(fs) == NoData <==> forall i :: 0 <= i < |Runtimes| ==> ScalingSamples(fs, Runtimes[i].1) == Some(map[])
  {
    CollectedEmpty(LoadOf(fs), map[], Runtimes);
  }

  /**
   * `data` holds exactly the runtimes with runs, each with its levels; every level in it
   * has three aligned, non-empty lists.
   */
  lemma ReportedRuntimes(fs: FileSystem, e: (string, map<nat, Series>))
    requires OutcomeOf(fs).Report?
    ensures e in OutcomeOf(fs).data <==>
      exists i :: 0 <= i < |Runtimes| && Runtimes[i].0 == e.0 && ScalingSamples(fs, Runtimes[i].1) == Some(e.1) && e.1 != map[]
    ensures e in OutcomeOf(fs).data ==> Measured(e.1) && forall c :: c in e.1 ==> Aligned(e.1[c])
  {
    CollectedMember(LoadOf(fs), map[], Runtimes, e);
    if e in OutcomeOf(fs).data {
      DataMeasured(fs, e);
    }
  }

  /** A runtime without runs is not in `data`. */
  lemma RuntimeWithoutSamplesAbsent(fs: FileSystem, j: nat)
    requires OutcomeOf(fs).Report? && j < |Runtimes|
    requires ScalingSamples(fs, Runtimes[j].1) == Some(map[])
    ensures forall e :: e in OutcomeOf(fs).data ==> e.0 != Runtimes[j].0
  {
    RuntimesDistinct();
    CollectedAbsent(LoadOf(fs), map[], Runtimes, j);
  }

  lemma RuntimesDistinct()
    ensures DistinctNames(Runtimes)
  {
  }
}
