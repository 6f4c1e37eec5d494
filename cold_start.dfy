/**
 * The cold-start comparison of Docker and Wasmtime: the rows of `cold_start_data.csv` are
 * put into four fixed buckets by `runtime` and `type`, each bucket is summarised, and the
 * buckets are compared pairwise by their mean time to the first HTTP 200, in the text
 * summary and in the speedup chart.
 */
module ColdStart {
  import opened Common
  import opened Seqs
  import opened Stats
  import Text

  // ---------------------------------------------------------------------------------
  // `csv.DictReader` rows

  /** A cell of a row; `Missing` is the `None` a row with too few fields gets (`restval`). */
  datatype Cell = Text(text: string) | Missing

  /** A row: header name to cell. A name that is not a column is absent (`KeyError`). */
  type Row = map<string, Cell>

  /** What an f-string prints for a cell. */
  function Shown(c: Cell): string {
    match c
    case Text(t) => t
    case Missing => "None"
  }

  /** `row[col]`; `None` for the `KeyError` of a missing column. */
  function Get(row: Row, col: string): (r: Option<Cell>)
    ensures r.Some? <==> col in row
  {
    if col in row then Some(row[col]) else None
  }

  /** The four buckets, in the order of the `data` literal. */
  const Buckets: seq<string> := ["docker_full_cold", "docker_runtime_cold", "wasmtime_full_cold", "wasmtime_runtime_cold"]

  /** `f"{runtime}_{start_type}"`; `None` when a column is missing. */
  function KeyOf(row: Row): (r: Option<string>)
    ensures r.Some? <==> "runtime" in row && "type" in row
  {
    var runtime :- Get(row, "runtime");
    var startType :- Get(row, "type");
    Some(Shown(runtime) + "_" + Shown(startType))
  }

  /** One accepted row. */
  datatype Entry = Entry(run: int, buildMs: real, startMs: real, totalMs: real)

  /**
   * `int(cell)` or `float(cell)`, with `conv` standing for the conversion of a text; `None`
   * for the `TypeError` on a missing cell and for the `ValueError` of `conv`.
   */
  function Convert<T>(conv: string -> Option<T>, c: Cell): (r: Option<T>)
    ensures c.Missing? ==> r.None?
    ensures c.Text? ==> r == conv(c.text)
  {
    match c
    case Text(t) => conv(t)
    case Missing => None
  }

  /** The entry built from a row: `int` of `run`, `float` of the three timings. */
  function EntryOfRow(row: Row, toInt: string -> Option<int>, toFloat: string -> Option<real>): (r: Option<Entry>)
    ensures r.Some? ==> "run" in row && "build_ms" in row && "start_ms" in row && "total_ms" in row
    ensures r.Some? ==> Convert(toInt, row["run"]) == Some(r.value.run) && Convert(toFloat, row["total_ms"]) == Some(r.value.totalMs)
    ensures r.Some? ==> Convert(toFloat, row["build_ms"]) == Some(r.value.buildMs) && Convert(toFloat, row["start_ms"]) == Some(r.value.startMs)
  {
    var run :- Get(row, "run");
    var build :- Get(row, "build_ms");
    var start :- Get(row, "start_ms");
    var total :- Get(row, "total_ms");
    var r :- Convert(toInt, run);
    var b :- Convert(toFloat, build);
    var s :- Convert(toFloat, start);
    var t :- Convert(toFloat, total);
    Some(Entry(r, b, s, t))
  }

  /** What a row adds: nothing when its key is not a bucket, else the bucket and its entry. */
  function RowPairs(row: Row, toInt: string -> Option<int>, toFloat: string -> Option<real>): (r: Option<seq<(string, Entry)>>)
    ensures r.Some? ==> KeyOf(row).Some? && |r.value| <= 1
    ensures r.Some? ==> (r.value != [] <==> KeyOf(row).value in Buckets)
    ensures r.Some? && r.value != [] ==> r.value[0].0 == KeyOf(row).value && EntryOfRow(row, toInt, toFloat) == Some(r.value[0].1)
  {
    var key :- KeyOf(row);
    if key !in Buckets then Some([])
    else
      var e :- EntryOfRow(row, toInt, toFloat);
      Some([(key, e)])
  }

  function RowPairsOf(toInt: string -> Option<int>, toFloat: string -> Option<real>): Row -> Option<seq<(string, Entry)>> {
    (row: Row) => RowPairs(row, toInt, toFloat)
  }

  /** The result of `load_data`: the file is missing, an exception escaped, or the buckets. */
  datatype Load = NotFound | Raised | Loaded(data: map<string, seq<Entry>>)

  /** The four buckets after appending the pairs of `ps` in order. */
  function Bucketed(ps: seq<(string, Entry)>): (r: map<string, seq<Entry>>)
    ensures forall k :: k in r <==> k in Buckets
  {
    map k | k in Buckets :: ValuesFor(ps, k)
  }

  /** `load_data()`, the file given as its rows or `None` when it does not exist. */
  function LoadSpec(csv: Option<seq<Row>>, toInt: string -> Option<int>, toFloat: string -> Option<real>): Load {
    match csv
    case None => NotFound
    case Some(rows) =>
      match Traverse(RowPairsOf(toInt, toFloat), rows)
      case None => Raised
      case Some(ps) => Loaded(Bucketed(ps))
  }

  method LoadData(csv: Option<seq<Row>>, toInt: string -> Option<int>, toFloat: string -> Option<real>) returns (r: Load)
    ensures r == LoadSpec(csv, toInt, toFloat)
  {
    if csv.None? {
      return NotFound;
    }
    var rows := csv.value;
    var f := RowPairsOf(toInt, toFloat);
    var data: map<string, seq<Entry>> := map[
      "docker_full_cold" := [], "docker_runtime_cold" := [],
      "wasmtime_full_cold" := [], "wasmtime_runtime_cold" := []];
    ghost var ps: seq<(string, Entry)> := [];
    EmptyBuckets();
    for i := 0 to |rows|
      invariant Traverse(f, rows[..i]) == Some(ps)
      invariant data == Bucketed(ps)
    {
      var row := rows[i];
      if "runtime" !in row || "type" !in row {
        assert f(rows[i]).None?;
        return Raised;
      }
      var key := Shown(row["runtime"]) + "_" + Shown(row["type"]);
      TraverseSnocFails(f, rows, i);
      if key in data {
        var entry := EntryOfRow(row, toInt, toFloat);
        if entry.None? {
          return Raised;
        }
        BucketedSnoc(ps, (key, entry.value));
        data := data[key := data[key] + [entry.value]];
        ps := ps + [(key, entry.value)];
      } else {
        assert ps + [] == ps;
      }
    }
    assert rows[..|rows|] == rows;
    r := Loaded(data);
  }

  /** The dictionary `load_data` starts from is the four buckets with nothing in them. */
  lemma EmptyBuckets()
    ensures Bucketed([]) == map[
      "docker_full_cold" := [], "docker_runtime_cold" := [],
      "wasmtime_full_cold" := [], "wasmtime_runtime_cold" := []]
  {
  }

  /** The loop step: a failing row ends the run, any other row appends what it yields. */
  lemma TraverseSnocFails<A, B>(f: A -> Option<seq<B>>, s: seq<A>, i: nat)
    requires i < |s| && Traverse(f, s[..i]).Some?
    ensures f(s[i]).None? ==> Traverse(f, s).None?
    ensures f(s[i]).Some? ==> Traverse(f, s[..i + 1]) == Some(Traverse(f, s[..i]).value + f(s[i]).value)
  {
    if f(s[i]).Some? {
      TraverseSnoc(f, s, i);
    }
  }

  /** Appending a pair to one of the four buckets changes only that bucket. */
  lemma BucketedSnoc(ps: seq<(string, Entry)>, p: (string, Entry))
    requires p.0 in Buckets
    ensures Bucketed(ps + [p]) == Bucketed(ps)[p.0 := Bucketed(ps)[p.0] + [p.1]]
  {
    assert (ps + [p])[..|ps|] == ps;
    var before, after := Bucketed(ps), Bucketed(ps + [p]);
    forall k | k in Buckets ensures after[k] == before[k] + (if p.0 == k then [p.1] else []) {
    }
    var updated := before[p.0 := before[p.0] + [p.1]];
    assert after.Keys == updated.Keys;
    assert forall k :: k in after ==> after[k] == updated[k];
  }

  /** A row whose key is `k` and that loads. */
  predicate InBucket(k: string, row: Row) {
    KeyOf(row) == Some(k)
  }

  /**
   * Each bucket holds one entry per row with that key, built from that row, in row order:
   * its length is the number of such rows, and a row whose key is not a bucket is dropped.
   */
  lemma {:induction false} BucketCount(rows: seq<Row>, toInt: string -> Option<int>, toFloat: string -> Option<real>, k: string)
    requires k in Buckets
    requires Traverse(RowPairsOf(toInt, toFloat), rows).Some?
    ensures |ValuesFor(Traverse(RowPairsOf(toInt, toFloat), rows).value, k)| == |Filter((row: Row) => InBucket(k, row), rows)|
  {
    var f := RowPairsOf(toInt, toFloat);
    var inK := (row: Row) => InBucket(k, row);
    if rows != [] {
      var n := |rows| - 1;
      var init, last := rows[..n], rows[n];
      assert rows[..n + 1] == rows;
      BucketCount(init, toInt, toFloat, k);
      var a, b := Traverse(f, init).value, f(last).value;
      TraverseSnoc(f, rows, n);
      assert Traverse(f, rows).value == a + b;
      ValuesForAppend(a, b, k);
      RowBucketCount(last, toInt, toFloat, k);
      FilterSnoc(inK, rows, n);
      assert |Filter(inK, rows)| == |Filter(inK, init)| + (if InBucket(k, last) then 1 else 0);
    }
  }

  /** A row that loads adds one entry to bucket `k` when its key is `k`, and none otherwise. */
  lemma RowBucketCount(row: Row, toInt: string -> Option<int>, toFloat: string -> Option<real>, k: string)
    requires k in Buckets && RowPairs(row, toInt, toFloat).Some?
    ensures |ValuesFor(RowPairs(row, toInt, toFloat).value, k)| == if InBucket(k, row) then 1 else 0
  {
    var b := RowPairs(row, toInt, toFloat).value;
    if b != [] {
      assert b == [b[0]];
      assert b[..0] == [];
    }
  }

  lemma {:induction false} ValuesForAppend<K, V>(a: seq<(K, V)>, b: seq<(K, V)>, k: K)
    ensures ValuesFor(a + b, k) == ValuesFor(a, k) + ValuesFor(b, k)
  {
    if b != [] {
      var init := b[..|b| - 1];
      ValuesForAppend(a, init, k);
      assert (a + b)[..|a + b| - 1] == a + init;
    } else {
      assert a + b == a;
    }
  }

  /** The buckets are exactly the four keys, each holding the entries of its rows. */
  lemma LoadedBuckets(rows: seq<Row>, toInt: string -> Option<int>, toFloat: string -> Option<real>, k: string)
    requires LoadSpec(Some(rows), toInt, toFloat).Loaded?
    ensures k in LoadSpec(Some(rows), toInt, toFloat).data <==> k in Buckets
    ensures k in Buckets ==> |LoadSpec(Some(rows), toInt, toFloat).data[k]| == |Filter((row: Row) => InBucket(k, row), rows)|
  {
    if k in Buckets {
      BucketCount(rows, toInt, toFloat, k);
    }
  }

  /** Loading raises exactly when some row lacks a key column, or is put in a bucket but does not convert. */
  lemma LoadRaises(rows: seq<Row>, toInt: string -> Option<int>, toFloat: string -> Option<real>)
    ensures LoadSpec(Some(rows), toInt, toFloat) == Raised <==>
      exists i :: 0 <= i < |rows| &&
        (KeyOf(rows[i]).None? || (KeyOf(rows[i]).value in Buckets && EntryOfRow(rows[i], toInt, toFloat).None?))
  {
  }

  // ---------------------------------------------------------------------------------
  // `compute_stats`

  /** The statistics of a list: `{}` for an empty one. */
  datatype Summary = NoStats | Stats(mean: real, median: real, stdev: real, min: real, max: real, count: nat)

  /** `compute_stats(values)`, `sampleStdev` standing for `statistics.stdev`. */
  function ComputeStats(values: seq<real>, sampleStdev: seq<real> -> real): (r: Summary)
    ensures r.NoStats? <==> values == []
    ensures r.Stats? ==> r.count == |values| && r.min in values && r.max in values
    ensures r.Stats? ==> r.min <= r.median <= r.max && r.min <= r.mean <= r.max
    ensures r.Stats? && |values| == 1 ==> r.stdev == 0.0 && r.mean == r.median == values[0]
    ensures r.Stats? && |values| > 1 ==> r.stdev == sampleStdev(values)
  {
    if values == [] then NoStats
    else
      MeanBounds(values);
      if |values| == 1 then
        assert Sum(values) == values[0];
        Stats(Mean(values), Median(values), 0.0, Min(values), Max(values), 1)
      else
        Stats(Mean(values), Median(values), sampleStdev(values), Min(values), Max(values), |values|)
  }

  // ---------------------------------------------------------------------------------
  // The winner rule

  /**
   * The comparison in the summary: the key with the smaller mean wins (the first on a tie)
   * and the ratio is the larger mean over the smaller; `None` for the `ZeroDivisionError`.
   */
  function Winner(key1: string, mean1: real, key2: string, mean2: real): Option<(string, real)> {
    if mean1 > mean2 then
      if mean2 == 0.0 then None else Some((key2, mean1 / mean2))
    else
      if mean1 == 0.0 then None else Some((key1, mean2 / mean1))
  }

  /**
   * The winner has the smaller mean and the ratio scales it to the loser's; for positive
   * means there is always a verdict and the ratio is at least 1, above 1 exactly when the
   * means differ.
   */
  lemma WinnerRule(key1: string, mean1: real, key2: string, mean2: real)
    requires key1 != key2
    ensures var r := Winner(key1, mean1, key2, mean2);
      r.Some? ==> ((r.value.0 == key2 <==> mean2 < mean1) &&
        (if r.value.0 == key2 then r.value.1 * mean2 == mean1 else r.value.1 * mean1 == mean2))
    ensures mean1 > 0.0 && mean2 > 0.0 ==> Winner(key1, mean1, key2, mean2).Some?
    ensures mean1 > 0.0 && mean2 > 0.0 ==>
      var ratio := Winner(key1, mean1, key2, mean2).value.1;
      ratio >= 1.0 && (ratio > 1.0 <==> mean1 != mean2)
  {
    if mean1 > 0.0 && mean2 > 0.0 {
      if mean1 > mean2 {
        RatioAboveOne(mean1, mean2);
      } else {
        RatioAboveOne(mean2, mean1);
      }
    }
  }

  lemma RatioAboveOne(big: real, small: real)
    requires 0.0 < small <= big
    ensures big / small >= 1.0 && (big / small > 1.0 <==> big != small)
  {
    if big != small {
      assert big / small * small == big;
    }
  }

  /** The speedup chart's rule: Wasmtime wins exactly when its mean is strictly lower. */
  function ChartBar(dockerMean: real, wasmtimeMean: real): Option<(bool, real)> {
    if wasmtimeMean < dockerMean then
      if wasmtimeMean == 0.0 then None else Some((true, dockerMean / wasmtimeMean))
    else
      if dockerMean == 0.0 then None else Some((false, wasmtimeMean / dockerMean))
  }

  /**
   * The chart and the summary agree on every Docker-versus-Wasmtime scenario: the same
   * scenarios raise, the chart's Wasmtime wins exactly when the summary names the Wasmtime
   * bucket, a tie goes to Docker in both, and the factors are equal.
   */
  lemma ChartAgreesWithSummary(dockerKey: string, dockerMean: real, wasmtimeKey: string, wasmtimeMean: real)
    requires dockerKey != wasmtimeKey
    ensures ChartBar(dockerMean, wasmtimeMean).Some? == Winner(dockerKey, dockerMean, wasmtimeKey, wasmtimeMean).Some?
    ensures ChartBar(dockerMean, wasmtimeMean).Some? ==>
      var bar, verdict := ChartBar(dockerMean, wasmtimeMean).value, Winner(dockerKey, dockerMean, wasmtimeKey, wasmtimeMean).value;
      (bar.0 <==> verdict.0 == wasmtimeKey) && bar.1 == verdict.1
    ensures dockerMean == wasmtimeMean != 0.0 ==> ChartBar(dockerMean, wasmtimeMean) == Some((false, 1.0))
  {
    if dockerMean == wasmtimeMean != 0.0 {
      assert wasmtimeMean / dockerMean == 1.0;
    }
  }

  // ---------------------------------------------------------------------------------
  // `print_summary`, `plot_speedup_chart` and `main`

  /** The total times of a bucket. */
  function Totals(entries: seq<Entry>): (r: seq<real>)
    ensures |r| == |entries| && forall i :: 0 <= i < |entries| ==> r[i] == entries[i].totalMs
  {
    MapSeq((e: Entry) => e.totalMs, entries)
  }

  /** `data.get(key)` is truthy. */
  predicate HasEntries(data: map<string, seq<Entry>>, key: string) {
    key in data && data[key] != []
  }

  function MeanTotal(data: map<string, seq<Entry>>, key: string): real
    requires HasEntries(data, key)
  {
    Mean(Totals(data[key]))
  }

  /** `"full_cold" in key`. */
  predicate IsFullCold(key: string) {
    exists i :: 0 <= i <= |key| && Text.LitAt(key, i, "full_cold")
  }

  /** The summary block of one bucket: its total-time statistics and, for a full cold start, the mean build and start times. */
  datatype Block = Block(key: string, total: Summary, breakdown: Option<(real, real)>)

  function BlockOf(key: string, entries: seq<Entry>, sampleStdev: seq<real> -> real): (b: Block)
    requires entries != []
    ensures b.key == key && b.total.Stats? && b.total.count == |entries|
    ensures b.breakdown.Some? <==> IsFullCold(key)
  {
    var breakdown := if IsFullCold(key) then
      Some((Mean(MapSeq((e: Entry) => e.buildMs, entries)), Mean(MapSeq((e: Entry) => e.startMs, entries))))
    else None;
    Block(key, ComputeStats(Totals(entries), sampleStdev), breakdown)
  }

  /** The blocks of the non-empty buckets, in bucket order. */
  function Blocks(data: map<string, seq<Entry>>, keys: seq<string>, sampleStdev: seq<real> -> real): (r: seq<Block>)
    ensures |r| <= |keys|
    ensures forall b :: b in r ==> b.key in keys && HasEntries(data, b.key)
  {
    if keys == [] then []
    else
      var init, k := keys[..|keys| - 1], keys[|keys| - 1];
      Blocks(data, init, sampleStdev) + (if HasEntries(data, k) then [BlockOf(k, data[k], sampleStdev)] else [])
  }

  /**
   * Every bucket with entries gets its block, computed over exactly that bucket's entries,
   * and no other bucket gets one.
   */
  lemma {:induction false} BlocksExactly(data: map<string, seq<Entry>>, keys: seq<string>, sampleStdev: seq<real> -> real)
    ensures forall b :: b in Blocks(data, keys, sampleStdev) ==>
      b.key in keys && HasEntries(data, b.key) && b == BlockOf(b.key, data[b.key], sampleStdev)
    ensures forall k :: k in keys && HasEntries(data, k) ==> BlockOf(k, data[k], sampleStdev) in Blocks(data, keys, sampleStdev)
  {
    if keys != [] {
      var init, k := keys[..|keys| - 1], keys[|keys| - 1];
      BlocksExactly(data, init, sampleStdev);
      assert keys == init + [k];
    }
  }

  /** `a` occurs in `keys` before `b` does. */
  predicate Before(keys: seq<string>, a: string, b: string) {
    exists p, q :: 0 <= p < q < |keys| && keys[p] == a && keys[q] == b
  }

  /** Each later block's bucket comes later in `keys`. */
  predicate InKeyOrder(r: seq<Block>, keys: seq<string>) {
    forall i, j :: 0 <= i < j < |r| ==> Before(keys, r[i].key, r[j].key)
  }

  /** The blocks appear in the order of their buckets in `keys`. */
  lemma {:induction false} BlocksInKeyOrder(data: map<string, seq<Entry>>, keys: seq<string>, sampleStdev: seq<real> -> real)
    ensures InKeyOrder(Blocks(data, keys, sampleStdev), keys)
  {
    if keys != [] {
      var init, k := keys[..|keys| - 1], keys[|keys| - 1];
      var extra := if HasEntries(data, k) then [BlockOf(k, data[k], sampleStdev)] else [];
      var front := Blocks(data, init, sampleStdev);
      BlocksInKeyOrder(data, init, sampleStdev);
      OrderSnoc(front, extra, init, k);
      assert keys == init + [k];
      assert Blocks(data, keys, sampleStdev) == front + extra;
    }
  }

  /** Blocks of earlier buckets in order, then at most one block of one more bucket. */
  lemma OrderSnoc(front: seq<Block>, extra: seq<Block>, init: seq<string>, k: string)
    requires InKeyOrder(front, init) && forall b :: b in front ==> b.key in init
    requires |extra| <= 1 && forall b :: b in extra ==> b.key == k
    ensures InKeyOrder(front + extra, init + [k])
  {
    var r, keys := front + extra, init + [k];
    forall i, j | 0 <= i < j < |r| ensures Before(keys, r[i].key, r[j].key) {
      if j < |front| {
        assert Before(init, front[i].key, front[j].key);
        var p, q :| 0 <= p < q < |init| && init[p] == front[i].key && init[q] == front[j].key;
        assert keys[p] == r[i].key && keys[q] == r[j].key;
      } else {
        assert r[i] == front[i] && front[i] in front && r[j] in extra;
        var p :| 0 <= p < |init| && init[p] == front[i].key;
        assert keys[p] == r[i].key && keys[|keys| - 1] == r[j].key;
      }
    }
  }

  /** The pairs `comparisons` lists: bucket, bucket, description. */
  const Comparisons: seq<(string, string, string)> := [
    ("docker_full_cold", "wasmtime_full_cold", "Full Cold (build from source)"),
    ("docker_runtime_cold", "wasmtime_runtime_cold", "Runtime Cold (serverless cold start)"),
    ("docker_full_cold", "docker_runtime_cold", "Docker: Full Cold vs Runtime Cold"),
    ("wasmtime_full_cold", "wasmtime_runtime_cold", "Wasmtime: Full Cold vs Runtime Cold")]

  /** One verdict line: description, winning bucket, factor. */
  datatype Verdict = Verdict(desc: string, winner: string, ratio: real)

  /** What one comparison prints: nothing unless both buckets have entries. */
  function VerdictOf(data: map<string, seq<Entry>>, c: (string, string, string)): (r: Option<seq<Verdict>>)
    ensures r.Some? ==> (r.value != [] <==> HasEntries(data, c.0) && HasEntries(data, c.1))
    ensures r.Some? && r.value != [] ==>
      Winner(c.0, MeanTotal(data, c.0), c.1, MeanTotal(data, c.1)) == Some((r.value[0].winner, r.value[0].ratio))
  {
    if HasEntries(data, c.0) && HasEntries(data, c.1) then
      var w :- Winner(c.0, MeanTotal(data, c.0), c.1, MeanTotal(data, c.1));
      Some([Verdict(c.2, w.0, w.1)])
    else Some([])
  }

  function VerdictsOf(data: map<string, seq<Entry>>): ((string, string, string)) -> Option<seq<Verdict>> {
    (c: (string, string, string)) => VerdictOf(data, c)
  }

  /** One bar of the speedup chart. */
  datatype Bar = Bar(scenario: string, wasmtimeWins: bool, speedup: real)

  /** The bar of one start type, when both of its buckets have entries. */
  function BarOf(data: map<string, seq<Entry>>, scenario: string, dockerKey: string, wasmtimeKey: string): (r: Option<seq<Bar>>)
    ensures r.Some? ==> (r.value != [] <==> HasEntries(data, dockerKey) && HasEntries(data, wasmtimeKey))
  {
    if HasEntries(data, dockerKey) && HasEntries(data, wasmtimeKey) then
      var b :- ChartBar(MeanTotal(data, dockerKey), MeanTotal(data, wasmtimeKey));
      Some([Bar(scenario, b.0, b.1)])
    else Some([])
  }

  function Bars(data: map<string, seq<Entry>>): Option<seq<Bar>> {
    var full :- BarOf(data, "Full Cold", "docker_full_cold", "wasmtime_full_cold");
    var runtime :- BarOf(data, "Runtime Cold", "docker_runtime_cold", "wasmtime_runtime_cold");
    Some(full + runtime)
  }

  /** How the script ends. */
  datatype Outcome =
    | MissingFile
    | Failed
    | NoData
    | Report(data: map<string, seq<Entry>>, blocks: seq<Block>, verdicts: seq<Verdict>, bars: seq<Bar>)

  /** `has_data = any(data.get(k) for k in data)`. */
  predicate HasData(data: map<string, seq<Entry>>) {
    exists k :: k in data && data[k] != []
  }

  function OutcomeOf(csv: Option<seq<Row>>, toInt: string -> Option<int>, toFloat: string -> Option<real>,
                     sampleStdev: seq<real> -> real): Outcome
  {
    match LoadSpec(csv, toInt, toFloat)
    case NotFound => MissingFile
    case Raised => Failed
    case Loaded(data) =>
      if !HasData(data) then NoData
      else
        match Traverse(VerdictsOf(data), Comparisons)
        case None => Failed
        case Some(verdicts) =>
          match Bars(data)
          case None => Failed
          case Some(bars) => Report(data, Blocks(data, Buckets, sampleStdev), verdicts, bars)
  }

  /** A row that lands in a bucket gives the script data. */
  lemma RowMakesData(rows: seq<Row>, toInt: string -> Option<int>, toFloat: string -> Option<real>, i: nat)
    requires LoadSpec(Some(rows), toInt, toFloat).Loaded?
    requires i < |rows| && KeyOf(rows[i]).Some? && KeyOf(rows[i]).value in Buckets
    ensures HasData(LoadSpec(Some(rows), toInt, toFloat).data)
  {
    var k := KeyOf(rows[i]).value;
    LoadedBuckets(rows, toInt, toFloat, k);
    assert rows[i] in rows && InBucket(k, rows[i]);
    var fs := Filter((row: Row) => InBucket(k, row), rows);
    assert rows[i] in fs;
  }

  /** The buckets hold data exactly when some row's key is one of the four. */
  lemma HasDataIffBucketRow(rows: seq<Row>, toInt: string -> Option<int>, toFloat: string -> Option<real>)
    requires LoadSpec(Some(rows), toInt, toFloat).Loaded?
    ensures HasData(LoadSpec(Some(rows), toInt, toFloat).data) <==>
      exists i :: 0 <= i < |rows| && KeyOf(rows[i]).value in Buckets
  {
    var data := LoadSpec(Some(rows), toInt, toFloat).data;
    if HasData(data) {
      var k :| k in data && data[k] != [];
      LoadedBuckets(rows, toInt, toFloat, k);
      var fs := Filter((row: Row) => InBucket(k, row), rows);
      assert fs[0] in fs;
      var i :| 0 <= i < |rows| && rows[i] == fs[0];
      assert KeyOf(rows[i]).value in Buckets;
    }
    if exists i :: 0 <= i < |rows| && KeyOf(rows[i]).value in Buckets {
      var i :| 0 <= i < |rows| && KeyOf(rows[i]).value in Buckets;
      RowMakesData(rows, toInt, toFloat, i);
    }
  }

  /** The script stops before the summary exactly when no row landed in a bucket. */
  lemma NoDataIffNoBucketRows(rows: seq<Row>, toInt: string -> Option<int>, toFloat: string -> Option<real>,
                              sampleStdev: seq<real> -> real)
    requires LoadSpec(Some(rows), toInt, toFloat).Loaded?
    ensures OutcomeOf(Some(rows), toInt, toFloat, sampleStdev) == NoData <==>
      forall i :: 0 <= i < |rows| ==> KeyOf(rows[i]).value !in Buckets
  {
    HasDataIffBucketRow(rows, toInt, toFloat);
  }

  /**
   * In a report, every summary verdict on Docker against Wasmtime agrees with the chart bar
   * of the same start type.
   */
  lemma ReportAgrees(csv: Option<seq<Row>>, toInt: string -> Option<int>, toFloat: string -> Option<real>,
                     sampleStdev: seq<real> -> real)
    requires OutcomeOf(csv, toInt, toFloat, sampleStdev).Report?
    ensures var o := OutcomeOf(csv, toInt, toFloat, sampleStdev);
      HasEntries(o.data, "docker_full_cold") && HasEntries(o.data, "wasmtime_full_cold") ==>
        exists v, b :: v in o.verdicts && b in o.bars && v.desc == "Full Cold (build from source)" &&
          b.scenario == "Full Cold" && (b.wasmtimeWins <==> v.winner == "wasmtime_full_cold") && b.speedup == v.ratio
  {
    var o := OutcomeOf(csv, toInt, toFloat, sampleStdev);
    var data := o.data;
    if HasEntries(data, "docker_full_cold") && HasEntries(data, "wasmtime_full_cold") {
      var c := Comparisons[0];
      assert VerdictOf(data, c).Some? && VerdictOf(data, c).value != [];
      var v := VerdictOf(data, c).value[0];
      TraverseMember(VerdictsOf(data), Comparisons, v);
      assert v in o.verdicts;
      var b := BarOf(data, "Full Cold", "docker_full_cold", "wasmtime_full_cold").value[0];
      assert b in o.bars;
      ChartAgreesWithSummary("docker_full_cold", MeanTotal(data, "docker_full_cold"),
                             "wasmtime_full_cold", MeanTotal(data, "wasmtime_full_cold"));
    }
  }
}
