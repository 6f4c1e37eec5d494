# Wasm-versus-container benchmark analysis, modelled in Dafny

The benchmark repository measures one small HTTP server and one CPU-bound hashing
program. Each is run natively, in Docker, under Wasmtime/WasmEdge and as a wasmCloud
component. Python scripts then turn the run logs into summaries.

This project models two parts of that repository:

* **The analysis scripts.** Each script globs the `*_run.log` files of every runtime and
  scans them line by line with a regular expression. It collects samples per runtime,
  and per concurrency level or per endpoint path where the script splits them. It then
  computes statistics and comparisons and reports them.
* **The three workloads.**
  * The native `tiny_http` server and the wasmCloud component. Both answer `hello`, or
    the value of a 64-bit request counter on paths that start with `/state`.
  * The `cpu-hash` program. It feeds N 32-byte blocks into SHA-256 and prints the
    digest and the elapsed time.

How the model is shaped:

* A directory of logs is a `FileSystem` (a map from directory to files with their lines).
* A script's failure is an `Option` that is `None` where Python would raise. This covers
  an unparsable `float()`, a `KeyError`, a `ZeroDivisionError`, and `sys.exit(1)`.
* Every regular expression is written as a matcher function (`(string, nat) -> Option<T>`,
  matching at one position) driven by `Search` (leftmost match, as `re.search`), `Lazy`
  (`.*?`) and `Greedy` (`.*`). Lemmas such as `ScaleLineReads` and `RecordWithPath`
  prove what each pattern extracts from a well-formed log line.
* The scripts' loops that append to lists or dictionaries are methods with loop
  invariants. Each is proved equal to a specification function. The properties are
  lemmas about those functions.
* The Rust servers are classes holding the counter. `cpu-hash` keeps its 32-byte `array`.

Modules:

* Shared: `Common`, `Seqs`, `Sorting`, `Stats`, `Text`, `LogFiles` and `RuntimeTable`.
* One module per analysis script: `Summary`, `HelloRunLog` with `NativeHello`,
  `HelloAll`, `HelloStateful`, `HelloScaling`, `CpuHashScaling`, `CpuHashComparison`,
  `ColdStart` and `WasmHello`.
* The workloads: `HelloHandler` (the routing both servers share), `HttpHello`,
  `WasmCloudHello` and `CpuHash`.

## Model

| member | source | states |
|---|---|---|
| Text.LitConcat | scripts/analyze_native_http_hello.py:18-20 | a literal in a pattern matches piecewise: `ab` matches at `i` exactly when `a` does and `b` matches where `a` ends, ending at the same place |
| Text.ExactlySplit | scripts/analyze_native_http_hello.py:20 | `\d{m+n}` matches exactly when `\d{m}` does and `\d{n}` matches where it ends, ending at the same place |
| Text.Run1 | scripts/analyze_native_http_hello.py:18-20 | `\d+`-style runs are maximal: every character taken is in the class, at least one is taken, and the next one is not |
| Text.Capture | scripts/generate_summary.py:28 | `key([class]+)` yields the longest non-empty run after the key, and the capture is exactly that slice |
| Text.SearchFrom | scripts/generate_summary.py:85 | `re.search` gives the match at the leftmost position that matches; `None` exactly when no position from `i` on matches |
| Text.SearchLeftmost | scripts/generate_summary.py:85 | if position `j` matches and none before it does, the search returns that match |
| Text.Lazy | scripts/analyze_http_hello_stateful.py:28 | `.*?` takes the first position on the current line at which the rest of the pattern matches; `None` exactly when none on the line does |
| Text.LazyFirst | scripts/analyze_http_hello_stateful.py:28 | a lazy gap stops at the first match that it reaches without crossing a newline |
| Text.GreedyFrom | scripts/analyze_cpu_hash_scaling.py:22 | `.*` takes the last position at which the rest of the pattern matches; `None` exactly when none does |
| Text.GreedyLast | scripts/analyze_cpu_hash_scaling.py:22 | a greedy gap ends at the last match in range, whatever matches lie before it |
| Text.LineEnd | scripts/analyze_cpu_hash_scaling.py:22 | `.` does not cross a newline: the line ends at the first `\n` or at the end of the text |
| Text.ParseDecimal | scripts/generate_summary.py:87 | `float()` of a `[0-9.]+` capture succeeds exactly for a well-formed decimal (digits with at most one point), and its value is non-negative |
| Text.ParseDecimalReads | scripts/generate_summary.py:87 | `whole.frac` parses to whole plus frac over the matching power of ten |
| Text.ParseDecimalOfNat | scripts/generate_summary.py:87 | the decimal text of a natural number parses back to that number |
| Text.NatToString | workloads/http-hello/src/main.rs:22 | `to_string` of an unsigned integer gives a non-empty string of digits, without a leading zero, whose value is the number |
| Text.NatToStringInjective | workloads/http-hello/src/main.rs:22 | distinct numbers print differently |
| Text.Strip | scripts/analyze_native_http_hello.py:44 | `str.strip` returns a contiguous slice, with only whitespace cut on each side, that neither starts nor ends with whitespace |
| Stats.Min | scripts/analyze_http_hello_all.py:75 | `min` is a member of the list and no member is smaller |
| Stats.Max | scripts/analyze_http_hello_all.py:76 | `max` is a member of the list and no member is larger |
| Stats.Median | scripts/analyze_http_hello_all.py:74 | the median lies between min and max, and is a member for an odd count |
| Stats.MeanBounds | scripts/analyze_http_hello_all.py:73 | the mean lies between min and max |
| Stats.MeanPositive | scripts/generate_summary.py:142 | the mean of positive samples is positive, so dividing by it is defined |
| Sorting.Sort | scripts/generate_summary.py:99 | `sorted` returns a permutation of its input |
| Sorting.SortSorted | scripts/generate_summary.py:99 | under a total preorder, the result of `sorted` is in order |
| Sorting.SortedMembers | scripts/generate_summary.py:99 | sorting keeps exactly the same members |
| Sorting.SortEnds | scripts/generate_summary.py:99 | the first sorted element is at most every member, and the last at least every member |
| Sorting.LexLeTotalPreorder | scripts/generate_summary.py:82 | Python's string order (lexicographic by code point) is a total preorder |
| Sorting.SortByKey | scripts/generate_summary.py:122 | `sorted(d.keys())` on a table: a permutation, ordered by name |
| Sorting.SortedNats | scripts/analyze_cpu_hash_scaling.py:55 | `sorted(conc_map.keys())` lists each key of a set of levels exactly once, strictly increasing |
| Seqs.Traverse | scripts/generate_summary.py:82-90 | a loop that appends each item's results succeeds exactly when every item succeeds |
| Seqs.TraverseMember | scripts/generate_summary.py:82-90 | a value is in the collected list exactly when some item yielded it |
| Seqs.AppendEach | scripts/generate_summary.py:82-90 | the append loop computes the traversal |
| Seqs.GroupSpec | scripts/analyze_cpu_hash_scaling.py:26-36 | grouping into a `defaultdict(list)` has a key exactly when some pair carries it, and its list is all that key's values in order, never empty |
| Seqs.FilterMapMember | scripts/analyze_native_http_hello.py:80-83 | `if parsed: runs.append(parsed)` keeps exactly the items whose result is not `None` |
| Seqs.LastSome | scripts/analyze_native_http_hello.py:46-48 | a variable overwritten on each matching line ends as the last match, or `None` when no line matches |
| LogFiles.Listing | scripts/generate_summary.py:79-80 | a missing directory has no logs |
| LogFiles.RunLogs | scripts/generate_summary.py:82 | `sorted(dir.glob("*_run.log"))` is exactly the files whose name ends in `_run.log`, each once, ordered by name |
| LogFiles.RunLogNameMatchesIff | scripts/analyze_cpu_hash_comparison.py:31-39 | re-checking a globbed name with `.*_run\.log$` rejects it exactly when the name holds a newline |
| LogFiles.CheckedRunLogs | scripts/analyze_cpu_hash_comparison.py:37-39 | the files read are the run logs that pass the re-check |
| LogFiles.CheckedRunLogsMember | scripts/analyze_cpu_hash_comparison.py:37-39 | a file is read exactly when it is listed, is a run log and passes the re-check |
| LogFiles.GatherSamples | scripts/generate_summary.py:82-90 | the nested file and line loop computes the per-file traversal |
| LogFiles.GatheredMember | scripts/generate_summary.py:82-90 | a sample is gathered exactly when some line of some log yields it |
| LogFiles.GroupSamples | scripts/analyze_cpu_hash_scaling.py:27-36 | the loop that appends to `samples[conc]` builds the grouping of all pairs from all lines |
| LogFiles.GroupLines | scripts/analyze_cpu_hash_scaling.py:31-36 | the per-line loop extends the grouping by the pairs of the file's lines, and fails exactly when a line fails |
| LogFiles.GroupedKeys | scripts/analyze_cpu_hash_scaling.py:26-37 | a key is present exactly when some line produced a pair with it, and its list is then non-empty |
| LogFiles.RunLogsFilterMap | scripts/analyze_http_hello_all.py:61-68 | `load_runtime` keeps a run exactly when some run log parses to it; it is empty exactly when none parses |
| LogFiles.GatherKeptSamples | scripts/analyze_wasm_hello_comparison.py:24-31 | the loop with `continue` on failed names reads only the kept files |
| LogFiles.GroupKeptSamples | scripts/analyze_cpu_hash_scaling.py:27-36 | the grouping loop with `continue` groups only the kept files |
| RuntimeTable.Entry | scripts/analyze_wasm_hello_comparison.py:37-40 | one runtime's entry exists exactly when its loader does not raise, and holds at most one pair |
| RuntimeTable.CollectedMember | scripts/analyze_wasm_hello_comparison.py:36-42 | `data[rt] = samples if samples` holds exactly the runtimes whose loaded value is non-empty, each with that value |
| RuntimeTable.CollectedAbsent | scripts/analyze_wasm_hello_comparison.py:39-42 | a runtime whose loader finds nothing is left out of `data` |
| RuntimeTable.CollectedEmpty | scripts/analyze_wasm_hello_comparison.py:44-46 | `data` is empty exactly when every runtime loads nothing |
| RuntimeTable.CollectedFails | scripts/analyze_wasm_hello_comparison.py:36-38 | collecting raises exactly when some runtime's loader raises |
| RuntimeTable.CollectStep | scripts/analyze_wasm_hello_comparison.py:37-42 | one pass of the `RUNTIMES` loop extends `data` by that runtime when it has samples |
| RuntimeTable.CollectDone | scripts/analyze_wasm_hello_comparison.py:36-42 | after the loop `data` equals the collected table |
| Summary.LineSample | scripts/generate_summary.py:84-90 | a line without the field yields nothing; with it, the line yields at most one sample and fails exactly when the capture is not a valid `float` |
| Summary.LoadSamples | scripts/generate_summary.py:75-92 | `load_samples` equals the traversal of the sorted run logs, and a missing directory gives `[]` |
| Summary.FileSamplesAtMostOnePerLine | scripts/generate_summary.py:84-90 | a file yields no more samples than it has lines |
| Summary.ConversionAppliedToEverySample | scripts/generate_summary.py:59 | with the KB-to-MB `convert`, the samples are exactly the unconverted samples each divided by 1024, and loading fails in the same cases |
| Summary.FileConversion | scripts/generate_summary.py:88-89 | the conversion commutes with reading one file |
| Summary.LineConversion | scripts/generate_summary.py:88-89 | the conversion commutes with reading one line |
| Summary.TruncDiv | scripts/generate_summary.py:100 | `int()` of a quotient truncates toward zero, also for negative percentiles |
| Summary.PercentileIndexRange | scripts/generate_summary.py:100-101 | the index is at most the last position, and for percentiles from -100 up never falls below Python's negative-index range |
| Summary.Percentile | scripts/generate_summary.py:95-101 | no samples give 0.0; otherwise the result is one of the samples and lies between min and max (negative indices counted from the end, as Python does) |
| Summary.PercentileZeroIsMin | scripts/generate_summary.py:99-101 | the 0th percentile is the minimum |
| Summary.PercentileHundredIsMax | scripts/generate_summary.py:99-101 | any percentile of 100 or more is the maximum, because the index is clamped |
| Summary.PercentileMonotone | scripts/generate_summary.py:99-101 | for non-negative percentiles a larger percentile never gives a smaller value |
| Summary.SortedFirstIsMin | scripts/generate_summary.py:99 | the first sorted sample is the minimum |
| Summary.SortedLastIsMax | scripts/generate_summary.py:99 | the last sorted sample is the maximum |
| Summary.SpeedupFactorAsWritten | scripts/generate_summary.py:148-152 | as written: the factor fails (division by zero) exactly when the denominator the unit selects is zero; only `ms` and `s` count as lower-is-better |
| Summary.MemorySpeedupInverted | scripts/generate_summary.py:148-152 | for memory in MB, Docker at 100 and a runtime at 50 give 0.5 as written but 2.0 under the lower-is-better reading |
| Summary.SpeedupFactor | scripts/generate_summary.py:148-152 | the corrected factor: `MB` joins `ms` and `s` as lower-is-better; it fails exactly when its denominator is zero |
| Summary.SpeedupAboveOneIffBetter | scripts/generate_summary.py:141-153 | for positive means the factor exists, and exceeds 1 exactly when the runtime beats Docker in the unit's direction |
| Summary.Lookup | scripts/generate_summary.py:141 | a lookup returns a value stored under the key, and `None` exactly when no entry has that key |
| Summary.SpeedupLines | scripts/generate_summary.py:141-153 | the speedup loop computes the listing the script prints, with the factor as written (memory divides the runtime's mean by Docker's) |
| Summary.SpeedupListing | scripts/generate_summary.py:141-153 | every printed speedup is for a non-Docker runtime with samples, at the as-written factor of its mean against the Docker mean; every such runtime is printed |
| Summary.CorrectedSpeedupListing | scripts/generate_summary.py:141-153 | the listing under the corrected factor holds the same runtimes, and for positive means a factor above 1 means exactly that the runtime beats Docker |
| Summary.ListingsAgreeExceptMemory | scripts/generate_summary.py:148-152 | for every unit other than `MB` the printed listing equals the corrected one |
| Summary.MemoryFactorsReciprocal | scripts/generate_summary.py:148-152 | for memory with positive means, the printed factor times the corrected factor is 1 |
| Summary.MarkdownSections | scripts/generate_summary.py:104-157 | the section loop computes the Markdown model: one section per benchmark with results, with its rows and the speedups the script prints |
| Summary.SectionExactlyWithResults | scripts/generate_summary.py:110-153 | the report has a section for a benchmark exactly when its results hold at least one runtime, and that section carries the benchmark's rows in name order and its printed (as-written) speedups |
| Summary.RowsDescribeSamples | scripts/generate_summary.py:122-138 | each table row belongs to a runtime with samples, counts them, and has min ≤ median ≤ max and min ≤ mean ≤ max |
| Summary.RuntimeResult | scripts/generate_summary.py:279-285 | a runtime contributes at most one entry, under its own name and only with samples |
| Summary.CollectBenchmark | scripts/generate_summary.py:279-285 | the per-runtime loop of `main` computes one benchmark's results |
| Summary.CollectResults | scripts/generate_summary.py:274-285 | the benchmark loop of `main` computes the results table |
| Summary.ResultsHoldOnlyRuntimesWithSamples | scripts/generate_summary.py:279-285 | a runtime with samples is in the benchmark's results with those samples, and no entry is empty |
| HelloRunLog.RunIdAt | scripts/analyze_native_http_hello.py:15 | the run id is the 20-character `YYYY-MM-DDTHH-MM-SSZ` stamp followed by `_run.log` |
| HelloRunLog.RunIdOfRunLog | scripts/analyze_native_http_hello.py:34-37 | for a run log, a run id is found exactly when the 20 characters before `_run.log` form a timestamp, and it is those characters |
| HelloRunLog.LatencyAt | scripts/analyze_native_http_hello.py:18-20 | the `http_code` captured by `\d{3}` is below 1000 |
| HelloRunLog.ThreeDigits | scripts/analyze_native_http_hello.py:53 | `int()` of three digits is their positional value |
| HelloRunLog.CodeIs200Iff | scripts/analyze_native_http_hello.py:53-55 | `int(code) == 200` holds exactly when the three captured characters are `200` |
| HelloRunLog.OkLatency | scripts/analyze_native_http_hello.py:50-56 | a line contributes a latency exactly when it matches the latency pattern with code 200, and then contributes its `latency_ms` |
| HelloRunLog.RunOf | scripts/analyze_native_http_hello.py:23-70 | a parsed run always has at least one latency |
| HelloRunLog.ParseRunLog | scripts/analyze_native_http_hello.py:23-70 | `parse_run_log` computes the run or `None`: a name without a run id, no cold start, or no 200 latencies |
| HelloRunLog.ScanLines | scripts/analyze_native_http_hello.py:42-56 | the line loop leaves the last cold start seen and every 200 latency in order |
| HelloRunLog.RunOfCharacterised | scripts/analyze_native_http_hello.py:46-64 | a run's latencies are exactly the 200 latencies of its lines, and its cold start comes from one of its cold-start lines |
| HelloRunLog.RunParts | scripts/analyze_native_http_hello.py:58-70 | a parsed run holds the file's last cold start and its 200 latencies |
| HelloRunLog.LinesCharacterised | scripts/analyze_native_http_hello.py:42-56 | the 200 latencies of a list of lines are exactly those of its 200 latency lines |
| NativeHello.Analyze | scripts/analyze_native_http_hello.py:73-87 | `main` computes its outcome: no run logs, no valid runs, or the report of the parsed runs |
| NativeHello.ParseRuns | scripts/analyze_native_http_hello.py:79-83 | the loop keeps exactly the logs that parse, in order |
| NativeHello.ReportHoldsParsedRuns | scripts/analyze_native_http_hello.py:74-87 | the report holds exactly the runs of run logs that parse; "no valid runs" exactly when run logs exist and none parses; "no run logs" exactly when no file is a run log |
| HelloAll.LoadRuntime | scripts/analyze_http_hello_all.py:61-68 | `load_runtime` keeps the runs of the sorted run logs that parse |
| HelloAll.AggLatencies | scripts/analyze_http_hello_all.py:71-77 | min and max are latencies that bound every latency, and median and mean lie between them |
| HelloAll.AllLatenciesMember | scripts/analyze_http_hello_all.py:97 | the flattened list holds exactly the latencies of some run |
| HelloAll.AllLatenciesAppend | scripts/analyze_http_hello_all.py:97 | flattening distributes over concatenating runs |
| HelloAll.NonEmptyRunsHaveLatencies | scripts/analyze_http_hello_all.py:51-52 | because every run has a latency, a runtime with runs has latencies to aggregate, so `agg_latencies` never sees `[]` |
| HelloAll.DataDefined | scripts/analyze_http_hello_all.py:80-87 | collecting the runtimes never raises |
| HelloAll.CollectData | scripts/analyze_http_hello_all.py:80-87 | the `RUNTIMES` loop computes the runtime table |
| HelloAll.DataEntriesAggregate | scripts/analyze_http_hello_all.py:82-98 | each entry is a configured runtime with its loaded runs, and those runs have latencies |
| HelloAll.AbsentWithoutRuns | scripts/analyze_http_hello_all.py:84-86 | a runtime without runs is skipped |
| HelloAll.RuntimesDistinct | scripts/analyze_http_hello_all.py:10-15 | the runtime names are distinct |
| HelloStateful.PathFieldAt | scripts/analyze_http_hello_stateful.py:28 | the optional `\s+path=([^\s]+)` group captures a non-empty run of non-space characters that follows a `path=` in the line |
| HelloStateful.LatencyTailAt | scripts/analyze_http_hello_stateful.py:28 | the `latency_ms=([0-9.]+)` capture is a non-empty run of digits and points |
| HelloStateful.LatencyMatchAt | scripts/analyze_http_hello_stateful.py:28 | a match has a valid latency token, and any captured path follows a `path=` in the line |
| HelloStateful.SearchedMatchValid | scripts/analyze_http_hello_stateful.py:38 | whatever `search` returns is a valid match |
| HelloStateful.PathSample | scripts/analyze_http_hello_stateful.py:38-42 | a line yields at most one sample, with a non-empty path and a non-negative latency |
| HelloStateful.LineWithoutPathFieldIsStateless | scripts/analyze_http_hello_stateful.py:40 | a line without `path=` is counted under `/` |
| HelloStateful.RecordWithoutPath | scripts/analyze_http_hello_stateful.py:28-42 | `req=N <text> latency_ms=X` with no path field gives the sample (`/`, X) |
| HelloStateful.RecordWithPath | scripts/analyze_http_hello_stateful.py:28-42 | `req=N path=P <text> latency_ms=X` gives the sample (P, X) |
| HelloStateful.LoadSamplesByPath | scripts/analyze_http_hello_stateful.py:31-44 | the loop computes the grouping of samples by path |
| HelloStateful.SamplesByPathKeys | scripts/analyze_http_hello_stateful.py:31-44 | a path is a key exactly when some line of a run log yields a sample for it, and its list is then non-empty |
| HelloStateful.SamplesByPathNonEmpty | scripts/analyze_http_hello_stateful.py:42-44 | every list in `by_path` is non-empty |
| HelloStateful.OverheadPct | scripts/analyze_http_hello_stateful.py:47-51 | for a non-zero stateless mean, the overhead percentage is the one that takes the stateless mean to the stateful one |
| HelloStateful.OverheadSign | scripts/analyze_http_hello_stateful.py:47-51 | for a positive stateless mean, the overhead is positive, zero or negative exactly as the stateful mean is larger, equal or smaller |
| HelloStateful.OverheadOfZero | scripts/analyze_http_hello_stateful.py:49-50 | a zero stateless mean gives overhead 0 instead of dividing |
| HelloStateful.StatsOf | scripts/analyze_http_hello_stateful.py:68-74 | a path's statistics count its samples, and its median lies between min and max |
| HelloStateful.ReportOf | scripts/analyze_http_hello_stateful.py:60-93 | a runtime is compared exactly when both `/` and `/state` have data, with the overhead of the two means; otherwise the paths found are listed, with the warning exactly when `/state` is missing |
| HelloStateful.SummaryOf | scripts/analyze_http_hello_stateful.py:60-93 | one report per runtime, in order |
| HelloStateful.BarColourRule | scripts/analyze_http_hello_stateful.py:173 | a bar is red exactly when the stateful mean exceeds the stateless one |
| HelloStateful.OverheadBarsGate | scripts/analyze_http_hello_stateful.py:159-167 | the chart has a bar for a runtime exactly when it has both paths, at that runtime's overhead |
| HelloStateful.DataNonEmpty | scripts/analyze_http_hello_stateful.py:202-205 | every runtime in `data` has non-empty path lists |
| HelloStateful.CollectData | scripts/analyze_http_hello_stateful.py:200-207 | the `RUNTIMES` loop computes the runtime table |
| HelloStateful.Analyze | scripts/analyze_http_hello_stateful.py:199-226 | `main` computes its outcome: raised, no data (`sys.exit(1)`), or the report |
| HelloStateful.NoDataIffNoSamples | scripts/analyze_http_hello_stateful.py:209-214 | the script ends with "no data" exactly when every runtime loads an empty mapping |
| HelloStateful.RuntimeWithoutSamplesAbsent | scripts/analyze_http_hello_stateful.py:204-207 | a runtime without samples is not reported |
| HelloStateful.RuntimeWithSamplesPresent | scripts/analyze_http_hello_stateful.py:203-205 | a runtime with samples is reported with its mapping |
| HelloStateful.RuntimesDistinct | scripts/analyze_http_hello_stateful.py:18-22 | the runtime names are distinct |
| HelloScaling.HeadAt | scripts/analyze_http_hello_scaling.py:30-31 | the `run= conc= total_requests= elapsed_ms= throughput_rps=` head captures digit runs and a `[0-9.]+` throughput |
| HelloScaling.RssFieldsAt | scripts/analyze_http_hello_scaling.py:31 | the tail matches at a `total_rss_kb=` and captures two digit runs |
| HelloScaling.AvgRssAt | scripts/analyze_http_hello_scaling.py:31 | `avg_rss_kb=(\d+)` captures a non-empty digit run after its key |
| HelloScaling.ScaleMatchAt | scripts/analyze_http_hello_scaling.py:29-32 | a scale-line match starts with `run=` and captures the concurrency, throughput and both RSS values as digit or decimal runs |
| HelloScaling.ScaleSample | scripts/analyze_http_hello_scaling.py:49-54 | a line yields at most one sample, with a non-negative throughput |
| HelloScaling.ScaleLineReads | scripts/analyze_http_hello_scaling.py:29-58 | a well-formed scale line yields exactly its concurrency level with its throughput, total RSS and average RSS |
| HelloScaling.SeriesOf | scripts/analyze_http_hello_scaling.py:56-58 | the three columns of a level have one entry per sample |
| HelloScaling.AccumulateColumns | scripts/analyze_http_hello_scaling.py:56-58 | the three-column accumulation has the same levels as grouping the samples, and each level's columns are that group split by field |
| HelloScaling.SamplesAligned | scripts/analyze_http_hello_scaling.py:56-58 | a level is present exactly when some sample has it, and then its three columns are aligned and non-empty |
| HelloScaling.LoadSamples | scripts/analyze_http_hello_scaling.py:39-60 | the loop computes the per-level columns of the re-checked run logs |
| HelloScaling.AccumulateFiles | scripts/analyze_http_hello_scaling.py:43-58 | the file loop fails exactly when a kept file fails, and otherwise builds the accumulation of all samples |
| HelloScaling.AccumulateLines | scripts/analyze_http_hello_scaling.py:48-58 | the line loop extends the accumulation by the samples of the file's lines |
| HelloScaling.ScalingSamplesKeys | scripts/analyze_http_hello_scaling.py:39-60 | a level is present exactly when some line of a re-checked run log yields a sample at it |
| HelloScaling.ScalingEfficiency | scripts/analyze_http_hello_scaling.py:63-85 | no level 1 gives `{}`; it raises exactly when level 1 is present and its mean throughput is 0 or a level 0 is present; otherwise every level gets an entry |
| HelloScaling.CalculateScalingEfficiency | scripts/analyze_http_hello_scaling.py:63-85 | `calculate_scaling_efficiency` computes the efficiency table |
| HelloScaling.FillEfficiency | scripts/analyze_http_hello_scaling.py:71-85 | the loop over the sorted levels computes the efficiency table |
| HelloScaling.BaselineIsFullyEfficient | scripts/analyze_http_hello_scaling.py:71-83 | level 1 has speedup 1, ideal 1 and efficiency 100% |
| HelloScaling.EfficiencyMeaning | scripts/analyze_http_hello_scaling.py:75-82 | a level's speedup is its mean throughput over the baseline, and its efficiency is speedup over level times 100 |
| HelloScaling.CollectData | scripts/analyze_http_hello_scaling.py:233-240 | the `RUNTIMES` loop computes the runtime table |
| HelloScaling.Analyze | scripts/analyze_http_hello_scaling.py:232-251 | `main` computes its outcome: raised, no data, or the report with each runtime's efficiency table from `print_summary` |
| HelloScaling.SummaryEfficiencies | scripts/analyze_http_hello_scaling.py:98-116 | `print_summary` calls `calculate_scaling_efficiency` for each runtime in turn, stopping at the first that raises |
| HelloScaling.ReportedEfficiency | scripts/analyze_http_hello_scaling.py:98-121 | with a report, every runtime's efficiency table is defined and reported under its name |
| HelloScaling.RaisesOnUndefinedEfficiency | scripts/analyze_http_hello_scaling.py:74-78 | once data is collected, the script raises exactly when some runtime has level 1 with a zero mean throughput, or level 1 with a level 0 |
| HelloScaling.DataMeasured | scripts/analyze_http_hello_scaling.py:56-58 | every collected runtime has levels with three aligned, non-empty columns |
| HelloScaling.NoDataIffNoSamples | scripts/analyze_http_hello_scaling.py:242-248 | "no data" exactly when every runtime loads no levels |
| HelloScaling.ReportedRuntimes | scripts/analyze_http_hello_scaling.py:235-240 | a runtime is reported exactly when it loads levels, with those levels, whose columns are aligned |
| HelloScaling.RuntimeWithoutSamplesAbsent | scripts/analyze_http_hello_scaling.py:237-240 | a runtime without samples is not reported |
| HelloScaling.RuntimesDistinct | scripts/analyze_http_hello_scaling.py:18-22 | the runtime names are distinct |
| CpuHashScaling.ScaleAt | scripts/analyze_cpu_hash_scaling.py:22 | a match starts at `conc=` and captures a digit run and a `[0-9.]+` throughput |
| CpuHashScaling.ScaleSample | scripts/analyze_cpu_hash_scaling.py:32-36 | no match gives nothing; a match gives at most one sample and fails exactly when the throughput is not a valid `float` |
| CpuHashScaling.NoConcNoSample | scripts/analyze_cpu_hash_scaling.py:32-33 | a line without `conc=` yields no sample |
| CpuHashScaling.ScaleLineReads | scripts/analyze_cpu_hash_scaling.py:22-36 | `conc=C <text> throughput_iter_s=T` yields level C with throughput T; the greedy `.*` takes the last throughput field on the line |
| CpuHashScaling.LoadSamples | scripts/analyze_cpu_hash_scaling.py:25-37 | the loop computes the grouping by level of the re-checked run logs |
| CpuHashScaling.LevelsFromLines | scripts/analyze_cpu_hash_scaling.py:26-37 | a level is present exactly when some line yields a sample at it, and its list is non-empty |
| CpuHashScaling.SampleLevels | scripts/analyze_cpu_hash_scaling.py:25-37 | the same for the files the script actually reads |
| CpuHashScaling.LevelLineOf | scripts/analyze_cpu_hash_scaling.py:57-61 | a summary line is for its runtime and level, counts the values, and has min ≤ mean ≤ max with min and max among the values |
| CpuHashScaling.RuntimeLines | scripts/analyze_cpu_hash_scaling.py:54-61 | a runtime gets one line per level, in strictly increasing level order, covering every level |
| CpuHashScaling.SummaryMember | scripts/analyze_cpu_hash_scaling.py:53-61 | the summary is exactly the lines of all runtimes |
| CpuHashScaling.DataMeasured | scripts/analyze_cpu_hash_scaling.py:42-47 | every runtime in `data` has levels, each with values |
| CpuHashScaling.CollectData | scripts/analyze_cpu_hash_scaling.py:41-47 | the `RUNTIMES` loop computes the runtime table |
| CpuHashScaling.Analyze | scripts/analyze_cpu_hash_scaling.py:40-61 | `main` computes its outcome |
| CpuHashScaling.NoDataIffNoSamples | scripts/analyze_cpu_hash_scaling.py:49-51 | "no data" exactly when every runtime loads no levels |
| CpuHashScaling.SummaryCoversLevels | scripts/analyze_cpu_hash_scaling.py:53-61 | every level a runtime loaded appears in the summary with that runtime's statistics |
| CpuHashScaling.RuntimeWithoutSamplesAbsent | scripts/analyze_cpu_hash_scaling.py:44-47 | a runtime without samples is not reported |
| CpuHashScaling.RuntimesDistinct | scripts/analyze_cpu_hash_scaling.py:11-16 | the runtime names are distinct |
| CpuHashComparison.LoadSamples | scripts/analyze_cpu_hash_comparison.py:35-45 | the loop computes the samples of the re-checked run logs |
| CpuHashComparison.NoRunLogsNoSamples | scripts/analyze_cpu_hash_comparison.py:35-45 | a directory without run logs gives no samples |
| CpuHashComparison.FileSampleCount | scripts/analyze_cpu_hash_comparison.py:41-44 | a file yields exactly one sample per line that carries `outer_ms=` |
| CpuHashComparison.ConfidenceInterval | scripts/analyze_cpu_hash_comparison.py:48-58 | no interval exactly when scipy is missing or there are fewer than 2 samples; otherwise it is centred on the mean and ordered exactly when the margin is non-negative |
| CpuHashComparison.Band | scripts/analyze_cpu_hash_comparison.py:89 | the significance label is one of `***`, `**`, `*`, `ns` |
| CpuHashComparison.BandIntervals | scripts/analyze_cpu_hash_comparison.py:89 | three stars exactly below 0.001, two in [0.001, 0.01), one in [0.01, 0.05), none from 0.05 on |
| CpuHashComparison.BandMonotone | scripts/analyze_cpu_hash_comparison.py:89 | a smaller p-value never gets fewer stars |
| CpuHashComparison.SignificantIffStarred | scripts/analyze_cpu_hash_comparison.py:89-97 | the "significant" verdict is given exactly when the label has a star |
| CpuHashComparison.RowUpTo | scripts/analyze_cpu_hash_comparison.py:72 | `runtimes[i+1:]` pairs `i` with each later index, in order |
| CpuHashComparison.PairsBeforeMember | scripts/analyze_cpu_hash_comparison.py:70-72 | after `i` rows, the pairs visited are exactly those with first index below `i` and second index above the first |
| CpuHashComparison.PairsBeforeOrdered | scripts/analyze_cpu_hash_comparison.py:70-72 | pairs are visited in lexicographic order |
| CpuHashComparison.EachPairOnce | scripts/analyze_cpu_hash_comparison.py:70-72 | every unordered pair of runtimes is compared exactly once |
| CpuHashComparison.PairReportOf | scripts/analyze_cpu_hash_comparison.py:73-97 | one report per pair, naming the two runtimes; skipped exactly when either has fewer than 3 samples; "significant" exactly when starred |
| CpuHashComparison.ReportPair | scripts/analyze_cpu_hash_comparison.py:73-97 | the loop body computes the pair's report |
| CpuHashComparison.CompareRow | scripts/analyze_cpu_hash_comparison.py:72-97 | the inner loop extends the reports by row `i`, or the whole comparison fails |
| CpuHashComparison.CompareRuntimes | scripts/analyze_cpu_hash_comparison.py:61-97 | the nested loops compute the comparisons; without scipy there are none |
| CpuHashComparison.ReportPerPair | scripts/analyze_cpu_hash_comparison.py:70-97 | there is one report per pair, and the k-th report is that of the k-th pair |
| CpuHashComparison.LowSampleWarnings | scripts/analyze_cpu_hash_comparison.py:106-107 | a runtime is warned about exactly when it has fewer than 3 samples |
| CpuHashComparison.Intervals | scripts/analyze_cpu_hash_comparison.py:118-124 | one interval per runtime, in order, each that runtime's confidence interval |
| CpuHashComparison.CollectData | scripts/analyze_cpu_hash_comparison.py:101-109 | the `RUNTIMES` loop computes the runtime table |
| CpuHashComparison.Analyze | scripts/analyze_cpu_hash_comparison.py:100-134 | `main` computes its outcome |
| CpuHashComparison.NoDataIffNoSamples | scripts/analyze_cpu_hash_comparison.py:111-113 | "no data" exactly when every runtime loads no samples |
| CpuHashComparison.ReportedRuntimes | scripts/analyze_cpu_hash_comparison.py:102-107 | a runtime is reported exactly when it has samples, with them; one with fewer than 3 is warned about |
| CpuHashComparison.RuntimeWithoutSamplesAbsent | scripts/analyze_cpu_hash_comparison.py:104-109 | a runtime without samples is not reported |
| CpuHashComparison.RuntimesDistinct | scripts/analyze_cpu_hash_comparison.py:21-26 | the runtime names are distinct |
| WasmHello.OneSamplePerMatchingLine | scripts/analyze_wasm_hello_comparison.py:28-31 | a line without `elapsed_ms=` yields nothing; one with it yields exactly one sample, or fails on an invalid `float` |
| WasmHello.FileSampleCount | scripts/analyze_wasm_hello_comparison.py:28-31 | a file yields exactly one sample per line that carries the field |
| WasmHello.SingleSample | scripts/analyze_wasm_hello_comparison.py:29-31 | a line's samples are at most one |
| WasmHello.LoadSamples | scripts/analyze_wasm_hello_comparison.py:22-32 | the loop computes the samples of the re-checked run logs |
| WasmHello.SamplesFromReadFiles | scripts/analyze_wasm_hello_comparison.py:22-32 | a value is a sample exactly when some line of a re-checked run log yields it |
| WasmHello.SamplesFromFiles | scripts/analyze_wasm_hello_comparison.py:27-31 | the same for any list of files |
| WasmHello.SummaryLineOf | scripts/analyze_wasm_hello_comparison.py:50-54 | the summary counts the samples; min and max are samples; p50 and mean lie between them |
| WasmHello.SummaryOf | scripts/analyze_wasm_hello_comparison.py:48-54 | one summary line per runtime, in order, counting that runtime's samples |
| WasmHello.DataNonEmpty | scripts/analyze_wasm_hello_comparison.py:39-40 | every runtime in `data` has samples |
| WasmHello.CollectData | scripts/analyze_wasm_hello_comparison.py:36-42 | the `RUNTIMES` loop computes the runtime table |
| WasmHello.Analyze | scripts/analyze_wasm_hello_comparison.py:35-54 | `main` computes its outcome |
| WasmHello.NoDataIffNoSamples | scripts/analyze_wasm_hello_comparison.py:44-46 | "no data" exactly when every runtime loads no samples |
| WasmHello.ReportedRuntimes | scripts/analyze_wasm_hello_comparison.py:37-40 | a runtime is reported exactly when it has samples, with them |
| WasmHello.RuntimeWithoutSamplesAbsent | scripts/analyze_wasm_hello_comparison.py:41-42 | a runtime without samples is not reported |
| WasmHello.RuntimesDistinct | scripts/analyze_wasm_hello_comparison.py:10-13 | the runtime names are distinct |
| ColdStart.Get | scripts/analyze_cold_start_comparison.py:50-51 | `row[col]` succeeds exactly when the column exists |
| ColdStart.KeyOf | scripts/analyze_cold_start_comparison.py:50-52 | a row has a bucket key exactly when it has both `runtime` and `type` |
| ColdStart.Convert | scripts/analyze_cold_start_comparison.py:56-59 | a missing cell always fails to convert; a present one converts as the conversion says |
| ColdStart.EntryOfRow | scripts/analyze_cold_start_comparison.py:55-60 | an entry exists only when all four columns exist and convert, and it holds their converted values |
| ColdStart.RowPairs | scripts/analyze_cold_start_comparison.py:50-61 | a row contributes an entry exactly when its key is one of the four buckets, under that key and with that entry |
| ColdStart.Bucketed | scripts/analyze_cold_start_comparison.py:40-45 | the data always has exactly the four buckets, even when empty |
| ColdStart.LoadData | scripts/analyze_cold_start_comparison.py:32-63 | the row loop computes the loaded data: a missing file, a raise, or the buckets |
| ColdStart.LoadedBuckets | scripts/analyze_cold_start_comparison.py:40-61 | after a load, the keys are exactly the buckets, and each bucket has as many entries as rows with its key |
| ColdStart.BucketCount | scripts/analyze_cold_start_comparison.py:54-61 | each bucket receives exactly one entry per row with its key |
| ColdStart.LoadRaises | scripts/analyze_cold_start_comparison.py:50-60 | loading raises exactly when some row lacks `runtime` or `type`, or falls in a bucket but lacks or fails to convert one of its four values |
| ColdStart.ComputeStats | scripts/analyze_cold_start_comparison.py:66-77 | `{}` exactly for no values; otherwise the count is the length, min and max are values bounding median and mean, and one value has stdev 0 |
| ColdStart.WinnerRule | scripts/analyze_cold_start_comparison.py:127-139 | the winner is the key with the strictly smaller mean (the first on a tie) and the ratio scales the winner to the loser; for positive means a verdict always exists and its ratio is at least 1, above 1 exactly when the means differ |
| ColdStart.ChartAgreesWithSummary | scripts/analyze_cold_start_comparison.py:342-369 | the speedup chart and the text summary raise in the same cases, name the same winner with the same factor, and a tie goes to Docker |
| ColdStart.Totals | scripts/analyze_cold_start_comparison.py:98 | the total times are the entries' `total_ms`, one per entry, in order |
| ColdStart.BlockOf | scripts/analyze_cold_start_comparison.py:98-114 | a bucket's block has statistics over all its entries, and a build/start breakdown exactly for `full_cold` buckets |
| ColdStart.Blocks | scripts/analyze_cold_start_comparison.py:93-114 | blocks are printed only for buckets with entries |
| ColdStart.BlocksExactly | scripts/analyze_cold_start_comparison.py:93-114 | every bucket with entries gets its block over exactly its entries, and no other bucket gets one |
| ColdStart.BlocksInKeyOrder | scripts/analyze_cold_start_comparison.py:93 | the blocks follow the order of the bucket list |
| ColdStart.VerdictOf | scripts/analyze_cold_start_comparison.py:127-139 | a comparison gives a verdict exactly when both buckets have entries, and it is the winner rule on their means |
| ColdStart.BarOf | scripts/analyze_cold_start_comparison.py:342-369 | a chart bar exists exactly when both scenarios have entries |
| ColdStart.RowMakesData | scripts/analyze_cold_start_comparison.py:408-411 | a row with a bucket key gives the script data |
| ColdStart.HasDataIffBucketRow | scripts/analyze_cold_start_comparison.py:408 | `has_data` holds exactly when some row has a bucket key |
| ColdStart.NoDataIffNoBucketRows | scripts/analyze_cold_start_comparison.py:403-411 | the script reports "no data" exactly when no row has a bucket key |
| ColdStart.ReportAgrees | scripts/analyze_cold_start_comparison.py:121-139 | when both full-cold buckets have data, the report's verdict and chart bar name the same winner at the same factor |
| HelloHandler.StateRouteIsPrefix | workloads/http-hello/src/main.rs:20 | `starts_with("/state")` holds exactly when the path is `/state` followed by anything |
| HelloHandler.Increment | workloads/http-hello/src/main.rs:21 | the counter goes up by one and wraps to 0 at 2^64 |
| HelloHandler.Step | workloads/http-hello/src/main.rs:19-25 | a state route moves the counter by one and answers its new value in decimal; any other path answers `hello` and leaves the counter |
| HelloHandler.CounterAfter | workloads/http-hello/src/main.rs:5 | the counter stays below 2^64 |
| HelloHandler.CounterAfterCount | workloads/http-hello/src/main.rs:14-25 | after any sequence of requests the counter is the number of state requests, modulo 2^64 |
| HelloHandler.BodyAt | workloads/http-hello/src/main.rs:14-25 | the i-th reply is computed from the counter left by the requests before it |
| HelloHandler.KthStateReply | workloads/http-hello/src/main.rs:20-24 | starting from 0, the k-th state request is answered `k`, and every other request `hello` |
| HelloHandler.FirstStateReplyIsOne | workloads/wasmcloud-http-hello/src/lib.rs:14-20 | the first state request is answered `1` |
| HelloHandler.StateRepliesIncrease | workloads/wasmcloud-http-hello/src/lib.rs:14-20 | before the counter wraps, later state replies are strictly larger numbers |
| HelloHandler.OtherRouteKeepsCounter | workloads/http-hello/src/main.rs:23-25 | a non-state request leaves the counter unchanged |
| HelloHandler.StateCountMonotone | workloads/http-hello/src/main.rs:20-21 | the number of state requests seen never decreases along the request stream |
| HttpHello.Paths | workloads/http-hello/src/main.rs:19 | the routed paths are the requests' URLs, in order |
| HttpHello.ErrorLog | workloads/http-hello/src/main.rs:29-31 | every logged error line comes from a request whose `respond` failed |
| HttpHello.EveryFailureLogged | workloads/http-hello/src/main.rs:29-31 | every failed `respond` is logged |
| HttpHello.ErrorLogSnoc | workloads/http-hello/src/main.rs:14-31 | each request appends its error line, if it failed, after those of earlier requests |
| HttpHello.NoErrorsNoLog | workloads/http-hello/src/main.rs:29-31 | when no `respond` fails, nothing is logged |
| HttpHello.Server.constructor | workloads/http-hello/src/main.rs:5 | the counter starts at 0 |
| HttpHello.Server.Handle | workloads/http-hello/src/main.rs:16-27 | one request updates the counter as the routing says and gets its body with the `Content-Type` header |
| HttpHello.Server.Serve | workloads/http-hello/src/main.rs:14-32 | serving a stream of requests leaves the counter the routing gives, answers each in order, and logs exactly the failed responses |
| HttpHello.ServeStep | workloads/http-hello/src/main.rs:14-27 | one more request extends the counter and the replies by one routing step |
| HttpHello.ResponsesFromStart | workloads/http-hello/src/main.rs:16-27 | from a fresh server, each response has the header, the k-th state request gets `k`, and every other request `hello` |
| WasmCloudHello.Component.constructor | workloads/wasmcloud-http-hello/src/lib.rs:7 | the counter starts at 0 |
| WasmCloudHello.Component.Handle | workloads/wasmcloud-http-hello/src/lib.rs:10-26 | the handler always returns `Ok`, updates the counter and answers as the shared routing does |
| CpuHash.ParseU64 | workloads/cpu-hash/src/main.rs:11 | `parse::<u64>` accepts only an optional `+` followed by digits whose value fits in 64 bits, and returns that value |
| CpuHash.ParseU64OfNat | workloads/cpu-hash/src/main.rs:11 | any 64-bit number in decimal, with or without `+`, parses back to itself |
| CpuHash.ParseU64Rejects | workloads/cpu-hash/src/main.rs:11 | the empty string, a negative number and a number of 2^64 or more are rejected |
| CpuHash.Iterations | workloads/cpu-hash/src/main.rs:9-14 | the iteration count is the first argument when it parses, and 2 000 000 otherwise |
| CpuHash.IterationsGiven | workloads/cpu-hash/src/main.rs:10-11 | a decimal first argument below 2^64 is used as given |
| CpuHash.LeBytes | workloads/cpu-hash/src/main.rs:30 | `to_le_bytes` gives 8 bytes whose little-endian value is the counter |
| CpuHash.LeBytesRoundTrip | workloads/cpu-hash/src/main.rs:30 | encoding a value that fits and reading it back gives the value |
| CpuHash.LeValueRoundTrip | workloads/cpu-hash/src/main.rs:30 | reading bytes and encoding the value again gives the bytes |
| CpuHash.LeValueBound | workloads/cpu-hash/src/main.rs:30 | n little-endian bytes hold a value below 256^n |
| CpuHash.Header | workloads/cpu-hash/src/main.rs:16-23 | the fixed part of the buffer is 24 bytes long |
| CpuHash.Block | workloads/cpu-hash/src/main.rs:16-32 | each hashed block is 32 bytes long |
| CpuHash.BlockLayout | workloads/cpu-hash/src/main.rs:16-32 | a block is the 18-byte prefix, zero padding up to offset 24, then the counter in little-endian order |
| CpuHash.BlocksDistinct | workloads/cpu-hash/src/main.rs:28-32 | different iterations hash different blocks |
| CpuHash.MessageLength | workloads/cpu-hash/src/main.rs:28-35 | the hashed message is 32 bytes per iteration, and empty for none |
| CpuHash.MessageBlock | workloads/cpu-hash/src/main.rs:28-35 | the i-th 32-byte chunk of the message is block i |
| CpuHash.Hasher.constructor | workloads/cpu-hash/src/main.rs:27 | a new hasher has absorbed nothing |
| CpuHash.Hasher.Update | workloads/cpu-hash/src/main.rs:34 | `update` appends its data to what was absorbed |
| CpuHash.Hasher.Finalize | workloads/cpu-hash/src/main.rs:37 | `finalize` is the digest of everything absorbed |
| CpuHash.CopyInto | workloads/cpu-hash/src/main.rs:23 | `copy_from_slice` overwrites exactly the target range and leaves the rest of the buffer |
| CpuHash.WriteCounter | workloads/cpu-hash/src/main.rs:30-32 | writing the counter keeps the first 24 bytes and puts its 8 little-endian bytes after them |
| CpuHash.NewBuffer | workloads/cpu-hash/src/main.rs:20-23 | the fresh buffer is 32 bytes long and starts with the header |
| CpuHash.NextBlock | workloads/cpu-hash/src/main.rs:28-32 | the buffer after writing counter i is block i, and the header is intact |
| CpuHash.Run | workloads/cpu-hash/src/main.rs:25-37 | the loop feeds blocks 0 to N-1 in order, so the digest is SHA-256 of their concatenation |
| CpuHash.Hex | workloads/cpu-hash/src/main.rs:41-43 | `{:x}` prints two lowercase hex digits per byte |
| CpuHash.HexRoundTrip | workloads/cpu-hash/src/main.rs:41-43 | the printed digest parses back to the digest |
| CpuHash.ParseHexCons | workloads/cpu-hash/src/main.rs:41-43 | parsing hex reads one byte per two digits, front to back |
| CpuHash.ThreeDigits | workloads/cpu-hash/src/main.rs:41 | the three decimals after the point are the thousandths, zero-padded |
| CpuHash.MillisParses | workloads/cpu-hash/src/main.rs:41-44 | the printed milliseconds parse back as microseconds over 1000 |
| CpuHash.OutputLineFields | workloads/cpu-hash/src/main.rs:40-45 | the output line is `iterations=… digest=… elapsed_ms=…`, and each field parses back to the value printed |
| CpuHash.Benchmark | workloads/cpu-hash/src/main.rs:8-46 | the program prints the line for its iteration count and the SHA-256 of its message |

## Left out

- File I/O, `Path.exists`, `glob` and `csv.DictReader` are not modelled as operations. A directory is an entry of a `FileSystem` map, a log is a name with its lines, and the CSV is an optional list of rows.
- Plots (matplotlib) and the exact text of `print` calls are left out: field widths, `.2f`/`.3f` rounding, `title()` and upper-casing. Only what the text reports is modelled: which runtimes, rows, verdicts, factors and warnings appear.
- Floating point is modelled as exact reals. `statistics.stdev`, `scipy.stats.sem` with `t.ppf`, and `mannwhitneyu` are parameters (`sampleStdev`, `margin`, `pValue`). `scipy` being importable is a boolean.
- Cold-start `int()` and `float()` of CSV cells are parameters (`toInt`, `toFloat`). The log scripts' `float()` is modelled only on `[0-9.]+` captures, the only input their patterns let through.
- `\d` is narrowed to the ASCII digits; Python's Unicode `\d` is wider. `\s` and `str.strip` follow the full `str.isspace` set.
- generate_summary.py:160-268 (the LaTeX table and the executive summary) is not part of this model. Nor is writing the outputs at generate_summary.py:287-300.
- The instance-line pattern at analyze_http_hello_scaling.py:33-36 is compiled but never used by the script, so it is not modelled.
- analyze_cpu_hash_comparison.py defines `main` twice and runs it twice: the first definition at line 189, the second at line 256. The second pass (lines 193-252) reloads every runtime and repeats the warnings, the confidence-interval summary and `compare_runtimes_statistically` on the same inputs, so it prints the same results; with no data it too returns quietly, without exit status 1. The model follows the first definition (lines 100-134); the repeated pass and the plots of both are left out.
- `HelloRunLog` models both copies of `parse_run_log` (analyze_native_http_hello.py:23-70 and analyze_http_hello_all.py:27-58). They accept the same runs; only the warnings printed differ.
- SHA-256 itself is a parameter `sha`. The model proves which bytes are hashed, not the hash.
- `Instant` timing is a parameter in whole microseconds. `{:.3}` of the elapsed milliseconds is modelled as exact thousandths, not as f64 rounding.
- The `tiny_http` server's endless request loop is modelled on a finite sequence of requests. Binding the socket and its failure (main.rs:9), the startup message, and building the header (main.rs:17, which cannot fail for the constant string) are left out.
- HttpHello.Server.Handle: the relaxed atomic counter is updated by one request at a time. Concurrent requests are not modelled.
- WasmCloudHello.Component.Handle: the `static mut` counter is single-threaded, as the component's own comment assumes.
- HelloHandler.Increment: the counter wraps at 2^64 as in a release build. A debug build's overflow panic on `+ 1` (main.rs:21, lib.rs:17) is not modelled.
- The `http::export!` glue and the request and response types of wasmCloud are reduced to a path in and a body out.
- CpuHash.Iterations: `args[1]` is an already decoded string; a non-UTF-8 argument's panic in `env::args` is left out.

## Findings

| source | as written | input that shows it | evidently intended | confidence | as-written member | corrected member |
|---|---|---|---|---|---|---|
| scripts/generate_summary.py:148-152 | only `ms` and `s` are treated as lower-is-better, so memory in `MB` divides the runtime's mean by Docker's | Memory Usage with a Docker mean of 100 MB and a runtime mean of 50 MB reports a speedup of 0.5x | lower memory is better, so the factor should be 100/50 = 2.0x | medium (not executed) | Summary.SpeedupFactorAsWritten, Summary.MemorySpeedupInverted, Summary.SpeedupListing | Summary.SpeedupFactor, Summary.SpeedupAboveOneIffBetter, Summary.CorrectedSpeedupListing |

The report model (`Summary.Markdown`) prints the factor as the script computes it. The corrected listing (`Summary.CorrectedSpeedupVsDocker`) is a separate member. It agrees with the printed one for every unit except `MB`, where each factor is the reciprocal of the printed one.
