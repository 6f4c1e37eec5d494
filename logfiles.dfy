/**
 * Run-log files as the analysis scripts see them: a directory is a listing of files, each a
 * name and its lines; `sorted(dir.glob("*_run.log"))` selects and orders them; the loop
 * "for each file, for each line, search a pattern, append" gathers samples.
 */
module LogFiles {
  import opened Common
  import opened Seqs
  import opened Sorting
  import opened Text

  /** A file: its base name and the lines `for line in f` yields. */
  datatype LogFile = LogFile(name: string, lines: seq<string>)

  /** Directories by path; the order of a listing is the order the file system returns. */
  type FileSystem = map<string, seq<LogFile>>

  /** The files in `dir`; a directory that does not exist lists nothing. */
  function Listing(fs: FileSystem, dir: string): (r: seq<LogFile>)
    ensures dir !in fs ==> r == []
  {
    if dir in fs then fs[dir] else []
  }

  /** The glob `*_run.log`: the star matches any name prefix, dot files included. */
  predicate IsRunLog(f: LogFile) {
    EndsWith(f.name, "_run.log")
  }

  /** `sorted()` on paths of one directory compares their names code point by code point. */
  predicate NameLe(a: LogFile, b: LogFile) {
    LexLe(a.name, b.name)
  }

  lemma NameLeTotalPreorder()
    ensures TotalPreorder(NameLe)
  {
    forall a: LogFile, b: LogFile ensures NameLe(a, b) || NameLe(b, a) {
      LexLeTotal(a.name, b.name);
    }
    forall a: LogFile, b: LogFile, c: LogFile | NameLe(a, b) && NameLe(b, c) ensures NameLe(a, c) {
      LexLeTransitive(a.name, b.name, c.name);
    }
  }

  /** `sorted(dir.glob("*_run.log"))`: exactly the run logs of the listing, in name order. */
  function RunLogs(listing: seq<LogFile>): (r: seq<LogFile>)
    ensures multiset(r) == multiset(Filter(IsRunLog, listing))
    ensures forall f :: f in r <==> f in listing && IsRunLog(f)
    ensures Sorted(r, NameLe)
  {
    var selected := Filter(IsRunLog, listing);
    NameLeTotalPreorder();
    SortSorted(selected, NameLe);
    forall f ensures f in Sort(selected, NameLe) <==> f in selected {
      SortedMembers(selected, NameLe, f);
    }
    Sort(selected, NameLe)
  }

  /** `$`: the end of the text, or just before a final line break. */
  predicate DollarAt(s: string, i: nat) {
    i == |s| || (i + 1 == |s| && s[i] == '\n')
  }

  /** `_run\.log$` at `i`. */
  function RunLogSuffixAt(s: string, i: nat): (r: Option<nat>)
    ensures r.Some? ==> r.value == i + 8 && DollarAt(s, i + 8)
  {
    var j :- Lit(s, i, "_run.log");
    if DollarAt(s, j) then Some(j) else None
  }

  /** `re.compile(r".*_run\.log$").match(name)`: anchored at the start, `.*` greedy. */
  predicate RunLogNameMatches(name: string) {
    Greedy(RunLogSuffixAt, name, 0).Some?
  }

  /**
   * The name check some scripts repeat after the glob rejects exactly the selected names
   * that contain a line break.
   */
  lemma RunLogNameMatchesIff(name: string)
    requires EndsWith(name, "_run.log")
    ensures RunLogNameMatches(name) <==> forall k :: 0 <= k < |name| ==> name[k] != '\n'
  {
    var n := |name|;
    var tail := name[n - 8..];
    assert tail == "_run.log";
    if forall k :: 0 <= k < n ==> name[k] != '\n' {
      assert LineEnd(name, 0) == n;
      assert name[n - 8..n] == tail;
      assert RunLogSuffixAt(name, n - 8).Some?;
    }
  }

  /** What a file yields when every line goes through `f` (`None`: an exception escaped). */
  function PerFile<T>(f: string -> Option<seq<T>>): LogFile -> Option<seq<T>> {
    (file: LogFile) => Traverse(f, file.lines)
  }

  /**
   * The sample-collecting loop: for each file in order, for each line in order, append what
   * `f` extracts from the line; an exception raised on any line ends the whole run (`None`).
   */
  method GatherSamples<T>(files: seq<LogFile>, f: string -> Option<seq<T>>) returns (r: Option<seq<T>>)
    ensures r == Traverse(PerFile(f), files)
  {
    var samples: seq<T> := [];
    for fi := 0 to |files|
      invariant Traverse(PerFile(f), files[..fi]) == Some(samples)
    {
      var lines := files[fi].lines;
      ghost var before := samples;
      for li := 0 to |lines|
        invariant Traverse(f, lines[..li]).Some?
        invariant samples == before + Traverse(f, lines[..li]).value
      {
        var v := f(lines[li]);
        if v.None? {
          assert PerFile(f)(files[fi]).None?;
          return None;
        }
        TraverseSnoc(f, lines, li);
        samples := samples + v.value;
      }
      assert lines[..|lines|] == lines;
      TraverseSnoc(PerFile(f), files, fi);
    }
    assert files[..|files|] == files;
    r := Some(samples);
  }

  /**
   * The grouping loop: for each file, for each line, append what `f` extracts to the list of
   * its key in a `defaultdict(list)`; an exception raised on any line ends the run (`None`).
   */
  function Grouped<K(==), V>(files: seq<LogFile>, f: string -> Option<seq<(K, V)>>): Option<map<K, seq<V>>> {
    var pairs :- Traverse(PerFile(f), files);
    Some(Group(pairs))
  }

  method GroupSamples<K(==), V>(files: seq<LogFile>, f: string -> Option<seq<(K, V)>>) returns (r: Option<map<K, seq<V>>>)
    ensures r == Grouped(files, f)
  {
    var groups: map<K, seq<V>> := map[];
    ghost var pairs: seq<(K, V)> := [];
    for fi := 0 to |files|
      invariant Traverse(PerFile(f), files[..fi]) == Some(pairs)
      invariant groups == Group(pairs)
    {
      var next := GroupLines(groups, pairs, files[fi].lines, f);
      if next.None? {
        return None;
      }
      TraverseSnoc(PerFile(f), files, fi);
      pairs := pairs + PerFile(f)(files[fi]).value;
      groups := next.value;
    }
    assert files[..|files|] == files;
    r := Some(groups);
  }

  /** The inner loop over the lines of one file. */
  method GroupLines<K(==), V>(groups: map<K, seq<V>>, ghost pairs: seq<(K, V)>, lines: seq<string>, f: string -> Option<seq<(K, V)>>)
    returns (r: Option<map<K, seq<V>>>)
    requires groups == Group(pairs)
    ensures r.Some? <==> Traverse(f, lines).Some?
    ensures r.Some? ==> r.value == Group(pairs + Traverse(f, lines).value)
  {
    var acc := groups;
    ghost var accPairs := pairs;
    for li := 0 to |lines|
      invariant Traverse(f, lines[..li]).Some?
      invariant accPairs == pairs + Traverse(f, lines[..li]).value
      invariant acc == Group(accPairs)
    {
      var v := f(lines[li]);
      if v.None? {
        return None;
      }
      TraverseSnoc(f, lines, li);
      acc := AppendAll(acc, accPairs, v.value);
      accPairs := accPairs + v.value;
    }
    assert lines[..|lines|] == lines;
    r := Some(acc);
  }

  /** `d[k].append(v)` for every pair a line yields, in order. */
  method AppendAll<K(==), V>(groups: map<K, seq<V>>, ghost pairs: seq<(K, V)>, vs: seq<(K, V)>) returns (r: map<K, seq<V>>)
    requires groups == Group(pairs)
    ensures r == Group(pairs + vs)
  {
    r := groups;
    assert pairs + vs[..0] == pairs;
    for vi := 0 to |vs|
      invariant r == Group(pairs + vs[..vi])
    {
      GroupSnoc(pairs + vs[..vi], vs[vi]);
      assert pairs + vs[..vi + 1] == pairs + vs[..vi] + [vs[vi]];
      r := AddTo(r, vs[vi].0, vs[vi].1);
    }
    assert vs[..|vs|] == vs;
  }

  /** A pair is gathered exactly when some line of some file yields it. */
  lemma GatheredMember<T>(files: seq<LogFile>, f: string -> Option<seq<T>>, y: T)
    requires Traverse(PerFile(f), files).Some?
    ensures y in Traverse(PerFile(f), files).value <==>
      exists file, line :: file in files && line in file.lines && f(line).Some? && y in f(line).value
  {
    TraverseMember(PerFile(f), files, y);
    if y in Traverse(PerFile(f), files).value {
      var fi :| 0 <= fi < |files| && PerFile(f)(files[fi]).Some? && y in PerFile(f)(files[fi]).value;
      TraverseMember(f, files[fi].lines, y);
      var li :| 0 <= li < |files[fi].lines| && f(files[fi].lines[li]).Some? && y in f(files[fi].lines[li]).value;
      assert files[fi] in files && files[fi].lines[li] in files[fi].lines;
    }
    if exists file, line :: file in files && line in file.lines && f(line).Some? && y in f(line).value {
      var file, line :| file in files && line in file.lines && f(line).Some? && y in f(line).value;
      TraverseMember(f, file.lines, y);
    }
  }

  /**
   * A key is present exactly when some line of some file yields a value under it, and its
   * list holds that key's values in file then line order.
   */
  lemma GroupedKeys<K, V>(files: seq<LogFile>, f: string -> Option<seq<(K, V)>>, k: K)
    requires Grouped(files, f).Some?
    ensures k in Grouped(files, f).value <==>
      exists file, line, p :: file in files && line in file.lines && f(line).Some? && p in f(line).value && p.0 == k
    ensures k in Grouped(files, f).value ==>
      Grouped(files, f).value[k] == ValuesFor(Traverse(PerFile(f), files).value, k) != []
  {
    var pairs := Traverse(PerFile(f), files).value;
    GroupSpec(pairs, k);
    if k in Grouped(files, f).value {
      var i :| 0 <= i < |pairs| && pairs[i].0 == k;
      GatheredMember(files, f, pairs[i]);
    }
    if exists file, line, p :: file in files && line in file.lines && f(line).Some? && p in f(line).value && p.0 == k {
      var file, line, p :| file in files && line in file.lines && f(line).Some? && p in f(line).value && p.0 == k;
      GatheredMember(files, f, p);
      var i :| 0 <= i < |pairs| && pairs[i] == p;
    }
  }

  /** Mapping over the run logs keeps the results of exactly the run logs of the listing. */
  lemma RunLogsFilterMap<T>(f: LogFile -> Option<T>, listing: seq<LogFile>, y: T)
    ensures y in FilterMap(f, RunLogs(listing)) <==> exists file :: file in listing && IsRunLog(file) && f(file) == Some(y)
    ensures FilterMap(f, RunLogs(listing)) == [] <==> forall file :: file in listing && IsRunLog(file) ==> f(file).None?
    ensures RunLogs(listing) == [] <==> forall file :: file in listing ==> !IsRunLog(file)
  {
    RunLogsFilterMapMember(f, listing, y);
    RunLogsFilterMapEmpty(f, listing);
    if RunLogs(listing) != [] {
      assert RunLogs(listing)[0] in RunLogs(listing);
    }
  }

  lemma RunLogsFilterMapMember<T>(f: LogFile -> Option<T>, listing: seq<LogFile>, y: T)
    ensures y in FilterMap(f, RunLogs(listing)) <==> exists file :: file in listing && IsRunLog(file) && f(file) == Some(y)
  {
    var logs := RunLogs(listing);
    FilterMapMember(f, logs, y);
    if exists file :: file in listing && IsRunLog(file) && f(file) == Some(y) {
      var file :| file in listing && IsRunLog(file) && f(file) == Some(y);
      assert file in logs;
    }
  }

  lemma RunLogsFilterMapEmpty<T>(f: LogFile -> Option<T>, listing: seq<LogFile>)
    ensures FilterMap(f, RunLogs(listing)) == [] <==> forall file :: file in listing && IsRunLog(file) ==> f(file).None?
  {
    var logs := RunLogs(listing);
    FilterMapEmpty(f, logs);
    if forall file :: file in listing && IsRunLog(file) ==> f(file).None? {
      assert forall i :: 0 <= i < |logs| ==> logs[i] in logs;
    }
  }

  /** The name check `if not RUN_LOG_PATTERN.match(log.name): continue`. */
  predicate NameRechecked(f: LogFile) {
    RunLogNameMatches(f.name)
  }

  /** The files a loop over the run logs reads when it repeats the name check. */
  function CheckedRunLogs(listing: seq<LogFile>): (r: seq<LogFile>)
    ensures forall f :: f in r <==> f in listing && IsRunLog(f) && RunLogNameMatches(f.name)
  {
    Filter(NameRechecked, RunLogs(listing))
  }

  /** The files read are the run logs of the listing whose names hold no line break. */
  lemma CheckedRunLogsMember(listing: seq<LogFile>, f: LogFile)
    ensures f in CheckedRunLogs(listing) <==>
      f in listing && EndsWith(f.name, "_run.log") && forall k :: 0 <= k < |f.name| ==> f.name[k] != '\n'
  {
    if EndsWith(f.name, "_run.log") {
      RunLogNameMatchesIff(f.name);
    }
  }

  /**
   * The sample-collecting loop with a check on each file (`if not keep(log): continue`):
   * a file that fails it is skipped, every other file contributes what `f` extracts from
   * its lines, in order.
   */
  method GatherKeptSamples<T>(files: seq<LogFile>, keep: LogFile -> bool, f: string -> Option<seq<T>>)
    returns (r: Option<seq<T>>)
    ensures r == Traverse(PerFile(f), Filter(keep, files))
  {
    var samples: seq<T> := [];
    for fi := 0 to |files|
      invariant Traverse(PerFile(f), Filter(keep, files[..fi])) == Some(samples)
    {
      var read := Filter(keep, files[..fi]);
      FilterSnoc(keep, files, fi);
      if !keep(files[fi]) {
        assert read + [] == read;
        continue;
      }
      TraverseAppendOne(PerFile(f), read, files[fi]);
      var v := AppendEach(f, files[fi].lines);
      assert PerFile(f)(files[fi]) == v;
      if v.None? {
        return None;
      }
      samples := samples + v.value;
    }
    assert files[..|files|] == files;
    r := Some(samples);
  }

  /** The grouping loop with a check on each file. */
  method GroupKeptSamples<K(==), V>(files: seq<LogFile>, keep: LogFile -> bool, f: string -> Option<seq<(K, V)>>)
    returns (r: Option<map<K, seq<V>>>)
    ensures r == Grouped(Filter(keep, files), f)
  {
    var groups: map<K, seq<V>> := map[];
    ghost var pairs: seq<(K, V)> := [];
    for fi := 0 to |files|
      invariant Traverse(PerFile(f), Filter(keep, files[..fi])) == Some(pairs)
      invariant groups == Group(pairs)
    {
      var read := Filter(keep, files[..fi]);
      FilterSnoc(keep, files, fi);
      if !keep(files[fi]) {
        assert read + [] == read;
        continue;
      }
      TraverseAppendOne(PerFile(f), read, files[fi]);
      var next := GroupLines(groups, pairs, files[fi].lines, f);
      if next.None? {
        return None;
      }
      pairs := pairs + PerFile(f)(files[fi]).value;
      groups := next.value;
    }
    assert files[..|files|] == files;
    r := Some(groups);
  }
}
