/**
 * The `RUNTIMES` tables of the analyses: runtime name to log directory, in declaration
 * order, and the `data` dictionary `main` builds from them, which keeps a runtime only when
 * its directory yields something.
 */
module RuntimeTable {
  import opened Common
  import opened Seqs

  /** Runtime names paired with their directories, in declaration order. */
  type Table = seq<(string, string)>

  predicate DistinctNames(table: Table) {
    forall i, j :: 0 <= i < j < |table| ==> table[i].0 != table[j].0
  }

  /**
   * What one runtime adds to `data`: nothing when its directory yields nothing, the pair
   * otherwise; `None` when loading raised.
   */
  function Entry<V(==)>(load: string -> Option<V>, none: V, rt: (string, string)): (r: Option<seq<(string, V)>>)
    ensures r.Some? <==> load(rt.1).Some?
    ensures r.Some? ==> |r.value| <= 1
  {
    var v :- load(rt.1);
    Some(if v == none then [] else [(rt.0, v)])
  }

  function EntryOf<V(==)>(load: string -> Option<V>, none: V): ((string, string)) -> Option<seq<(string, V)>> {
    (rt: (string, string)) => Entry(load, none, rt)
  }

  /** `data` after the loop over the table. */
  function Collected<V(==)>(load: string -> Option<V>, none: V, table: Table): Option<seq<(string, V)>> {
    Traverse(EntryOf(load, none), table)
  }

  /**
   * `data` holds a runtime exactly when loading its directory yields a non-empty result,
   * and then holds that result.
   */
  lemma CollectedMember<V>(load: string -> Option<V>, none: V, table: Table, e: (string, V))
    requires Collected(load, none, table).Some?
    ensures e in Collected(load, none, table).value <==>
      exists i :: 0 <= i < |table| && table[i].0 == e.0 && load(table[i].1) == Some(e.1) && e.1 != none
  {
    TraverseMember(EntryOf(load, none), table, e);
  }

  /** With distinct names, a runtime whose directory yields nothing is not a key of `data`. */
  lemma CollectedAbsent<V>(load: string -> Option<V>, none: V, table: Table, j: nat)
    requires DistinctNames(table)
    requires j < |table| && load(table[j].1) == Some(none)
    requires Collected(load, none, table).Some?
    ensures forall e :: e in Collected(load, none, table).value ==> e.0 != table[j].0
  {
    forall e | e in Collected(load, none, table).value ensures e.0 != table[j].0 {
      CollectedMember(load, none, table, e);
      var i :| 0 <= i < |table| && table[i].0 == e.0 && load(table[i].1) == Some(e.1) && e.1 != none;
      assert i != j;
    }
  }

  /** `data` is empty exactly when every directory yields nothing. */
  lemma CollectedEmpty<V>(load: string -> Option<V>, none: V, table: Table)
    requires Collected(load, none, table).Some?
    ensures Collected(load, none, table).value == [] <==> forall i :: 0 <= i < |table| ==> load(table[i].1) == Some(none)
  {
    var data := Collected(load, none, table).value;
    if data == [] {
      forall i | 0 <= i < |table| ensures load(table[i].1) == Some(none) {
        assert EntryOf(load, none)(table[i]).Some?;
        var v := load(table[i].1).value;
        CollectedMember(load, none, table, (table[i].0, v));
      }
    } else {
      CollectedMember(load, none, table, data[0]);
    }
  }

  /** Loading fails for some runtime exactly when building `data` fails. */
  lemma CollectedFails<V>(load: string -> Option<V>, none: V, table: Table)
    ensures Collected(load, none, table).None? <==> exists i :: 0 <= i < |table| && load(table[i].1).None?
  {
    if exists i :: 0 <= i < |table| && load(table[i].1).None? {
      var i :| 0 <= i < |table| && load(table[i].1).None?;
      assert EntryOf(load, none)(table[i]).None?;
    }
  }

  /** `data` after the loop has visited the first `i` runtimes. */
  ghost predicate CollectedUpTo<V>(load: string -> Option<V>, none: V, table: Table, i: nat, data: seq<(string, V)>)
    requires i <= |table|
  {
    Traverse(EntryOf(load, none), table[..i]) == Some(data)
  }

  /** A runtime whose loading raises makes the whole loop raise. */
  lemma CollectFails<V>(load: string -> Option<V>, none: V, table: Table, i: nat)
    requires i < |table| && load(table[i].1).None?
    ensures Collected(load, none, table).None?
  {
    assert EntryOf(load, none)(table[i]).None?;
  }

  /** One more runtime: its pair is added exactly when its directory yields something. */
  lemma CollectStep<V>(load: string -> Option<V>, none: V, table: Table, i: nat, data: seq<(string, V)>, v: V)
    requires i < |table| && CollectedUpTo(load, none, table, i, data) && load(table[i].1) == Some(v)
    ensures CollectedUpTo(load, none, table, i + 1, if v == none then data else data + [(table[i].0, v)])
  {
    assert EntryOf(load, none)(table[i]) == Some(if v == none then [] else [(table[i].0, v)]);
    TraverseSnoc(EntryOf(load, none), table, i);
    assert data + [] == data;
  }

  lemma CollectDone<V>(load: string -> Option<V>, none: V, table: Table, data: seq<(string, V)>)
    requires CollectedUpTo(load, none, table, |table|, data)
    ensures Collected(load, none, table) == Some(data)
  {
    assert table[..|table|] == table;
  }
}
