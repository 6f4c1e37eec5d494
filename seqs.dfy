/**
 * Sequence combinators that model Python's "loop over items, append what matches" idiom:
 * every spec function is defined from the END of its input, so that a loop that appends
 * one element per iteration keeps `acc == F(s[..i])` as its invariant.
 */
module Seqs {
  import opened Common

  /** The values `f` yields on the elements of `s`, in order (one per `Some`). */
  function FilterMap<A, B>(f: A -> Option<B>, s: seq<A>): (r: seq<B>)
    ensures |r| <= |s|
    ensures forall y :: y in r ==> exists i :: 0 <= i < |s| && f(s[i]) == Some(y)
  {
    if s == [] then []
    else
      var init := FilterMap(f, s[..|s| - 1]);
      assert forall i :: 0 <= i < |s| - 1 ==> s[..|s| - 1][i] == s[i];
      init + OptionToSeq(f(s[|s| - 1]))
  }

  lemma {:induction false} FilterMapAppend<A, B>(f: A -> Option<B>, a: seq<A>, b: seq<A>)
    ensures FilterMap(f, a + b) == FilterMap(f, a) + FilterMap(f, b)
    decreases |b|
  {
    if b == [] {
      assert a + b == a;
    } else {
      var b' := b[..|b| - 1];
      assert (a + b)[..|a + b| - 1] == a + b';
      FilterMapAppend(f, a, b');
    }
  }

  /** `FilterMap` is empty exactly when `f` yields nothing on every element. */
  lemma {:induction false} FilterMapEmpty<A, B>(f: A -> Option<B>, s: seq<A>)
    ensures FilterMap(f, s) == [] <==> forall i :: 0 <= i < |s| ==> f(s[i]).None?
  {
    if s != [] {
      FilterMapEmpty(f, s[..|s| - 1]);
      assert forall i :: 0 <= i < |s| - 1 ==> s[..|s| - 1][i] == s[i];
    }
  }

  /** The elements of `s` that satisfy `p`, in order. */
  function Filter<T>(p: T -> bool, s: seq<T>): (r: seq<T>)
    ensures |r| <= |s|
    ensures forall x :: x in r ==> x in s && p(x)
    ensures forall x :: x in s && p(x) ==> x in r
  {
    if s == [] then []
    else
      var init := Filter(p, s[..|s| - 1]);
      assert forall x :: x in s ==> x in s[..|s| - 1] || x == s[|s| - 1];
      init + (if p(s[|s| - 1]) then [s[|s| - 1]] else [])
  }

  /**
   * When every element yields one value if it satisfies `p` and none otherwise, the
   * traversal yields exactly as many values as there are elements satisfying `p`.
   */
  lemma {:induction false} TraverseCount<A, B>(f: A -> Option<seq<B>>, p: A -> bool, s: seq<A>)
    requires forall x :: f(x).Some? ==> |f(x).value| == (if p(x) then 1 else 0)
    requires Traverse(f, s).Some?
    ensures |Traverse(f, s).value| == |Filter(p, s)|
  {
    if s != [] {
      var init := s[..|s| - 1];
      assert forall i :: 0 <= i < |init| ==> init[i] == s[i];
      TraverseCount(f, p, init);
    }
  }

  /** One more element: what `if p(x): out.append(x)` does to the accumulated result. */
  lemma FilterSnoc<T>(p: T -> bool, s: seq<T>, i: nat)
    requires i < |s|
    ensures Filter(p, s[..i + 1]) == Filter(p, s[..i]) + (if p(s[i]) then [s[i]] else [])
  {
    assert s[..i + 1][..i] == s[..i];
  }

  lemma {:induction false} FilterMultiset<T>(p: T -> bool, s: seq<T>)
    ensures multiset(Filter(p, s)) <= multiset(s)
  {
    if s != [] {
      FilterMultiset(p, s[..|s| - 1]);
      assert s == s[..|s| - 1] + [s[|s| - 1]];
    }
  }

  /** The values paired with key `k` in `ps`, in order. */
  function ValuesFor<K(==), V>(ps: seq<(K, V)>, k: K): (r: seq<V>)
    ensures |r| <= |ps|
  {
    if ps == [] then []
    else ValuesFor(ps[..|ps| - 1], k) + (if ps[|ps| - 1].0 == k then [ps[|ps| - 1].1] else [])
  }

  lemma {:induction false} ValuesForAbsent<K, V>(ps: seq<(K, V)>, k: K)
    requires forall i :: 0 <= i < |ps| ==> ps[i].0 != k
    ensures ValuesFor(ps, k) == []
  {
    if ps != [] {
      ValuesForAbsent(ps[..|ps| - 1], k);
    }
  }

  /** Python's `d[k].append(v)` on a `defaultdict(list)`. */
  function AddTo<K(==), V>(m: map<K, seq<V>>, k: K, v: V): map<K, seq<V>> {
    m[k := (if k in m then m[k] else []) + [v]]
  }

  /** The dictionary a `defaultdict(list)` holds after appending every pair of `ps` in order. */
  function Group<K(==), V>(ps: seq<(K, V)>): map<K, seq<V>> {
    if ps == [] then map[]
    else AddTo(Group(ps[..|ps| - 1]), ps[|ps| - 1].0, ps[|ps| - 1].1)
  }

  /** Exactly the keys that occur are present, each with its values in order. */
  lemma {:induction false} GroupSpec<K, V>(ps: seq<(K, V)>, k: K)
    ensures k in Group(ps) <==> exists i :: 0 <= i < |ps| && ps[i].0 == k
    ensures k in Group(ps) ==> Group(ps)[k] == ValuesFor(ps, k) != []
  {
    if ps != [] {
      var init := ps[..|ps| - 1];
      assert forall i :: 0 <= i < |init| ==> init[i] == ps[i];
      GroupSpec(init, k);
      if k !in Group(init) {
        ValuesForAbsent(init, k);
      }
    }
  }

  /** The concatenation of the sequences in `ss`, in order. */
  function Flatten<T>(ss: seq<seq<T>>): (r: seq<T>)
    ensures |r| >= (if ss == [] then 0 else |ss[|ss| - 1]|)
  {
    if ss == [] then [] else Flatten(ss[..|ss| - 1]) + ss[|ss| - 1]
  }

  lemma {:induction false} FlattenEmpty<T>(ss: seq<seq<T>>)
    ensures Flatten(ss) == [] <==> forall i :: 0 <= i < |ss| ==> ss[i] == []
  {
    if ss != [] {
      FlattenEmpty(ss[..|ss| - 1]);
      assert forall i :: 0 <= i < |ss| - 1 ==> ss[..|ss| - 1][i] == ss[i];
    }
  }

  lemma {:induction false} FlattenAppend<T>(a: seq<seq<T>>, b: seq<seq<T>>)
    ensures Flatten(a + b) == Flatten(a) + Flatten(b)
    decreases |b|
  {
    if b == [] {
      assert a + b == a;
    } else {
      assert (a + b)[..|a + b| - 1] == a + b[..|b| - 1];
      FlattenAppend(a, b[..|b| - 1]);
    }
  }

  /**
   * `f` applied to every element in order, the results concatenated; `None` as soon as one
   * application fails (a loop that appends what each element yields and stops at the first
   * exception).
   */
  function Traverse<A, B>(f: A -> Option<seq<B>>, s: seq<A>): (r: Option<seq<B>>)
    ensures r.Some? <==> forall i :: 0 <= i < |s| ==> f(s[i]).Some?
  {
    if s == [] then Some([])
    else
      var init := s[..|s| - 1];
      assert forall i :: 0 <= i < |s| - 1 ==> init[i] == s[i];
      match Traverse(f, init)
      case None => None
      case Some(a) =>
        match f(s[|s| - 1])
        case None => None
        case Some(b) => Some(a + b)
  }

  /** One more element: what a loop body does to the accumulated result. */
  lemma TraverseSnoc<A, B>(f: A -> Option<seq<B>>, s: seq<A>, i: nat)
    requires i < |s|
    requires Traverse(f, s[..i]).Some? && f(s[i]).Some?
    ensures Traverse(f, s[..i + 1]) == Some(Traverse(f, s[..i]).value + f(s[i]).value)
  {
    assert s[..i + 1][..i] == s[..i];
  }

  /** One more element at the end: it fails, or it appends what it yields. */
  lemma TraverseAppendOne<A, B>(f: A -> Option<seq<B>>, s: seq<A>, x: A)
    ensures Traverse(f, s + [x]) ==
      if Traverse(f, s).Some? && f(x).Some? then Some(Traverse(f, s).value + f(x).value) else None
  {
    assert (s + [x])[..|s|] == s;
  }

  /** When every element yields at most one value, the result has at most one per element. */
  lemma {:induction false} TraverseAtMostOne<A, B>(f: A -> Option<seq<B>>, s: seq<A>)
    requires forall i :: 0 <= i < |s| ==> f(s[i]).Some? ==> |f(s[i]).value| <= 1
    requires Traverse(f, s).Some?
    ensures |Traverse(f, s).value| <= |s|
  {
    if s != [] {
      var init := s[..|s| - 1];
      assert forall i :: 0 <= i < |s| - 1 ==> init[i] == s[i];
      TraverseAtMostOne(f, init);
    }
  }

  lemma FilterMapSnoc<A, B>(f: A -> Option<B>, s: seq<A>, i: nat)
    requires i < |s|
    ensures FilterMap(f, s[..i + 1]) == FilterMap(f, s[..i]) + OptionToSeq(f(s[i]))
  {
    assert s[..i + 1][..i] == s[..i];
  }

  lemma GroupSnoc<K, V>(ps: seq<(K, V)>, p: (K, V))
    ensures Group(ps + [p]) == AddTo(Group(ps), p.0, p.1)
  {
    assert (ps + [p])[..|ps|] == ps;
  }

  /** `y` is in the result exactly when some element yields it. */
  lemma {:induction false} TraverseMember<A, B>(f: A -> Option<seq<B>>, s: seq<A>, y: B)
    requires Traverse(f, s).Some?
    ensures y in Traverse(f, s).value <==> exists i :: 0 <= i < |s| && f(s[i]).Some? && y in f(s[i]).value
  {
    if s != [] {
      var init := s[..|s| - 1];
      assert forall i :: 0 <= i < |init| ==> init[i] == s[i];
      TraverseMember(f, init, y);
      if y in f(s[|s| - 1]).value {
        assert f(s[|s| - 1]).Some? && y in f(s[|s| - 1]).value;
      }
    }
  }

  /** Two functions that agree on every element traverse alike. */
  lemma {:induction false} TraverseCongruent<A, B>(f: A -> Option<seq<B>>, g: A -> Option<seq<B>>, s: seq<A>)
    requires forall i :: 0 <= i < |s| ==> f(s[i]) == g(s[i])
    ensures Traverse(f, s) == Traverse(g, s)
  {
    if s != [] {
      var init := s[..|s| - 1];
      assert forall i :: 0 <= i < |init| ==> init[i] == s[i];
      TraverseCongruent(f, g, init);
    }
  }

  /** The loop `for x in s: out += f(x)` that stops at the first exception. */
  method AppendEach<A, B>(f: A -> Option<seq<B>>, s: seq<A>) returns (r: Option<seq<B>>)
    ensures r == Traverse(f, s)
  {
    var acc: seq<B> := [];
    for i := 0 to |s|
      invariant Traverse(f, s[..i]) == Some(acc)
    {
      var v := f(s[i]);
      if v.None? {
        return None;
      }
      TraverseSnoc(f, s, i);
      acc := acc + v.value;
    }
    assert s[..|s|] == s;
    return Some(acc);
  }

  function MapSeq<A, B>(h: A -> B, s: seq<A>): (r: seq<B>)
    ensures |r| == |s|
    ensures forall i :: 0 <= i < |s| ==> r[i] == h(s[i])
  {
    seq(|s|, i requires 0 <= i < |s| => h(s[i]))
  }

  /**
   * Post-processing every value each element yields (`h`) commutes with the traversal: the
   * same elements fail, and the values come out transformed, in the same order.
   */
  lemma {:induction false} TraverseMapped<A, B, C>(f: A -> Option<seq<B>>, g: A -> Option<seq<C>>, h: B -> C, s: seq<A>)
    requires forall a :: g(a).Some? == f(a).Some?
    requires forall a :: f(a).Some? ==> g(a).value == MapSeq(h, f(a).value)
    ensures Traverse(g, s).Some? == Traverse(f, s).Some?
    ensures Traverse(f, s).Some? ==> Traverse(g, s).value == MapSeq(h, Traverse(f, s).value)
  {
    if s != [] {
      var init := s[..|s| - 1];
      TraverseMapped(f, g, h, init);
      if Traverse(f, s).Some? {
        var a, b := Traverse(f, init).value, f(s[|s| - 1]).value;
        assert MapSeq(h, a + b) == MapSeq(h, a) + MapSeq(h, b);
      }
    }
  }

  /** `y` is kept exactly when some element yields it. */
  lemma {:induction false} FilterMapMember<A, B>(f: A -> Option<B>, s: seq<A>, y: B)
    ensures y in FilterMap(f, s) <==> exists i :: 0 <= i < |s| && f(s[i]) == Some(y)
  {
    if s != [] {
      var init := s[..|s| - 1];
      assert forall i :: 0 <= i < |init| ==> init[i] == s[i];
      FilterMapMember(f, init, y);
      if f(s[|s| - 1]) == Some(y) {
        assert y in OptionToSeq(f(s[|s| - 1]));
      }
    }
  }

  /**
   * The value a variable holds after `for x in s: if f(x) is not None: v = f(x)` starting
   * from `None`: what the last element with a value yields.
   */
  function LastSome<A, B>(f: A -> Option<B>, s: seq<A>): (r: Option<B>)
    ensures r.None? <==> forall i :: 0 <= i < |s| ==> f(s[i]).None?
    ensures r.Some? ==> exists i :: (0 <= i < |s| && f(s[i]) == r
      && forall j :: i < j < |s| ==> f(s[j]).None?)
  {
    if s == [] then None
    else
      var init := s[..|s| - 1];
      assert forall i :: 0 <= i < |init| ==> init[i] == s[i];
      if f(s[|s| - 1]).Some? then f(s[|s| - 1]) else LastSome(f, init)
  }

  lemma LastSomeSnoc<A, B>(f: A -> Option<B>, s: seq<A>, i: nat)
    requires i < |s|
    ensures LastSome(f, s[..i + 1]) == if f(s[i]).Some? then f(s[i]) else LastSome(f, s[..i])
  {
    assert s[..i + 1][..i] == s[..i];
  }
}
