/**
 * Text primitives of Python's `re` module and of `str`, written out as functions over
 * `string`. A regular expression of the scripts is modelled by a matcher
 * `(s, i) -> Option<...>` that tries the pattern at position `i` and follows the order in
 * which Python's backtracking engine tries alternatives; `Search` then returns the match at
 * the leftmost position, as `pattern.search(s)` does.
 */
module Text {
  import opened Common

  /** `[0-9]`, and `\d` on the ASCII digits. */
  predicate IsDigit(c: char) {
    '0' <= c <= '9'
  }

  /** `[0-9.]`. */
  predicate IsNumChar(c: char) {
    IsDigit(c) || c == '.'
  }

  /**
   * `\s` of a `str` pattern, and what `str.strip()` removes: the code points for which
   * Python's `str.isspace()` holds.
   */
  predicate IsSpace(c: char) {
    var n := c as int;
    (9 <= n <= 13) || (28 <= n <= 32) || n == 0x85 || n == 0xA0 || n == 0x1680
    || (0x2000 <= n <= 0x200A) || n == 0x2028 || n == 0x2029 || n == 0x202F
    || n == 0x205F || n == 0x3000
  }

  /** The character classes the patterns repeat with `+` or `*`. */
  datatype CharClass = Digit | NumChar | Space | NonSpace

  predicate In(c: char, cls: CharClass) {
    match cls
    case Digit => IsDigit(c)
    case NumChar => IsNumChar(c)
    case Space => IsSpace(c)
    case NonSpace => !IsSpace(c)
  }

  predicate AllIn(s: string, cls: CharClass) {
    forall k :: 0 <= k < |s| ==> In(s[k], cls)
  }

  predicate StartsWith(s: string, prefix: string) {
    |prefix| <= |s| && s[..|prefix|] == prefix
  }

  /** `lit` occurs in `s` at position `i`. */
  predicate LitAt(s: string, i: nat, lit: string) {
    i + |lit| <= |s| && s[i..i + |lit|] == lit
  }

  predicate EndsWith(s: string, suffix: string) {
    |suffix| <= |s| && s[|s| - |suffix|..] == suffix
  }

  /** The end of the longest run of `cls` characters that starts at `i`. */
  function RunEnd(s: string, i: nat, cls: CharClass): (j: nat)
    requires i <= |s|
    ensures i <= j <= |s|
    ensures forall k :: i <= k < j ==> In(s[k], cls)
    ensures j == |s| || !In(s[j], cls)
    decreases |s| - i
  {
    if i < |s| && In(s[i], cls) then RunEnd(s, i + 1, cls) else i
  }

  /** A literal at `i`; yields the position after it. */
  function Lit(s: string, i: nat, lit: string): Option<nat> {
    if i + |lit| <= |s| && s[i..i + |lit|] == lit then Some(i + |lit|) else None
  }

  /** A literal matches piecewise: `ab` at `i` is `a` at `i`, then `b` where `a` ends. */
  lemma LitConcat(s: string, i: nat, a: string, b: string)
    ensures Lit(s, i, a + b) == match Lit(s, i, a) case Some(j) => Lit(s, j, b) case None => None
  {
    var n := |a| + |b|;
    if i + n <= |s| {
      assert s[i..i + n] == s[i..i + |a|] + s[i + |a|..i + n];
      if s[i..i + n] == a + b {
        assert s[i..i + |a|] == (a + b)[..|a|] == a;
        assert s[i + |a|..i + n] == (a + b)[|a|..] == b;
      }
    } else if i + |a| <= |s| && s[i..i + |a|] == a {
      assert i + |a| + |b| > |s|;
    }
  }

  /** `cls+` at `i`, greedy; yields the end of the maximal run. */
  function Run1(s: string, i: nat, cls: CharClass): (r: Option<nat>)
    ensures r.Some? <==> i < |s| && In(s[i], cls)
    ensures r.Some? ==> i < r.value <= |s| && AllIn(s[i..r.value], cls)
    ensures r.Some? ==> r.value == |s| || !In(s[r.value], cls)
  {
    if i < |s| && In(s[i], cls) then
      var j := RunEnd(s, i, cls);
      assert forall k :: 0 <= k < j - i ==> s[i..j][k] == s[i + k];
      Some(j)
    else None
  }

  /** On text that starts with a run `t` of `cls` not followed by `cls`, `cls+` reads `t`. */
  lemma Run1Reads(s: string, i: nat, cls: CharClass, t: string, rest: string)
    requires i <= |s| && s[i..] == t + rest
    requires t != [] && AllIn(t, cls) && (rest == [] || !In(rest[0], cls))
    ensures Run1(s, i, cls) == Some(i + |t|) && s[i..i + |t|] == t
  {
    assert forall j :: 0 <= j < |t| + |rest| ==> s[i + j] == (t + rest)[j];
    assert s[i] == t[0];
    assert s[i..i + |t|] == (t + rest)[..|t|];
  }

  /** Past a known prefix of the text at `i`, the rest of it follows. */
  lemma DropPrefix(s: string, i: nat, x: string, y: string)
    requires i <= |s| && s[i..] == x + y
    ensures i + |x| <= |s| && s[i + |x|..] == y
  {
    assert s[i + |x|..] == s[i..][|x|..];
  }

  /** On text that starts with `lit`, the literal matches. */
  lemma LitReads(s: string, i: nat, lit: string, rest: string)
    requires i <= |s| && s[i..] == lit + rest
    ensures Lit(s, i, lit) == Some(i + |lit|)
  {
    assert s[i..i + |lit|] == (lit + rest)[..|lit|];
  }

  /** `key(cls+)` at `i`: the captured run and the position after it. */
  function Capture(s: string, i: nat, key: string, cls: CharClass): (r: Option<(string, nat)>)
    ensures r.Some? ==> LitAt(s, i, key) && i + |key| < r.value.1 <= |s|
    ensures r.Some? ==> r.value.0 == s[i + |key|..r.value.1] && AllIn(r.value.0, cls)
    ensures r.Some? ==> r.value.1 == |s| || !In(s[r.value.1], cls)
  {
    var j :- Lit(s, i, key);
    var k :- Run1(s, j, cls);
    Some((s[j..k], k))
  }

  /** On text that starts with `key` and a run `v` of `cls` not followed by `cls`, the capture reads `v`. */
  lemma CaptureReads(s: string, i: nat, key: string, cls: CharClass, v: string, rest: string)
    requires i <= |s| && s[i..] == key + (v + rest)
    requires v != [] && AllIn(v, cls) && (rest == [] || !In(rest[0], cls))
    ensures Capture(s, i, key, cls) == Some((v, i + |key| + |v|))
    ensures s[i + |key| + |v|..] == rest
  {
    LitReads(s, i, key, v + rest);
    DropPrefix(s, i, key, v + rest);
    Run1Reads(s, i + |key|, cls, v, rest);
    DropPrefix(s, i + |key|, v, rest);
    CaptureChain(s, i, key, cls, i + |key|, i + |key| + |v|);
  }

  /** The capture from the literal's end and the run's end. */
  lemma CaptureChain(s: string, i: nat, key: string, cls: CharClass, j: nat, k: nat)
    requires Lit(s, i, key) == Some(j) && j <= k <= |s| && Run1(s, j, cls) == Some(k)
    ensures Capture(s, i, key, cls) == Some((s[j..k], k))
  {
  }

  /** `\s+` on text that starts with one blank and then no white space reads that blank. */
  lemma BlankReads(s: string, i: nat, rest: string)
    requires i <= |s| && s[i..] == " " + rest
    requires rest == [] || !IsSpace(rest[0])
    ensures Run1(s, i, Space) == Some(i + 1) && s[i + 1..] == rest
  {
    Run1Reads(s, i, Space, " ", rest);
    DropPrefix(s, i, " ", rest);
  }

  /**
   * A literal whose last character occurs nowhere else in it does not occur again after
   * an occurrence at `p`, when the text after that occurrence consists of a `gap` without
   * the literal's first character and then a `rest` in which the literal does not occur.
   */
  lemma LitNotAfter(s: string, p: nat, lit: string, gap: string, rest: string, q: nat)
    requires p <= |s| && s[p..] == lit + (gap + rest)
    requires lit != [] && forall k :: 0 <= k < |lit| - 1 ==> lit[k] != lit[|lit| - 1]
    requires forall k :: 0 <= k < |gap| ==> gap[k] != lit[0]
    requires forall k :: 0 <= k < |rest| ==> !LitAt(rest, k, lit)
    requires p < q
    ensures !LitAt(s, q, lit)
  {
    var n := |lit|;
    DropPrefix(s, p, lit, gap + rest);
    DropPrefix(s, p + n, gap, rest);
    if q + n <= |s| {
      if q < p + n {
        var k := p + n - 1 - q;
        assert s[q..q + n][k] == s[p + n - 1] == s[p..][n - 1] == lit[n - 1] != lit[k];
      } else if q < p + n + |gap| {
        assert s[q..q + n][0] == s[p + n..][q - p - n] == gap[q - p - n] != lit[0];
      } else {
        var k := q - p - n - |gap|;
        assert !LitAt(rest, k, lit);
        assert s[q..q + n] == rest[k..k + n];
      }
    }
  }

  /** Exactly `n` characters of `cls` at `i` (`\d{n}`). */
  function Exactly(s: string, i: nat, n: nat, cls: CharClass): Option<nat> {
    if i + n <= |s| && AllIn(s[i..i + n], cls) then Some(i + n) else None
  }

  /** `cls{m+n}` at `i` is `cls{m}` followed by `cls{n}`. */
  lemma ExactlySplit(s: string, i: nat, m: nat, n: nat, cls: CharClass)
    ensures Exactly(s, i, m + n, cls) == match Exactly(s, i, m, cls) case Some(j) => Exactly(s, j, n, cls) case None => None
  {
    if i + m + n <= |s| {
      var whole, left, right := s[i..i + m + n], s[i..i + m], s[i + m..i + m + n];
      assert whole == left + right;
      assert forall k :: 0 <= k < |left| ==> left[k] == whole[k];
      assert forall k :: 0 <= k < |right| ==> right[k] == whole[m + k];
    }
  }

  /** The first line break at or after `i` (or the end): how far `.` can reach. */
  function LineEnd(s: string, i: nat): (j: nat)
    requires i <= |s|
    ensures i <= j <= |s|
    ensures forall k :: i <= k < j ==> s[k] != '\n'
    ensures j == |s| || s[j] == '\n'
    decreases |s| - i
  {
    if i < |s| && s[i] != '\n' then LineEnd(s, i + 1) else i
  }

  /** `pattern.search(s)` from position `i` on: the match at the leftmost position. */
  function SearchFrom<T>(m: (string, nat) -> Option<T>, s: string, i: nat): (r: Option<T>)
    requires i <= |s|
    ensures r.Some? ==> exists j :: i <= j <= |s| && m(s, j) == r && forall k :: i <= k < j ==> m(s, k).None?
    ensures r.None? <==> forall j :: i <= j <= |s| ==> m(s, j).None?
    decreases |s| - i
  {
    if m(s, i).Some? then m(s, i)
    else if i == |s| then None
    else SearchFrom(m, s, i + 1)
  }

  function Search<T>(m: (string, nat) -> Option<T>, s: string): Option<T> {
    SearchFrom(m, s, 0)
  }

  /** The leftmost position where `m` matches decides what `Search` returns. */
  lemma {:induction false} SearchLeftmost<T>(m: (string, nat) -> Option<T>, s: string, i: nat, j: nat)
    requires i <= j <= |s|
    requires m(s, j).Some?
    requires forall k :: i <= k < j ==> m(s, k).None?
    ensures SearchFrom(m, s, i) == m(s, j)
    decreases j - i
  {
    if i < j {
      SearchLeftmost(m, s, i + 1, j);
    }
  }

  /**
   * `.*?` followed by the pattern `m`: the nearest position at or after `i` where `m`
   * matches, reached without crossing a line break.
   */
  function Lazy<T>(m: (string, nat) -> Option<T>, s: string, i: nat): (r: Option<T>)
    requires i <= |s|
    ensures r.Some? ==> exists p :: i <= p <= LineEnd(s, i) && m(s, p) == r && forall q :: i <= q < p ==> m(s, q).None?
    ensures r.None? <==> forall p :: i <= p <= LineEnd(s, i) ==> m(s, p).None?
    decreases |s| - i
  {
    if m(s, i).Some? then m(s, i)
    else if i == |s| || s[i] == '\n' then None
    else Lazy(m, s, i + 1)
  }

  /** The first position where `m` matches, with no line break before it, decides `Lazy`. */
  lemma {:induction false} LazyFirst<T>(m: (string, nat) -> Option<T>, s: string, i: nat, p: nat)
    requires i <= p <= |s|
    requires m(s, p).Some?
    requires forall q :: i <= q < p ==> m(s, q).None? && s[q] != '\n'
    ensures Lazy(m, s, i) == m(s, p)
    decreases p - i
  {
    if i < p {
      LazyFirst(m, s, i + 1, p);
    }
  }

  function GreedyFrom<T>(m: (string, nat) -> Option<T>, s: string, lo: nat, p: nat): (r: Option<T>)
    requires lo <= p <= |s|
    ensures r.Some? ==> exists q :: lo <= q <= p && m(s, q) == r && forall q' :: q < q' <= p ==> m(s, q').None?
    ensures r.None? <==> forall q :: lo <= q <= p ==> m(s, q).None?
    decreases p
  {
    if m(s, p).Some? then m(s, p)
    else if p == lo then None
    else GreedyFrom(m, s, lo, p - 1)
  }

  /**
   * `.*` followed by the pattern `m`: the farthest position at or after `lo`, before the
   * next line break, where `m` matches (the greedy star gives back characters one by one).
   */
  function Greedy<T>(m: (string, nat) -> Option<T>, s: string, lo: nat): Option<T>
    requires lo <= |s|
  {
    GreedyFrom(m, s, lo, LineEnd(s, lo))
  }

  lemma {:induction false} GreedyLast<T>(m: (string, nat) -> Option<T>, s: string, lo: nat, hi: nat, p: nat)
    requires lo <= p <= hi <= |s|
    requires m(s, p).Some?
    requires forall q :: p < q <= hi ==> m(s, q).None?
    ensures GreedyFrom(m, s, lo, hi) == m(s, p)
    decreases hi - p
  {
    if p < hi {
      GreedyLast(m, s, lo, hi - 1, p);
    }
  }

  /** `key([0-9.]+)` at `i`: the captured token. */
  function FieldAt(s: string, i: nat, key: string): (r: Option<string>)
    ensures r.Some? ==> r.value != [] && AllIn(r.value, NumChar)
  {
    var j :- Lit(s, i, key);
    var k :- Run1(s, j, NumChar);
    Some(s[j..k])
  }

  function Field(key: string): (string, nat) -> Option<string> {
    (s: string, i: nat) => FieldAt(s, i, key)
  }

  /** `re.compile(key + r"([0-9.]+)").search(s)`, group 1. */
  function SearchField(s: string, key: string): Option<string> {
    Search(Field(key), s)
  }

  /** The end of `\d+\.?\d*` at `i`. */
  function DecimalEnd(s: string, i: nat): (r: Option<nat>)
    ensures r.Some? <==> i < |s| && IsDigit(s[i])
    ensures r.Some? ==> i < r.value <= |s| && AllIn(s[i..r.value], NumChar) && WellFormedDecimal(s[i..r.value])
  {
    var j :- Run1(s, i, Digit);
    var t := s[i..j];
    assert IsDigit(t[0]);
    if j < |s| && s[j] == '.' then
      var k := RunEnd(s, j + 1, Digit);
      var u := s[i..k];
      assert forall x :: 0 <= x < |u| ==> u[x] == s[i + x];
      assert forall x, y :: 0 <= x < y < |u| && u[x] == '.' ==> x == j - i && u[y] != '.';
      Some(k)
    else
      assert forall x :: 0 <= x < |t| ==> t[x] == s[i + x];
      Some(j)
  }

  /** The number `float()` gives for a token `\d+\.?\d*` matched at `i`. */
  function DecimalValue(s: string, i: nat, j: nat): real
    requires i < j <= |s| && AllIn(s[i..j], NumChar) && WellFormedDecimal(s[i..j])
  {
    ParseDecimal(s[i..j]).value
  }

  /** `key(\d+\.?\d*)` at `i`, the captured number converted by `float()`. */
  function DecimalFieldAt(s: string, i: nat, key: string): (r: Option<real>)
    ensures r.Some? ==> r.value >= 0.0
  {
    var j :- Lit(s, i, key);
    var k :- DecimalEnd(s, j);
    Some(DecimalValue(s, j, k))
  }

  // ---------------------------------------------------------------------------------
  // Numbers as text

  function DigitValue(c: char): nat
    requires IsDigit(c)
  {
    (c as int) - ('0' as int)
  }

  function DigitChar(d: nat): (c: char)
    requires d < 10
    ensures IsDigit(c) && DigitValue(c) == d
  {
    ('0' as int + d) as char
  }

  /** `int(s)` of a string of ASCII digits. */
  function DigitsValue(s: string): nat
    requires AllIn(s, Digit)
  {
    if s == [] then 0 else DigitsValue(s[..|s| - 1]) * 10 + DigitValue(s[|s| - 1])
  }

  /** Python's `str(n)` and Rust's `n.to_string()`: decimal, no leading zero. */
  function NatToString(n: nat): (r: string)
    ensures r != [] && AllIn(r, Digit)
    ensures DigitsValue(r) == n
    ensures r[0] == '0' ==> r == "0"
  {
    if n < 10 then [DigitChar(n)]
    else
      var init := NatToString(n / 10);
      var r := init + [DigitChar(n % 10)];
      assert r[..|r| - 1] == init;
      r
  }

  lemma NatToStringInjective(m: nat, n: nat)
    requires NatToString(m) == NatToString(n)
    ensures m == n
  {
  }

  /** `str.strip()`: leading and trailing white space removed. */
  function Strip(s: string): (r: string)
    ensures exists a, b :: 0 <= a <= b <= |s| && r == s[a..b] && AllIn(s[..a], Space) && AllIn(s[b..], Space)
    ensures r == [] || (!IsSpace(r[0]) && !IsSpace(r[|r| - 1]))
  {
    var a := RunEnd(s, 0, Space);
    var b := TrimEnd(s, a, |s|);
    assert AllIn(s[..a], Space) by {
      assert forall k :: 0 <= k < a ==> s[..a][k] == s[k];
    }
    assert AllIn(s[b..], Space) by {
      assert forall k :: 0 <= k < |s| - b ==> s[b..][k] == s[b + k];
    }
    s[a..b]
  }

  /** The end of `s[lo..hi]` once its trailing white space is dropped. */
  function TrimEnd(s: string, lo: nat, hi: nat): (b: nat)
    requires lo <= hi <= |s|
    requires lo < |s| ==> !IsSpace(s[lo])
    requires forall k :: hi <= k < |s| ==> IsSpace(s[k])
    ensures lo <= b <= hi
    ensures forall k :: b <= k < |s| ==> IsSpace(s[k])
    ensures b > lo ==> !IsSpace(s[b - 1])
    ensures b == lo ==> lo == |s|
    decreases hi
  {
    if hi > lo && IsSpace(s[hi - 1]) then TrimEnd(s, lo, hi - 1)
    else hi
  }

  /** A `[0-9.]+` token that `float()` accepts: at most one dot and at least one digit. */
  ghost predicate WellFormedDecimal(t: string) {
    && AllIn(t, NumChar)
    && (forall i, j :: 0 <= i < j < |t| ==> !(t[i] == '.' && t[j] == '.'))
    && (exists k :: 0 <= k < |t| && IsDigit(t[k]))
  }

  function Pow10(n: nat): (r: nat)
    ensures r >= 1
  {
    if n == 0 then 1 else 10 * Pow10(n - 1)
  }

  /** The number `whole.frac` spells. */
  function PointValue(whole: string, frac: string): (r: real)
    requires AllIn(whole, Digit) && AllIn(frac, Digit)
    ensures r >= 0.0
  {
    DigitsValue(whole) as real + DigitsValue(frac) as real / Pow10(|frac|) as real
  }

  /**
   * `float(t)` for a token captured by `[0-9.]+`, as an exact number; `None` where
   * `float` raises `ValueError` ("1.2.3", ".").
   */
  function ParseDecimal(t: string): (r: Option<real>)
    requires AllIn(t, NumChar)
    ensures r.Some? <==> WellFormedDecimal(t)
    ensures r.Some? ==> r.value >= 0.0
  {
    var d := RunEnd(t, 0, Digit);
    assert AllIn(t[..d], Digit) by {
      assert forall k :: 0 <= k < d ==> t[..d][k] == t[k];
    }
    if d == |t| then
      assert t[..d] == t;
      if d == 0 then None else Some(DigitsValue(t) as real)
    else
      assert t[d] == '.';
      var frac := t[d + 1..];
      if !AllIn(frac, Digit) then
        var j :| 0 <= j < |frac| && !IsDigit(frac[j]);
        assert t[d + 1 + j] == '.';
        None
      else if d == 0 && frac == [] then
        assert t == ".";
        None
      else
        assert forall i, j :: 0 <= i < j < |t| && t[i] == '.' ==> i == d && t[j] != '.' by {
          forall i, j | 0 <= i < j < |t| && t[i] == '.'
            ensures i == d && t[j] != '.'
          {
            assert !(i < d);
            assert t[j] == frac[j - d - 1];
          }
        }
        assert d > 0 ==> IsDigit(t[0]);
        assert d == 0 ==> IsDigit(t[d + 1]) by {
          if d == 0 {
            assert frac[0] == t[1];
          }
        }
        Some(PointValue(t[..d], frac))
  }

  /** A whole part, a point and a fraction part read back as the number they spell. */
  lemma ParseDecimalReads(whole: string, frac: string)
    requires whole != [] && AllIn(whole, Digit) && AllIn(frac, Digit)
    ensures AllIn(whole + "." + frac, NumChar)
    ensures ParseDecimal(whole + "." + frac) == Some(PointValue(whole, frac))
  {
    var t := whole + "." + frac;
    assert t[..|whole|] == whole;
    assert t[|whole| + 1..] == frac;
    assert forall k :: 0 <= k < |whole| ==> t[k] == whole[k];
    assert t[|whole|] == '.';
    ParseDecimalAt(t, |whole|);
  }

  /** A token that is digits, a point and digits reads as whole part plus fraction. */
  lemma ParseDecimalAt(t: string, d: nat)
    requires 0 < d < |t| && AllIn(t[..d], Digit) && t[d] == '.' && AllIn(t[d + 1..], Digit)
    requires forall k :: 0 <= k < d ==> IsDigit(t[k])
    ensures AllIn(t, NumChar)
    ensures ParseDecimal(t) == Some(PointValue(t[..d], t[d + 1..]))
  {
    assert forall k :: d < k < |t| ==> t[k] == t[d + 1..][k - d - 1];
    assert RunEnd(t, 0, Digit) == d;
  }

  lemma ParseDecimalOfNat(n: nat)
    ensures AllIn(NatToString(n), NumChar)
    ensures ParseDecimal(NatToString(n)) == Some(n as real)
  {
    var t := NatToString(n);
    assert RunEnd(t, 0, Digit) == |t|;
  }
}
