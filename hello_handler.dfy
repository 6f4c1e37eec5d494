/**
 * The request routing the two http-hello servers share: a path that starts with `/state`
 * adds one to a 64-bit counter and answers the new value in decimal; any other path
 * answers `hello` and leaves the counter alone. The counter wraps at 2^64, as an unsigned
 * 64-bit add does in a release build.
 */
module HelloHandler {
  import opened Text

  const Modulus: nat := 0x1_0000_0000_0000_0000

  const StatePrefix: string := "/state"

  /** `path.starts_with("/state")`. */
  predicate IsStateRoute(path: string) {
    StartsWith(path, StatePrefix)
  }

  /** The test is on the prefix only: `/stateful` and `/state?x=1` are state routes too. */
  lemma StateRouteIsPrefix(path: string)
    ensures IsStateRoute(path) <==> exists rest :: path == StatePrefix + rest
  {
    if IsStateRoute(path) {
      assert path == StatePrefix + path[|StatePrefix|..];
    }
    if exists rest :: path == StatePrefix + rest {
      var rest :| path == StatePrefix + rest;
      assert path[..|StatePrefix|] == StatePrefix;
    }
  }

  /** The counter after one state request. */
  function Increment(counter: nat): (r: nat)
    requires counter < Modulus
    ensures r < Modulus
    ensures counter + 1 < Modulus ==> r == counter + 1
    ensures counter + 1 == Modulus ==> r == 0
  {
    (counter + 1) % Modulus
  }

  /** The body one request gets and the counter after it. */
  datatype Reply = Reply(body: string, counter: nat)

  function Step(counter: nat, path: string): (r: Reply)
    requires counter < Modulus
    ensures r.counter < Modulus
    ensures IsStateRoute(path) ==> r.counter == Increment(counter)
    ensures IsStateRoute(path) ==> r.body != [] && AllIn(r.body, Digit) && DigitsValue(r.body) == r.counter
    ensures !IsStateRoute(path) ==> r == Reply("hello", counter)
  {
    if IsStateRoute(path) then
      var next := Increment(counter);
      Reply(NatToString(next), next)
    else Reply("hello", counter)
  }

  /** The counter after serving `paths` in order. */
  function CounterAfter(counter: nat, paths: seq<string>): (r: nat)
    requires counter < Modulus
    ensures r < Modulus
  {
    if paths == [] then counter
    else Step(CounterAfter(counter, paths[..|paths| - 1]), paths[|paths| - 1]).counter
  }

  /** The bodies of the replies to `paths`, in order. */
  function Bodies(counter: nat, paths: seq<string>): (r: seq<string>)
    requires counter < Modulus
    ensures |r| == |paths|
  {
    if paths == [] then []
    else
      var init := paths[..|paths| - 1];
      Bodies(counter, init) + [Step(CounterAfter(counter, init), paths[|paths| - 1]).body]
  }

  /** How many of `paths` are state routes. */
  function StateCount(paths: seq<string>): (n: nat)
    ensures n <= |paths|
  {
    if paths == [] then 0
    else StateCount(paths[..|paths| - 1]) + (if IsStateRoute(paths[|paths| - 1]) then 1 else 0)
  }

  lemma ModSucc(x: nat)
    ensures (x % Modulus + 1) % Modulus == (x + 1) % Modulus
  {
    var q, r := x / Modulus, x % Modulus;
    assert x == q * Modulus + r;
    if r + 1 == Modulus {
      assert x + 1 == (q + 1) * Modulus;
    } else {
      assert x + 1 == q * Modulus + (r + 1);
    }
  }

  /** Only state routes move the counter, each by one, modulo 2^64. */
  lemma {:induction false} CounterAfterCount(counter: nat, paths: seq<string>)
    requires counter < Modulus
    ensures CounterAfter(counter, paths) == (counter + StateCount(paths)) % Modulus
  {
    if paths != [] {
      var init := paths[..|paths| - 1];
      CounterAfterCount(counter, init);
      if IsStateRoute(paths[|paths| - 1]) {
        ModSucc(counter + StateCount(init));
      }
    }
  }

  /** The reply to the `i`-th request is computed from the counter the earlier requests left. */
  lemma {:induction false} BodyAt(counter: nat, paths: seq<string>, i: nat)
    requires counter < Modulus && i < |paths|
    ensures Bodies(counter, paths)[i] == Step(CounterAfter(counter, paths[..i]), paths[i]).body
  {
    var init := paths[..|paths| - 1];
    if i < |init| {
      BodyAt(counter, init, i);
      assert init[..i] == paths[..i];
    } else {
      assert paths[..i] == init;
    }
  }

  lemma StateCountSnoc(paths: seq<string>, i: nat)
    requires i < |paths|
    ensures StateCount(paths[..i + 1]) == StateCount(paths[..i]) + (if IsStateRoute(paths[i]) then 1 else 0)
  {
    assert paths[..i + 1][..i] == paths[..i];
  }

  /**
   * Starting from 0, the `k`-th state request is answered with `k` in decimal (below 2^64);
   * every other request is answered `hello`.
   */
  lemma {:induction false} KthStateReply(paths: seq<string>, i: nat)
    requires i < |paths|
    ensures IsStateRoute(paths[i]) && StateCount(paths[..i + 1]) < Modulus ==>
      Bodies(0, paths)[i] == NatToString(StateCount(paths[..i + 1]))
    ensures !IsStateRoute(paths[i]) ==> Bodies(0, paths)[i] == "hello"
  {
    BodyAt(0, paths, i);
    CounterAfterCount(0, paths[..i]);
    StateCountSnoc(paths, i);
    ReplyFromCount(CounterAfter(0, paths[..i]), StateCount(paths[..i]), paths[i]);
  }

  /** The reply to a request after `count` state requests from 0. */
  lemma ReplyFromCount(before: nat, count: nat, path: string)
    requires before < Modulus && before == count % Modulus
    ensures IsStateRoute(path) && count + 1 < Modulus ==> Step(before, path).body == NatToString(count + 1)
    ensures !IsStateRoute(path) ==> Step(before, path).body == "hello"
  {
    if IsStateRoute(path) && count + 1 < Modulus {
      assert before == count;
    }
  }

  /** The first state request is answered `1`. */
  lemma FirstStateReplyIsOne(paths: seq<string>, i: nat)
    requires i < |paths| && IsStateRoute(paths[i]) && StateCount(paths[..i]) == 0
    ensures Bodies(0, paths)[i] == "1"
  {
    KthStateReply(paths, i);
    StateCountSnoc(paths, i);
  }

  lemma {:induction false} StateCountMonotone(paths: seq<string>, i: nat, j: nat)
    requires i <= j <= |paths|
    ensures StateCount(paths[..i]) <= StateCount(paths[..j])
    decreases j - i
  {
    if i < j {
      StateCountSnoc(paths, j - 1);
      StateCountMonotone(paths, i, j - 1);
    }
  }

  /** Before the counter wraps, successive state replies are strictly increasing numbers. */
  lemma {:induction false} StateRepliesIncrease(paths: seq<string>, i: nat, j: nat)
    requires i < j < |paths| && IsStateRoute(paths[i]) && IsStateRoute(paths[j])
    requires StateCount(paths) < Modulus
    ensures AllIn(Bodies(0, paths)[i], Digit) && AllIn(Bodies(0, paths)[j], Digit)
    ensures DigitsValue(Bodies(0, paths)[i]) < DigitsValue(Bodies(0, paths)[j])
  {
    StateCountMonotone(paths, j + 1, |paths|);
    assert paths[..|paths|] == paths;
    StateCountMonotone(paths, i + 1, j);
    StateCountSnoc(paths, j);
    KthStateReply(paths, i);
    KthStateReply(paths, j);
  }

  /** A request on another route leaves the counter as it was. */
  lemma OtherRouteKeepsCounter(counter: nat, paths: seq<string>, i: nat)
    requires counter < Modulus && i < |paths| && !IsStateRoute(paths[i])
    ensures CounterAfter(counter, paths[..i + 1]) == CounterAfter(counter, paths[..i])
  {
    assert paths[..i + 1][..i] == paths[..i];
  }
}
