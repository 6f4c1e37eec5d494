/**
 * The native http-hello server: one process-wide counter, and for each incoming request a
 * plain-text response built by the shared routing; a failed `respond` is logged to
 * standard error and the loop goes on.
 */
module HttpHello {
  import opened Common
  import opened Seqs
  import opened HelloHandler
  import Text

  /** The header every response carries. */
  const ContentType: (string, string) := ("Content-Type", "text/plain; charset=utf-8")

  datatype Response = Response(body: string, headers: seq<(string, string)>)

  /** An incoming request: its URL, and the error `respond` reports for it, if any. */
  datatype Request = Request(url: string, respondError: Option<string>)

  function ErrorLine(e: string): string {
    "[http-hello] error responding: " + e
  }

  function Paths(requests: seq<Request>): (r: seq<string>)
    ensures |r| == |requests|
    ensures forall i :: 0 <= i < |requests| ==> r[i] == requests[i].url
  {
    MapSeq((q: Request) => q.url, requests)
  }

  /** The response a body becomes: that body and the content-type header. */
  function Respond(body: string): Response {
    Response(body, [ContentType])
  }

  /** What goes to standard error for one request. */
  function ErrorOf(q: Request): Option<string> {
    if q.respondError.Some? then Some(ErrorLine(q.respondError.value)) else None
  }

  /** The standard-error lines of serving `requests`: one per failed respond, in order. */
  function ErrorLog(requests: seq<Request>): (r: seq<string>)
    ensures forall line :: line in r ==>
      exists i :: 0 <= i < |requests| && requests[i].respondError.Some? && line == ErrorLine(requests[i].respondError.value)
  {
    FilterMap(ErrorOf, requests)
  }

  /** Every failed `respond` is logged. */
  lemma EveryFailureLogged(requests: seq<Request>)
    ensures forall i :: 0 <= i < |requests| && requests[i].respondError.Some? ==>
      ErrorLine(requests[i].respondError.value) in ErrorLog(requests)
  {
    forall i | 0 <= i < |requests| && requests[i].respondError.Some?
      ensures ErrorLine(requests[i].respondError.value) in ErrorLog(requests)
    {
      assert ErrorOf(requests[i]) == Some(ErrorLine(requests[i].respondError.value));
      FilterMapMember(ErrorOf, requests, ErrorLine(requests[i].respondError.value));
    }
  }

  /** One more request appends its error line, if it failed, after the earlier ones. */
  lemma ErrorLogSnoc(requests: seq<Request>, q: Request)
    ensures ErrorLog(requests + [q]) ==
      ErrorLog(requests) + (if q.respondError.Some? then [ErrorLine(q.respondError.value)] else [])
  {
    var s := requests + [q];
    FilterMapSnoc(ErrorOf, s, |requests|);
    assert s[..|requests|] == requests && s[..|requests| + 1] == s;
  }

  /** Serving requests that all succeed writes nothing to standard error. */
  lemma {:induction false} NoErrorsNoLog(requests: seq<Request>)
    requires forall i :: 0 <= i < |requests| ==> requests[i].respondError.None?
    ensures ErrorLog(requests) == []
  {
    if requests != [] {
      var n := |requests| - 1;
      NoErrorsNoLog(requests[..n]);
      FilterMapSnoc(ErrorOf, requests, n);
      assert requests[..n + 1] == requests;
    }
  }

  class Server {
    /** `COUNTER`, the `AtomicU64` every state request bumps. */
    var counter: nat

    ghost predicate Valid()
      reads this
    {
      counter < Modulus
    }

    /** `AtomicU64::new(0)`. */
    constructor ()
      ensures Valid() && counter == 0
    {
      counter := 0;
    }

    /** The body of one loop iteration, up to `respond`. */
    method Handle(url: string) returns (response: Response)
      requires Valid()
      modifies this
      ensures Valid()
      ensures counter == Step(old(counter), url).counter
      ensures response == Respond(Step(old(counter), url).body)
    {
      var contentType := ContentType;
      var body: string;
      if Text.StartsWith(url, StatePrefix) {
        // fetch_add stores the wrapped sum and returns the old value; the `+ 1` after it wraps too
        var previous := counter;
        counter := (counter + 1) % Modulus;
        var next := (previous + 1) % Modulus;
        body := Text.NatToString(next);
      } else {
        body := "hello";
      }
      response := Response(body, [contentType]);
    }

    /**
     * The request loop over a finite prefix of the incoming requests: each gets the response
     * the routing computes from the counter the earlier ones left, and each failed respond
     * adds one line to the error log.
     */
    method Serve(requests: seq<Request>) returns (responses: seq<Response>, errors: seq<string>)
      requires Valid()
      modifies this
      ensures Valid()
      ensures counter == CounterAfter(old(counter), Paths(requests))
      ensures responses == MapSeq(Respond, Bodies(old(counter), Paths(requests)))
      ensures errors == ErrorLog(requests)
    {
      ghost var start := counter;
      responses, errors := [], [];
      for i := 0 to |requests|
        invariant Valid()
        invariant counter == CounterAfter(start, Paths(requests[..i]))
        invariant responses == MapSeq(Respond, Bodies(start, Paths(requests[..i])))
        invariant errors == ErrorLog(requests[..i])
      {
        var request := requests[i];
        ghost var before := counter;
        var response := Handle(request.url);
        ServeStep(start, requests, i, before);
        responses := responses + [response];
        if request.respondError.Some? {
          errors := errors + [ErrorLine(request.respondError.value)];
        }
        FilterMapSnoc(ErrorOf, requests, i);
      }
      assert requests[..|requests|] == requests;
    }
  }

  /** One more request extends the paths, the counter and the bodies by that request's step. */
  lemma ServeStep(start: nat, requests: seq<Request>, i: nat, before: nat)
    requires start < Modulus && i < |requests|
    requires before == CounterAfter(start, Paths(requests[..i]))
    ensures Paths(requests[..i + 1]) == Paths(requests[..i]) + [requests[i].url]
    ensures CounterAfter(start, Paths(requests[..i + 1])) == Step(before, requests[i].url).counter
    ensures Bodies(start, Paths(requests[..i + 1])) == Bodies(start, Paths(requests[..i])) + [Step(before, requests[i].url).body]
  {
    var next := Paths(requests[..i + 1]);
    assert next[..|next| - 1] == Paths(requests[..i]);
  }

  /**
   * From a fresh process, the `k`-th `/state` request gets `k` and every other request
   * `hello`, all with the content-type header.
   */
  lemma ResponsesFromStart(requests: seq<Request>, i: nat)
    requires i < |requests|
    ensures MapSeq(Respond, Bodies(0, Paths(requests)))[i].headers == [ContentType]
    ensures IsStateRoute(requests[i].url) && StateCount(Paths(requests)[..i + 1]) < Modulus ==>
      MapSeq(Respond, Bodies(0, Paths(requests)))[i].body == Text.NatToString(StateCount(Paths(requests)[..i + 1]))
    ensures !IsStateRoute(requests[i].url) ==> MapSeq(Respond, Bodies(0, Paths(requests)))[i].body == "hello"
  {
    KthStateReply(Paths(requests), i);
  }
}
