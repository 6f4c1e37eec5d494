/**
 * The wasmCloud http-hello component: the same routing as the native server over a
 * `static mut u64` counter, answered through `Ok(Response::new(body))`.
 */
module WasmCloudHello {
  import opened HelloHandler
  import Text

  datatype Response = Response(body: string)

  /** `http::Result`: the component never takes the error arm. */
  datatype HandleResult = Ok(response: Response) | Err(message: string)

  class Component {
    /** `static mut COUNTER: u64`. */
    var counter: nat

    ghost predicate Valid()
      reads this
    {
      counter < Modulus
    }

    constructor ()
      ensures Valid() && counter == 0
    {
      counter := 0;
    }

    /** `handle`, given `request.uri().path()`. */
    method Handle(path: string) returns (r: HandleResult)
      requires Valid()
      modifies this
      ensures Valid()
      ensures r.Ok?
      ensures counter == Step(old(counter), path).counter
      ensures r.response.body == Step(old(counter), path).body
    {
      var body: string;
      if Text.StartsWith(path, StatePrefix) {
        // `COUNTER += 1` on a u64 wraps in a release build
        counter := (counter + 1) % Modulus;
        var next := counter;
        body := Text.NatToString(next);
      } else {
        body := "hello";
      }
      r := Ok(Response(body));
    }
  }
}
