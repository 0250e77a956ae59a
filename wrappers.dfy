/** Optional values and HTTP-style responses shared by the route modules. */
module Wrappers {

  /** A value that may be absent: JavaScript's `undefined`/`null`, or an operation that threw. */
  datatype Option<+T> = None | Some(value: T)

  /** What a Next.js route handler returns: a JSON body with status 200, or an
      `{ error }` body with a failure status. */
  datatype Response<+T> = Ok(body: T) | Failure(status: nat, error: string)

  /** The values of a list of options, in order, when every one is present: how a
      `map` over a list behaves when any element may throw. */
  function AllPresent<T>(xs: seq<Option<T>>): (r: Option<seq<T>>)
    ensures r.Some? <==> forall i :: 0 <= i < |xs| ==> xs[i].Some?
    ensures r.Some? ==> |r.value| == |xs|
    ensures r.Some? ==> forall i :: 0 <= i < |xs| ==> xs[i] == Some(r.value[i])
    decreases |xs|
  {
    if xs == [] then Some([])
    else if xs[0].None? then None
    else
      match AllPresent(xs[1..])
      case None => None
      case Some(rest) => Some([xs[0].value] + rest)
  }
}
