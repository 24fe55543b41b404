/** Small result types shared by the whole model. */
module Wrappers {

  /** A value that may be absent: JavaScript's `undefined`/`null` next to a value. */
  datatype Option<+T> = None | Some(value: T)

  /** The answer to one request to the hosting service: either the decoded
      response, or the request rejected (HTTP error, network failure) so
      that the awaiting code throws. */
  datatype Reply<+T> = Answered(value: T) | Threw

  /** A search for the first element satisfying `p`, as JavaScript's
      `Array.prototype.find` does; the result is the index of that element. */
  function FindFirst<T>(xs: seq<T>, p: T -> bool): (r: Option<nat>)
    ensures r.Some? ==> r.value < |xs| && p(xs[r.value])
    ensures r.Some? ==> forall j :: 0 <= j < r.value ==> !p(xs[j])
    ensures r.None? ==> forall j :: 0 <= j < |xs| ==> !p(xs[j])
  {
    if xs == [] then None
    else if p(xs[0]) then Some(0)
    else match FindFirst(xs[1..], p)
      case None => None
      case Some(k) => Some(k + 1)
  }

  /** The first satisfying element is the one the search returns. */
  lemma FindFirstIs<T>(xs: seq<T>, p: T -> bool, k: nat)
    requires k < |xs| && p(xs[k])
    requires forall j :: 0 <= j < k ==> !p(xs[j])
    ensures FindFirst(xs, p) == Some(k)
  {
  }
}
