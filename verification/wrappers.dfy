/** Option, the model's rendering of JavaScript's `null`/`undefined` results,
    and the first-match search behind `Array.prototype.find`. */
module Wrappers {

  datatype Option<+T> = None | Some(value: T)

  /** Index of the first element of `s` that satisfies `p`, or None when no element does. */
  function FindIndex<T>(s: seq<T>, p: T -> bool): (r: Option<nat>)
    ensures r.Some? ==> r.value < |s| && p(s[r.value])
    ensures r.Some? ==> forall j :: 0 <= j < r.value ==> !p(s[j])
    ensures r.None? ==> forall j :: 0 <= j < |s| ==> !p(s[j])
  {
    if s == [] then None
    else if p(s[0]) then Some(0)
    else match FindIndex(s[1..], p)
      case None => None
      case Some(k) => Some(k + 1)
  }
}
