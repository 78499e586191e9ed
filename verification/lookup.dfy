/** Linear search over a sequence: the model of `std::find_if`, which both the
    account lookup and the medicine lookup of the pharmacy program use. */
module Lookup {

  /** The optional result of a lookup. */
  datatype Option<+T> = None | Some(value: T)

  /** The index of the first element of `xs` satisfying `p`, or `None` when no
      element does. Like `find_if`, later matches are never considered. */
  function FindFirst<T>(xs: seq<T>, p: T -> bool): (r: Option<nat>)
    ensures r.Some? ==> r.value < |xs| && p(xs[r.value])
    ensures r.Some? ==> forall j :: 0 <= j < r.value ==> !p(xs[j])
    ensures r.None? <==> forall j :: 0 <= j < |xs| ==> !p(xs[j])
    decreases |xs|
  {
    if |xs| == 0 then None
    else if p(xs[0]) then Some(0)
    else
      match FindFirst(xs[1..], p)
      case None => None
      case Some(k) => Some(k + 1)
  }
}
