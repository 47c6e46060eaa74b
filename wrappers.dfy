/** Option and Result datatypes shared by every module of the model. */
module Wrappers {

  /** A value that may be missing: the model of a Go nil pointer or a nil interface. */
  datatype Option<+T> = None | Some(value: T)

  /** An outcome carrying either a value or an error. */
  datatype Result<+T, +E> = Success(value: T) | Failure(error: E)
}

/** Sequence helpers used by the first-match lookups of the wizard and the router. */
module Seqs {
  import opened Wrappers

  /** Index of the first element of `s` that satisfies `p`, or None when no element does.
      This is the "filter, then take the first" and the "loop with early return" of the source. */
  function FirstIndex<T>(s: seq<T>, p: T -> bool): (r: Option<nat>)
    ensures r.Some? ==> r.value < |s| && p(s[r.value])
    ensures r.Some? ==> forall j :: 0 <= j < r.value ==> !p(s[j])
    ensures r.None? <==> forall j :: 0 <= j < |s| ==> !p(s[j])
  {
    if s == [] then None
    else if p(s[0]) then Some(0)
    else match FirstIndex(s[1..], p)
      case None => None
      case Some(k) => Some(k + 1)
  }
}
