/** The optional value used throughout the model for SQL NULLs, Python's None
    and operations that raise. */
module Wrappers {

  datatype Option<+T> = None | Some(value: T)

  /** The list of zero or one element that an optional insight contributes. */
  function ToSeq<T>(o: Option<T>): (s: seq<T>)
    ensures |s| <= 1
    ensures o.Some? <==> |s| == 1
    ensures o.Some? ==> s[0] == o.value
  {
    match o
    case None => []
    case Some(v) => [v]
  }
}
