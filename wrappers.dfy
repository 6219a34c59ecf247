/** The optional value used where the source has `null`/`undefined`. */
module Wrappers {

  datatype Option<+T> = None | Some(value: T)

  /** The sequence holding the value of `o`, if any. */
  function AsSeq<T>(o: Option<T>): seq<T>
  {
    match o
    case None => []
    case Some(v) => [v]
  }
}
