/** Option type used for lookups and for the "npos" results of string searches. */
module Wrappers {

  datatype Option<+T> = None | Some(value: T)

  /** The value of an option as a list of at most one element. */
  function ToSeq<T>(o: Option<T>): seq<T> {
    match o
    case Some(v) => [v]
    case None => []
  }

}
