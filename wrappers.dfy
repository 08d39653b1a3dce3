/** The absent-or-present value that stands in for JavaScript's `null` and `undefined`. */
module Wrappers {

  datatype Option<+T> = None | Some(value: T)

  /** `o || d` for an optional value: the value when present, otherwise the default. */
  function Or<T>(o: Option<T>, d: T): T
  {
    match o
    case Some(v) => v
    case None => d
  }
}
