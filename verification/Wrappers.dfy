/** Option values and a small sequence helper shared by every model. */
module Wrappers {
  datatype Option<+T> = None | Some(value: T)

  function Listed<T>(o: Option<T>): seq<T> {
    match o case None => [] case Some(t) => [t]
  }
}
