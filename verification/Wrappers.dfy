/** The two result shapes the model uses for Python's `None` and for raised errors. */
module Wrappers {
  datatype Option<+T> = None | Some(value: T)

  datatype Result<+T, +E> = Success(value: T) | Failure(error: E)

  function Or<T>(o: Option<T>, default: T): T { if o.Some? then o.value else default }
}
