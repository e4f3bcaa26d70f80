/** Failure-carrying values: `undefined` lookups become Option, thrown errors become Result. */
module Wrappers {

  datatype Option<+T> = None | Some(value: T)

  datatype Result<+T> = Success(value: T) | Failure(error: string)
}
