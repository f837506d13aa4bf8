/** Failure-carrying values shared by every module: `Option` for the source's
    `Optional[str]` returns and `Result` for calls that raise. */
module Wrappers {

  datatype Option<+T> = None | Some(value: T)

  datatype Result<+T, +E> = Ok(value: T) | Err(error: E)

  /** Python truthiness of an `Optional[str]`: neither None nor "". */
  predicate Truthy(o: Option<string>) {
    o.Some? && o.value != []
  }
}
