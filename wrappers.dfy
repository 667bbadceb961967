/** The Option and Result types shared by every module of the model. */
module Wrappers {

  datatype Option<+T> = None | Some(value: T) {
    function GetOr(default: T): T {
      match this
      case Some(v) => v
      case None => default
    }
  }

  datatype Result<+T, +E> = Ok(value: T) | Err(error: E)

  /** Python truthiness of an optional integer id: `if x:` holds when x is not None and not 0. */
  predicate Truthy(x: Option<int>) {
    x.Some? && x.value != 0
  }
}
