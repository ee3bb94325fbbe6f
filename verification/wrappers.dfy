/** Optional values and HTTP outcomes, used for the nullable columns, the
    optional request fields and the error answers of the planning board. */
module Wrappers {

  datatype Option<+T> = None | Some(value: T) {

    /** The value held, or `default` when there is none (a request field
        left out and given its declared default). */
    function GetOr(default: T): T {
      match this
      case Some(v) => v
      case None => default
    }
  }

  /** The answer of an endpoint: a result, or the status code of the
      `HTTPException` it raises. */
  datatype Outcome<+T> = Ok(value: T) | Fail(code: int)
}
