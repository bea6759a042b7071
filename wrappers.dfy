/** Option and Result, used for Python's `None` and for error returns. */
module Wrappers {

  datatype Option<+T> = None | Some(value: T) {
    /** The value, or `default` when there is none (Python's `x or default` on a missing value). */
    function GetOr(default: T): T
    {
      match this
      case Some(v) => v
      case None => default
    }
  }

  datatype Result<+T, +E> = Ok(value: T) | Err(error: E)
}

/** The HTTP error a FastAPI handler raises, as a status code and its detail text. */
module Http {

  datatype HttpError = HttpError(status: nat, detail: string)

  const BadRequest: nat := 400
  const NotFound: nat := 404
  const Conflict: nat := 409
  const InternalError: nat := 500
}
