/** Types shared by every module of the model. */
module Common {

  /** Python's `X | None`. */
  datatype Option<+T> = None | Some(value: T)
  {
    /** `x or other`, for a value that may be missing. */
    function GetOr(other: T): T { if Some? then value else other }
  }

  /** A call that either returns a value or raises. */
  datatype Result<+R, +E> = Ok(value: R) | Err(error: E)
}
