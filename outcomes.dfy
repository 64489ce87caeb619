/** Failure-carrying result types shared by every layer of the pipeline.
    A thrown `{message, status}` object of the source becomes a `Fail` value
    that each caller propagates unchanged. */
module Outcomes {

  datatype Option<+T> = None | Some(value: T) {
    /** The wrapped value, or `default` when absent. */
    function GetOr(default: T): T {
      match this
      case Some(v) => v
      case None => default
    }
  }

  /** The thrown error object: a human-readable message and an HTTP status code. */
  datatype Failure = Failure(message: string, status: int)

  /** Either a value or the failure that stopped the computation. */
  datatype Result<+T> = Ok(value: T) | Fail(failure: Failure)
}
