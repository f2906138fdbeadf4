/** The error type of the crate (src/errors.rs), extended with the `HLSFormat` variant that the conversions
    construct but src/errors.rs does not declare, and the `Result` that `?` propagates. */
module Errors {

  /** `APIError` is the transport failure of the excluded HTTP client; `ParseError` carries a grammar
      failure; `HLSFormat` carries a validation failure with a human-readable cause. */
  datatype Error =
    | APIError(message: string)
    | ParseError(message: string)
    | HLSFormat(message: string)

  /** `Result<T, Error>`, usable with `:-` the way the source uses `?`. */
  datatype Result<+T> = Ok(value: T) | Err(error: Error) {

    predicate IsFailure() {
      Err?
    }

    function PropagateFailure<U>(): Result<U>
      requires Err?
    {
      Err(error)
    }

    function Extract(): T
      requires Ok?
    {
      value
    }
  }
}
