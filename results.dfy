/** Option and Result values standing in for Python's None and for the
    exceptions (or not-found pages) that the request handlers raise. */
module Results {

  /** Python's `Optional[T]`: either None or a value. */
  datatype Option<+T> = None | Some(value: T)

  /** The ways a handler of the car catalogue can fail. */
  datatype Error =
    | RequestRejected  // the framework refused a path or query parameter before the handler ran
    | InvalidRecord    // the `Car` model refused its fields (year missing or out of range)
    | NotFound         // no car is stored under the requested id
    | NotAnInteger     // `int(number)` raised ValueError

  datatype Result<+T> = Ok(value: T) | Err(error: Error)
}
