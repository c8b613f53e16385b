/** The return shapes shared by the validators: a successful record or one of
    the error markers the Python functions return as `{"error": ...}`. */
module Wrappers {

  /** Either the value a validator produces or the error it reports. */
  datatype Result<+T, +E> = Success(value: T) | Failure(error: E)
}
