/** Option and Result, the stand-ins for Java's null and for thrown exceptions. */
module Wrappers {

  datatype Option<+T> = None | Some(value: T)

  datatype Result<+R, +E> = Success(value: R) | Failure(error: E)

  /** The exceptions the modelled code can raise. */
  datatype Error =
    | NullPointer                // a null offset or end time where the code dereferences it
    | DateTimeOutOfRange         // LocalTime.ofSecondOfDay / withNano rejected a field
    | IndexOutOfBounds           // Scene.split called with no split points
    | NothingDetected(message: string)  // the annotation service returned no results
}
