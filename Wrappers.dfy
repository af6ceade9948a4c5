/** Option stands for a Kotlin nullable value; Result for a value or a thrown exception. */
module Wrappers {

  datatype Option<+T> = None | Some(value: T)

  /** `Failure(message)` models `throw Exception(message)`. */
  datatype Result<+T> = Success(value: T) | Failure(error: string)
}
