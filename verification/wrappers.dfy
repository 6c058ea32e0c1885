/** Value containers shared by the whole model: an optional value (Java's
    nullable references) and an outcome that is either a value or the
    runtime exception the original code would throw. */
module Wrappers {

  /** A nullable reference: `None` stands for Java's `null`. */
  datatype Option<+T> = None | Some(value: T)

  /** The unchecked exceptions the modelled code can raise. */
  datatype Fault =
    | IllegalState(message: string)
    | NoSuchElement
    | IndexOutOfBounds
    | NullPointer

  /** Either the value a call returns or the exception it throws. */
  datatype Outcome<+T> = Success(value: T) | Failure(fault: Fault)
}
