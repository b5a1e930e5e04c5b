/** Option and Result, used for Java's null references and for the
    exceptions the object reader's constructors raise. */
module Wrappers {

  datatype Option<+T> = None | Some(value: T)

  /** An IllegalArgumentException with its message, or the NullPointerException
      of dereferencing a null object. */
  datatype Error = IllegalArgument(message: string) | NullPointer

  datatype Result<+T> = Success(value: T) | Failure(error: Error)
}
