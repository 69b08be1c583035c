/** Option and Result: a missing value (a C# null) and an operation that either
    produced a value or raised an exception carrying a message. */
module Outcomes {

  datatype Option<+T> = None | Some(value: T)

  datatype Result<+T> = Success(value: T) | Failure(error: string)
}
