/** How a call ends: a value, or the exception the program raises. */
module Outcomes {

  datatype Error =
    | AssertionError
    | IndexError
    | KeyError
    | RuntimeError
    | TypeError
    | ValueError
    | FileNotFoundError
    | ZeroDivisionError
    | NotImplementedError
    | NoMoreBatches

  datatype Result<+T> = Ok(value: T) | Err(error: Error)

  datatype Option<+T> = None | Some(value: T)
}
