/** Failure-compatible wrappers, and the exceptions the analyser raises. */
module Wrappers {

  datatype Option<+T> = None | Some(value: T)

  /** The Python exception classes raised by the modelled code, with the
      message where the code fixes one. `NotANumber` is not an exception:
      it stands for the NaN values numpy returns for an empty array. */
  datatype Error =
    | ValueError(message: string)
    | ZeroDivisionError(message: string)
    | IndexError
    | NotANumber

  datatype Result<+T> = Success(value: T) | Failure(error: Error)

  /** Python's message for a float division by zero. */
  const FloatDivisionByZero := "float division by zero"

  /** Python's message for an integer division `2 / N` by zero. */
  const DivisionByZero := "division by zero"

  /** Python's message when `math.log10` gets a negative argument. */
  const MathDomainError := "math domain error"
}
