/** Failure kinds raised by the aggregate entry points, and the result and
    option wrappers that carry them. */
module Outcomes {

  /** The ValueError conditions of the algebra and of the aggregation
      procedure, each given its own name. */
  datatype Error =
    | InvalidExponent   // pow with an exponent below 1
    | LengthMismatch    // paired sequences of different lengths
    | EmptyInput        // an aggregate that needs at least one element got none
    | ZeroTotalWeight   // weighted mean whose weights sum to exactly 0

  datatype Result<+T> = Success(value: T) | Failure(error: Error)

  datatype Option<+T> = None | Some(value: T)
}
