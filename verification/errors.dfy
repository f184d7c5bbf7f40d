/** The error values the core returns to its callers. */
module Errors {

  /** Why `u128::from_str` refused a string. */
  datatype ParseIntError = Empty | InvalidDigit | PosOverflow

  /** `FibonacciError`, by the condition that produced its message. */
  datatype FibonacciError =
    | MissingOut                        // "Failed to get `out` value"
    | ParseFailure(kind: ParseIntError) // "Failed to parse input as u128: ..."
    | VerifyingProofError               // "Verifying proof error: ..."
}
