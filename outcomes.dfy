/** Error signalling shared by both calculators.

    The two programs report bad input by throwing: the lexers throw on a character
    they do not know, the evaluators throw when `eat` meets a token of the wrong type.
    Here a throw is an `Err` value that the caller propagates. */
module Outcomes {

  /** The ways one line of input can fail. */
  datatype Error =
    | InvalidCharacter  // the lexer met a character that starts no token
    | InvalidSyntax     // the evaluator met a token of the wrong type
    | DivisionByZero    // the multiplicative calculator divided by a zero factor

  /** A computed value, or the error that aborted the computation. */
  datatype Result<T> = Ok(value: T) | Err(error: Error)

  /** The outcome of an operation that computes nothing but may fail. */
  datatype Outcome = Pass | Fail(error: Error)
}
