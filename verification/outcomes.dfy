/** Failure-carrying results for the front end.

    The original stops the whole compiler on the first error (`fatal` and
    `fatalAt` print a caret diagnostic and exit).  Here every such stop is
    a `Fail` value naming the error and, where the original prints one,
    the input position it points at.
 */
module Outcomes {

  datatype Option<+T> = None | Some(value: T)

  /** The reasons the front end gives up. */
  datatype Error =
    | UnableToTokenize(at: nat)          // no token class matches the rune at `at`
    | BadNumber(at: nat)                 // the digit run at `at` is not a valid int
    | NotExpected(at: nat, op: string)   // `expect(op)` met another token
    | UnexpectedToken(at: nat)           // `expectKind` met another kind
    | NotNumber(at: nat)                 // `expectNumber` met a non-number
    | NotLvalue                          // the left side of `=` is not a variable
    | NoCodegen                          // `gen` has no case for this node

  datatype Result<+T> = Ok(value: T) | Fail(error: Error) {

    predicate IsFailure() {
      Fail?
    }

    function PropagateFailure<U>(): Result<U>
      requires Fail?
    {
      Fail(error)
    }

    function Extract(): T
      requires Ok?
    {
      value
    }
  }
}
