/** The explicit success-or-error carrier of the engine, with the error codes the model meets. */
module Outcomes {

  datatype ErrorCode =
    | InvalidArgument
    | OversizedInput
    | TruncatedInput
    | MalformedInput
    | ChecksumMismatch
    | UnsupportedVersion
    | NotFound
    | AlreadyExists
    | IllegalTransition
    | StaleGeneration
    | OutOfRange
    | IoFailure
    | CorruptState
    | Closed
    | ProtocolViolation
    | NotAuthorized
    | FencedEpoch

  datatype Option<+T> = None | Some(value: T)

  datatype Outcome<+T> = Ok(value: T) | Err(code: ErrorCode) {
    predicate IsFailure() { Err? }

    function PropagateFailure<U>(): Outcome<U>
      requires Err?
    {
      Err(code)
    }

    function Extract(): T
      requires Ok?
    {
      value
    }
  }
}
