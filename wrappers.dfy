/** Failure-carrying datatypes shared by every module, and the error taxonomy
    of the guard (the exception hierarchy rooted at RAGGuardError, plus the
    built-in ValueError that the configuration and chunk validators raise). */
module Wrappers {

  datatype Option<+T> = None | Some(value: T) {
    function GetOr(default: T): T {
      match this
      case Some(v) => v
      case None => default
    }
  }

  datatype Result<+R> = Ok(value: R) | Err(error: Error) {
    predicate IsFailure() { Err? }
    function PropagateFailure<U>(): Result<U>
      requires Err?
    {
      Err(error)
    }
    function Extract(): R
      requires Ok?
    {
      value
    }
  }

  /** A Python argument whose declared type is `T`: either a value of that
      type, or a value of some other type (which the `isinstance` checks of
      the source reject). */
  datatype Dyn<+T> = Of(value: T) | Other

  /** Why a built-in ValueError was raised. */
  datatype ValueReason =
    | SaltTooShort                 // GuardConfig: salt under 8 characters
    | UnknownStrategy              // GuardConfig: ner_strategy not recognised
    | ChunkNotString(position: nat) // validate_chunks: 1-based index of the offending chunk
    | ZeroBatchSize                // batch_process: range() with step 0

  /** The exceptions the core raises. The messages (and the chained causes
      they quote) are not modelled, only which exception surfaces. */
  datatype Error =
    | NerError                 // NERError
    | MaskingError             // MaskingError
    | UnmaskingError           // UnmaskingError
    | GuardError               // RAGGuardError raised directly
    | ValueError(reason: ValueReason)
}
