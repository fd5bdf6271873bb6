/** Optional values and results that carry the error code the library throws. */
module Wrappers {

  datatype Option<+T> = None | Some(value: T)

  /** The error codes of include/libpkgexec/error.h that the modelled code can throw. */
  datatype ErrorCode =
    | InvalidIdentity
    | InvalidValue
    | InvalidPath
    | DuplicateResource
    | DuplicateEnvironmentVariable
    | DuplicateMountPoint
    | MissingWorkingDirectory
    | InvalidPolicy
    | InvalidCapabilityProfile
    | UnsupportedRequest
    | ResourceMismatch
    | InconsistentResult
    | InvalidFailure
    | IdentityFailed
    | InvalidControl
    | ControlMismatch
    | CorruptEncoding
    | AuthorityMismatch

  /** A returned value, or the code of the exception thrown instead. */
  datatype Result<+T> = Ok(value: T) | Err(code: ErrorCode) {
    predicate IsFailure() {
      Err?
    }

    function PropagateFailure<U>(): Result<U>
      requires Err?
    {
      Err(code)
    }

    function Extract(): T
      requires Ok?
    {
      value
    }
  }

  /** A guard: passes, or throws `code`. */
  datatype Outcome = Pass | Fail(code: ErrorCode) {
    predicate IsFailure() {
      Fail?
    }

    function PropagateFailure<U>(): Result<U>
      requires Fail?
    {
      Err(code)
    }
  }

  function Need(condition: bool, code: ErrorCode): Outcome {
    if condition then Pass else Fail(code)
  }
}
