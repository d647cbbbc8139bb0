/** Failure-compatible result types shared by every module. */
module Wrappers {

  datatype Option<+T> = None | Some(value: T) {
    function GetOr(fallback: T): T {
      if Some? then value else fallback
    }
  }

  /** The error classes of pkg/yeoul/errors.go that the modelled operations return. */
  datatype Error =
    | InputInvalid
    | EntityNotFound
    | FactNotFound
    | LifecycleInvalid
    | FactConflict
    | StorageFailed
    | NotSupported
    | MergeRefused
    | Canceled

  datatype Result<+T> = Ok(value: T) | Err(error: Error) {
    predicate IsFailure() {
      Err?
    }

    function PropagateFailure<U>(): Result<U>
      requires Err?
    {
      Err(error)
    }

    function Extract(): T
      requires Ok?
    {
      value
    }
  }

  /** The source's early returns: fail with `error` unless `condition` holds. */
  function Check(condition: bool, error: Error): Result<()> {
    if condition then Ok(()) else Err(error)
  }
}
