// Optional values and success/failure results, shared by every module.
// Java's `null` and `Optional.empty()`, and JavaScript's `undefined`, are
// modelled as `None`; a thrown exception is an `Err` carrying its kind.
module Wrappers {
  datatype Option<T> = None | Some(value: T)
  {
    predicate IsSome() { Some? }

    function GetOr(default: T): T
    {
      match this
      case None => default
      case Some(v) => v
    }
  }

  /** The exception kinds the Java services throw. */
  datatype Failure =
    | IllegalArgument(message: string)
    | IllegalState(message: string)
    | NoSuchElement(message: string)
    | NumberFormat(message: string)
    | TypeError(message: string)
    | InvalidToken(message: string)
    | Runtime(message: string)
    | NullReference(message: string)
    | DateTime(message: string)
    | DataIntegrityViolation(message: string)

  datatype Result<T> = Ok(value: T) | Err(error: Failure)
  {
    predicate IsOk() { Ok? }
  }
}
