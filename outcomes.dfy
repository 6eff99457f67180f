/**
 * Nullable values and thrown exceptions of the mapping layer, as values.
 *
 * A Java reference that may be null is an `Option`; a call that may throw is
 * a `Result` (a value or the `Fault` it throws) or, when it returns nothing,
 * an `Outcome`.
 */
module Outcomes {

  datatype Option<+T> = None | Some(value: T) {
    function GetOr(default: T): T {
      match this
      case Some(v) => v
      case None => default
    }
  }

  /** The exceptions the modelled code throws. */
  datatype Fault =
    | MappingError(message: string)   // org.medimob.orm.processor.MappingException
    | IllegalArgument(message: string) // java.lang.IllegalArgumentException
    | OrmError(message: string)        // org.medimob.orm.OrmException
    | NullPointer                      // java.lang.NullPointerException
    | OutOfBounds                      // java.lang.StringIndexOutOfBoundsException
    | IllegalState(message: string)    // java.lang.IllegalStateException

  datatype Result<+R> = Success(value: R) | Failure(error: Fault) {
    predicate IsFailure() { Failure? }
    function PropagateFailure<U>(): Result<U>
      requires Failure?
    {
      Failure(error)
    }
    function Extract(): R
      requires Success?
    {
      value
    }
  }

  datatype Outcome = Pass | Fail(error: Fault) {
    predicate IsFailure() { Fail? }
    /** Run `next` only when this check passed, as consecutive Java statements do. */
    function Then(next: Outcome): (r: Outcome)
      ensures r.Pass? <==> Pass? && next.Pass?
      ensures Fail? ==> r == this
    {
      if Fail? then this else next
    }
    function PropagateFailure(): Outcome
      requires Fail?
    {
      this
    }
  }

  predicate IsMappingError(f: Fault) { f.MappingError? }
}
