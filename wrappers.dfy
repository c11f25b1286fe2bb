/** Optional values (the source's nullable references) and the outcome of a
    call that may raise a runtime exception. */
module Wrappers {

  /** A Java reference that may be null. */
  datatype Option<+T> = None | Some(value: T) {
    function GetOr(default: T): T {
      match this
      case Some(v) => v
      case None => default
    }
  }

  /** The result of a call that either returns a value or throws. */
  datatype Outcome<+T> = Ok(value: T) | Thrown {
    /** With these three, `var x :- e;` continues with the value or passes the throw on. */
    predicate IsFailure() { Thrown? }

    function PropagateFailure<U>(): Outcome<U>
      requires Thrown?
    {
      Thrown
    }

    function Extract(): T
      requires Ok?
    {
      value
    }
  }
}
