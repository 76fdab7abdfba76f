/** Failure-carrying datatypes shared by the model.
    - Option<T> stands for a lookup that may fail (a null pointer, a FALSE return)
    - Result<T> carries either a value or the access fault raised while producing it
 */
module Wrappers {

  datatype Option<+T> = None | Some(value: T) {

    /** Returns the value in Some or a default value if None */
    function GetOr(default: T): T {
      match this
      case Some(v) => v
      case None => default
    }
  }

  /** The only failure the formatting engine can suffer: reading memory that
      is not mapped (a structured exception inside the symbol enumerator). */
  datatype Fault = AccessViolation(address: nat)

  datatype Result<+T> = Ok(value: T) | Err(fault: Fault) {

    predicate IsFailure() {
      Err?
    }

    function PropagateFailure<U>(): Result<U>
      requires Err?
    {
      Err(fault)
    }

    function Extract(): T
      requires Ok?
    {
      value
    }
  }
}
