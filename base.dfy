/** Failure-compatible wrappers shared by every module of the model.
    A Python exception raised by the validator becomes an `Err` carrying the
    exception's kind; `:-` propagates it the way the exception unwinds. */
module Base {

  datatype Option<+T> = None | Some(value: T)

  /** The exception kinds the modelled code can raise. */
  datatype Fault =
    | TypeError                    // wrong operand type, or a required keyword argument missing
    | AttributeError               // attribute access on None (an unknown class, a missing identifier slot)
    | KeyError                     // dictionary subscript with an absent key
    | ModuleNotFoundError(name: string)  // an unknown plugin name

  datatype Result<+T> = Ok(value: T) | Err(error: Fault) {

    predicate IsFailure() {
      Err?
    }

    function PropagateFailure<U>(): Result<U>
      requires Err?
    {
      Err(error)
    }

    function Extract(): T
      requires Ok?
    {
      value
    }
  }
}
