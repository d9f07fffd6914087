/** Result values standing in for the exceptions the library raises. */
module Outcomes {

  /** The Python exception classes that the modelled operations can raise. */
  datatype Error =
    | AssertionError    // a failed `assert` (incompatible units, wrong quantity type)
    | KeyError          // a dispatch registry lookup on an unregistered operand type
    | AttributeError    // `other._units` read on an operand that is not a Quantity
    | TypeError         // an arithmetic operand that is neither a number nor a Quantity
    | ValueError        // a quantity type declared without base units
    | ZeroDivisionError // a division by zero inside a registered operator handler

  /** Either a value or the exception that was raised instead. */
  datatype Result<+T> = Ok(value: T) | Err(error: Error) {
    predicate IsFailure() { Err? }

    function PropagateFailure<U>(): Result<U>
      requires Err?
    {
      Err(error)
    }

    function Extract(): T
      requires Ok?
    {
      value
    }
  }

  datatype Option<+T> = None | Some(value: T)
}
