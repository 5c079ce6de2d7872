/** Outcomes of the modelled Python code: an optional value (Python's `None`)
    and a result that is either a value or the exception that was raised. */
module Failures {

  /** A value or Python's `None`. */
  datatype Option<T> = None | Some(value: T)

  /** The exceptions the modelled code raises, explicitly or implicitly.
      `DemanglerException` is kept apart from the interpreter's own errors
      because the symbol database catches only that one. */
  datatype Failure =
    | DemanglerException(message: string) // raised by the demangler itself
    | IndexError                          // `rest[0]` on an exhausted string
    | ValueError                          // `int()` of a malformed number; a missing NUL terminator
    | AssertionError                      // an `assert` statement that does not hold
    | AttributeError                      // a method called on `None`
    | KeyError                            // a dictionary subscript with an absent key
    | StructError                         // `struct.unpack_from` past the end of the buffer
    | SystemExit                          // `sys.exit()`

  /** Either the value computed or the exception raised; usable with `:-`. */
  datatype Result<T> = Ok(value: T) | Err(failure: Failure) {
    predicate IsFailure() {
      Err?
    }

    function PropagateFailure<U>(): Result<U>
      requires Err?
    {
      Err(failure)
    }

    function Extract(): T
      requires Ok?
    {
      value
    }
  }
}
