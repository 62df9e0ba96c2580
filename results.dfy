/**
 * The outcome of a Python operation: a value, or the built-in exception that
 * the Python code would raise.  Every exception in the modelled code aborts the
 * whole call it occurs in, so an error carries only its kind.
 */
module Results {

  datatype Option<+T> = None | Some(value: T)

  /** The Python exception classes the modelled code can raise. */
  datatype PyError =
    | IndexError      // list index out of range
    | KeyError        // missing dictionary key
    | ValueError      // int() of a malformed string
    | TypeError       // operation on None (an unset environment variable)
    | NameError       // read of a local variable that was never bound
    | JsonDecodeError // json.loads of a malformed document

  datatype Result<+T> = Ok(value: T) | Err(error: PyError)
}
