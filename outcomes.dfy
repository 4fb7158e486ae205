/** Option and Result values, and the error kinds the library raises. */
module Outcomes {

  datatype Option<+T> = None | Some(value: T)

  /** The exceptions of the library that the model keeps, one variant per raise site kind. */
  datatype Error =
    | NotAnInteger       // `increase` on a stored value that is not a digit string (ValueError wrapped as ClientError)
    | ParameterError     // `set` with both `only_if_new` and `only_if_old`
    | EmptyDispatcher    // a Dispatcher built from an empty list of caches (ValueError)
    | DefaultNamespace   // a CacheWrapper built with the namespace 'default' (AssertionError)
    | HostError          // a host string with more than one ':'
    | InvalidLiteral     // `int(...)` or `float(...)` applied to a malformed string (ValueError)
    | UnpicklingError    // `pickle.loads` applied to a string it did not produce
    | UnknownWrapper     // `_get_source_func` on a function the decorator did not return (KeyError)

  datatype Result<+T> = Success(value: T) | Failure(error: Error)
}
