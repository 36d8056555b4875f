/** Python's exceptions and the value-or-exception results the model returns
    wherever the source lets an exception escape. */
module Outcomes {

  /** The exception classes the modelled code raises or catches. */
  datatype Exc =
    | IndexError
    | KeyError
    | TypeError
    | AttributeError
    | ZeroDivisionError
    | StopIteration
    | NotImplementedError
    | SyntaxError
    | FileNotFoundError
    | ValueError             // ValueError and json.JSONDecodeError
    | ConnectionError        // ConnectionError and its subclasses (refused, reset)
    | TimeoutError           // socket timeout: an OSError, not a ConnectionError
    | OSError                // any other OSError (address lookup, unreachable network)
    | GenericException       // a bare `Exception(...)`

  datatype Option<+T> = None | Some(value: T)

  /** Either the value the Python code returns or the exception it raises. */
  datatype Result<+T> = Ok(value: T) | Raise(exc: Exc) {
    predicate IsFailure() { Raise? }
    function PropagateFailure<U>(): Result<U> requires Raise? { Raise(exc) }
    function Extract(): T requires Ok? { value }
  }
}
