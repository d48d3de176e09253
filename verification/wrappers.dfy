/** Failure-carrying wrappers shared by every module of the model. A Python
    function that may raise is modelled as returning a `Result`; a Python
    value that may be `None` is modelled as an `Option`. */
module Wrappers {

  datatype Option<+T> = None | Some(value: T) {
    function GetOr(default: T): T {
      match this
      case Some(v) => v
      case None => default
    }
  }

  /** Why a modelled Python call raised instead of returning. */
  datatype Error =
    | KeyError          // dictionary lookup of a missing key
    | IndexError        // `xs[0]` on an empty list
    | ValueError        // failed tuple unpacking, a bad literal string
    | AttributeError    // attribute of a value that does not have it
    | RuntimeError      // an explicit `raise RuntimeError(...)`
    | UnboundLocal      // reading a loop variable that was never bound
    | OrderingError     // `to_ordered` found no literal ready to be placed
    | SymbolError       // a clingo symbol accessor used on the wrong kind of symbol
    | RaisedException   // a bare `raise Exception(...)`
    | TypeError         // `str.join` over a value that is not a string
    | ZeroDivision      // division of a number by zero
    | CsvError          // the csv module could not read a file

  datatype Result<+T> = Ok(value: T) | Err(error: Error) {
    predicate IsFailure() {
      Err?
    }

    function PropagateFailure<U>(): Result<U>
      requires Err?
    {
      Err(error)
    }

    function Extract(): T
      requires Ok?
    {
      value
    }
  }
}
