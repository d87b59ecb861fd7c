/** Failure-compatible wrappers shared by every module of the model. */
module Wrappers {

  datatype Option<+T> = None | Some(value: T)

  /** A value, or the error that stopped its computation; usable with `:-`. */
  datatype Result<+T, +E> = Ok(value: T) | Err(error: E) {

    predicate IsFailure() {
      Err?
    }

    function PropagateFailure<U>(): Result<U, E>
      requires Err?
    {
      Err(error)
    }

    function Extract(): T
      requires Ok?
    {
      value
    }
  }
}

/** The faults the modelled code raises (as C++ exceptions or, for a null position, a crash). */
module Faults {

  datatype Fault =
    | MissingParameter(key: string)   // std::map::at on a key missing from the parameters
    | TypeMismatch                    // Attribute::get<T>() with T other than the stored kind
    | UnknownDatatype                 // "Unknown Attribute datatype"
    | NoPosition(writable: nat)       // a Writable on the parent chain has no file position
}
