/** Failure-compatible wrappers and the error taxonomy of the spectral core. */
module Wrappers {

  /** An optional argument (Python's `None` default). */
  datatype Option<+T> = None | Some(value: T)

  /** The outcome of an operation that can raise: a value or an error. */
  datatype Result<+T, +E> = Ok(value: T) | Err(error: E) {
    predicate IsFailure() { Err? }

    function PropagateFailure<U>(): Result<U, E>
      requires Err?
    {
      Err(error)
    }

    function Extract(): T
      requires Ok?
    {
      value
    }
  }
}

/** The errors of the spectral core: the two `ValueError`s it raises itself,
    and numpy's broadcast error when two operands' row counts do not fit. */
module Errors {

  datatype SpectralError =
    /** The mains frequency is not one of the FFT bin frequencies. */
    | InvalidMainsFrequency(frequency: real)
    /** The high-pass filter type is none of the implemented ones. */
    | UnsupportedFilterType(filterType: string)
    /** numpy cannot broadcast the two operands' row counts together. */
    | BroadcastMismatch(rows: nat, otherRows: nat)
}
