/** Failure-carrying values shared by every module of the model.

    The viewer is written in Python; an exception that escapes an event handler
    is modelled as an `Err` carrying the exception's class. Under PyQt5 such an
    exception aborts the application, so no state is modelled after an `Err`. */
module Outcomes {

  /** An optional value; also stands for a floating-point NaN (`None`). */
  datatype Option<+T> = None | Some(value: T)

  /** The Python exception classes the modelled code can raise. */
  datatype Fault =
    | IndexError        // list or array subscript out of range
    | KeyError          // a dictionary lookup of an absent key
    | TypeError         // an operation applied to `None` or to the wrong type
    | ValueError        // bad unpacking, `list.remove` of an absent item, ...
    | AssertionError    // a failed `assert`
    | UnboundLocalError // a local variable read before any branch bound it
    | ZeroDivisionError // a float division by zero

  /** Either a value or the exception that interrupted the computation. */
  datatype Result<+T> = Ok(value: T) | Err(fault: Fault)
}
