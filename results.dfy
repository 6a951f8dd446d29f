/** Outcomes of the script's operations: a value, or the Python exception it raises. */
module Results {

  /** The exceptions raised on the modelled paths. */
  datatype Error =
    | IndexError         // list index or pixel coordinate out of range
    | ZeroDivisionError  // float division by a zero step
    | ValueError         // numpy.interp called with no sample points

  datatype Result<T> = Ok(value: T) | Err(error: Error)
}
