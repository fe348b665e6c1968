/** Shared option and result types, and the one failure the prediction core can raise. */
module Base {

  /** A value that may be absent (Python's `None`, or a missing cell). */
  datatype Option<+T> = None | Some(value: T) {

    /** The carried value, or `default` when absent. */
    function GetOr(default: T): T {
      match this
      case Some(v) => v
      case None => default
    }
  }

  /** The failures the program raises: a division by zero in a ratio, the assertion
      that two teams share a competition, and the validation error of a report whose
      exact scores lack the fields of `ExactScore`. */
  datatype Error = DivisionByZero | NoCommonCompetition | InvalidExactScore

  /** Either a computed value or the error that stopped the computation. */
  datatype Result<+T> = Ok(value: T) | Err(error: Error)

  /** A missing count contributes nothing to a pandas column sum (`skipna`). */
  function OrZero(x: Option<nat>): nat {
    x.GetOr(0)
  }
}
