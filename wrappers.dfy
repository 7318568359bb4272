/** Option, Result and Outcome values shared by the whole model. A JavaScript
    exception is modelled as `Outcome.Threw(message)`: every caller in the
    source only looks at `error.message`. `Result` is the success-or-reason
    object a page closure returns. */
module Wrappers {

  datatype Option<+T> = None | Some(value: T) {
    function GetOr(default: T): T {
      match this
      case Some(v) => v
      case None => default
    }
  }

  datatype Result<+T> = Ok(value: T) | Err(msg: string)

  /** How a JavaScript function that may throw ends: the value it returned
      or the message of the error it threw. */
  datatype Outcome<+T> = Returned(value: T) | Threw(msg: string)
}
