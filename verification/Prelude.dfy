// Shared vocabulary of the model.
module Prelude {

  /** A value that may be absent: Go's nil pointers, nil slices and nil errors. */
  datatype Option<+T> = None | Some(value: T) {

    function GetOr(default: T): T {
      match this
      case None => default
      case Some(v) => v
    }
  }
}
