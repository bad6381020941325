/** The optional-value type shared by the rest of the model. */
module Wrappers {

  /** Some value, or none; also stands for a Go `nil` map or context. */
  datatype Option<+T> = None | Some(value: T) {

    /** The wrapped value, or `default` when there is none. */
    function GetOr(default: T): T {
      match this
      case Some(v) => v
      case None => default
    }

    /** This option if it holds a value, `other` otherwise. */
    function OrElse(other: Option<T>): Option<T> {
      match this
      case Some(_) => this
      case None => other
    }
  }
}
