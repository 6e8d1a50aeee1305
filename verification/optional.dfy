/** The absent-or-present value used throughout the model for Ruby's `nil`
    results that are not JSON values (a lookup that finds nothing, an oracle
    that gives no answer), and the outcome of a computation that may raise
    a Ruby exception. */
module Optional {

  datatype Option<+T> = None | Some(value: T) {

    /** The value, or `default` when absent: Ruby's `x || default` on a
        value that is either nil or present. */
    function GetOr(default: T): T {
      match this
      case Some(v) => v
      case None => default
    }
  }

  /** A value, or the Ruby exception raised instead of producing one. */
  datatype Outcome<+T> = Ok(value: T) | Raises(reason: string)
}
