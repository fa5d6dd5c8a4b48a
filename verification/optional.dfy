/** The absent-or-present value used wherever the JavaScript code has
    `null`, `undefined` or a failed regex match. */
module Optional {

  datatype Option<+T> = None | Some(value: T) {

    /** The value, or `default` when absent (the `??` operator). */
    function GetOr(default: T): T {
      match this
      case Some(v) => v
      case None => default
    }
  }

  /** The outcome of a request handler: a value, or a rejection carrying
      the HTTP status and the error code the handler answers with. */
  datatype Outcome<+T> = Accepted(value: T) | Rejected(status: nat, code: string)
}
