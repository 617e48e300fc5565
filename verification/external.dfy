/** The boundary to everything the interviewer cannot see: the generative model's
    replies and the optional results its parsers hand back. */
module External {

  /** The conventional Some/None wrapper. */
  datatype Option<+T> = None | Some(value: T) {

    /** The wrapped value, or `default` when there is none. */
    function GetOr(default: T): T {
      match this
      case Some(v) => v
      case None => default
    }
  }

  /** What one call to the generative model produced: either the call raised
      (transport error, blocked reply, unreadable `.text`), or it returned text. */
  datatype Reply = Failure | Text(text: string)
}
