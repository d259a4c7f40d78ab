/** Small value types shared by every module of the model. */
module Common {

  /** A value that may be absent: a missing store key, a `null` field. */
  datatype Option<+T> = None | Some(value: T) {
    function GetOr(default: T): T {
      match this
      case Some(v) => v
      case None => default
    }
  }

  /** The outcome of an asynchronous call that either resolves or throws. */
  datatype Result<+T> = Ok(value: T) | Err(error: string)

  /** A calendar day in local time, numbered consecutively (day n + 1 is the day after day n). */
  type Day = int

  /** The message the query hooks throw when the remote actor is not ready yet. */
  const ActorNotInitialized: string := "Actor not initialized"
}
