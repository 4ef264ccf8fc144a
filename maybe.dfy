/** A value that may be absent: JSON `null`, a TypeScript `undefined`, an SQL NULL. */
module Maybe {

  datatype Option<T> = None | Some(value: T) {

    /** The value, or `default` when absent (JavaScript's `??`). */
    function GetOr(default: T): T {
      match this
      case Some(v) => v
      case None => default
    }
  }
}
