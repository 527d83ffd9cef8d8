/** Optional values and results shared by every module of the model:
    `null`/`undefined` become `None`, a thrown exception becomes `Err`. */
module Options {

  datatype Option<+T> = None | Some(value: T) {
    /** The value, or `default` when absent (JavaScript's `??`). */
    function GetOr(default: T): T {
      match this
      case Some(v) => v
      case None => default
    }
  }

  datatype Result<+T, +E> = Ok(value: T) | Err(error: E)
}
