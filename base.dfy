/** Small value types shared by every module of the model. */
module Base {

  /** An optional value: Kotlin's nullable `T?`. */
  datatype Option<+T> = None | Some(value: T) {
    function GetOr(default: T): T {
      match this
      case Some(v) => v
      case None => default
    }
  }

  /** A JVM byte, taken unsigned (what `& 0xff` yields). */
  type byte = x: int | 0 <= x < 256
}
