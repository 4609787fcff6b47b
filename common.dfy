/** Value types shared by the remote and the local side of the model. */
module Common {

  datatype Option<T> = None | Some(value: T) {
    function GetOr(default: T): T {
      match this
      case Some(v) => v
      case None => default
    }
  }

  /** The result of a Kotlin call that either returns a value or throws. */
  datatype Outcome<T> = Returned(value: T) | Thrown

  /** A `java.time.LocalDateTime`, kept opaque: the model only compares instants for equality. */
  datatype LocalDateTime = LocalDateTime(instant: int)

  /** A Kotlin `Double`, kept as its IEEE-754 bit pattern: no floating-point reasoning is done. */
  datatype Double = Double(bits: bv64)

  /** An `android.net.Uri`, kept opaque. */
  datatype Uri = Uri(text: string)
}
