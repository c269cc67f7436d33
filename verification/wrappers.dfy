/** Small value wrappers shared by the whole model. */
module Wrappers {
  /** An unsigned 8-bit byte. */
  type Byte = b: int | 0 <= b < 256

  /** An optional value, as `std::optional` is used throughout the simulator. */
  datatype Option<T> = None | Some(value: T)
  {
    function GetOr(default: T): T
    {
      match this
      case None => default
      case Some(v) => v
    }
  }

  /** A value or an error, for operations that can fail on their input. */
  datatype Result<T, E> = Success(value: T) | Failure(error: E)

  /** Appending is associative. */
  lemma AppendAssoc<T>(a: seq<T>, b: seq<T>, c: seq<T>)
    ensures a + (b + c) == a + b + c
  {
  }
}
