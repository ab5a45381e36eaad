/** Small shared vocabulary: the Java `long` range and an optional value (a Java `null` result). */
module Common {

  /** A Java `long`: the type of update ids and trade ids. */
  newtype int64 = x: int | -0x8000_0000_0000_0000 <= x < 0x8000_0000_0000_0000

  /** A reference that may be `null`. */
  datatype Option<+T> = None | Some(value: T)
}
