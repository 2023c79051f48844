/** Types the drivers share. */
module Common {
  /** A value that may be absent: a null pointer, a failed parse. */
  datatype Option<+T> = None | Some(value: T)

  /** An unsigned 8-bit value. */
  type byte = x: int | 0 <= x < 256

  lemma Associate<T>(a: seq<T>, b: seq<T>, c: seq<T>)
    ensures (a + b) + c == a + (b + c)
  {
  }
}
