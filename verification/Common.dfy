/** Shared value types. */
module Common {

  datatype Option<+T> = None | Some(value: T)

  datatype Result<+T, +E> = Ok(value: T) | Err(error: E)

  /** UUIDs are compared for equality and, as 16-byte strings, by order. */
  type Uuid = nat

  /** Timestamps and durations, in one unit on one clock. */
  type Time = int

  type Octet = b: int | 0 <= b < 256

  type Bytes = seq<Octet>

  lemma SubsetSize<T>(a: set<T>, b: set<T>)
    requires a <= b
    ensures |a| <= |b|
  {
    assert b == a + (b - a);
  }
}
