/** Small result types used by every other module. */
module Base {
  datatype Option<+T> = None | Some(value: T)

  datatype Result<+T, +E> = Ok(value: T) | Err(error: E)

  /** A counter table in which a missing key counts zero. */
  function At<K>(counters: map<K, int>, k: K): int {
    if k in counters then counters[k] else 0
  }

  function Min(a: int, b: int): int {
    if a <= b then a else b
  }
}
