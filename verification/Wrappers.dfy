// Failure-compatible values: Go's (value, ok) pairs and (value, error) pairs.
module Wrappers {

  datatype Option<+T> = None | Some(value: T)

  datatype Result<+T> = Success(value: T) | Failure(error: string)

  // A map read that yields no value for an absent key.
  function Find<K, V>(m: map<K, V>, k: K): Option<V> {
    if k in m then Some(m[k]) else None
  }
}
