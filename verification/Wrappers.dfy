/** Result carriers shared by the modules of this project. */
module Wrappers {

  /** A Go pointer or map entry that may be absent. */
  datatype Option<+T> = None | Some(value: T)

  /** A Go `(value, error)` pair: exactly one side is meaningful. */
  datatype Result<+T> = Ok(value: T) | Err(reason: string)

  /** Go's delete(m, k). */
  function Without<K, V>(m: map<K, V>, k: K): map<K, V> { map x | x in m && x != k :: m[x] }
}
