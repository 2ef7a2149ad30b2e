/** Outcome types and the small definitions several components share. */
module Wrappers {
  datatype Option<+T> = None | Some(value: T)

  datatype Result<+T, +E> = Ok(value: T) | Err(error: E)

  /** A key looked up the way Python's `dict.get` does. */
  function At<K, V>(m: map<K, V>, key: K): Option<V> { if key in m then Some(m[key]) else None }

  /** A SHA-256 digest as hexadecimal text. */
  predicate IsHash(s: string) {
    |s| == 64 && forall i :: 0 <= i < 64 ==> '0' <= s[i] <= '9' || 'a' <= s[i] <= 'f'
  }
}
