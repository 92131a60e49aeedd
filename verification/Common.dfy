/** Datatypes and helpers the services share. */
module Common {
  datatype Option<+T> = None | Some(value: T)
  datatype Either<+T, +E> = Ok(value: T) | Err(error: E)

  function Min(a: nat, b: nat): nat {
    if a <= b then a else b
  }

  function Without<K, V>(m: map<K, V>, k: K): map<K, V> {
    map j | j in m && j != k :: m[j]
  }
}
