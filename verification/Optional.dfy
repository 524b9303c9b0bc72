/** An optional value: a Redis reply that may be nil, a map lookup that may miss. */
module Optional {
  datatype Option<+T> = None | Some(value: T)

  function Lookup<K, V>(m: map<K, V>, k: K): Option<V> {
    if k in m then Some(m[k]) else None
  }
}
