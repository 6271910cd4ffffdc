/** An optional value, and the two map operations every Redis hash below needs. */
module Options {
  datatype Option<+T> = None | Some(value: T)

  /** HGET: the field's value, if the field exists. */
  function Lookup<K, V>(m: map<K, V>, k: K): Option<V> {
    if k in m then Some(m[k]) else None
  }

  /** HSET of a present value, HDEL of an absent one. */
  function Put<K, V>(m: map<K, V>, k: K, v: Option<V>): map<K, V> {
    match v
    case Some(x) => m[k := x]
    case None => m - {k}
  }
}
