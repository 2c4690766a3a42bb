/** An optional value, and the bookkeeping of the views' error dictionaries. */
module Wrappers {
  datatype Option<+T> = None | Some(value: T)

  /** `m.get(k)`: the entry of `m` for key `k`, if any. */
  function Lookup<K, V>(m: map<K, V>, k: K): Option<V> {
    if k in m then Some(m[k]) else None
  }

  /** `m` with the outcome `e` of one check written under `k` (nothing when the check passed). */
  function Record<K, V>(m: map<K, V>, k: K, e: Option<V>): map<K, V> {
    if e.Some? then m[k := e.value] else m
  }
}
