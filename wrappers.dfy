/** Optional values: a Java reference that may be `null`, or a lookup that may miss. */
module Wrappers {

  datatype Option<+T> = None | Some(value: T)

  /** Looks `k` up in `m`, `None` when it is absent (a `fetch...` that returns `null`). */
  function Get<K, V>(m: map<K, V>, k: K): (r: Option<V>)
    ensures r.Some? <==> k in m
    ensures r.Some? ==> r.value == m[k]
  {
    if k in m then Some(m[k]) else None
  }
}
