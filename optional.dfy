/** Optional values: PHP's `null` versus a present value, and map lookup that yields one. */
module Optional {

  /** `None` stands for PHP `null` (what `isset` calls absent); `Some("")` is present. */
  datatype Option<T> = None | Some(value: T)

  /** The value under `k`, or `None` when `m` has no entry for it. */
  function Lookup<K, V>(m: map<K, V>, k: K): (r: Option<V>)
    ensures r.Some? <==> k in m
    ensures r.Some? ==> r.value == m[k]
  {
    if k in m then Some(m[k]) else None
  }
}
