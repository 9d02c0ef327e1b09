/** The optional value used throughout the model for JavaScript's `null`/`undefined`. */
module Options {

  datatype Option<+T> = None | Some(value: T)

  /** A lookup in a finite map, None when the key is absent (localStorage.getItem). */
  function Get<K, V>(m: map<K, V>, k: K): (r: Option<V>)
    ensures r.Some? <==> k in m
    ensures r.Some? ==> r.value == m[k]
  {
    if k in m then Some(m[k]) else None
  }
}
