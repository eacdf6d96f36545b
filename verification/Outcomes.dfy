/** The option and result values shared by every component. */
module Outcomes {

  datatype Option<+T> = None | Some(value: T)

  /** A value, or the exception that was thrown instead. */
  datatype Result<+T, +E> = Ok(value: T) | Err(error: E)

  /** JavaScript's `x ?? fallback`. */
  function Coalesce<T>(x: Option<T>, fallback: T): T {
    if x.Some? then x.value else fallback
  }

  /** JavaScript's `map.get(key)`. */
  function Lookup<K, V>(m: map<K, V>, key: K): Option<V> {
    if key in m then Some(m[key]) else None
  }
}
