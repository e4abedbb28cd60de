// A value that may be absent.
module Options {
  datatype Option<+T> = None | Some(value: T)

  function KeepOr<T>(choice: Option<T>, current: T): T {
    if choice.Some? then choice.value else current
  }

  function Lookup<K, V>(m: map<K, V>, k: K): (r: Option<V>)
    ensures r.Some? <==> k in m
    ensures k in m ==> r == Some(m[k])
  {
    if k in m then Some(m[k]) else None
  }
}
