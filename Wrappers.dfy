/** Failure-carrying wrappers shared by every module: a nullable value and a value-or-error. */
module Wrappers {

  /** A value that may be absent (Java/Kotlin `null`). */
  datatype Option<+T> = None | Some(value: T) {
    function GetOr(default: T): T {
      match this
      case Some(v) => v
      case None => default
    }
  }

  /** A value or the error (exception) that replaced it. */
  datatype Result<+T, +E> = Ok(value: T) | Err(error: E)

  /** Map lookup that answers `None` for a missing key, like `Map.get` in Java and Kotlin. */
  function Get<K, V>(m: map<K, V>, k: K): (r: Option<V>)
    ensures r.Some? <==> k in m
    ensures r.Some? ==> r.value == m[k]
  {
    if k in m then Some(m[k]) else None
  }

  predicate StartsWith(s: string, prefix: string) {
    |prefix| <= |s| && s[..|prefix|] == prefix
  }

  predicate EndsWith(s: string, suffix: string) {
    |suffix| <= |s| && s[|s| - |suffix|..] == suffix
  }
}
