/** Optional values and error-carrying results, standing in for Java's `null` and thrown exceptions. */
module Wrappers {
  datatype Option<T> = None | Some(value: T)
  {
    function GetOr(default: T): (r: T)
      ensures Some? ==> r == value
      ensures None? ==> r == default
    {
      match this
      case None => default
      case Some(v) => v
    }
  }

  datatype Result<T, E> = Ok(value: T) | Err(error: E)

  /** A listing of a map's keys without repetition: the order a hash map's iteration visits them in. */
  predicate Enumerates<K, V>(keys: seq<K>, m: map<K, V>) {
    (forall k | k in keys :: k in m) && (forall k | k in m :: k in keys)
    && forall i, j | 0 <= i < j < |keys| :: keys[i] != keys[j]
  }
}
