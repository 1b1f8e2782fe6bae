/** Optional values, and what a call into an external collaborator gave back. */
module Wrappers {

  /** Python's `Optional[T]`: `None` or a value. */
  datatype Option<+T> = None | Some(value: T) {

    /** The value, or `default` when there is none. */
    function GetOr(default: T): T {
      match this
      case Some(v) => v
      case None => default
    }
  }

  /** The result of a call into code outside the model (the vector index, the
      web-search client): the value it returned, or the message `str(e)` of the
      exception it raised. */
  datatype Outcome<+T> = Returned(value: T) | Raised(message: string)

  /** Python's `d.get(key, default)` on a dictionary. */
  function Get<K, V>(d: map<K, V>, key: K, default: V): (r: V)
    ensures key in d ==> r == d[key]
    ensures key !in d ==> r == default
  {
    if key in d then d[key] else default
  }

  /** Python's `min(max(low, x), high)`. */
  function Clamp(x: int, low: int, high: int): (r: int)
    requires low <= high
    ensures low <= r <= high
    ensures low <= x <= high ==> r == x
    ensures x < low ==> r == low
    ensures x > high ==> r == high
  {
    var atLeast := if low < x then x else low;
    if atLeast < high then atLeast else high
  }
}
