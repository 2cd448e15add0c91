/** The optional values and results the model uses in place of Rust's. */
module Wrappers {

  datatype Option<T> = None | Some(value: T) {
    /** The value held here if there is one, else the other side's. */
    function Or(other: Option<T>): Option<T> {
      if Some? then this else other
    }

    /** The other side's value, but only where there is one here too. */
    function And(other: Option<T>): Option<T> {
      if Some? then other else None
    }
  }

  datatype Result<T> = Ok(value: T) | Err

  function UnwrapOr<T>(o: Option<T>, default: T): T {
    if o.Some? then o.value else default
  }

  function Get<K, V>(m: map<K, V>, k: K): Option<V> {
    if k in m then Some(m[k]) else None
  }

  /** The elements that pass, in their order. */
  function Filter<T(!new)>(s: seq<T>, keep: T -> bool): (kept: seq<T>)
    ensures |kept| <= |s|
    ensures forall x :: x in kept <==> x in s && keep(x)
  {
    if s == [] then []
    else
      var front, last := Filter(s[..|s| - 1], keep), s[|s| - 1];
      assert s == s[..|s| - 1] + [last];
      if keep(last) then front + [last] else front
  }
}
