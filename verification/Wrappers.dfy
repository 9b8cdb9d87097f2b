module Wrappers {
  /** A value that may be absent: `null`, `undefined`, or a row that is not there. */
  datatype Option<+T> = None | Some(value: T) {
    /** The `??` operator. */
    function Or(other: Option<T>): Option<T> {
      if Some? then this else other
    }

    function GetOr(default: T): T {
      if Some? then value else default
    }
  }

  function Lookup<K, V>(m: map<K, V>, k: K): Option<V> {
    if k in m then Some(m[k]) else None
  }

  /** An element of a set that is not empty. */
  lemma Pick<T>(s: set<T>) returns (x: T)
    requires |s| > 0
    ensures x in s
  {
    x :| x in s;
  }
}
