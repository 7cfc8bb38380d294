/** Values that may be absent, and arithmetic on naturals. */
module Wrappers {

  datatype Option<+T> = None | Some(value: T) {
    function GetOr(default: T): T {
      match this
      case Some(v) => v
      case None => default
    }

    /** The first of two that is present. */
    function Or(other: Option<T>): Option<T> {
      if Some? then this else other
    }
  }

  /** Subtraction that stops at zero. */
  function Monus(a: nat, b: nat): nat {
    if a > b then a - b else 0
  }

  function Min(a: nat, b: nat): (m: nat)
    ensures m <= a && m <= b && (m == a || m == b)
  {
    if a <= b then a else b
  }

  predicate NoRepeats<T(==)>(s: seq<T>) {
    forall i, j :: 0 <= i < j < |s| ==> s[i] != s[j]
  }
}
