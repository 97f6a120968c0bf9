/** Shared result types. */
module Wrappers {
  /** A value that may be absent (the source's `None`). */
  datatype Option<+T> = None | Some(value: T)

  function Copies<T>(n: nat, v: T): (r: seq<T>)
    ensures |r| == n && forall i :: 0 <= i < n ==> r[i] == v
  {
    seq(n, _ => v)
  }
}
