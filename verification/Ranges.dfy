/** Runs of consecutive numbers: slots in slot order. */
module Ranges {

  function From(a: nat, n: nat): (r: seq<nat>)
    requires a <= n
    ensures |r| == n - a && forall i :: 0 <= i < |r| ==> r[i] == a + i
  {
    seq(n - a, i requires 0 <= i => a + i)
  }
}
