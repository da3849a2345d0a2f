/**
 The arithmetic progressions the fischertechnik ramps pass to run(): speeds
 counted up or down by a fixed step once per main-loop tick.
 */
module Ramps {

  /** n values starting at from, each step apart. */
  function Count(from: int, step: int, n: nat): (r: seq<int>)
    ensures |r| == n
    ensures forall i :: 0 <= i < n ==> r[i] == from + i * step
    decreases n
  {
    if n == 0 then [] else [from] + Count(from + step, step, n - 1)
  }
}
