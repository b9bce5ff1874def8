/** Small integer functions, and sequences of indices. */
module Numbers {

  function Min(a: int, b: int): int {
    if a <= b then a else b
  }

  function Max(a: int, b: int): int {
    if a >= b then a else b
  }

  /** A slice bound, as Python reads it: negative counts from the end, and both ends clip. */
  function SliceBound(x: int, n: nat): (r: nat)
    ensures r <= n
  {
    if x < 0 then (if x + n < 0 then 0 else x + n) else if x > n then n else x
  }

  ghost predicate Within(xs: seq<nat>, n: nat) {
    forall k :: 0 <= k < |xs| ==> xs[k] < n
  }

  ghost predicate Distinct(xs: seq<nat>) {
    forall i, j :: 0 <= i < j < |xs| ==> xs[i] != xs[j]
  }
}
