/** Sums of sequences of counts, their prefix sums, and the interval an offset falls into. */
module Sums {

  function Sum(xs: seq<int>): int {
    if xs == [] then 0 else Sum(xs[..|xs| - 1]) + xs[|xs| - 1]
  }

  ghost predicate AllNonNegative(xs: seq<int>) {
    forall i :: 0 <= i < |xs| ==> 0 <= xs[i]
  }

  lemma {:induction false} PrefixStep(xs: seq<int>, i: nat)
    requires i < |xs|
    ensures Sum(xs[..i + 1]) == Sum(xs[..i]) + xs[i]
  {
    assert xs[..i + 1][..i] == xs[..i];
  }

  lemma {:induction false} PrefixWhole(xs: seq<int>)
    ensures Sum(xs[..0]) == 0 && Sum(xs[..|xs|]) == Sum(xs)
  {
    assert xs[..|xs|] == xs;
  }

  /** Prefix sums of nonnegative counts never decrease. */
  lemma {:induction false} PrefixMonotone(xs: seq<int>, i: nat, j: nat)
    requires AllNonNegative(xs) && i <= j <= |xs|
    ensures Sum(xs[..i]) <= Sum(xs[..j])
    decreases j - i
  {
    if i < j {
      PrefixMonotone(xs, i, j - 1);
      PrefixStep(xs, j - 1);
    }
  }

  lemma {:induction false} PrefixBounds(xs: seq<int>, i: nat)
    requires AllNonNegative(xs) && i <= |xs|
    ensures 0 <= Sum(xs[..i]) <= Sum(xs)
  {
    PrefixMonotone(xs, 0, i);
    PrefixMonotone(xs, i, |xs|);
    PrefixWhole(xs);
  }

  lemma {:induction false} SumConcat(a: seq<int>, b: seq<int>)
    ensures Sum(a + b) == Sum(a) + Sum(b)
    decreases |b|
  {
    if b == [] {
      assert a + b == a;
    } else {
      var n := |b| - 1;
      SumConcat(a, b[..n]);
      assert (a + b)[..|a + b| - 1] == a + b[..n];
    }
  }

  lemma {:induction false} SumAtMost(xs: seq<int>, bound: nat)
    requires forall i :: 0 <= i < |xs| ==> xs[i] <= bound
    ensures Sum(xs) <= |xs| * bound
  {
    if xs != [] {
      SumAtMost(xs[..|xs| - 1], bound);
      assert |xs| * bound == (|xs| - 1) * bound + bound;
    }
  }

  /** The interval [prefix(i), prefix(i + 1)) that holds offset t. */
  function Owner(xs: seq<int>, t: int): (i: nat)
    requires 0 <= t < Sum(xs)
    ensures i < |xs| && Sum(xs[..i]) <= t < Sum(xs[..i + 1])
  {
    var n := |xs| - 1;
    assert xs[..n + 1] == xs;
    if t >= Sum(xs[..n]) then n
    else
      var i := Owner(xs[..n], t);
      assert xs[..n][..i] == xs[..i] && xs[..n][..i + 1] == xs[..i + 1];
      i
  }

  /** Nonnegative counts tile the offsets: no offset lies in two intervals. */
  lemma {:induction false} OwnerUnique(xs: seq<int>, t: int, i: nat)
    requires AllNonNegative(xs) && i < |xs|
    requires Sum(xs[..i]) <= t < Sum(xs[..i + 1])
    ensures 0 <= t < Sum(xs) && Owner(xs, t) == i
  {
    PrefixBounds(xs, i);
    PrefixBounds(xs, i + 1);
    var o := Owner(xs, t);
    if o < i {
      PrefixMonotone(xs, o + 1, i);
    } else if i < o {
      PrefixMonotone(xs, i + 1, o);
    }
  }
}
