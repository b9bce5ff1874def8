/** The index operations of the padding code (aiter/bert_padding.py): gather, scatter and scatter-add along the
    first axis, and which of them are adjoint to each other. */
module BertIndex {
  import opened Numbers

  function Gathered<T>(x: seq<T>, indices: seq<nat>): (r: seq<T>)
    requires Within(indices, |x|)
    ensures |r| == |indices| && forall k {:trigger r[k]} :: 0 <= k < |indices| ==> r[k] == x[indices[k]]
  {
    seq(|indices|, k requires 0 <= k < |indices| => x[indices[k]])
  }

  /** Row k of the values has been written to row p. */
  ghost predicate WrittenFrom<T>(indices: seq<nat>, values: seq<T>, p: nat, k: nat, x: T) {
    k < |indices| == |values| && indices[k] == p && x == values[k]
  }

  /** r holds one of the values written to each row, whichever came last, and zero where none was. */
  ghost predicate Scattered<T(!new)>(n: nat, zero: T, indices: seq<nat>, values: seq<T>, r: seq<T>) {
    && |r| == n && |indices| == |values|
    && forall p :: 0 <= p < n ==>
         if p in indices then exists k: nat :: WrittenFrom(indices, values, p, k, r[p]) else r[p] == zero
  }

  // ---------------------------------------------------------------------------
  // The operations
  // ---------------------------------------------------------------------------

  method Gather<T(0)>(x: array<T>, indices: seq<nat>) returns (r: array<T>)
    requires Within(indices, x.Length)
    ensures fresh(r) && r[..] == Gathered(x[..], indices)
  {
    r := new T[|indices|];
    for k := 0 to |indices|
      invariant forall i :: 0 <= i < k ==> r[i] == x[indices[i]]
    {
      r[k] := x[indices[k]];
    }
  }

  /** Zeroes a fresh buffer and overwrites the indexed rows. */
  method Scatter<T(!new)>(n: nat, zero: T, indices: seq<nat>, values: array<T>) returns (r: array<T>)
    requires Within(indices, n) && |indices| == values.Length
    ensures fresh(r) && Scattered(n, zero, indices, values[..], r[..])
  {
    r := new T[n](_ => zero);
    for k := 0 to |indices|
      invariant Scattered(n, zero, indices[..k], values[..k], r[..])
    {
      ghost var before := r[..];
      r[indices[k]] := values[k];
      ScatterOne(n, zero, indices, values[..], k, before, r[..]);
      assert values[..][..k] == values[..k] && values[..][..k + 1] == values[..k + 1];
    }
    assert indices[..|indices|] == indices && values[..|indices|] == values[..];
  }

  lemma {:induction false} ScatterOne<T(!new)>(n: nat, zero: T, indices: seq<nat>, values: seq<T>, k: nat,
                                               before: seq<T>, after: seq<T>)
    requires |indices| == |values| && k < |indices| && indices[k] < n
    requires Scattered(n, zero, indices[..k], values[..k], before) && after == before[indices[k] := values[k]]
    ensures Scattered(n, zero, indices[..k + 1], values[..k + 1], after)
  {
    var more, moreValues := indices[..k + 1], values[..k + 1];
    forall p | 0 <= p < n
      ensures if p in more then exists i: nat :: WrittenFrom(more, moreValues, p, i, after[p]) else after[p] == zero
    {
      if p == indices[k] {
        assert more[k] == p;
        assert WrittenFrom(more, moreValues, p, k, after[p]);
      } else if p in indices[..k] {
        var i: nat :| WrittenFrom(indices[..k], values[..k], p, i, before[p]);
        assert more[i] == p;
        assert WrittenFrom(more, moreValues, p, i, after[p]);
      }
    }
  }

  /** Adds g[k] to row indices[k], row after row. */
  function Added(x: seq<real>, indices: seq<nat>, g: seq<real>): (r: seq<real>)
    requires Within(indices, |x|) && |indices| == |g|
    ensures |r| == |x|
  {
    if indices == [] then x
    else
      var n := |indices| - 1;
      var front := Added(x, indices[..n], g[..n]);
      front[indices[n] := front[indices[n]] + g[n]]
  }

  /** The backward of the residual form adds into the residual's own gradient. */
  method ScatterAdd(x: array<real>, indices: seq<nat>, g: array<real>)
    requires Within(indices, x.Length) && |indices| == g.Length && x != g
    modifies x
    ensures x[..] == Added(old(x[..]), indices, g[..])
  {
    assert g[..0] == [] && indices[..0] == [];
    for k := 0 to |indices|
      invariant x[..] == Added(old(x[..]), indices[..k], g[..k])
      invariant g[..] == old(g[..])
    {
      assert indices[..k + 1][..k] == indices[..k] && g[..k + 1][..k] == g[..k];
      x[indices[k]] := x[indices[k]] + g[k];
    }
    assert indices[..|indices|] == indices && g[..|indices|] == g[..];
  }

  // ---------------------------------------------------------------------------
  // Round trips
  // ---------------------------------------------------------------------------

  /** Gathering after scattering is the identity when no row is written twice. */
  lemma {:induction false} GatherAfterScatter<T(!new)>(n: nat, zero: T, indices: seq<nat>, values: seq<T>, r: seq<T>)
    requires Within(indices, n) && Distinct(indices) && Scattered(n, zero, indices, values, r)
    ensures Gathered(r, indices) == values
  {
    forall k | 0 <= k < |indices|
      ensures r[indices[k]] == values[k]
    {
      assert indices[k] in indices;
      var i: nat :| WrittenFrom(indices, values, indices[k], i, r[indices[k]]);
      assert !(i < k) && !(k < i);
    }
  }

  /** Scattering after gathering keeps the indexed rows, whatever order they are written in, and zeroes the
      others. */
  lemma {:induction false} ScatterAfterGather<T(!new)>(zero: T, indices: seq<nat>, x: seq<T>, r: seq<T>, p: nat)
    requires Within(indices, |x|) && Scattered(|x|, zero, indices, Gathered(x, indices), r) && p < |x|
    ensures r[p] == if p in indices then x[p] else zero
  {
    if p in indices {
      var k: nat :| WrittenFrom(indices, Gathered(x, indices), p, k, r[p]);
    }
  }

  // ---------------------------------------------------------------------------
  // Adjoints
  // ---------------------------------------------------------------------------

  function Dot(a: seq<real>, b: seq<real>): real
    requires |a| == |b|
  {
    if a == [] then 0.0 else Dot(a[..|a| - 1], b[..|b| - 1]) + a[|a| - 1] * b[|b| - 1]
  }

  lemma {:induction false} DotUpdate(a: seq<real>, b: seq<real>, p: nat, v: real)
    requires |a| == |b| && p < |a|
    ensures Dot(a[p := v], b) == Dot(a, b) + (v - a[p]) * b[p]
  {
    var n := |a| - 1;
    if p == n {
      assert a[p := v][..n] == a[..n];
    } else {
      DotUpdate(a[..n], b[..n], p, v);
      assert a[p := v][..n] == a[..n][p := v];
    }
  }

  lemma {:induction false} DotZeros(a: seq<real>, b: seq<real>)
    requires |a| == |b| && forall p :: 0 <= p < |a| ==> a[p] == 0.0
    ensures Dot(a, b) == 0.0
  {
    if a != [] {
      DotZeros(a[..|a| - 1], b[..|b| - 1]);
    }
  }

  lemma {:induction false} DotCommutes(a: seq<real>, b: seq<real>)
    requires |a| == |b|
    ensures Dot(a, b) == Dot(b, a)
  {
    if a != [] {
      DotCommutes(a[..|a| - 1], b[..|b| - 1]);
    }
  }

  lemma {:induction false} GatheredFront<T>(x: seq<T>, indices: seq<nat>, n: nat)
    requires Within(indices, |x|) && n <= |indices|
    ensures Within(indices[..n], |x|) && Gathered(x, indices)[..n] == Gathered(x, indices[..n])
  {
  }

  /** The residual backward is the adjoint of its forward for all indices, repeated ones too. */
  lemma {:induction false} ScatterAddAdjoint(y: seq<real>, indices: seq<nat>, g: seq<real>, x: seq<real>)
    requires Within(indices, |y|) && |indices| == |g| && |x| == |y|
    ensures Dot(Added(y, indices, g), x) == Dot(y, x) + Dot(g, Gathered(x, indices))
    decreases |indices|
  {
    if indices == [] {
      assert Dot(g, Gathered(x, indices)) == 0.0;
    } else {
      var n := |indices| - 1;
      ScatterAddAdjoint(y, indices[..n], g[..n], x);
      var front := Added(y, indices[..n], g[..n]);
      DotUpdate(front, x, indices[n], front[indices[n]] + g[n]);
      GatheredFront(x, indices, n);
    }
  }

  /** With no row written twice, overwriting zeros is adding to zeros. */
  lemma {:induction false} ScatterIsAdded(n: nat, indices: seq<nat>, g: seq<real>, zeros: seq<real>, r: seq<real>)
    requires Within(indices, n) && Distinct(indices) && Scattered(n, 0.0, indices, g, r)
    requires |zeros| == n && forall p :: 0 <= p < n ==> zeros[p] == 0.0
    ensures r == Added(zeros, indices, g)
  {
    forall p | 0 <= p < n
      ensures r[p] == Added(zeros, indices, g)[p]
    {
      if p in indices {
        var k: nat :| WrittenFrom(indices, g, p, k, r[p]);
        AddedOnce(zeros, indices, g, k);
      } else {
        AddedElsewhere(zeros, indices, g, p);
      }
    }
  }

  lemma {:induction false} AddedElsewhere(x: seq<real>, indices: seq<nat>, g: seq<real>, p: nat)
    requires Within(indices, |x|) && |indices| == |g| && p < |x| && p !in indices
    ensures Added(x, indices, g)[p] == x[p]
    decreases |indices|
  {
    if indices != [] {
      var n := |indices| - 1;
      assert indices[n] in indices;
      AddedElsewhere(x, indices[..n], g[..n], p);
    }
  }

  lemma {:induction false} AddedOnce(x: seq<real>, indices: seq<nat>, g: seq<real>, k: nat)
    requires Within(indices, |x|) && |indices| == |g| && k < |indices| && Distinct(indices)
    ensures Added(x, indices, g)[indices[k]] == x[indices[k]] + g[k]
    decreases |indices|
  {
    var n := |indices| - 1;
    if k == n {
      AddedElsewhere(x, indices[..n], g[..n], indices[n]);
    } else {
      AddedOnce(x, indices[..n], g[..n], k);
      assert indices[k] != indices[n];
    }
  }

  /** Scatter is the adjoint of gather: <scatter(g), x> = <g, gather(x)>. */
  lemma {:induction false} ScatterAdjoint(n: nat, indices: seq<nat>, g: seq<real>, r: seq<real>, x: seq<real>)
    requires Within(indices, n) && Distinct(indices) && Scattered(n, 0.0, indices, g, r) && |x| == n
    ensures Dot(r, x) == Dot(g, Gathered(x, indices))
  {
    var zeros := seq(n, _ => 0.0);
    ScatterIsAdded(n, indices, g, zeros, r);
    ScatterAddAdjoint(zeros, indices, g, x);
    DotZeros(zeros, x);
  }

  /** The pair is adjoint on all inputs, whichever of two colliding writes wins. */
  ghost predicate AlwaysAdjoint(n: nat, indices: seq<nat>)
    requires Within(indices, n)
  {
    forall g: seq<real>, r: seq<real>, x: seq<real> | Scattered(n, 0.0, indices, g, r) && |x| == n ::
      Dot(r, x) == Dot(g, Gathered(x, indices))
  }

  function Ones(n: nat): (r: seq<real>)
    ensures |r| == n && forall i :: 0 <= i < n ==> r[i] == 1.0
  {
    seq(n, _ => 1.0)
  }

  /** Where the indices hit, as ones. */
  function Hit(n: nat, indices: seq<nat>): (r: seq<real>)
    ensures |r| == n && forall p :: 0 <= p < n ==> r[p] == if p in indices then 1.0 else 0.0
  {
    seq(n, p requires 0 <= p < n => if p in indices then 1.0 else 0.0)
  }

  lemma {:induction false} HitIsScattered(n: nat, indices: seq<nat>)
    requires Within(indices, n)
    ensures Scattered(n, 0.0, indices, Ones(|indices|), Hit(n, indices))
  {
    forall p | 0 <= p < n && p in indices
      ensures exists k: nat :: WrittenFrom(indices, Ones(|indices|), p, k, Hit(n, indices)[p])
    {
      var k :| 0 <= k < |indices| && indices[k] == p;
      assert WrittenFrom(indices, Ones(|indices|), p, k, Hit(n, indices)[p]);
    }
  }

  lemma {:induction false} DotOnes(n: nat)
    ensures Dot(Ones(n), Ones(n)) == n as real
  {
    if n > 0 {
      DotOnes(n - 1);
      assert Ones(n)[..n - 1] == Ones(n - 1);
    }
  }

  function Marks(n: nat, p: nat): (r: seq<real>)
    ensures |r| == n && forall i :: 0 <= i < n ==> r[i] == if i == p then 1.0 else 0.0
  {
    seq(n, i requires 0 <= i < n => if i == p then 1.0 else 0.0)
  }

  lemma {:induction false} DotMark(a: seq<real>, p: nat)
    requires p < |a|
    ensures Dot(a, Marks(|a|, p)) == a[p]
  {
    var n := |a| - 1;
    if p == n {
      DotCommutes(a[..n], Marks(|a|, p)[..n]);
      DotZeros(Marks(|a|, p)[..n], a[..n]);
    } else {
      DotMark(a[..n], p);
      assert Marks(|a|, p)[..n] == Marks(n, p);
    }
  }

  /** Two hits on the same row count twice in the gathered sum. */
  lemma {:induction false} TwoHits(g: seq<real>, x: seq<real>, i: nat, j: nat)
    requires |g| == |x| && i < j < |g| && x[i] == 1.0 && x[j] == 1.0
    requires forall k :: 0 <= k < |g| ==> g[k] == 1.0 && x[k] >= 0.0
    ensures Dot(g, x) >= 2.0
  {
    var n := |g| - 1;
    if j == n {
      OneHit(g[..n], x[..n], i);
    } else {
      TwoHits(g[..n], x[..n], i, j);
    }
  }

  lemma {:induction false} OneHit(g: seq<real>, x: seq<real>, i: nat)
    requires |g| == |x| && i < |g| && x[i] == 1.0
    requires forall k :: 0 <= k < |g| ==> g[k] == 1.0 && x[k] >= 0.0
    ensures Dot(g, x) >= 1.0
  {
    var n := |g| - 1;
    if i == n {
      DotNonNegative(g[..n], x[..n]);
    } else {
      OneHit(g[..n], x[..n], i);
    }
  }

  lemma {:induction false} DotNonNegative(g: seq<real>, x: seq<real>)
    requires |g| == |x| && forall k :: 0 <= k < |g| ==> g[k] == 1.0 && x[k] >= 0.0
    ensures Dot(g, x) >= 0.0
  {
    if g != [] {
      DotNonNegative(g[..|g| - 1], x[..|g| - 1]);
    }
  }

  lemma {:induction false} RepeatedIndexBreaks(n: nat, indices: seq<nat>, i: nat, j: nat)
    requires Within(indices, n) && i < j < |indices| && indices[i] == indices[j]
    ensures !AlwaysAdjoint(n, indices)
  {
    var g, r, x := Ones(|indices|), Hit(n, indices), Marks(n, indices[i]);
    HitIsScattered(n, indices);
    DotMark(r, indices[i]);
    assert indices[i] in indices;
    TwoHits(g, Gathered(x, indices), i, j);
    assert Dot(r, x) != Dot(g, Gathered(x, indices));
  }

  /** The same row gathered twice. */
  lemma {:induction false} SameRowTwice()
    ensures Within([0, 0], 1) && !AlwaysAdjoint(1, [0, 0])
  {
    RepeatedIndexBreaks(1, [0, 0], 0, 1);
  }

  /** Overwriting is the adjoint of gathering exactly when no index is repeated. */
  lemma {:induction false} AdjointExactlyWhenDistinct(n: nat, indices: seq<nat>)
    requires Within(indices, n)
    ensures AlwaysAdjoint(n, indices) <==> Distinct(indices)
  {
    if Distinct(indices) {
      forall g: seq<real>, r: seq<real>, x: seq<real> | Scattered(n, 0.0, indices, g, r) && |x| == n
        ensures Dot(r, x) == Dot(g, Gathered(x, indices))
      {
        ScatterAdjoint(n, indices, g, r, x);
      }
    } else {
      var i, j :| 0 <= i < j < |indices| && indices[i] == indices[j];
      RepeatedIndexBreaks(n, indices, i, j);
    }
  }
}
