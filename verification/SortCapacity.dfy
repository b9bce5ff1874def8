/** Sizes of the expert-sorting buffers (aiter/fused_moe.py) against every routing: each expert's routes are
    padded to whole blocks of the given size. */
module SortCapacity {
  import opened Sums
  import opened RowMajor
  import opened Buckets
  import opened Numbers

  /** topk_ids: one row of expert ids per token. */
  type Routing = seq<seq<nat>>

  ghost predicate Shape(ids: Routing, topk: nat, experts: nat) {
    forall t :: 0 <= t < |ids| ==> |ids[t]| == topk && Within(ids[t], experts)
  }

  function InRow(row: seq<nat>, e: nat): nat {
    if row == [] then 0 else InRow(row[..|row| - 1], e) + if row[|row| - 1] == e then 1 else 0
  }

  /** How many routes go to expert e. */
  function Routes(ids: Routing, e: nat): nat {
    if ids == [] then 0 else Routes(ids[..|ids| - 1], e) + InRow(ids[|ids| - 1], e)
  }

  function Counts(ids: Routing, experts: nat): (c: seq<nat>)
    ensures |c| == experts
    ensures forall e :: 0 <= e < experts ==> c[e] == Routes(ids, e)
  {
    seq(experts, e requires 0 <= e < experts => Routes(ids, e))
  }

  // ---------------------------------------------------------------------------
  // The allocations
  // ---------------------------------------------------------------------------

  /** The two sorts sized by active experts: how many ids. */
  function ActiveIds(experts: nat, routes: nat, b: nat): int
    requires 0 < b
  {
    (routes + Min(experts, routes) * (b - 1) + b - 1) / b * b
  }

  /** The sort sized by all experts: how many blocks. */
  function AllBlocks(experts: nat, routes: int, topk: nat, b: nat): int
    requires 0 < b
  {
    (routes + experts * b - topk + b - 1) / b
  }

  // ---------------------------------------------------------------------------
  // Counting routes
  // ---------------------------------------------------------------------------

  function Plus(a: seq<int>, b: seq<int>): (r: seq<int>)
    requires |a| == |b|
    ensures |r| == |a| && forall i :: 0 <= i < |a| ==> r[i] == a[i] + b[i]
  {
    seq(|a|, i requires 0 <= i < |a| => a[i] + b[i])
  }

  lemma {:induction false} SumPlus(a: seq<int>, b: seq<int>)
    requires |a| == |b|
    ensures Sum(Plus(a, b)) == Sum(a) + Sum(b)
  {
    if a != [] {
      var n := |a| - 1;
      SumPlus(a[..n], b[..n]);
      assert Plus(a, b)[..n] == Plus(a[..n], b[..n]);
    }
  }

  function OneHot(n: nat, e: nat): (r: seq<int>)
    ensures |r| == n && forall i :: 0 <= i < n ==> r[i] == if i == e then 1 else 0
  {
    seq(n, i requires 0 <= i < n => if i == e then 1 else 0)
  }

  lemma {:induction false} SumOneHot(n: nat, e: nat)
    ensures Sum(OneHot(n, e)) == if e < n then 1 else 0
  {
    if n > 0 {
      SumOneHot(n - 1, e);
      assert OneHot(n, e)[..n - 1] == OneHot(n - 1, e);
    }
  }

  function RowCounts(row: seq<nat>, experts: nat): (c: seq<int>)
    ensures |c| == experts && forall e :: 0 <= e < experts ==> c[e] == InRow(row, e)
  {
    seq(experts, e requires 0 <= e < experts => InRow(row, e))
  }

  lemma {:induction false} RowCountsSum(row: seq<nat>, experts: nat)
    requires Within(row, experts)
    ensures Sum(RowCounts(row, experts)) == |row|
  {
    if row == [] {
      AllZeros(RowCounts(row, experts));
    } else {
      var front, last := row[..|row| - 1], row[|row| - 1];
      RowCountsSum(front, experts);
      SumOneHot(experts, last);
      SumPlus(RowCounts(front, experts), OneHot(experts, last));
      assert RowCounts(row, experts) == Plus(RowCounts(front, experts), OneHot(experts, last));
    }
  }

  lemma {:induction false} AllZeros(xs: seq<int>)
    requires forall i :: 0 <= i < |xs| ==> xs[i] == 0
    ensures Sum(xs) == 0
  {
    if xs != [] {
      AllZeros(xs[..|xs| - 1]);
    }
  }

  /** Every route is counted once. */
  lemma {:induction false} CountsSum(ids: Routing, topk: nat, experts: nat)
    requires Shape(ids, topk, experts)
    ensures Sum(Counts(ids, experts)) == |ids| * topk
  {
    if ids == [] {
      AllZeros(Counts(ids, experts));
    } else {
      var front, last := ids[..|ids| - 1], ids[|ids| - 1];
      CountsSum(front, topk, experts);
      RowCountsSum(last, experts);
      CountsAdd(ids, experts);
      OneMoreRow(|ids|, topk);
    }
  }

  lemma {:induction false} OneMoreRow(n: nat, topk: nat)
    requires 0 < n
    ensures n * topk == (n - 1) * topk + topk
  {
  }

  lemma {:induction false} CountsAdd(ids: Routing, experts: nat)
    requires ids != []
    ensures Sum(Counts(ids, experts))
            == Sum(Counts(ids[..|ids| - 1], experts)) + Sum(RowCounts(ids[|ids| - 1], experts))
  {
    var front, last := ids[..|ids| - 1], ids[|ids| - 1];
    SumPlus(Counts(front, experts), RowCounts(last, experts));
    assert Counts(ids, experts) == Plus(Counts(front, experts), RowCounts(last, experts));
  }

  // ---------------------------------------------------------------------------
  // Allocations by active experts
  // ---------------------------------------------------------------------------

  /** Counts that sum to at most the routes fill at most the allocated ids, and at most its blocks. */
  lemma {:induction false} CountsFitActive(counts: seq<nat>, routes: nat, b: nat)
    requires 0 < b && Sum(counts) <= routes
    ensures Sum(Blocks(counts, b)) * b <= ActiveIds(|counts|, routes, b)
    ensures Sum(Blocks(counts, b)) <= ActiveIds(|counts|, routes, b) / b
    ensures (ActiveIds(|counts|, routes, b) + b - 1) / b == ActiveIds(|counts|, routes, b) / b
  {
    var active := Min(|counts|, routes);
    PaddedItems(counts, b);
    NonEmptyAtMostItems(counts);
    MulMonotone(NonEmpty(counts), active, b - 1);
    var total := routes + active * (b - 1);
    CeilDivBounds(total, b);
    var blocks := CeilDiv(total, b);
    assert ActiveIds(|counts|, routes, b) == blocks * b;
    CancelBlocks(Sum(Blocks(counts, b)), blocks, b);
    DivMod(blocks, b, 0);
    DivMod(blocks, b, b - 1);
  }

  /** For every routing the block-padded experts fit the sorts sized by active experts. */
  lemma {:induction false} ActiveSortFits(ids: Routing, topk: nat, experts: nat, b: nat)
    requires 0 < b && Shape(ids, topk, experts)
    ensures Sum(Blocks(Counts(ids, experts), b)) * b <= ActiveIds(experts, |ids| * topk, b)
    ensures Sum(Blocks(Counts(ids, experts), b)) <= ActiveIds(experts, |ids| * topk, b) / b
  {
    CountsSum(ids, topk, experts);
    CountsFitActive(Counts(ids, experts), |ids| * topk, b);
  }

  // ---------------------------------------------------------------------------
  // The allocation by all experts
  // ---------------------------------------------------------------------------

  /** Blocks per expert when an expert without routes takes a block too. */
  function FullBlocks(counts: seq<nat>, b: nat): (r: seq<int>)
    requires 0 < b
    ensures |r| == |counts|
  {
    seq(|counts|, i requires 0 <= i < |counts| => if counts[i] == 0 then 1 else CeilDiv(counts[i], b))
  }

  lemma {:induction false} FullBlocksStep(counts: seq<nat>, b: nat, n: nat)
    requires 0 < b && |counts| == n + 1
    ensures Sum(FullBlocks(counts, b)) == Sum(FullBlocks(counts[..n], b)) + FullBlocks(counts, b)[n]
  {
    assert FullBlocks(counts, b)[..n] == FullBlocks(counts[..n], b);
  }

  lemma {:induction false} FullBlock(count: nat, b: nat)
    requires 0 < b
    ensures (if count == 0 then 1 else CeilDiv(count, b)) * b <= count + b - if count > 0 then 1 else 0
  {
    CeilDivBounds(count, b);
  }

  lemma {:induction false} AddBlocks(front: int, last: int, n: nat, b: nat, items: int)
    requires front * b <= items + n * b
    ensures (front + last) * b <= items + (n + 1) * b + (last * b - b)
  {
    assert (front + last) * b == front * b + last * b;
    assert (n + 1) * b == n * b + b;
  }

  lemma {:induction false} FullItems(counts: seq<nat>, b: nat)
    requires 0 < b
    ensures Sum(FullBlocks(counts, b)) * b <= Sum(counts) - NonEmpty(counts) + |counts| * b
  {
    if counts != [] {
      var n := |counts| - 1;
      FullItems(counts[..n], b);
      FullBlocksStep(counts, b, n);
      FullBlock(counts[n], b);
      AddBlocks(Sum(FullBlocks(counts[..n], b)), FullBlocks(counts, b)[n], n, b,
                Sum(counts[..n]) - NonEmpty(counts[..n]));
    }
  }

  /** Rounding up covers at least what is rounded, negative amounts included. */
  lemma {:induction false} RoundedUp(n: int, b: nat)
    requires 0 < b
    ensures n <= (n + b - 1) / b * b <= n + b - 1
  {
  }

  /** All blocks fit even when every empty expert takes one, as soon as topk is at most the experts in use
      plus the slack of one block. */
  lemma {:induction false} CountsFitAll(counts: seq<nat>, topk: nat, b: nat)
    requires 0 < b && topk <= NonEmpty(counts) + b - 1
    ensures Sum(FullBlocks(counts, b)) <= AllBlocks(|counts|, Sum(counts), topk, b)
  {
    FullItems(counts, b);
    RoundedUp(Sum(counts) + |counts| * b - topk, b);
    CancelBlocks(Sum(FullBlocks(counts, b)), AllBlocks(|counts|, Sum(counts), topk, b), b);
  }

  /** Distinct experts of one token are experts in use. */
  lemma {:induction false} DistinctExpertsInUse(counts: seq<nat>, row: seq<nat>)
    requires Within(row, |counts|) && Distinct(row)
    requires forall k :: 0 <= k < |row| ==> counts[row[k]] > 0
    ensures |row| <= NonEmpty(counts)
  {
    assert row != [] ==> row[0] < |counts|;
    if counts != [] {
      var n := |counts| - 1;
      if k :| 0 <= k < |row| && row[k] == n {
        var rest := row[..k] + row[k + 1..];
        assert forall i :: 0 <= i < |rest| ==> rest[i] == row[if i < k then i else i + 1];
        DistinctExpertsInUse(counts[..n], rest);
      } else {
        DistinctExpertsInUse(counts[..n], row);
      }
    }
  }

  lemma {:induction false} RowIsRouted(row: seq<nat>, k: nat)
    requires k < |row|
    ensures InRow(row, row[k]) > 0
  {
    if k < |row| - 1 {
      RowIsRouted(row[..|row| - 1], k);
    }
  }

  lemma {:induction false} TokenIsRouted(ids: Routing, t: nat, e: nat)
    requires t < |ids| && InRow(ids[t], e) > 0
    ensures Routes(ids, e) > 0
  {
    if t < |ids| - 1 {
      TokenIsRouted(ids[..|ids| - 1], t, e);
    }
  }

  /** With at least one token whose experts are distinct, the sort sized by all experts fits every routing,
      even when every expert without routes takes a block. */
  lemma {:induction false} FullSortFits(ids: Routing, topk: nat, experts: nat, b: nat)
    requires 0 < b && Shape(ids, topk, experts)
    requires exists t :: 0 <= t < |ids| && Distinct(ids[t])
    ensures Sum(FullBlocks(Counts(ids, experts), b)) <= AllBlocks(experts, |ids| * topk, topk, b)
  {
    var t :| 0 <= t < |ids| && Distinct(ids[t]);
    var counts := Counts(ids, experts);
    forall k | 0 <= k < topk
      ensures counts[ids[t][k]] > 0
    {
      RowIsRouted(ids[t], k);
      TokenIsRouted(ids, t, ids[t][k]);
    }
    DistinctExpertsInUse(counts, ids[t]);
    CountsSum(ids, topk, experts);
    CountsFitAll(counts, topk, b);
  }

  /** When only experts with routes take blocks, topk up to the number of experts is enough. */
  lemma {:induction false} PlainSortFits(ids: Routing, topk: nat, experts: nat, b: nat)
    requires 0 < b && Shape(ids, topk, experts) && topk <= experts
    ensures Sum(Blocks(Counts(ids, experts), b)) <= AllBlocks(experts, |ids| * topk, topk, b)
  {
    var counts := Counts(ids, experts);
    CountsSum(ids, topk, experts);
    PaddedItems(counts, b);
    MulMonotone(NonEmpty(counts), experts, b - 1);
    assert experts * (b - 1) == experts * b - experts;
    var total := |ids| * topk + experts * b - topk;
    assert experts * b >= experts by { MulMonotone(1, b, experts); }
    CeilDivBounds(total, b);
    CancelBlocks(Sum(Blocks(counts, b)), CeilDiv(total, b), b);
  }

  // ---------------------------------------------------------------------------
  // Exactly when the allocation by all experts is enough, if empty experts take blocks
  // ---------------------------------------------------------------------------

  ghost predicate Fits(counts: seq<nat>, topk: nat, b: nat)
    requires 0 < b
  {
    Sum(FullBlocks(counts, b)) <= AllBlocks(|counts|, Sum(counts), topk, b)
  }

  /** Every used expert has one route more than whole blocks: the worst padding. */
  ghost predicate Tight(counts: seq<nat>, b: nat)
    requires 0 < b
  {
    forall i :: 0 <= i < |counts| ==> counts[i] == 0 || (counts[i] - 1) % b == 0
  }

  lemma {:induction false} TightBlock(count: nat, b: nat)
    requires 0 < b && (count == 0 || (count - 1) % b == 0)
    ensures (if count == 0 then 1 else CeilDiv(count, b)) * b == count + b - if count > 0 then 1 else 0
  {
    if count > 0 {
      var q := (count - 1) / b;
      assert count - 1 == q * b;
      DivMod(q + 1, b, 0);
      assert (q + 1) * b == count + b - 1;
    }
  }

  lemma {:induction false} TightItems(counts: seq<nat>, b: nat)
    requires 0 < b && Tight(counts, b)
    ensures Sum(FullBlocks(counts, b)) * b == Sum(counts) - NonEmpty(counts) + |counts| * b
  {
    if counts != [] {
      var n := |counts| - 1;
      TightItems(counts[..n], b);
      FullBlocksStep(counts, b, n);
      TightBlock(counts[n], b);
      var front, last := Sum(FullBlocks(counts[..n], b)), FullBlocks(counts, b)[n];
      AddExactly(front, last, n, b, Sum(counts[..n]) - NonEmpty(counts[..n]));
    }
  }

  lemma {:induction false} AddExactly(front: int, last: int, n: nat, b: nat, items: int)
    requires front * b == items + n * b
    ensures (front + last) * b == items + (n + 1) * b + (last * b - b)
  {
    assert (front + last) * b == front * b + last * b;
    assert (n + 1) * b == n * b + b;
  }

  /** With the worst padding the allocation is enough exactly when topk is at most the experts in use plus
      the slack of one block. */
  lemma {:induction false} TightCountsFitExactly(counts: seq<nat>, topk: nat, b: nat)
    requires 0 < b && Tight(counts, b)
    ensures Fits(counts, topk, b) <==> topk <= NonEmpty(counts) + b - 1
  {
    if topk <= NonEmpty(counts) + b - 1 {
      CountsFitAll(counts, topk, b);
    } else {
      TightItems(counts, b);
      RoundedUp(Sum(counts) + |counts| * b - topk, b);
      Exceeds(Sum(FullBlocks(counts, b)), AllBlocks(|counts|, Sum(counts), topk, b), b);
    }
  }

  lemma {:induction false} Exceeds(x: int, y: int, b: nat)
    requires 0 < b && y * b < x * b
    ensures y < x
  {
    if x <= y {
      MulMonotone(x, y, b);
    }
  }

  /** k experts with one route each. */
  function OneEach(experts: nat, k: nat): (counts: seq<nat>)
    ensures |counts| == experts
  {
    if experts == 0 then [] else OneEach(experts - 1, k) + [if experts <= k then 1 else 0]
  }

  lemma {:induction false} OneEachAtMostOne(experts: nat, k: nat, i: nat)
    requires i < experts
    ensures OneEach(experts, k)[i] <= 1
  {
    if i < experts - 1 {
      OneEachAtMostOne(experts - 1, k, i);
    }
  }

  lemma {:induction false} OneEachInUse(experts: nat, k: nat)
    ensures NonEmpty(OneEach(experts, k)) == Min(experts, k)
  {
    if experts > 0 {
      OneEachInUse(experts - 1, k);
      var counts := OneEach(experts, k);
      assert counts[..|counts| - 1] == OneEach(experts - 1, k);
    }
  }

  lemma {:induction false} OneEachIsTight(experts: nat, k: nat, b: nat)
    requires 0 < b
    ensures Tight(OneEach(experts, k), b)
  {
    forall i | 0 <= i < experts
      ensures OneEach(experts, k)[i] <= 1
    {
      OneEachAtMostOne(experts, k, i);
    }
  }

  /** All count vectors with k of the experts in use fit. */
  ghost predicate FitsWithInUse(experts: nat, k: nat, topk: nat, b: nat)
    requires 0 < b
  {
    forall counts: seq<nat> | |counts| == experts && NonEmpty(counts) == k :: Fits(counts, topk, b)
  }

  /** For every block size: the allocation is enough for all routings with k experts in use exactly when
      topk is at most k plus the slack of one block. */
  lemma {:induction false} FitsInUseExactly(experts: nat, k: nat, topk: nat, b: nat)
    requires 0 < b && k <= experts
    ensures FitsWithInUse(experts, k, topk, b) <==> topk <= k + b - 1
  {
    OneEachInUse(experts, k);
    OneEachIsTight(experts, k, b);
    TightCountsFitExactly(OneEach(experts, k), topk, b);
    if topk <= k + b - 1 {
      forall counts: seq<nat> | |counts| == experts && NonEmpty(counts) == k
        ensures Fits(counts, topk, b)
      {
        CountsFitAll(counts, topk, b);
      }
    }
  }

  ghost predicate RoutingFits(ids: Routing, topk: nat, experts: nat, b: nat)
    requires 0 < b
  {
    Sum(FullBlocks(Counts(ids, experts), b)) <= AllBlocks(experts, |ids| * topk, topk, b)
  }

  /** Every routing fits, the empty one too, exactly when a block is larger than topk. */
  lemma {:induction false} EveryRoutingFitsExactly(topk: nat, experts: nat, b: nat)
    requires 0 < b
    ensures (forall ids: Routing | Shape(ids, topk, experts) :: RoutingFits(ids, topk, experts, b)) <==> topk < b
  {
    if topk < b {
      forall ids: Routing | Shape(ids, topk, experts)
        ensures RoutingFits(ids, topk, experts, b)
      {
        CountsSum(ids, topk, experts);
        CountsFitAll(Counts(ids, experts), topk, b);
      }
    } else {
      var none: Routing := [];
      NoRoutes(experts, none);
      CountsSum(none, topk, experts);
      TightCountsFitExactly(Counts(none, experts), topk, b);
      assert Shape(none, topk, experts) && !RoutingFits(none, topk, experts, b);
    }
  }

  lemma {:induction false} NoRoutes(experts: nat, none: Routing)
    requires none == []
    ensures NonEmpty(Counts(none, experts)) == 0
  {
    AllEmpty(Counts(none, experts));
  }

  lemma {:induction false} AllEmpty(counts: seq<nat>)
    requires forall i :: 0 <= i < |counts| ==> counts[i] == 0
    ensures NonEmpty(counts) == 0
  {
    if counts != [] {
      AllEmpty(counts[..|counts| - 1]);
    }
  }

  /** A token that names expert zero topk times. */
  function SameExpert(topk: nat): (row: seq<nat>)
    ensures |row| == topk && forall i :: 0 <= i < topk ==> row[i] == 0
  {
    seq(topk, _ => 0)
  }

  lemma {:induction false} SameExpertCounts(topk: nat, e: nat)
    ensures InRow(SameExpert(topk), e) == if e == 0 then topk else 0
  {
    if topk > 0 {
      SameExpertCounts(topk - 1, e);
      assert SameExpert(topk)[..topk - 1] == SameExpert(topk - 1);
    }
  }

  lemma {:induction false} FirstOnly(counts: seq<nat>, b: nat)
    requires 0 < b && counts != [] && counts[0] > 0 && forall i :: 1 <= i < |counts| ==> counts[i] == 0
    ensures Sum(FullBlocks(counts, b)) == CeilDiv(counts[0], b) + |counts| - 1
  {
    var n := |counts| - 1;
    FullBlocksStep(counts, b, n);
    if n > 0 {
      FirstOnly(counts[..n], b);
    } else {
      assert FullBlocks(counts[..0], b) == [];
    }
  }

  /** One token that repeats an expert more often than a block holds does not fit. */
  lemma {:induction false} RepeatedExpertOverflows(topk: nat, experts: nat, b: nat, ids: Routing)
    requires 0 < b < topk && 0 < experts && ids == [SameExpert(topk)]
    ensures Shape(ids, topk, experts) && !RoutingFits(ids, topk, experts, b)
  {
    var counts := Counts(ids, experts);
    var none: Routing := ids[..0];
    forall e: nat | e < experts
      ensures counts[e] == if e == 0 then topk else 0
    {
      SameExpertCounts(topk, e);
      assert Routes(none, e) == 0;
    }
    FirstOnly(counts, b);
    CeilDivBounds(topk, b);
    Exceeds(CeilDiv(topk, b), 1, b);
    DivMod(experts, b, b - 1);
  }

  /** Every routing of at least one token fits exactly when a block holds topk routes. */
  lemma {:induction false} TokensFitExactly(topk: nat, experts: nat, b: nat)
    requires 0 < b && 0 < experts
    ensures (forall ids: Routing | Shape(ids, topk, experts) && ids != [] :: RoutingFits(ids, topk, experts, b))
            <==> topk <= b
  {
    if topk <= b {
      forall ids: Routing | Shape(ids, topk, experts) && ids != []
        ensures RoutingFits(ids, topk, experts, b)
      {
        CountsSum(ids, topk, experts);
        SomeExpertInUse(ids, topk, experts);
        CountsFitAll(Counts(ids, experts), topk, b);
      }
    } else {
      RepeatedExpertOverflows(topk, experts, b, [SameExpert(topk)]);
    }
  }

  lemma {:induction false} SomeExpertInUse(ids: Routing, topk: nat, experts: nat)
    requires Shape(ids, topk, experts) && ids != []
    ensures topk > 0 ==> NonEmpty(Counts(ids, experts)) >= 1
  {
    if topk > 0 {
      var one := [ids[0][0]];
      RowIsRouted(ids[0], 0);
      TokenIsRouted(ids, 0, ids[0][0]);
      DistinctExpertsInUse(Counts(ids, experts), one);
    }
  }

  lemma {:induction false} TightUsedItems(counts: seq<nat>, b: nat)
    requires 0 < b && Tight(counts, b)
    ensures Sum(Blocks(counts, b)) * b == Sum(counts) + NonEmpty(counts) * (b - 1)
  {
    if counts != [] {
      var n := |counts| - 1;
      TightUsedItems(counts[..n], b);
      assert Blocks(counts, b)[..n] == Blocks(counts[..n], b);
      TightBlock(counts[n], b);
      NoItems(b);
      AddUsed(Sum(Blocks(counts[..n], b)), CeilDiv(counts[n], b), NonEmpty(counts[..n]), b);
    }
  }

  lemma {:induction false} NoItems(b: nat)
    requires 0 < b
    ensures CeilDiv(0, b) == 0
  {
    DivMod(0, b, b - 1);
  }

  lemma {:induction false} AddUsed(x: int, y: int, k: nat, b: nat)
    ensures (x + y) * b == x * b + y * b && (k + 1) * (b - 1) == k * (b - 1) + b - 1 && 0 * b == 0
  {
  }

  /** The allocation by active experts is no larger than needed: counts with one route more than whole blocks for
      each used expert fill it. */
  lemma {:induction false} TightCountsFillTheSort(counts: seq<nat>, b: nat)
    requires 0 < b && Tight(counts, b) && NonEmpty(counts) == Min(|counts|, Sum(counts))
    ensures Sum(Blocks(counts, b)) * b == ActiveIds(|counts|, Sum(counts), b)
  {
    TightUsedItems(counts, b);
    NonEmptyAtMostItems(counts);
    PaddedItems(counts, b);
    DivMod(Sum(Blocks(counts, b)), b, b - 1);
  }
}
