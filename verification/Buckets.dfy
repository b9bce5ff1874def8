/** Splitting items over buckets and cutting every bucket into blocks: how many blocks that takes. */
module Buckets {
  import opened Sums
  import opened RowMajor

  function CeilDiv(n: nat, b: nat): nat
    requires 0 < b
  {
    (n + b - 1) / b
  }

  lemma {:induction false} CeilDivBounds(n: nat, b: nat)
    requires 0 < b
    ensures n <= CeilDiv(n, b) * b <= n + b - 1
    ensures CeilDiv(n, b) == 0 <==> n == 0
  {
    var q, r := (n + b - 1) / b, (n + b - 1) % b;
    assert n + b - 1 == q * b + r;
    if n == 0 {
      DivMod(0, b, b - 1);
    }
    if q == 0 {
      assert q * b == 0;
    }
  }

  /** Blocks per bucket. */
  function Blocks(counts: seq<nat>, b: nat): (r: seq<int>)
    requires 0 < b
    ensures |r| == |counts|
  {
    seq(|counts|, i requires 0 <= i < |counts| => CeilDiv(counts[i], b))
  }

  function NonEmpty(counts: seq<nat>): (k: nat)
    ensures k <= |counts|
  {
    if counts == [] then 0 else NonEmpty(counts[..|counts| - 1]) + if counts[|counts| - 1] > 0 then 1 else 0
  }

  lemma {:induction false} NonEmptyAtMostItems(counts: seq<nat>)
    ensures NonEmpty(counts) <= Sum(counts)
  {
    if counts != [] {
      NonEmptyAtMostItems(counts[..|counts| - 1]);
    }
  }

  lemma {:induction false} OneBucket(count: nat, b: nat)
    requires 0 < b
    ensures CeilDiv(count, b) * b <= count + if count > 0 then b - 1 else 0
    ensures 0 <= CeilDiv(count, b)
  {
    CeilDivBounds(count, b);
    assert 0 * b == 0;
  }

  lemma {:induction false} AddBucket(front: int, last: int, items: int, count: int, k: nat, more: nat, b: nat)
    requires 0 < b && front * b <= items + k * (b - 1) && last * b <= count + (if more > 0 then b - 1 else 0)
    requires more <= 1
    ensures (front + last) * b <= items + count + (k + more) * (b - 1)
  {
    assert (front + last) * b == front * b + last * b;
    assert (k + more) * (b - 1) == k * (b - 1) + more * (b - 1);
  }

  /** Padding every nonempty bucket to whole blocks adds at most b - 1 items to each. */
  lemma {:induction false} PaddedItems(counts: seq<nat>, b: nat)
    requires 0 < b
    ensures Sum(Blocks(counts, b)) * b <= Sum(counts) + NonEmpty(counts) * (b - 1)
    ensures 0 <= Sum(Blocks(counts, b))
  {
    if counts != [] {
      var n := |counts| - 1;
      var front := counts[..n];
      PaddedItems(front, b);
      assert Blocks(counts, b)[..n] == Blocks(front, b);
      OneBucket(counts[n], b);
      AddBucket(Sum(Blocks(front, b)), CeilDiv(counts[n], b), Sum(front), counts[n], NonEmpty(front),
                if counts[n] > 0 then 1 else 0, b);
    }
  }

  /** Whole blocks compare as their sizes do. */
  lemma {:induction false} CancelBlocks(x: int, y: int, b: nat)
    requires 0 < b && x * b < y * b + b
    ensures x <= y
  {
    if x > y {
      MulMonotone(y + 1, x, b);
    }
  }

  /** s blocks whose items number at most n plus b - 1 for each of k buckets: at most ceil(n / b) + k. */
  lemma {:induction false} BlocksAtMost(s: nat, n: nat, k: nat, b: nat)
    requires 0 < b && s * b <= n + k * (b - 1)
    ensures s <= CeilDiv(n, b) + k
  {
    CeilDivBounds(n, b);
    MulMonotone(b - 1, b, k);
    assert (CeilDiv(n, b) + k) * b == CeilDiv(n, b) * b + k * b;
    CancelBlocks(s, CeilDiv(n, b) + k, b);
  }
}
