/** Packing padded batches and unpacking them (aiter/bert_padding.py). A batch of rows of one width is a flat
    array: row b, position s is entry b * width + s. */
module BertPadding {
  import opened Results
  import opened Sums
  import opened RowMajor
  import opened BertIndex
  import opened Numbers

  // ---------------------------------------------------------------------------
  // The selected positions
  // ---------------------------------------------------------------------------

  /** torch.nonzero of a flat mask. */
  function NonZero(mask: seq<int>): (r: seq<nat>) {
    if mask == [] then []
    else NonZero(mask[..|mask| - 1]) + if mask[|mask| - 1] != 0 then [|mask| - 1] else []
  }

  lemma {:induction false} NonZeroIn(mask: seq<int>, k: nat)
    requires k < |NonZero(mask)|
    ensures NonZero(mask)[k] < |mask| && mask[NonZero(mask)[k]] != 0
  {
    if k < |NonZero(mask[..|mask| - 1])| {
      NonZeroIn(mask[..|mask| - 1], k);
    }
  }

  lemma {:induction false} NonZeroIncreases(mask: seq<int>, i: nat, j: nat)
    requires i < j < |NonZero(mask)|
    ensures NonZero(mask)[i] < NonZero(mask)[j]
  {
    var front := NonZero(mask[..|mask| - 1]);
    if j < |front| {
      NonZeroIncreases(mask[..|mask| - 1], i, j);
    } else {
      NonZeroIn(mask[..|mask| - 1], i);
    }
  }

  /** A selected position stands at its rank, the number of selected positions before it. */
  lemma {:induction false} NonZeroAtRank(mask: seq<int>, p: nat)
    requires p < |mask| && mask[p] != 0
    ensures |NonZero(mask[..p])| < |NonZero(mask)| && NonZero(mask)[|NonZero(mask[..p])|] == p
  {
    var n := |mask| - 1;
    if p < n {
      NonZeroAtRank(mask[..n], p);
      assert mask[..n][..p] == mask[..p];
    }
  }

  lemma {:induction false} RankStep(mask: seq<int>, p: nat)
    requires p < |mask|
    ensures |NonZero(mask[..p + 1])| == |NonZero(mask[..p])| + if mask[p] != 0 then 1 else 0
  {
    assert mask[..p + 1][..p] == mask[..p];
  }

  /** The indices name every selected position once. */
  lemma {:induction false} NonZeroIsTheSelection(mask: seq<int>)
    ensures Within(NonZero(mask), |mask|) && Distinct(NonZero(mask))
    ensures forall p :: 0 <= p < |mask| ==> (p in NonZero(mask) <==> mask[p] != 0)
  {
    forall k | 0 <= k < |NonZero(mask)|
      ensures NonZero(mask)[k] < |mask| && mask[NonZero(mask)[k]] != 0
    {
      NonZeroIn(mask, k);
    }
    forall i, j | 0 <= i < j < |NonZero(mask)|
      ensures NonZero(mask)[i] != NonZero(mask)[j]
    {
      NonZeroIncreases(mask, i, j);
    }
    forall p | 0 <= p < |mask| && mask[p] != 0
      ensures p in NonZero(mask)
    {
      NonZeroAtRank(mask, p);
    }
  }

  // ---------------------------------------------------------------------------
  // Round trips
  // ---------------------------------------------------------------------------

  /** pad_input after unpad_input keeps the masked entries and zeroes the rest. */
  lemma {:induction false} PadAfterUnpad<T(!new)>(zero: T, x: seq<T>, mask: seq<int>, padded: seq<T>, p: nat)
    requires |mask| == |x| && p < |x| && Within(NonZero(mask), |x|)
    requires Scattered(|x|, zero, NonZero(mask), Gathered(x, NonZero(mask)), padded)
    ensures padded[p] == if mask[p] != 0 then x[p] else zero
  {
    NonZeroIsTheSelection(mask);
    ScatterAfterGather(zero, NonZero(mask), x, padded, p);
  }

  /** unpad_input after pad_input is the identity. */
  lemma {:induction false} UnpadAfterPad<T(!new)>(zero: T, packed: seq<T>, mask: seq<int>, padded: seq<T>)
    requires Scattered(|mask|, zero, NonZero(mask), packed, padded) && Within(NonZero(mask), |mask|)
    ensures Gathered(padded, NonZero(mask)) == packed
  {
    NonZeroIsTheSelection(mask);
    GatherAfterScatter(|mask|, zero, NonZero(mask), packed, padded);
  }

  // ---------------------------------------------------------------------------
  // unpad_input
  // ---------------------------------------------------------------------------

  datatype Unpadded<T> = Unpadded(hidden: seq<T>, indices: seq<nat>, cuSeqlens: seq<int>, maxSeqlen: int,
                                  used: seq<int>)

  function RowSum(mask: seq<int>, width: nat, b: nat): int
    requires b * width + width <= |mask|
  {
    Sum(mask[b * width..b * width + width])
  }

  ghost predicate Batch(mask: seq<int>, rows: nat, width: nat) {
    |mask| == rows * width
  }

  lemma {:induction false} RowInside(rows: nat, width: nat, b: nat)
    requires b < rows
    ensures b * width + width <= rows * width
  {
    MulMonotone(b + 1, rows, width);
    assert (b + 1) * width == b * width + width;
  }

  function RowSums(mask: seq<int>, rows: nat, width: nat): (r: seq<int>)
    requires rows * width <= |mask|
    ensures |r| == rows
  {
    if rows == 0 then []
    else
      RowInside(rows, width, rows - 1);
      MulMonotone(rows - 1, rows, width);
      RowSums(mask, rows - 1, width) + [RowSum(mask, width, rows - 1)]
  }

  lemma {:induction false} RowSumsFront(mask: seq<int>, rows: nat, width: nat, b: nat)
    requires rows * width <= |mask| && b <= rows
    ensures b * width <= rows * width && RowSums(mask, rows, width)[..b] == RowSums(mask, b, width)
  {
    MulMonotone(b, rows, width);
    if b < rows {
      MulMonotone(rows - 1, rows, width);
      RowSumsFront(mask, rows - 1, width, b);
      assert RowSums(mask, rows, width)[..b] == RowSums(mask, rows - 1, width)[..b];
    }
  }

  /** A zero, then the running sums. */
  function Cumulative(xs: seq<int>): (r: seq<int>)
    ensures |r| == |xs| + 1 && forall k {:trigger r[k]} :: 0 <= k <= |xs| ==> r[k] == Sum(xs[..k])
  {
    seq(|xs| + 1, k requires 0 <= k <= |xs| => Sum(xs[..k]))
  }

  function Largest(xs: seq<int>): (m: int)
    requires xs != []
    ensures m in xs
  {
    var n := |xs| - 1;
    if n == 0 || xs[n] >= Largest(xs[..n]) then xs[n] else Largest(xs[..n])
  }

  lemma {:induction false} LargestBounds(xs: seq<int>, i: nat)
    requires i < |xs|
    ensures xs[i] <= Largest(xs)
  {
    var n := |xs| - 1;
    if i < n {
      LargestBounds(xs[..n], i);
    }
  }

  /** Adding the unused positions to the attended ones. */
  function AllMasks(attention: seq<int>, unused: seq<int>): (r: seq<int>)
    requires |attention| == |unused|
    ensures |r| == |attention| && forall p {:trigger r[p]} :: 0 <= p < |r| ==> r[p] == attention[p] + unused[p]
  {
    seq(|attention|, p requires 0 <= p < |attention| => attention[p] + unused[p])
  }

  /** unpad_input; without an unused mask, pass zeros. */
  function Unpad<T>(x: seq<T>, attention: seq<int>, unused: seq<int>, rows: nat, width: nat): Result<Unpadded<T>>
    requires Batch(attention, rows, width) && |unused| == |attention| == |x|
  {
    var all := AllMasks(attention, unused);
    if rows == 0 then Err("max of an empty tensor")
    else
      NonZeroIsTheSelection(all);
      var seqlens := RowSums(all, rows, width);
      Ok(Unpadded(Gathered(x, NonZero(all)), NonZero(all), Cumulative(seqlens), Largest(seqlens),
                  RowSums(attention, rows, width)))
  }

  /** The sum of the rows before row b is the sum of all entries before it. */
  lemma {:induction false} RowsBefore(mask: seq<int>, rows: nat, width: nat, b: nat)
    requires rows * width <= |mask| && b <= rows
    ensures b * width <= |mask| && Sum(RowSums(mask, rows, width)[..b]) == Sum(mask[..b * width])
  {
    RowSumsFront(mask, rows, width, b);
    SumOfRows(mask, b, width);
  }

  lemma {:induction false} SumOfRows(mask: seq<int>, b: nat, width: nat)
    requires b * width <= |mask|
    ensures Sum(RowSums(mask, b, width)) == Sum(mask[..b * width])
  {
    if b == 0 {
      assert mask[..0 * width] == [];
    } else {
      RowInside(b, width, b - 1);
      var from := (b - 1) * width;
      assert b * width == from + width;
      SumOfRows(mask, b - 1, width);
      SumConcat(mask[..from], mask[from..from + width]);
      assert mask[..from] + mask[from..from + width] == mask[..from + width];
    }
  }

  /** Ranks are prefix sums for a mask of zeros and ones. */
  lemma {:induction false} RankIsPrefixSum(mask: seq<int>, p: nat)
    requires p <= |mask| && forall i :: 0 <= i < |mask| ==> mask[i] == 0 || mask[i] == 1
    ensures |NonZero(mask[..p])| == Sum(mask[..p])
  {
    if p > 0 {
      RankIsPrefixSum(mask, p - 1);
      RankStep(mask, p - 1);
      PrefixStep(mask, p - 1);
    }
  }

  /** cu_seqlens delimits the rows: for a mask of zeros and ones, entry b is the number of selected positions
      in the rows before b, so row b's positions are the indices from entry b up to entry b + 1. */
  lemma {:induction false} CuSeqlensDelimitRows(mask: seq<int>, rows: nat, width: nat, b: nat, s: nat)
    requires Batch(mask, rows, width) && b < rows && s < width
    requires forall i :: 0 <= i < |mask| ==> mask[i] == 0 || mask[i] == 1
    ensures b * width + s < |mask|
    ensures mask[b * width + s] != 0 ==>
              var cu, k := Cumulative(RowSums(mask, rows, width)), |NonZero(mask[..b * width + s])|;
              cu[b] <= k < cu[b + 1] && k < |NonZero(mask)| && NonZero(mask)[k] == b * width + s
  {
    var p := b * width + s;
    Below(b, rows, width, s);
    RowsBefore(mask, rows, width, b);
    RowsBefore(mask, rows, width, b + 1);
    assert (b + 1) * width == b * width + width;
    RankIsPrefixSum(mask, p);
    if mask[p] != 0 {
      NonZeroAtRank(mask, p);
      PrefixMonotone(mask, b * width, p);
      PrefixStep(mask, p);
      RowInside(rows, width, b);
      PrefixMonotone(mask, p + 1, b * width + width);
    }
  }

  lemma {:induction false} CountAtMostSum(mask: seq<int>)
    requires AllNonNegative(mask)
    ensures |NonZero(mask)| <= Sum(mask)
    ensures |NonZero(mask)| == Sum(mask) <==> forall i :: 0 <= i < |mask| ==> mask[i] <= 1
  {
    if mask != [] {
      var n := |mask| - 1;
      CountAtMostSum(mask[..n]);
      assert (forall i :: 0 <= i < |mask| ==> mask[i] <= 1)
        <==> (forall i :: 0 <= i < n ==> mask[..n][i] <= 1) && mask[n] <= 1;
    }
  }

  /** The last cu_seqlens entry is the number of indices exactly when no position is both attended and
      unused (or otherwise counted more than once). */
  lemma {:induction false} CuSeqlensMatchExactly(mask: seq<int>, rows: nat, width: nat)
    requires Batch(mask, rows, width) && AllNonNegative(mask)
    ensures Cumulative(RowSums(mask, rows, width))[rows] == |NonZero(mask)|
            <==> forall i :: 0 <= i < |mask| ==> mask[i] <= 1
  {
    RowsBefore(mask, rows, width, rows);
    assert mask[..rows * width] == mask;
    CountAtMostSum(mask);
  }

  /** One position, both attended and unused: one index, but cu_seqlens ends at two. */
  lemma {:induction false} CountedTwice()
    ensures AllMasks([1], [1]) == [2] && |NonZero([2])| == 1
    ensures Batch([2], 1, 1) && Cumulative(RowSums([2], 1, 1)) == [0, 2]
  {
    assert NonZero([2][..0]) == [];
    assert [2][0 * 1..0 * 1 + 1] == [2] && [2][..0] == [];
    assert RowSums([2], 1, 1) == [2];
  }

  // ---------------------------------------------------------------------------
  // unpad_input_for_concatenated_sequences
  // ---------------------------------------------------------------------------

  /** Whether a position of a row lies before the row's total length. */
  function FilledEntry(total: int, s: nat): int {
    if s < total then 1 else 0
  }

  function Filled(totals: seq<int>, rows: nat, width: nat): (r: seq<int>)
    requires |totals| == rows
    ensures |r| == rows * width
  {
    seq(rows * width, p requires 0 <= p < rows * width => Split(p, rows, width);
        FilledEntry(totals[p / width], p % width))
  }

  lemma {:induction false} FilledAt(totals: seq<int>, rows: nat, width: nat, b: nat, s: nat)
    requires |totals| == rows && b < rows && s < width
    ensures b * width + s < |Filled(totals, rows, width)|
    ensures Filled(totals, rows, width)[b * width + s] == FilledEntry(totals[b], s)
  {
    Below(b, rows, width, s);
    DivMod(b, width, s);
  }

  /** The nonzero entries, in order. */
  function Values(lengths: seq<int>): (r: seq<int>) {
    if lengths == [] then []
    else Values(lengths[..|lengths| - 1]) + if lengths[|lengths| - 1] != 0 then [lengths[|lengths| - 1]] else []
  }

  /** unpad_input_for_concatenated_sequences. */
  function UnpadConcatenated<T>(x: seq<T>, lengths: seq<int>, rows: nat, width: nat): Result<Unpadded<T>>
    requires Batch(lengths, rows, width) && |lengths| == |x|
  {
    var filled := Filled(RowSums(lengths, rows, width), rows, width);
    if Values(lengths) == [] then Err("max of an empty tensor")
    else
      NonZeroIsTheSelection(filled);
      Ok(Unpadded(Gathered(x, NonZero(filled)), NonZero(filled), Cumulative(Values(lengths)),
                  Largest(Values(lengths)), []))
  }

  /** The segment of a nonzero entry: its rank among them, its length, and its start. */
  lemma {:induction false} SegmentOfEntry(lengths: seq<int>, p: nat)
    requires p < |lengths| && lengths[p] != 0
    ensures var k := |Values(lengths[..p])|;
            && k < |Values(lengths)| && Values(lengths)[k] == lengths[p]
            && Values(lengths)[..k] == Values(lengths[..p])
  {
    var n := |lengths| - 1;
    if p < n {
      SegmentOfEntry(lengths[..n], p);
      assert lengths[..n][..p] == lengths[..p];
    } else {
      assert lengths[..p] == lengths[..n];
    }
  }

  /** Every segment is that of an entry. */
  lemma {:induction false} EntryOfSegment(lengths: seq<int>, k: nat) returns (p: nat)
    requires k < |Values(lengths)|
    ensures p < |lengths| && lengths[p] != 0 && |Values(lengths[..p])| == k
  {
    var n := |lengths| - 1;
    if k < |Values(lengths[..n])| {
      p := EntryOfSegment(lengths[..n], k);
      assert lengths[..n][..p] == lengths[..p];
    } else {
      p := n;
    }
  }

  lemma {:induction false} ValuesSum(lengths: seq<int>)
    ensures Sum(Values(lengths)) == Sum(lengths)
  {
    if lengths != [] {
      var n := |lengths| - 1;
      ValuesSum(lengths[..n]);
      if lengths[n] != 0 {
        var front, all := Values(lengths[..n]), Values(lengths);
        assert all == front + [lengths[n]];
        assert all[..|all| - 1] == front;
      } else {
        assert Values(lengths) == Values(lengths[..n]);
      }
    }
  }

  ghost predicate RowsFit(totals: seq<int>, width: nat) {
    forall b :: 0 <= b < |totals| ==> totals[b] <= width
  }

  /** The indices for the given row lengths: the positions of the filled entries. */
  function Indices(totals: seq<int>, width: nat): seq<nat> {
    NonZero(Filled(totals, |totals|, width))
  }

  /** How many indices come before position s of row b. */
  function Rank(totals: seq<int>, width: nat, b: nat, s: nat): nat
    requires b * width + s <= |Filled(totals, |totals|, width)|
  {
    |NonZero(Filled(totals, |totals|, width)[..b * width + s])|
  }

  /** Within a row the rank counts the filled positions one by one. */
  lemma {:induction false} RankInRow(totals: seq<int>, width: nat, b: nat, s: nat)
    requires b < |totals| && s <= width && totals[b] >= 0
    ensures b * width + s <= |totals| * width && b * width <= |totals| * width
    ensures Rank(totals, width, b, s) == Rank(totals, width, b, 0) + Min(s, totals[b])
  {
    RowInside(|totals|, width, b);
    if s > 0 {
      RankInRow(totals, width, b, s - 1);
      FilledAt(totals, |totals|, width, b, s - 1);
      RankStep(Filled(totals, |totals|, width), b * width + (s - 1));
    }
  }

  /** When the rows before fit, the rank at the start of a row is their total length. */
  lemma {:induction false} RankOfRow(totals: seq<int>, width: nat, b: nat)
    requires AllNonNegative(totals) && RowsFit(totals, width) && b <= |totals|
    ensures b * width <= |totals| * width
    ensures Rank(totals, width, b, 0) == Sum(totals[..b])
  {
    if b == 0 {
      RankAtStart(totals, width);
    } else {
      RankOfRow(totals, width, b - 1);
      RankOfNextRow(totals, width, b - 1);
      PrefixStep(totals, b - 1);
    }
  }

  /** One filled position of a row that fits. */
  lemma {:induction false} PositionInRow(totals: seq<int>, width: nat, b: nat, s: nat)
    requires AllNonNegative(totals) && RowsFit(totals, width) && b < |totals| && s < totals[b]
    ensures var i := Sum(totals[..b]) + s;
            0 <= i < |Indices(totals, width)| && Indices(totals, width)[i] == b * width + s
  {
    RankOfRow(totals, width, b);
    RankInRow(totals, width, b, s);
    FilledAt(totals, |totals|, width, b, s);
    NonZeroAtRank(Filled(totals, |totals|, width), b * width + s);
  }

  /** n positions in a row. */
  function Consecutive(from: int, n: nat): (r: seq<int>)
    ensures |r| == n
  {
    if n == 0 then [] else Consecutive(from, n - 1) + [from + n - 1]
  }

  /** A stretch of a row that fits. */
  lemma {:induction false} StretchOfRow(totals: seq<int>, width: nat, b: nat, offset: nat, n: nat)
    requires AllNonNegative(totals) && RowsFit(totals, width) && b < |totals| && offset + n <= totals[b] && 0 < n
    ensures var start := Sum(totals[..b]) + offset;
            0 <= start && start + n <= |Indices(totals, width)|
            && Indices(totals, width)[start..start + n] == Consecutive(b * width + offset, n)
  {
    var start := Sum(totals[..b]) + offset;
    PositionInRow(totals, width, b, offset);
    PositionInRow(totals, width, b, offset + n - 1);
    var part := Indices(totals, width)[start..start + n];
    forall j | 0 <= j < |part|
      ensures part[j] == b * width + offset + j
    {
      PositionInRow(totals, width, b, offset + j);
    }
    IsConsecutive(part, b * width + offset);
  }

  lemma {:induction false} IsConsecutive(part: seq<nat>, from: int)
    requires forall j :: 0 <= j < |part| ==> part[j] == from + j
    ensures part == Consecutive(from, |part|)
  {
    if part != [] {
      IsConsecutive(part[..|part| - 1], from);
    }
  }

  /** Segment k of cu_seqlens is a stretch of row b, offset positions into it. */
  ghost predicate LiesInRow(indices: seq<nat>, cu: seq<int>, k: nat, width: nat, b: nat, offset: int) {
    && k + 1 < |cu| && 0 <= cu[k] < cu[k + 1] <= |indices|
    && 0 <= offset && offset + (cu[k + 1] - cu[k]) <= width
    && indices[cu[k]..cu[k + 1]] == Consecutive(b * width + offset, cu[k + 1] - cu[k])
  }

  lemma {:induction false} EntryInStretch(lengths: seq<int>, lo: nat, p: nat, hi: nat)
    requires AllNonNegative(lengths) && lo <= p < hi <= |lengths|
    ensures Sum(lengths[..p]) == Sum(lengths[..lo]) + Sum(lengths[lo..p]) && 0 <= Sum(lengths[lo..p])
    ensures Sum(lengths[lo..p]) + lengths[p] <= Sum(lengths[..hi]) - Sum(lengths[..lo])
  {
    SumConcat(lengths[..lo], lengths[lo..p]);
    assert lengths[..lo] + lengths[lo..p] == lengths[..p];
    PrefixStep(lengths, p);
    PrefixMonotone(lengths, lo, p);
    PrefixMonotone(lengths, p + 1, hi);
  }

  lemma {:induction false} TotalOfRow(lengths: seq<int>, rows: nat, width: nat, b: nat)
    requires Batch(lengths, rows, width) && b < rows
    ensures b * width + width <= |lengths|
    ensures RowSums(lengths, rows, width)[b] == Sum(lengths[..b * width + width]) - Sum(lengths[..b * width])
    ensures Sum(RowSums(lengths, rows, width)[..b]) == Sum(lengths[..b * width])
  {
    RowInside(rows, width, b);
    RowsBefore(lengths, rows, width, b);
    RowsBefore(lengths, rows, width, b + 1);
    assert (b + 1) * width == b * width + width;
    PrefixStep(RowSums(lengths, rows, width), b);
  }

  /** Entry m of a stretch of the lengths from lo. */
  lemma {:induction false} EntryFrom(lengths: seq<int>, lo: nat, width: nat, m: nat, before: int, total: int)
    requires AllNonNegative(lengths) && lo + width <= |lengths| && m < width
    requires before == Sum(lengths[..lo]) && total == Sum(lengths[..lo + width]) - before
    ensures var offset := Sum(lengths[lo..lo + m]);
            && Sum(lengths[..lo + m]) == before + offset
            && 0 <= offset && offset + lengths[lo + m] <= total
  {
    EntryInStretch(lengths, lo, lo + m, lo + width);
  }

  /** Entry (b, m) of the lengths and its row: the entries before it in the row, and what is left. */
  lemma {:induction false} EntryInRow(lengths: seq<int>, rows: nat, width: nat, b: nat, m: nat)
    requires Batch(lengths, rows, width) && AllNonNegative(lengths) && b < rows && m < width
    ensures b * width + m < |lengths|
    ensures var offset := Sum(lengths[b * width..b * width + m]); var totals := RowSums(lengths, rows, width);
            && Sum(lengths[..b * width + m]) == Sum(totals[..b]) + offset
            && 0 <= offset && offset + lengths[b * width + m] <= totals[b]
  {
    TotalOfRow(lengths, rows, width, b);
    var totals := RowSums(lengths, rows, width);
    EntryFrom(lengths, b * width, width, m, Sum(totals[..b]), totals[b]);
  }

  lemma {:induction false} TotalsNonNegative(lengths: seq<int>, rows: nat, width: nat)
    requires Batch(lengths, rows, width) && AllNonNegative(lengths)
    ensures AllNonNegative(RowSums(lengths, rows, width))
  {
    forall b: nat | b < rows
      ensures RowSums(lengths, rows, width)[b] >= 0
    {
      TotalNonNegative(lengths, rows, width, b);
    }
  }

  lemma {:induction false} TotalNonNegative(lengths: seq<int>, rows: nat, width: nat, b: nat)
    requires Batch(lengths, rows, width) && AllNonNegative(lengths) && b < rows
    ensures RowSums(lengths, rows, width)[b] >= 0
  {
    TotalOfRow(lengths, rows, width, b);
    PrefixMonotone(lengths, b * width, b * width + width);
  }

  lemma {:induction false} SegmentBounds(lengths: seq<int>, p: nat)
    requires p < |lengths| && lengths[p] != 0
    ensures var k := |Values(lengths[..p])|;
            && k < |Values(lengths)| && Cumulative(Values(lengths))[k] == Sum(lengths[..p])
            && Cumulative(Values(lengths))[k + 1] == Sum(lengths[..p]) + lengths[p]
  {
    SegmentOfEntry(lengths, p);
    ValuesSum(lengths[..p]);
    PrefixStep(Values(lengths), |Values(lengths[..p])|);
  }

  /** The segment of entry (b, m). */
  lemma {:induction false} SegmentOfRow(lengths: seq<int>, rows: nat, width: nat, b: nat, m: nat, p: nat,
                                        totals: seq<int>, offset: int)
    requires Batch(lengths, rows, width) && AllNonNegative(lengths) && totals == RowSums(lengths, rows, width)
    requires RowsFit(totals, width)
    requires b < rows && m < width && p == b * width + m < |lengths| && lengths[p] != 0
    requires offset == Sum(lengths[b * width..p])
    ensures LiesInRow(Indices(totals, width), Cumulative(Values(lengths)), |Values(lengths[..p])|, width, b, offset)
  {
    SegmentBounds(lengths, p);
    EntryInRow(lengths, rows, width, b, m);
    TotalsNonNegative(lengths, rows, width);
    StretchOfRow(totals, width, b, offset, lengths[p]);
    assert totals[b] <= width;
    Lies(Indices(totals, width), Cumulative(Values(lengths)), |Values(lengths[..p])|, width, b, offset,
         Sum(lengths[..p]), lengths[p]);
  }

  lemma {:induction false} Lies(indices: seq<nat>, cu: seq<int>, k: nat, width: nat, b: nat, offset: int, start: int,
                                length: int)
    requires k + 1 < |cu| && cu[k] == start && cu[k + 1] == start + length && 0 < length
    requires 0 <= start && start + length <= |indices| && 0 <= offset && offset + length <= width
    requires indices[start..start + length] == Consecutive(b * width + offset, length)
    ensures LiesInRow(indices, cu, k, width, b, offset)
  {
  }

  lemma {:induction false} PlaceOf(p: nat, rows: nat, width: nat) returns (b: nat, m: nat)
    requires p < rows * width
    ensures b < rows && m < width && p == b * width + m
  {
    Split(p, rows, width);
    b, m := p / width, p % width;
  }

  lemma {:induction false} PlaceOfSegment(lengths: seq<int>, rows: nat, width: nat, k: nat) returns (b: nat, m: nat)
    requires Batch(lengths, rows, width) && k < |Values(lengths)|
    ensures b < rows && m < width && b * width + m < |lengths|
    ensures Values(lengths)[k] == lengths[b * width + m] != 0 && |Values(lengths[..b * width + m])| == k
  {
    var p := EntryOfSegment(lengths, k);
    b, m := PlaceOf(p, rows, width);
    SegmentOfEntry(lengths, p);
  }

  /** For rows that fit, segment k maps to consecutive positions of one row: the row of the k-th nonzero
      length, right after that row's earlier segments. */
  lemma {:induction false} SegmentStaysInRow(lengths: seq<int>, rows: nat, width: nat, k: nat) returns (b: nat, m: nat)
    requires Batch(lengths, rows, width) && AllNonNegative(lengths) && RowsFit(RowSums(lengths, rows, width), width)
    requires k < |Values(lengths)|
    ensures b < rows && m < width && b * width + m < |lengths|
    ensures Values(lengths)[k] == lengths[b * width + m] != 0
    ensures LiesInRow(Indices(RowSums(lengths, rows, width), width), Cumulative(Values(lengths)), k, width, b,
                      Sum(lengths[b * width..b * width + m]))
  {
    b, m := PlaceOfSegment(lengths, rows, width, k);
    SegmentOfRow(lengths, rows, width, b, m, b * width + m, RowSums(lengths, rows, width),
                 Sum(lengths[b * width..b * width + m]));
  }

  // When a row does not fit

  /** The rank at the start of a row counts every row up to its width. */
  function Clipped(totals: seq<int>, width: nat): int {
    if totals == [] then 0 else Clipped(totals[..|totals| - 1], width) + Min(width, totals[|totals| - 1])
  }

  /** A row adds its filled positions to the rank. */
  lemma {:induction false} RankOfNextRow(totals: seq<int>, width: nat, b: nat)
    requires b < |totals| && totals[b] >= 0
    ensures b * width <= |totals| * width && (b + 1) * width <= |totals| * width
    ensures Rank(totals, width, b + 1, 0) == Rank(totals, width, b, 0) + Min(width, totals[b])
  {
    RankInRow(totals, width, b, width);
    MulMonotone(b + 1, |totals|, width);
    assert (b + 1) * width + 0 == b * width + width;
  }

  lemma {:induction false} RankAtStart(totals: seq<int>, width: nat)
    ensures 0 * width <= |totals| * width
    ensures Rank(totals, width, 0, 0) == 0
  {
    MulMonotone(0, |totals|, width);
    assert Filled(totals, |totals|, width)[..0 * width + 0] == [];
  }

  lemma {:induction false} RankIsClipped(totals: seq<int>, width: nat, b: nat)
    requires AllNonNegative(totals) && b <= |totals|
    ensures b * width <= |totals| * width
    ensures Rank(totals, width, b, 0) == Clipped(totals[..b], width)
  {
    if b == 0 {
      RankAtStart(totals, width);
    } else {
      RankIsClipped(totals, width, b - 1);
      RankOfNextRow(totals, width, b - 1);
      assert totals[..b][..b - 1] == totals[..b - 1];
    }
  }

  lemma {:induction false} ClippedAtMostSum(totals: seq<int>, width: nat)
    ensures Clipped(totals, width) <= Sum(totals)
    ensures Clipped(totals, width) == Sum(totals) <==> RowsFit(totals, width)
  {
    if totals != [] {
      var n := |totals| - 1;
      ClippedAtMostSum(totals[..n], width);
      assert RowsFit(totals, width) <==> RowsFit(totals[..n], width) && totals[n] <= width;
    }
  }

  lemma {:induction false} IndicesAreClipped(totals: seq<int>, width: nat)
    requires AllNonNegative(totals)
    ensures |Indices(totals, width)| == Clipped(totals, width)
  {
    RankIsClipped(totals, width, |totals|);
    var filled := Filled(totals, |totals|, width);
    assert filled[..|totals| * width + 0] == filled;
    assert totals[..|totals|] == totals;
  }

  lemma {:induction false} SegmentsEndAtTheTotal(lengths: seq<int>, rows: nat, width: nat)
    requires Batch(lengths, rows, width)
    ensures var cu := Cumulative(Values(lengths)); cu[|cu| - 1] == Sum(RowSums(lengths, rows, width))
  {
    ValuesSum(lengths);
    PrefixWhole(Values(lengths));
    SumOfRows(lengths, rows, width);
    assert lengths[..rows * width] == lengths;
  }

  /** cu_seqlens counts exactly the indices if and only if every row's lengths sum to at most its width;
      otherwise the last segments reach past the packed tokens. */
  lemma {:induction false} SegmentsCoverExactlyWhenRowsFit(lengths: seq<int>, rows: nat, width: nat)
    requires Batch(lengths, rows, width) && AllNonNegative(lengths)
    ensures var totals := RowSums(lengths, rows, width); var cu := Cumulative(Values(lengths));
            && |Indices(totals, width)| <= cu[|cu| - 1]
            && (|Indices(totals, width)| == cu[|cu| - 1] <==> RowsFit(totals, width))
  {
    var totals := RowSums(lengths, rows, width);
    TotalsNonNegative(lengths, rows, width);
    IndicesAreClipped(totals, width);
    ClippedAtMostSum(totals, width);
    SegmentsEndAtTheTotal(lengths, rows, width);
  }

  /** A row of two positions whose lengths say three: two indices, but cu_seqlens ends at three. */
  lemma {:induction false} RowOverflows()
    ensures Batch([3, 0], 1, 2) && RowSums([3, 0], 1, 2) == [3] && Indices([3], 2) == [0, 1]
    ensures Values([3, 0]) == [3] && Cumulative([3]) == [0, 3]
  {
    assert [3, 0][0 * 2..0 * 2 + 2] == [3, 0] && [3, 0][..1] == [3] && [3][..0] == [];
    assert Filled([3], 1, 2) == [1, 1];
    assert [1, 1][..1] == [1] && [1][..0] == [];
  }

  // ---------------------------------------------------------------------------
  // What the two calls return
  // ---------------------------------------------------------------------------

  /** unpad_input keeps every selected token, inside the stretch that cu_seqlens gives its row. */
  lemma {:induction false} UnpadKeepsToken<T>(x: seq<T>, attention: seq<int>, unused: seq<int>, rows: nat, width: nat,
                                              b: nat, s: nat)
    returns (k: nat)
    requires Batch(attention, rows, width) && |unused| == |attention| == |x| && b < rows && s < width
    requires b * width + s < |x| && AllMasks(attention, unused)[b * width + s] != 0
    requires forall i :: 0 <= i < |x| ==> AllMasks(attention, unused)[i] == 0 || AllMasks(attention, unused)[i] == 1
    ensures Unpad(x, attention, unused, rows, width).Ok?
    ensures var u := Unpad(x, attention, unused, rows, width).value;
            && |u.cuSeqlens| == rows + 1 && u.cuSeqlens[b] <= k < u.cuSeqlens[b + 1]
            && k < |u.hidden| && u.hidden[k] == x[b * width + s]
  {
    var all := AllMasks(attention, unused);
    CuSeqlensDelimitRows(all, rows, width, b, s);
    NonZeroIsTheSelection(all);
    k := |NonZero(all[..b * width + s])|;
    UnpadFields(x, attention, unused, rows, width);
  }

  lemma {:induction false} UnpadFields<T>(x: seq<T>, attention: seq<int>, unused: seq<int>, rows: nat, width: nat)
    requires Batch(attention, rows, width) && |unused| == |attention| == |x| && 0 < rows
    requires Within(NonZero(AllMasks(attention, unused)), |x|)
    ensures Unpad(x, attention, unused, rows, width).Ok?
    ensures var u, all := Unpad(x, attention, unused, rows, width).value, AllMasks(attention, unused);
            u.hidden == Gathered(x, NonZero(all)) && u.cuSeqlens == Cumulative(RowSums(all, rows, width))
  {
  }

  /** The step of the running sums, and the largest of them. */
  lemma {:induction false} LargestStep(xs: seq<int>) returns (k: nat)
    requires xs != []
    ensures k < |xs| && Cumulative(xs)[k + 1] - Cumulative(xs)[k] == Largest(xs)
    ensures forall i :: 0 <= i < |xs| ==> Cumulative(xs)[i + 1] - Cumulative(xs)[i] <= Largest(xs)
  {
    k :| k < |xs| && xs[k] == Largest(xs);
    PrefixStep(xs, k);
    forall i | 0 <= i < |xs|
      ensures Cumulative(xs)[i + 1] - Cumulative(xs)[i] <= Largest(xs)
    {
      PrefixStep(xs, i);
      LargestBounds(xs, i);
    }
  }

  /** max_seqlen is the longest stretch that cu_seqlens delimits. */
  lemma {:induction false} LongestRow<T>(x: seq<T>, attention: seq<int>, unused: seq<int>, rows: nat, width: nat,
                                         u: Unpadded<T>) returns (k: nat)
    requires Batch(attention, rows, width) && |unused| == |attention| == |x| && 0 < rows
    requires Unpad(x, attention, unused, rows, width) == Ok(u)
    ensures |u.cuSeqlens| == rows + 1 && k < rows && u.cuSeqlens[k + 1] - u.cuSeqlens[k] == u.maxSeqlen
    ensures forall b :: 0 <= b < rows ==> u.cuSeqlens[b + 1] - u.cuSeqlens[b] <= u.maxSeqlen
  {
    k := LargestStep(RowSums(AllMasks(attention, unused), rows, width));
  }

  /** The used lengths count the attended positions of a row alone. */
  lemma {:induction false} UsedLength<T>(x: seq<T>, attention: seq<int>, unused: seq<int>, rows: nat, width: nat,
                                         u: Unpadded<T>, b: nat)
    requires Batch(attention, rows, width) && |unused| == |attention| == |x| && b < rows
    requires Unpad(x, attention, unused, rows, width) == Ok(u)
    ensures |u.used| == rows && b * width + width <= |attention|
    ensures u.used[b] == Sum(attention[b * width..b * width + width])
  {
    RowSumsAt(attention, rows, width, b);
  }

  lemma {:induction false} RowSumsAt(mask: seq<int>, rows: nat, width: nat, b: nat)
    requires Batch(mask, rows, width) && b < rows
    ensures b * width + width <= |mask|
    ensures RowSums(mask, rows, width)[b] == Sum(mask[b * width..b * width + width])
  {
    RowInside(rows, width, b);
    RowSumsFront(mask, rows, width, b + 1);
    assert RowSums(mask, rows, width)[..b + 1][b] == RowSums(mask, b + 1, width)[b];
  }

  /** For concatenated sequences max_seqlen is the longest segment. */
  lemma {:induction false} ConcatenatedLengths<T>(x: seq<T>, lengths: seq<int>, rows: nat, width: nat, u: Unpadded<T>)
    returns (k: nat)
    requires Batch(lengths, rows, width) && |lengths| == |x| && UnpadConcatenated(x, lengths, rows, width) == Ok(u)
    ensures k + 1 < |u.cuSeqlens| && u.cuSeqlens[k + 1] - u.cuSeqlens[k] == u.maxSeqlen
    ensures forall i :: 0 <= i && i + 1 < |u.cuSeqlens| ==> u.cuSeqlens[i + 1] - u.cuSeqlens[i] <= u.maxSeqlen
  {
    k := LargestStep(Values(lengths));
  }

  lemma {:induction false} GatheredStretch<T>(x: seq<T>, indices: seq<nat>, lo: nat, hi: nat, from: nat)
    requires Within(indices, |x|) && lo < hi <= |indices| && indices[lo..hi] == Consecutive(from, hi - lo)
    ensures from + (hi - lo) <= |x| && Gathered(x, indices)[lo..hi] == x[from..from + (hi - lo)]
  {
    var part := indices[lo..hi];
    forall j: nat | j < |part|
      ensures part[j] == from + j && from + j < |x|
      ensures Gathered(x, indices)[lo..hi][j] == x[from..][j]
    {
      ConsecutiveAt(from, hi - lo, j);
      var i := lo + j;
      assert part[j] == indices[i] && Gathered(x, indices)[i] == x[indices[i]];
    }
    assert part[|part| - 1] == from + (hi - lo) - 1;
  }

  lemma {:induction false} ConsecutiveAt(from: int, n: nat, j: nat)
    requires j < n
    ensures Consecutive(from, n)[j] == from + j
  {
    if j < n - 1 {
      ConsecutiveAt(from, n - 1, j);
    }
  }

  lemma {:induction false} ConcatenatedFields<T>(x: seq<T>, lengths: seq<int>, rows: nat, width: nat, indices: seq<nat>)
    requires Batch(lengths, rows, width) && |lengths| == |x| && Values(lengths) != []
    requires indices == Indices(RowSums(lengths, rows, width), width)
    ensures Within(indices, |x|) && UnpadConcatenated(x, lengths, rows, width).Ok?
    ensures var u := UnpadConcatenated(x, lengths, rows, width).value;
            u.hidden == Gathered(x, indices) && u.cuSeqlens == Cumulative(Values(lengths))
  {
    NonZeroIsTheSelection(Filled(RowSums(lengths, rows, width), rows, width));
  }

  /** The packed tokens of a segment that lies in a row. */
  lemma {:induction false} GatheredSegment<T>(x: seq<T>, indices: seq<nat>, cu: seq<int>, k: nat, width: nat, b: nat,
                                              offset: nat, n: nat)
    requires Within(indices, |x|) && LiesInRow(indices, cu, k, width, b, offset) && cu[k + 1] - cu[k] == n
    ensures offset + n <= width && b * width + offset + n <= |x| && |Gathered(x, indices)| == |indices|
    ensures Gathered(x, indices)[cu[k]..cu[k + 1]] == x[b * width + offset..b * width + offset + n]
  {
    GatheredStretch(x, indices, cu[k], cu[k + 1], b * width + offset);
  }

  lemma {:induction false} PackedSegment<T>(x: seq<T>, lengths: seq<int>, rows: nat, width: nat, k: nat, b: nat,
                                            offset: nat, n: nat)
    requires Batch(lengths, rows, width) && |lengths| == |x| && k < |Values(lengths)|
    requires LiesInRow(Indices(RowSums(lengths, rows, width), width), Cumulative(Values(lengths)), k, width, b, offset)
    requires n == Cumulative(Values(lengths))[k + 1] - Cumulative(Values(lengths))[k]
    ensures UnpadConcatenated(x, lengths, rows, width).Ok?
    ensures var u := UnpadConcatenated(x, lengths, rows, width).value;
            && 0 < n && offset + n <= width && b * width + offset + n <= |x|
            && k + 1 < |u.cuSeqlens| && 0 <= u.cuSeqlens[k] && u.cuSeqlens[k + 1] == u.cuSeqlens[k] + n <= |u.hidden|
            && u.hidden[u.cuSeqlens[k]..u.cuSeqlens[k + 1]] == x[b * width + offset..b * width + offset + n]
  {
    var indices := Indices(RowSums(lengths, rows, width), width);
    ConcatenatedFields(x, lengths, rows, width, indices);
    GatheredSegment(x, indices, Cumulative(Values(lengths)), k, width, b, offset, n);
  }

  /** For rows that fit, segment k of the packed tokens is a stretch of one row of the input: as long as the
      k-th nonzero length, and right after the row's earlier segments. */
  lemma {:induction false} SegmentIsAStretchOfTheInput<T>(x: seq<T>, lengths: seq<int>, rows: nat, width: nat, k: nat)
    returns (b: nat, m: nat, offset: nat)
    requires Batch(lengths, rows, width) && |lengths| == |x| && AllNonNegative(lengths)
    requires RowsFit(RowSums(lengths, rows, width), width) && k < |Values(lengths)|
    ensures UnpadConcatenated(x, lengths, rows, width).Ok?
    ensures b < rows && m < width && b * width + m < |lengths| && offset == Sum(lengths[b * width..b * width + m])
    ensures var u := UnpadConcatenated(x, lengths, rows, width).value; var n := lengths[b * width + m];
            && 0 < n && offset + n <= width && b * width + offset + n <= |x|
            && k + 1 < |u.cuSeqlens| && 0 <= u.cuSeqlens[k] && u.cuSeqlens[k + 1] == u.cuSeqlens[k] + n <= |u.hidden|
            && u.hidden[u.cuSeqlens[k]..u.cuSeqlens[k + 1]] == x[b * width + offset..b * width + offset + n]
  {
    b, m := SegmentStaysInRow(lengths, rows, width, k);
    offset := Sum(lengths[b * width..b * width + m]);
    PrefixStep(Values(lengths), k);
    PackedSegment(x, lengths, rows, width, k, b, offset, lengths[b * width + m]);
  }
}
