/** The chunk schedule of the prefill convolution (aiter/ops/causal_conv1d_fwd_split_qkv.py): prefix sums and
    repeats that list every (sequence, chunk) pair, and the table that keeps schedules by tile size. */
module ChunkSchedule {
  import opened Results
  import opened Sums
  import opened RowMajor

  datatype Pair = Pair(sequence: nat, chunk: int)
  datatype Schedule = Schedule(total: int, sequences: seq<nat>, chunks: seq<int>)

  function Lengths(starts: seq<int>): (r: seq<int>)
    ensures |r| == if starts == [] then 0 else |starts| - 1
    ensures forall i {:trigger r[i]} :: 0 <= i < |r| ==> r[i] == starts[i + 1] - starts[i]
  {
    if starts == [] then [] else seq(|starts| - 1, i requires 0 <= i < |starts| - 1 => starts[i + 1] - starts[i])
  }

  /** Rounds up as -(-n // b) does, for negative lengths too. */
  function RoundedUp(n: int, b: nat): int
    requires 0 < b
  {
    -((-n) / b)
  }

  function Chunks(starts: seq<int>, b: nat): (r: seq<int>)
    requires 0 < b
    ensures |r| == |Lengths(starts)|
    ensures forall i :: 0 <= i < |r| ==> r[i] == RoundedUp(Lengths(starts)[i], b)
  {
    seq(|Lengths(starts)|, i requires 0 <= i < |Lengths(starts)| => RoundedUp(Lengths(starts)[i], b))
  }

  function Times<T>(x: T, k: int): (r: seq<T>)
    ensures |r| == if k < 0 then 0 else k
    ensures forall i :: 0 <= i < |r| ==> r[i] == x
  {
    if k <= 0 then [] else seq(k, _ => x)
  }

  function RepeatInterleave<T>(values: seq<T>, counts: seq<int>): seq<T>
    requires |values| == |counts|
  {
    if counts == [] then []
    else
      var n := |counts| - 1;
      RepeatInterleave(values[..n], counts[..n]) + Times(values[n], counts[n])
  }

  function Range(n: nat): (r: seq<nat>)
    ensures |r| == n && forall i :: 0 <= i < n ==> r[i] == i
  {
    seq(n, i => i)
  }

  /** Exclusive prefix sums. */
  function Before(counts: seq<int>): (r: seq<int>)
    ensures |r| == |counts| && forall i :: 0 <= i < |counts| ==> r[i] == Sum(counts[..i])
  {
    seq(|counts|, i requires 0 <= i < |counts| => Sum(counts[..i]))
  }

  function Minus(n: nat, base: seq<int>): (r: seq<int>)
    requires |base| == n
    ensures |r| == n && forall p :: 0 <= p < n ==> r[p] == p - base[p]
  {
    seq(n, p requires 0 <= p < n => p - base[p])
  }

  /** The vectorised schedule; repeats must not be negative. */
  function Build(starts: seq<int>, b: nat): Result<Schedule>
    requires 0 < b
  {
    var nums := Chunks(starts, b);
    var total := Sum(nums);
    if total == 0 then Ok(Schedule(0, [], []))
    else if exists i :: 0 <= i < |nums| && nums[i] < 0 then Err("repeats can not be negative")
    else
      RepeatLength(Range(|nums|), nums);
      RepeatLength(Before(nums), nums);
      Ok(Schedule(total, RepeatInterleave(Range(|nums|), nums), Minus(total, RepeatInterleave(Before(nums), nums))))
  }

  lemma {:induction false} RepeatLength<T>(values: seq<T>, counts: seq<int>)
    requires |values| == |counts| && AllNonNegative(counts)
    ensures |RepeatInterleave(values, counts)| == Sum(counts)
  {
    if counts != [] {
      RepeatLength(values[..|counts| - 1], counts[..|counts| - 1]);
    }
  }

  /** Position p repeats the value of the run it falls into. */
  lemma {:induction false} RepeatAt<T>(values: seq<T>, counts: seq<int>, p: nat)
    requires |values| == |counts| && AllNonNegative(counts) && p < Sum(counts)
    ensures p < |RepeatInterleave(values, counts)| && RepeatInterleave(values, counts)[p] == values[Owner(counts, p)]
    decreases |counts|
  {
    var n := |counts| - 1;
    RepeatLength(values[..n], counts[..n]);
    RepeatLength(values, counts);
    if p < Sum(counts[..n]) {
      RepeatAt(values[..n], counts[..n], p);
    }
  }

  // ---------------------------------------------------------------------------
  // The nested loop
  // ---------------------------------------------------------------------------

  /** for each sequence: for each of its chunks. */
  function Nested(nums: seq<int>): seq<Pair> {
    if nums == [] then []
    else
      var n := |nums| - 1;
      Nested(nums[..n]) + ChunksOf(n, nums[n])
  }

  function ChunksOf(sequence: nat, k: int): (r: seq<Pair>)
    ensures |r| == if k < 0 then 0 else k
    ensures forall c :: 0 <= c < |r| ==> r[c] == Pair(sequence, c)
  {
    if k <= 0 then [] else seq(k, c => Pair(sequence, c))
  }

  lemma {:induction false} NestedAt(nums: seq<int>, p: nat)
    requires AllNonNegative(nums) && p < Sum(nums)
    ensures |Nested(nums)| == Sum(nums)
    ensures Nested(nums)[p] == Pair(Owner(nums, p), p - Sum(nums[..Owner(nums, p)]))
    decreases |nums|
  {
    var n := |nums| - 1;
    NestedLength(nums);
    NestedLength(nums[..n]);
    if p < Sum(nums[..n]) {
      NestedAt(nums[..n], p);
      assert nums[..n][..Owner(nums, p)] == nums[..Owner(nums, p)];
    }
  }

  lemma {:induction false} NestedLength(nums: seq<int>)
    requires AllNonNegative(nums)
    ensures |Nested(nums)| == Sum(nums)
  {
    if nums != [] {
      NestedLength(nums[..|nums| - 1]);
    }
  }

  ghost predicate Nondecreasing(starts: seq<int>) {
    forall i :: 0 <= i < |Lengths(starts)| ==> Lengths(starts)[i] >= 0
  }

  lemma {:induction false} ChunkBounds(n: int, b: nat)
    requires 0 < b && 0 <= n
    ensures 0 <= RoundedUp(n, b) && n <= RoundedUp(n, b) * b < n + b
  {
    var q := (-n) / b;
    assert -n == q * b + (-n) % b;
    assert RoundedUp(n, b) * b == -(q * b);
    if q > 0 {
      MulMonotone(1, q, b);
    }
  }

  lemma {:induction false} ChunksNonNegative(starts: seq<int>, b: nat)
    requires 0 < b && Nondecreasing(starts)
    ensures AllNonNegative(Chunks(starts, b))
  {
    forall i | 0 <= i < |Lengths(starts)|
      ensures Chunks(starts, b)[i] >= 0
    {
      ChunkBounds(Lengths(starts)[i], b);
    }
  }

  function Zipped(s: Schedule): (r: seq<Pair>)
    requires |s.sequences| == |s.chunks|
    ensures |r| == |s.chunks| && forall p :: 0 <= p < |r| ==> r[p] == Pair(s.sequences[p], s.chunks[p])
  {
    seq(|s.chunks|, p requires 0 <= p < |s.chunks| => Pair(s.sequences[p], s.chunks[p]))
  }

  /** The vectorised schedule is the nested loop's list of pairs, for every nondecreasing start array and
      every block size. */
  lemma {:induction false} BuildIsNestedLoop(starts: seq<int>, b: nat) returns (s: Schedule)
    requires 0 < b && Nondecreasing(starts)
    ensures Build(starts, b) == Ok(s)
    ensures s.total == |s.sequences| == |s.chunks| && Zipped(s) == Nested(Chunks(starts, b))
  {
    var nums := Chunks(starts, b);
    ChunksNonNegative(starts, b);
    NestedLength(nums);
    s := Build(starts, b).value;
    if Sum(nums) != 0 {
      RepeatLength(Range(|nums|), nums);
      RepeatLength(Before(nums), nums);
      forall p | 0 <= p < s.total
        ensures Zipped(s)[p] == Nested(nums)[p]
      {
        RepeatAt(Range(|nums|), nums, p);
        RepeatAt(Before(nums), nums, p);
        NestedAt(nums, p);
      }
    }
  }

  /** Only a start that falls back by a whole block or more is refused, and only if the chunks do not cancel. */
  lemma {:induction false} BuildRefusesExactlyWhen(starts: seq<int>, b: nat)
    requires 0 < b
    ensures Build(starts, b).Err?
            <==> Sum(Chunks(starts, b)) != 0 && exists i :: 0 <= i < |starts| - 1 && starts[i + 1] + b <= starts[i]
  {
    var nums := Chunks(starts, b);
    forall i | 0 <= i < |nums|
      ensures nums[i] < 0 <==> starts[i + 1] + b <= starts[i]
    {
      NegativeChunks(Lengths(starts)[i], b);
    }
    if i :| 0 <= i < |starts| - 1 && starts[i + 1] + b <= starts[i] {
      assert nums[i] < 0;
    }
  }

  lemma {:induction false} NegativeChunks(n: int, b: nat)
    requires 0 < b
    ensures RoundedUp(n, b) < 0 <==> n + b <= 0
  {
    var q := (-n) / b;
    assert -n == q * b + (-n) % b;
    if q > 0 {
      MulMonotone(1, q, b);
    } else {
      MulMonotone(q, 0, b);
    }
  }

  // ---------------------------------------------------------------------------
  // The tiles
  // ---------------------------------------------------------------------------

  /** Token t lies in this chunk of its sequence. */
  ghost predicate InTile(starts: seq<int>, b: nat, pair: Pair, t: int) {
    && pair.sequence + 1 < |starts|
    && starts[pair.sequence] + pair.chunk * b <= t < starts[pair.sequence] + pair.chunk * b + b
    && t < starts[pair.sequence + 1]
  }

  lemma {:induction false} LengthsSum(starts: seq<int>, i: nat)
    requires i < |starts|
    ensures Sum(Lengths(starts)[..i]) == starts[i] - starts[0]
  {
    if i > 0 {
      LengthsSum(starts, i - 1);
      PrefixStep(Lengths(starts), i - 1);
    }
  }

  /** Program p's tile as an offset range: chunk c of sequence i is program prefix(i) + c. */
  lemma {:induction false} PairPosition(nums: seq<int>, i: nat, c: nat)
    requires AllNonNegative(nums) && i < |nums| && c < nums[i]
    ensures 0 <= Sum(nums[..i]) + c < |Nested(nums)| && Nested(nums)[Sum(nums[..i]) + c] == Pair(i, c)
  {
    PrefixStep(nums, i);
    OwnerUnique(nums, Sum(nums[..i]) + c, i);
    NestedAt(nums, Sum(nums[..i]) + c);
  }

  /** Every pair of the schedule is a chunk its sequence needs. */
  lemma {:induction false} PairIsNeeded(nums: seq<int>, p: nat)
    requires AllNonNegative(nums) && p < |Nested(nums)|
    ensures var pair := Nested(nums)[p];
            && pair.sequence < |nums| && 0 <= pair.chunk < nums[pair.sequence]
            && p == Sum(nums[..pair.sequence]) + pair.chunk
  {
    NestedLength(nums);
    NestedAt(nums, p);
    PrefixStep(nums, Owner(nums, p));
  }

  lemma {:induction false} TokenChunk(starts: seq<int>, b: nat, t: int) returns (i: nat, c: nat)
    requires 0 < b && Nondecreasing(starts) && starts != [] && starts[0] <= t < starts[|starts| - 1]
    ensures i < |Lengths(starts)| && c < RoundedUp(Lengths(starts)[i], b) && InTile(starts, b, Pair(i, c), t)
  {
    var lengths := Lengths(starts);
    LengthsSum(starts, |lengths|);
    PrefixWhole(lengths);
    i := Owner(lengths, t - starts[0]);
    LengthsSum(starts, i);
    LengthsSum(starts, i + 1);
    c := (t - starts[i]) / b;
    ChunkBounds(lengths[i], b);
    ChunkHolds(t - starts[i], lengths[i], RoundedUp(lengths[i], b), c, b);
  }

  /** Every token lies in the tile of a program. */
  lemma {:induction false} TokenHasTile(starts: seq<int>, b: nat, t: int) returns (p: nat)
    requires 0 < b && Nondecreasing(starts) && starts != [] && starts[0] <= t < starts[|starts| - 1]
    ensures p < |Nested(Chunks(starts, b))| && InTile(starts, b, Nested(Chunks(starts, b))[p], t)
  {
    var i, c := TokenChunk(starts, b, t);
    ChunksNonNegative(starts, b);
    PairPosition(Chunks(starts, b), i, c);
    p := Sum(Chunks(starts, b)[..i]) + c;
  }

  /** No program runs for nothing: every listed chunk holds its sequence's token at its start. */
  lemma {:induction false} TileHasToken(starts: seq<int>, b: nat, p: nat)
    requires 0 < b && Nondecreasing(starts) && p < |Nested(Chunks(starts, b))|
    ensures var pair := Nested(Chunks(starts, b))[p];
            pair.sequence < |starts| && InTile(starts, b, pair, starts[pair.sequence] + pair.chunk * b)
  {
    ChunksNonNegative(starts, b);
    PairIsNeeded(Chunks(starts, b), p);
    var pair := Nested(Chunks(starts, b))[p];
    var length := Lengths(starts)[pair.sequence];
    ChunkBounds(length, b);
    ChunkStarts(length, RoundedUp(length, b), pair.chunk, b);
  }

  lemma {:induction false} ChunkStarts(length: int, k: int, c: int, b: nat)
    requires 0 < b && c < k && k * b < length + b
    ensures c * b < length
  {
    MulMonotone(c + 1, k, b);
    assert (c + 1) * b == c * b + b;
  }

  lemma {:induction false} ChunkHolds(x: nat, length: nat, k: int, c: nat, b: nat)
    requires 0 < b && x < length <= k * b && c == x / b
    ensures c < k && c * b <= x < c * b + b
  {
    assert x == c * b + x % b;
    if c >= k {
      MulMonotone(k, c, b);
    }
  }

  lemma {:induction false} SameChunk(x: int, c: int, c': int, b: nat)
    requires 0 < b && c * b <= x < c * b + b && c' * b <= x < c' * b + b
    ensures c == c'
  {
    assert (c - c') * b == c * b - c' * b;
    SmallMultipleIsZero(c - c', b);
  }

  lemma {:induction false} SameTile(starts: seq<int>, b: nat, x: Pair, y: Pair, t: int)
    requires 0 < b && Nondecreasing(starts) && 0 <= x.chunk && 0 <= y.chunk
    requires InTile(starts, b, x, t) && InTile(starts, b, y, t)
    ensures x == y && starts[0] <= t < starts[|starts| - 1]
  {
    TileOwner(starts, b, x, t);
    TileOwner(starts, b, y, t);
    SameChunkOfTile(starts, b, x, y, t);
    LengthsSum(starts, |starts| - 1);
    PrefixWhole(Lengths(starts));
  }

  lemma {:induction false} SameChunkOfTile(starts: seq<int>, b: nat, x: Pair, y: Pair, t: int)
    requires 0 < b && InTile(starts, b, x, t) && InTile(starts, b, y, t) && x.sequence == y.sequence
    ensures x.chunk == y.chunk
  {
    SameChunk(t - starts[x.sequence], x.chunk, y.chunk, b);
  }

  /** No token lies in the tiles of two programs, and no tile leaves the token range. */
  lemma {:induction false} TilesApart(starts: seq<int>, b: nat, p: nat, q: nat, t: int)
    requires 0 < b && Nondecreasing(starts)
    requires p < |Nested(Chunks(starts, b))| && q < |Nested(Chunks(starts, b))|
    requires InTile(starts, b, Nested(Chunks(starts, b))[p], t) && InTile(starts, b, Nested(Chunks(starts, b))[q], t)
    ensures p == q && starts[0] <= t < starts[|starts| - 1]
  {
    ChunksNonNegative(starts, b);
    PairIsNeeded(Chunks(starts, b), p);
    PairIsNeeded(Chunks(starts, b), q);
    SameTile(starts, b, Nested(Chunks(starts, b))[p], Nested(Chunks(starts, b))[q], t);
  }

  lemma {:induction false} TileOwner(starts: seq<int>, b: nat, pair: Pair, t: int)
    requires 0 < b && Nondecreasing(starts) && InTile(starts, b, pair, t) && 0 <= pair.chunk
    ensures 0 <= t - starts[0] < Sum(Lengths(starts)) && pair.sequence == Owner(Lengths(starts), t - starts[0])
  {
    LengthsSum(starts, pair.sequence);
    LengthsSum(starts, pair.sequence + 1);
    TileInSequence(starts, b, pair, t);
    OwnerUnique(Lengths(starts), t - starts[0], pair.sequence);
  }

  lemma {:induction false} TileInSequence(starts: seq<int>, b: nat, pair: Pair, t: int)
    requires InTile(starts, b, pair, t) && 0 <= pair.chunk
    ensures starts[pair.sequence] <= t < starts[pair.sequence + 1]
  {
    MulMonotone(0, pair.chunk, b);
  }

  // ---------------------------------------------------------------------------
  // The shared table of schedules
  // ---------------------------------------------------------------------------

  /** The tile: the caller's choice when it is a supported one, otherwise by average length. */
  function Tile(forced: Option<int>, tokens: nat, sequences: nat): (b: nat)
    ensures b in {8, 16, 32, 64}
    ensures forced.Some? && forced.value in {8, 16, 32, 64} ==> b == forced.value
  {
    if forced.Some? && forced.value in {8, 16, 32, 64} then forced.value
    else
      var average := tokens as real / (if sequences < 1 then 1 else sequences) as real;
      if average <= 12.0 then 8 else if average <= 24.0 then 16 else if average <= 48.0 then 32 else 64
  }

  /** Without a supported choice the tile grows with the average number of tokens per sequence. */
  lemma {:induction false} TileByAverage(forced: Option<int>, tokens: nat, sequences: nat, n: nat)
    requires forced.Some? ==> forced.value !in {8, 16, 32, 64}
    requires n == if sequences == 0 then 1 else sequences
    ensures Tile(forced, tokens, sequences)
         == if tokens <= 12 * n then 8 else if tokens <= 24 * n then 16 else if tokens <= 48 * n then 32 else 64
  {
    var average := tokens as real / n as real;
    assert average * n as real == tokens as real;
    forall k: int
      ensures average <= k as real <==> tokens <= k * n
    {
      QuotientAtMost(tokens, n, k);
    }
  }

  lemma {:induction false} QuotientAtMost(x: int, n: nat, k: int)
    requires 0 < n
    ensures x as real / n as real <= k as real <==> x <= k * n
  {
    var q, m := x as real / n as real, n as real;
    assert q * m == x as real;
    assert (k * n) as real == k as real * m;
    if q <= k as real {
      assert (k as real - q) * m >= 0.0;
    } else {
      assert (q - k as real) * m > 0.0;
    }
  }

  /** nums_dict: schedules by tile, shared by all calls of one step. */
  class NumsDict {
    var entries: map<nat, Schedule>

    constructor ()
      ensures entries == map[]
    {
      entries := map[];
    }

    /** Every stored schedule was built from these starts. */
    ghost predicate Valid(starts: seq<int>)
      reads this
    {
      forall b :: b in entries ==> 0 < b && Build(starts, b) == Ok(entries[b])
    }

    /** The schedule for a tile: the stored one, whatever starts it was built from, otherwise a new one, stored
        for later calls. A table kept for the same starts therefore always answers with their schedule. */
    method Get(starts: seq<int>, b: nat) returns (r: Result<Schedule>)
      requires 0 < b
      modifies this
      ensures b in old(entries) ==> r == Ok(old(entries)[b]) && entries == old(entries)
      ensures b !in old(entries) ==> r == Build(starts, b)
      ensures b !in old(entries) ==> entries == if r.Ok? then old(entries)[b := r.value] else old(entries)
      ensures old(Valid(starts)) ==> Valid(starts) && r == Build(starts, b)
      ensures forall other :: old(Valid(other)) && b in old(entries) ==> r == Build(other, b)
    {
      if b in entries {
        r := Ok(entries[b]);
      } else {
        r := Build(starts, b);
        if r.Ok? {
          entries := entries[b := r.value];
        }
      }
    }
  }
}
