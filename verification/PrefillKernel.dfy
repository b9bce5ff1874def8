/** One program of the prefill reduction kernel (aiter/mla.py): a (group, head, token) triple that
    reads its partial results through strides and stores the reduced row in dimension chunks. */
module PrefillKernel {
  import opened ExtendedReals
  import opened SplitKvMerge
  import opened PrefillReduce
  import opened RowMajor

  datatype Strides = Strides(poTok: nat, poHead: nat, poDim: nat, lseTok: nat, lseHead: nat, oTok: nat, oHead: nat,
                             oDim: nat)

  /** The launch constants and what the program reads from the reduce maps. */
  datatype Program = Program(st: Strides, head: nat, tok: nat, vHeadDim: nat, blockDim: nat, maxPartials: nat,
                             qoStart: nat, qoEnd: nat, locations: seq<nat>)

  function LseAddress(g: Program, p: nat): nat
    requires p < |g.locations|
  {
    (g.locations[p] + g.tok) * g.st.lseTok + g.head * g.st.lseHead
  }

  function PartialAddress(g: Program, p: nat, d: nat): nat
    requires p < |g.locations|
  {
    (g.locations[p] + g.tok) * g.st.poTok + g.head * g.st.poHead + d * g.st.poDim
  }

  function OutAddress(g: Program, d: nat): nat {
    (g.qoStart + g.tok) * g.st.oTok + g.head * g.st.oHead + d * g.st.oDim
  }

  ghost predicate InBounds(g: Program, partial: seq<Float>, lse: seq<Float>) {
    && (forall p | 0 <= p < |g.locations| :: LseAddress(g, p) < |lse|)
    && (forall p, d | 0 <= p < |g.locations| && 0 <= d < g.vHeadDim :: PartialAddress(g, p, d) < |partial|)
  }

  /** The first n partial results as lane d sees them. */
  ghost function Lane(g: Program, partial: seq<Float>, lse: seq<Float>, n: nat, d: nat): (parts: seq<Partial>)
    requires InBounds(g, partial, lse) && n <= |g.locations| && d < g.vHeadDim
    ensures |parts| == n
  {
    if n == 0 then []
    else Lane(g, partial, lse, n - 1, d) + [Partial(lse[LseAddress(g, n - 1)], partial[PartialAddress(g, n - 1, d)])]
  }

  lemma {:induction false} LaneAt(g: Program, partial: seq<Float>, lse: seq<Float>, n: nat, d: nat, p: nat)
    requires InBounds(g, partial, lse) && p < n <= |g.locations| && d < g.vHeadDim
    ensures Lane(g, partial, lse, n, d)[p] == Partial(lse[LseAddress(g, p)], partial[PartialAddress(g, p, d)])
  {
    if p < n - 1 {
      LaneAt(g, partial, lse, n - 1, d, p);
    }
  }

  lemma {:induction false} ExtendLane(g: Program, partial: seq<Float>, lse: seq<Float>, n: nat, d: nat)
    requires InBounds(g, partial, lse) && n < |g.locations| && d < g.vHeadDim
    ensures Lane(g, partial, lse, n + 1, d)[..n] == Lane(g, partial, lse, n, d)
  {
  }

  /** The scan over the partial log-sum-exps: their cleaned values and their maximum. */
  method CollectLse(g: Program, partial: array<Float>, lse: array<Float>) returns (maxLse: Float, lseValues: seq<Float>)
    requires InBounds(g, partial[..], lse[..]) && |g.locations| <= g.maxPartials
    ensures |lseValues| == g.maxPartials
    ensures forall p | 0 <= p < |g.locations| :: lseValues[p] == CleanLse(lse[LseAddress(g, p)])
    ensures forall d | 0 <= d < g.vHeadDim :: maxLse == MaxLse(Lane(g, partial[..], lse[..], |g.locations|, d))
  {
    maxLse := NegInf;
    lseValues := seq(g.maxPartials, _ => NegInf);
    for p := 0 to |g.locations|
      invariant |lseValues| == g.maxPartials
      invariant forall q | 0 <= q < p :: lseValues[q] == CleanLse(lse[LseAddress(g, q)])
      invariant forall d | 0 <= d < g.vHeadDim :: maxLse == MaxLse(Lane(g, partial[..], lse[..], p, d))
    {
      var value := CleanLse(lse[LseAddress(g, p)]);
      lseValues := lseValues[p := value];
      ghost var next := p + 1;
      forall d | 0 <= d < g.vHeadDim
        ensures Max(maxLse, value) == MaxLse(Lane(g, partial[..], lse[..], next, d))
      {
        ExtendLane(g, partial[..], lse[..], p, d);
      }
      maxLse := Max(maxLse, value);
    }
  }

  /** The sum over the static range, guarded by the live count. */
  method SumExponentials(m: ExpLog, g: Program, lseValues: seq<Float>, maxLse: Float, ghost parts: seq<Partial>)
    returns (sum: Float)
    requires |lseValues| == g.maxPartials && |parts| == |g.locations| <= g.maxPartials
    requires forall p | 0 <= p < |parts| :: lseValues[p] == CleanLse(parts[p].lse)
    ensures sum == Total(Shares(m, parts, maxLse))
  {
    sum := Fin(0.0);
    ghost var shares := Shares(m, parts, maxLse);
    assert shares[..0] == [];
    for p := 0 to g.maxPartials
      invariant sum == Total(shares[..if p <= |parts| then p else |parts|])
    {
      if p < |g.locations| {
        assert shares[..p + 1][..p] == shares[..p];
        sum := Add(sum, Exp(m, Sub(lseValues[p], maxLse)));
      }
    }
    assert shares[..|parts|] == shares;
  }

  /** acc += scale * partial, with NaN partials read as zero. */
  method AddChunk(acc: seq<Float>, scale: Float, loaded: seq<Float>) returns (r: seq<Float>)
    requires |acc| == |loaded|
    ensures |r| == |acc| && forall j :: 0 <= j < |acc| ==> r[j] == Add(acc[j], Mul(scale, CleanValue(loaded[j])))
  {
    r := [];
    for j := 0 to |acc|
      invariant |r| == j && forall i :: 0 <= i < j ==> r[i] == Add(acc[i], Mul(scale, CleanValue(loaded[i])))
    {
      r := r + [Add(acc[j], Mul(scale, CleanValue(loaded[j])))];
    }
  }

  lemma {:induction false} ExtendScaled(m: ExpLog, g: Program, partial: seq<Float>, lse: seq<Float>, p: nat, d: nat,
                                        finalLse: Float)
    requires InBounds(g, partial, lse) && p < |g.locations| && d < g.vHeadDim
    ensures Total(ScaledValues(m, Lane(g, partial, lse, p + 1, d), finalLse))
            == Add(Total(ScaledValues(m, Lane(g, partial, lse, p, d), finalLse)),
                   Mul(Exp(m, Sub(CleanLse(lse[LseAddress(g, p)]), finalLse)),
                       CleanValue(partial[PartialAddress(g, p, d)])))
  {
    ExtendLane(g, partial, lse, p, d);
    var scaled := ScaledValues(m, Lane(g, partial, lse, p + 1, d), finalLse);
    assert scaled[..p] == ScaledValues(m, Lane(g, partial, lse, p, d), finalLse);
  }

  /** The accumulator of the chunk from start after n partial results. */
  ghost predicate ChunkHolds(m: ExpLog, g: Program, partial: seq<Float>, lse: seq<Float>, n: nat, start: nat,
                             finalLse: Float, acc: seq<Float>)
    requires InBounds(g, partial, lse) && n <= |g.locations|
  {
    && |acc| == g.blockDim
    && forall j | 0 <= j < g.blockDim && start + j < g.vHeadDim ::
         acc[j] == Total(ScaledValues(m, Lane(g, partial, lse, n, start + j), finalLse))
  }

  lemma {:induction false} LaneAdvances(m: ExpLog, g: Program, partial: seq<Float>, lse: seq<Float>, n: nat, d: nat,
                                        finalLse: Float, before: Float, scale: Float, loaded: Float, after: Float)
    requires InBounds(g, partial, lse) && n < |g.locations| && d < g.vHeadDim
    requires before == Total(ScaledValues(m, Lane(g, partial, lse, n, d), finalLse))
    requires scale == Exp(m, Sub(CleanLse(lse[LseAddress(g, n)]), finalLse))
    requires loaded == partial[PartialAddress(g, n, d)]
    requires after == Add(before, Mul(scale, CleanValue(loaded)))
    ensures after == Total(ScaledValues(m, Lane(g, partial, lse, n + 1, d), finalLse))
  {
    ExtendScaled(m, g, partial, lse, n, d, finalLse);
  }

  lemma {:induction false} ChunkAdvances(m: ExpLog, g: Program, partial: seq<Float>, lse: seq<Float>, n: nat,
                                         start: nat, finalLse: Float, acc: seq<Float>, scale: Float,
                                         loaded: seq<Float>, acc': seq<Float>)
    requires InBounds(g, partial, lse) && n < |g.locations| && ChunkHolds(m, g, partial, lse, n, start, finalLse, acc)
    requires scale == Exp(m, Sub(CleanLse(lse[LseAddress(g, n)]), finalLse))
    requires |loaded| == |acc'| == g.blockDim
    requires forall j | 0 <= j < g.blockDim && start + j < g.vHeadDim ::
             loaded[j] == partial[PartialAddress(g, n, start + j)]
    requires forall j | 0 <= j < g.blockDim :: acc'[j] == Add(acc[j], Mul(scale, CleanValue(loaded[j])))
    ensures ChunkHolds(m, g, partial, lse, n + 1, start, finalLse, acc')
  {
    forall j | 0 <= j < g.blockDim && start + j < g.vHeadDim
      ensures acc'[j] == Total(ScaledValues(m, Lane(g, partial, lse, n + 1, start + j), finalLse))
    {
      LaneAdvances(m, g, partial, lse, n, start + j, finalLse, acc[j], scale, loaded[j], acc'[j]);
    }
  }

  /** The accumulator of one dimension chunk: lane j works on dimension start + j. */
  method AccumulateChunk(m: ExpLog, g: Program, partial: array<Float>, lse: array<Float>, lseValues: seq<Float>,
                         finalLse: Float, start: nat)
    returns (acc: seq<Float>)
    requires InBounds(g, partial[..], lse[..]) && |g.locations| <= g.maxPartials == |lseValues|
    requires forall p | 0 <= p < |g.locations| :: lseValues[p] == CleanLse(lse[LseAddress(g, p)])
    ensures ChunkHolds(m, g, partial[..], lse[..], |g.locations|, start, finalLse, acc)
  {
    acc := seq(g.blockDim, _ => Fin(0.0));
    for p := 0 to g.maxPartials
      invariant ChunkHolds(m, g, partial[..], lse[..], if p <= |g.locations| then p else |g.locations|,
                           start, finalLse, acc)
    {
      if p < |g.locations| {
        var scale := Exp(m, Sub(lseValues[p], finalLse));
        ghost var before := acc;
        var loaded := LoadChunk(g, partial, p, start, lse);
        acc := AddChunk(acc, scale, loaded);
        ChunkAdvances(m, g, partial[..], lse[..], p, start, finalLse, before, scale, loaded, acc);
      }
    }
  }

  /** A masked load: lanes beyond the head dimension read zero. */
  method LoadChunk(g: Program, partial: array<Float>, p: nat, start: nat, lse: array<Float>)
    returns (loaded: seq<Float>)
    requires InBounds(g, partial[..], lse[..]) && p < |g.locations|
    ensures |loaded| == g.blockDim
    ensures forall j | 0 <= j < g.blockDim && start + j < g.vHeadDim ::
              loaded[j] == partial[PartialAddress(g, p, start + j)]
  {
    loaded := [];
    for j := 0 to g.blockDim
      invariant |loaded| == j
      invariant forall i | 0 <= i < j && start + i < g.vHeadDim ::
                  loaded[i] == partial[PartialAddress(g, p, start + i)]
    {
      loaded := loaded + [if start + j < g.vHeadDim then partial[PartialAddress(g, p, start + j)] else Fin(0.0)];
    }
  }

  /** The reduced row that a live program must leave behind. */
  ghost function Reduced(m: ExpLog, g: Program, partial: seq<Float>, lse: seq<Float>, d: nat): Float
    requires InBounds(g, partial, lse) && d < g.vHeadDim
  {
    TwoPass(m, Lane(g, partial, lse, |g.locations|, d))
  }

  /** A program with no partial result, or whose token lies beyond the tile, stores nothing. */
  predicate Live(g: Program) {
    |g.locations| != 0 && g.tok < g.qoEnd - g.qoStart
  }

  lemma {:induction false} DimensionsApart(g: Program, d: nat, e: nat)
    requires 1 <= g.st.oDim && d < e
    ensures OutAddress(g, d) < OutAddress(g, e)
  {
    RowsApart(g.st.oDim, d, e);
  }

  ghost predicate OwnsCell(g: Program, i: int) {
    exists d | 0 <= d < g.vHeadDim :: OutAddress(g, d) == i
  }

  lemma {:induction false} SharesAlike(m: ExpLog, g: Program, partial: seq<Float>, lse: seq<Float>, d: nat, max: Float)
    requires InBounds(g, partial, lse) && d < g.vHeadDim
    ensures Shares(m, Lane(g, partial, lse, |g.locations|, d), max)
            == Shares(m, Lane(g, partial, lse, |g.locations|, 0), max)
  {
    var n := |g.locations|;
    forall p | 0 <= p < n
      ensures Lane(g, partial, lse, n, d)[p].lse == Lane(g, partial, lse, n, 0)[p].lse
    {
      LaneAt(g, partial, lse, n, d, p);
      LaneAt(g, partial, lse, n, 0, p);
    }
  }

  /** The final log-sum-exp is the same in every lane. */
  method FinalLse(m: ExpLog, g: Program, partial: array<Float>, lse: array<Float>)
    returns (finalLse: Float, lseValues: seq<Float>)
    requires InBounds(g, partial[..], lse[..]) && |g.locations| <= g.maxPartials && 1 <= g.vHeadDim
    ensures |lseValues| == g.maxPartials
    ensures forall p | 0 <= p < |g.locations| :: lseValues[p] == CleanLse(lse[LseAddress(g, p)])
    ensures forall d | 0 <= d < g.vHeadDim ::
              finalLse == PrefillLse(m, Lane(g, partial[..], lse[..], |g.locations|, d))
  {
    var maxLse;
    maxLse, lseValues := CollectLse(g, partial, lse);
    ghost var parts0 := Lane(g, partial[..], lse[..], |g.locations|, 0);
    forall p | 0 <= p < |g.locations|
      ensures parts0[p].lse == lse[..][LseAddress(g, p)]
    {
      LaneAt(g, partial[..], lse[..], |g.locations|, 0, p);
    }
    var sum := SumExponentials(m, g, lseValues, maxLse, parts0);
    finalLse := Add(maxLse, Log(m, sum));
    forall d | 0 <= d < g.vHeadDim
      ensures finalLse == PrefillLse(m, Lane(g, partial[..], lse[..], |g.locations|, d))
    {
      SharesAlike(m, g, partial[..], lse[..], d, maxLse);
    }
  }

  /** The whole program: a live one leaves the two-pass reduction in every dimension of its row, any
      other leaves the output alone, and no cell outside the row changes. */
  method ReduceProgram(m: ExpLog, g: Program, partial: array<Float>, lse: array<Float>, output: array<Float>)
    requires InBounds(g, partial[..], lse[..]) && |g.locations| <= g.maxPartials
    requires 1 <= g.st.oDim && 1 <= g.blockDim && 1 <= g.vHeadDim && output != partial && output != lse
    requires forall d | 0 <= d < g.vHeadDim :: OutAddress(g, d) < output.Length
    modifies output
    ensures Live(g) ==> forall d | 0 <= d < g.vHeadDim ::
                          output[OutAddress(g, d)] == Reduced(m, g, old(partial[..]), old(lse[..]), d)
    ensures forall i | 0 <= i < output.Length && !(Live(g) && OwnsCell(g, i)) :: output[i] == old(output[i])
  {
    if |g.locations| == 0 {
      return;
    }
    if g.tok >= g.qoEnd - g.qoStart {
      return;
    }
    ghost var po, pl := partial[..], lse[..];
    var finalLse, lseValues := FinalLse(m, g, partial, lse);
    var start := 0;
    while start < g.vHeadDim
      invariant po == partial[..] && pl == lse[..]
      invariant forall d | 0 <= d < g.vHeadDim && d < start :: output[OutAddress(g, d)] == Reduced(m, g, po, pl, d)
      invariant forall i | 0 <= i < output.Length && !OwnsCell(g, i) :: output[i] == old(output[i])
    {
      var acc := AccumulateChunk(m, g, partial, lse, lseValues, finalLse, start);
      forall d | start <= d < start + g.blockDim && d < g.vHeadDim
        ensures acc[d - start] == Reduced(m, g, po, pl, d)
      {
        var j := d - start;
        assert start + j == d;
      }
      StoreChunk(g, output, start, acc);
      assert partial[..] == po && lse[..] == pl;
      start := start + g.blockDim;
    }
  }

  /** A masked store of one chunk. */
  method StoreChunk(g: Program, output: array<Float>, start: nat, acc: seq<Float>)
    requires |acc| == g.blockDim && 1 <= g.st.oDim
    requires forall d | 0 <= d < g.vHeadDim :: OutAddress(g, d) < output.Length
    modifies output
    ensures forall d | start <= d < start + g.blockDim && d < g.vHeadDim :: output[OutAddress(g, d)] == acc[d - start]
    ensures forall d | 0 <= d < start && d < g.vHeadDim :: output[OutAddress(g, d)] == old(output[OutAddress(g, d)])
    ensures forall i | 0 <= i < output.Length && !OwnsCell(g, i) ::
              output[i] == old(output[i])
  {
    for j := 0 to g.blockDim
      invariant forall d | start <= d < start + j && d < g.vHeadDim :: output[OutAddress(g, d)] == acc[d - start]
      invariant forall d | 0 <= d < start && d < g.vHeadDim :: output[OutAddress(g, d)] == old(output[OutAddress(g, d)])
      invariant forall i | 0 <= i < output.Length && !OwnsCell(g, i) ::
                  output[i] == old(output[i])
    {
      if start + j < g.vHeadDim {
        forall d | 0 <= d < start + j
          ensures OutAddress(g, d) != OutAddress(g, start + j)
        {
          DimensionsApart(g, d, start + j);
        }
        output[OutAddress(g, start + j)] := acc[j];
      }
    }
  }

  // ---------------------------------------------------------------------------
  // The contiguous layout the launcher documents
  // ---------------------------------------------------------------------------

  /** Strides of contiguous tensors: partial outputs [rows, heads, dim], partial log-sum-exps [rows, heads] and
      output [rows, heads, dim]. */
  ghost predicate Contiguous(g: Program, heads: nat) {
    && g.st.poTok == heads * g.vHeadDim && g.st.poHead == g.vHeadDim && g.st.poDim == 1
    && g.st.lseTok == heads && g.st.lseHead == 1
    && g.st.oTok == heads * g.vHeadDim && g.st.oHead == g.vHeadDim && g.st.oDim == 1
    && g.head < heads
  }

  lemma {:induction false} RowHeadDim(row: nat, heads: nat, dim: nat, head: nat)
    ensures row * (heads * dim) + head * dim == (row * heads + head) * dim
  {
    assert row * (heads * dim) == (row * heads) * dim;
    assert (row * heads + head) * dim == (row * heads) * dim + head * dim;
  }

  /** The addresses count row-major: row locations[p] + tok of the partial results, row qoStart + tok of the
      output, then the head, then the dimension. */
  lemma {:induction false} AddressesNameTheCells(g: Program, heads: nat, p: nat, d: nat)
    requires Contiguous(g, heads) && p < |g.locations| && d < g.vHeadDim
    ensures LseAddress(g, p) == (g.locations[p] + g.tok) * heads + g.head
    ensures PartialAddress(g, p, d) == ((g.locations[p] + g.tok) * heads + g.head) * g.vHeadDim + d
    ensures OutAddress(g, d) == ((g.qoStart + g.tok) * heads + g.head) * g.vHeadDim + d
  {
    RowHeadDim(g.locations[p] + g.tok, heads, g.vHeadDim, g.head);
    RowHeadDim(g.qoStart + g.tok, heads, g.vHeadDim, g.head);
  }

  lemma {:induction false} OutAddressNamesTheCell(g: Program, heads: nat, d: nat)
    requires Contiguous(g, heads)
    ensures OutAddress(g, d) == ((g.qoStart + g.tok) * heads + g.head) * g.vHeadDim + d
  {
    RowHeadDim(g.qoStart + g.tok, heads, g.vHeadDim, g.head);
  }

  /** The partial results of output row qoStart + tok under one head, as lane d sees them: for each location, row
      location + tok. */
  ghost predicate PartsOfRow(g: Program, heads: nat, partial: seq<Float>, lse: seq<Float>, d: nat,
                             parts: seq<Partial>) {
    && |parts| == |g.locations|
    && forall p | 0 <= p < |g.locations| ::
      && var at := (g.locations[p] + g.tok) * heads + g.head;
      && at < |lse| && 0 <= at * g.vHeadDim + d < |partial|
      && parts[p] == Partial(lse[at], partial[at * g.vHeadDim + d])
  }

  lemma {:induction false} LaneIsPartsOfRow(g: Program, heads: nat, partial: seq<Float>, lse: seq<Float>, d: nat,
                                            parts: seq<Partial>)
    requires Contiguous(g, heads) && InBounds(g, partial, lse) && d < g.vHeadDim
    requires PartsOfRow(g, heads, partial, lse, d, parts)
    ensures Lane(g, partial, lse, |g.locations|, d) == parts
  {
    forall p | 0 <= p < |g.locations|
      ensures Lane(g, partial, lse, |g.locations|, d)[p] == parts[p]
    {
      LaneAt(g, partial, lse, |g.locations|, d, p);
      AddressesNameTheCells(g, heads, p, d);
    }
  }

  /** What a run of the program leaves over contiguous tensors, in flat positions. A token of the tile, with some
      partial result, gets the two-pass reduction of the partial results of its own row; any other program leaves the
      output alone. */
  lemma {:induction false} ProgramReducesItsRow(m: ExpLog, g: Program, heads: nat, partial: seq<Float>,
                                                lse: seq<Float>, was: seq<Float>, now: seq<Float>, d: nat,
                                                parts: seq<Partial>)
    requires Contiguous(g, heads) && InBounds(g, partial, lse) && d < g.vHeadDim && |now| == |was|
    requires forall e | 0 <= e < g.vHeadDim :: OutAddress(g, e) < |now|
    requires Live(g) ==> forall e | 0 <= e < g.vHeadDim :: now[OutAddress(g, e)] == Reduced(m, g, partial, lse, e)
    requires forall i | 0 <= i < |now| && !(Live(g) && OwnsCell(g, i)) :: now[i] == was[i]
    requires PartsOfRow(g, heads, partial, lse, d, parts)
    ensures ((g.qoStart + g.tok) * heads + g.head) * g.vHeadDim + d < |now|
    ensures parts != [] && g.qoStart + g.tok < g.qoEnd ==>
              now[((g.qoStart + g.tok) * heads + g.head) * g.vHeadDim + d] == TwoPass(m, parts)
    ensures !(parts != [] && g.qoStart + g.tok < g.qoEnd) ==> now == was
  {
    OutAddressNamesTheCell(g, heads, d);
    assert OutAddress(g, d) < |now|;
    LaneIsPartsOfRow(g, heads, partial, lse, d, parts);
    if Live(g) {
      assert now[OutAddress(g, d)] == Reduced(m, g, partial, lse, d);
    }
  }

  /** Programs store apart: equal output cells name the same row, head and dimension. */
  lemma {:induction false} ProgramsStoreApart(g: Program, h: Program, heads: nat, d: nat, e: nat)
    requires Contiguous(g, heads) && Contiguous(h, heads) && g.vHeadDim == h.vHeadDim
    requires d < g.vHeadDim && e < g.vHeadDim && OutAddress(g, d) == OutAddress(h, e)
    ensures g.qoStart + g.tok == h.qoStart + h.tok && g.head == h.head && d == e
  {
    OutAddressNamesTheCell(g, heads, d);
    OutAddressNamesTheCell(h, heads, e);
    PositionsApart(g.vHeadDim, (g.qoStart + g.tok) * heads + g.head, d, (h.qoStart + h.tok) * heads + h.head, e);
    PositionsApart(heads, g.qoStart + g.tok, g.head, h.qoStart + h.tok, h.head);
  }

  // ---------------------------------------------------------------------------
  // Partial results whose log-sum-exp is NaN
  // ---------------------------------------------------------------------------

  /** The first n locations but those whose log-sum-exp is NaN. */
  function Kept(g: Program, lse: seq<Float>, n: nat): (r: seq<nat>)
    requires n <= |g.locations| && forall p | 0 <= p < n :: LseAddress(g, p) < |lse|
  {
    if n == 0 then []
    else if lse[LseAddress(g, n - 1)].NaN? then Kept(g, lse, n - 1)
    else Kept(g, lse, n - 1) + [g.locations[n - 1]]
  }

  /** The same program without those partial results. */
  function WithoutNaN(g: Program, lse: seq<Float>): Program
    requires forall p | 0 <= p < |g.locations| :: LseAddress(g, p) < |lse|
  {
    g.(locations := Kept(g, lse, |g.locations|))
  }

  lemma {:induction false} KeptComeFrom(g: Program, partial: seq<Float>, lse: seq<Float>, n: nat, k: nat)
    requires InBounds(g, partial, lse) && n <= |g.locations| && k < |Kept(g, lse, n)|
    ensures exists p :: 0 <= p < n && g.locations[p] == Kept(g, lse, n)[k] && !lse[LseAddress(g, p)].NaN?
  {
    if lse[LseAddress(g, n - 1)].NaN? {
      KeptComeFrom(g, partial, lse, n - 1, k);
    } else if k < |Kept(g, lse, n - 1)| {
      KeptComeFrom(g, partial, lse, n - 1, k);
    } else {
      assert g.locations[n - 1] == Kept(g, lse, n)[k];
    }
  }

  /** The address depends on the location alone. */
  lemma {:induction false} SameLocation(g: Program, h: Program, p: nat, k: nat)
    requires h == g.(locations := h.locations) && p < |g.locations| && k < |h.locations|
    requires g.locations[p] == h.locations[k]
    ensures LseAddress(h, k) == LseAddress(g, p)
    ensures forall d: nat :: PartialAddress(h, k, d) == PartialAddress(g, p, d)
  {
  }

  lemma {:induction false} KeptIsInside(g: Program, partial: seq<Float>, lse: seq<Float>, k: nat)
    requires InBounds(g, partial, lse) && k < |WithoutNaN(g, lse).locations|
    ensures LseAddress(WithoutNaN(g, lse), k) < |lse|
    ensures forall d | 0 <= d < g.vHeadDim :: PartialAddress(WithoutNaN(g, lse), k, d) < |partial|
  {
    var h := WithoutNaN(g, lse);
    KeptComeFrom(g, partial, lse, |g.locations|, k);
    var p :| 0 <= p < |g.locations| && g.locations[p] == h.locations[k];
    SameLocation(g, h, p, k);
  }

  lemma {:induction false} KeptInBounds(g: Program, partial: seq<Float>, lse: seq<Float>)
    requires InBounds(g, partial, lse)
    ensures InBounds(WithoutNaN(g, lse), partial, lse)
  {
    var h := WithoutNaN(g, lse);
    forall k | 0 <= k < |h.locations|
      ensures LseAddress(h, k) < |lse|
    {
      KeptIsInside(g, partial, lse, k);
    }
    forall k, d | 0 <= k < |h.locations| && 0 <= d < h.vHeadDim
      ensures PartialAddress(h, k, d) < |partial|
    {
      KeptIsInside(g, partial, lse, k);
    }
  }

  /** A lane reads only the locations it visits. */
  lemma {:induction false} LaneOfPrefix(g: Program, h: Program, partial: seq<Float>, lse: seq<Float>, n: nat, d: nat)
    requires InBounds(g, partial, lse) && InBounds(h, partial, lse) && d < g.vHeadDim
    requires n <= |g.locations| && n <= |h.locations| && g.locations[..n] == h.locations[..n]
    requires h == g.(locations := h.locations)
    ensures Lane(g, partial, lse, n, d) == Lane(h, partial, lse, n, d)
  {
    if n > 0 {
      assert g.locations[..n - 1] == g.locations[..n][..n - 1] && h.locations[..n - 1] == h.locations[..n][..n - 1];
      LaneOfPrefix(g, h, partial, lse, n - 1, d);
      assert g.locations[n - 1] == g.locations[..n][n - 1] && h.locations[n - 1] == h.locations[..n][n - 1];
      assert LseAddress(g, n - 1) == LseAddress(h, n - 1) && PartialAddress(g, n - 1, d) == PartialAddress(h, n - 1, d);
    }
  }

  lemma {:induction false} LaneOfPrefixProgram(g: Program, partial: seq<Float>, lse: seq<Float>, n: nat, d: nat)
    requires InBounds(g, partial, lse) && d < g.vHeadDim && n < |g.locations|
    ensures InBounds(g.(locations := g.locations[..n]), partial, lse)
    ensures Lane(g, partial, lse, n, d) == Lane(g.(locations := g.locations[..n]), partial, lse, n, d)
  {
    var f := g.(locations := g.locations[..n]);
    assert forall p | 0 <= p < n :: LseAddress(f, p) == LseAddress(g, p);
    assert forall p, e | 0 <= p < n && 0 <= e < g.vHeadDim :: PartialAddress(f, p, e) == PartialAddress(g, p, e);
    LaneOfPrefix(g, f, partial, lse, n, d);
  }

  lemma {:induction false} KeptOfPrefix(g: Program, partial: seq<Float>, lse: seq<Float>, n: nat, k: nat)
    requires InBounds(g, partial, lse) && k <= n <= |g.locations|
    requires InBounds(g.(locations := g.locations[..n]), partial, lse)
    ensures Kept(g.(locations := g.locations[..n]), lse, k) == Kept(g, lse, k)
  {
    if k > 0 {
      KeptOfPrefix(g, partial, lse, n, k - 1);
      assert LseAddress(g.(locations := g.locations[..n]), k - 1) == LseAddress(g, k - 1);
    }
  }

  /** One more kept location is one more partial result in the lane. */
  lemma {:induction false} LaneOfOneMore(e: Program, h: Program, partial: seq<Float>, lse: seq<Float>, d: nat,
                                         g: Program, n: nat)
    requires InBounds(e, partial, lse) && InBounds(h, partial, lse) && InBounds(g, partial, lse)
    requires n < |g.locations| && d < g.vHeadDim
    requires h == g.(locations := h.locations) && e == h.(locations := e.locations)
    requires h.locations == e.locations + [g.locations[n]]
    ensures Lane(h, partial, lse, |h.locations|, d)
            == Lane(e, partial, lse, |e.locations|, d)
               + [Partial(lse[LseAddress(g, n)], partial[PartialAddress(g, n, d)])]
  {
    var k := |e.locations|;
    LaneOfPrefix(e, h, partial, lse, k, d);
    SameLocation(g, h, n, k);
  }

  /** Skipping the locations is dropping the partial results from every lane. */
  lemma {:induction false} LaneWithoutNaN(g: Program, partial: seq<Float>, lse: seq<Float>, d: nat)
    requires InBounds(g, partial, lse) && d < g.vHeadDim
    ensures InBounds(WithoutNaN(g, lse), partial, lse)
    ensures Lane(WithoutNaN(g, lse), partial, lse, |WithoutNaN(g, lse).locations|, d)
            == DropNaN(Lane(g, partial, lse, |g.locations|, d))
    decreases |g.locations|
  {
    KeptInBounds(g, partial, lse);
    if g.locations != [] {
      var n := |g.locations| - 1;
      var f := g.(locations := g.locations[..n]);
      LaneOfPrefixProgram(g, partial, lse, n, d);
      KeptOfPrefix(g, partial, lse, n, n);
      LaneWithoutNaN(f, partial, lse, d);
      LaneUnfolds(g, partial, lse, n, d);
      DropLast(Lane(g, partial, lse, n + 1, d));
      if !lse[LseAddress(g, n)].NaN? {
        LaneOfOneMore(WithoutNaN(f, lse), WithoutNaN(g, lse), partial, lse, d, g, n);
      }
    }
  }

  lemma {:induction false} LaneUnfolds(g: Program, partial: seq<Float>, lse: seq<Float>, n: nat, d: nat)
    requires InBounds(g, partial, lse) && n < |g.locations| && d < g.vHeadDim
    ensures Lane(g, partial, lse, n + 1, d)[..n] == Lane(g, partial, lse, n, d)
    ensures Lane(g, partial, lse, n + 1, d)[n] == Partial(lse[LseAddress(g, n)], partial[PartialAddress(g, n, d)])
  {
  }

  /** A program against the same one without the partial results whose log-sum-exp is NaN. Those contribute as if
      they were absent, if some partial result remains and no infinite value lies behind them (or what remains gives
      NaN anyway). If none remains the program stores NaN in every dimension, where it would have left its row
      alone. */
  lemma {:induction false} ProgramWithoutNaN(m: ExpLog, g: Program, partial: seq<Float>, lse: seq<Float>, d: nat)
    requires m.Valid() && InBounds(g, partial, lse) && d < g.vHeadDim && Live(g)
    ensures InBounds(WithoutNaN(g, lse), partial, lse)
    ensures Live(WithoutNaN(g, lse)) <==> exists p :: 0 <= p < |g.locations| && !lse[LseAddress(g, p)].NaN?
    ensures var row := Lane(g, partial, lse, |g.locations|, d);
            Live(WithoutNaN(g, lse)) ==>
              (Reduced(m, g, partial, lse, d) == Reduced(m, WithoutNaN(g, lse), partial, lse, d)
               <==> TameBehindNaN(row) || Spoiled(DropNaN(row)))
    ensures !Live(WithoutNaN(g, lse)) ==> Reduced(m, g, partial, lse, d).NaN?
  {
    var row := Lane(g, partial, lse, |g.locations|, d);
    LaneWithoutNaN(g, partial, lse, d);
    NaNSplitsAreAbsentExactlyWhen(m, row);
    TwoPassIsNaNExactlyWhen(m, row);
    DroppingKeepsTheKinds(row);
    forall p | 0 <= p < |g.locations|
      ensures !lse[LseAddress(g, p)].NaN? ==> row[p] in DropNaN(row)
    {
      LaneAt(g, partial, lse, |g.locations|, d, p);
      DroppedFrom(row, row[p]);
    }
    if Live(WithoutNaN(g, lse)) {
      KeptComeFrom(g, partial, lse, |g.locations|, 0);
    }
  }

  /** One partial result whose log-sum-exp is NaN and whose value is one: the program stores NaN. Without it there is
      nothing to reduce, and the program would leave the row alone. */
  lemma {:induction false} AllNaNRowStoresNaN(m: ExpLog, g: Program, d: nat)
    requires m.Valid() && g.locations == [0] && g.tok == 0 && g.head == 0 && g.qoStart < g.qoEnd
    requires g.vHeadDim == 1 && d == 0
    ensures InBounds(g, [Fin(1.0)], [NaN]) && Live(g) && Reduced(m, g, [Fin(1.0)], [NaN], d).NaN?
    ensures WithoutNaN(g, [NaN]).locations == [] && !Live(WithoutNaN(g, [NaN]))
  {
    var partial, lse := [Fin(1.0)], [NaN];
    assert LseAddress(g, 0) == 0 && PartialAddress(g, 0, 0) == 0;
    assert Kept(g, lse, 0) == [];
    ProgramWithoutNaN(m, g, partial, lse, d);
  }
}
