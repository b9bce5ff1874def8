/** The page-level CSR builder (aiter/mla.py): one program writes the row starts, then a grid of
    programs copies the live page ids of each row into its slice. */
module PageCsr {
  import opened Sums
  import opened Results
  import Stage2Kernel
  import TokenBuckets

  const PAGE := 64
  const BLOCK := 256

  function Pages(length: int): int {
    (length + 63) / PAGE
  }

  function Counts(lens: seq<nat>): (r: seq<int>)
    ensures |r| == |lens| && forall i :: 0 <= i < |lens| ==> r[i] == Pages(lens[i])
  {
    seq(|lens|, i requires 0 <= i < |lens| => Pages(lens[i]))
  }

  /** Where row r starts; row |lens| "starts" at the end of the index array. */
  function Start(lens: seq<nat>, r: nat): int
    requires r <= |lens|
  {
    Sum(Counts(lens)[..r])
  }

  function LastPageLen(length: int): int {
    if length > 0 then (length - 1) % PAGE + 1 else 0
  }

  /** Inclusive prefix sums, as tl.cumsum. */
  function CumSum(xs: seq<int>): (r: seq<int>)
    ensures |r| == |xs| && forall i :: 0 <= i < |xs| ==> r[i] == Sum(xs[..i + 1])
  {
    seq(|xs|, i requires 0 <= i < |xs| => Sum(xs[..i + 1]))
  }

  /** The first kernel: block lanes beyond the batch read length zero and store nothing. */
  method BuildIndptr(lens: seq<nat>, block: nat, indptr: array<int>, last: array<int>)
    requires |lens| <= block && indptr.Length == |lens| + 1 && last.Length == |lens| && indptr != last
    modifies indptr, last
    ensures forall r | 0 <= r <= |lens| :: indptr[r] == Start(lens, r)
    ensures forall r | 0 <= r < |lens| :: last[r] == LastPageLen(lens[r])
  {
    var lengths := seq(block, i requires 0 <= i < block => if i < |lens| then lens[i] else 0);
    var counts := seq(block, i requires 0 <= i < block && |lengths| == block => Pages(lengths[i]));
    var ends := CumSum(counts);
    indptr[0] := 0;
    forall r | 1 <= r <= |lens| {
      indptr[r] := ends[r - 1];
    }
    forall r | 0 <= r < |lens| {
      last[r] := LastPageLen(lengths[r]);
    }
    forall r | 0 <= r <= |lens|
      ensures indptr[r] == Start(lens, r)
    {
      assert counts[..r] == Counts(lens)[..r];
    }
  }

  /** The caller's guarantees: lengths fit the table, the table rows lie in memory, the index buffer
      has room for every page. */
  ghost predicate Fits(lens: seq<nat>, table: seq<int>, rowStride: nat, cols: nat, capacity: nat) {
    && (forall r | 0 <= r < |lens| :: lens[r] <= cols * PAGE && r * rowStride + cols <= |table|)
    && |lens| * cols <= capacity
  }

  lemma {:induction false} PagesFit(length: nat, cols: nat)
    requires length <= cols * PAGE
    ensures 0 <= Pages(length) <= cols
  {
  }

  /** Index cell i belongs to row r. */
  ghost predicate InRow(lens: seq<nat>, r: nat, i: int) {
    r < |lens| && Start(lens, r) <= i < Start(lens, r + 1)
  }

  lemma {:induction false} CountsFit(lens: seq<nat>, table: seq<int>, rowStride: nat, cols: nat, capacity: nat)
    requires Fits(lens, table, rowStride, cols, capacity)
    ensures AllNonNegative(Counts(lens))
    ensures forall r :: 0 <= r < |lens| ==> Counts(lens)[r] <= cols
    ensures Start(lens, 0) == 0 && Start(lens, |lens|) == Sum(Counts(lens))
    ensures 0 <= Start(lens, |lens|) <= |lens| * cols
  {
    forall r | 0 <= r < |lens|
      ensures 0 <= Counts(lens)[r] <= cols
    {
      PagesFit(lens[r], cols);
    }
    SumAtMost(Counts(lens), cols);
    PrefixBounds(Counts(lens), |lens|);
    PrefixWhole(Counts(lens));
  }

  /** One row: it starts where the previous one ends and takes one cell per page. */
  lemma {:induction false} RowExtent(lens: seq<nat>, table: seq<int>, rowStride: nat, cols: nat, capacity: nat, r: nat)
    requires Fits(lens, table, rowStride, cols, capacity) && r < |lens|
    ensures 0 <= Start(lens, r) <= Start(lens, r + 1) <= Start(lens, |lens|) <= capacity
    ensures Start(lens, r + 1) == Start(lens, r) + Pages(lens[r])
    ensures 0 <= Pages(lens[r]) <= cols && r * rowStride + cols <= |table|
  {
    CountsFit(lens, table, rowStride, cols, capacity);
    PrefixStep(Counts(lens), r);
    PrefixBounds(Counts(lens), r);
    PrefixBounds(Counts(lens), r + 1);
  }

  /** The rows tile [0, Start(B)): a cell there belongs to exactly one row, any other cell to none. */
  lemma {:induction false} RowsTile(lens: seq<nat>, table: seq<int>, rowStride: nat, cols: nat, capacity: nat, i: int)
    requires Fits(lens, table, rowStride, cols, capacity)
    ensures (exists r :: InRow(lens, r, i)) <==> 0 <= i < Start(lens, |lens|)
    ensures forall r, q :: InRow(lens, r, i) && InRow(lens, q, i) ==> r == q
  {
    CountsFit(lens, table, rowStride, cols, capacity);
    var counts := Counts(lens);
    if 0 <= i < Start(lens, |lens|) {
      assert InRow(lens, Owner(counts, i), i);
    }
    forall r | InRow(lens, r, i)
      ensures 0 <= i < Start(lens, |lens|) && r == Owner(counts, i)
    {
      OwnerUnique(counts, i, r);
    }
  }

  /** Page ids in the order the finished index array must hold them: cell c of row r holds entry c of
      that row of the page table. */
  ghost predicate Holds(lens: seq<nat>, table: seq<int>, rowStride: nat, cols: nat, capacity: nat, i: int, page: int)
    requires Fits(lens, table, rowStride, cols, capacity)
  {
    exists r :: InRow(lens, r, i) && PageAt(lens, table, rowStride, r, i) == page
  }

  ghost function PageAt(lens: seq<nat>, table: seq<int>, rowStride: nat, r: nat, i: int): int
    requires r < |lens|
  {
    var at := r * rowStride + (i - Start(lens, r));
    if 0 <= at < |table| then table[at] else 0
  }

  /** The cells that program (row, chunk) stores to. */
  ghost predicate Stores(lens: seq<nat>, row: nat, chunk: nat, i: int) {
    InRow(lens, row, i) && chunk * BLOCK <= i - Start(lens, row) < chunk * BLOCK + BLOCK
  }

  /** One program of the second kernel: a masked copy of up to 256 columns. */
  method IndicesProgram(ghost lens: seq<nat>, table: array<int>, indptr: array<int>, indices: array<int>,
                        rowStride: nat, cols: nat, row: nat, chunk: nat)
    requires indptr.Length == |lens| + 1 && row < |lens|
    requires forall r | 0 <= r <= |lens| :: indptr[r] == Start(lens, r)
    requires Fits(lens, table[..], rowStride, cols, indices.Length)
    requires indices != table && indices != indptr
    modifies indices
    ensures forall i | 0 <= i < indices.Length ::
              indices[i] == if Stores(lens, row, chunk, i) then PageAt(lens, old(table[..]), rowStride, row, i)
                            else old(indices[i])
  {
    RowExtent(lens, table[..], rowStride, cols, indices.Length, row);
    var start := indptr[row];
    var count := indptr[row + 1] - start;
    var first := chunk * BLOCK;
    var stop := first + BLOCK;
    if count < stop {
      stop := count;
    }
    if cols < stop {
      stop := cols;
    }
    var base := row * rowStride;
    forall i | 0 <= i < indices.Length && start + first <= i < start + stop {
      indices[i] := table[base + (i - start)];
    }
  }

  /** Some program among the first n of the order stores to cell i. */
  ghost predicate Covered(lens: seq<nat>, order: seq<(nat, nat)>, n: nat, i: int)
    requires n <= |order|
  {
    exists k :: 0 <= k < n && Stores(lens, order[k].0, order[k].1, i)
  }

  /** Running the grid in any order that contains every program (some perhaps more than once) leaves
      the wanted page in every live cell and touches nothing beyond them. */
  method RunGrid(ghost lens: seq<nat>, table: array<int>, indptr: array<int>, indices: array<int>,
                 rowStride: nat, cols: nat, order: seq<(nat, nat)>)
    requires indptr.Length == |lens| + 1
    requires forall r | 0 <= r <= |lens| :: indptr[r] == Start(lens, r)
    requires Fits(lens, table[..], rowStride, cols, indices.Length)
    requires indices != table && indices != indptr
    requires forall k :: 0 <= k < |order| ==> order[k].0 < |lens|
    requires forall r: nat, c: nat | r < |lens| && c < (cols + BLOCK - 1) / BLOCK :: (r, c) in order
    modifies indices
    ensures forall i | 0 <= i < indices.Length && i < Start(lens, |lens|) ::
              Holds(lens, old(table[..]), rowStride, cols, indices.Length, i, indices[i])
    ensures forall i | 0 <= i < indices.Length && Start(lens, |lens|) <= i :: indices[i] == old(indices[i])
  {
    ghost var t := table[..];
    for k := 0 to |order|
      invariant t == table[..]
      invariant forall r | 0 <= r <= |lens| :: indptr[r] == Start(lens, r)
      invariant forall i | 0 <= i < indices.Length && Covered(lens, order, k, i) ::
                  Holds(lens, t, rowStride, cols, indices.Length, i, indices[i])
      invariant forall i | 0 <= i < indices.Length && !Covered(lens, order, k, i) :: indices[i] == old(indices[i])
    {
      ghost var was := indices[..];
      IndicesProgram(lens, table, indptr, indices, rowStride, cols, order[k].0, order[k].1);
      assert table[..] == t;
      ghost var next := k + 1;
      forall i | 0 <= i < indices.Length
        ensures Covered(lens, order, next, i) ==> Holds(lens, t, rowStride, cols, indices.Length, i, indices[i])
        ensures !Covered(lens, order, next, i) ==> indices[i] == was[i] && !Covered(lens, order, k, i)
      {
        if Stores(lens, order[k].0, order[k].1, i) {
          assert InRow(lens, order[k].0, i);
        } else if Covered(lens, order, next, i) {
          assert Covered(lens, order, k, i);
        }
      }
    }
    forall i | 0 <= i < indices.Length
      ensures Covered(lens, order, |order|, i) <==> i < Start(lens, |lens|)
    {
      EveryLiveCellIsStored(lens, t, rowStride, cols, indices.Length, order, i);
    }
  }

  lemma {:induction false} EveryLiveCellIsStored(lens: seq<nat>, table: seq<int>, rowStride: nat, cols: nat,
                                                 capacity: nat, order: seq<(nat, nat)>, i: nat)
    requires Fits(lens, table, rowStride, cols, capacity)
    requires forall r: nat, c: nat | r < |lens| && c < (cols + BLOCK - 1) / BLOCK :: (r, c) in order
    ensures Covered(lens, order, |order|, i) <==> i < Start(lens, |lens|)
  {
    RowsTile(lens, table, rowStride, cols, capacity, i);
    if i < Start(lens, |lens|) {
      var r: nat :| InRow(lens, r, i);
      RowExtent(lens, table, rowStride, cols, capacity, r);
      var c := (i - Start(lens, r)) / BLOCK;
      assert (r, c) in order;
      var k :| 0 <= k < |order| && order[k] == (r, c);
      assert Stores(lens, order[k].0, order[k].1, i);
    }
  }

  /** Row r of the finished index array is the live prefix of row r of the page table. */
  lemma {:induction false} RowIsLivePrefix(lens: seq<nat>, table: seq<int>, rowStride: nat, cols: nat,
                                           indices: seq<int>, r: nat)
    requires Fits(lens, table, rowStride, cols, |indices|) && r < |lens|
    requires forall i | 0 <= i < |indices| && i < Start(lens, |lens|) ::
               Holds(lens, table, rowStride, cols, |indices|, i, indices[i])
    ensures 0 <= Start(lens, r) <= Start(lens, r + 1) <= |indices| && r * rowStride + Pages(lens[r]) <= |table|
    ensures indices[Start(lens, r)..Start(lens, r + 1)] == table[r * rowStride..r * rowStride + Pages(lens[r])]
  {
    RowExtent(lens, table, rowStride, cols, |indices|, r);
    var start, base := Start(lens, r), r * rowStride;
    var row, live := indices[start..Start(lens, r + 1)], table[base..base + Pages(lens[r])];
    forall c | 0 <= c < |row|
      ensures row[c] == live[c]
    {
      var i := start + c;
      RowsTile(lens, table, rowStride, cols, |indices|, i);
      assert InRow(lens, r, i);
      assert Holds(lens, table, rowStride, cols, |indices|, i, indices[i]);
    }
  }

  /** What stage 2 computes from the page count and the last-page length is the original length. */
  lemma {:induction false} StageTwoRecoversTheLength(length: nat, c: Stage2Kernel.Launch, b: Stage2Kernel.Batch)
    requires c.kvIsPageLevel && c.pageSize == 64
    requires b.kvCount == Pages(length) && b.lastPageLen == LastPageLen(length)
    ensures Stage2Kernel.KvLength(c, b) == length
    ensures if length == 0 then b.kvCount == b.lastPageLen == 0 else 1 <= b.lastPageLen <= 64
  {
    if length > 0 {
      var q, rest := (length - 1) / PAGE, (length - 1) % PAGE;
      assert length - 1 == q * PAGE + rest;
      assert Pages(length) == q + 1;
    }
  }

  /** Row r of the finished arrays: its start, its last-page length, and its pages in order. */
  ghost predicate RowDone(lens: seq<nat>, table: seq<int>, rowStride: nat, indptr: seq<int>, indices: seq<int>,
                          last: seq<int>, r: nat)
    requires r < |lens| && |indptr| == |lens| + 1 && |last| == |lens|
  {
    && 0 <= indptr[r] <= indptr[r + 1] <= |indices| && indptr[r + 1] - indptr[r] == Pages(lens[r])
    && last[r] == LastPageLen(lens[r])
    && r * rowStride + Pages(lens[r]) <= |table| && 0 <= Pages(lens[r])
    && indices[indptr[r]..indptr[r + 1]] == table[r * rowStride..r * rowStride + Pages(lens[r])]
  }

  /** The two launches, with the second grid run in any order: every row is complete, the rows
      follow one another from zero, and nothing past the last row is written. */
  method WritePageCsr(lens: seq<nat>, block: nat, table: array<int>, rowStride: nat, cols: nat, order: seq<(nat, nat)>,
                        indptr: array<int>, indices: array<int>, last: array<int>)
    requires |lens| <= block && indptr.Length == |lens| + 1 && last.Length == |lens|
    requires Fits(lens, table[..], rowStride, cols, indices.Length)
    requires indptr != last && indices != table && indices != indptr && indices != last && table != indptr
    requires table != last
    requires forall k :: 0 <= k < |order| ==> order[k].0 < |lens|
    requires forall r: nat, c: nat | r < |lens| && c < (cols + BLOCK - 1) / BLOCK :: (r, c) in order
    modifies indptr, indices, last
    ensures indptr[0] == 0 && 0 <= indptr[|lens|] <= indices.Length
    ensures forall r | 0 <= r < |lens| ::
              RowDone(lens, old(table[..]), rowStride, indptr[..], indices[..], last[..], r)
    ensures forall i | 0 <= i < indices.Length && indptr[|lens|] <= i :: indices[i] == old(indices[i])
  {
    ghost var t, was := table[..], indices[..];
    BuildIndptr(lens, block, indptr, last);
    assert table[..] == t && indices[..] == was;
    CountsFit(lens, t, rowStride, cols, indices.Length);
    if |lens| != 0 && cols != 0 {
      RunGrid(lens, table, indptr, indices, rowStride, cols, order);
    }
    forall r | 0 <= r < |lens|
      ensures RowDone(lens, t, rowStride, indptr[..], indices[..], last[..], r)
    {
      RowIsLivePrefix(lens, t, rowStride, cols, indices[..], r);
      RowExtent(lens, t, rowStride, cols, indices.Length, r);
    }
  }

  // ---------------------------------------------------------------------------
  // The arguments
  // ---------------------------------------------------------------------------

  /** What the checks look at; two devices are the same when their numbers are. */
  datatype Tensor = Tensor(isTensor: bool, isCuda: bool, device: nat, int32: bool, shape: seq<nat>, strides: seq<nat>,
                           contiguous: bool)

  function Numel(shape: seq<nat>): nat {
    if shape == [] then 1 else shape[0] * Numel(shape[1..])
  }

  /** The five tensors, in the order of the parameters. */
  datatype Arguments = Arguments(seqLens: Tensor, tables: Tensor, indptr: Tensor, indices: Tensor, last: Tensor) {
    /** A tensor that is no int32 tensor of the same device. */
    predicate Foreign(t: Tensor) {
      !t.isTensor || t.device != seqLens.device || !t.int32
    }

    predicate AnyForeign() {
      Foreign(seqLens) || Foreign(tables) || Foreign(indptr) || Foreign(indices) || Foreign(last)
    }

    /** The page table has one stride for each dimension. */
    ghost predicate Real() {
      |tables.strides| == |tables.shape|
    }

    predicate BadTables(batch: nat)
      requires |tables.strides| == |tables.shape|
    {
      |tables.shape| != 2 || tables.shape[0] != batch || tables.strides[1] != 1
    }

    predicate BadOutputs(batch: nat) {
      || indptr.shape != [batch + 1] || last.shape != [batch] || |indices.shape| != 1
      || Numel(indices.shape) < Numel(tables.shape)
      || !indptr.contiguous || !indices.contiguous || !last.contiguous
    }

    /** What an accepted call looks like: int32 tensors of one GPU, lengths [B], a page table [B, C] with unit
        inner stride, and contiguous outputs [B + 1], at least B * C, and [B]. */
    ghost predicate Acceptable() {
      && seqLens.isCuda && !AnyForeign() && |seqLens.shape| == 1 && seqLens.contiguous
      && |tables.shape| == 2 == |tables.strides| && tables.shape[0] == seqLens.shape[0] && tables.strides[1] == 1
      && OutputsMatch(seqLens.shape[0], tables.shape[1])
    }

    ghost predicate OutputsMatch(batch: nat, cols: nat) {
      && indptr.shape == [batch + 1] && last.shape == [batch]
      && |indices.shape| == 1 && indices.shape[0] >= batch * cols
      && indptr.contiguous && indices.contiguous && last.contiguous
    }
  }

  /** The checks in the order of the code. */
  function Problem(a: Arguments): Option<string>
    requires a.Real()
  {
    if !a.seqLens.isTensor || !a.seqLens.isCuda then Some("seq_lens must be a GPU int32 vector")
    else if a.AnyForeign() then Some("page CSR tensors must be int32 on the seq_lens device")
    else if |a.seqLens.shape| != 1 || !a.seqLens.contiguous then Some("seq_lens must be contiguous [B]")
    else if a.BadTables(Numel(a.seqLens.shape)) then Some("block_tables must be [B,C] with unit inner stride")
    else if a.BadOutputs(Numel(a.seqLens.shape)) then Some("page CSR outputs require contiguous [B+1], [>=B*C], [B]")
    else None
  }

  lemma {:induction false} NumelOfOne(shape: seq<nat>)
    requires |shape| == 1
    ensures Numel(shape) == shape[0]
  {
    assert shape[1..] == [];
  }

  lemma {:induction false} NumelOfTwo(shape: seq<nat>)
    requires |shape| == 2
    ensures Numel(shape) == shape[0] * shape[1]
  {
    NumelOfOne(shape[1..]);
  }

  lemma {:induction false} OutputsMatchUnlessBad(a: Arguments, batch: nat)
    requires |a.tables.shape| == 2 && a.tables.shape[0] == batch
    ensures a.BadOutputs(batch) <==> !a.OutputsMatch(batch, a.tables.shape[1])
  {
    NumelOfTwo(a.tables.shape);
    if |a.indices.shape| == 1 {
      NumelOfOne(a.indices.shape);
    }
  }

  /** The checks let through exactly the acceptable calls. */
  lemma {:induction false} NoProblemIsAcceptable(a: Arguments)
    requires a.Real()
    ensures Problem(a) == None <==> a.Acceptable()
  {
    if |a.seqLens.shape| == 1 {
      NumelOfOne(a.seqLens.shape);
      if |a.tables.shape| == 2 && a.tables.shape[0] == a.seqLens.shape[0] {
        OutputsMatchUnlessBad(a, a.seqLens.shape[0]);
      }
    }
  }

  /** Every program of the second grid, in some order, perhaps more than once. */
  ghost predicate RunsGrid(order: seq<(nat, nat)>, batch: nat, cols: nat) {
    && (forall k :: 0 <= k < |order| ==> order[k].0 < batch)
    && (forall r: nat, c: nat | r < batch && c < (cols + BLOCK - 1) / BLOCK :: (r, c) in order)
  }

  /** The memory behind the tensors, and the documented guarantee on the lengths. */
  ghost predicate Backed(a: Arguments, lens: seq<nat>, tableLength: nat, indptrLength: nat, indicesLength: nat,
                         lastLength: nat) {
    && a.Real() && Numel(a.seqLens.shape) == |lens| && Numel(a.indptr.shape) == indptrLength
    && Numel(a.indices.shape) == indicesLength && Numel(a.last.shape) == lastLength
    && (|a.tables.shape| == 2 ==>
          && (forall r | 0 <= r < a.tables.shape[0] :: r * a.tables.strides[0] + a.tables.shape[1] <= tableLength)
          && (forall r | 0 <= r < |lens| :: lens[r] <= a.tables.shape[1] * PAGE))
  }

  /** For an acceptable call the buffers fit. */
  lemma {:induction false} AcceptableFits(a: Arguments, lens: seq<nat>, table: seq<int>, indptrLength: nat,
                                          indicesLength: nat, lastLength: nat)
    requires Backed(a, lens, |table|, indptrLength, indicesLength, lastLength) && a.Acceptable()
    ensures indptrLength == |lens| + 1 && lastLength == |lens|
    ensures Fits(lens, table, a.tables.strides[0], a.tables.shape[1], indicesLength)
  {
    NumelOfOne(a.seqLens.shape);
    NumelOfOne(a.indptr.shape);
    NumelOfOne(a.last.shape);
    NumelOfOne(a.indices.shape);
  }

  /** The whole preparation. It is refused exactly when the arguments are not acceptable, and then writes
      nothing. Otherwise every row is complete, the rows follow one another from zero, and nothing past the
      last row is written. */
  method PreparePageCsr(a: Arguments, lens: seq<nat>, table: array<int>, order: seq<(nat, nat)>,
                        indptr: array<int>, indices: array<int>, last: array<int>)
    returns (problem: Option<string>)
    requires Backed(a, lens, table.Length, indptr.Length, indices.Length, last.Length)
    requires |a.tables.shape| == 2 ==> RunsGrid(order, |lens|, a.tables.shape[1])
    requires indptr != last && indices != table && indices != indptr && indices != last && table != indptr
    requires table != last
    modifies indptr, indices, last
    ensures problem == None <==> a.Acceptable()
    ensures problem.Some? ==>
              indptr[..] == old(indptr[..]) && indices[..] == old(indices[..]) && last[..] == old(last[..])
    ensures problem == None ==>
              && indptr.Length == |lens| + 1 && last.Length == |lens|
              && indptr[0] == 0 && 0 <= indptr[|lens|] <= indices.Length
              && (forall r | 0 <= r < |lens| ::
                    RowDone(lens, old(table[..]), a.tables.strides[0], indptr[..], indices[..], last[..], r))
              && (forall i | 0 <= i < indices.Length && indptr[|lens|] <= i :: indices[i] == old(indices[i]))
  {
    NoProblemIsAcceptable(a);
    problem := Problem(a);
    if problem.Some? {
      return;
    }
    AcceptableFits(a, lens, table[..], indptr.Length, indices.Length, last.Length);
    var batch := if |lens| < 1 then 1 else |lens|;
    var block := TokenBuckets.NextPow2(batch);
    ghost var k := TokenBuckets.NextPow2IsLeast(batch);
    WritePageCsr(lens, block, table, a.tables.strides[0], a.tables.shape[1], order, indptr, indices, last);
  }
}
