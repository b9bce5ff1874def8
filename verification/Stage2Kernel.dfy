/** One program of the stage-2 merge kernel (aiter/mla.py): it walks the query rows of one batch
    for one head over strided buffers and stores the merged output and log-sum-exp. */
module Stage2Kernel {
  import opened ExtendedReals
  import opened SplitKvMerge
  import opened TileDealing
  import opened RowMajor
  import Numbers
  import Buckets

  /** The compile-time and stride arguments of a launch. */
  datatype Launch = Launch(
    strideMidOb: nat, strideMidOh: nat, strideMidOs: nat,
    strideObs: nat, strideOh: nat, strideLseBs: nat,
    pageSize: nat, kvIsPageLevel: bool, maybeFinalOut: bool, hasFinalLse: bool, useValidCount: bool, batchNum: nat,
    causal: bool, lv: nat, mgc: nat)

  /** What the program reads from the index tensors for its batch; allSplits is the last split pointer. */
  datatype Batch = Batch(qoStart: nat, qoEnd: nat, splits: nat, allSplits: nat, kvCount: nat, lastPageLen: nat,
                         validCount: int)

  /** Stage 1 has already left final outputs in the value buffer. */
  predicate IsFinal(c: Launch, b: Batch) {
    c.maybeFinalOut && b.allSplits == c.batchNum
  }

  function KvLength(c: Launch, b: Batch): nat {
    if !c.kvIsPageLevel then b.kvCount
    else if b.kvCount > 0 then (b.kvCount - 1) * c.pageSize + b.lastPageLen
    else 0
  }

  /** The keys a query row may see under bottom-right causal alignment. */
  function VisibleKv(c: Launch, b: Batch, qo: nat): nat {
    var v := KvLength(c, b) - b.qoEnd + qo + 1;
    if v < 0 then 0 else v
  }

  function QuerySplits(c: Launch, b: Batch, qo: nat): int
    requires c.mgc > 0
  {
    var n := Numbers.Min(b.splits, Buckets.CeilDiv(KvLength(c, b), c.mgc));
    var n := if c.useValidCount then Numbers.Min(n, b.validCount) else n;
    if c.causal then Numbers.Min(n, Buckets.CeilDiv(VisibleKv(c, b, qo), c.mgc)) else n
  }

  /** Where split s of row qo keeps its log-sum-exp. */
  function LseAddress(c: Launch, qo: nat, head: nat, s: nat): nat {
    qo * c.strideMidOb + head * c.strideMidOh + s * c.strideMidOs
  }

  function OutAddress(c: Launch, qo: nat, head: nat): nat {
    qo * c.strideObs + head * c.strideOh
  }

  /** Every cell the program touches lies inside its buffer. */
  ghost predicate InBounds(c: Launch, b: Batch, head: nat, midO: seq<Float>, midLse: seq<Float>, oLength: nat,
                           lseLength: nat)
    requires c.mgc > 0
  {
    && (forall qo | b.qoStart <= qo < b.qoEnd :: SplitsInside(c, |midO|, |midLse|, qo, head, Splits(c, b, qo)))
    && (forall qo | b.qoStart <= qo < b.qoEnd :: OutAddress(c, qo, head) + c.lv <= oLength)
    && (c.hasFinalLse ==> forall qo | b.qoStart <= qo < b.qoEnd :: qo * c.strideLseBs + head < lseLength)
  }

  /** The first n splits of row qo lie inside their buffers. */
  ghost predicate SplitsInside(c: Launch, oLength: nat, lseLength: nat, qo: nat, head: nat, n: int) {
    forall s | 0 <= s < n ::
      LseAddress(c, qo, head, s) < lseLength && LseAddress(c, qo, head, s) * c.lv + c.lv <= oLength
  }

  /** Split s of row qo, seen through lane d. */
  ghost function PartAt(c: Launch, midO: seq<Float>, midLse: seq<Float>, qo: nat, head: nat, s: nat, d: nat): Partial
    requires d < c.lv && LseAddress(c, qo, head, s) < |midLse| && LseAddress(c, qo, head, s) * c.lv + c.lv <= |midO|
  {
    Partial(midLse[LseAddress(c, qo, head, s)], midO[LseAddress(c, qo, head, s) * c.lv + d])
  }

  /** The first n splits of row qo, seen through lane d. */
  ghost function Lane(c: Launch, midO: seq<Float>, midLse: seq<Float>, qo: nat, head: nat, n: nat,
                      d: nat): (parts: seq<Partial>)
    requires d < c.lv && SplitsInside(c, |midO|, |midLse|, qo, head, n)
    ensures |parts| == n
  {
    if n == 0 then []
    else Lane(c, midO, midLse, qo, head, n - 1, d) + [PartAt(c, midO, midLse, qo, head, n - 1, d)]
  }

  function Splits(c: Launch, b: Batch, qo: nat): (n: nat)
    requires c.mgc > 0
    ensures n <= b.splits
  {
    if QuerySplits(c, b, qo) < 0 then 0 else QuerySplits(c, b, qo)
  }

  /** The merge the program must leave in lane d of row qo. */
  ghost function Merged(m: ExpLog, c: Launch, b: Batch, midO: seq<Float>, midLse: seq<Float>, qo: nat, head: nat,
                        d: nat): Accumulator
    requires c.mgc > 0 && d < c.lv && SplitsInside(c, |midO|, |midLse|, qo, head, Splits(c, b, qo))
  {
    MergeLoop(m, Lane(c, midO, midLse, qo, head, Splits(c, b, qo), d))
  }

  lemma {:induction false} MergeLast(m: ExpLog, front: seq<Partial>, last: Partial)
    ensures MergeLoop(m, front + [last]) == MergeStep(m, MergeLoop(m, front), last)
  {
    assert (front + [last])[..|front|] == front;
  }

  lemma {:induction false} ExtendLane(m: ExpLog, c: Launch, midO: seq<Float>, midLse: seq<Float>, qo: nat, head: nat,
                                      n: nat, d: nat)
    requires d < c.lv && SplitsInside(c, |midO|, |midLse|, qo, head, n + 1)
    ensures MergeLoop(m, Lane(c, midO, midLse, qo, head, n + 1, d))
            == MergeStep(m, MergeLoop(m, Lane(c, midO, midLse, qo, head, n, d)),
                         PartAt(c, midO, midLse, qo, head, n, d))
  {
    MergeLast(m, Lane(c, midO, midLse, qo, head, n, d), PartAt(c, midO, midLse, qo, head, n, d));
  }

  /** One turn of the split loop: every lane takes one merge step with the split's log-sum-exp and its own
      value. */
  method MergeSplit(m: ExpLog, eMax: Float, eSum: Float, acc: seq<Float>, tlogic: Float, tv: seq<Float>)
    returns (eMax': Float, eSum': Float, acc': seq<Float>)
    requires |acc| == |tv|
    ensures |acc'| == |acc|
    ensures forall d | 0 <= d < |acc| ::
              Accumulator(eMax', eSum', acc'[d])
                == MergeStep(m, Accumulator(eMax, eSum, acc[d]), Partial(tlogic, tv[d]))
  {
    eMax' := Max(tlogic, eMax);
    var oldScale := Exp(m, Sub(eMax, eMax'));
    var expLogic := Exp(m, Sub(tlogic, eMax'));
    acc' := [];
    for d := 0 to |acc|
      invariant |acc'| == d && forall i | 0 <= i < d :: acc'[i] == Add(Mul(acc[i], oldScale), Mul(expLogic, tv[i]))
    {
      acc' := acc' + [Add(Mul(acc[d], oldScale), Mul(expLogic, tv[d]))];
    }
    eSum' := Add(Mul(eSum, oldScale), expLogic);
  }

  /** The lanes after n splits. */
  ghost predicate LanesHold(m: ExpLog, c: Launch, midO: seq<Float>, midLse: seq<Float>, qo: nat, head: nat, n: nat,
                            eMax: Float, eSum: Float, acc: seq<Float>)
    requires SplitsInside(c, |midO|, |midLse|, qo, head, n)
  {
    && |acc| == c.lv
    && forall d | 0 <= d < c.lv ::
      Accumulator(eMax, eSum, acc[d]) == MergeLoop(m, Lane(c, midO, midLse, qo, head, n, d))
  }

  lemma {:induction false} LanesAdvance(m: ExpLog, c: Launch, midO: seq<Float>, midLse: seq<Float>, qo: nat,
                                        head: nat, n: nat, eMax: Float, eSum: Float, acc: seq<Float>, eMax': Float,
                                        eSum': Float, acc': seq<Float>, tlogic: Float, tv: seq<Float>)
    requires SplitsInside(c, |midO|, |midLse|, qo, head, n + 1)
    requires LanesHold(m, c, midO, midLse, qo, head, n, eMax, eSum, acc) && |acc'| == |tv| == c.lv
    requires forall d | 0 <= d < c.lv :: Partial(tlogic, tv[d]) == PartAt(c, midO, midLse, qo, head, n, d)
    requires forall d | 0 <= d < c.lv ::
               Accumulator(eMax', eSum', acc'[d])
                 == MergeStep(m, Accumulator(eMax, eSum, acc[d]), Partial(tlogic, tv[d]))
    ensures LanesHold(m, c, midO, midLse, qo, head, n + 1, eMax', eSum', acc')
  {
    forall d | 0 <= d < c.lv
      ensures Accumulator(eMax', eSum', acc'[d]) == MergeLoop(m, Lane(c, midO, midLse, qo, head, n + 1, d))
    {
      ExtendLane(m, c, midO, midLse, qo, head, n, d);
    }
  }

  /** The address the loop computes for the values of a split. */
  lemma {:induction false} SplitBase(offsLogic: int, split: int, stride: int, lv: int, at: int)
    requires at == offsLogic + split * stride
    ensures offsLogic * lv + split * stride * lv == at * lv
  {
    DistributeProduct(offsLogic, split * stride, lv);
  }

  /** The two loads of a split, at the moving offsets. */
  method LoadSplit(c: Launch, midO: array<Float>, midLse: array<Float>, qo: nat, head: nat, split: nat,
                   offsLogic: nat, offsV: nat)
    returns (tlogic: Float, tv: seq<Float>)
    requires offsLogic == qo * c.strideMidOb + head * c.strideMidOh && offsV == offsLogic * c.lv
    requires LseAddress(c, qo, head, split) < midLse.Length
    requires LseAddress(c, qo, head, split) * c.lv + c.lv <= midO.Length
    ensures |tv| == c.lv
    ensures forall d | 0 <= d < c.lv :: Partial(tlogic, tv[d]) == PartAt(c, midO[..], midLse[..], qo, head, split, d)
  {
    var at := offsLogic + split * c.strideMidOs;
    var base := offsV + split * c.strideMidOs * c.lv;
    SplitBase(offsLogic, split, c.strideMidOs, c.lv, at);
    tlogic := midLse[at];
    tv := midO[base..base + c.lv];
  }

  /** One turn of the split loop: load, then merge. */
  method TakeSplit(m: ExpLog, c: Launch, midO: array<Float>, midLse: array<Float>, qo: nat, head: nat, split: nat,
                   offsLogic: nat, offsV: nat, eMax: Float, eSum: Float, acc: seq<Float>)
    returns (eMax': Float, eSum': Float, acc': seq<Float>)
    requires offsLogic == qo * c.strideMidOb + head * c.strideMidOh && offsV == offsLogic * c.lv
    requires SplitsInside(c, midO.Length, midLse.Length, qo, head, split + 1)
    requires LanesHold(m, c, midO[..], midLse[..], qo, head, split, eMax, eSum, acc)
    ensures LanesHold(m, c, midO[..], midLse[..], qo, head, split + 1, eMax', eSum', acc')
  {
    assert LseAddress(c, qo, head, split) < midLse.Length;
    var tlogic, tv := LoadSplit(c, midO, midLse, qo, head, split, offsLogic, offsV);
    eMax', eSum', acc' := MergeSplit(m, eMax, eSum, acc, tlogic, tv);
    LanesAdvance(m, c, midO[..], midLse[..], qo, head, split, eMax, eSum, acc, eMax', eSum', acc', tlogic, tv);
  }

  lemma {:induction false} LanesStart(m: ExpLog, c: Launch, midO: seq<Float>, midLse: seq<Float>, qo: nat, head: nat,
                                      acc: seq<Float>)
    requires |acc| == c.lv && forall d | 0 <= d < c.lv :: acc[d] == Fin(0.0)
    ensures LanesHold(m, c, midO, midLse, qo, head, 0, NegInf, Fin(0.0), acc)
  {
  }

  /** The split loop of one query row.  offsLogic is the running offset of the row. */
  method MergeRow(m: ExpLog, c: Launch, midO: array<Float>, midLse: array<Float>, qo: nat, head: nat, n: nat,
                  offsLogic: nat, offsV: nat)
    returns (eMax: Float, eSum: Float, acc: seq<Float>)
    requires offsLogic == qo * c.strideMidOb + head * c.strideMidOh && offsV == offsLogic * c.lv
    requires SplitsInside(c, midO.Length, midLse.Length, qo, head, n)
    ensures LanesHold(m, c, midO[..], midLse[..], qo, head, n, eMax, eSum, acc)
  {
    eSum, eMax := Fin(0.0), NegInf;
    acc := seq(c.lv, _ => Fin(0.0));
    LanesStart(m, c, midO[..], midLse[..], qo, head, acc);
    for split := 0 to n
      invariant LanesHold(m, c, midO[..], midLse[..], qo, head, split, eMax, eSum, acc)
    {
      eMax, eSum, acc := TakeSplit(m, c, midO, midLse, qo, head, split, offsLogic, offsV, eMax, eSum, acc);
    }
  }

  lemma {:induction false} DistributeProduct(a: int, b: int, k: int)
    ensures (a + b) * k == a * k + b * k
  {
  }

  /** The merges of row qo, one for each lane. */
  ghost function MergedRow(m: ExpLog, c: Launch, b: Batch, midO: seq<Float>, midLse: seq<Float>, qo: nat,
                           head: nat): (r: seq<Accumulator>)
    requires c.mgc > 0 && SplitsInside(c, |midO|, |midLse|, qo, head, Splits(c, b, qo))
    ensures |r| == c.lv && forall d | 0 <= d < c.lv :: r[d] == Merged(m, c, b, midO, midLse, qo, head, d)
  {
    seq(c.lv, d requires 0 <= d < c.lv => Merged(m, c, b, midO, midLse, qo, head, d))
  }

  /** Row qo of the outputs holds what the accumulators say, lane by lane. */
  ghost predicate RowHolds(m: ExpLog, c: Launch, head: nat, o: seq<Float>, lse: seq<Float>, qo: nat,
                           accs: seq<Accumulator>)
    requires |accs| == c.lv && OutAddress(c, qo, head) + c.lv <= |o|
    requires c.hasFinalLse ==> qo * c.strideLseBs + head < |lse|
  {
    var row := o[OutAddress(c, qo, head)..OutAddress(c, qo, head) + c.lv];
    forall d | 0 <= d < c.lv ::
      row[d] == FinalOut(accs[d])
      && (c.hasFinalLse ==> lse[qo * c.strideLseBs + head] == FinalLse(m, accs[d]))
  }

  /** Cell i of the output, or of the final log-sum-exps, belongs to row qo of this program. */
  ghost predicate OwnsOut(c: Launch, head: nat, qo: nat, i: int) {
    OutAddress(c, qo, head) <= i < OutAddress(c, qo, head) + c.lv
  }

  ghost predicate OwnsLse(c: Launch, head: nat, qo: nat, i: int) {
    c.hasFinalLse && i == qo * c.strideLseBs + head
  }

  /** A finished row stays as it is while a later row is stored. */
  lemma {:induction false} KeepsRow(m: ExpLog, c: Launch, head: nat, o: seq<Float>, lse: seq<Float>, o': seq<Float>,
                                    lse': seq<Float>, q: nat, qo: nat, accs: seq<Accumulator>)
    requires c.lv <= c.strideObs && (c.hasFinalLse ==> 1 <= c.strideLseBs) && q < qo && |o'| == |o| && |lse'| == |lse|
    requires |accs| == c.lv && OutAddress(c, q, head) + c.lv <= |o|
    requires c.hasFinalLse ==> q * c.strideLseBs + head < |lse|
    requires forall i | 0 <= i < |o| && !OwnsOut(c, head, qo, i) :: o'[i] == o[i]
    requires forall i | 0 <= i < |lse| && !OwnsLse(c, head, qo, i) :: lse'[i] == lse[i]
    requires RowHolds(m, c, head, o, lse, q, accs)
    ensures RowHolds(m, c, head, o', lse', q, accs)
  {
    RowsApart(c.strideObs, q, qo);
    if c.hasFinalLse {
      RowsApart(c.strideLseBs, q, qo);
    }
    var at := OutAddress(c, q, head);
    assert o'[at..at + c.lv] == o[at..at + c.lv] by {
      assert forall i | at <= i < at + c.lv :: !OwnsOut(c, head, qo, i) && o'[i] == o[i];
    }
    assert !OwnsLse(c, head, qo, q * c.strideLseBs + head);
  }

  /** The two stores at the end of a row. */
  method StoreRow(m: ExpLog, c: Launch, head: nat, o: array<Float>, finalLse: array<Float>, qo: nat,
                  eMax: Float, eSum: Float, acc: seq<Float>)
    requires o != finalLse && |acc| == c.lv
    requires OutAddress(c, qo, head) + c.lv <= o.Length
    requires c.hasFinalLse ==> qo * c.strideLseBs + head < finalLse.Length
    modifies o, finalLse
    ensures RowHolds(m, c, head, o[..], finalLse[..], qo,
                     seq(c.lv, d requires 0 <= d < |acc| => Accumulator(eMax, eSum, acc[d])))
    ensures forall i | 0 <= i < o.Length && !OwnsOut(c, head, qo, i) :: o[..][i] == old(o[..])[i]
    ensures forall i | 0 <= i < finalLse.Length && !OwnsLse(c, head, qo, i) :: finalLse[..][i] == old(finalLse[..])[i]
  {
    var base := qo * c.strideObs + head * c.strideOh;
    forall i | base <= i < base + c.lv {
      o[i] := FinalOut(Accumulator(eMax, eSum, acc[i - base]));
    }
    if c.hasFinalLse {
      finalLse[qo * c.strideLseBs + head] := Add(eMax, Log(m, eSum));
    }
  }

  /** One turn of the query loop. */
  method ReduceRow(m: ExpLog, c: Launch, b: Batch, head: nat, midO: array<Float>, midLse: array<Float>,
                   o: array<Float>, finalLse: array<Float>, qo: nat, offsLogic: nat, offsV: nat)
    requires c.mgc > 0 && b.qoStart <= qo < b.qoEnd
    requires InBounds(c, b, head, midO[..], midLse[..], o.Length, finalLse.Length)
    requires o != midO && o != midLse && finalLse != midO && finalLse != midLse && o != finalLse
    requires offsLogic == qo * c.strideMidOb + head * c.strideMidOh && offsV == offsLogic * c.lv
    modifies o, finalLse
    ensures midO[..] == old(midO[..]) && midLse[..] == old(midLse[..])
    ensures RowHolds(m, c, head, o[..], finalLse[..], qo, MergedRow(m, c, b, midO[..], midLse[..], qo, head))
    ensures OutsideRow(c, head, qo, old(o[..]), old(finalLse[..]), o[..], finalLse[..])
  {
    var eMax, eSum, acc := MergeRow(m, c, midO, midLse, qo, head, Splits(c, b, qo), offsLogic, offsV);
    ghost var merged := MergedRow(m, c, b, midO[..], midLse[..], qo, head);
    assert merged == seq(c.lv, d requires 0 <= d < |acc| => Accumulator(eMax, eSum, acc[d]));
    StoreRow(m, c, head, o, finalLse, qo, eMax, eSum, acc);
    assert midO[..] == old(midO[..]) && midLse[..] == old(midLse[..]);
  }

  /** The rows of the batch below hi hold their merges. */
  ghost predicate RowsHold(m: ExpLog, c: Launch, b: Batch, head: nat, midO: seq<Float>, midLse: seq<Float>,
                           o: seq<Float>, lse: seq<Float>, hi: nat)
    requires c.mgc > 0 && hi <= b.qoEnd && InBounds(c, b, head, midO, midLse, |o|, |lse|)
  {
    forall qo | b.qoStart <= qo < hi :: RowHolds(m, c, head, o, lse, qo, MergedRow(m, c, b, midO, midLse, qo, head))
  }

  ghost predicate OutsideRow(c: Launch, head: nat, qo: nat, o: seq<Float>, lse: seq<Float>, o': seq<Float>,
                             lse': seq<Float>) {
    && |o'| == |o| && |lse'| == |lse|
    && (forall i | 0 <= i < |o| && !OwnsOut(c, head, qo, i) :: o'[i] == o[i])
    && (forall i | 0 <= i < |lse| && !OwnsLse(c, head, qo, i) :: lse'[i] == lse[i])
  }

  ghost predicate OutsideOutputs(c: Launch, b: Batch, head: nat, o: seq<Float>, o': seq<Float>) {
    && |o'| == |o|
    && (forall i | 0 <= i < |o| && (forall qo | b.qoStart <= qo < b.qoEnd :: !OwnsOut(c, head, qo, i)) :: o'[i] == o[i])
  }

  /** No cell outside the rows of the batch has changed. */
  ghost predicate OutsideBatch(c: Launch, b: Batch, head: nat, o: seq<Float>, lse: seq<Float>, o': seq<Float>,
                               lse': seq<Float>) {
    && OutsideOutputs(c, b, head, o, o') && |lse'| == |lse|
    && (forall i | 0 <= i < |lse| && (forall qo | b.qoStart <= qo < b.qoEnd :: !OwnsLse(c, head, qo, i)) ::
        lse'[i] == lse[i])
  }

  lemma {:induction false} RowsAdvance(m: ExpLog, c: Launch, b: Batch, head: nat, midO: seq<Float>, midLse: seq<Float>,
                                       o: seq<Float>, lse: seq<Float>, o': seq<Float>, lse': seq<Float>, qo: nat)
    requires c.mgc > 0 && b.qoStart <= qo < b.qoEnd && InBounds(c, b, head, midO, midLse, |o|, |lse|)
    requires c.lv <= c.strideObs && (c.hasFinalLse ==> 1 <= c.strideLseBs)
    requires OutsideRow(c, head, qo, o, lse, o', lse') && RowsHold(m, c, b, head, midO, midLse, o, lse, qo)
    requires RowHolds(m, c, head, o', lse', qo, MergedRow(m, c, b, midO, midLse, qo, head))
    ensures RowsHold(m, c, b, head, midO, midLse, o', lse', qo + 1)
  {
    forall q | b.qoStart <= q < qo
      ensures RowHolds(m, c, head, o', lse', q, MergedRow(m, c, b, midO, midLse, q, head))
    {
      KeepsRow(m, c, head, o, lse, o', lse', q, qo, MergedRow(m, c, b, midO, midLse, q, head));
    }
  }

  lemma {:induction false} StaysOutside(c: Launch, b: Batch, head: nat, o: seq<Float>, lse: seq<Float>,
                                        o': seq<Float>, lse': seq<Float>, o'': seq<Float>, lse'': seq<Float>, qo: nat)
    requires b.qoStart <= qo < b.qoEnd
    requires OutsideBatch(c, b, head, o, lse, o', lse') && OutsideRow(c, head, qo, o', lse', o'', lse'')
    ensures OutsideBatch(c, b, head, o, lse, o'', lse'')
  {
  }

  lemma {:induction false} NextOffset(qo: nat, stride: nat, rest: int, offsLogic: int, lv: int)
    requires offsLogic == qo * stride + rest
    ensures offsLogic + stride == (qo + 1) * stride + rest
    ensures offsLogic * lv + stride * lv == (offsLogic + stride) * lv
  {
    DistributeProduct(offsLogic, stride, lv);
    DistributeProduct(qo, 1, stride);
  }

  /** The query loop that merges: every lane of every query row of the batch ends up with the
      merge of that row's splits, and no cell outside those rows changes. */
  method MergeRows(m: ExpLog, c: Launch, b: Batch, head: nat,
                   midO: array<Float>, midLse: array<Float>, o: array<Float>, finalLse: array<Float>)
    requires c.mgc > 0 && c.lv <= c.strideObs && (c.hasFinalLse ==> 1 <= c.strideLseBs)
    requires InBounds(c, b, head, midO[..], midLse[..], o.Length, finalLse.Length)
    requires o != midO && o != midLse && finalLse != midO && finalLse != midLse && o != finalLse
    modifies o, finalLse
    ensures RowsHold(m, c, b, head, old(midO[..]), old(midLse[..]), o[..], finalLse[..], b.qoEnd)
    ensures OutsideBatch(c, b, head, old(o[..]), old(finalLse[..]), o[..], finalLse[..])
  {
    ghost var mo, ml := midO[..], midLse[..];
    var offsLogic := b.qoStart * c.strideMidOb + head * c.strideMidOh;
    var offsV := offsLogic * c.lv;
    if b.qoEnd <= b.qoStart {
      return;
    }
    for qo := b.qoStart to b.qoEnd
      invariant offsLogic == qo * c.strideMidOb + head * c.strideMidOh && offsV == offsLogic * c.lv
      invariant midO[..] == mo && midLse[..] == ml
      invariant RowsHold(m, c, b, head, mo, ml, o[..], finalLse[..], qo)
      invariant OutsideBatch(c, b, head, old(o[..]), old(finalLse[..]), o[..], finalLse[..])
    {
      ghost var o0, lse0 := o[..], finalLse[..];
      ReduceRow(m, c, b, head, midO, midLse, o, finalLse, qo, offsLogic, offsV);
      RowsAdvance(m, c, b, head, mo, ml, o0, lse0, o[..], finalLse[..], qo);
      StaysOutside(c, b, head, old(o[..]), old(finalLse[..]), o0, lse0, o[..], finalLse[..], qo);
      NextOffset(qo, c.strideMidOb, head * c.strideMidOh, offsLogic, c.lv);
      offsLogic := offsLogic + c.strideMidOb;
      offsV := offsV + c.strideMidOb * c.lv;
    }
  }

  // ---------------------------------------------------------------------------
  // As many splits as batches: the program copies what it takes for final outputs
  // ---------------------------------------------------------------------------

  /** Where the value buffer, seen at the output's element type, keeps the final row. */
  function FinalAddress(c: Launch, qo: nat, head: nat): nat {
    c.lv * (qo * c.strideMidOs + head * c.strideMidOh)
  }

  ghost predicate FinalInBounds(c: Launch, b: Batch, head: nat, viewLength: nat, oLength: nat) {
    forall qo | b.qoStart <= qo < b.qoEnd ::
      FinalAddress(c, qo, head) + c.lv <= viewLength && OutAddress(c, qo, head) + c.lv <= oLength
  }

  /** Row qo of the output is the final row. */
  ghost predicate RowCopied(c: Launch, head: nat, view: seq<Float>, o: seq<Float>, qo: nat)
    requires FinalAddress(c, qo, head) + c.lv <= |view| && OutAddress(c, qo, head) + c.lv <= |o|
  {
    o[OutAddress(c, qo, head)..OutAddress(c, qo, head) + c.lv]
      == view[FinalAddress(c, qo, head)..FinalAddress(c, qo, head) + c.lv]
  }

  ghost predicate RowsCopied(c: Launch, b: Batch, head: nat, view: seq<Float>, o: seq<Float>, hi: nat)
    requires hi <= b.qoEnd && FinalInBounds(c, b, head, |view|, |o|)
  {
    forall qo | b.qoStart <= qo < hi :: RowCopied(c, head, view, o, qo)
  }

  lemma {:induction false} CopiesAdvance(c: Launch, b: Batch, head: nat, view: seq<Float>, o: seq<Float>,
                                         o': seq<Float>, qo: nat)
    requires b.qoStart <= qo < b.qoEnd && FinalInBounds(c, b, head, |view|, |o|) && |o'| == |o| && c.lv <= c.strideObs
    requires RowsCopied(c, b, head, view, o, qo) && RowCopied(c, head, view, o', qo)
    requires forall i | 0 <= i < |o| && !OwnsOut(c, head, qo, i) :: o'[i] == o[i]
    ensures RowsCopied(c, b, head, view, o', qo + 1)
  {
    forall q | b.qoStart <= q < qo
      ensures RowCopied(c, head, view, o', q)
    {
      assert RowCopied(c, head, view, o, q);
      CopyKept(c, head, o, o', q, qo);
    }
  }

  lemma {:induction false} CopyKept(c: Launch, head: nat, o: seq<Float>, o': seq<Float>, q: nat, qo: nat)
    requires q < qo && c.lv <= c.strideObs && |o'| == |o| && OutAddress(c, q, head) + c.lv <= |o|
    requires forall i | 0 <= i < |o| && !OwnsOut(c, head, qo, i) :: o'[i] == o[i]
    ensures o'[OutAddress(c, q, head)..OutAddress(c, q, head) + c.lv]
            == o[OutAddress(c, q, head)..OutAddress(c, q, head) + c.lv]
  {
    RowsApart(c.strideObs, q, qo);
    var at := OutAddress(c, q, head);
    assert forall i | at <= i < at + c.lv :: !OwnsOut(c, head, qo, i) && o'[i] == o[i];
  }

  /** The masked copy of one row. */
  method CopyRow(c: Launch, head: nat, view: array<Float>, o: array<Float>, qo: nat)
    requires view != o && FinalAddress(c, qo, head) + c.lv <= view.Length && OutAddress(c, qo, head) + c.lv <= o.Length
    modifies o
    ensures RowCopied(c, head, old(view[..]), o[..], qo)
    ensures forall i | 0 <= i < o.Length && !OwnsOut(c, head, qo, i) :: o[..][i] == old(o[..])[i]
  {
    var from, to := FinalAddress(c, qo, head), OutAddress(c, qo, head);
    forall i | to <= i < to + c.lv {
      o[i] := view[from + (i - to)];
    }
  }

  /** The query loop that copies. */
  method CopyRows(c: Launch, b: Batch, head: nat, view: array<Float>, o: array<Float>)
    requires view != o && c.lv <= c.strideObs && FinalInBounds(c, b, head, view.Length, o.Length)
    modifies o
    ensures RowsCopied(c, b, head, old(view[..]), o[..], b.qoEnd)
    ensures OutsideOutputs(c, b, head, old(o[..]), o[..])
  {
    if b.qoEnd <= b.qoStart {
      return;
    }
    ghost var v := view[..];
    for qo := b.qoStart to b.qoEnd
      invariant view[..] == v && RowsCopied(c, b, head, v, o[..], qo)
      invariant OutsideOutputs(c, b, head, old(o[..]), o[..])
    {
      ghost var o0 := o[..];
      CopyRow(c, head, view, o, qo);
      CopiesAdvance(c, b, head, v, o0, o[..], qo);
    }
  }

  /** The program of (batch, head). It leaves the merge of its splits in every lane of every query row of the
      batch; when stage 1 has left final outputs, it copies those rows and leaves the log-sum-exps alone.
      No cell outside the rows of the batch changes. view is the value buffer at the output's element type. */
  method Stage2Program(m: ExpLog, c: Launch, b: Batch, head: nat, midO: array<Float>, midLse: array<Float>,
                       view: array<Float>, o: array<Float>, finalLse: array<Float>)
    requires c.mgc > 0 && c.lv <= c.strideObs && (c.hasFinalLse ==> 1 <= c.strideLseBs)
    requires IsFinal(c, b) ==> FinalInBounds(c, b, head, view.Length, o.Length)
    requires !IsFinal(c, b) ==> InBounds(c, b, head, midO[..], midLse[..], o.Length, finalLse.Length)
    requires o != midO && o != midLse && finalLse != midO && finalLse != midLse && o != finalLse && o != view
    modifies o, finalLse
    ensures c.maybeFinalOut && b.allSplits == c.batchNum ==>
              RowsCopied(c, b, head, old(view[..]), o[..], b.qoEnd) && finalLse[..] == old(finalLse[..])
    ensures !(c.maybeFinalOut && b.allSplits == c.batchNum) ==>
              RowsHold(m, c, b, head, old(midO[..]), old(midLse[..]), o[..], finalLse[..], b.qoEnd)
    ensures OutsideBatch(c, b, head, old(o[..]), old(finalLse[..]), o[..], finalLse[..])
  {
    if IsFinal(c, b) {
      CopyRows(c, b, head, view, o);
    } else {
      MergeRows(m, c, b, head, midO, midLse, o, finalLse);
    }
  }

  // ---------------------------------------------------------------------------
  // What the program leaves is attention
  // ---------------------------------------------------------------------------

  /** A key of the cache: its score against the query and its value, one number a lane. */
  datatype CacheKey = CacheKey(score: real, values: seq<real>)

  /** The keys as lane d sees them. */
  function InLane(keys: seq<CacheKey>, d: nat): (r: seq<Key>)
    requires forall key <- keys :: d < |key.values|
    ensures |r| == |keys| && forall i :: 0 <= i < |r| ==> r[i] == Key(keys[i].score, keys[i].values[d])
  {
    seq(|keys|, i requires 0 <= i < |keys| => Key(keys[i].score, keys[i].values[d]))
  }

  function AllInLane(chunks: seq<seq<CacheKey>>, d: nat): (r: seq<seq<Key>>)
    requires forall chunk <- chunks, key <- chunk :: d < |key.values|
    ensures |r| == |chunks|
  {
    seq(|chunks|, i requires 0 <= i < |chunks| => InLane(chunks[i], d))
  }

  ghost predicate Wide(chunks: seq<seq<CacheKey>>, lv: nat) {
    forall chunk <- chunks, key <- chunk :: |key.values| == lv
  }

  lemma {:induction false} CacheIsWide(chunks: seq<seq<CacheKey>>, lv: nat)
    requires Wide(chunks, lv)
    ensures forall key <- Flatten(chunks) :: |key.values| == lv
  {
    if chunks != [] {
      CacheIsWide(chunks[..|chunks| - 1], lv);
      assert chunks[|chunks| - 1] in chunks;
    }
  }

  /** Flattening and choosing a lane commute. */
  lemma {:induction false} LaneOfCache(chunks: seq<seq<CacheKey>>, lv: nat, d: nat)
    requires Wide(chunks, lv) && d < lv
    ensures forall key <- Flatten(chunks) :: |key.values| == lv
    ensures Flatten(AllInLane(chunks, d)) == InLane(Flatten(chunks), d)
  {
    CacheIsWide(chunks, lv);
    if chunks != [] {
      var n := |chunks| - 1;
      LaneOfCache(chunks[..n], lv, d);
      assert AllInLane(chunks, d)[..n] == AllInLane(chunks[..n], d);
      assert chunks[n] in chunks;
      assert InLane(Flatten(chunks), d) == InLane(Flatten(chunks[..n]), d) + InLane(chunks[n], d);
    }
  }

  lemma {:induction false} InLaneWithout(keys: seq<CacheKey>, i: nat, d: nat)
    requires i < |keys| && forall key <- keys :: d < |key.values|
    ensures forall key <- Without(keys, i) :: key in keys
    ensures multiset(InLane(keys, d))
            == multiset(InLane(Without(keys, i), d)) + multiset{Key(keys[i].score, keys[i].values[d])}
  {
    var lane, without := InLane(keys, d), InLane(Without(keys, i), d);
    assert without == lane[..i] + lane[i + 1..];
    assert lane == lane[..i] + [lane[i]] + lane[i + 1..];
  }

  lemma {:induction false} SameKeysAreWide(a: seq<CacheKey>, b: seq<CacheKey>, lv: nat)
    requires SameKeys(a, b) && forall key <- a :: |key.values| == lv
    ensures forall key <- b :: |key.values| == lv
  {
    forall key | key in b
      ensures |key.values| == lv
    {
      assert key in multiset(b);
    }
  }

  lemma {:induction false} SameKeysAfterOne<T>(a: seq<T>, b: seq<T>, a': seq<T>, b': seq<T>, key: T)
    requires SameKeys(a', b')
    requires multiset(a) == multiset(a') + multiset{key} && multiset(b) == multiset(b') + multiset{key}
    ensures SameKeys(a, b)
  {
  }

  lemma {:induction false} NoKeysInLane(a: seq<CacheKey>, b: seq<CacheKey>, d: nat)
    requires a == b == []
    ensures SameKeys(InLane(a, d), InLane(b, d))
  {
  }

  /** A different order of the keys is a different order in every lane. */
  lemma {:induction false} SameKeysInLane(a: seq<CacheKey>, b: seq<CacheKey>, lv: nat, d: nat)
    requires SameKeys(a, b) && d < lv && forall key <- a :: |key.values| == lv
    ensures forall key <- b :: |key.values| == lv
    ensures SameKeys(InLane(a, d), InLane(b, d))
    decreases |a|
  {
    SameKeysAreWide(a, b, lv);
    if a == [] {
      NoKeysLeft(a, b);
      NoKeysInLane(a, b, d);
    } else {
      var n := |a| - 1;
      var i := TakeOut(a, b);
      var a', b' := Without(a, n), Without(b, i);
      assert a' == a[..n];
      InLaneWithout(a, n, d);
      InLaneWithout(b, i, d);
      SameKeysInLane(a', b', lv, d);
      SameKeysAfterOne(InLane(a, d), InLane(b, d), InLane(a', d), InLane(b', d), Key(a[n].score, a[n].values[d]));
    }
  }

  /** Stage 1's contract for a query row: its valid splits summarise the keys dealt to them, and the first split
      got one if any split did. */
  ghost predicate RowSummarised(m: ExpLog, c: Launch, b: Batch, midO: seq<Float>, midLse: seq<Float>, qo: nat,
                                head: nat, chunks: seq<seq<CacheKey>>)
    requires c.mgc > 0 && SplitsInside(c, |midO|, |midLse|, qo, head, Splits(c, b, qo))
  {
    && |chunks| == Splits(c, b, qo) && Wide(chunks, c.lv) && (chunks != [] ==> chunks[0] != [])
    && SplitsSummarise(m, c, midO, midLse, qo, head, chunks)
  }

  /** The first splits of a row hold, in every lane, the softmax attention and log-sum-exp of their chunks. */
  ghost predicate SplitsSummarise(m: ExpLog, c: Launch, midO: seq<Float>, midLse: seq<Float>, qo: nat, head: nat,
                                  chunks: seq<seq<CacheKey>>)
    requires SplitsInside(c, |midO|, |midLse|, qo, head, |chunks|) && Wide(chunks, c.lv)
  {
    forall s, d | 0 <= s < |chunks| && 0 <= d < c.lv ::
      var at := LseAddress(c, qo, head, s);
      Summarises(m, Partial(midLse[at], midO[at * c.lv + d]), InLane(chunks[s], d))
  }

  lemma {:induction false} LaneAt(c: Launch, midO: seq<Float>, midLse: seq<Float>, qo: nat, head: nat, n: nat, d: nat,
                                  s: nat)
    requires s < n && d < c.lv && SplitsInside(c, |midO|, |midLse|, qo, head, n)
    ensures Lane(c, midO, midLse, qo, head, n, d)[s] == PartAt(c, midO, midLse, qo, head, s, d)
  {
    if s < n - 1 {
      LaneAt(c, midO, midLse, qo, head, n - 1, d, s);
    }
  }

  lemma {:induction false} LaneSummarises(m: ExpLog, c: Launch, midO: seq<Float>, midLse: seq<Float>, qo: nat,
                                          head: nat, chunks: seq<seq<CacheKey>>, d: nat)
    requires d < c.lv && SplitsInside(c, |midO|, |midLse|, qo, head, |chunks|) && Wide(chunks, c.lv)
    requires SplitsSummarise(m, c, midO, midLse, qo, head, chunks)
    ensures AllSummarise(m, Lane(c, midO, midLse, qo, head, |chunks|, d), AllInLane(chunks, d))
  {
    forall s | 0 <= s < |chunks|
      ensures Summarises(m, Lane(c, midO, midLse, qo, head, |chunks|, d)[s], InLane(chunks[s], d))
    {
      LaneAt(c, midO, midLse, qo, head, |chunks|, d, s);
    }
  }

  /** A merged output: the softmax attention over the keys, or zero when there are none. */
  ghost predicate IsAttention(m: ExpLog, out: Float, kv: seq<Key>) {
    if kv == [] then out == Fin(0.0) else Partition(m, kv) > 0.0 && out == Fin(Attention(m, kv))
  }

  /** A merged log-sum-exp: that of the keys, or minus infinity when there are none. */
  ghost predicate IsLogSumExp(m: ExpLog, lse: Float, kv: seq<Key>) {
    if kv == [] then lse == NegInf else Partition(m, kv) > 0.0 && lse == Fin(m.log(Partition(m, kv)))
  }

  lemma {:induction false} MergedIsAttention(m: ExpLog, parts: seq<Partial>, chunks: seq<seq<Key>>, kv: seq<Key>)
    requires m.Valid() && AllSummarise(m, parts, chunks) && (chunks != [] ==> chunks[0] != [])
    requires SameKeys(Flatten(chunks), kv)
    ensures IsAttention(m, FinalOut(MergeLoop(m, parts)), kv)
    ensures IsLogSumExp(m, FinalLse(m, MergeLoop(m, parts)), kv)
  {
    if chunks != [] {
      FirstIsInFlat(chunks);
      assert Flatten(chunks)[0] in multiset(Flatten(chunks));
      SplitMergeIsAttention(m, parts, chunks, kv);
    } else {
      NoKeysLeft(Flatten(chunks), kv);
    }
  }

  lemma {:induction false} LaneIsAttention(m: ExpLog, c: Launch, b: Batch, midO: seq<Float>, midLse: seq<Float>,
                                           qo: nat, head: nat, chunks: seq<seq<CacheKey>>, cache: seq<CacheKey>,
                                           d: nat)
    requires m.Valid() && c.mgc > 0 && d < c.lv && SplitsInside(c, |midO|, |midLse|, qo, head, Splits(c, b, qo))
    requires RowSummarised(m, c, b, midO, midLse, qo, head, chunks) && SameKeys(Flatten(chunks), cache)
    ensures forall key <- cache :: |key.values| == c.lv
    ensures var merged, kv := Merged(m, c, b, midO, midLse, qo, head, d), InLane(cache, d);
            IsAttention(m, FinalOut(merged), kv) && IsLogSumExp(m, FinalLse(m, merged), kv)
  {
    LaneOfCache(chunks, c.lv, d);
    SameKeysInLane(Flatten(chunks), cache, c.lv, d);
    LaneSummarises(m, c, midO, midLse, qo, head, chunks, d);
    MergedIsAttention(m, Lane(c, midO, midLse, qo, head, Splits(c, b, qo), d), AllInLane(chunks, d),
                      InLane(cache, d));
  }

  /** Lane d of row qo holds the softmax attention over these keys, and the row their log-sum-exp if it is kept. */
  ghost predicate RowAttends(m: ExpLog, c: Launch, head: nat, o: seq<Float>, lse: seq<Float>, qo: nat,
                             keys: seq<CacheKey>, d: nat)
    requires d < c.lv
  {
    && (forall key <- keys :: |key.values| == c.lv)
    && OutAddress(c, qo, head) + d < |o| && IsAttention(m, o[OutAddress(c, qo, head) + d], InLane(keys, d))
    && (c.hasFinalLse ==> && qo * c.strideLseBs + head < |lse|
                          && IsLogSumExp(m, lse[qo * c.strideLseBs + head], InLane(keys, d)))
  }

  /** When the splits of a row summarise the keys of a cache, dealt out to them in whatever way, the program leaves
      the softmax attention over that cache in every lane of the row, and its log-sum-exp beside it. */
  lemma {:induction false} ProgramLeavesAttention(m: ExpLog, c: Launch, b: Batch, head: nat, midO: seq<Float>,
                                                  midLse: seq<Float>, o: seq<Float>, lse: seq<Float>, qo: nat,
                                                  chunks: seq<seq<CacheKey>>, cache: seq<CacheKey>, d: nat)
    requires m.Valid() && c.mgc > 0 && InBounds(c, b, head, midO, midLse, |o|, |lse|)
    requires RowsHold(m, c, b, head, midO, midLse, o, lse, b.qoEnd)
    requires b.qoStart <= qo < b.qoEnd && d < c.lv && RowSummarised(m, c, b, midO, midLse, qo, head, chunks)
    requires SameKeys(Flatten(chunks), cache)
    ensures RowAttends(m, c, head, o, lse, qo, cache, d)
  {
    LaneIsAttention(m, c, b, midO, midLse, qo, head, chunks, cache, d);
    var accs := MergedRow(m, c, b, midO, midLse, qo, head);
    assert RowHolds(m, c, head, o, lse, qo, accs);
    assert o[OutAddress(c, qo, head)..OutAddress(c, qo, head) + c.lv][d] == FinalOut(accs[d]);
  }

  // ---------------------------------------------------------------------------
  // A stage 1 that deals tiles to its splits in turn
  // ---------------------------------------------------------------------------

  /** The keys of a batch, page by page: every page but the last is full. With a token-level pointer each entry
      is one key. */
  ghost predicate Paged(c: Launch, b: Batch, pages: seq<seq<CacheKey>>) {
    && |pages| == b.kvCount
    && forall i | 0 <= i < |pages| ::
      |pages[i]| == if !c.kvIsPageLevel then 1 else if i == |pages| - 1 then b.lastPageLen else c.pageSize
  }

  lemma {:induction false} EqualPages(pages: seq<seq<CacheKey>>, size: nat)
    requires forall i | 0 <= i < |pages| :: |pages[i]| == size
    ensures |Flatten(pages)| == |pages| * size
  {
    if pages != [] {
      var n := |pages| - 1;
      EqualPages(pages[..n], size);
      assert |pages| * size == n * size + size;
    }
  }

  /** The length the program computes is the number of keys in the pages. */
  lemma {:induction false} PagesHoldTheLength(c: Launch, b: Batch, pages: seq<seq<CacheKey>>)
    requires Paged(c, b, pages)
    ensures |Flatten(pages)| == KvLength(c, b)
  {
    if !c.kvIsPageLevel {
      EqualPages(pages, 1);
    } else if pages != [] {
      EqualPages(pages[..|pages| - 1], c.pageSize);
    }
  }

  /** Bottom-right alignment, key by key: the last query of the batch sees every key, and each query before it
      one key fewer. */
  lemma {:induction false} KeyIsVisibleExactlyWhen(c: Launch, b: Batch, qo: nat, j: nat)
    requires b.qoStart <= qo < b.qoEnd
    ensures j < VisibleKv(c, b, qo) <==> j + (b.qoEnd - 1 - qo) < KvLength(c, b)
  {
  }

  /** How many of all keys a query with this many queries after it sees. */
  function Before(keys: nat, after: nat): nat {
    if keys <= after then 0 else keys - after
  }

  /** The keys of the whole cache that row qo attends to. */
  function Seen(c: Launch, b: Batch, whole: seq<CacheKey>, qo: nat): (r: seq<CacheKey>)
    requires qo < b.qoEnd
    ensures r <= whole
  {
    if c.causal then whole[..Before(|whole|, b.qoEnd - 1 - qo)] else whole
  }

  /** Which splits a row visits: those the batch has, whose first tile starts before the row's last key, below the
      valid count if one is in use. */
  lemma {:induction false} SplitIsVisitedExactlyWhen(c: Launch, b: Batch, whole: seq<CacheKey>, qo: nat, s: nat)
    requires c.mgc > 0 && b.qoStart <= qo < b.qoEnd && |whole| == KvLength(c, b)
    ensures s < Splits(c, b, qo)
            <==> s < b.splits && s * c.mgc < |Seen(c, b, whole, qo)| && (c.useValidCount ==> s < b.validCount)
  {
    if c.causal {
      SeenIsVisible(c, b, whole, qo);
    }
    TileStartsInside(s, |Seen(c, b, whole, qo)|, c.mgc);
    TileStartsInside(s, |whole|, c.mgc);
  }

  lemma {:induction false} SeenIsVisible(c: Launch, b: Batch, whole: seq<CacheKey>, qo: nat)
    requires b.qoStart <= qo < b.qoEnd && |whole| == KvLength(c, b) && c.causal
    ensures |Seen(c, b, whole, qo)| == VisibleKv(c, b, qo)
  {
    var n := |Seen(c, b, whole, qo)|;
    KeyIsVisibleExactlyWhen(c, b, qo, n);
    if n > 0 {
      KeyIsVisibleExactlyWhen(c, b, qo, n - 1);
    }
  }

  lemma {:induction false} TileStartsInside(s: nat, n: nat, tile: nat)
    requires tile > 0
    ensures s < Buckets.CeilDiv(n, tile) <==> s * tile < n
  {
    Buckets.CeilDivBounds(n, tile);
    var k := Buckets.CeilDiv(n, tile);
    if s < k {
      MulMonotone(s + 1, k, tile);
      assert (s + 1) * tile == s * tile + tile;
    } else {
      MulMonotone(k, s, tile);
    }
  }

  /** Stage 1 dealt the keys the row attends to to the batch's splits in tiles of mgc keys, and the splits that got
      one hold their result; a valid count it wrote back is not below their number. */
  ghost predicate RowDealt(m: ExpLog, c: Launch, b: Batch, midO: seq<Float>, midLse: seq<Float>, qo: nat, head: nat,
                           cache: seq<CacheKey>)
    requires c.mgc > 0 && SplitsInside(c, |midO|, |midLse|, qo, head, Splits(c, b, qo))
  {
    && b.splits > 0 && (forall key <- cache :: |key.values| == c.lv)
    && (c.useValidCount ==> Numbers.Min(b.splits, Buckets.CeilDiv(|cache|, c.mgc)) <= b.validCount)
    && SplitsSummarise(m, c, midO, midLse, qo, head, Deal(cache, c.mgc, b.splits)[..Splits(c, b, qo)])
  }

  /** The program visits exactly the splits that got a tile. */
  lemma {:induction false} VisitsTheSplitsWithATile(c: Launch, b: Batch, whole: seq<CacheKey>, qo: nat)
    requires c.mgc > 0 && b.qoStart <= qo < b.qoEnd && |whole| == KvLength(c, b)
    requires var n := Numbers.Min(b.splits, Buckets.CeilDiv(|Seen(c, b, whole, qo)|, c.mgc));
             c.useValidCount ==> n <= b.validCount
    ensures Splits(c, b, qo) == Numbers.Min(b.splits, Buckets.CeilDiv(|Seen(c, b, whole, qo)|, c.mgc))
  {
    var n := Numbers.Min(b.splits, Buckets.CeilDiv(|Seen(c, b, whole, qo)|, c.mgc));
    SplitIsVisitedExactlyWhen(c, b, whole, qo, n);
    TileStartsInside(n, |Seen(c, b, whole, qo)|, c.mgc);
    if n > 0 {
      SplitIsVisitedExactlyWhen(c, b, whole, qo, n - 1);
      TileStartsInside(n - 1, |Seen(c, b, whole, qo)|, c.mgc);
    }
  }

  /** For such a stage 1 the program leaves, in every lane of row qo, the softmax attention over the keys of the
      batch's pages: all of them, or under causal alignment all but one for each query after qo. */
  lemma {:induction false} DealtProgramLeavesAttention(m: ExpLog, c: Launch, b: Batch, head: nat, midO: seq<Float>,
                                                       midLse: seq<Float>, o: seq<Float>, lse: seq<Float>, qo: nat,
                                                       pages: seq<seq<CacheKey>>, keys: seq<CacheKey>, d: nat)
    requires c.mgc > 0 && b.qoStart <= qo < b.qoEnd && d < c.lv && Paged(c, b, pages)
    requires var whole, after := Flatten(pages), b.qoEnd - 1 - qo;
             keys == if !c.causal then whole else if |whole| <= after then [] else whole[..|whole| - after]
    requires InBounds(c, b, head, midO, midLse, |o|, |lse|) && RowDealt(m, c, b, midO, midLse, qo, head, keys)
    requires m.Valid() && RowsHold(m, c, b, head, midO, midLse, o, lse, b.qoEnd)
    ensures RowAttends(m, c, head, o, lse, qo, keys, d)
  {
    PagesSeen(c, b, pages, qo, keys);
    SeenAttention(m, c, b, head, midO, midLse, o, lse, qo, Flatten(pages), keys, d);
  }

  lemma {:induction false} PagesSeen(c: Launch, b: Batch, pages: seq<seq<CacheKey>>, qo: nat, keys: seq<CacheKey>)
    requires b.qoStart <= qo < b.qoEnd && Paged(c, b, pages)
    requires var whole, after := Flatten(pages), b.qoEnd - 1 - qo;
             keys == if !c.causal then whole else if |whole| <= after then [] else whole[..|whole| - after]
    ensures |Flatten(pages)| == KvLength(c, b) && keys == Seen(c, b, Flatten(pages), qo)
  {
    PagesHoldTheLength(c, b, pages);
  }

  lemma {:induction false} SeenAttention(m: ExpLog, c: Launch, b: Batch, head: nat, midO: seq<Float>,
                                         midLse: seq<Float>, o: seq<Float>, lse: seq<Float>, qo: nat,
                                         whole: seq<CacheKey>, cache: seq<CacheKey>, d: nat)
    requires m.Valid() && c.mgc > 0 && InBounds(c, b, head, midO, midLse, |o|, |lse|)
    requires RowsHold(m, c, b, head, midO, midLse, o, lse, b.qoEnd)
    requires b.qoStart <= qo < b.qoEnd && d < c.lv && |whole| == KvLength(c, b) && cache == Seen(c, b, whole, qo)
    requires RowDealt(m, c, b, midO, midLse, qo, head, cache)
    ensures RowAttends(m, c, head, o, lse, qo, cache, d)
  {
    var chunks := DealtIsSummarised(m, c, b, midO, midLse, qo, head, whole);
    ProgramLeavesAttention(m, c, b, head, midO, midLse, o, lse, qo, chunks, cache, d);
  }

  lemma {:induction false} DealtIsSummarised(m: ExpLog, c: Launch, b: Batch, midO: seq<Float>, midLse: seq<Float>,
                                             qo: nat, head: nat, whole: seq<CacheKey>)
    returns (chunks: seq<seq<CacheKey>>)
    requires c.mgc > 0 && b.qoStart <= qo < b.qoEnd && |whole| == KvLength(c, b)
    requires SplitsInside(c, |midO|, |midLse|, qo, head, Splits(c, b, qo))
    requires RowDealt(m, c, b, midO, midLse, qo, head, Seen(c, b, whole, qo))
    ensures RowSummarised(m, c, b, midO, midLse, qo, head, chunks)
    ensures SameKeys(Flatten(chunks), Seen(c, b, whole, qo))
  {
    var cache := Seen(c, b, whole, qo);
    VisitsTheSplitsWithATile(c, b, whole, qo);
    VisitedSplitsHoldAll(cache, c.mgc, b.splits, Splits(c, b, qo));
    chunks := Deal(cache, c.mgc, b.splits)[..Splits(c, b, qo)];
  }

  // ---------------------------------------------------------------------------
  // When the copy is right
  // ---------------------------------------------------------------------------

  /** A pointer to the splits of n batches. */
  ghost predicate SplitPointer(ptr: seq<nat>, n: nat) {
    |ptr| == n + 1 && ptr[0] == 0 && forall k | 0 <= k < n :: ptr[k] <= ptr[k + 1]
  }

  ghost predicate SplitsBetween(ptr: seq<nat>, n: nat, lo: nat, hi: nat)
    requires SplitPointer(ptr, n)
  {
    forall k | 0 <= k < n :: lo <= ptr[k + 1] - ptr[k] <= hi
  }

  /** Whatever n splits leave, with numbers for log-sum-exps, the first one's value is their merge. */
  ghost predicate CopyIsMerge(m: ExpLog, n: nat) {
    && n > 0
    && forall parts: seq<Partial> | |parts| == n && FirstIsNumber(parts) && Mergeable(parts) ::
      FinalOut(MergeLoop(m, parts)) == parts[0].value
  }

  lemma {:induction false} SpanAtLeast(ptr: seq<nat>, n: nat, i: nat, j: nat)
    requires SplitPointer(ptr, n) && i <= j <= n && forall k | 0 <= k < n :: 1 <= ptr[k + 1] - ptr[k]
    ensures ptr[j] - ptr[i] >= j - i
    decreases j - i
  {
    if i < j {
      SpanAtLeast(ptr, n, i, j - 1);
    }
  }

  /** One split leaves its own value; of more splits the first need not be the merge. */
  lemma {:induction false} CopyIsMergeExactlyForOneSplit(m: ExpLog, n: nat)
    requires m.Valid()
    ensures CopyIsMerge(m, n) <==> n == 1
  {
    forall parts: seq<Partial> | |parts| == 1 && FirstIsNumber(parts) && Mergeable(parts)
      ensures FinalOut(MergeLoop(m, parts)) == parts[0].value
    {
      MergeOfOne(m, parts);
    }
    if n >= 2 {
      var parts := ZeroThenOnes(n);
      MergeExact(m, parts);
      OnesWeigh(m, n);
      QuotientPositive(WeightedValues(m, parts), WeightSum(m, parts));
      assert FinalOut(MergeLoop(m, parts)) != parts[0].value;
    }
  }

  lemma {:induction false} QuotientPositive(x: real, y: real)
    requires x > 0.0 && y > 0.0
    ensures x / y > 0.0
  {
  }

  lemma {:induction false} MergeOfOne(m: ExpLog, parts: seq<Partial>)
    requires m.Valid() && |parts| == 1 && FirstIsNumber(parts) && Mergeable(parts)
    ensures FinalOut(MergeLoop(m, parts)) == parts[0].value
  {
    assert parts[0] in parts;
    MergeExact(m, parts);
    QuotientOfOne(m, parts, parts[0].lse.r, parts[0].value.r);
  }

  /** A split of value zero and then splits of value one, all equally heavy. */
  ghost function ZeroThenOnes(n: nat): (parts: seq<Partial>)
    requires n > 0
    ensures |parts| == n && parts[0] == Partial(Fin(0.0), Fin(0.0)) && Mergeable(parts)
  {
    if n == 1 then [Partial(Fin(0.0), Fin(0.0))] else ZeroThenOnes(n - 1) + [Partial(Fin(0.0), Fin(1.0))]
  }

  lemma {:induction false} OnesWeigh(m: ExpLog, n: nat)
    requires m.Valid() && n > 0
    ensures WeightedValues(m, ZeroThenOnes(n)) >= 0.0 && (n > 1 ==> WeightedValues(m, ZeroThenOnes(n)) > 0.0)
  {
    ExpLogAtZero(m);
    var parts := ZeroThenOnes(n);
    UnfoldWeights(m, parts);
    if n > 1 {
      OnesWeigh(m, n - 1);
      assert parts[..n - 1] == ZeroThenOnes(n - 1);
    } else {
      assert parts[..0] == [];
    }
  }

  lemma {:induction false} SpanAtMost(ptr: seq<nat>, n: nat, i: nat, j: nat)
    requires SplitPointer(ptr, n) && i <= j <= n && forall k | 0 <= k < n :: ptr[k + 1] - ptr[k] <= 1
    ensures ptr[j] - ptr[i] <= j - i
    decreases j - i
  {
    if i < j {
      SpanAtMost(ptr, n, i, j - 1);
    }
  }

  /** As many splits as batches: no batch without one, no batch with two and one each are the same. */
  lemma {:induction false} OneSplitEachExactlyWhen(ptr: seq<nat>, n: nat)
    requires SplitPointer(ptr, n) && ptr[n] == n
    ensures SplitsBetween(ptr, n, 1, 1) <==> SplitsBetween(ptr, n, 1, n)
    ensures SplitsBetween(ptr, n, 1, 1) <==> SplitsBetween(ptr, n, 0, 1)
  {
    if SplitsBetween(ptr, n, 1, n) {
      forall k | 0 <= k < n
        ensures ptr[k + 1] - ptr[k] == 1
      {
        SpanAtLeast(ptr, n, 0, k);
        SpanAtLeast(ptr, n, k + 1, n);
      }
    }
    if SplitsBetween(ptr, n, 0, 1) {
      forall k | 0 <= k < n
        ensures ptr[k + 1] - ptr[k] == 1
      {
        SpanAtMost(ptr, n, 0, k);
        SpanAtMost(ptr, n, k + 1, n);
      }
    }
  }

  /** The copy branch, taken because the splits number as many as the batches, is right exactly if every batch has
      one split, which is if none has no split, and also if none has two. */
  lemma {:induction false} CopyIsRightExactlyForOneSplitEach(m: ExpLog, ptr: seq<nat>, n: nat)
    requires m.Valid() && SplitPointer(ptr, n) && ptr[n] == n
    ensures (forall k | 0 <= k < n :: CopyIsMerge(m, ptr[k + 1] - ptr[k])) <==> SplitsBetween(ptr, n, 1, 1)
    ensures SplitsBetween(ptr, n, 1, 1) <==> SplitsBetween(ptr, n, 1, n)
    ensures SplitsBetween(ptr, n, 1, 1) <==> SplitsBetween(ptr, n, 0, 1)
  {
    OneSplitEachExactlyWhen(ptr, n);
    CopiesAreMerges(m, ptr, n);
  }

  lemma {:induction false} CopiesAreMerges(m: ExpLog, ptr: seq<nat>, n: nat)
    requires m.Valid() && SplitPointer(ptr, n)
    ensures (forall k | 0 <= k < n :: CopyIsMerge(m, ptr[k + 1] - ptr[k])) <==> SplitsBetween(ptr, n, 1, 1)
  {
    forall k | 0 <= k < n
      ensures CopyIsMerge(m, ptr[k + 1] - ptr[k]) <==> ptr[k + 1] - ptr[k] == 1
    {
      CopyIsMergeExactlyForOneSplit(m, ptr[k + 1] - ptr[k]);
    }
  }

  /** The uniform pointer the code builds itself takes the copy branch exactly for one split per batch. */
  lemma {:induction false} UniformPointerCopiesOneSplit(ptr: seq<nat>, n: nat, splits: nat)
    requires n > 0 && |ptr| == n + 1 && forall k | 0 <= k <= n :: ptr[k] == k * splits
    ensures ptr[n] == n <==> splits == 1
    ensures ptr[n] == n ==> SplitPointer(ptr, n) && SplitsBetween(ptr, n, 1, 1)
  {
    assert ptr[n] == n * splits;
    if n * splits == n * 1 {
      assert n * (splits - 1) == 0;
    }
  }

  /** Two batches with the split pointer [0, 0, 2], one head and one lane; the second batch has one query and two
      keys. */
  ghost predicate UnevenCall(c: Launch, b: Batch) {
    && c.strideMidOs == 1 && c.lv == 1 && c.mgc == 1 && c.batchNum == 2 && c.maybeFinalOut
    && !c.kvIsPageLevel && !c.useValidCount && !c.causal
    && b.qoStart == 0 && b.qoEnd == 1 && b.splits == 2 && b.allSplits == 2 && b.kvCount == 2
  }

  lemma {:induction false} UnevenCallSplits(c: Launch, b: Batch)
    requires UnevenCall(c, b)
    ensures IsFinal(c, b) && KvLength(c, b) == 2 && Splits(c, b, 0) == 2
  {
    assert Buckets.CeilDiv(2, 1) == 2;
  }

  lemma {:induction false} UnevenCallAddress(c: Launch, s: nat)
    requires c.strideMidOs == 1 && c.lv == 1
    ensures LseAddress(c, 0, 0, s) == s && LseAddress(c, 0, 0, s) * c.lv == s
    ensures FinalAddress(c, 0, 0) == 0 && OutAddress(c, 0, 0) == 0
  {
  }

  lemma {:induction false} UnevenCallInside(c: Launch)
    requires c.strideMidOs == 1 && c.lv == 1
    ensures SplitsInside(c, 2, 2, 0, 0, 2)
  {
    forall s | 0 <= s < 2
      ensures LseAddress(c, 0, 0, s) < 2 && LseAddress(c, 0, 0, s) * c.lv + c.lv <= 2
    {
      UnevenCallAddress(c, s);
    }
  }

  lemma {:induction false} UnevenCallLane(c: Launch, b: Batch, midO: seq<Float>, midLse: seq<Float>)
    requires UnevenCall(c, b) && |midO| == 2 && |midLse| == 2 && SplitsInside(c, 2, 2, 0, 0, 2)
    ensures Lane(c, midO, midLse, 0, 0, 2, 0) == [Partial(midLse[0], midO[0]), Partial(midLse[1], midO[1])]
  {
    UnevenCallAddress(c, 0);
    UnevenCallAddress(c, 1);
    var two := Lane(c, midO, midLse, 0, 0, 2, 0);
    var one := Lane(c, midO, midLse, 0, 0, 1, 0);
    assert one == [PartAt(c, midO, midLse, 0, 0, 0, 0)];
    assert two == one + [PartAt(c, midO, midLse, 0, 0, 1, 0)];
  }

  lemma {:induction false} UnevenCallCopies(c: Launch, b: Batch, midO: seq<Float>, o: seq<Float>)
    requires UnevenCall(c, b) && |midO| == 2 && |o| == 1
    requires FinalInBounds(c, b, 0, 2, 1) && RowsCopied(c, b, 0, midO, o, 1)
    ensures o[0] == midO[0]
  {
    UnevenCallAddress(c, 0);
    assert RowCopied(c, 0, midO, o, 0);
    assert o[0..1][0] == midO[0..1][0];
  }

  lemma {:induction false} UnevenCallMerges(m: ExpLog, c: Launch, b: Batch, midO: seq<Float>, midLse: seq<Float>)
    requires UnevenCall(c, b) && |midO| == 2 && |midLse| == 2
    ensures Splits(c, b, 0) == 2 && SplitsInside(c, 2, 2, 0, 0, 2)
    ensures Merged(m, c, b, midO, midLse, 0, 0, 0)
            == MergeLoop(m, [Partial(midLse[0], midO[0]), Partial(midLse[1], midO[1])])
  {
    UnevenCallSplits(c, b);
    UnevenCallInside(c);
    UnevenCallLane(c, b, midO, midLse);
  }

  /** The copy branch is taken, although the second batch has two splits to merge: equally heavy splits of values
      one and three merge to two, and the first one's value is copied. */
  lemma {:induction false} UnevenPointerCopiesUnmerged(m: ExpLog, c: Launch, b: Batch, midO: seq<Float>,
                                                       midLse: seq<Float>, o: seq<Float>)
    requires m.Valid() && UnevenCall(c, b) && midO == [Fin(1.0), Fin(3.0)] && midLse == [Fin(0.0), Fin(0.0)]
    requires |o| == 1 && FinalInBounds(c, b, 0, 2, 1) && RowsCopied(c, b, 0, midO, o, 1)
    ensures IsFinal(c, b) && Splits(c, b, 0) == 2 && SplitsInside(c, 2, 2, 0, 0, 2)
    ensures FinalOut(Merged(m, c, b, midO, midLse, 0, 0, 0)) == Fin(2.0) && o == [Fin(1.0)]
  {
    UnevenCallCopies(c, b, midO, o);
    UnevenCallMerges(m, c, b, midO, midLse);
    MergeOneAndThree(m, [Partial(midLse[0], midO[0]), Partial(midLse[1], midO[1])]);
  }

  lemma {:induction false} UnevenPointerIsNotOneEach(ptr: seq<nat>)
    requires ptr == [0, 0, 2]
    ensures SplitPointer(ptr, 2) && ptr[2] == 2 && !SplitsBetween(ptr, 2, 1, 1)
  {
    assert ptr[0 + 1] - ptr[0] == 0;
  }

  lemma {:induction false} UnitWeight(m: ExpLog, p: Partial, v: real)
    requires m.exp(0.0) == 1.0 && p == Partial(Fin(0.0), Fin(v))
    ensures Weight(m, p.lse) == 1.0 && WeightedValue(m, p) == v
  {
    assert WeightedValue(m, p) == 1.0 * v;
  }

  lemma {:induction false} SumsOfTwo(m: ExpLog, parts: seq<Partial>)
    requires |parts| == 2
    ensures WeightSum(m, parts) == Weight(m, parts[0].lse) + Weight(m, parts[1].lse)
    ensures WeightedValues(m, parts) == WeightedValue(m, parts[0]) + WeightedValue(m, parts[1])
  {
    SumsOfOne(m, parts[..1]);
    UnfoldWeights(m, parts);
  }

  lemma {:induction false} SumsOfOneAndThree(m: ExpLog, parts: seq<Partial>)
    requires m.exp(0.0) == 1.0 && |parts| == 2
    requires parts[0] == Partial(Fin(0.0), Fin(1.0)) && parts[1] == Partial(Fin(0.0), Fin(3.0))
    ensures WeightSum(m, parts) == 2.0 && WeightedValues(m, parts) == 4.0
  {
    UnitWeight(m, parts[0], 1.0);
    UnitWeight(m, parts[1], 3.0);
    SumsOfTwo(m, parts);
  }

  lemma {:induction false} MergeOneAndThree(m: ExpLog, parts: seq<Partial>)
    requires m.Valid() && |parts| == 2
    requires parts[0] == Partial(Fin(0.0), Fin(1.0)) && parts[1] == Partial(Fin(0.0), Fin(3.0))
    ensures FinalOut(MergeLoop(m, parts)) == Fin(2.0)
  {
    ExpLogAtZero(m);
    SumsOfOneAndThree(m, parts);
    ExactQuotient(m, parts, 4.0, 2.0, 2.0);
  }

  lemma {:induction false} ExactQuotient(m: ExpLog, parts: seq<Partial>, v: real, w: real, q: real)
    requires m.Valid() && Mergeable(parts) && FirstIsNumber(parts)
    requires v == WeightedValues(m, parts) && w == WeightSum(m, parts) && v == w * q
    ensures FinalOut(MergeLoop(m, parts)) == Fin(q)
  {
    MergeExact(m, parts);
    CancelWeight(w, q);
  }

  // ---------------------------------------------------------------------------
  // The contiguous layout the launcher allocates
  // ---------------------------------------------------------------------------

  /** Strides of contiguous buffers: logits [rows, splits, heads, lv], lse [rows, splits, heads, 1]
      and output [rows, heads, lv]. */
  ghost predicate Contiguous(c: Launch, splits: nat, heads: nat) {
    && c.strideMidOb == splits * heads && c.strideMidOh == 1 && c.strideMidOs == heads
    && c.strideObs == heads * c.lv && c.strideOh == c.lv && (c.hasFinalLse ==> c.strideLseBs == heads)
  }

  /** The moving offsets name exactly logits[qo, s, head, d] and lse[qo, s, head], counted row-major. */
  lemma {:induction false} OffsetsNameTheCell(c: Launch, splits: nat, heads: nat, qo: nat, s: nat, head: nat)
    requires Contiguous(c, splits, heads) && s < splits && head < heads
    ensures LseAddress(c, qo, head, s) == (qo * splits + s) * heads + head
    ensures LseAddress(c, qo, head, s) * c.lv == ((qo * splits + s) * heads + head) * c.lv
    ensures OutAddress(c, qo, head) == (qo * heads + head) * c.lv
  {
    assert qo * (splits * heads) == (qo * splits) * heads;
    DistributeProduct(qo * splits, s, heads);
    assert qo * (heads * c.lv) == (qo * heads) * c.lv;
    DistributeProduct(qo * heads, head, c.lv);
  }

  /** With one split per row the final row lies where the output row does: the copy keeps every address. */
  lemma {:induction false} FinalRowKeepsItsPlace(c: Launch, heads: nat, qo: nat, head: nat)
    requires Contiguous(c, 1, heads)
    ensures FinalAddress(c, qo, head) == OutAddress(c, qo, head) == LseAddress(c, qo, head, 0) * c.lv
  {
    assert qo * (heads * c.lv) == (qo * heads) * c.lv;
    DistributeProduct(qo * heads, head, c.lv);
  }

  /** Two programs never store to the same output cell: equal addresses name the same row, head and lane. */
  lemma {:induction false} ProgramsStoreApart(c: Launch, splits: nat, heads: nat, qo: nat, head: nat, d: nat,
                                              qo': nat, head': nat, d': nat)
    requires Contiguous(c, splits, heads) && 0 < splits
    requires head < heads && head' < heads && d < c.lv && d' < c.lv
    requires OutAddress(c, qo, head) + d == OutAddress(c, qo', head') + d'
    ensures qo == qo' && head == head' && d == d'
  {
    OffsetsNameTheCell(c, splits, heads, qo, 0, head);
    OffsetsNameTheCell(c, splits, heads, qo', 0, head');
    PositionsApart(c.lv, qo * heads + head, d, qo' * heads + head', d');
    PositionsApart(heads, qo, head, qo', head');
  }
}
