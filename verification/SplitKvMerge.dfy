/** The online softmax merge of split-KV partial results (aiter/mla.py, stage 2), for one
    output lane: every lane of a head carries its own value and shares the log-sum-exp. */
module SplitKvMerge {
  import opened ExtendedReals
  import opened TileDealing
  import opened Buckets
  import Numbers

  /** What one split leaves behind: the log-sum-exp of its scores and its normalised output. */
  datatype Partial = Partial(lse: Float, value: Float)

  /** The loop's running maximum, denominator and numerator. */
  datatype Accumulator = Accumulator(max: Float, sum: Float, acc: Float)

  const START := Accumulator(NegInf, Fin(0.0), Fin(0.0))

  function MergeStep(m: ExpLog, a: Accumulator, p: Partial): Accumulator {
    var newMax := Max(p.lse, a.max);
    var oldScale := Exp(m, Sub(a.max, newMax));
    var weight := Exp(m, Sub(p.lse, newMax));
    Accumulator(newMax,
                Add(Mul(a.sum, oldScale), weight),
                Add(Mul(a.acc, oldScale), Mul(weight, p.value)))
  }

  function MergeLoop(m: ExpLog, parts: seq<Partial>): Accumulator {
    if parts == [] then START
    else MergeStep(m, MergeLoop(m, parts[..|parts| - 1]), parts[|parts| - 1])
  }

  function FinalOut(a: Accumulator): Float {
    if IsPositive(a.sum) then DivPositive(a.acc, a.sum) else Fin(0.0)
  }

  function FinalLse(m: ExpLog, a: Accumulator): Float {
    Add(a.max, Log(m, a.sum))
  }

  // ---------------------------------------------------------------------------
  // What the merge should mean: weighted averages with weights exp(lse)
  // ---------------------------------------------------------------------------

  /** A split takes part with a number, or contributes nothing (lse minus infinity). */
  ghost predicate Mergeable(parts: seq<Partial>) {
    forall p <- parts :: (p.lse.Fin? || p.lse.NegInf?) && p.value.Fin?
  }

  ghost function Weight(m: ExpLog, lse: Float): real {
    if lse.Fin? then m.exp(lse.r) else 0.0
  }

  ghost function Value(v: Float): real {
    if v.Fin? then v.r else 0.0
  }

  ghost function WeightedValue(m: ExpLog, p: Partial): real {
    Weight(m, p.lse) * Value(p.value)
  }

  ghost function WeightSum(m: ExpLog, parts: seq<Partial>): real {
    if parts == [] then 0.0
    else WeightSum(m, parts[..|parts| - 1]) + Weight(m, parts[|parts| - 1].lse)
  }

  ghost function WeightedValues(m: ExpLog, parts: seq<Partial>): real {
    if parts == [] then 0.0
    else WeightedValues(m, parts[..|parts| - 1])
         + WeightedValue(m, parts[|parts| - 1])
  }

  /** Scaled by exp(max), the accumulators are the exact sums w of weights and v of weighted values. */
  ghost predicate Holds(m: ExpLog, a: Accumulator, w: real, v: real) {
    && a.max.Fin? && a.sum.Fin? && a.acc.Fin?
    && a.sum.r > 0.0
    && a.sum.r * m.exp(a.max.r) == w
    && a.acc.r * m.exp(a.max.r) == v
  }

  lemma {:induction false} Distribute(s: real, k: real, w: real, e: real)
    ensures (s * k + w) * e == s * (k * e) + w * e
  {
  }

  lemma {:induction false} ProductPositive(x: real, y: real)
    requires x > 0.0 && y > 0.0
    ensures x * y > 0.0
  {
  }

  /** Moving the maximum from prev to next rescales what was summed so far and nothing else. */
  lemma {:induction false} Rescale(m: ExpLog, s: real, w: real, prev: real, next: real)
    requires m.Valid()
    ensures (s * m.exp(prev - next) + w) * m.exp(next) == s * m.exp(prev) + w * m.exp(next)
    ensures m.exp(prev - next) > 0.0
  {
    ExpOfSum(m, prev - next, next, prev);
    ExpOfSum(m, prev, -next, prev - next);
    Distribute(s, m.exp(prev - next), w, m.exp(next));
  }

  lemma {:induction false} ShareOfWeight(m: ExpLog, l: real, next: real, v: real)
    requires m.Valid()
    ensures m.exp(l - next) * m.exp(next) == m.exp(l)
    ensures (m.exp(l - next) * v) * m.exp(next) == m.exp(l) * v
    ensures m.exp(l - next) > 0.0
  {
    ExpOfSum(m, l - next, next, l);
    ExpOfSum(m, l, -next, l - next);
    assert (m.exp(l - next) * v) * m.exp(next) == (m.exp(l - next) * m.exp(next)) * v;
  }

  /** One step over numbers, with the weight w of the next split already known. */
  lemma {:induction false} StepOverNumbers(m: ExpLog, a: Accumulator, p: Partial, prev: real, next: real, scale: real,
                                           w: real)
    requires a.max == Fin(prev) && a.sum.Fin? && a.acc.Fin? && p.value.Fin?
    requires Max(p.lse, a.max) == Fin(next)
    requires Exp(m, Sub(Fin(prev), Fin(next))) == Fin(scale)
    requires Exp(m, Sub(p.lse, Fin(next))) == Fin(w)
    ensures MergeStep(m, a, p)
            == Accumulator(Fin(next), Fin(a.sum.r * scale + w), Fin(a.acc.r * scale + w * p.value.r))
  {
    assert Mul(a.sum, Fin(scale)) == Fin(a.sum.r * scale);
    assert Mul(a.acc, Fin(scale)) == Fin(a.acc.r * scale);
    assert Mul(Fin(w), p.value) == Fin(w * p.value.r);
  }

  /** One accumulator after the rescaling, and what is added to it. */
  lemma {:induction false} AddScaled(m: ExpLog, s: real, x: real, prev: real, next: real, total: real, more: real)
    requires m.Valid() && s * m.exp(prev) == total && x * m.exp(next) == more
    ensures (s * m.exp(prev - next) + x) * m.exp(next) == total + more
  {
    Rescale(m, s, x, prev, next);
  }

  lemma {:induction false} SumStaysPositive(m: ExpLog, s: real, x: real, prev: real, next: real)
    requires m.Valid() && s > 0.0 && x >= 0.0
    ensures s * m.exp(prev - next) + x > 0.0
  {
    Rescale(m, s, x, prev, next);
    ProductPositive(s, m.exp(prev - next));
  }

  /** The sums after a step over numbers, scaled back by exp(next). */
  lemma {:induction false} NumberStepSums(m: ExpLog, s: real, acc: real, w: real, v: real, prev: real, next: real,
                                          l: real, value: real)
    requires m.Valid() && s > 0.0 && s * m.exp(prev) == w && acc * m.exp(prev) == v
    ensures s * m.exp(prev - next) + m.exp(l - next) > 0.0
    ensures (s * m.exp(prev - next) + m.exp(l - next)) * m.exp(next) == w + m.exp(l)
    ensures (acc * m.exp(prev - next) + m.exp(l - next) * value) * m.exp(next) == v + m.exp(l) * value
  {
    ShareOfWeight(m, l, next, value);
    AddScaled(m, s, m.exp(l - next), prev, next, w, m.exp(l));
    AddScaled(m, acc, m.exp(l - next) * value, prev, next, v, m.exp(l) * value);
    SumStaysPositive(m, s, m.exp(l - next), prev, next);
  }

  /** A step over numbers, its weights not yet unfolded. */
  lemma {:induction false} NumberStep(m: ExpLog, a: Accumulator, p: Partial, prev: real, next: real, scale: real,
                                      share: real)
    requires a.max == Fin(prev) && a.sum.Fin? && a.acc.Fin? && p.lse.Fin? && p.value.Fin?
    requires next == (if p.lse.r >= prev then p.lse.r else prev)
    requires scale == m.exp(prev - next) && share == m.exp(p.lse.r - next)
    ensures MergeStep(m, a, p)
            == Accumulator(Fin(next), Fin(a.sum.r * scale + share), Fin(a.acc.r * scale + share * p.value.r))
  {
    assert Sub(Fin(prev), Fin(next)) == Fin(prev - next);
    assert Sub(p.lse, Fin(next)) == Fin(p.lse.r - next);
    StepOverNumbers(m, a, p, prev, next, scale, share);
  }

  lemma {:induction false} NumberStepHolds(m: ExpLog, a: Accumulator, w: real, v: real, p: Partial, prev: real,
                                           next: real)
    requires m.Valid() && Holds(m, a, w, v) && p.lse.Fin? && p.value.Fin?
    requires prev == a.max.r && next == (if p.lse.r >= prev then p.lse.r else prev)
    ensures Holds(m, MergeStep(m, a, p), w + m.exp(p.lse.r), v + m.exp(p.lse.r) * p.value.r)
  {
    NumberStepSums(m, a.sum.r, a.acc.r, w, v, prev, next, p.lse.r, p.value.r);
    NumberStep(m, a, p, prev, next, m.exp(prev - next), m.exp(p.lse.r - next));
  }

  /** A step over an empty split, its weight not yet unfolded. */
  lemma {:induction false} EmptyStep(m: ExpLog, a: Accumulator, p: Partial, prev: real, scale: real)
    requires a.max == Fin(prev) && a.sum.Fin? && a.acc.Fin? && p.lse.NegInf? && p.value.Fin?
    requires scale == m.exp(prev - prev)
    ensures MergeStep(m, a, p) == Accumulator(Fin(prev), Fin(a.sum.r * scale + 0.0), Fin(a.acc.r * scale + 0.0))
  {
    assert Sub(Fin(prev), Fin(prev)) == Fin(prev - prev);
    assert 0.0 * p.value.r == 0.0;
    StepOverNumbers(m, a, p, prev, prev, scale, 0.0);
  }

  lemma {:induction false} EmptyStepSums(m: ExpLog, s: real, acc: real, w: real, v: real, prev: real)
    requires m.Valid() && s > 0.0 && s * m.exp(prev) == w && acc * m.exp(prev) == v
    ensures s * m.exp(prev - prev) + 0.0 > 0.0
    ensures (s * m.exp(prev - prev) + 0.0) * m.exp(prev) == w
    ensures (acc * m.exp(prev - prev) + 0.0) * m.exp(prev) == v
  {
    AddScaled(m, s, 0.0, prev, prev, w, 0.0);
    AddScaled(m, acc, 0.0, prev, prev, v, 0.0);
    SumStaysPositive(m, s, 0.0, prev, prev);
  }

  lemma {:induction false} EmptyStepHolds(m: ExpLog, a: Accumulator, w: real, v: real, p: Partial, prev: real)
    requires m.Valid() && Holds(m, a, w, v) && p.lse.NegInf? && p.value.Fin? && prev == a.max.r
    ensures Holds(m, MergeStep(m, a, p), w, v)
  {
    EmptyStepSums(m, a.sum.r, a.acc.r, w, v, prev);
    EmptyStep(m, a, p, prev, m.exp(prev - prev));
  }

  lemma {:induction false} StepHolds(m: ExpLog, a: Accumulator, w: real, v: real, p: Partial)
    requires m.Valid() && Holds(m, a, w, v)
    requires (p.lse.Fin? || p.lse.NegInf?) && p.value.Fin?
    ensures Holds(m, MergeStep(m, a, p), w + Weight(m, p.lse), v + WeightedValue(m, p))
  {
    if p.lse.Fin? {
      NumberStepHolds(m, a, w, v, p, a.max.r, if p.lse.r >= a.max.r then p.lse.r else a.max.r);
    } else {
      EmptyStepHolds(m, a, w, v, p, a.max.r);
    }
  }

  /** What the first split leaves, with its log-sum-exp as the maximum. */
  lemma {:induction false} FirstSumsHold(m: ExpLog, l: real, value: real)
    requires m.Valid()
    ensures Holds(m, Accumulator(Fin(l), Fin(m.exp(l - l)), Fin(m.exp(l - l) * value)), m.exp(l), m.exp(l) * value)
  {
    ShareOfWeight(m, l, l, value);
  }

  lemma {:induction false} FirstStep(m: ExpLog, p: Partial, share: real)
    requires p.lse.Fin? && p.value.Fin? && share == m.exp(p.lse.r - p.lse.r)
    ensures MergeStep(m, START, p) == Accumulator(p.lse, Fin(share), Fin(share * p.value.r))
  {
    assert Exp(m, Sub(START.max, p.lse)) == Fin(0.0);
    assert Exp(m, Sub(p.lse, p.lse)) == Fin(share);
    ZeroThen(share);
    ZeroThen(share * p.value.r);
  }

  lemma {:induction false} ZeroThen(x: real)
    ensures Add(Mul(Fin(0.0), Fin(0.0)), Fin(x)) == Fin(x)
  {
  }

  lemma {:induction false} LoopOfOne(m: ExpLog, parts: seq<Partial>)
    requires |parts| == 1
    ensures MergeLoop(m, parts) == MergeStep(m, START, parts[0])
    ensures WeightSum(m, parts) == Weight(m, parts[0].lse) && WeightedValues(m, parts) == WeightedValue(m, parts[0])
  {
    assert parts[..0] == [];
  }

  lemma {:induction false} FirstOfLoop(m: ExpLog, parts: seq<Partial>, l: real, value: real)
    requires |parts| == 1 && parts[0] == Partial(Fin(l), Fin(value))
    ensures MergeLoop(m, parts) == Accumulator(Fin(l), Fin(m.exp(l - l)), Fin(m.exp(l - l) * value))
    ensures WeightSum(m, parts) == m.exp(l) && WeightedValues(m, parts) == m.exp(l) * value
  {
    LoopOfOne(m, parts);
    FirstStep(m, parts[0], m.exp(l - l));
  }

  lemma {:induction false} UnfoldLoop(m: ExpLog, parts: seq<Partial>, a: Accumulator, w: real, v: real)
    requires parts != [] && var front := parts[..|parts| - 1];
             a == MergeLoop(m, front) && w == WeightSum(m, front) && v == WeightedValues(m, front)
    ensures var p := parts[|parts| - 1];
            && MergeLoop(m, parts) == MergeStep(m, a, p) && WeightSum(m, parts) == w + Weight(m, p.lse)
            && WeightedValues(m, parts) == v + WeightedValue(m, p)
  {
  }

  lemma {:induction false} LoopHolds(m: ExpLog, parts: seq<Partial>)
    requires m.Valid() && Mergeable(parts) && parts != [] && parts[0].lse.Fin?
    ensures Holds(m, MergeLoop(m, parts), WeightSum(m, parts), WeightedValues(m, parts))
  {
    var n := |parts| - 1;
    if n == 0 {
      FirstSumsHold(m, parts[0].lse.r, parts[0].value.r);
      FirstOfLoop(m, parts, parts[0].lse.r, parts[0].value.r);
    } else {
      LoopHolds(m, parts[..n]);
      LastStepHolds(m, parts, parts[..n], parts[n]);
    }
  }

  lemma {:induction false} LastStepHolds(m: ExpLog, parts: seq<Partial>, front: seq<Partial>, last: Partial)
    requires m.Valid() && parts != [] && front == parts[..|parts| - 1] && last == parts[|parts| - 1]
    requires (last.lse.Fin? || last.lse.NegInf?) && last.value.Fin?
    requires Holds(m, MergeLoop(m, front), WeightSum(m, front), WeightedValues(m, front))
    ensures Holds(m, MergeLoop(m, parts), WeightSum(m, parts), WeightedValues(m, parts))
  {
    var w, v := WeightSum(m, front), WeightedValues(m, front);
    StepHolds(m, MergeLoop(m, front), w, v, last);
    UnfoldLoop(m, parts, MergeLoop(m, front), w, v);
  }

  /** Once the denominator is NaN it stays NaN. */
  lemma {:induction false} PoisonSpreads(m: ExpLog, parts: seq<Partial>, k: nat)
    requires k <= |parts| && MergeLoop(m, parts[..k]).sum.NaN?
    ensures MergeLoop(m, parts).sum.NaN?
    decreases |parts|
  {
    if k < |parts| {
      var n := |parts| - 1;
      assert parts[..n][..k] == parts[..k];
      PoisonSpreads(m, parts[..n], k);
    } else {
      assert parts[..k] == parts;
    }
  }

  /** The guard a caller can check: some split ran, and the first one has a number. */
  ghost predicate FirstIsNumber(parts: seq<Partial>) {
    parts != [] && parts[0].lse.Fin?
  }

  /** Scaling numerator and denominator by exp(max) changes neither the ratio nor the logarithm. */
  lemma {:induction false} FinalOfSums(m: ExpLog, a: Accumulator, w: real, v: real)
    requires m.Valid() && Holds(m, a, w, v)
    ensures w > 0.0
    ensures FinalOut(a) == Fin(v / w)
    ensures FinalLse(m, a) == Fin(m.log(w))
  {
    var e := m.exp(a.max.r);
    assert m.Positive(a.max.r);
    ProductPositive(a.sum.r, e);
    RatioCancels(a.acc.r, a.sum.r, e);
    UndoShift(m, a.max.r, a.sum.r, w);
  }

  lemma {:induction false} UndoShift(m: ExpLog, max: real, sum: real, w: real)
    requires m.Valid() && sum > 0.0 && w > 0.0 && sum * m.exp(max) == w
    ensures max + m.log(sum) == m.log(w)
  {
    ExpNeg(m, max);
    assert w * m.exp(-max) == sum by {
      Reassociate(sum, m.exp(max), m.exp(-max));
    }
    LogShift(m, w, max);
  }

  lemma {:induction false} Reassociate(s: real, e: real, inverse: real)
    requires inverse * e == 1.0
    ensures (s * e) * inverse == s
  {
    assert (s * e) * inverse == s * (inverse * e);
  }

  lemma {:induction false} RatioCancels(x: real, y: real, e: real)
    requires y > 0.0 && e > 0.0 && y * e > 0.0
    ensures x / y == (x * e) / (y * e)
  {
    assert x == (x / y) * y;
    assert x * e == (x / y) * (y * e);
  }

  /** The exact value of the merge whenever the first split has a number: the average of the
      split outputs weighted by exp(lse), and the logarithm of the total weight. */
  lemma {:induction false} MergeExact(m: ExpLog, parts: seq<Partial>)
    requires m.Valid() && Mergeable(parts) && FirstIsNumber(parts)
    ensures WeightSum(m, parts) > 0.0
    ensures FinalOut(MergeLoop(m, parts)) == Fin(WeightedValues(m, parts) / WeightSum(m, parts))
    ensures FinalLse(m, MergeLoop(m, parts)) == Fin(m.log(WeightSum(m, parts)))
  {
    LoopHolds(m, parts);
    FinalOfSums(m, MergeLoop(m, parts), WeightSum(m, parts), WeightedValues(m, parts));
  }

  lemma {:induction false} CancelWeight(w: real, v: real)
    requires w > 0.0
    ensures w * v / w == v
  {
  }

  lemma {:induction false} QuotientOfOne(m: ExpLog, parts: seq<Partial>, l: real, v: real)
    requires |parts| == 1 && parts[0] == Partial(Fin(l), Fin(v)) && WeightSum(m, parts) > 0.0
    ensures WeightedValues(m, parts) / WeightSum(m, parts) == v
  {
    SumsOfOne(m, parts);
    CancelWeight(WeightSum(m, parts), v);
  }

  lemma {:induction false} SumsOfOne(m: ExpLog, parts: seq<Partial>)
    requires |parts| == 1
    ensures WeightSum(m, parts) == Weight(m, parts[0].lse) && WeightedValues(m, parts) == WeightedValue(m, parts[0])
  {
    assert parts[..0] == [];
  }

  /** A step whose inputs are unusable poisons the denominator. */
  lemma {:induction false} BadStepPoisons(m: ExpLog, a: Accumulator, p: Partial)
    requires a == START || a.max.Fin?
    requires p.lse.NaN? || p.lse.PosInf? || (a == START && p.lse.NegInf?)
    ensures MergeStep(m, a, p).sum.NaN?
  {
  }

  /** The first unusable split, if there is one. */
  lemma {:induction false} FirstBad(parts: seq<Partial>) returns (k: nat)
    requires exists p <- parts :: p.lse.NaN? || p.lse.PosInf?
    ensures k < |parts| && (parts[k].lse.NaN? || parts[k].lse.PosInf?)
    ensures forall j :: 0 <= j < k ==> parts[j].lse.Fin? || parts[j].lse.NegInf?
    decreases |parts|
  {
    if parts[0].lse.NaN? || parts[0].lse.PosInf? {
      k := 0;
    } else {
      k := FirstBad(parts[1..]);
      k := k + 1;
      assert forall j :: 1 <= j < k ==> parts[j] == parts[1..][j - 1];
    }
  }

  /** For every list of splits, whatever their log-sum-exps: the merged log-sum-exp is a number
      if and only if the first split has one and no split is NaN or plus infinity.  When it is
      not, and at least one split ran, it is NaN and the output is zero. */
  lemma {:induction false} MergeIsNumberExactlyWhen(m: ExpLog, parts: seq<Partial>)
    requires m.Valid() && forall p <- parts :: p.value.Fin?
    ensures FinalLse(m, MergeLoop(m, parts)).Fin? <==> Mergeable(parts) && FirstIsNumber(parts)
    ensures parts != [] && !(Mergeable(parts) && FirstIsNumber(parts)) ==>
              FinalLse(m, MergeLoop(m, parts)) == NaN && FinalOut(MergeLoop(m, parts)) == Fin(0.0)
    ensures parts == [] ==>
              FinalLse(m, MergeLoop(m, parts)) == NegInf && FinalOut(MergeLoop(m, parts)) == Fin(0.0)
  {
    if parts == [] {
    } else if Mergeable(parts) && FirstIsNumber(parts) {
      MergeExact(m, parts);
    } else {
      NoNumberPoisons(m, parts);
    }
  }

  lemma {:induction false} SplitPoisons(m: ExpLog, parts: seq<Partial>, k: nat)
    requires k < |parts| && (MergeLoop(m, parts[..k]) == START || MergeLoop(m, parts[..k]).max.Fin?)
    requires parts[k].lse.NaN? || parts[k].lse.PosInf? || (MergeLoop(m, parts[..k]) == START && parts[k].lse.NegInf?)
    ensures MergeLoop(m, parts).sum.NaN?
  {
    assert parts[..k + 1][..k] == parts[..k];
    BadStepPoisons(m, MergeLoop(m, parts[..k]), parts[k]);
    PoisonSpreads(m, parts, k + 1);
  }

  lemma {:induction false} NoNumberPoisons(m: ExpLog, parts: seq<Partial>)
    requires m.Valid() && parts != [] && (forall p <- parts :: p.value.Fin?)
    requires !(Mergeable(parts) && FirstIsNumber(parts))
    ensures MergeLoop(m, parts).sum.NaN?
  {
    if parts[0].lse.Fin? {
      assert exists p <- parts :: p.lse.NaN? || p.lse.PosInf?;
      var k := FirstBad(parts);
      LoopHolds(m, parts[..k]);
      SplitPoisons(m, parts, k);
    } else {
      assert parts[..0] == [];
      SplitPoisons(m, parts, 0);
    }
  }

  // ---------------------------------------------------------------------------
  // Split attention is attention
  // ---------------------------------------------------------------------------

  /** One key of the cache: its score against the query and one lane of its value. */
  datatype Key = Key(score: real, value: real)

  ghost function Partition(m: ExpLog, kv: seq<Key>): real {
    if kv == [] then 0.0
    else Partition(m, kv[..|kv| - 1]) + m.exp(kv[|kv| - 1].score)
  }

  ghost function Numerator(m: ExpLog, kv: seq<Key>): real {
    if kv == [] then 0.0
    else Numerator(m, kv[..|kv| - 1]) + m.exp(kv[|kv| - 1].score) * kv[|kv| - 1].value
  }

  /** Softmax attention over kv in one pass. */
  ghost function Attention(m: ExpLog, kv: seq<Key>): real
    requires Partition(m, kv) > 0.0
  {
    Numerator(m, kv) / Partition(m, kv)
  }

  lemma {:induction false} PartitionPositive(m: ExpLog, kv: seq<Key>)
    requires m.Valid()
    ensures Partition(m, kv) >= 0.0
    ensures kv != [] ==> Partition(m, kv) > 0.0
  {
    if kv != [] {
      PartitionPositive(m, kv[..|kv| - 1]);
      assert m.Positive(kv[|kv| - 1].score);
    }
  }

  lemma {:induction false} PartitionOfConcat(m: ExpLog, a: seq<Key>, b: seq<Key>)
    ensures Partition(m, a + b) == Partition(m, a) + Partition(m, b)
    ensures Numerator(m, a + b) == Numerator(m, a) + Numerator(m, b)
    decreases |b|
  {
    if b == [] {
      assert a + b == a;
    } else {
      var n := |b| - 1;
      PartitionOfConcat(m, a, b[..n]);
      assert (a + b)[..|a + b| - 1] == a + b[..n];
    }
  }

  lemma {:induction false} OneKey(m: ExpLog, key: Key)
    ensures Partition(m, [key]) == m.exp(key.score) && Numerator(m, [key]) == m.exp(key.score) * key.value
  {
    assert [key][..0] == [];
  }

  /** Taking one key out takes out its weight. */
  lemma {:induction false} OneKeyLess(m: ExpLog, kv: seq<Key>, i: nat)
    requires i < |kv|
    ensures Partition(m, kv) == Partition(m, Without(kv, i)) + m.exp(kv[i].score)
    ensures Numerator(m, kv) == Numerator(m, Without(kv, i)) + m.exp(kv[i].score) * kv[i].value
  {
    assert kv == kv[..i] + [kv[i]] + kv[i + 1..];
    PartitionOfConcat(m, kv[..i] + [kv[i]], kv[i + 1..]);
    PartitionOfConcat(m, kv[..i], [kv[i]]);
    OneKey(m, kv[i]);
    PartitionOfConcat(m, kv[..i], kv[i + 1..]);
  }

  /** Attention does not depend on the order of the keys. */
  lemma {:induction false} SameKeysSameSums(m: ExpLog, a: seq<Key>, b: seq<Key>)
    requires SameKeys(a, b)
    ensures Partition(m, a) == Partition(m, b) && Numerator(m, a) == Numerator(m, b)
    decreases |a|
  {
    if a == [] {
      NoKeysLeft(a, b);
    } else {
      var i := TakeOut(a, b);
      SameKeysSameSums(m, a[..|a| - 1], Without(b, i));
      OneKeyLess(m, b, i);
    }
  }

  /** Split p holds the attention over its own keys; a split without keys has lse minus infinity. */
  ghost predicate Summarises(m: ExpLog, p: Partial, kv: seq<Key>) {
    && p.value.Fin?
    && (kv == [] ==> p.lse == NegInf)
    && (kv != [] ==>
          && Partition(m, kv) > 0.0
          && p.lse == Fin(m.log(Partition(m, kv)))
          && p.value == Fin(Attention(m, kv)))
  }

  ghost predicate AllSummarise(m: ExpLog, parts: seq<Partial>, chunks: seq<seq<Key>>) {
    |parts| == |chunks| && forall i :: 0 <= i < |parts| ==> Summarises(m, parts[i], chunks[i])
  }

  lemma {:induction false} SplitWeight(m: ExpLog, p: Partial, kv: seq<Key>)
    requires m.Valid() && Summarises(m, p, kv)
    ensures Weight(m, p.lse) == Partition(m, kv)
    ensures WeightedValue(m, p) == Numerator(m, kv)
  {
    if kv != [] {
      LogOfExpLog(m, Partition(m, kv));
    }
  }

  lemma {:induction false} WeightsAreThePartition(m: ExpLog, parts: seq<Partial>, chunks: seq<seq<Key>>)
    requires m.Valid() && AllSummarise(m, parts, chunks)
    ensures WeightSum(m, parts) == Partition(m, Flatten(chunks))
    ensures WeightedValues(m, parts) == Numerator(m, Flatten(chunks))
    decreases |parts|
  {
    if parts != [] {
      var n := |parts| - 1;
      WeightsAreThePartition(m, parts[..n], chunks[..n]);
      LastSummarises(m, parts, chunks);
      FlattenAdds(m, chunks);
      UnfoldWeights(m, parts);
    }
  }

  lemma {:induction false} UnfoldWeights(m: ExpLog, parts: seq<Partial>)
    requires parts != []
    ensures WeightSum(m, parts) == WeightSum(m, parts[..|parts| - 1]) + Weight(m, parts[|parts| - 1].lse)
    ensures WeightedValues(m, parts) == WeightedValues(m, parts[..|parts| - 1]) + WeightedValue(m, parts[|parts| - 1])
  {
  }

  lemma {:induction false} LastSummarises(m: ExpLog, parts: seq<Partial>, chunks: seq<seq<Key>>)
    requires m.Valid() && AllSummarise(m, parts, chunks) && parts != []
    ensures var p, kv := parts[|parts| - 1], chunks[|chunks| - 1];
            Weight(m, p.lse) == Partition(m, kv) && WeightedValue(m, p) == Numerator(m, kv)
  {
    assert Summarises(m, parts[|parts| - 1], chunks[|chunks| - 1]);
    SplitWeight(m, parts[|parts| - 1], chunks[|chunks| - 1]);
  }

  lemma {:induction false} FlattenAdds(m: ExpLog, chunks: seq<seq<Key>>)
    requires chunks != []
    ensures var front, last := Flatten(chunks[..|chunks| - 1]), chunks[|chunks| - 1];
            && Partition(m, Flatten(chunks)) == Partition(m, front) + Partition(m, last)
            && Numerator(m, Flatten(chunks)) == Numerator(m, front) + Numerator(m, last)
  {
    PartitionOfConcat(m, Flatten(chunks[..|chunks| - 1]), chunks[|chunks| - 1]);
  }

  /** The merge of split results is softmax attention over the whole cache, and the merged
      log-sum-exp is that of the whole cache, however the keys kv are dealt out to the splits. */
  lemma {:induction false} SplitMergeIsAttention(m: ExpLog, parts: seq<Partial>, chunks: seq<seq<Key>>, kv: seq<Key>)
    requires m.Valid() && AllSummarise(m, parts, chunks) && SameKeys(Flatten(chunks), kv)
    requires chunks != [] && chunks[0] != []
    ensures Partition(m, kv) > 0.0
    ensures FinalOut(MergeLoop(m, parts)) == Fin(Attention(m, kv))
    ensures FinalLse(m, MergeLoop(m, parts)) == Fin(m.log(Partition(m, kv)))
  {
    assert Summarises(m, parts[0], chunks[0]);
    forall p | p in parts
      ensures (p.lse.Fin? || p.lse.NegInf?) && p.value.Fin?
    {
      var i :| 0 <= i < |parts| && parts[i] == p;
      assert Summarises(m, parts[i], chunks[i]);
    }
    WeightsAreThePartition(m, parts, chunks);
    MergeExact(m, parts);
    SameKeysSameSums(m, Flatten(chunks), kv);
  }

  /** Neither the number of splits nor which keys each of them gets changes the result. */
  lemma {:induction false} SplitPlacementIsIrrelevant(m: ExpLog, parts: seq<Partial>, chunks: seq<seq<Key>>,
                                                      parts': seq<Partial>, chunks': seq<seq<Key>>)
    requires m.Valid() && AllSummarise(m, parts, chunks) && AllSummarise(m, parts', chunks')
    requires chunks != [] && chunks[0] != [] && chunks' != [] && chunks'[0] != []
    requires SameKeys(Flatten(chunks), Flatten(chunks'))
    ensures FinalOut(MergeLoop(m, parts)) == FinalOut(MergeLoop(m, parts'))
    ensures FinalLse(m, MergeLoop(m, parts)) == FinalLse(m, MergeLoop(m, parts'))
  {
    SplitMergeIsAttention(m, parts, chunks, Flatten(chunks));
    SplitMergeIsAttention(m, parts', chunks', Flatten(chunks));
  }

  /** Tiles dealt to n splits in turn: merging the splits that got one is attention over the keys in cache order. */
  lemma {:induction false} DealtMergeIsAttention(m: ExpLog, parts: seq<Partial>, kv: seq<Key>, tile: nat, n: nat)
    requires m.Valid() && tile > 0 && n > 0 && kv != []
    requires |parts| == Numbers.Min(n, CeilDiv(|kv|, tile))
    requires AllSummarise(m, parts, Deal(kv, tile, n)[..|parts|])
    ensures Partition(m, kv) > 0.0
    ensures FinalOut(MergeLoop(m, parts)) == Fin(Attention(m, kv))
    ensures FinalLse(m, MergeLoop(m, parts)) == Fin(m.log(Partition(m, kv)))
  {
    VisitedSplitsHoldAll(kv, tile, n, |parts|);
    CeilDivBounds(|kv|, tile);
    SplitMergeIsAttention(m, parts, Deal(kv, tile, n)[..|parts|], kv);
  }

  /** What the merge demands of stage 1, exactly: with some key in the cache, the merge is right if and only if
      the first split holds a key. */
  lemma {:induction false} MergeNeedsAKeyInTheFirstSplit(m: ExpLog, parts: seq<Partial>, chunks: seq<seq<Key>>,
                                                         kv: seq<Key>)
    requires m.Valid() && AllSummarise(m, parts, chunks) && SameKeys(Flatten(chunks), kv) && kv != []
    ensures Partition(m, kv) > 0.0 && chunks != []
    ensures FinalLse(m, MergeLoop(m, parts)) == Fin(m.log(Partition(m, kv))) <==> chunks[0] != []
    ensures chunks[0] != [] ==> FinalOut(MergeLoop(m, parts)) == Fin(Attention(m, kv))
    ensures chunks[0] == [] ==> FinalOut(MergeLoop(m, parts)) == Fin(0.0)
  {
    PartitionPositive(m, kv);
    if chunks == [] {
      NoKeysLeft(Flatten(chunks), kv);
    }
    assert Summarises(m, parts[0], chunks[0]);
    if chunks[0] != [] {
      SplitMergeIsAttention(m, parts, chunks, kv);
    } else {
      forall p | p in parts
        ensures p.value.Fin?
      {
        var i :| 0 <= i < |parts| && parts[i] == p;
        assert Summarises(m, parts[i], chunks[i]);
      }
      MergeIsNumberExactlyWhen(m, parts);
    }
  }

  lemma {:induction false} MergeOfTwo(m: ExpLog, a: Partial, b: Partial)
    ensures MergeLoop(m, [a, b]) == MergeStep(m, MergeStep(m, START, a), b)
  {
    assert [a, b][..1] == [a] && [a][..0] == [];
    assert MergeLoop(m, [a]) == MergeStep(m, START, a);
  }

  lemma {:induction false} KeyThenNothing(m: ExpLog, a: Accumulator, b: Accumulator)
    requires m.exp(0.0) == 1.0
    requires a == MergeStep(m, START, Partial(Fin(0.0), Fin(1.0))) && b == MergeStep(m, a, Partial(NegInf, Fin(0.0)))
    ensures b == Accumulator(Fin(0.0), Fin(1.0), Fin(1.0))
  {
    assert a == Accumulator(Fin(0.0), Fin(1.0), Fin(1.0));
  }

  /** An empty split and then a split with one key: the key is lost. */
  lemma {:induction false} EmptySplitFirst(m: ExpLog)
    ensures var a := MergeLoop(m, [Partial(NegInf, Fin(0.0)), Partial(Fin(0.0), Fin(1.0))]);
            FinalOut(a) == Fin(0.0) && FinalLse(m, a) == NaN
  {
    var parts := [Partial(NegInf, Fin(0.0)), Partial(Fin(0.0), Fin(1.0))];
    assert parts[..0] == [];
    SplitPoisons(m, parts, 0);
  }

  lemma {:induction false} ExpLogAtZero(m: ExpLog)
    requires m.Valid()
    ensures m.exp(0.0) == 1.0 && m.log(1.0) == 0.0
  {
    ExpZero(m, 0.0);
    assert m.Inverse(0.0);
  }

  /** The same splits in the other order: the key is kept. */
  lemma {:induction false} EmptySplitLast(m: ExpLog)
    requires m.Valid()
    ensures var a := MergeLoop(m, [Partial(Fin(0.0), Fin(1.0)), Partial(NegInf, Fin(0.0))]);
            FinalOut(a) == Fin(1.0) && FinalLse(m, a) == Fin(0.0)
  {
    ExpLogAtZero(m);
    OneThenEmpty(m, Partial(Fin(0.0), Fin(1.0)), Partial(NegInf, Fin(0.0)));
  }

  lemma {:induction false} OneThenEmpty(m: ExpLog, one: Partial, empty: Partial)
    requires m.exp(0.0) == 1.0 && m.log(1.0) == 0.0
    requires one == Partial(Fin(0.0), Fin(1.0)) && empty == Partial(NegInf, Fin(0.0))
    ensures var a := MergeLoop(m, [one, empty]); FinalOut(a) == Fin(1.0) && FinalLse(m, a) == Fin(0.0)
  {
    MergeOfTwo(m, one, empty);
    KeyThenNothing(m, MergeStep(m, START, one), MergeLoop(m, [one, empty]));
  }
}
