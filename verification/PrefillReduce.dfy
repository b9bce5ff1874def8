/** The two-pass prefill reduction (aiter/mla.py): maximum, then sum of exponentials, then the
    scaled accumulation, for one output lane; and the tensor form kept beside it as a reference. */
module PrefillReduce {
  import opened ExtendedReals
  import opened SplitKvMerge

  function CleanLse(lse: Float): Float {
    if lse.NaN? then NegInf else lse
  }

  function CleanValue(v: Float): Float {
    if v.NaN? then Fin(0.0) else v
  }

  function MaxLse(parts: seq<Partial>): Float {
    if parts == [] then NegInf
    else Max(MaxLse(parts[..|parts| - 1]), CleanLse(parts[|parts| - 1].lse))
  }

  /** Left to right, as the accumulators of the kernel do. */
  function Total(xs: seq<Float>): Float {
    if xs == [] then Fin(0.0) else Add(Total(xs[..|xs| - 1]), xs[|xs| - 1])
  }

  function Shares(m: ExpLog, parts: seq<Partial>, max: Float): (r: seq<Float>)
    ensures |r| == |parts|
  {
    seq(|parts|, i requires 0 <= i < |parts| => Exp(m, Sub(CleanLse(parts[i].lse), max)))
  }

  function PrefillLse(m: ExpLog, parts: seq<Partial>): Float {
    Add(MaxLse(parts), Log(m, Total(Shares(m, parts, MaxLse(parts)))))
  }

  function ScaledValues(m: ExpLog, parts: seq<Partial>, lse: Float): (r: seq<Float>)
    ensures |r| == |parts|
  {
    seq(|parts|, i requires 0 <= i < |parts| =>
                   Mul(Exp(m, Sub(CleanLse(parts[i].lse), lse)), CleanValue(parts[i].value)))
  }

  function TwoPass(m: ExpLog, parts: seq<Partial>): Float {
    Total(ScaledValues(m, parts, PrefillLse(m, parts)))
  }

  // ---------------------------------------------------------------------------
  // The exact value
  // ---------------------------------------------------------------------------

  ghost predicate AnyNumber(parts: seq<Partial>) {
    exists i :: 0 <= i < |parts| && parts[i].lse.Fin?
  }

  ghost predicate NoPlusInf(parts: seq<Partial>) {
    forall i :: 0 <= i < |parts| ==> !parts[i].lse.PosInf?
  }

  /** Every value is a number or NaN; a NaN value counts as zero. */
  ghost predicate TameValues(parts: seq<Partial>) {
    forall i :: 0 <= i < |parts| ==> parts[i].value.Fin? || parts[i].value.NaN?
  }

  lemma {:induction false} MaxLseIsNumberExactlyWhen(parts: seq<Partial>)
    ensures !MaxLse(parts).NaN?
    ensures MaxLse(parts).PosInf? <==> !NoPlusInf(parts)
    ensures MaxLse(parts).Fin? <==> AnyNumber(parts) && NoPlusInf(parts)
  {
    if parts != [] {
      var n := |parts| - 1;
      var front := parts[..n];
      MaxLseIsNumberExactlyWhen(front);
      assert forall i :: 0 <= i < n ==> parts[i] == front[i];
    }
  }

  /** exp(lse - max) as a real: zero for NaN and minus infinity. */
  lemma {:induction false} ExpTerm(m: ExpLog, lse: Float, max: real) returns (term: real)
    requires m.Valid() && !lse.PosInf?
    ensures Exp(m, Sub(CleanLse(lse), Fin(max))) == Fin(term)
    ensures term * m.exp(max) == Weight(m, lse)
    ensures term >= 0.0 && (lse.Fin? ==> term > 0.0)
  {
    if lse.Fin? {
      term := m.exp(lse.r - max);
      assert Sub(lse, Fin(max)) == Fin(lse.r - max);
      ShareOfWeight(m, lse.r, max, 0.0);
    } else {
      term := 0.0;
    }
  }

  lemma {:induction false} AddShare(before: Float, share: Float, term: real, e: real, w: real, w': real)
    requires before.Fin? && before.r * e == w
    requires share == Fin(term) && term * e == w'
    ensures Add(before, share) == Fin(before.r + term)
    ensures (before.r + term) * e == w + w'
  {
  }

  /** One more share on a sum that already matches the weight of the front. */
  lemma {:induction false} ShareStep(m: ExpLog, before: Float, lse: Float, max: real, w: real) returns (sum: real)
    requires m.Valid() && !lse.PosInf? && before.Fin? && before.r * m.exp(max) == w && before.r >= 0.0
    ensures Add(before, Exp(m, Sub(CleanLse(lse), Fin(max)))) == Fin(sum)
    ensures sum * m.exp(max) == w + Weight(m, lse)
    ensures sum >= before.r && (lse.Fin? ==> sum > before.r)
  {
    var term := ExpTerm(m, lse, max);
    AddShare(before, Fin(term), term, m.exp(max), w, Weight(m, lse));
    sum := before.r + term;
  }

  lemma {:induction false} FrontOrLast(parts: seq<Partial>, front: seq<Partial>, last: Partial)
    requires parts == front + [last]
    ensures NoPlusInf(parts) <==> NoPlusInf(front) && !last.lse.PosInf?
    ensures TameValues(parts) <==> TameValues(front) && (last.value.Fin? || last.value.NaN?)
    ensures AnyNumber(parts) <==> AnyNumber(front) || last.lse.Fin?
  {
    assert forall i :: 0 <= i < |front| ==> parts[i] == front[i];
    assert parts[|front|] == last;
  }

  /** The shares of the parts sum to a real number that scales back to w. */
  ghost predicate SharesMatch(m: ExpLog, parts: seq<Partial>, max: real, total: Float) {
    total.Fin? && total.r * m.exp(max) == WeightSum(m, parts) && total.r >= 0.0 && (AnyNumber(parts) ==> total.r > 0.0)
  }

  lemma {:induction false} SharesMatchOn(m: ExpLog, parts: seq<Partial>, max: real, before: Float, total: Float)
    requires m.Valid() && parts != [] && NoPlusInf(parts) && SharesMatch(m, parts[..|parts| - 1], max, before)
    requires total == Add(before, Exp(m, Sub(CleanLse(parts[|parts| - 1].lse), Fin(max))))
    ensures SharesMatch(m, parts, max, total)
  {
    var front, last := parts[..|parts| - 1], parts[|parts| - 1];
    FrontOrLast(parts, front, last);
    UnfoldWeights(m, parts);
    var sum := ShareStep(m, before, last.lse, max, WeightSum(m, front));
    SumMatches(m, parts, front, last.lse, max, before, sum);
  }

  lemma {:induction false} SumMatches(m: ExpLog, parts: seq<Partial>, front: seq<Partial>, lse: Float, max: real,
                                      before: Float, sum: real)
    requires SharesMatch(m, front, max, before) && sum >= before.r && (lse.Fin? ==> sum > before.r)
    requires sum * m.exp(max) == WeightSum(m, parts) && (AnyNumber(parts) <==> AnyNumber(front) || lse.Fin?)
    ensures SharesMatch(m, parts, max, Fin(sum))
  {
  }

  lemma {:induction false} NoSharesMatch(m: ExpLog, parts: seq<Partial>, max: real, total: Float)
    requires parts == [] && total == Fin(0.0)
    ensures SharesMatch(m, parts, max, total)
  {
  }

  /** With a maximum that is a number, the sum of exponentials scaled back is the total weight. */
  lemma {:induction false} SharesSumToTheWeight(m: ExpLog, parts: seq<Partial>, max: real, total: Float)
    requires m.Valid() && NoPlusInf(parts) && total == Total(Shares(m, parts, Fin(max)))
    ensures SharesMatch(m, parts, max, total)
  {
    if parts == [] {
      NoSharesMatch(m, parts, max, total);
    } else {
      var front := parts[..|parts| - 1];
      FrontOrLast(parts, front, parts[|parts| - 1]);
      var before := UnfoldShares(m, parts, max, total);
      SharesSumToTheWeight(m, front, max, before);
      SharesMatchOn(m, parts, max, before, total);
    }
  }

  lemma {:induction false} UnfoldShares(m: ExpLog, parts: seq<Partial>, max: real, total: Float) returns (before: Float)
    requires parts != [] && total == Total(Shares(m, parts, Fin(max)))
    ensures before == Total(Shares(m, parts[..|parts| - 1], Fin(max)))
    ensures total == Add(before, Exp(m, Sub(CleanLse(parts[|parts| - 1].lse), Fin(max))))
  {
    var shares := Shares(m, parts, Fin(max));
    assert shares[..|parts| - 1] == Shares(m, parts[..|parts| - 1], Fin(max));
    before := Total(shares[..|parts| - 1]);
  }

  lemma {:induction false} ScaledTerm(m: ExpLog, p: Partial, lse: real) returns (term: real)
    requires m.Valid() && !p.lse.PosInf? && (p.value.Fin? || p.value.NaN?)
    ensures Mul(Exp(m, Sub(CleanLse(p.lse), Fin(lse))), CleanValue(p.value)) == Fin(term)
    ensures term * m.exp(lse) == WeightedValue(m, p)
  {
    var share := ExpTerm(m, p.lse, lse);
    var v := CleanValue(p.value).r;
    term := share * v;
    assert term * m.exp(lse) == (share * m.exp(lse)) * v;
  }

  lemma {:induction false} UnfoldScaled(m: ExpLog, parts: seq<Partial>, lse: real, total: Float) returns (before: Float)
    requires parts != [] && total == Total(ScaledValues(m, parts, Fin(lse)))
    ensures before == Total(ScaledValues(m, parts[..|parts| - 1], Fin(lse)))
    ensures var p := parts[|parts| - 1];
            total == Add(before, Mul(Exp(m, Sub(CleanLse(p.lse), Fin(lse))), CleanValue(p.value)))
  {
    var scaled := ScaledValues(m, parts, Fin(lse));
    assert scaled[..|parts| - 1] == ScaledValues(m, parts[..|parts| - 1], Fin(lse));
    before := Total(scaled[..|parts| - 1]);
  }

  ghost predicate ScaledMatch(m: ExpLog, parts: seq<Partial>, lse: real, total: Float) {
    total.Fin? && total.r * m.exp(lse) == WeightedValues(m, parts)
  }

  lemma {:induction false} ScaledMatchOn(m: ExpLog, parts: seq<Partial>, lse: real, before: Float, total: Float)
    requires m.Valid() && parts != [] && NoPlusInf(parts) && TameValues(parts)
    requires ScaledMatch(m, parts[..|parts| - 1], lse, before)
    requires var p := parts[|parts| - 1];
             total == Add(before, Mul(Exp(m, Sub(CleanLse(p.lse), Fin(lse))), CleanValue(p.value)))
    ensures ScaledMatch(m, parts, lse, total)
  {
    var front, last := parts[..|parts| - 1], parts[|parts| - 1];
    FrontOrLast(parts, front, last);
    var term := ScaledTerm(m, last, lse);
    AddMatched(m, before, Fin(term), term, lse, WeightedValues(m, front), WeightedValue(m, last), total);
    UnfoldWeights(m, parts);
  }

  lemma {:induction false} AddMatched(m: ExpLog, before: Float, share: Float, term: real, lse: real, v: real,
                                      v': real, total: Float)
    requires before.Fin? && before.r * m.exp(lse) == v && share == Fin(term) && term * m.exp(lse) == v'
    requires total == Add(before, share)
    ensures total.Fin? && total.r * m.exp(lse) == v + v'
  {
    AddShare(before, share, term, m.exp(lse), v, v');
  }

  lemma {:induction false} NoScaledMatch(m: ExpLog, parts: seq<Partial>, lse: real, total: Float)
    requires parts == [] && total == Fin(0.0)
    ensures ScaledMatch(m, parts, lse, total)
  {
  }

  lemma {:induction false} ScaledValuesSumToTheNumerator(m: ExpLog, parts: seq<Partial>, lse: real, total: Float)
    requires m.Valid() && NoPlusInf(parts) && TameValues(parts) && total == Total(ScaledValues(m, parts, Fin(lse)))
    ensures ScaledMatch(m, parts, lse, total)
  {
    if parts == [] {
      NoScaledMatch(m, parts, lse, total);
    } else {
      var front := parts[..|parts| - 1];
      FrontOrLast(parts, front, parts[|parts| - 1]);
      var before := UnfoldScaled(m, parts, lse, total);
      ScaledValuesSumToTheNumerator(m, front, lse, before);
      ScaledMatchOn(m, parts, lse, before, total);
    }
  }

  lemma {:induction false} QuotientFromProduct(x: real, e: real, w: real, v: real)
    requires w > 0.0 && e == w && x * e == v
    ensures x == v / w
  {
  }

  /** The log-sum-exp of sums that match the weights. */
  lemma {:induction false} LseOfShares(m: ExpLog, max: real, sum: Float, w: real)
    requires m.Valid() && sum.Fin? && sum.r > 0.0 && sum.r * m.exp(max) == w
    ensures w > 0.0 && Add(Fin(max), Log(m, sum)) == Fin(m.log(w))
  {
    assert m.Positive(max);
    ProductPositive(sum.r, m.exp(max));
    UndoShift(m, max, sum.r, w);
  }

  lemma {:induction false} PrefillLseExact(m: ExpLog, parts: seq<Partial>, max: real)
    requires m.Valid() && AnyNumber(parts) && NoPlusInf(parts) && MaxLse(parts) == Fin(max)
    ensures WeightSum(m, parts) > 0.0
    ensures PrefillLse(m, parts) == Fin(m.log(WeightSum(m, parts)))
  {
    var sum := Total(Shares(m, parts, Fin(max)));
    SharesSumToTheWeight(m, parts, max, sum);
    LseOfShares(m, max, sum, WeightSum(m, parts));
  }

  /** Whenever some split has a number and none is plus infinity, the two passes compute the average
      weighted by exp(lse); NaN and minus infinity weigh nothing. */
  lemma {:induction false} TwoPassExact(m: ExpLog, parts: seq<Partial>)
    requires m.Valid() && AnyNumber(parts) && NoPlusInf(parts) && TameValues(parts)
    ensures WeightSum(m, parts) > 0.0
    ensures PrefillLse(m, parts) == Fin(m.log(WeightSum(m, parts)))
    ensures TwoPass(m, parts) == Fin(WeightedValues(m, parts) / WeightSum(m, parts))
  {
    MaxLseIsNumberExactlyWhen(parts);
    PrefillLseExact(m, parts, MaxLse(parts).r);
    var w := WeightSum(m, parts);
    TwoPassOfLse(m, parts, m.log(w), w, TwoPass(m, parts));
  }

  lemma {:induction false} TwoPassOfLse(m: ExpLog, parts: seq<Partial>, lse: real, w: real, total: Float)
    requires m.Valid() && NoPlusInf(parts) && TameValues(parts) && w > 0.0 && lse == m.log(w)
    requires total == Total(ScaledValues(m, parts, Fin(lse)))
    ensures total == Fin(WeightedValues(m, parts) / w)
  {
    ScaledValuesSumToTheNumerator(m, parts, lse, total);
    QuotientOfMatch(m, parts, lse, w, total);
  }

  lemma {:induction false} QuotientOfMatch(m: ExpLog, parts: seq<Partial>, lse: real, w: real, total: Float)
    requires m.Valid() && w > 0.0 && lse == m.log(w) && ScaledMatch(m, parts, lse, total)
    ensures total == Fin(WeightedValues(m, parts) / w)
  {
    LogOfExpLog(m, w);
    QuotientFromProduct(total.r, m.exp(lse), w, WeightedValues(m, parts));
  }

  /** The one-pass online merge and the two-pass reduction give the same output and log-sum-exp
      whenever the one-pass merge can be trusted. */
  lemma {:induction false} OnePassEqualsTwoPass(m: ExpLog, parts: seq<Partial>)
    requires m.Valid() && Mergeable(parts) && FirstIsNumber(parts)
    ensures TwoPass(m, parts) == FinalOut(MergeLoop(m, parts))
    ensures PrefillLse(m, parts) == FinalLse(m, MergeLoop(m, parts))
  {
    assert parts[0].lse.Fin?;
    forall i | 0 <= i < |parts|
      ensures !parts[i].lse.PosInf? && parts[i].value.Fin?
    {
      assert parts[i] in parts;
    }
    TwoPassExact(m, parts);
    MergeExact(m, parts);
  }

  // ---------------------------------------------------------------------------
  // The remaining inputs
  // ---------------------------------------------------------------------------

  lemma {:induction false} TotalPoisoned(xs: seq<Float>, k: nat)
    requires k < |xs| && xs[k].NaN?
    ensures Total(xs).NaN?
  {
    var n := |xs| - 1;
    if k < n {
      TotalPoisoned(xs[..n], k);
    }
  }

  lemma {:induction false} MaxIsPoison(m: ExpLog, parts: seq<Partial>) returns (k: nat)
    requires parts != [] && !MaxLse(parts).Fin?
    ensures k < |parts| && CleanLse(parts[k].lse) == MaxLse(parts)
    ensures MaxLse(parts) == NegInf || MaxLse(parts) == PosInf
  {
    MaxLseIsNumberExactlyWhen(parts);
    if MaxLse(parts).PosInf? {
      k :| 0 <= k < |parts| && parts[k].lse.PosInf?;
    } else {
      k := 0;
      assert !AnyNumber(parts) && NoPlusInf(parts);
    }
  }

  /** An infinite value poisons the sum when its split weighs nothing, for zero times infinity is NaN. */
  ghost predicate Poisons(p: Partial) {
    (p.lse.NaN? || p.lse.NegInf?) && (p.value.PosInf? || p.value.NegInf?)
  }

  /** Two numbered splits with infinities of either sign. */
  ghost predicate Opposed(parts: seq<Partial>) {
    && (exists i :: 0 <= i < |parts| && parts[i].lse.Fin? && parts[i].value.PosInf?)
    && (exists i :: 0 <= i < |parts| && parts[i].lse.Fin? && parts[i].value.NegInf?)
  }

  /** What spoils a nonempty reduction: no log-sum-exp that is a number, one that is plus infinity, an infinite value
      behind a split that weighs nothing, or infinities of either sign. */
  ghost predicate Spoiled(parts: seq<Partial>) {
    || !AnyNumber(parts) || !NoPlusInf(parts) || Opposed(parts)
    || exists i :: 0 <= i < |parts| && Poisons(parts[i])
  }

  /** A sum is NaN exactly if it has a NaN or infinities of either sign. */
  lemma {:induction false} TotalIsNaNExactlyWhen(xs: seq<Float>)
    ensures Total(xs).NaN? <==> NaN in xs || (PosInf in xs && NegInf in xs)
    ensures !Total(xs).NaN? ==> (Total(xs).PosInf? <==> PosInf in xs) && (Total(xs).NegInf? <==> NegInf in xs)
  {
    if xs != [] {
      var n := |xs| - 1;
      TotalIsNaNExactlyWhen(xs[..n]);
      assert xs == xs[..n] + [xs[n]];
    }
  }

  /** A product with a nonnegative number keeps the kind, but zero times infinity is NaN. */
  lemma {:induction false} KindOfProduct(share: real, v: Float)
    requires share >= 0.0
    ensures var x := Mul(Fin(share), CleanValue(v));
            && (x.NaN? <==> share == 0.0 && (v.PosInf? || v.NegInf?))
            && (x.PosInf? <==> share > 0.0 && v.PosInf?) && (x.NegInf? <==> share > 0.0 && v.NegInf?)
  {
  }

  /** What one split adds to the sum once the log-sum-exp of the row is a number. */
  lemma {:induction false} ScaledKind(m: ExpLog, p: Partial, lse: real)
    requires m.Valid() && !p.lse.PosInf?
    ensures var x := Mul(Exp(m, Sub(CleanLse(p.lse), Fin(lse))), CleanValue(p.value));
            && (x.NaN? <==> Poisons(p)) && (x.PosInf? <==> p.lse.Fin? && p.value.PosInf?)
            && (x.NegInf? <==> p.lse.Fin? && p.value.NegInf?)
  {
    if p.lse.Fin? {
      assert m.Positive(p.lse.r - lse);
      assert Sub(p.lse, Fin(lse)) == Fin(p.lse.r - lse);
      KindOfProduct(m.exp(p.lse.r - lse), p.value);
    } else {
      assert Exp(m, Sub(CleanLse(p.lse), Fin(lse))) == Fin(0.0);
      KindOfProduct(0.0, p.value);
    }
  }

  lemma {:induction false} ScaledKinds(m: ExpLog, parts: seq<Partial>, lse: real)
    requires m.Valid() && NoPlusInf(parts)
    ensures var xs := ScaledValues(m, parts, Fin(lse));
            && (NaN in xs <==> exists i :: 0 <= i < |parts| && Poisons(parts[i]))
            && (PosInf in xs <==> exists i :: 0 <= i < |parts| && parts[i].lse.Fin? && parts[i].value.PosInf?)
            && (NegInf in xs <==> exists i :: 0 <= i < |parts| && parts[i].lse.Fin? && parts[i].value.NegInf?)
  {
    var xs := ScaledValues(m, parts, Fin(lse));
    forall i | 0 <= i < |parts|
      ensures (xs[i].NaN? <==> Poisons(parts[i])) && (xs[i].PosInf? <==> parts[i].lse.Fin? && parts[i].value.PosInf?)
      ensures xs[i].NegInf? <==> parts[i].lse.Fin? && parts[i].value.NegInf?
    {
      ScaledKind(m, parts[i], lse);
    }
  }

  /** Without a maximum that is a number everything is NaN. */
  lemma {:induction false} NoMaximumPoisons(m: ExpLog, parts: seq<Partial>)
    requires parts != [] && !(AnyNumber(parts) && NoPlusInf(parts))
    ensures TwoPass(m, parts).NaN?
  {
    MaxLseIsNumberExactlyWhen(parts);
    var k := MaxIsPoison(m, parts);
    TotalPoisoned(Shares(m, parts, MaxLse(parts)), k);
    TotalPoisoned(ScaledValues(m, parts, PrefillLse(m, parts)), k);
  }

  /** For every list of splits whatever: when the two passes give NaN. */
  lemma {:induction false} TwoPassIsNaNExactlyWhen(m: ExpLog, parts: seq<Partial>)
    requires m.Valid()
    ensures TwoPass(m, parts).NaN? <==> parts != [] && Spoiled(parts)
  {
    if AnyNumber(parts) && NoPlusInf(parts) {
      MaxLseIsNumberExactlyWhen(parts);
      PrefillLseExact(m, parts, MaxLse(parts).r);
      var lse := m.log(WeightSum(m, parts));
      ScaledKinds(m, parts, lse);
      TotalIsNaNExactlyWhen(ScaledValues(m, parts, Fin(lse)));
    } else if parts != [] {
      NoMaximumPoisons(m, parts);
    }
  }

  /** An infinite value never leaves a number. */
  lemma {:induction false} InfiniteValueSpreads(m: ExpLog, parts: seq<Partial>)
    requires m.Valid() && AnyNumber(parts) && NoPlusInf(parts) && !TameValues(parts)
    ensures !TwoPass(m, parts).Fin?
  {
    MaxLseIsNumberExactlyWhen(parts);
    PrefillLseExact(m, parts, MaxLse(parts).r);
    var lse := m.log(WeightSum(m, parts));
    ScaledKinds(m, parts, lse);
    TotalIsNaNExactlyWhen(ScaledValues(m, parts, Fin(lse)));
    var i :| 0 <= i < |parts| && (parts[i].value.PosInf? || parts[i].value.NegInf?);
    assert parts[i].lse.Fin? || Poisons(parts[i]);
  }

  /** For every nonempty list of splits: the two passes give a number if and only if some split has one, none is plus
      infinity and no value is infinite. Without infinite values the alternative is NaN. */
  lemma {:induction false} TwoPassIsNumberExactlyWhen(m: ExpLog, parts: seq<Partial>)
    requires m.Valid() && parts != []
    ensures TwoPass(m, parts).Fin? <==> AnyNumber(parts) && NoPlusInf(parts) && TameValues(parts)
    ensures TameValues(parts) ==> TwoPass(m, parts).Fin? || TwoPass(m, parts).NaN?
  {
    if !(AnyNumber(parts) && NoPlusInf(parts)) {
      NoMaximumPoisons(m, parts);
    } else if TameValues(parts) {
      TwoPassExact(m, parts);
    } else {
      InfiniteValueSpreads(m, parts);
    }
  }

  function DropNaN(parts: seq<Partial>): seq<Partial> {
    if parts == [] then []
    else if parts[|parts| - 1].lse.NaN? then DropNaN(parts[..|parts| - 1])
    else DropNaN(parts[..|parts| - 1]) + [parts[|parts| - 1]]
  }

  /** Behind every NaN log-sum-exp lies a number, or NaN, which is read as zero. */
  ghost predicate TameBehindNaN(parts: seq<Partial>) {
    forall i | 0 <= i < |parts| && parts[i].lse.NaN? :: !Poisons(parts[i])
  }

  lemma {:induction false} DroppingKeepsTheKinds(parts: seq<Partial>)
    ensures MaxLse(DropNaN(parts)) == MaxLse(parts)
    ensures AnyNumber(DropNaN(parts)) <==> AnyNumber(parts)
    ensures NoPlusInf(DropNaN(parts)) <==> NoPlusInf(parts)
  {
    if parts != [] {
      var front, p := parts[..|parts| - 1], parts[|parts| - 1];
      DroppingKeepsTheKinds(front);
      FrontOrLast(parts, front, p);
      if !p.lse.NaN? {
        FrontOrLast(DropNaN(parts), DropNaN(front), p);
        assert DropNaN(parts)[..|DropNaN(front)|] == DropNaN(front);
      }
    }
  }

  lemma {:induction false} AddZero(x: Float)
    ensures Add(x, Fin(0.0)) == x
  {
  }

  lemma {:induction false} DropLast(parts: seq<Partial>)
    requires parts != []
    ensures var front, p := parts[..|parts| - 1], parts[|parts| - 1];
            && (p.lse.NaN? ==> DropNaN(parts) == DropNaN(front))
            && (!p.lse.NaN? ==> DropNaN(parts) == DropNaN(front) + [p]
                                && DropNaN(parts)[..|DropNaN(parts)| - 1] == DropNaN(front))
  {
  }

  /** The share of a NaN log-sum-exp is zero. */
  lemma {:induction false} NaNShare(m: ExpLog, lse: Float, max: real, before: Float)
    requires lse.NaN?
    ensures Add(before, Exp(m, Sub(CleanLse(lse), Fin(max)))) == before
  {
    assert Exp(m, Sub(CleanLse(lse), Fin(max))) == Fin(0.0);
    AddZero(before);
  }

  lemma {:induction false} SharesAfter(m: ExpLog, front: seq<Partial>, p: Partial, parts: seq<Partial>, max: real)
    requires parts == front + [p]
    ensures Total(Shares(m, parts, Fin(max)))
            == Add(Total(Shares(m, front, Fin(max))), Exp(m, Sub(CleanLse(p.lse), Fin(max))))
  {
    assert parts[..|parts| - 1] == front;
    var before := UnfoldShares(m, parts, max, Total(Shares(m, parts, Fin(max))));
  }

  lemma {:induction false} DroppingKeepsTheShares(m: ExpLog, parts: seq<Partial>, max: real)
    ensures Total(Shares(m, DropNaN(parts), Fin(max))) == Total(Shares(m, parts, Fin(max)))
  {
    if parts != [] {
      var front, p := parts[..|parts| - 1], parts[|parts| - 1];
      DroppingKeepsTheShares(m, front, max);
      DropLast(parts);
      SharesAfter(m, front, p, parts, max);
      if p.lse.NaN? {
        NaNShare(m, p.lse, max, Total(Shares(m, front, Fin(max))));
      } else {
        SharesAfter(m, DropNaN(front), p, DropNaN(parts), max);
      }
    }
  }

  lemma {:induction false} NaNAddsNothing(m: ExpLog, p: Partial, lse: real, before: Float)
    requires p.lse.NaN? && !Poisons(p)
    ensures Add(before, Mul(Exp(m, Sub(CleanLse(p.lse), Fin(lse))), CleanValue(p.value))) == before
  {
    assert Exp(m, Sub(CleanLse(p.lse), Fin(lse))) == Fin(0.0);
    assert CleanValue(p.value).Fin? && Mul(Fin(0.0), CleanValue(p.value)) == Fin(0.0);
    AddZero(before);
  }

  lemma {:induction false} ScaledAfter(m: ExpLog, front: seq<Partial>, p: Partial, parts: seq<Partial>, lse: real)
    requires parts == front + [p]
    ensures Total(ScaledValues(m, parts, Fin(lse)))
            == Add(Total(ScaledValues(m, front, Fin(lse))),
                   Mul(Exp(m, Sub(CleanLse(p.lse), Fin(lse))), CleanValue(p.value)))
  {
    assert parts[..|parts| - 1] == front;
    var before := UnfoldScaled(m, parts, lse, Total(ScaledValues(m, parts, Fin(lse))));
  }

  lemma {:induction false} DroppingKeepsTheValues(m: ExpLog, parts: seq<Partial>, lse: real)
    requires TameBehindNaN(parts)
    ensures Total(ScaledValues(m, DropNaN(parts), Fin(lse))) == Total(ScaledValues(m, parts, Fin(lse)))
  {
    if parts != [] {
      var n := |parts| - 1;
      var front, p := parts[..n], parts[n];
      assert forall i | 0 <= i < n :: front[i] == parts[i];
      DroppingKeepsTheValues(m, front, lse);
      DropLast(parts);
      ScaledAfter(m, front, p, parts, lse);
      if p.lse.NaN? {
        NaNAddsNothing(m, p, lse, Total(ScaledValues(m, front, Fin(lse))));
      } else {
        ScaledAfter(m, DropNaN(front), p, DropNaN(parts), lse);
      }
    }
  }

  /** With a number among the log-sum-exps and none plus infinity. */
  lemma {:induction false} DroppingKeepsTheResult(m: ExpLog, parts: seq<Partial>)
    requires m.Valid() && AnyNumber(parts) && NoPlusInf(parts) && TameBehindNaN(parts)
    ensures TwoPass(m, DropNaN(parts)) == TwoPass(m, parts)
  {
    MaxLseIsNumberExactlyWhen(parts);
    DroppingKeepsTheKinds(parts);
    DroppingKeepsTheShares(m, parts, MaxLse(parts).r);
    PrefillLseExact(m, parts, MaxLse(parts).r);
    DroppingKeepsTheValues(m, parts, m.log(WeightSum(m, parts)));
  }

  /** For every list of splits: exactly when those whose log-sum-exp is NaN contribute as if they were absent. Either
      there is no split at all; or some split remains without them, and what lies behind them is no infinite value,
      unless the splits that remain give NaN anyway. */
  lemma {:induction false} NaNSplitsAreAbsentExactlyWhen(m: ExpLog, parts: seq<Partial>)
    requires m.Valid()
    ensures TwoPass(m, parts) == TwoPass(m, DropNaN(parts))
            <==> parts == [] || (DropNaN(parts) != [] && (TameBehindNaN(parts) || Spoiled(DropNaN(parts))))
  {
    TwoPassIsNaNExactlyWhen(m, parts);
    TwoPassIsNaNExactlyWhen(m, DropNaN(parts));
    DroppingKeepsTheKinds(parts);
    if AnyNumber(parts) && NoPlusInf(parts) {
      if TameBehindNaN(parts) {
        DroppingKeepsTheResult(m, parts);
      }
    } else if parts != [] && DropNaN(parts) == [] {
      assert TwoPass(m, DropNaN(parts)) == Fin(0.0);
    }
    if parts != [] && !(TwoPass(m, parts).NaN?) {
      assert AnyNumber(DropNaN(parts));
    }
    SpoiledAfterDropping(parts);
  }

  lemma {:induction false} SpoiledAfterDropping(parts: seq<Partial>)
    ensures Spoiled(DropNaN(parts)) ==> Spoiled(parts)
  {
    DroppingKeepsTheKinds(parts);
    forall q | q in DropNaN(parts)
      ensures q in parts
    {
      DroppedFrom(parts, q);
    }
    assert forall i | 0 <= i < |DropNaN(parts)| :: DropNaN(parts)[i] in DropNaN(parts);
  }

  lemma {:induction false} DroppedFrom(parts: seq<Partial>, q: Partial)
    ensures q in DropNaN(parts) <==> q in parts && !q.lse.NaN?
  {
    if parts != [] {
      DroppedFrom(parts[..|parts| - 1], q);
      assert parts == parts[..|parts| - 1] + [parts[|parts| - 1]];
    }
  }

  /** The same where every value is a number or NaN: they are absent unless they are all there is. */
  lemma {:induction false} TameNaNSplitsAreAbsentExactlyWhen(m: ExpLog, parts: seq<Partial>)
    requires m.Valid() && TameValues(parts)
    ensures TwoPass(m, parts) == TwoPass(m, DropNaN(parts)) <==> parts == [] || DropNaN(parts) != []
  {
    NaNSplitsAreAbsentExactlyWhen(m, parts);
  }

  lemma {:induction false} TwoPassOfOne(m: ExpLog, p: Partial, l: real, v: real)
    requires m.Valid() && p == Partial(Fin(l), Fin(v))
    ensures TwoPass(m, [p]) == Fin(v)
  {
    assert [p][0].lse.Fin?;
    TwoPassExact(m, [p]);
    QuotientOfOne(m, [p], l, v);
  }

  /** An infinite value behind a NaN log-sum-exp reaches the output: NaN instead of the one it would be without it. */
  lemma {:induction false} InfiniteValueBehindNaN(m: ExpLog, one: Partial, bad: Partial)
    requires m.Valid() && one == Partial(Fin(0.0), Fin(1.0)) && bad == Partial(NaN, PosInf)
    ensures TwoPass(m, [one, bad]).NaN? && DropNaN([one, bad]) == [one] && TwoPass(m, [one]) == Fin(1.0)
  {
    assert Poisons([one, bad][1]);
    TwoPassIsNaNExactlyWhen(m, [one, bad]);
    assert [one, bad][..1] == [one] && [one][..0] == [];
    DropLast([one, bad]);
    DropLast([one]);
    TwoPassOfOne(m, one, 0.0, 1.0);
  }

  // ---------------------------------------------------------------------------
  // The tensor reference kept beside the kernel
  // ---------------------------------------------------------------------------

  /** Here a NaN log-sum-exp is masked out of the sum instead of entering it as minus infinity. */
  function MaskedShares(m: ExpLog, parts: seq<Partial>, max: Float): (r: seq<Float>)
    ensures |r| == |parts|
  {
    seq(|parts|, i requires 0 <= i < |parts| =>
                   if parts[i].lse.NaN? then Fin(0.0) else Exp(m, Sub(parts[i].lse, max)))
  }

  function ReferenceLse(m: ExpLog, parts: seq<Partial>): Float {
    Add(MaxLse(parts), Log(m, Total(MaskedShares(m, parts, MaxLse(parts)))))
  }

  function Reference(m: ExpLog, parts: seq<Partial>): Float {
    Total(ScaledValues(m, parts, ReferenceLse(m, parts)))
  }

  lemma {:induction false} TotalOfZeros(xs: seq<Float>)
    requires forall i :: 0 <= i < |xs| ==> xs[i] == Fin(0.0)
    ensures Total(xs) == Fin(0.0)
  {
    if xs != [] {
      TotalOfZeros(xs[..|xs| - 1]);
    }
  }

  /** The kernel and its tensor reference agree on every input, special values included. */
  lemma {:induction false} KernelEqualsReference(m: ExpLog, parts: seq<Partial>)
    ensures TwoPass(m, parts) == Reference(m, parts)
  {
    var max := MaxLse(parts);
    if max.Fin? {
      assert MaskedShares(m, parts, max) == Shares(m, parts, max);
    } else if parts != [] {
      var k := MaxIsPoison(m, parts);
      TotalPoisoned(Shares(m, parts, max), k);
      TotalPoisoned(ScaledValues(m, parts, PrefillLse(m, parts)), k);
      ReferencePoisoned(m, parts, k);
    }
  }

  lemma {:induction false} ReferencePoisoned(m: ExpLog, parts: seq<Partial>, k: nat)
    requires k < |parts| && CleanLse(parts[k].lse) == MaxLse(parts) && (MaxLse(parts).NegInf? || MaxLse(parts).PosInf?)
    ensures Reference(m, parts).NaN?
  {
    var max := MaxLse(parts);
    var masked := MaskedShares(m, parts, max);
    MaxLseIsNumberExactlyWhen(parts);
    if forall i :: 0 <= i < |parts| ==> parts[i].lse.NaN? {
      TotalOfZeros(masked);
    } else if max.PosInf? {
      var j :| 0 <= j < |parts| && parts[j].lse.PosInf?;
      TotalPoisoned(masked, j);
    } else {
      var j :| 0 <= j < |parts| && !parts[j].lse.NaN?;
      assert !AnyNumber(parts);
      TotalPoisoned(masked, j);
    }
    TotalPoisoned(ScaledValues(m, parts, ReferenceLse(m, parts)), k);
  }
}
