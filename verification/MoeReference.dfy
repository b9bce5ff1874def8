/** The reference mixture of experts (aiter/fused_moe.py, torch_moe) over exact reals: an expert loop that
    fills the routes of each local expert, then the weighted sum over a token's routes. An expert mask keeps
    one rank's experts and renumbers them. */
module MoeReference {
  import opened Numbers
  import opened Sums

  /** The output coordinate d of one expert on one token. */
  type Expert<!W, !X> = (W, X, nat) -> real

  // ---------------------------------------------------------------------------
  // The local numbering
  // ---------------------------------------------------------------------------

  /** The local id of expert e: the running count up to and with e, minus one; minus one when masked out. */
  function Hash(mask: seq<nat>, e: nat): int
    requires e < |mask|
  {
    if mask[e] == 0 then -1 else Sum(mask[..e + 1]) - 1
  }

  ghost predicate ZeroOne(mask: seq<nat>) {
    forall e :: 0 <= e < |mask| ==> mask[e] <= 1
  }

  /** The weights a rank holds: those of its experts, in order. */
  function Local<W>(mask: seq<nat>, w: seq<W>): seq<W>
    requires |mask| == |w|
  {
    if mask == [] then []
    else
      var n := |mask| - 1;
      Local(mask[..n], w[..n]) + if mask[n] == 0 then [] else [w[n]]
  }

  /** The hash is built in place: a running count, then the masked experts are overwritten. */
  method LocalHash(mask: array<nat>) returns (hash: array<int>)
    ensures fresh(hash) && hash.Length == mask.Length
    ensures forall e :: 0 <= e < mask.Length ==> hash[e] == Hash(mask[..], e)
    ensures forall e :: 0 <= e < mask.Length && mask[e] == 0 ==> hash[e] == -1
  {
    hash := new int[mask.Length];
    var sum: int := 0;
    assert mask[..0] == [];
    for e := 0 to mask.Length
      invariant sum == Sum(mask[..e])
      invariant forall i :: 0 <= i < e ==> hash[i] == Sum(mask[..][..i + 1]) - 1
    {
      PrefixStep(mask[..], e);
      assert mask[..][..e] == mask[..e] && mask[..][..e + 1] == mask[..e + 1];
      sum := sum + mask[e];
      hash[e] := sum - 1;
    }
    for e := 0 to mask.Length
      invariant forall i :: 0 <= i < e ==> hash[i] == Hash(mask[..], i)
      invariant forall i :: e <= i < mask.Length ==> hash[i] == Sum(mask[..][..i + 1]) - 1
    {
      if mask[e] == 0 {
        hash[e] := -1;
      }
    }
  }

  lemma {:induction false} LocalSize<W>(mask: seq<nat>, w: seq<W>)
    requires |mask| == |w| && ZeroOne(mask)
    ensures |Local(mask, w)| == Sum(mask)
  {
    if mask != [] {
      var n := |mask| - 1;
      LocalSize(mask[..n], w[..n]);
    }
  }

  /** The renumbering is onto: every kept expert has a local id, and that slot holds its weights. */
  lemma {:induction false} HashFindsWeights<W>(mask: seq<nat>, w: seq<W>, e: nat)
    requires |mask| == |w| && ZeroOne(mask) && e < |mask| && mask[e] == 1
    ensures 0 <= Hash(mask, e) < |Local(mask, w)| && Local(mask, w)[Hash(mask, e)] == w[e]
  {
    var n := |mask| - 1;
    LocalSize(mask[..n], w[..n]);
    if e < n {
      HashFindsWeights(mask[..n], w[..n], e);
      assert mask[..n][..e + 1] == mask[..e + 1];
    } else {
      assert mask[..n + 1] == mask;
    }
  }

  /** The renumbering keeps the order, so no two kept experts share a local id. */
  lemma {:induction false} HashIncreases(mask: seq<nat>, i: nat, j: nat)
    requires ZeroOne(mask) && i < j < |mask| && mask[i] == 1 && mask[j] == 1
    ensures 0 <= Hash(mask, i) < Hash(mask, j)
  {
    PrefixBounds(mask, i);
    PrefixMonotone(mask, i + 1, j);
    PrefixStep(mask, i);
    PrefixStep(mask, j);
  }

  /** Every local id belongs to a kept expert. */
  lemma {:induction false} HashReachesAll(mask: seq<nat>, id: nat) returns (e: nat)
    requires ZeroOne(mask) && id < Sum(mask)
    ensures e < |mask| && mask[e] == 1 && Hash(mask, e) == id
  {
    var n := |mask| - 1;
    if id < Sum(mask[..n]) {
      e := HashReachesAll(mask[..n], id);
      assert mask[..n][..e + 1] == mask[..e + 1];
    } else {
      e := n;
      assert mask[..n + 1] == mask;
    }
  }

  // ---------------------------------------------------------------------------
  // The expert loop
  // ---------------------------------------------------------------------------

  /** One route: its expert's output, or zero when no local expert has that id. */
  function Routed<W, X>(f: Expert<W, X>, w: seq<W>, id: int, x: X, d: nat): real {
    if 0 <= id < |w| then f(w[id], x, d) else 0.0
  }

  /** The weighted sum over a token's routes. */
  function Combined<W, X>(f: Expert<W, X>, w: seq<W>, ids: seq<int>, weights: seq<real>, x: X, d: nat): real
    requires |ids| == |weights|
  {
    if ids == [] then 0.0
    else
      var n := |ids| - 1;
      Combined(f, w, ids[..n], weights[..n], x, d) + Routed(f, w, ids[n], x, d) * weights[n]
  }

  /** The sum of two lists of routes. */
  lemma {:induction false} CombinedOfBoth<W, X>(f: Expert<W, X>, w: seq<W>, ids: seq<int>, weights: seq<real>,
                                                ids': seq<int>, weights': seq<real>, x: X, d: nat)
    requires |ids| == |weights| && |ids'| == |weights'|
    ensures Combined(f, w, ids + ids', weights + weights', x, d)
         == Combined(f, w, ids, weights, x, d) + Combined(f, w, ids', weights', x, d)
  {
    if ids' == [] {
      assert ids + ids' == ids && weights + weights' == weights;
    } else {
      var n := |ids'| - 1;
      var all, allWeights := ids + ids', weights + weights';
      CombinedOfBoth(f, w, ids, weights, ids'[..n], weights'[..n], x, d);
      assert all[..|all| - 1] == ids + ids'[..n] && allWeights[..|all| - 1] == weights + weights'[..n];
    }
  }

  /** One route: its weight times the answer of the expert with that id, if this rank has one. */
  lemma {:induction false} CombinedOfOne<W, X>(f: Expert<W, X>, w: seq<W>, id: int, weight: real, x: X, d: nat)
    ensures Combined(f, w, [id], [weight], x, d) == if 0 <= id < |w| then weight * f(w[id], x, d) else 0.0
  {
    assert [id][..0] == [] && [weight][..0] == [];
    assert Combined(f, w, [id][..0], [weight][..0], x, d) == 0.0;
  }

  /** The route tensor after the experts below e have been written. */
  ghost predicate Filled<W, X>(out: array3<real>, f: Expert<W, X>, w: seq<W>, ids: seq<seq<int>>, x: seq<X>, e: nat)
    requires e <= |w| && out.Length0 == |ids| == |x|
    requires forall b :: 0 <= b < |ids| ==> |ids[b]| == out.Length1
    reads out
  {
    forall b, k, d :: 0 <= b < out.Length0 && 0 <= k < out.Length1 && 0 <= d < out.Length2 ==>
      out[b, k, d] == Routed(f, w[..e], ids[b][k], x[b], d)
  }

  /** Writes expert e's output to every route it has, and nothing else. */
  method FillExpert<W, X>(out: array3<real>, f: Expert<W, X>, w: seq<W>, ids: seq<seq<int>>, x: seq<X>, e: nat)
    requires e < |w| && out.Length0 == |ids| == |x|
    requires forall b :: 0 <= b < |ids| ==> |ids[b]| == out.Length1
    requires Filled(out, f, w, ids, x, e)
    modifies out
    ensures Filled(out, f, w, ids, x, e + 1)
  {
    for b := 0 to out.Length0
      invariant forall i, k, d :: 0 <= i < out.Length0 && 0 <= k < out.Length1 && 0 <= d < out.Length2 ==>
                  out[i, k, d] == Routed(f, w[..if i < b then e + 1 else e], ids[i][k], x[i], d)
    {
      for k := 0 to out.Length1
        invariant forall i, j, d :: 0 <= i < out.Length0 && 0 <= j < out.Length1 && 0 <= d < out.Length2 ==>
                    out[i, j, d] == Routed(f, w[..if i < b || (i == b && j < k) then e + 1 else e], ids[i][j], x[i], d)
      {
        if ids[b][k] == e {
          for d := 0 to out.Length2
            invariant forall i, j, c :: 0 <= i < out.Length0 && 0 <= j < out.Length1 && 0 <= c < out.Length2 ==>
                        out[i, j, c]
                        == Routed(f, w[..if i < b || (i == b && (j < k || (j == k && c < d))) then e + 1 else e],
                                  ids[i][j], x[i], c)
          {
            out[b, k, d] := f(w[e], x[b], d);
          }
        }
      }
    }
  }

  method TorchMoe<W, X>(f: Expert<W, X>, w: seq<W>, ids: seq<seq<int>>, weights: seq<seq<real>>, x: seq<X>, topk: nat,
                        width: nat)
    returns (y: array2<real>)
    requires |ids| == |weights| == |x|
    requires forall b :: 0 <= b < |ids| ==> |ids[b]| == topk && |weights[b]| == topk
    ensures y.Length0 == |x| && y.Length1 == width
    ensures forall b, d :: 0 <= b < |x| && 0 <= d < width ==> y[b, d] == Combined(f, w, ids[b], weights[b], x[b], d)
  {
    var out := new real[|x|, topk, width]((b, k, d) => 0.0);
    for e := 0 to |w|
      invariant Filled(out, f, w, ids, x, e)
    {
      FillExpert(out, f, w, ids, x, e);
    }
    y := CombineRoutes(out, f, w, ids, weights, x);
  }

  /** The weighted sums of all tokens. */
  method CombineRoutes<W, X>(out: array3<real>, ghost f: Expert<W, X>, ghost w: seq<W>, ghost ids: seq<seq<int>>,
                             weights: seq<seq<real>>, ghost x: seq<X>)
    returns (y: array2<real>)
    requires out.Length0 == |ids| == |weights| == |x|
    requires forall b :: 0 <= b < |ids| ==> |ids[b]| == out.Length1 && |weights[b]| == out.Length1
    requires Filled(out, f, w, ids, x, |w|)
    ensures fresh(y) && y.Length0 == |weights| && y.Length1 == out.Length2
    ensures forall b, d :: 0 <= b < |x| && 0 <= d < out.Length2 ==>
              y[b, d] == Combined(f, w, ids[b], weights[b], x[b], d)
  {
    var width := out.Length2;
    y := new real[|weights|, width]((b, d) => 0.0);
    for b := 0 to |weights|
      invariant Filled(out, f, w, ids, x, |w|)
      invariant forall i, d :: 0 <= i < b && 0 <= d < width ==> y[i, d] == Combined(f, w, ids[i], weights[i], x[i], d)
    {
      for d := 0 to width
        invariant Filled(out, f, w, ids, x, |w|)
        invariant forall i, c :: 0 <= i < b && 0 <= c < width ==> y[i, c] == Combined(f, w, ids[i], weights[i], x[i], c)
        invariant forall c :: 0 <= c < d ==> y[b, c] == Combined(f, w, ids[b], weights[b], x[b], c)
      {
        assert w[..|w|] == w;
        assert forall k :: 0 <= k < out.Length1 ==> out[b, k, d] == Routed(f, w, ids[b][k], x[b], d);
        y[b, d] := WeightedSum(out, f, w, ids[b], weights[b], x[b], b, d);
      }
    }
  }

  /** The sum over one token's routes. */
  method WeightedSum<W, X>(out: array3<real>, ghost f: Expert<W, X>, ghost w: seq<W>, ghost ids: seq<int>,
                           weights: seq<real>, ghost x: X, b: nat, d: nat) returns (sum: real)
    requires b < out.Length0 && d < out.Length2 && |ids| == |weights| == out.Length1
    requires forall k :: 0 <= k < out.Length1 ==> out[b, k, d] == Routed(f, w, ids[k], x, d)
    ensures sum == Combined(f, w, ids, weights, x, d)
  {
    sum := 0.0;
    for k := 0 to out.Length1
      invariant sum == Combined(f, w, ids[..k], weights[..k], x, d)
    {
      assert ids[..k + 1][..k] == ids[..k] && weights[..k + 1][..k] == weights[..k];
      sum := sum + out[b, k, d] * weights[k];
    }
    assert ids[..|ids|] == ids && weights[..|ids|] == weights;
  }

  // ---------------------------------------------------------------------------
  // Expert parallelism
  // ---------------------------------------------------------------------------

  function Hashed(mask: seq<nat>, ids: seq<nat>): (r: seq<int>)
    requires Within(ids, |mask|)
    ensures |r| == |ids| && forall k :: 0 <= k < |ids| ==> r[k] == Hash(mask, ids[k])
  {
    seq(|ids|, k requires 0 <= k < |ids| => Hash(mask, ids[k]))
  }

  /** The output of the rank with this mask, which holds its own experts' weights. */
  function RankOutput<W, X>(f: Expert<W, X>, w: seq<W>, mask: seq<nat>, ids: seq<nat>, weights: seq<real>, x: X,
                            d: nat): real
    requires |mask| == |w| && Within(ids, |w|) && |ids| == |weights|
  {
    Combined(f, Local(mask, w), Hashed(mask, ids), weights, x, d)
  }

  /** torch_moe on one rank: the ids are renumbered first. */
  method RankMoe<W, X>(f: Expert<W, X>, ghost w: seq<W>, local: seq<W>, mask: array<nat>, ids: seq<seq<nat>>,
                       weights: seq<seq<real>>, x: seq<X>, topk: nat, width: nat) returns (y: array2<real>)
    requires |ids| == |weights| == |x| && mask.Length == |w| && local == Local(mask[..], w)
    requires forall b :: 0 <= b < |ids| ==> |ids[b]| == topk && |weights[b]| == topk && Within(ids[b], |w|)
    ensures y.Length0 == |x| && y.Length1 == width
    ensures forall b, d :: 0 <= b < |x| && 0 <= d < width ==>
              y[b, d] == RankOutput(f, w, mask[..], ids[b], weights[b], x[b], d)
  {
    var hash := LocalHash(mask);
    var localIds: seq<seq<int>> := [];
    for b := 0 to |ids|
      invariant |localIds| == b && forall i :: 0 <= i < b ==> localIds[i] == Hashed(mask[..], ids[i])
    {
      localIds := localIds + [seq(topk, k requires 0 <= k < topk reads hash => hash[ids[b][k]])];
    }
    y := TorchMoe(f, local, localIds, weights, x, topk, width);
  }

  ghost predicate Masks(masks: seq<seq<nat>>, experts: nat) {
    forall r :: 0 <= r < |masks| ==> |masks[r]| == experts && ZeroOne(masks[r])
  }

  /** How many ranks keep expert e. */
  function Keepers(masks: seq<seq<nat>>, e: nat): nat
    requires forall r :: 0 <= r < |masks| ==> e < |masks[r]|
  {
    if masks == [] then 0 else Keepers(masks[..|masks| - 1], e) + masks[|masks| - 1][e]
  }

  /** The sum of all ranks' outputs. */
  function AllRanks<W, X>(f: Expert<W, X>, w: seq<W>, masks: seq<seq<nat>>, ids: seq<nat>, weights: seq<real>, x: X,
                          d: nat): real
    requires Masks(masks, |w|) && Within(ids, |w|) && |ids| == |weights|
  {
    if masks == [] then 0.0
    else
      var r := |masks| - 1;
      AllRanks(f, w, masks[..r], ids, weights, x, d) + RankOutput(f, w, masks[r], ids, weights, x, d)
  }

  /** A route's weighted output, counted k times. */
  function Counted<W, X>(f: Expert<W, X>, w: seq<W>, k: nat, e: nat, x: X, d: nat, weight: real): real
    requires e < |w|
  {
    k as real * (f(w[e], x, d) * weight)
  }

  /** The unmasked sum with every route scaled by the number of ranks that keep its expert. */
  function Scaled<W, X>(f: Expert<W, X>, w: seq<W>, masks: seq<seq<nat>>, ids: seq<nat>, weights: seq<real>, x: X,
                        d: nat): real
    requires Masks(masks, |w|) && Within(ids, |w|) && |ids| == |weights|
  {
    if ids == [] then 0.0
    else
      var n := |ids| - 1;
      Scaled(f, w, masks, ids[..n], weights[..n], x, d)
        + Counted(f, w, Keepers(masks, ids[n]), ids[n], x, d, weights[n])
  }

  lemma {:induction false} RouteOnRank<W, X>(f: Expert<W, X>, w: seq<W>, mask: seq<nat>, e: nat, x: X, d: nat)
    requires |mask| == |w| && ZeroOne(mask) && e < |w|
    ensures Routed(f, Local(mask, w), Hash(mask, e), x, d) == mask[e] as real * f(w[e], x, d)
  {
    if mask[e] == 1 {
      HashFindsWeights(mask, w, e);
    }
  }

  lemma {:induction false} CountedAdds<W, X>(f: Expert<W, X>, w: seq<W>, j: nat, k: nat, e: nat, x: X, d: nat,
                                             weight: real)
    requires e < |w|
    ensures Counted(f, w, j + k, e, x, d, weight)
            == Counted(f, w, j, e, x, d, weight) + Counted(f, w, k, e, x, d, weight)
  {
    var t := f(w[e], x, d) * weight;
    assert (j + k) as real * t == j as real * t + k as real * t;
  }

  lemma {:induction false} RankUnfolds<W, X>(f: Expert<W, X>, w: seq<W>, mask: seq<nat>, ids: seq<nat>,
                                             weights: seq<real>, x: X, d: nat)
    returns (t: real)
    requires |mask| == |w| && ZeroOne(mask) && Within(ids, |w|) && |ids| == |weights| && ids != []
    ensures t == Counted(f, w, mask[ids[|ids| - 1]], ids[|ids| - 1], x, d, weights[|ids| - 1])
    ensures RankOutput(f, w, mask, ids, weights, x, d)
            == RankOutput(f, w, mask, ids[..|ids| - 1], weights[..|ids| - 1], x, d) + t
  {
    var n := |ids| - 1;
    assert Hashed(mask, ids)[..n] == Hashed(mask, ids[..n]);
    RouteOnRank(f, w, mask, ids[n], x, d);
    t := Counted(f, w, mask[ids[n]], ids[n], x, d, weights[n]);
    Regroup(mask[ids[n]], f(w[ids[n]], x, d), weights[n]);
  }

  lemma {:induction false} Regroup(k: nat, y: real, weight: real)
    ensures (k as real * y) * weight == k as real * (y * weight)
  {
  }

  lemma {:induction false} ScaledUnfolds<W, X>(f: Expert<W, X>, w: seq<W>, masks: seq<seq<nat>>, ids: seq<nat>,
                                               weights: seq<real>, x: X, d: nat)
    returns (t: real)
    requires Masks(masks, |w|) && Within(ids, |w|) && |ids| == |weights| && ids != []
    ensures t == Counted(f, w, Keepers(masks, ids[|ids| - 1]), ids[|ids| - 1], x, d, weights[|ids| - 1])
    ensures Scaled(f, w, masks, ids, weights, x, d)
            == Scaled(f, w, masks, ids[..|ids| - 1], weights[..|ids| - 1], x, d) + t
  {
    t := Counted(f, w, Keepers(masks, ids[|ids| - 1]), ids[|ids| - 1], x, d, weights[|ids| - 1]);
  }

  ghost predicate Ranks(masks: seq<seq<nat>>, rest: seq<seq<nat>>, mask: seq<nat>, experts: nat) {
    && masks != [] && rest == masks[..|masks| - 1] && mask == masks[|masks| - 1]
    && Masks(masks, experts) && Masks(rest, experts) && |mask| == experts && ZeroOne(mask)
  }

  /** A rank's output is the sum over its own experts' routes. */
  lemma {:induction false} RankAdds<W, X>(f: Expert<W, X>, w: seq<W>, masks: seq<seq<nat>>, rest: seq<seq<nat>>,
                                          mask: seq<nat>, ids: seq<nat>, weights: seq<real>, x: X, d: nat)
    requires Ranks(masks, rest, mask, |w|) && Within(ids, |w|) && |ids| == |weights|
    ensures Scaled(f, w, masks, ids, weights, x, d)
         == Scaled(f, w, rest, ids, weights, x, d) + RankOutput(f, w, mask, ids, weights, x, d)
    decreases |ids|
  {
    if ids != [] {
      var n := |ids| - 1;
      var e := ids[n];
      RankAdds(f, w, masks, rest, mask, ids[..n], weights[..n], x, d);
      var mine := RankUnfolds(f, w, mask, ids, weights, x, d);
      var all := ScaledUnfolds(f, w, masks, ids, weights, x, d);
      var others := ScaledUnfolds(f, w, rest, ids, weights, x, d);
      KeepersAdd(masks, rest, mask, e);
      CountedAdds(f, w, Keepers(rest, e), mask[e], e, x, d, weights[n]);
      assert all == others + mine;
    }
  }

  lemma {:induction false} KeepersAdd(masks: seq<seq<nat>>, rest: seq<seq<nat>>, mask: seq<nat>, e: nat)
    requires masks != [] && rest == masks[..|masks| - 1] && mask == masks[|masks| - 1]
    requires forall r :: 0 <= r < |masks| ==> e < |masks[r]|
    ensures forall r :: 0 <= r < |rest| ==> e < |rest[r]|
    ensures Keepers(masks, e) == Keepers(rest, e) + mask[e]
  {
  }

  lemma {:induction false} NoRanks<W, X>(f: Expert<W, X>, w: seq<W>, masks: seq<seq<nat>>, ids: seq<nat>,
                                         weights: seq<real>, x: X, d: nat)
    requires masks == [] && Within(ids, |w|) && |ids| == |weights|
    ensures Scaled(f, w, masks, ids, weights, x, d) == 0.0
    decreases |ids|
  {
    if ids != [] {
      NoRanks(f, w, masks, ids[..|ids| - 1], weights[..|ids| - 1], x, d);
    }
  }

  /** The ranks together: every route counts once for every rank that keeps its expert. */
  lemma {:induction false} AllRanksScale<W, X>(f: Expert<W, X>, w: seq<W>, masks: seq<seq<nat>>, ids: seq<nat>,
                                               weights: seq<real>, x: X, d: nat)
    requires Masks(masks, |w|) && Within(ids, |w|) && |ids| == |weights|
    ensures AllRanks(f, w, masks, ids, weights, x, d) == Scaled(f, w, masks, ids, weights, x, d)
    decreases |masks|
  {
    if masks == [] {
      NoRanks(f, w, masks, ids, weights, x, d);
    } else {
      AllRanksScale(f, w, masks[..|masks| - 1], ids, weights, x, d);
      RankAdds(f, w, masks, masks[..|masks| - 1], masks[|masks| - 1], ids, weights, x, d);
    }
  }

  /** Every expert is kept by exactly one rank. */
  ghost predicate Partition(masks: seq<seq<nat>>, experts: nat)
    requires Masks(masks, experts)
  {
    forall e: nat :: e < experts ==> Keepers(masks, e) == 1
  }

  /** When the masks partition the experts, the ranks' outputs sum to the unmasked output. */
  lemma {:induction false} RanksSumToWhole<W, X>(f: Expert<W, X>, w: seq<W>, masks: seq<seq<nat>>, ids: seq<nat>,
                                                 weights: seq<real>, x: X, d: nat)
    requires Masks(masks, |w|) && Within(ids, |w|) && |ids| == |weights| && Partition(masks, |w|)
    ensures AllRanks(f, w, masks, ids, weights, x, d) == Combined(f, w, ids, weights, x, d)
  {
    AllRanksScale(f, w, masks, ids, weights, x, d);
    ScaledByOneOrZero(f, w, masks, ids, weights, x, d);
  }

  /** Conservation for one expert function, over every routing. */
  ghost predicate Conserves<W, X>(f: Expert<W, X>, w: seq<W>, masks: seq<seq<nat>>, x: X, d: nat)
    requires Masks(masks, |w|)
  {
    forall ids: seq<nat>, weights: seq<real> | Within(ids, |w|) && |ids| == |weights| ::
      AllRanks(f, w, masks, ids, weights, x, d) == Combined(f, w, ids, weights, x, d)
  }

  lemma {:induction false} OneRoute<W, X>(f: Expert<W, X>, w: seq<W>, masks: seq<seq<nat>>, e: nat, x: X, d: nat,
                                          ids: seq<nat>, weights: seq<real>)
    requires Masks(masks, |w|) && e < |w| && ids == [e] && weights == [1.0]
    ensures Within(ids, |w|)
    ensures AllRanks(f, w, masks, ids, weights, x, d) == Keepers(masks, e) as real * f(w[e], x, d)
    ensures Combined(f, w, ids, weights, x, d) == f(w[e], x, d)
  {
    AllRanksScale(f, w, masks, ids, weights, x, d);
    assert Scaled(f, w, masks, ids[..0], weights[..0], x, d) == 0.0;
    assert Combined(f, w, ids[..0], weights[..0], x, d) == 0.0;
  }

  /** Every expert is kept by exactly one rank, or answers zero here. */
  ghost predicate KeptOnceOrZero<W, X>(f: Expert<W, X>, w: seq<W>, masks: seq<seq<nat>>, x: X, d: nat)
    requires Masks(masks, |w|)
  {
    forall e: nat :: e < |w| ==> Keepers(masks, e) == 1 || f(w[e], x, d) == 0.0
  }

  lemma {:induction false} OnceOrZero(k: nat, y: real)
    ensures k as real * y == y <==> k == 1 || y == 0.0
  {
    if k as real * y == y && y != 0.0 {
      assert k as real == 1.0;
    }
  }

  lemma {:induction false} CountedOnce(k: nat, y: real, weight: real)
    requires k == 1 || y == 0.0
    ensures k as real * (y * weight) == y * weight
  {
  }

  lemma {:induction false} ScaledByOneOrZero<W, X>(f: Expert<W, X>, w: seq<W>, masks: seq<seq<nat>>, ids: seq<nat>,
                                                   weights: seq<real>, x: X, d: nat)
    requires Masks(masks, |w|) && Within(ids, |w|) && |ids| == |weights| && KeptOnceOrZero(f, w, masks, x, d)
    ensures Scaled(f, w, masks, ids, weights, x, d) == Combined(f, w, ids, weights, x, d)
    decreases |ids|
  {
    if ids != [] {
      var n := |ids| - 1;
      ScaledByOneOrZero(f, w, masks, ids[..n], weights[..n], x, d);
      var t := ScaledUnfolds(f, w, masks, ids, weights, x, d);
      assert Keepers(masks, ids[n]) == 1 || f(w[ids[n]], x, d) == 0.0;
      CountedOnce(Keepers(masks, ids[n]), f(w[ids[n]], x, d), weights[n]);
    }
  }

  lemma {:induction false} ConservesRoute<W, X>(f: Expert<W, X>, w: seq<W>, masks: seq<seq<nat>>, ids: seq<nat>,
                                                weights: seq<real>, x: X, d: nat)
    requires Masks(masks, |w|) && Within(ids, |w|) && |ids| == |weights| && KeptOnceOrZero(f, w, masks, x, d)
    ensures AllRanks(f, w, masks, ids, weights, x, d) == Combined(f, w, ids, weights, x, d)
  {
    AllRanksScale(f, w, masks, ids, weights, x, d);
    ScaledByOneOrZero(f, w, masks, ids, weights, x, d);
  }

  lemma {:induction false} OneRouteDecides<W, X>(f: Expert<W, X>, w: seq<W>, masks: seq<seq<nat>>, e: nat, x: X, d: nat,
                                                 ids: seq<nat>, weights: seq<real>)
    requires Masks(masks, |w|) && e < |w| && ids == [e] && weights == [1.0] && Within(ids, |w|)
    requires AllRanks(f, w, masks, ids, weights, x, d) == Combined(f, w, ids, weights, x, d)
    ensures Keepers(masks, e) == 1 || f(w[e], x, d) == 0.0
  {
    OneRoute(f, w, masks, e, x, d, ids, weights);
    OnceOrZero(Keepers(masks, e), f(w[e], x, d));
  }

  /** Exactly when expert parallelism conserves, whatever the experts answer: on every routing the ranks sum
      to the unmasked output if and only if every expert is kept by one rank or answers zero. */
  lemma {:induction false} ConservesExactly<W, X>(f: Expert<W, X>, w: seq<W>, masks: seq<seq<nat>>, x: X, d: nat)
    requires Masks(masks, |w|)
    ensures Conserves(f, w, masks, x, d) <==> KeptOnceOrZero(f, w, masks, x, d)
  {
    if KeptOnceOrZero(f, w, masks, x, d) {
      forall ids: seq<nat>, weights: seq<real> | Within(ids, |w|) && |ids| == |weights|
        ensures AllRanks(f, w, masks, ids, weights, x, d) == Combined(f, w, ids, weights, x, d)
      {
        ConservesRoute(f, w, masks, ids, weights, x, d);
      }
    }
    if Conserves(f, w, masks, x, d) {
      forall e: nat | e < |w|
        ensures Keepers(masks, e) == 1 || f(w[e], x, d) == 0.0
      {
        OneRouteDecides(f, w, masks, e, x, d, [e], [1.0]);
      }
    }
  }

  /** Two ranks that both keep the only expert answer twice. */
  lemma {:induction false} SharedExpertCountsTwice<W, X>(f: Expert<W, X>, w: W, x: X, d: nat)
    ensures Masks([[1], [1]], 1) && Within([0], 1)
    ensures AllRanks(f, [w], [[1], [1]], [0], [1.0], x, d) == 2.0 * f(w, x, d)
    ensures Combined(f, [w], [0], [1.0], x, d) == f(w, x, d)
  {
    OneRoute(f, [w], [[1], [1]], 0, x, d, [0], [1.0]);
    assert [[1], [1]][..1] == [[1]] && [[1]][..0] == [];
    assert Keepers([[1], [1]], 0) == 2;
  }
}
