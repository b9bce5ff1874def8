/** Head folding in the persistent decode path (aiter/mla.py): groups of heads become pseudo-batches,
    and the inverse permutation restores the caller's layout. */
module HeadFold {
  import opened RowMajor
  import opened MixedRadix
  import opened Sums

  /** A tensor of batch x query x head-group x head x lane cells, stored row-major:
      s queries per batch, r head groups of h heads, and d lanes. */
  datatype Shape = Shape(s: nat, r: nat, h: nat, d: nat)

  function CallerWidths(z: Shape): seq<nat> {
    [z.s, z.r, z.h, z.d]
  }

  function FoldedWidths(z: Shape): seq<nat> {
    [z.r, z.s, z.h, z.d]
  }

  /** The flat position of (batch, query, group, head, lane) in the caller's layout. */
  function CallerAt(z: Shape, b: nat, q: nat, g: nat, k: nat, l: nat): nat {
    At(CallerWidths(z), [b, q, g, k, l])
  }

  /** ... and in the folded layout, where the group index moves outside the query index. */
  function FoldedAt(z: Shape, b: nat, q: nat, g: nat, k: nat, l: nat): nat {
    At(FoldedWidths(z), [b, g, q, k, l])
  }

  /** The caller's head g * h + k of token b * s + q, and the folded head k of row (b * r + g) * s + q. */
  lemma {:induction false} PositionsWrittenOut(z: Shape, b: nat, q: nat, g: nat, k: nat, l: nat)
    ensures CallerAt(z, b, q, g, k, l) == (((b * z.s + q) * z.r + g) * z.h + k) * z.d + l
    ensures FoldedAt(z, b, q, g, k, l) == (((b * z.r + g) * z.s + q) * z.h + k) * z.d + l
  {
    AtOfFive(CallerWidths(z), [b, q, g, k, l]);
    AtOfFive(FoldedWidths(z), [b, g, q, k, l]);
  }

  /** With one query per batch the two layouts coincide, so a reshape is the whole fold. */
  lemma {:induction false} OneQueryFoldIsAReshape(z: Shape, b: nat, g: nat, k: nat, l: nat)
    requires z.s == 1
    ensures FoldedAt(z, b, 0, g, k, l) == CallerAt(z, b, 0, g, k, l)
  {
    PositionsWrittenOut(z, b, 0, g, k, l);
    assert (b * z.r + g) * z.s + 0 == (b * z.s + 0) * z.r + g;
  }

  function Cells(z: Shape, batches: nat): nat {
    Size(batches, CallerWidths(z))
  }

  ghost predicate Whole(z: Shape) {
    Positive(CallerWidths(z)) && Positive(FoldedWidths(z))
  }

  /** reshape(B, S, R, h, d).permute(0, 2, 1, 3, 4).reshape: the folded cell i comes from this caller cell. */
  function SourceOfFolded(z: Shape, i: nat): nat
    requires Whole(z)
  {
    var c := Digits(FoldedWidths(z), i);
    CallerAt(z, c[0], c[2], c[1], c[3], c[4])
  }

  /** The inverse permutation, reshape(B, R, S, h, d).permute(0, 2, 1, 3, 4).reshape. */
  function SourceOfCaller(z: Shape, i: nat): nat
    requires Whole(z)
  {
    var c := Digits(CallerWidths(z), i);
    FoldedAt(z, c[0], c[1], c[2], c[3], c[4])
  }

  ghost predicate InRange(z: Shape, q: nat, g: nat, k: nat, l: nat) {
    q < z.s && g < z.r && k < z.h && l < z.d
  }

  lemma {:induction false} CoordinatesFit(z: Shape, b: nat, q: nat, g: nat, k: nat, l: nat)
    requires InRange(z, q, g, k, l)
    ensures Fits(CallerWidths(z), [b, q, g, k, l]) && Fits(FoldedWidths(z), [b, g, q, k, l]) && Whole(z)
  {
  }

  /** Decoding a folded position gives back the coordinates it was made from. */
  lemma {:induction false} FoldedRoundTrip(z: Shape, b: nat, q: nat, g: nat, k: nat, l: nat)
    requires InRange(z, q, g, k, l) && Whole(z)
    ensures SourceOfFolded(z, FoldedAt(z, b, q, g, k, l)) == CallerAt(z, b, q, g, k, l)
  {
    CoordinatesFit(z, b, q, g, k, l);
    DigitsOfAt(FoldedWidths(z), [b, g, q, k, l]);
  }

  lemma {:induction false} CallerRoundTrip(z: Shape, b: nat, q: nat, g: nat, k: nat, l: nat)
    requires InRange(z, q, g, k, l) && Whole(z)
    ensures SourceOfCaller(z, CallerAt(z, b, q, g, k, l)) == FoldedAt(z, b, q, g, k, l)
  {
    CoordinatesFit(z, b, q, g, k, l);
    DigitsOfAt(CallerWidths(z), [b, q, g, k, l]);
  }

  lemma {:induction false} SizesAgree(z: Shape, batches: nat)
    ensures Size(batches, FoldedWidths(z)) == Cells(z, batches)
  {
    SizeSwapped(batches, z.r, z.s, z.h, z.d);
  }

  /** Every position of the caller's layout has coordinates. */
  lemma {:induction false} CallerCoordinates(z: Shape, batches: nat, i: nat)
    returns (b: nat, q: nat, g: nat, k: nat, l: nat)
    requires i < Cells(z, batches)
    ensures b < batches && InRange(z, q, g, k, l) && i == CallerAt(z, b, q, g, k, l)
  {
    AtOfDigits(CallerWidths(z), i, batches);
    var c := Digits(CallerWidths(z), i);
    assert CallerWidths(z)[0] == z.s && CallerWidths(z)[1] == z.r && CallerWidths(z)[2] == z.h
      && CallerWidths(z)[3] == z.d;
    b, q, g, k, l := c[0], c[1], c[2], c[3], c[4];
    assert c == [b, q, g, k, l];
  }

  lemma {:induction false} FoldedCoordinates(z: Shape, batches: nat, i: nat)
    returns (b: nat, q: nat, g: nat, k: nat, l: nat)
    requires i < Cells(z, batches)
    ensures b < batches && InRange(z, q, g, k, l) && i == FoldedAt(z, b, q, g, k, l)
  {
    SizesAgree(z, batches);
    b, g, q, k, l := CallerCoordinates(Shape(z.r, z.s, z.h, z.d), batches, i);
  }

  lemma {:induction false} PositionsInside(z: Shape, batches: nat, b: nat, q: nat, g: nat, k: nat, l: nat)
    requires b < batches && InRange(z, q, g, k, l)
    ensures CallerAt(z, b, q, g, k, l) < Cells(z, batches) && FoldedAt(z, b, q, g, k, l) < Cells(z, batches)
  {
    CoordinatesFit(z, b, q, g, k, l);
    AtInside(CallerWidths(z), [b, q, g, k, l], batches);
    AtInside(FoldedWidths(z), [b, g, q, k, l], batches);
    SizesAgree(z, batches);
  }

  lemma {:induction false} SourcesInside(z: Shape, batches: nat, i: nat)
    requires i < Cells(z, batches)
    ensures Whole(z)
    ensures SourceOfFolded(z, i) < Cells(z, batches) && SourceOfCaller(z, i) < Cells(z, batches)
  {
    var b, q, g, k, l := FoldedCoordinates(z, batches, i);
    CoordinatesFit(z, b, q, g, k, l);
    FoldedRoundTrip(z, b, q, g, k, l);
    PositionsInside(z, batches, b, q, g, k, l);
    var b', q', g', k', l' := CallerCoordinates(z, batches, i);
    CallerRoundTrip(z, b', q', g', k', l');
    PositionsInside(z, batches, b', q', g', k', l');
  }

  /** The fold of the query tensor. */
  function Fold<T>(z: Shape, batches: nat, x: seq<T>): (y: seq<T>)
    requires |x| == Cells(z, batches)
    ensures |y| == |x|
  {
    seq(|x|, i requires 0 <= i < |x| => SourcesInside(z, batches, i); x[SourceOfFolded(z, i)])
  }

  /** The un-permutation of the output tensor. */
  function Unfold<T>(z: Shape, batches: nat, y: seq<T>): (x: seq<T>)
    requires |y| == Cells(z, batches)
    ensures |x| == |y|
  {
    seq(|y|, i requires 0 <= i < |y| => SourcesInside(z, batches, i); y[SourceOfCaller(z, i)])
  }

  /** Query q of batch b, head g * h + k lands in row q of pseudo-batch b * r + g, head k. */
  lemma {:induction false} FoldPlacesEveryCell<T>(z: Shape, batches: nat, x: seq<T>, b: nat, q: nat, g: nat, k: nat,
                                                  l: nat)
    requires |x| == Cells(z, batches)
    requires b < batches && InRange(z, q, g, k, l)
    ensures CallerAt(z, b, q, g, k, l) < |x| && FoldedAt(z, b, q, g, k, l) < |x|
    ensures Fold(z, batches, x)[FoldedAt(z, b, q, g, k, l)] == x[CallerAt(z, b, q, g, k, l)]
    ensures Unfold(z, batches, x)[CallerAt(z, b, q, g, k, l)] == x[FoldedAt(z, b, q, g, k, l)]
  {
    PositionsInside(z, batches, b, q, g, k, l);
    CoordinatesFit(z, b, q, g, k, l);
    FoldedRoundTrip(z, b, q, g, k, l);
    CallerRoundTrip(z, b, q, g, k, l);
  }

  /** Folding and un-permuting are inverse to each other, in both orders. */
  lemma {:induction false} FoldRoundTrips<T>(z: Shape, batches: nat, x: seq<T>)
    requires |x| == Cells(z, batches)
    ensures Unfold(z, batches, Fold(z, batches, x)) == x
    ensures Fold(z, batches, Unfold(z, batches, x)) == x
  {
    forall i | 0 <= i < |x|
      ensures Unfold(z, batches, Fold(z, batches, x))[i] == x[i]
      ensures Fold(z, batches, Unfold(z, batches, x))[i] == x[i]
    {
      var b, q, g, k, l := CallerCoordinates(z, batches, i);
      FoldPlacesEveryCell(z, batches, x, b, q, g, k, l);
      FoldPlacesEveryCell(z, batches, Fold(z, batches, x), b, q, g, k, l);
      var b', q', g', k', l' := FoldedCoordinates(z, batches, i);
      FoldPlacesEveryCell(z, batches, x, b', q', g', k', l');
      FoldPlacesEveryCell(z, batches, Unfold(z, batches, x), b', q', g', k', l');
    }
  }

  // ---------------------------------------------------------------------------
  // The folded index pointer
  // ---------------------------------------------------------------------------

  function Lens(indptr: seq<int>): (r: seq<int>)
    requires |indptr| >= 1
    ensures |r| == |indptr| - 1
  {
    seq(|indptr| - 1, i requires 0 <= i < |indptr| - 1 => indptr[i + 1] - indptr[i])
  }

  function Copies(n: nat, x: int): (r: seq<int>)
    ensures |r| == n
  {
    if n == 0 then [] else Copies(n - 1, x) + [x]
  }

  /** Each element n times in a row. */
  function RepeatEach(xs: seq<int>, n: nat): (r: seq<int>)
    ensures |r| == |xs| * n
  {
    if xs == [] then []
    else
      var last := |xs| - 1;
      assert |xs| * n == last * n + n;
      RepeatEach(xs[..last], n) + Copies(n, xs[last])
  }

  /** _fold_seqlen_indptr: repeated lengths, cumulative sum, leading zero. */
  function FoldIndptr(indptr: seq<int>, fold: nat): (r: seq<int>)
    requires |indptr| >= 1
    ensures |r| == (|indptr| - 1) * fold + 1
  {
    var folded := RepeatEach(Lens(indptr), fold);
    seq(|folded| + 1, i requires 0 <= i <= |folded| => Sum(folded[..i]))
  }

  lemma {:induction false} SumOfCopies(n: nat, x: int)
    ensures Sum(Copies(n, x)) == n * x
  {
    if n > 0 {
      SumOfCopies(n - 1, x);
      assert Copies(n, x)[..n - 1] == Copies(n - 1, x);
      assert n * x == (n - 1) * x + x;
    }
  }

  lemma {:induction false} FirstCopies(n: nat, x: int, g: nat)
    requires g <= n
    ensures Copies(n, x)[..g] == Copies(g, x)
  {
    if g < n {
      FirstCopies(n - 1, x, g);
      assert Copies(n, x)[..g] == Copies(n - 1, x)[..g];
    }
  }

  lemma {:induction false} TimesSum(n: int, a: int, b: int)
    ensures n * (a + b) == n * a + n * b
  {
  }

  lemma {:induction false} SumOfAllRepeats(xs: seq<int>, n: nat)
    ensures Sum(RepeatEach(xs, n)) == n * Sum(xs)
  {
    if xs != [] {
      var last := |xs| - 1;
      SumOfAllRepeats(xs[..last], n);
      SumConcat(RepeatEach(xs[..last], n), Copies(n, xs[last]));
      SumOfCopies(n, xs[last]);
      TimesSum(n, Sum(xs[..last]), xs[last]);
    }
  }

  /** The copies of the elements before b are the first b * n entries. */
  lemma {:induction false} RepeatsOfFront(xs: seq<int>, n: nat, b: nat)
    requires b <= |xs|
    ensures b * n <= |xs| * n && RepeatEach(xs, n)[..b * n] == RepeatEach(xs[..b], n)
    decreases |xs|
  {
    MulMonotone(b, |xs|, n);
    var last := |xs| - 1;
    if b == |xs| {
      assert xs[..b] == xs;
    } else {
      RepeatsOfFront(xs[..last], n, b);
      assert RepeatEach(xs, n)[..b * n] == RepeatEach(xs[..last], n)[..b * n];
      assert xs[..last][..b] == xs[..b];
    }
  }

  /** The sum up to copy g of element b. */
  lemma {:induction false} SumOfRepeats(xs: seq<int>, n: nat, b: nat, g: nat)
    requires b < |xs| && g <= n
    ensures b * n + g <= |xs| * n
    ensures Sum(RepeatEach(xs, n)[..b * n + g]) == n * Sum(xs[..b]) + g * xs[b]
  {
    MulMonotone(b + 1, |xs|, n);
    assert (b + 1) * n == b * n + n;
    var all := RepeatEach(xs, n);
    RepeatsOfFront(xs, n, b);
    RepeatsOfFront(xs, n, b + 1);
    assert xs[..b + 1][..b] == xs[..b];
    var part := RepeatEach(xs[..b + 1], n);
    assert part == RepeatEach(xs[..b], n) + Copies(n, xs[b]);
    FirstCopies(n, xs[b], g);
    assert all[..b * n + g] == part[..b * n + g];
    assert part[..b * n + g] == RepeatEach(xs[..b], n) + Copies(g, xs[b]);
    SumConcat(RepeatEach(xs[..b], n), Copies(g, xs[b]));
    SumOfCopies(g, xs[b]);
    SumOfAllRepeats(xs[..b], n);
  }

  lemma {:induction false} SumOfLens(indptr: seq<int>, b: nat)
    requires b < |indptr|
    ensures Sum(Lens(indptr)[..b]) == indptr[b] - indptr[0]
  {
    if b > 0 {
      SumOfLens(indptr, b - 1);
      PrefixStep(Lens(indptr), b - 1);
    }
  }

  /** Pseudo-batch b * fold + g starts g whole lengths after the fold copies of everything before b. */
  lemma {:induction false} FoldIndptrAt(indptr: seq<int>, fold: nat, b: nat, g: nat)
    requires b + 1 < |indptr| && g <= fold
    ensures b * fold + g < |FoldIndptr(indptr, fold)|
    ensures FoldIndptr(indptr, fold)[b * fold + g] == fold * (indptr[b] - indptr[0]) + g * (indptr[b + 1] - indptr[b])
  {
    SumOfRepeats(Lens(indptr), fold, b, g);
    SumOfLens(indptr, b);
  }

  /** Under context parallelism the local key pointer keeps its begins: each repeated, and the last end behind. */
  function FoldLocalIndptr(indptr: seq<int>, fold: nat): (r: seq<int>)
    requires |indptr| >= 1
    ensures |r| == (|indptr| - 1) * fold + 1
  {
    RepeatEach(indptr[..|indptr| - 1], fold) + [indptr[|indptr| - 1]]
  }

  lemma {:induction false} CopiesAt(n: nat, x: int, i: nat)
    requires i < n
    ensures Copies(n, x)[i] == x
  {
    if i < n - 1 {
      CopiesAt(n - 1, x, i);
    }
  }

  lemma {:induction false} RepeatEachAt(xs: seq<int>, n: nat, b: nat, g: nat)
    requires b < |xs| && g < n
    ensures b * n + g < |xs| * n && RepeatEach(xs, n)[b * n + g] == xs[b]
    decreases |xs|
  {
    Below(b, |xs|, n, g);
    var last := |xs| - 1;
    if b < last {
      RepeatEachAt(xs[..last], n, b, g);
    } else {
      CopiesAt(n, xs[b], g);
    }
  }

  /** Every pseudo-batch of b shares the local begin of b. Only the last of them also has the end of b as its
      successor entry; for the others that is the begin again, so the entries do not delimit their keys. */
  lemma {:induction false} FoldLocalIndptrAt(indptr: seq<int>, fold: nat, b: nat, g: nat)
    requires b + 1 < |indptr| && g < fold
    ensures b * fold + g + 1 < |FoldLocalIndptr(indptr, fold)| == |FoldIndptr(indptr, fold)|
    ensures FoldLocalIndptr(indptr, fold)[b * fold + g] == indptr[b]
    ensures FoldLocalIndptr(indptr, fold)[b * fold + g + 1] == indptr[if g + 1 < fold then b else b + 1]
  {
    var begins := indptr[..|indptr| - 1];
    RepeatEachAt(begins, fold, b, g);
    if g + 1 < fold {
      RepeatEachAt(begins, fold, b, g + 1);
    } else {
      assert b * fold + g + 1 == (b + 1) * fold;
      if b + 1 < |begins| {
        RepeatEachAt(begins, fold, b + 1, 0);
      } else {
        assert b * fold + g + 1 == |begins| * fold;
      }
    }
  }

  // ---------------------------------------------------------------------------
  // Where the folded tokens land, and when the folded index pointer names that place
  // ---------------------------------------------------------------------------

  /** The folded row of token t and head group g under the uniform reshape. */
  function FoldedRow(z: Shape, t: nat, g: nat): int
    requires z.s > 0
  {
    ((t / z.s) * z.r + g) * z.s + t % z.s
  }

  /** A cumulative pointer over all tokens of a tensor with the given number of full query blocks. */
  ghost predicate Covers(z: Shape, blocks: nat, indptr: seq<int>) {
    && |indptr| >= 1 && indptr[0] == 0 && indptr[|indptr| - 1] == blocks * z.s
    && forall i, j :: 0 <= i <= j < |indptr| ==> indptr[i] <= indptr[j]
  }

  /** The kernel looks for query n of pseudo-batch c * r + g at folded_indptr[c * r + g] + n. */
  ghost predicate Named(z: Shape, indptr: seq<int>, c: nat, t: nat, g: nat)
    requires z.s > 0 && c + 1 < |indptr| && g < z.r
  {
    && c * z.r + g < |FoldIndptr(indptr, z.r)|
    && FoldedRow(z, t, g) == FoldIndptr(indptr, z.r)[c * z.r + g] + (t - indptr[c])
  }

  ghost predicate AllNamed(z: Shape, indptr: seq<int>)
    requires z.s > 0
  {
    forall c: nat, t: nat, g: nat ::
      c + 1 < |indptr| && indptr[c] <= t < indptr[c + 1] && g < z.r ==> Named(z, indptr, c, t, g)
  }

  /** Every sequence is empty or has the uniform query length. */
  ghost predicate Uniform(z: Shape, indptr: seq<int>) {
    forall c :: 0 <= c && c + 1 < |indptr| ==> indptr[c + 1] - indptr[c] == 0 || indptr[c + 1] - indptr[c] == z.s
  }

  lemma {:induction false} UniformStartsAreMultiples(z: Shape, indptr: seq<int>, c: nat) returns (m: nat)
    requires c < |indptr| && indptr[0] == 0
    requires forall i :: 0 <= i < c ==> indptr[i + 1] - indptr[i] == 0 || indptr[i + 1] - indptr[i] == z.s
    ensures indptr[c] == m * z.s
  {
    if c == 0 {
      m := 0;
    } else {
      m := UniformStartsAreMultiples(z, indptr, c - 1);
      if indptr[c] - indptr[c - 1] != 0 {
        m := m + 1;
      }
    }
  }

  /** The folded row of query q of the m-th full block. */
  lemma {:induction false} FoldedRowOf(z: Shape, m: nat, q: nat, t: nat, g: nat, start: int)
    requires z.s > 0 && q < z.s && start == m * z.s && t == start + q
    ensures FoldedRow(z, t, g) == z.r * start + g * z.s + q
  {
    DivMod(m, z.s, q);
    assert (m * z.r + g) * z.s == m * z.r * z.s + g * z.s;
    assert m * z.r * z.s == z.r * (m * z.s);
  }

  /** The folded row is the row that the fold puts the token's heads into. */
  lemma {:induction false} FoldedRowIsTheRow(z: Shape, b: nat, q: nat, g: nat, k: nat, l: nat, t: nat)
    requires q < z.s && t == b * z.s + q
    ensures FoldedAt(z, b, q, g, k, l) == (FoldedRow(z, t, g) * z.h + k) * z.d + l
  {
    DivMod(b, z.s, q);
    PositionsWrittenOut(z, b, q, g, k, l);
  }

  lemma {:induction false} UniformTokenIsNamed(z: Shape, indptr: seq<int>, c: nat, t: nat, g: nat)
    requires z.s > 0 && c + 1 < |indptr| && indptr[0] == 0 && Uniform(z, indptr)
    requires indptr[c] <= t < indptr[c + 1] && g < z.r
    ensures Named(z, indptr, c, t, g)
  {
    var m := UniformStartsAreMultiples(z, indptr, c);
    FoldIndptrAt(indptr, z.r, c, g);
    FoldedRowOf(z, m, t - indptr[c], t, g, indptr[c]);
  }

  lemma {:induction false} OneGroupIsNamed(z: Shape, indptr: seq<int>, c: nat, t: nat)
    requires z.s > 0 && z.r == 1 && c + 1 < |indptr| && indptr[0] == 0
    requires indptr[c] <= t < indptr[c + 1]
    ensures Named(z, indptr, c, t, 0)
  {
    FoldIndptrAt(indptr, 1, c, 0);
  }

  lemma {:induction false} NamedForcesUniform(z: Shape, indptr: seq<int>, c: nat)
    requires z.s > 0 && z.r >= 2 && c + 1 < |indptr| && indptr[0] == 0 && indptr[c] <= indptr[c + 1]
    requires AllNamed(z, indptr)
    requires forall i :: 0 <= i < c ==> indptr[i + 1] - indptr[i] == 0 || indptr[i + 1] - indptr[i] == z.s
    ensures indptr[c + 1] - indptr[c] == 0 || indptr[c + 1] - indptr[c] == z.s
  {
    if indptr[c] < indptr[c + 1] {
      var m := UniformStartsAreMultiples(z, indptr, c);
      var t: nat := indptr[c];
      assert Named(z, indptr, c, t, 1);
      FoldIndptrAt(indptr, z.r, c, 1);
      FoldedRowOf(z, m, 0, t, 1, indptr[c]);
    }
  }

  lemma {:induction false} NamedForcesUniformUpTo(z: Shape, indptr: seq<int>, n: nat)
    requires z.s > 0 && z.r >= 2 && n < |indptr| && indptr[0] == 0
    requires forall i, j :: 0 <= i <= j < |indptr| ==> indptr[i] <= indptr[j]
    requires AllNamed(z, indptr)
    ensures forall i :: 0 <= i < n ==> indptr[i + 1] - indptr[i] == 0 || indptr[i + 1] - indptr[i] == z.s
  {
    if n > 0 {
      NamedForcesUniformUpTo(z, indptr, n - 1);
      NamedForcesUniform(z, indptr, n - 1);
    }
  }

  /** Exactly when the fold is sound: with two or more head groups, the folded index pointer names the
      row of every token if and only if every sequence is empty or has the uniform query length.
      With a single group it always does. */
  lemma {:induction false} FoldIsNamedExactlyWhen(z: Shape, blocks: nat, indptr: seq<int>)
    requires z.s > 0 && z.r > 0 && Covers(z, blocks, indptr)
    ensures AllNamed(z, indptr) <==> z.r == 1 || Uniform(z, indptr)
  {
    if z.r == 1 {
      forall c: nat, t: nat, g: nat | c + 1 < |indptr| && indptr[c] <= t < indptr[c + 1] && g < z.r
        ensures Named(z, indptr, c, t, g)
      {
        OneGroupIsNamed(z, indptr, c, t);
      }
    } else {
      if AllNamed(z, indptr) {
        NamedForcesUniformUpTo(z, indptr, |indptr| - 1);
      }
      if Uniform(z, indptr) {
        forall c: nat, t: nat, g: nat | c + 1 < |indptr| && indptr[c] <= t < indptr[c + 1] && g < z.r
          ensures Named(z, indptr, c, t, g)
        {
          UniformTokenIsNamed(z, indptr, c, t, g);
        }
      }
    }
  }

  /** Two sequences of one token each, folded as one block of two: row 2 is token 0 under the second head group,
      but the pointer gives it to token 1, whose row is 1. */
  lemma {:induction false} RaggedFoldMisnames(z: Shape)
    requires z.s == 2 && z.r == 2
    ensures Covers(z, 1, [0, 1, 2]) && !AllNamed(z, [0, 1, 2])
    ensures |FoldIndptr([0, 1, 2], 2)| == 5 && FoldIndptr([0, 1, 2], 2)[2] == 2
    ensures FoldedRow(z, 1, 0) == 1 && FoldedRow(z, 0, 1) == 2
  {
    var indptr := [0, 1, 2];
    FoldIndptrAt(indptr, 2, 1, 0);
    assert indptr[1] <= 1 < indptr[2];
    assert !Named(z, indptr, 1, 1, 0);
  }
}
