/** The positions inside one image or video (aiter/rotary_embedding.py): columns of temporal, height and
    width index over the merged grid. */
module MropeGrids {
  import opened RowMajor

  datatype Col = Col(t: int, h: int, w: int)
  datatype Grid = Grid(t: nat, h: nat, w: nat)

  type Merge = m: nat | 0 < m witness 1

  function Top(c: Col): int {
    if c.t >= c.h && c.t >= c.w then c.t else if c.h >= c.w then c.h else c.w
  }

  function MaxOf(cols: seq<Col>): int
    requires cols != []
  {
    var n := |cols| - 1;
    if n == 0 || Top(cols[n]) >= MaxOf(cols[..n]) then Top(cols[n]) else MaxOf(cols[..n])
  }

  function Shift(c: Col, base: int): Col {
    Col(c.t + base, c.h + base, c.w + base)
  }

  function ShiftAll(cols: seq<Col>, base: int): (r: seq<Col>)
    ensures |r| == |cols|
  {
    if cols == [] then [] else ShiftAll(cols[..|cols| - 1], base) + [Shift(cols[|cols| - 1], base)]
  }

  lemma {:induction false} ShiftAllAt(cols: seq<Col>, base: int, i: nat)
    requires i < |cols|
    ensures ShiftAll(cols, base)[i] == Shift(cols[i], base)
  {
    if i < |cols| - 1 {
      ShiftAllAt(cols[..|cols| - 1], base, i);
    }
  }

  /** Cell j of the flattened grid. */
  function Cell(j: nat, h: nat, w: nat): Col
    requires 0 < h && 0 < w
  {
    Col(j / (h * w), (j / w) % h, j % w)
  }

  function Vision(g: Grid): (r: seq<Col>)
    ensures |r| == g.t * (g.h * g.w)
  {
    if g.h == 0 || g.w == 0 then []
    else seq(g.t * (g.h * g.w), j requires 0 <= j < g.t * (g.h * g.w) => Cell(j, g.h, g.w))
  }

  function Merged(g: Grid, m: Merge): Grid {
    Grid(g.t, g.h / m, g.w / m)
  }

  function Largest(g: Grid): nat {
    Top(Col(g.t, g.h, g.w))
  }

  lemma {:induction false} CellAt(a: nat, b: nat, c: nat, h: nat, w: nat)
    requires b < h && c < w
    ensures Cell(a * (h * w) + (b * w + c), h, w) == Col(a, b, c)
  {
    Below(b, h, w, c);
    DivMod(a, h * w, b * w + c);
    var j := a * (h * w) + (b * w + c);
    assert j == (a * h + b) * w + c by {
      assert a * (h * w) == (a * h) * w;
    }
    DivMod(a * h + b, w, c);
    DivMod(a, h, b);
  }

  /** Temporal, height and width index run as three nested loops. */
  lemma {:induction false} VisionAt(g: Grid, a: nat, b: nat, c: nat)
    requires a < g.t && b < g.h && c < g.w
    ensures a * (g.h * g.w) + (b * g.w + c) < |Vision(g)|
    ensures Vision(g)[a * (g.h * g.w) + (b * g.w + c)] == Col(a, b, c)
  {
    CellAt(a, b, c, g.h, g.w);
    Below(b, g.h, g.w, c);
    Below(a, g.t, g.h * g.w, b * g.w + c);
  }

  lemma {:induction false} CellBelow(j: nat, t: nat, h: nat, w: nat, n: nat)
    requires 0 < h && 0 < w && n == h * w && j < t * n
    ensures var c := Cell(j, h, w); 0 <= c.t < t && 0 <= c.h < h && 0 <= c.w < w
  {
    Split(j, t, n);
  }

  lemma {:induction false} MaxIs(cols: seq<Col>, k: nat, m: int)
    requires k < |cols| && Top(cols[k]) == m
    requires forall i :: 0 <= i < |cols| ==> Top(cols[i]) <= m
    ensures MaxOf(cols) == m
  {
    var n := |cols| - 1;
    if n > 0 && k < n {
      MaxIs(cols[..n], k, m);
    } else if n > 0 {
      MaxAtMost(cols[..n], m);
    }
  }

  lemma {:induction false} MaxAtMost(cols: seq<Col>, m: int)
    requires cols != [] && forall i :: 0 <= i < |cols| ==> Top(cols[i]) <= m
    ensures MaxOf(cols) <= m
  {
    if |cols| > 1 {
      MaxAtMost(cols[..|cols| - 1], m);
    }
  }

  /** No column exceeds top, and the last one reaches it. */
  ghost predicate EndsAtTop(cols: seq<Col>, top: int) {
    && (forall i :: 0 <= i < |cols| ==> Top(cols[i]) <= top)
    && (cols != [] ==> Top(cols[|cols| - 1]) == top)
  }

  lemma {:induction false} MaxOfEnd(cols: seq<Col>, top: int)
    requires cols != [] && EndsAtTop(cols, top)
    ensures MaxOf(cols) == top
  {
    MaxIs(cols, |cols| - 1, top);
  }

  /** MaxOf is the largest number in all three rows of the columns. */
  lemma {:induction false} MaxOfIsTheLargest(cols: seq<Col>, m: int)
    requires cols != []
    ensures MaxOf(cols) == m <==> && (forall c <- cols :: c.t <= m && c.h <= m && c.w <= m)
                                  && (exists c <- cols :: c.t == m || c.h == m || c.w == m)
  {
    var last := cols[|cols| - 1];
    var front := cols[..|cols| - 1];
    assert cols == front + [last];
    if front != [] {
      MaxOfIsTheLargest(front, MaxOf(front));
    }
    assert forall c <- cols :: c in front || c == last;
    assert last in cols && forall c <- front :: c in cols;
  }

  lemma {:induction false} ShiftedEndsAtTop(cols: seq<Col>, top: int, base: int)
    requires EndsAtTop(cols, top)
    ensures EndsAtTop(ShiftAll(cols, base), top + base)
  {
    forall i | 0 <= i < |cols|
      ensures ShiftAll(cols, base)[i] == Shift(cols[i], base)
    {
      ShiftAllAt(cols, base, i);
    }
  }

  lemma {:induction false} CellOfVision(g: Grid, j: nat)
    requires 0 < g.h && 0 < g.w && j < g.t * (g.h * g.w)
    ensures Vision(g)[j] == Cell(j, g.h, g.w)
  {
  }

  lemma {:induction false} VisionCells(g: Grid, j: nat)
    requires j < |Vision(g)|
    ensures Top(Vision(g)[j]) <= Largest(g) - 1
  {
    CellBelow(j, g.t, g.h, g.w, g.h * g.w);
    var v := Vision(g);
    assert v[j] == Cell(j, g.h, g.w);
  }

  /** A vision segment ends at its largest position. */
  lemma {:induction false} VisionEndsAtTop(g: Grid)
    requires 0 < g.t && 0 < g.h && 0 < g.w
    ensures Vision(g) != [] && EndsAtTop(Vision(g), Largest(g) - 1)
  {
    VisionAt(g, g.t - 1, g.h - 1, g.w - 1);
    LastCell(g.t, g.h, g.w);
    forall j | 0 <= j < |Vision(g)|
      ensures Top(Vision(g)[j]) <= Largest(g) - 1
    {
      VisionCells(g, j);
    }
  }

  lemma {:induction false} LastCell(t: nat, h: nat, w: nat)
    requires 0 < t && 0 < h && 0 < w
    ensures (t - 1) * (h * w) + ((h - 1) * w + (w - 1)) == t * (h * w) - 1
  {
    assert (h - 1) * w == h * w - w;
    var n := h * w;
    assert (t - 1) * n == t * n - n;
  }

  /** The columns of one image or video, counted from zero. */
  function Block(g: Grid, m: Merge): seq<Col> {
    Vision(Merged(g, m))
  }

  function Expander(m: Merge): Grid -> seq<Col> {
    (g: Grid) => Block(g, m)
  }

  function Each(grids: seq<Grid>, f: Grid -> seq<Col>): (r: seq<seq<Col>>)
    ensures |r| == |grids|
  {
    if grids == [] then [] else [f(grids[0])] + Each(grids[1..], f)
  }

  /** The blocks of a list of grids. */
  function BlocksOf(grids: seq<Grid>, m: Merge): (r: seq<seq<Col>>)
    ensures |r| == |grids|
  {
    Each(grids, Expander(m))
  }

  lemma {:induction false} EachOfBoth(grids: seq<Grid>, rest: seq<Grid>, f: Grid -> seq<Col>)
    ensures Each(grids + rest, f) == Each(grids, f) + Each(rest, f)
  {
    if grids == [] {
      assert grids + rest == rest;
    } else {
      EachOfBoth(grids[1..], rest, f);
      assert (grids + rest)[1..] == grids[1..] + rest;
      Regroup([f(grids[0])], Each(grids[1..], f), Each(rest, f));
    }
  }

  lemma {:induction false} Regroup<T>(a: seq<T>, b: seq<T>, c: seq<T>)
    ensures (a + b) + c == a + (b + c)
  {
  }

  lemma {:induction false} EachOfNext(grids: seq<Grid>, g: Grid, f: Grid -> seq<Col>)
    ensures Each(grids + [g], f) == Each(grids, f) + [f(g)]
  {
    EachOfBoth(grids, [g], f);
  }
}
