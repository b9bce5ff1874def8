/** Positions in row-major tensors of any rank: the digits of a mixed-radix number, outermost first. */
module MixedRadix {
  import opened RowMajor

  /** The flat position of coordinates ds in a tensor whose inner widths are ws. */
  function At(ws: seq<nat>, ds: seq<nat>): nat
    requires |ds| == |ws| + 1
  {
    if ws == [] then ds[0] else At(ws[..|ws| - 1], ds[..|ws|]) * ws[|ws| - 1] + ds[|ws|]
  }

  ghost predicate Fits(ws: seq<nat>, ds: seq<nat>) {
    |ds| == |ws| + 1 && forall i {:trigger ws[i]} :: 0 <= i < |ws| ==> ds[i + 1] < ws[i]
  }

  ghost predicate Positive(ws: seq<nat>) {
    forall i :: 0 <= i < |ws| ==> 0 < ws[i]
  }

  /** The coordinates of a flat position. */
  function Digits(ws: seq<nat>, i: nat): (ds: seq<nat>)
    requires forall j :: 0 <= j < |ws| ==> 0 < ws[j]
    ensures |ds| == |ws| + 1
  {
    if ws == [] then [i] else Digits(ws[..|ws| - 1], i / ws[|ws| - 1]) + [i % ws[|ws| - 1]]
  }

  /** How many cells n outer rows have. */
  function Size(n: nat, ws: seq<nat>): nat {
    if ws == [] then n else Size(n, ws[..|ws| - 1]) * ws[|ws| - 1]
  }

  lemma {:induction false} FrontFits(ws: seq<nat>, ds: seq<nat>)
    requires Fits(ws, ds) && ws != []
    ensures Fits(ws[..|ws| - 1], ds[..|ws|]) && ds[|ws|] < ws[|ws| - 1]
  {
  }

  lemma {:induction false} DigitsOfAt(ws: seq<nat>, ds: seq<nat>)
    requires Fits(ws, ds) && Positive(ws)
    ensures Digits(ws, At(ws, ds)) == ds
  {
    if ws != [] {
      var n := |ws| - 1;
      FrontFits(ws, ds);
      DigitsOfAt(ws[..n], ds[..n + 1]);
      DivMod(At(ws[..n], ds[..n + 1]), ws[n], ds[n + 1]);
      assert ds == ds[..n + 1] + [ds[n + 1]];
    }
  }

  lemma {:induction false} AtOfDigits(ws: seq<nat>, i: nat, rows: nat)
    requires i < Size(rows, ws)
    ensures Positive(ws)
    ensures Fits(ws, Digits(ws, i)) && At(ws, Digits(ws, i)) == i && Digits(ws, i)[0] < rows
  {
    if ws != [] {
      var n := |ws| - 1;
      Split(i, Size(rows, ws[..n]), ws[n]);
      AtOfDigits(ws[..n], i / ws[n], rows);
      assert forall j :: 0 <= j < n ==> ws[j] == ws[..n][j];
      var front, ds := Digits(ws[..n], i / ws[n]), Digits(ws, i);
      assert ds[..n + 1] == front;
      forall j | 0 <= j < |ws|
        ensures ds[j + 1] < ws[j]
      {
        if j < n {
          assert front[j + 1] < ws[..n][j];
        }
      }
    }
  }

  lemma {:induction false} AtInside(ws: seq<nat>, ds: seq<nat>, rows: nat)
    requires Fits(ws, ds) && ds[0] < rows
    ensures At(ws, ds) < Size(rows, ws)
  {
    if ws != [] {
      var n := |ws| - 1;
      FrontFits(ws, ds);
      AtInside(ws[..n], ds[..n + 1], rows);
      Below(At(ws[..n], ds[..n + 1]), Size(rows, ws[..n]), ws[n], ds[n + 1]);
    }
  }

  lemma {:induction false} SizeOfTwo(n: nat, a: nat, b: nat)
    ensures Size(n, [a, b]) == n * a * b
  {
    assert Size(n, [a]) == Size(n, [a][..0]) * a == n * a;
    assert [a, b][..1] == [a];
  }

  lemma {:induction false} SizeOfMore(n: nat, ws: seq<nat>, w: nat)
    ensures Size(n, ws + [w]) == Size(n, ws) * w
  {
    assert (ws + [w])[..|ws|] == ws;
  }

  /** Swapping the two outermost widths keeps the size. */
  lemma {:induction false} SizeSwapped(n: nat, a: nat, b: nat, c: nat, d: nat)
    ensures Size(n, [a, b, c, d]) == Size(n, [b, a, c, d])
  {
    SizeOfTwo(n, a, b);
    SizeOfTwo(n, b, a);
    assert n * a * b == n * b * a;
    assert [a, b, c] == [a, b] + [c] && [b, a, c] == [b, a] + [c];
    SizeOfMore(n, [a, b], c);
    SizeOfMore(n, [b, a], c);
    assert [a, b, c, d] == [a, b, c] + [d] && [b, a, c, d] == [b, a, c] + [d];
    SizeOfMore(n, [a, b, c], d);
    SizeOfMore(n, [b, a, c], d);
  }

  /** Rank five, written out. */
  lemma {:induction false} AtOfFive(ws: seq<nat>, ds: seq<nat>)
    requires |ws| == 4 && |ds| == 5
    ensures At(ws, ds) == (((ds[0] * ws[0] + ds[1]) * ws[1] + ds[2]) * ws[2] + ds[3]) * ws[3] + ds[4]
  {
    AtStep(ws, ds);
    AtStep(ws[..3], ds[..4]);
    AtStep(ws[..3][..2], ds[..4][..3]);
    AtStep(ws[..3][..2][..1], ds[..4][..3][..2]);
  }

  lemma {:induction false} AtStep(ws: seq<nat>, ds: seq<nat>)
    requires |ds| == |ws| + 1 && ws != []
    ensures At(ws, ds) == At(ws[..|ws| - 1], ds[..|ws|]) * ws[|ws| - 1] + ds[|ws|]
    ensures |ws| == 1 ==> At(ws, ds) == ds[0] * ws[0] + ds[1]
  {
  }
}
