/** How a cache of keys is dealt out to splits, and that dealing loses no key (aiter/mla.py). */
module TileDealing {
  import opened Buckets
  import opened RowMajor
  import Numbers

  /** The keys of all chunks, in order. */
  function Flatten<T>(chunks: seq<seq<T>>): seq<T> {
    if chunks == [] then [] else Flatten(chunks[..|chunks| - 1]) + chunks[|chunks| - 1]
  }

  /** The same keys, counted with repetition, in whatever order. */
  ghost predicate SameKeys<T>(a: seq<T>, b: seq<T>) {
    multiset(a) == multiset(b)
  }

  function Without<T>(keys: seq<T>, i: nat): (r: seq<T>)
    requires i < |keys|
    ensures |r| == |keys| - 1
  {
    keys[..i] + keys[i + 1..]
  }

  /** Where b keeps the last key of a, and that the other keys are the same again. */
  lemma {:induction false} TakeOut<T>(a: seq<T>, b: seq<T>) returns (i: nat)
    requires a != [] && SameKeys(a, b)
    ensures i < |b| && b[i] == a[|a| - 1] && SameKeys(a[..|a| - 1], Without(b, i))
  {
    var n := |a| - 1;
    assert a == a[..n] + [a[n]];
    assert a[n] in multiset(b);
    i :| 0 <= i < |b| && b[i] == a[n];
    assert b == b[..i] + [b[i]] + b[i + 1..];
    assert multiset(a[..n]) == multiset(a) - multiset{a[n]} == multiset(b) - multiset{b[i]} == multiset(Without(b, i));
  }

  lemma {:induction false} NoKeysLeft<T>(a: seq<T>, b: seq<T>)
    requires a == [] && SameKeys(a, b)
    ensures b == []
  {
    assert |multiset(b)| == |b|;
  }

  lemma {:induction false} FirstIsInFlat<T>(chunks: seq<seq<T>>)
    requires chunks != []
    ensures |chunks[0]| <= |Flatten(chunks)|
  {
    var n := |chunks| - 1;
    if n > 0 {
      FirstIsInFlat(chunks[..n]);
    } else {
      assert chunks[..n] == [];
    }
  }

  // ---------------------------------------------------------------------------
  // Dealing tiles of consecutive keys to the splits in turn
  // ---------------------------------------------------------------------------

  /** Key j lies in tile j / tile, and tile t goes to split t % n, behind what that split already has. */
  function Deal<T>(keys: seq<T>, tile: nat, n: nat): (chunks: seq<seq<T>>)
    requires tile > 0 && n > 0
    ensures |chunks| == n && forall chunk <- chunks, key <- chunk :: key in keys
  {
    if keys == [] then seq(n, _ => [])
    else
      var last := |keys| - 1;
      var before := Deal(keys[..last], tile, n);
      var s := (last / tile) % n;
      before[s := before[s] + [keys[last]]]
  }

  lemma {:induction false} FlattenOfEmpty<T>(chunks: seq<seq<T>>)
    requires forall s | 0 <= s < |chunks| :: chunks[s] == []
    ensures Flatten(chunks) == []
  {
    if chunks != [] {
      FlattenOfEmpty(chunks[..|chunks| - 1]);
    }
  }

  lemma {:induction false} FlattenLast<T>(front: seq<seq<T>>, last: seq<T>)
    ensures Flatten(front + [last]) == Flatten(front) + last
  {
    assert (front + [last])[..|front|] == front;
  }

  lemma {:induction false} MoreAtEnd<T>(a: seq<T>, b: seq<T>, key: T)
    ensures multiset(a + (b + [key])) == multiset(a + b) + multiset{key}
  {
    assert a + (b + [key]) == a + b + [key];
  }

  lemma {:induction false} MoreInFront<T>(a: seq<T>, a': seq<T>, b: seq<T>, key: T)
    requires multiset(a') == multiset(a) + multiset{key}
    ensures multiset(a' + b) == multiset(a + b) + multiset{key}
  {
  }

  lemma {:induction false} MoreOfFront<T>(front: seq<seq<T>>, more: seq<T>, last: seq<T>, s: nat)
    requires s < |front|
    ensures (front + [last])[s := more] == front[s := more] + [last]
  {
  }

  lemma {:induction false} MoreOfLast<T>(front: seq<seq<T>>, more: seq<T>, last: seq<T>)
    ensures (front + [last])[|front| := more] == front + [more]
  {
  }

  lemma {:induction false} FlattenOfMore<T>(chunks: seq<seq<T>>, s: nat, key: T)
    requires s < |chunks|
    ensures multiset(Flatten(chunks[s := chunks[s] + [key]])) == multiset(Flatten(chunks)) + multiset{key}
  {
    var n := |chunks| - 1;
    var front, last, more := chunks[..n], chunks[n], chunks[s] + [key];
    assert chunks == front + [last];
    FlattenLast(front, last);
    if s < n {
      FlattenOfMore(front, s, key);
      MoreOfFront(front, more, last, s);
      FlattenLast(front[s := more], last);
      MoreInFront(Flatten(front), Flatten(front[s := more]), last, key);
    } else {
      MoreOfLast(front, more, last);
      FlattenLast(front, more);
      MoreAtEnd(Flatten(front), last, key);
    }
  }

  lemma {:induction false} DealUnfolds<T>(keys: seq<T>, tile: nat, n: nat) returns (s: nat)
    requires tile > 0 && n > 0 && keys != []
    ensures s < n
    ensures var before := Deal(keys[..|keys| - 1], tile, n);
            Deal(keys, tile, n) == before[s := before[s] + [keys[|keys| - 1]]]
  {
    s := ((|keys| - 1) / tile) % n;
  }

  lemma {:induction false} LastKey<T>(keys: seq<T>)
    requires keys != []
    ensures multiset(keys) == multiset(keys[..|keys| - 1]) + multiset{keys[|keys| - 1]}
  {
    assert keys == keys[..|keys| - 1] + [keys[|keys| - 1]];
  }

  /** Every key goes to exactly one split. */
  lemma {:induction false} DealKeepsKeys<T>(keys: seq<T>, tile: nat, n: nat)
    requires tile > 0 && n > 0
    ensures SameKeys(Flatten(Deal(keys, tile, n)), keys)
  {
    if keys == [] {
      FlattenOfEmpty(Deal(keys, tile, n));
    } else {
      var front, key := keys[..|keys| - 1], keys[|keys| - 1];
      DealKeepsKeys(front, tile, n);
      var s := DealUnfolds(keys, tile, n);
      FlattenOfMore(Deal(front, tile, n), s, key);
      LastKey(keys);
    }
  }

  lemma {:induction false} TilesOfOneMore(length: nat, tile: nat)
    requires tile > 0
    ensures CeilDiv(length + 1, tile) == length / tile + 1
    ensures CeilDiv(length, tile) == if length % tile == 0 then length / tile else length / tile + 1
  {
    var q, r := length / tile, length % tile;
    assert length == q * tile + r;
    assert length + tile == (q + 1) * tile + r;
    DivMod(q + 1, tile, r);
    if r == 0 {
      DivMod(q, tile, tile - 1);
    } else {
      DivMod(q + 1, tile, r - 1);
    }
  }

  /** Tile t goes to split t % n, which is t itself in the first round. */
  lemma {:induction false} TurnOfTile(t: nat, n: nat, s: nat, tiles: nat)
    requires s < n && t <= tiles <= t + 1
    ensures s == t % n || s < tiles <==> s < t + 1
  {
  }

  lemma {:induction false} HoldsAfterTurn<T>(keys: seq<T>, tile: nat, n: nat, s: nat)
    requires tile > 0 && s < n && keys != []
    ensures var last := |keys| - 1;
            Deal(keys, tile, n)[s] != [] <==> s == (last / tile) % n || Deal(keys[..last], tile, n)[s] != []
  {
  }

  /** The splits with a key are exactly the first ceil(length / tile). */
  lemma {:induction false} FirstSplitsHoldKeys<T>(keys: seq<T>, tile: nat, n: nat, s: nat)
    requires tile > 0 && s < n
    ensures Deal(keys, tile, n)[s] != [] <==> s < CeilDiv(|keys|, tile)
  {
    if keys == [] {
      CeilDivBounds(0, tile);
    } else {
      var last := |keys| - 1;
      FirstSplitsHoldKeys(keys[..last], tile, n, s);
      HoldsAfterTurn(keys, tile, n, s);
      TilesOfOneMore(last, tile);
      TurnOfTile(last / tile, n, s, CeilDiv(last, tile));
    }
  }

  /** The splits that stage 2 visits hold all keys, and a first one holds a key. */
  lemma {:induction false} VisitedSplitsHoldAll<T>(keys: seq<T>, tile: nat, n: nat, visited: nat)
    requires tile > 0 && n > 0 && visited == Numbers.Min(n, CeilDiv(|keys|, tile))
    ensures SameKeys(Flatten(Deal(keys, tile, n)[..visited]), keys)
    ensures visited > 0 ==> Deal(keys, tile, n)[0] != []
  {
    var chunks := Deal(keys, tile, n);
    DealKeepsKeys(keys, tile, n);
    forall s | visited <= s < n
      ensures chunks[s] == []
    {
      FirstSplitsHoldKeys(keys, tile, n, s);
    }
    DropEmpty(chunks, visited);
    FirstSplitsHoldKeys(keys, tile, n, 0);
  }

  lemma {:induction false} DropEmpty<T>(chunks: seq<seq<T>>, k: nat)
    requires k <= |chunks| && forall s | k <= s < |chunks| :: chunks[s] == []
    ensures Flatten(chunks[..k]) == Flatten(chunks)
    decreases |chunks|
  {
    if k < |chunks| {
      var n := |chunks| - 1;
      DropEmpty(chunks[..n], k);
      assert chunks[..n][..k] == chunks[..k];
    } else {
      assert chunks[..k] == chunks;
    }
  }
}
