/** Where the bytes of an IQ2R buffer lie (aiter/iq2r_glm53.py): records of two triplets of 16-column
    blocks, 64 lanes, and for every lane and block an atom of eight bytes with one metadata byte. */
module Iq2rLayout {

  const RECORD := 3584
  const TRIPLET := 1792
  const LANES := 64

  /** One atom of one lane: record, triplet of 16-column blocks, block within the triplet, lane. */
  datatype Pos = Pos(rec: nat, triplet: nat, atom: nat, lane: nat) {
    predicate Valid(records: nat) {
      rec < records && triplet < 2 && atom < 3 && lane < LANES
    }

    /** The first of the eight atom bytes: two atoms share a 16-byte pair, the third has its own area. */
    function Base(): nat {
      rec * RECORD + triplet * TRIPLET + if atom < 2 then lane * 16 + atom * 8 else 1024 + lane * 12
    }

    /** The metadata byte, in the 12-byte area of the lane. */
    function Meta(): nat {
      rec * RECORD + triplet * TRIPLET + 1024 + lane * 12 + 8 + atom
    }

    predicate Owns(i: int) {
      Base() <= i < Base() + 8 || i == Meta()
    }
  }

  lemma {:induction false} Inside(p: Pos, records: nat)
    requires p.Valid(records)
    ensures p.Base() + 8 <= records * RECORD && p.Meta() < records * RECORD
    ensures !(p.Base() <= p.Meta() < p.Base() + 8)
  {
  }

  /** Within one triplet: where the owned bytes of an atom may lie. */
  ghost predicate OwnsLocal(atom: nat, lane: nat, o: int) {
    if atom < 2 then lane * 16 + atom * 8 <= o < lane * 16 + atom * 8 + 8 || o == 1024 + lane * 12 + 8 + atom
    else 1024 + lane * 12 <= o < 1024 + lane * 12 + 8 || o == 1024 + lane * 12 + 8 + atom
  }

  lemma {:induction false} LocalApart(atom: nat, lane: nat, atom': nat, lane': nat, o: int)
    requires atom < 3 && atom' < 3 && lane < LANES && lane' < LANES
    requires OwnsLocal(atom, lane, o) && OwnsLocal(atom', lane', o)
    ensures atom == atom' && lane == lane'
  {
    if o < 1024 {
      assert lane == lane';
    } else {
      assert lane == lane';
    }
  }

  lemma {:induction false} LocalInside(atom: nat, lane: nat, o: int)
    requires atom < 3 && lane < LANES && OwnsLocal(atom, lane, o)
    ensures 0 <= o < TRIPLET
  {
  }

  /** No byte belongs to two atoms. */
  lemma {:induction false} AtomsApart(p: Pos, q: Pos, records: nat, i: int)
    requires p.Valid(records) && q.Valid(records) && p.Owns(i) && q.Owns(i)
    ensures p == q
  {
    var o, o' := i - p.rec * RECORD - p.triplet * TRIPLET, i - q.rec * RECORD - q.triplet * TRIPLET;
    LocalInside(p.atom, p.lane, o);
    LocalInside(q.atom, q.lane, o');
    assert p.rec * 2 + p.triplet == q.rec * 2 + q.triplet;
    LocalApart(p.atom, p.lane, q.atom, q.lane, o);
  }

  /** The low index bytes, the sign bytes and the metadata byte of an atom. */
  datatype Atom<T> = Atom(i0: T, i1: T, i2: T, i3: T, s0: T, s1: T, s2: T, s3: T, meta: T) {
    function Low(w: nat): T
      requires w < 4
    {
      if w == 0 then i0 else if w == 1 then i1 else if w == 2 then i2 else i3
    }

    function Sign(w: nat): T
      requires w < 4
    {
      if w == 0 then s0 else if w == 1 then s1 else if w == 2 then s2 else s3
    }
  }

  function AtomFrom<T>(data: seq<T>, b: nat, m: nat): Atom<T>
    requires b + 8 <= |data| && m < |data|
  {
    Atom(data[b], data[b + 1], data[b + 2], data[b + 3], data[b + 4], data[b + 5], data[b + 6], data[b + 7], data[m])
  }

  function AtomAt<T>(data: seq<T>, p: Pos): Atom<T>
    requires p.Base() + 8 <= |data| && p.Meta() < |data|
  {
    AtomFrom(data, p.Base(), p.Meta())
  }

  lemma {:induction false} SameAtom<T>(data: seq<T>, data': seq<T>, p: Pos)
    requires p.Base() + 8 <= |data| == |data'| && p.Meta() < |data|
    requires forall i | 0 <= i < |data| && p.Owns(i) :: data'[i] == data[i]
    ensures AtomAt(data', p) == AtomAt(data, p)
  {
  }

  /** Byte k of an atom is replaced; byte 8 is the metadata. */
  function SetByte<T>(a: Atom<T>, k: nat, v: T): Atom<T> {
    if k == 0 then a.(i0 := v) else if k == 1 then a.(i1 := v)
    else if k == 2 then a.(i2 := v) else if k == 3 then a.(i3 := v)
    else if k == 4 then a.(s0 := v) else if k == 5 then a.(s1 := v)
    else if k == 6 then a.(s2 := v) else if k == 7 then a.(s3 := v)
    else a.(meta := v)
  }

  lemma {:induction false} SetOneByte<T>(data: seq<T>, b: nat, m: nat, k: nat, v: T)
    requires b + 8 <= |data| && m < |data| && !(b <= m < b + 8) && k < 8
    ensures AtomFrom(data[b + k := v], b, m) == SetByte(AtomFrom(data, b, m), k, v)
  {
  }

  /** The first n of four bytes written from byte start on. */
  function PutBytes<T>(a: Atom<T>, start: nat, bytes: seq<T>, n: nat): Atom<T>
    requires n <= |bytes|
  {
    if n == 0 then a else SetByte(PutBytes(a, start, bytes, n - 1), start + n - 1, bytes[n - 1])
  }

  lemma {:induction false} PutFour<T>(a: Atom<T>, x: seq<T>)
    requires |x| == 4
    ensures PutBytes(a, 0, x, 4) == a.(i0 := x[0], i1 := x[1], i2 := x[2], i3 := x[3])
    ensures PutBytes(a, 4, x, 4) == a.(s0 := x[0], s1 := x[1], s2 := x[2], s3 := x[3])
  {
    assert PutBytes(a, 0, x, 1) == a.(i0 := x[0]) && PutBytes(a, 4, x, 1) == a.(s0 := x[0]);
    assert PutBytes(a, 0, x, 2) == a.(i0 := x[0], i1 := x[1]) && PutBytes(a, 4, x, 2) == a.(s0 := x[0], s1 := x[1]);
    assert PutBytes(a, 0, x, 3) == a.(i0 := x[0], i1 := x[1], i2 := x[2]);
    assert PutBytes(a, 4, x, 3) == a.(s0 := x[0], s1 := x[1], s2 := x[2]);
  }

  lemma {:induction false} PutSignsKeeps<T>(a: Atom<T>, x: seq<T>, n: nat, w: nat)
    requires n <= |x| == 4 && w < 4
    ensures PutBytes(a, 4, x, n).Low(w) == a.Low(w) && PutBytes(a, 4, x, n).meta == a.meta
    ensures PutBytes(a, 4, x, n).Sign(w) == if w < n then x[w] else a.Sign(w)
  {
    if n > 0 {
      PutSignsKeeps(a, x, n - 1, w);
    }
  }

  ghost predicate Room(p: Pos, length: nat) {
    p.Base() + 8 <= length && p.Meta() < length && !(p.Base() <= p.Meta() < p.Base() + 8)
  }

  method WriteByte<T>(data: array<T>, p: Pos, k: nat, v: T)
    requires Room(p, data.Length) && k < 9
    modifies data
    ensures AtomAt(data[..], p) == SetByte(old(AtomAt(data[..], p)), k, v)
    ensures forall i | 0 <= i < data.Length && !p.Owns(i) :: data[i] == old(data[i])
  {
    var b, m := p.Base(), p.Meta();
    ghost var was := data[..];
    if k < 8 {
      SetOneByte(was, b, m, k, v);
      data[b + k] := v;
      assert data[..] == was[b + k := v];
    } else {
      data[m] := v;
    }
  }

  /** The four bytes of one half of an atom, written in order. */
  method WriteFour<T>(data: array<T>, p: Pos, start: nat, bytes: seq<T>)
    requires Room(p, data.Length) && |bytes| == 4 && (start == 0 || start == 4)
    modifies data
    ensures AtomAt(data[..], p) == PutBytes(old(AtomAt(data[..], p)), start, bytes, 4)
    ensures forall i | 0 <= i < data.Length && !p.Owns(i) :: data[i] == old(data[i])
  {
    for k := 0 to 4
      invariant AtomAt(data[..], p) == PutBytes(old(AtomAt(data[..], p)), start, bytes, k)
      invariant forall i | 0 <= i < data.Length && !p.Owns(i) :: data[i] == old(data[i])
    {
      WriteByte(data, p, start + k, bytes[k]);
    }
  }

  // ---------------------------------------------------------------------------
  // Rewriting every atom of a buffer
  // ---------------------------------------------------------------------------

  ghost predicate Unowned(records: nat, i: int) {
    forall p: Pos | p.Valid(records) :: !p.Owns(i)
  }

  /** Every atom is what f makes of the old one, given its record; no other byte changed. */
  ghost predicate RewrittenBy<T>(before: seq<T>, now: seq<T>, records: nat, f: (nat, Atom<T>) -> Atom<T>) {
    && |before| == |now| == records * RECORD
    && (forall p: Pos | p.Valid(records) ::
          Inside(p, records);
          AtomAt(now, p) == f(p.rec, AtomAt(before, p)))
    && (forall i | 0 <= i < |now| && Unowned(records, i) :: now[i] == before[i])
  }

  lemma {:induction false} RewrittenAt<T>(before: seq<T>, now: seq<T>, records: nat, f: (nat, Atom<T>) -> Atom<T>,
                                          p: Pos)
    requires RewrittenBy(before, now, records, f) && p.Valid(records)
    ensures p.Base() + 8 <= |before| == |now| && p.Meta() < |before|
    ensures AtomAt(now, p) == f(p.rec, AtomAt(before, p))
  {
    Inside(p, records);
  }

  /** Two rewrites in a row are one rewrite by the composition. */
  lemma {:induction false} Compose<T>(a: seq<T>, b: seq<T>, c: seq<T>, records: nat, f: (nat, Atom<T>) -> Atom<T>,
                                      g: (nat, Atom<T>) -> Atom<T>, h: (nat, Atom<T>) -> Atom<T>)
    requires RewrittenBy(a, b, records, f) && RewrittenBy(b, c, records, g)
    requires forall rec, x | 0 <= rec < records :: h(rec, x) == g(rec, f(rec, x))
    ensures RewrittenBy(a, c, records, h)
  {
    forall p: Pos | p.Valid(records)
      ensures p.Base() + 8 <= |c| && p.Meta() < |c|
      ensures AtomAt(c, p) == h(p.rec, AtomAt(a, p))
    {
      RewrittenAt(a, b, records, f, p);
      RewrittenAt(b, c, records, g, p);
    }
  }

  /** The order of the walk: triplet, then block within it, then record and lane together. */
  ghost predicate Earlier(p: Pos, triplet: nat, atom: nat, n: nat) {
    p.triplet < triplet
    || (p.triplet == triplet && (p.atom < atom || (p.atom == atom && p.rec * LANES + p.lane < n)))
  }

  /** Atoms before the cursor are rewritten, the others still old, the unowned bytes untouched. */
  ghost predicate Progress<T>(before: seq<T>, now: seq<T>, records: nat, f: (nat, Atom<T>) -> Atom<T>, triplet: nat,
                              atom: nat, n: nat)
    requires |before| == |now| == records * RECORD
  {
    && (forall p: Pos | p.Valid(records) ::
          Inside(p, records);
          AtomAt(now, p) == if Earlier(p, triplet, atom, n) then f(p.rec, AtomAt(before, p)) else AtomAt(before, p))
    && (forall i | 0 <= i < |now| && Unowned(records, i) :: now[i] == before[i])
  }

  lemma {:induction false} OneMore<T>(before: seq<T>, now: seq<T>, next: seq<T>, records: nat,
                                      f: (nat, Atom<T>) -> Atom<T>, p: Pos)
    requires |before| == |now| == |next| == records * RECORD && p.Valid(records)
    requires Progress(before, now, records, f, p.triplet, p.atom, p.rec * LANES + p.lane)
    requires p.Base() + 8 <= |now| && p.Meta() < |now|
    requires AtomAt(next, p) == f(p.rec, AtomAt(now, p))
    requires forall i | 0 <= i < |now| && !p.Owns(i) :: next[i] == now[i]
    ensures Progress(before, next, records, f, p.triplet, p.atom, p.rec * LANES + p.lane + 1)
  {
    forall q: Pos | q.Valid(records)
      ensures q.Base() + 8 <= |next| && q.Meta() < |next|
      ensures AtomAt(next, q) == if Earlier(q, p.triplet, p.atom, p.rec * LANES + p.lane + 1)
                                 then f(q.rec, AtomAt(before, q)) else AtomAt(before, q)
    {
      Inside(q, records);
      if q != p {
        forall i | 0 <= i < |now| && q.Owns(i)
          ensures next[i] == now[i]
        {
          if p.Owns(i) {
            AtomsApart(p, q, records, i);
          }
        }
        SameAtom(now, next, q);
      }
    }
  }

  lemma {:induction false} BlockDone<T>(before: seq<T>, now: seq<T>, records: nat, f: (nat, Atom<T>) -> Atom<T>,
                                        triplet: nat, atom: nat)
    requires |before| == |now| == records * RECORD && atom < 3
    requires Progress(before, now, records, f, triplet, atom, records * LANES)
    ensures Progress(before, now, records, f, triplet, atom + 1, 0)
    ensures atom == 2 ==> Progress(before, now, records, f, triplet + 1, 0, 0)
  {
    forall p: Pos | p.Valid(records)
      ensures Earlier(p, triplet, atom, records * LANES) == Earlier(p, triplet, atom + 1, 0)
      ensures atom == 2 ==> Earlier(p, triplet, atom, records * LANES) == Earlier(p, triplet + 1, 0, 0)
    {
      assert p.rec * LANES + p.lane < records * LANES;
    }
  }

  lemma {:induction false} AllDone<T>(before: seq<T>, now: seq<T>, records: nat, f: (nat, Atom<T>) -> Atom<T>)
    requires |before| == |now| == records * RECORD
    requires Progress(before, now, records, f, 2, 0, 0)
    ensures RewrittenBy(before, now, records, f)
  {
    assert forall p: Pos | p.Valid(records) :: Earlier(p, 2, 0, 0);
  }
}
