/** The in-place record transforms of the IQ2R relayout (aiter/iq2r_glm53.py) over one byte buffer:
    every atom is rewritten where it lies, and every other byte stays. */
module Iq2rRecords {
  import opened Iq2rLayout
  import opened Iq2rBits
  import RowMajor

  // ---------------------------------------------------------------------------
  // One atom
  // ---------------------------------------------------------------------------

  /** The sign bytes after folding: word w is flipped by the signs of the codebook entry it selects. */
  function FoldedBytes(a: Atom<bv8>, signs: seq<bv8>): (r: seq<bv8>)
    requires |signs| == 512
    ensures |r| == 4
  {
    seq(4, w requires 0 <= w < 4 => a.Sign(w) ^ signs[CanonicalIndex(a.Low(w), a.meta, w) as int])
  }

  function FoldedAtom(a: Atom<bv8>, signs: seq<bv8>): Atom<bv8>
    requires |signs| == 512
  {
    PutBytes(a, 4, FoldedBytes(a, signs), 4)
  }

  lemma {:induction false} SumIsUnion(low: bv8, meta: bv8, w: nat)
    requires w < 4
    ensures (low as bv9) + ((MetaBit(meta, w) as bv9) << 8) == CanonicalIndex(low, meta, w)
  {
  }

  method ReadIndex(data: array<bv8>, p: Pos, word: nat, metadata: bv8) returns (index: bv9)
    requires Room(p, data.Length) && word < 4
    ensures index == CanonicalIndex(AtomAt(data[..], p).Low(word), metadata, word)
  {
    var low := data[p.Base() + word];
    SumIsUnion(low, metadata, word);
    index := (low as bv9) + ((MetaBit(metadata, word) as bv9) << 8);
  }

  method FoldedByte(data: array<bv8>, p: Pos, word: nat, metadata: bv8, signs: seq<bv8>, ghost a: Atom<bv8>)
    returns (v: bv8)
    requires Room(p, data.Length) && word < 4 && |signs| == 512 && metadata == a.meta
    requires AtomAt(data[..], p).Low(word) == a.Low(word) && AtomAt(data[..], p).Sign(word) == a.Sign(word)
    ensures v == FoldedBytes(a, signs)[word]
  {
    var index := ReadIndex(data, p, word, metadata);
    var sign := data[p.Base() + 4 + word];
    assert sign == AtomAt(data[..], p).Sign(word);
    v := sign ^ signs[index as int];
  }

  method FoldAtom(data: array<bv8>, p: Pos, signs: seq<bv8>)
    requires |signs| == 512 && Room(p, data.Length)
    modifies data
    ensures AtomAt(data[..], p) == FoldedAtom(old(AtomAt(data[..], p)), signs)
    ensures forall i | 0 <= i < data.Length && !p.Owns(i) :: data[i] == old(data[i])
  {
    ghost var a := AtomAt(data[..], p);
    ghost var folded := FoldedBytes(a, signs);
    var metadata := data[p.Meta()];
    for word := 0 to 4
      invariant AtomAt(data[..], p) == PutBytes(a, 4, folded, word)
      invariant forall i | 0 <= i < data.Length && !p.Owns(i) :: data[i] == old(data[i])
    {
      PutSignsKeeps(a, folded, word, word);
      var v := FoldedByte(data, p, word, metadata, signs, a);
      WriteByte(data, p, 4 + word, v);
    }
  }

  /** The four 9-bit indices gathered from the atom. */
  method CollectIndices(data: array<bv8>, p: Pos, metadata: bv8) returns (packed: bv36)
    requires Room(p, data.Length) && metadata == data[p.Meta()]
    ensures packed == Union(Fields(AtomAt(data[..], p)), 4)
  {
    packed := 0;
    ghost var fields := Fields(AtomAt(data[..], p));
    for word := 0 to 4
      invariant packed == Union(fields, word)
    {
      var index := ReadIndex(data, p, word, metadata);
      packed := packed | FieldAt(index, word);
    }
  }

  method PackAtom(data: array<bv8>, p: Pos)
    requires Room(p, data.Length)
    modifies data
    ensures AtomAt(data[..], p) == PackedAtom(old(AtomAt(data[..], p)))
    ensures forall i | 0 <= i < data.Length && !p.Owns(i) :: data[i] == old(data[i])
  {
    var metadata := data[p.Meta()];
    var packed := CollectIndices(data, p, metadata);
    WriteFour(data, p, 0, PackedBytes(packed));
    WriteByte(data, p, 8, PackedMeta(metadata, packed));
  }

  method MoveBits(word: bv32) returns (moved: bv32)
    ensures moved == Moved(word, 32)
  {
    moved := 0;
    var bit: bv32 := 0;
    while bit < 32
      invariant bit <= 32 && moved == Moved(word, bit)
      decreases 32 - bit
    {
      MovedStep(word, bit);
      moved := moved | (((word >> bit) & 1) << Destination(bit));
      bit := bit + 1;
    }
  }

  method TransposeAtom(data: array<bv8>, p: Pos)
    requires Room(p, data.Length)
    modifies data
    ensures AtomAt(data[..], p) == TransposedAtom(old(AtomAt(data[..], p)))
    ensures forall i | 0 <= i < data.Length && !p.Owns(i) :: data[i] == old(data[i])
  {
    var word := SignWord(AtomAt(data[..], p));
    var moved := MoveBits(word);
    WriteFour(data, p, 4, PlaneBytes(moved));
  }

  // ---------------------------------------------------------------------------
  // Every atom of the buffer
  // ---------------------------------------------------------------------------

  /** The three in-place passes; folding knows each expert's signs and the records per expert. */
  datatype Pass = FoldSigns(signs: seq<seq<bv8>>, perExpert: nat) | PackIndices | TransposeSigns {
    ghost predicate Ready(records: nat) {
      FoldSigns? ==>
        && records <= |signs| * perExpert
        && forall e :: 0 <= e < |signs| ==> |signs[e]| == 512
    }
  }

  lemma {:induction false} ExpertInRange(rec: nat, experts: nat, perExpert: nat)
    requires rec < experts * perExpert
    ensures 0 < perExpert && rec / perExpert < experts
  {
    RowMajor.Split(rec, experts, perExpert);
  }

  function Applied(pass: Pass, records: nat, rec: nat, a: Atom<bv8>): Atom<bv8>
    requires pass.Ready(records) && rec < records
  {
    match pass
    case FoldSigns(signs, perExpert) =>
      ExpertInRange(rec, |signs|, perExpert);
      FoldedAtom(a, signs[rec / perExpert])
    case PackIndices => PackedAtom(a)
    case TransposeSigns => TransposedAtom(a)
  }

  /** f is the pass, as a function of the record and the atom. */
  ghost predicate IsPass(f: (nat, Atom<bv8>) -> Atom<bv8>, pass: Pass, records: nat)
    requires pass.Ready(records)
  {
    forall rec: nat, a {:trigger Applied(pass, records, rec, a)} | rec < records ::
      f(rec, a) == Applied(pass, records, rec, a)
  }

  ghost function PassFunction(pass: Pass, records: nat): (f: (nat, Atom<bv8>) -> Atom<bv8>)
    requires pass.Ready(records)
    ensures IsPass(f, pass, records)
  {
    (rec: nat, a: Atom<bv8>) => if rec < records then Applied(pass, records, rec, a) else a
  }

  method RewriteAtom(data: array<bv8>, pass: Pass, ghost records: nat, p: Pos, ghost f: (nat, Atom<bv8>) -> Atom<bv8>)
    requires pass.Ready(records) && p.rec < records && Room(p, data.Length) && IsPass(f, pass, records)
    modifies data
    ensures AtomAt(data[..], p) == f(p.rec, old(AtomAt(data[..], p)))
    ensures forall i | 0 <= i < data.Length && !p.Owns(i) :: data[i] == old(data[i])
  {
    ghost var a := AtomAt(data[..], p);
    match pass {
      case FoldSigns(signs, perExpert) =>
        ExpertInRange(p.rec, |signs|, perExpert);
        FoldAtom(data, p, signs[p.rec / perExpert]);
      case PackIndices =>
        PackAtom(data, p);
      case TransposeSigns =>
        TransposeAtom(data, p);
    }
    assert AtomAt(data[..], p) == Applied(pass, records, p.rec, a);
  }

  /** The position a walk over records and lanes reaches in its n-th turn. */
  function Turn(triplet: nat, atom: nat, n: nat): Pos {
    Pos(n / LANES, triplet, atom, n % LANES)
  }

  lemma {:induction false} TurnInside(records: nat, triplet: nat, atom: nat, n: nat)
    requires triplet < 2 && atom < 3 && n < records * LANES
    ensures var p := Turn(triplet, atom, n);
            p.Valid(records) && p.rec * LANES + p.lane == n && Room(p, records * RECORD)
  {
    Inside(Turn(triplet, atom, n), records);
  }

  /** One turn of the walk. */
  method RewriteTurn(data: array<bv8>, records: nat, pass: Pass, p: Pos, n: nat,
                     ghost before: seq<bv8>, ghost f: (nat, Atom<bv8>) -> Atom<bv8>)
    requires pass.Ready(records) && data.Length == |before| == records * RECORD && p.Valid(records)
    requires IsPass(f, pass, records) && Room(p, data.Length) && n == p.rec * LANES + p.lane
    requires Progress(before, data[..], records, f, p.triplet, p.atom, n)
    modifies data
    ensures Progress(before, data[..], records, f, p.triplet, p.atom, n + 1)
  {
    ghost var now := data[..];
    RewriteAtom(data, pass, records, p, f);
    OneMore(before, now, data[..], records, f, p);
  }

  /** The walk over all records and lanes for one block of one triplet: the tensor operations of one atom. */
  method RewriteBlock(data: array<bv8>, records: nat, pass: Pass, triplet: nat, atom: nat,
                      ghost before: seq<bv8>, ghost f: (nat, Atom<bv8>) -> Atom<bv8>)
    requires pass.Ready(records) && data.Length == |before| == records * RECORD && triplet < 2 && atom < 3
    requires IsPass(f, pass, records)
    requires Progress(before, data[..], records, f, triplet, atom, 0)
    modifies data
    ensures Progress(before, data[..], records, f, triplet, atom, records * LANES)
  {
    for n := 0 to records * LANES
      invariant Progress(before, data[..], records, f, triplet, atom, n)
    {
      TurnInside(records, triplet, atom, n);
      RewriteTurn(data, records, pass, Turn(triplet, atom, n), n, before, f);
    }
  }

  /** One pass over the whole buffer. */
  method RewriteAtoms(data: array<bv8>, records: nat, pass: Pass, ghost f: (nat, Atom<bv8>) -> Atom<bv8>)
    requires pass.Ready(records) && data.Length == records * RECORD && IsPass(f, pass, records)
    modifies data
    ensures RewrittenBy(old(data[..]), data[..], records, f)
  {
    ghost var before := data[..];
    for triplet := 0 to 2
      invariant Progress(before, data[..], records, f, triplet, 0, 0)
    {
      for atom := 0 to 3
        invariant Progress(before, data[..], records, f, triplet, atom, 0)
        invariant atom == 3 ==> Progress(before, data[..], records, f, triplet + 1, 0, 0)
      {
        RewriteBlock(data, records, pass, triplet, atom, before, f);
        BlockDone(before, data[..], records, f, triplet, atom);
      }
    }
    AllDone(before, data[..], records, f);
  }
}
