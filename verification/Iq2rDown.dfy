/** Tensor-parallel shards of the down matrix (aiter/iq2r_glm53.py, aiter/ops/iq2r_format.py): slicing its input
    columns commutes with packing. */
module Iq2rDown {
  import opened Iq2rLayout
  import opened Iq2rFormat
  import opened Results
  import opened RowMajor
  import Iq2rPack
  import Iq2rRecords

  /** A record of the slice belongs to the expert of the record behind it. */
  lemma {:induction false} SameExpert(experts: nat, groups: nat, tiles: nat, first: nat, count: nat, rec: nat)
    requires first + count <= tiles && rec < experts * groups * count
    ensures 0 < count && 0 <= FullRecord(tiles, first, count, rec) < experts * groups * tiles
    ensures 0 < groups * count && 0 < groups * tiles && rec / (groups * count) < experts
    ensures FullRecord(tiles, first, count, rec) / (groups * tiles) == rec / (groups * count)
  {
    FullRecordInside(experts * groups, tiles, first, count, rec);
    Split(rec, experts * groups, count);
    Split(rec / count, experts, groups);
    var e, g, t := rec / count / groups, rec / count % groups, rec % count;
    Below(g, groups, count, t);
    Below(g, groups, tiles, first + t);
    Nested(e, groups, g, count, t);
    Nested(e, groups, g, tiles, first + t);
    DivMod(e, groups * count, g * count + t);
    DivMod(e, groups * tiles, g * tiles + (first + t));
  }

  lemma {:induction false} Nested(e: nat, groups: nat, g: nat, width: nat, t: nat)
    ensures (e * groups + g) * width + t == e * (groups * width) + (g * width + t)
  {
    assert (e * groups + g) * width == e * groups * width + g * width;
    assert e * groups * width == e * (groups * width);
  }

  function DownShape(experts: nat, groups: nat, tiles: nat, auxCols: nat): Iq2rPack.Shape {
    Iq2rPack.Shape(experts, groups * tiles, auxCols)
  }

  /** Packing treats an atom by its expert's codebook only. */
  lemma {:induction false} SameFormFunction(z: Iq2rPack.Shape, z': Iq2rPack.Shape, planes: bool, aux: seq<bv8>,
                                            rec: nat, rec': nat, a: Atom<bv8>)
    requires Iq2rPack.HasBooks(aux, z.experts, z.auxCols) && z.experts == z'.experts && z.auxCols == z'.auxCols
    requires rec < z.experts * z.perExpert && rec' < z'.experts * z'.perExpert && 0 < z.perExpert && 0 < z'.perExpert
    requires rec / z.perExpert == rec' / z'.perExpert
    ensures Iq2rPack.FormFunction(z, planes, aux)(rec, a) == Iq2rPack.FormFunction(z', planes, aux)(rec', a)
  {
    Iq2rPack.FormApplied(z, planes, aux, rec, a);
    Iq2rPack.FormApplied(z', planes, aux, rec', a);
    SameBookOf(z, z', aux, rec, rec');
  }

  lemma {:induction false} SameBookOf(z: Iq2rPack.Shape, z': Iq2rPack.Shape, aux: seq<bv8>, rec: nat, rec': nat)
    requires Iq2rPack.HasBooks(aux, z.experts, z.auxCols) && z.experts == z'.experts && z.auxCols == z'.auxCols
    requires rec < z.experts * z.perExpert && rec' < z'.experts * z'.perExpert && 0 < z.perExpert && 0 < z'.perExpert
    requires rec / z.perExpert == rec' / z'.perExpert
    ensures z.BookOf(aux, rec) == z'.BookOf(aux, rec')
  {
    Iq2rRecords.ExpertInRange(rec, z.experts, z.perExpert);
  }

  /** Equal atoms that are rewritten alike stay equal. */
  lemma {:induction false} SameRewritten<T>(data: seq<T>, packed: seq<T>, records: nat, f: (nat, Atom<T>) -> Atom<T>,
                                            q: Pos, shard: seq<T>, packed': seq<T>, records': nat,
                                            f': (nat, Atom<T>) -> Atom<T>, p: Pos)
    requires RewrittenBy(data, packed, records, f) && RewrittenBy(shard, packed', records', f')
    requires q.Valid(records) && p.Valid(records')
    requires q.Base() + 8 <= |data| && q.Meta() < |data| && p.Base() + 8 <= |shard| && p.Meta() < |shard|
    requires AtomAt(data, q) == AtomAt(shard, p) && f(q.rec, AtomAt(data, q)) == f'(p.rec, AtomAt(data, q))
    ensures q.Base() + 8 <= |packed| && q.Meta() < |packed| && p.Base() + 8 <= |packed'| && p.Meta() < |packed'|
    ensures AtomAt(packed, q) == AtomAt(packed', p)
  {
    RewrittenAt(data, packed, records, f, q);
    RewrittenAt(shard, packed', records', f', p);
  }

  /** Atoms of a slice stay the slice's atoms when the record and the one behind it are rewritten alike. */
  lemma {:induction false} SlicedRewritten<T>(rows: nat, tiles: nat, first: nat, count: nat, data: seq<T>,
                                              packed: seq<T>, shard: seq<T>, packed': seq<T>,
                                              f: (nat, Atom<T>) -> Atom<T>, f': (nat, Atom<T>) -> Atom<T>, p: Pos)
    requires first + count <= tiles && |data| == |packed| == rows * tiles * RECORD
    requires shard == SlicedTiles(data, rows, tiles, first, count) && |packed'| == |shard|
    requires RewrittenBy(data, packed, rows * tiles, f) && RewrittenBy(shard, packed', rows * count, f')
    requires p.Valid(rows * count) && 0 < count && 0 <= FullRecord(tiles, first, count, p.rec)
    requires forall a :: f(FullRecord(tiles, first, count, p.rec), a) == f'(p.rec, a)
    ensures p.Base() + 8 <= |packed'| && p.Meta() < |packed'|
    ensures AtomAt(SlicedTiles(packed, rows, tiles, first, count), p) == AtomAt(packed', p)
  {
    SlicedAtom(data, rows, tiles, first, count, p);
    SlicedAtom(packed, rows, tiles, first, count, p);
    SameRewritten(data, packed, rows * tiles, f, FullPos(tiles, first, count, p), shard, packed', rows * count, f', p);
  }

  /** The packed form of a record of the slice is that of the record behind it. */
  lemma {:induction false} SameDownForm(experts: nat, groups: nat, tiles: nat, first: nat, count: nat, auxCols: nat,
                                        planes: bool, aux: seq<bv8>, f: (nat, Atom<bv8>) -> Atom<bv8>,
                                        f': (nat, Atom<bv8>) -> Atom<bv8>, rec: nat)
    requires first + count <= tiles && rec < experts * groups * count && Iq2rPack.HasBooks(aux, experts, auxCols)
    requires f == Iq2rPack.FormFunction(DownShape(experts, groups, tiles, auxCols), planes, aux)
    requires f' == Iq2rPack.FormFunction(DownShape(experts, groups, count, auxCols), planes, aux)
    ensures 0 < count && 0 <= FullRecord(tiles, first, count, rec)
    ensures forall a :: f(FullRecord(tiles, first, count, rec), a) == f'(rec, a)
  {
    SameExpert(experts, groups, tiles, first, count, rec);
    DataIsRecords(experts, groups, tiles);
    DataIsRecords(experts, groups, count);
    var q := FullRecord(tiles, first, count, rec);
    forall a
      ensures f(q, a) == f'(rec, a)
    {
      SameFormFunction(DownShape(experts, groups, tiles, auxCols), DownShape(experts, groups, count, auxCols),
                       planes, aux,
                       q, rec, a);
    }
  }

  lemma {:induction false} SameUnownedAfterPacking<T>(rows: nat, tiles: nat, first: nat, count: nat, data: seq<T>,
                                                      packed: seq<T>, shard: seq<T>, packed': seq<T>,
                                                      f: (nat, Atom<T>) -> Atom<T>, f': (nat, Atom<T>) -> Atom<T>,
                                                      i: nat)
    requires first + count <= tiles && |data| == |packed| == rows * tiles * RECORD
    requires shard == SlicedTiles(data, rows, tiles, first, count) && |packed'| == |shard|
    requires RewrittenBy(data, packed, rows * tiles, f) && RewrittenBy(shard, packed', rows * count, f')
    requires i < |packed'| && Unowned(rows * count, i)
    ensures SlicedTiles(packed, rows, tiles, first, count)[i] == packed'[i]
  {
    ByteInside(rows * count, i);
    var rec, o := i / RECORD, i % RECORD;
    SlicedTilesAt(data, rows, tiles, first, count, rec, o);
    SlicedTilesAt(packed, rows, tiles, first, count, rec, o);
    UnownedInSlice(rows, tiles, first, count, rec, o);
  }

  /** Taking whole tiles commutes with packing, byte for byte. */
  lemma {:induction false} TilesOfPackedArePackedTiles(experts: nat, groups: nat, tiles: nat, first: nat, count: nat,
                                                       auxCols: nat, planes: bool, aux: seq<bv8>, data: seq<bv8>,
                                                       packed: seq<bv8>, shard: seq<bv8>, packed': seq<bv8>,
                                                       f: (nat, Atom<bv8>) -> Atom<bv8>,
                                                       f': (nat, Atom<bv8>) -> Atom<bv8>)
    requires first + count <= tiles && |data| == |packed| == experts * groups * tiles * RECORD
    requires shard == SlicedTiles(data, experts * groups, tiles, first, count) && |packed'| == |shard|
    requires Iq2rPack.HasBooks(aux, experts, auxCols)
    requires f == Iq2rPack.FormFunction(DownShape(experts, groups, tiles, auxCols), planes, aux)
    requires f' == Iq2rPack.FormFunction(DownShape(experts, groups, count, auxCols), planes, aux)
    requires RewrittenBy(data, packed, experts * groups * tiles, f)
    requires RewrittenBy(shard, packed', experts * groups * count, f')
    ensures SlicedTiles(packed, experts * groups, tiles, first, count) == packed'
  {
    var records := experts * groups * count;
    var slice := SlicedTiles(packed, experts * groups, tiles, first, count);
    forall p: Pos | p.Valid(records)
      ensures p.Base() + 8 <= |packed'| && p.Meta() < |packed'| && AtomAt(slice, p) == AtomAt(packed', p)
    {
      SameDownForm(experts, groups, tiles, first, count, auxCols, planes, aux, f, f', p.rec);
      SlicedRewritten(experts * groups, tiles, first, count, data, packed, shard, packed', f, f', p);
    }
    forall i | 0 <= i < |slice| && Unowned(records, i)
      ensures slice[i] == packed'[i]
    {
      SameUnownedAfterPacking(experts * groups, tiles, first, count, data, packed, shard, packed', f, f', i);
    }
    SameBuffers(slice, packed', records);
  }

  /** Slicing the down matrix commutes with packing: the slice of the packed matrix is, byte for byte, the
      packed slice, and its auxiliary is the packed auxiliary as it is. */
  lemma {:induction false} DownSliceOfPackedIsPackedShard(experts: nat, n: int, k: int, start: int, length: int,
                                                          auxCols: nat, aux: seq<bv8>, data: seq<bv8>,
                                                          packed: seq<bv8>, aux1: seq<bv8>, shard: seq<bv8>,
                                                          packed': seq<bv8>, aux2: seq<bv8>)
    requires Stored(n, k) && |data| == experts * DataBytes(n / 16, k)
    requires SliceInput(data, experts, DataBytes(n / 16, k), n, k, start, length) == Ok(shard)
    requires var groups := PhysicalBlocks(n / 16) / 6;
             && DownShape(experts, groups, Tiles(k), auxCols).Holds(data, aux)
             && DownShape(experts, groups, length / 128, auxCols).Holds(shard, aux)
             && Iq2rPack.Packed(DownShape(experts, groups, Tiles(k), auxCols), false, data, aux, packed, aux1)
             && Iq2rPack.Packed(DownShape(experts, groups, length / 128, auxCols), false, shard, aux, packed', aux2)
    ensures |packed| == |data|
    ensures SliceInput(packed, experts, DataBytes(n / 16, k), n, k, start, length) == Ok(packed')
    ensures aux1 == aux2
  {
    var groups := PhysicalBlocks(n / 16) / 6;
    DataIsRecords(experts, groups, Tiles(k));
    DataIsRecords(experts, groups, length / 128);
    var f := Iq2rPack.FormFunction(DownShape(experts, groups, Tiles(k), auxCols), false, aux);
    var f' := Iq2rPack.FormFunction(DownShape(experts, groups, length / 128, auxCols), false, aux);
    TilesOfPackedArePackedTiles(experts, groups, Tiles(k), start / 128, length / 128, auxCols, false, aux, data, packed,
                                shard, packed', f, f');
  }
}
