/** Slicing canonical or packed IQ2R buffers (aiter/ops/iq2r_format.py): the auxiliary by output columns and
    the records by input columns. */
module Iq2rFormat {
  import opened Iq2rLayout
  import opened Results
  import opened RowMajor

  const BOOK := 4096

  /** 16-column blocks, rounded up to whole groups of six. */
  function PhysicalBlocks(blocks: nat): nat {
    (blocks + 5) / 6 * 6
  }

  /** A codebook, a base exponent for every physical block, and three bytes of padding. */
  function AuxBytes(blocks: nat): nat {
    BOOK + PhysicalBlocks(blocks) + 3
  }

  function Tiles(k: nat): nat {
    (k + 127) / 128
  }

  function DataBytes(blocks: nat, k: nat): nat {
    PhysicalBlocks(blocks) / 6 * Tiles(k) * RECORD
  }

  /** The logical widths the format stores. */
  predicate Stored(n: int, k: int) {
    0 < n && n % 16 == 0 && 0 < k && k % 32 == 0
  }

  // ---------------------------------------------------------------------------
  // The auxiliary by output columns
  // ---------------------------------------------------------------------------

  /** Byte k of expert e in the slice that starts at block first; fill is the unused exponent. */
  function AuxByte<T>(aux: seq<T>, cols: nat, first: nat, blocks: nat, fill: T, e: nat, k: nat): T
    requires e * cols + BOOK + first + blocks <= |aux|
  {
    if k < BOOK then aux[e * cols + k] else if k < BOOK + blocks then aux[e * cols + first + k] else fill
  }

  lemma {:induction false} RowFits(experts: nat, cols: nat, e: nat, k: nat)
    requires e < experts && k <= cols
    ensures e * cols + k <= experts * cols
  {
    MulMonotone(e + 1, experts, cols);
    assert (e + 1) * cols == e * cols + cols;
  }

  lemma {:induction false} AuxInside(experts: nat, cols: nat, width: nat, n: nat, need: nat)
    requires n < experts * width && need <= cols
    ensures 0 < width && 0 <= n / width && n / width * cols + need <= experts * cols
  {
    Split(n, experts, width);
    RowFits(experts, cols, n / width, need);
  }

  function SlicedAux<T>(aux: seq<T>, experts: nat, cols: nat, first: nat, blocks: nat, fill: T, width: nat): (r: seq<T>)
    requires |aux| == experts * cols && BOOK + first + blocks <= cols
    ensures |r| == experts * width
  {
    seq(experts * width, n requires 0 <= n < experts * width =>
          AuxInside(experts, cols, width, n, BOOK + first + blocks);
          AuxByte(aux, cols, first, blocks, fill, n / width, n % width))
  }

  lemma {:induction false} SlicedAuxAt<T>(aux: seq<T>, experts: nat, cols: nat, first: nat, blocks: nat, fill: T,
                                          width: nat, e: nat, k: nat)
    requires |aux| == experts * cols && BOOK + first + blocks <= cols && e < experts && k < width
    ensures e * cols + BOOK + first + blocks <= |aux| && e * width + k < experts * width
    ensures SlicedAux(aux, experts, cols, first, blocks, fill, width)[e * width + k]
         == AuxByte(aux, cols, first, blocks, fill, e, k)
  {
    RowFits(experts, cols, e, BOOK + first + blocks);
    Below(e, experts, width, k);
    DivMod(e, width, k);
  }

  /** iq2r_slice_output_auxiliary, for a matrix of n columns. */
  function SliceAux(aux: seq<bv8>, experts: nat, cols: nat, n: int, start: int, length: int): (r: Result<seq<bv8>>)
    requires |aux| == experts * cols
    ensures r.Ok? <==>
            && 0 < n && n % 16 == 0 && cols == AuxBytes(n / 16)
            && 0 < length && 0 <= start && start % 16 == 0 && length % 16 == 0 && start + length <= n
    ensures r.Ok? ==> |r.value| == experts * AuxBytes(length / 16)
  {
    if n <= 0 || n % 16 != 0 then Err("IQ2R requires N divisible by 16")
    else if cols != AuxBytes(n / 16) then Err("unexpected auxiliary bytes per expert")
    else if length <= 0 || start < 0 || start % 16 != 0 || length % 16 != 0 || start + length > n then
      Err("IQ2R output slice must be in range and aligned to 16 columns")
    else Ok(SlicedAux(aux, experts, cols, start / 16, length / 16, 127, AuxBytes(length / 16)))
  }

  /** Which exponent the slice holds: byte 4096 + t of expert e's row is the exponent of the full matrix's block
      start / 16 + t; the bytes behind the logical blocks are 127. */
  lemma {:induction false} SlicedExponent(aux: seq<bv8>, experts: nat, cols: nat, n: int, start: int, length: int,
                                          aux': seq<bv8>, e: nat, t: nat)
    requires |aux| == experts * cols && SliceAux(aux, experts, cols, n, start, length) == Ok(aux')
    requires e < experts && 4096 + t < AuxBytes(length / 16)
    ensures e * AuxBytes(length / 16) + 4096 + t < |aux'|
    ensures t < length / 16 ==>
              0 <= e * cols + 4096 + start / 16 + t < |aux|
              && aux'[e * AuxBytes(length / 16) + 4096 + t] == aux[e * cols + 4096 + start / 16 + t]
    ensures t >= length / 16 ==> aux'[e * AuxBytes(length / 16) + 4096 + t] == 127
  {
    ExponentOfSlice(aux, experts, cols, start / 16, length / 16, 127 as bv8, AuxBytes(length / 16), e, t);
  }

  lemma {:induction false} ExponentOfSlice<T>(aux: seq<T>, experts: nat, cols: nat, first: nat, blocks: nat, fill: T,
                                              width: nat, e: nat, t: nat)
    requires |aux| == experts * cols && BOOK + first + blocks <= cols && e < experts && BOOK + t < width
    ensures 0 <= e * width + BOOK + t < experts * width
    ensures t < blocks ==> 0 <= e * cols + BOOK + first + t < |aux|
    ensures SlicedAux(aux, experts, cols, first, blocks, fill, width)[e * width + BOOK + t]
         == if t < blocks then aux[e * cols + BOOK + first + t] else fill
  {
    SlicedAuxAt(aux, experts, cols, first, blocks, fill, width, e, BOOK + t);
    RowFits(experts, cols, e, BOOK + first + blocks);
    RowFits(experts, width, e, BOOK + t);
  }

  /** The sizes: whole groups of six blocks, whole tiles of 128 inputs, and never more than needed. */
  lemma {:induction false} SizesAreLeast(blocks: nat, k: nat)
    ensures PhysicalBlocks(blocks) % 6 == 0 && blocks <= PhysicalBlocks(blocks) < blocks + 6
    ensures k <= 128 * Tiles(k) < k + 128
    ensures AuxBytes(blocks) == 512 * 8 + PhysicalBlocks(blocks) + 3
    ensures DataBytes(blocks, k) == PhysicalBlocks(blocks) / 6 * Tiles(k) * 3584
  {
  }

  /** The auxiliary with every codebook byte changed by clear and the exponents kept. */
  function ClearedAux<T>(aux: seq<T>, cols: nat, clear: T -> T): (r: seq<T>)
    requires 0 < cols
    ensures |r| == |aux|
  {
    seq(|aux|, i requires 0 <= i < |aux| => if i % cols < BOOK then clear(aux[i]) else aux[i])
  }

  lemma {:induction false} ClearedAuxAt<T>(aux: seq<T>, experts: nat, cols: nat, clear: T -> T, e: nat, k: nat)
    requires |aux| == experts * cols && e < experts && k < cols
    ensures e * cols + k < |aux|
    ensures ClearedAux(aux, cols, clear)[e * cols + k] == if k < BOOK then clear(aux[e * cols + k])
            else aux[e * cols + k]
  {
    Below(e, experts, cols, k);
    DivMod(e, cols, k);
  }

  /** Slicing the auxiliary and clearing its codebook signs commute. */
  lemma {:induction false} SliceOfClearedIsClearedSlice<T>(aux: seq<T>, experts: nat, cols: nat, first: nat,
                                                           blocks: nat, fill: T, width: nat, clear: T -> T)
    requires |aux| == experts * cols && BOOK + first + blocks <= cols && 0 < width
    ensures SlicedAux(ClearedAux(aux, cols, clear), experts, cols, first, blocks, fill, width)
         == ClearedAux(SlicedAux(aux, experts, cols, first, blocks, fill, width), width, clear)
  {
    var a := SlicedAux(ClearedAux(aux, cols, clear), experts, cols, first, blocks, fill, width);
    var b := ClearedAux(SlicedAux(aux, experts, cols, first, blocks, fill, width), width, clear);
    forall n | 0 <= n < |a|
      ensures a[n] == b[n]
    {
      Split(n, experts, width);
      SameAuxByte(aux, experts, cols, first, blocks, fill, width, clear, n / width, n % width);
    }
  }

  lemma {:induction false} SameAuxByte<T>(aux: seq<T>, experts: nat, cols: nat, first: nat, blocks: nat, fill: T,
                                          width: nat, clear: T -> T, e: nat, k: nat)
    requires |aux| == experts * cols && BOOK + first + blocks <= cols && e < experts && k < width
    ensures e * width + k < experts * width
    ensures SlicedAux(ClearedAux(aux, cols, clear), experts, cols, first, blocks, fill, width)[e * width + k]
         == ClearedAux(SlicedAux(aux, experts, cols, first, blocks, fill, width), width, clear)[e * width + k]
  {
    SlicedAuxAt(aux, experts, cols, first, blocks, fill, width, e, k);
    SlicedAuxAt(ClearedAux(aux, cols, clear), experts, cols, first, blocks, fill, width, e, k);
    ClearedAuxAt(SlicedAux(aux, experts, cols, first, blocks, fill, width), experts, width, clear, e, k);
    if k < BOOK {
      ClearedAuxAt(aux, experts, cols, clear, e, k);
    } else if k < BOOK + blocks {
      ClearedAuxAt(aux, experts, cols, clear, e, first + k);
    }
  }

  /** The slice keeps every expert's codebook. */
  lemma {:induction false} SliceKeepsBooks<T>(aux: seq<T>, experts: nat, cols: nat, first: nat, blocks: nat, fill: T,
                                              width: nat, e: nat)
    requires |aux| == experts * cols && BOOK + first + blocks <= cols && e < experts && BOOK <= width
    ensures e * cols + BOOK <= |aux| && e * width + BOOK <= experts * width
    ensures SlicedAux(aux, experts, cols, first, blocks, fill, width)[e * width..e * width + BOOK]
         == aux[e * cols..e * cols + BOOK]
  {
    RowFits(experts, cols, e, BOOK);
    RowFits(experts, width, e, BOOK);
    var a := SlicedAux(aux, experts, cols, first, blocks, fill, width)[e * width..e * width + BOOK];
    var b := aux[e * cols..e * cols + BOOK];
    forall k | 0 <= k < BOOK
      ensures a[k] == b[k]
    {
      SlicedAuxAt(aux, experts, cols, first, blocks, fill, width, e, k);
    }
  }

  // ---------------------------------------------------------------------------
  // The records by input columns
  // ---------------------------------------------------------------------------

  /** The full record behind record rec of a slice of count tiles from tile first on. */
  function FullRecord(tiles: nat, first: nat, count: nat, rec: nat): int
    requires 0 < count
  {
    rec / count * tiles + first + rec % count
  }

  lemma {:induction false} FullRecordInside(rows: nat, tiles: nat, first: nat, count: nat, rec: nat)
    requires first + count <= tiles && rec < rows * count
    ensures 0 < count && 0 <= FullRecord(tiles, first, count, rec) < rows * tiles
  {
    Split(rec, rows, count);
    Below(rec / count, rows, tiles, first + rec % count);
    MulMonotone(0, rec / count, tiles);
  }

  lemma {:induction false} ByteInside(records: nat, n: nat)
    requires n < records * RECORD
    ensures n / RECORD < records && n == n / RECORD * RECORD + n % RECORD
  {
  }

  /** The tiles [first, first + count) of every row of records. */
  function SlicedTiles<T>(data: seq<T>, rows: nat, tiles: nat, first: nat, count: nat): (r: seq<T>)
    requires |data| == rows * tiles * RECORD && first + count <= tiles
    ensures |r| == rows * count * RECORD
  {
    seq(rows * count * RECORD, n requires 0 <= n < rows * count * RECORD =>
          ByteInside(rows * count, n);
          FullRecordInside(rows, tiles, first, count, n / RECORD);
          Below(FullRecord(tiles, first, count, n / RECORD), rows * tiles, RECORD, n % RECORD);
          data[FullRecord(tiles, first, count, n / RECORD) * RECORD + n % RECORD])
  }

  lemma {:induction false} SlicedTilesAt<T>(data: seq<T>, rows: nat, tiles: nat, first: nat, count: nat, rec: nat,
                                            o: nat)
    requires |data| == rows * tiles * RECORD && first + count <= tiles && rec < rows * count && o < RECORD
    ensures 0 < count && 0 <= FullRecord(tiles, first, count, rec) < rows * tiles
    ensures rec * RECORD + o < rows * count * RECORD
    ensures FullRecord(tiles, first, count, rec) * RECORD + o < |data|
    ensures SlicedTiles(data, rows, tiles, first, count)[rec * RECORD + o]
         == data[FullRecord(tiles, first, count, rec) * RECORD + o]
  {
    FullRecordInside(rows, tiles, first, count, rec);
    Below(rec, rows * count, RECORD, o);
    Below(FullRecord(tiles, first, count, rec), rows * tiles, RECORD, o);
    DivMod(rec, RECORD, o);
  }

  /** iq2r_slice_input_data, for a matrix of n by k. */
  function SliceInput(data: seq<bv8>, experts: nat, cols: nat, n: int, k: int, start: int,
                      length: int): (r: Result<seq<bv8>>)
    requires |data| == experts * cols
    ensures r.Ok? <==>
            && 0 < n && n % 16 == 0 && 0 < k && k % 32 == 0 && cols == DataBytes(n / 16, k)
            && 0 < length && 0 <= start && start % 128 == 0 && length % 128 == 0 && start + length <= k
    ensures r.Ok? ==> |r.value| == experts * (PhysicalBlocks(n / 16) / 6) * (length / 128) * RECORD
  {
    if !Stored(n, k) then Err("IQ2R requires N divisible by 16 and K by 32")
    else if cols != DataBytes(n / 16, k) then Err("unexpected data bytes per expert")
    else if length <= 0 || start < 0 || start % 128 != 0 || length % 128 != 0 || start + length > k then
      Err("IQ2R input slice must be in range and aligned to 128 columns")
    else
      DataIsRecords(experts, PhysicalBlocks(n / 16) / 6, Tiles(k));
      Ok(SlicedTiles(data, experts * (PhysicalBlocks(n / 16) / 6), Tiles(k), start / 128, length / 128))
  }

  /** Which tile the slice holds: tile t of group g of expert e is the full matrix's tile start / 128 + t of the same
      group, byte for byte. */
  lemma {:induction false} SlicedTile(data: seq<bv8>, experts: nat, cols: nat, n: int, k: int, start: int, length: int,
                                      data': seq<bv8>, e: nat, g: nat, t: nat, o: nat, groups: nat, tiles: nat)
    requires |data| == experts * cols && SliceInput(data, experts, cols, n, k, start, length) == Ok(data')
    requires groups == (n / 16 + 5) / 6 && tiles == (k + 127) / 128
    requires e < experts && g < groups && t < length / 128 && o < 3584
    ensures 0 <= ((e * groups + g) * (length / 128) + t) * 3584 + o < |data'|
    ensures 0 <= ((e * groups + g) * tiles + (start / 128 + t)) * 3584 + o < |data|
    ensures data'[((e * groups + g) * (length / 128) + t) * 3584 + o]
         == data[((e * groups + g) * tiles + (start / 128 + t)) * 3584 + o]
  {
    GroupsAgree(n / 16);
    DataIsRecords(experts, groups, tiles);
    Below(e, experts, groups, g);
    TileOfRow(data, experts * groups, tiles, start / 128, length / 128, e * groups + g, t, o);
  }

  lemma {:induction false} TileOfRow<T>(data: seq<T>, rows: nat, tiles: nat, first: nat, count: nat, row: nat, t: nat,
                                        o: nat)
    requires |data| == rows * tiles * RECORD && first + count <= tiles && row < rows && t < count && o < RECORD
    ensures 0 <= (row * count + t) * RECORD + o < rows * count * RECORD
    ensures 0 <= (row * tiles + (first + t)) * RECORD + o < |data|
    ensures SlicedTiles(data, rows, tiles, first, count)[(row * count + t) * RECORD + o]
         == data[(row * tiles + (first + t)) * RECORD + o]
  {
    Below(row, rows, count, t);
    RecordBehind(tiles, first, count, row, t);
    SlicedTilesAt(data, rows, tiles, first, count, row * count + t, o);
  }

  lemma {:induction false} RecordBehind(tiles: nat, first: nat, count: nat, row: nat, t: nat)
    requires t < count
    ensures row * count + t >= 0 && FullRecord(tiles, first, count, row * count + t) == row * tiles + (first + t)
  {
    DivMod(row, count, t);
  }

  lemma {:induction false} GroupsAgree(blocks: nat)
    ensures PhysicalBlocks(blocks) / 6 == (blocks + 5) / 6
  {
  }

  lemma {:induction false} DataIsRecords(experts: nat, groups: nat, tiles: nat)
    ensures experts * (groups * tiles * RECORD) == experts * groups * tiles * RECORD
    ensures experts * (groups * tiles) == experts * groups * tiles
  {
  }

  // ---------------------------------------------------------------------------
  // Atoms of a slice
  // ---------------------------------------------------------------------------

  /** Where an atom of the slice lies in the full buffer. */
  function FullPos(tiles: nat, first: nat, count: nat, p: Pos): Pos
    requires 0 < count && 0 <= FullRecord(tiles, first, count, p.rec)
  {
    p.(rec := FullRecord(tiles, first, count, p.rec))
  }

  lemma {:induction false} LocalBytes(p: Pos, records: nat)
    requires p.Valid(records)
    ensures p.rec * RECORD <= p.Base() && p.Base() + 8 <= p.rec * RECORD + RECORD
    ensures p.rec * RECORD <= p.Meta() < p.rec * RECORD + RECORD
  {
  }

  lemma {:induction false} SlicedAtom<T>(data: seq<T>, rows: nat, tiles: nat, first: nat, count: nat, p: Pos)
    requires |data| == rows * tiles * RECORD && first + count <= tiles && p.Valid(rows * count)
    ensures 0 < count && 0 <= FullRecord(tiles, first, count, p.rec) < rows * tiles
    ensures FullPos(tiles, first, count, p).Valid(rows * tiles)
    ensures p.Base() + 8 <= rows * count * RECORD && p.Meta() < rows * count * RECORD
    ensures FullPos(tiles, first, count, p).Base() + 8 <= |data| && FullPos(tiles, first, count, p).Meta() < |data|
    ensures AtomAt(SlicedTiles(data, rows, tiles, first, count), p) == AtomAt(data, FullPos(tiles, first, count, p))
  {
    FullRecordInside(rows, tiles, first, count, p.rec);
    var q := FullPos(tiles, first, count, p);
    Inside(p, rows * count);
    Inside(q, rows * tiles);
    LocalBytes(p, rows * count);
    var b, m := p.Base() - p.rec * RECORD, p.Meta() - p.rec * RECORD;
    assert q.Base() == q.rec * RECORD + b && q.Meta() == q.rec * RECORD + m;
    var s := SlicedTiles(data, rows, tiles, first, count);
    var x, y := s[p.Base()..p.Base() + 8], data[q.Base()..q.Base() + 8];
    forall i | 0 <= i < 8
      ensures x[i] == y[i]
    {
      SlicedTilesAt(data, rows, tiles, first, count, p.rec, b + i);
    }
    SlicedTilesAt(data, rows, tiles, first, count, p.rec, m);
    SameAtomFrom(s, p.Base(), p.Meta(), data, q.Base(), q.Meta());
  }

  lemma {:induction false} SameAtomFrom<T>(a: seq<T>, x: nat, m: nat, b: seq<T>, y: nat, n: nat)
    requires x + 8 <= |a| && m < |a| && y + 8 <= |b| && n < |b|
    requires a[x..x + 8] == b[y..y + 8] && a[m] == b[n]
    ensures AtomFrom(a, x, m) == AtomFrom(b, y, n)
  {
    var s := a[x..x + 8];
    assert s[0] == a[x] && s[1] == a[x + 1] && s[2] == a[x + 2] && s[3] == a[x + 3];
    assert s[4] == a[x + 4] && s[5] == a[x + 5] && s[6] == a[x + 6] && s[7] == a[x + 7];
  }

  lemma {:induction false} OwnerIsInRecord(q: Pos, records: nat, rec: nat, o: nat)
    requires q.Valid(records) && o < RECORD && q.Owns(rec * RECORD + o)
    ensures q.rec == rec
  {
    LocalBytes(q, records);
  }

  /** A byte of the slice that no atom owns comes from a byte that no atom owns. */
  lemma {:induction false} UnownedInSlice(rows: nat, tiles: nat, first: nat, count: nat, rec: nat, o: nat)
    requires first + count <= tiles && rec < rows * count && o < RECORD
    requires 0 < count && 0 <= FullRecord(tiles, first, count, rec)
    requires Unowned(rows * count, rec * RECORD + o)
    ensures Unowned(rows * tiles, FullRecord(tiles, first, count, rec) * RECORD + o)
  {
    var full := FullRecord(tiles, first, count, rec);
    forall q: Pos | q.Valid(rows * tiles)
      ensures !q.Owns(full * RECORD + o)
    {
      if q.Owns(full * RECORD + o) {
        OwnerIsInRecord(q, rows * tiles, full, o);
        var p := q.(rec := rec);
        assert p.Valid(rows * count) && p.Owns(rec * RECORD + o);
      }
    }
  }

  lemma {:induction false} SameOwnedByte<T>(a: seq<T>, b: seq<T>, p: Pos, i: nat)
    requires |a| == |b| && p.Base() + 8 <= |a| && p.Meta() < |a| && p.Owns(i)
    requires AtomAt(a, p) == AtomAt(b, p)
    ensures i < |a| && a[i] == b[i]
  {
  }

  /** Two buffers with equal atoms and equal unowned bytes are equal. */
  lemma {:induction false} SameBuffers<T>(a: seq<T>, b: seq<T>, records: nat)
    requires |a| == |b| == records * RECORD
    requires forall p: Pos | p.Valid(records) :: (Inside(p, records); AtomAt(a, p) == AtomAt(b, p))
    requires forall i | 0 <= i < |a| && Unowned(records, i) :: a[i] == b[i]
    ensures a == b
  {
    forall i | 0 <= i < |a|
      ensures a[i] == b[i]
    {
      if p: Pos :| p.Valid(records) && p.Owns(i) {
        Inside(p, records);
        SameOwnedByte(a, b, p, i);
      } else {
        assert Unowned(records, i);
      }
    }
  }
}
