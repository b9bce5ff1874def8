/** Slicing a packed gate/up matrix (aiter/iq2r_glm53.py), and why it equals packing the shard. */
module Iq2rShard {
  import opened Iq2rLayout
  import opened Iq2rQuad
  import opened Iq2rFormat
  import opened Results
  import opened RowMajor
  import opened Numbers
  import Iq2rPack

  /** How many quads x:y picks out of n. */
  function Picked(x: int, y: int, n: nat): nat {
    var lo, hi := SliceBound(x, n), SliceBound(y, n);
    if hi <= lo then 0 else hi - lo
  }

  lemma {:induction false} PickedFits(x: int, y: int, quads: nat, cols: nat)
    requires cols == quads * QUAD_BYTES
    ensures SliceBound(x, quads) * QUAD_BYTES + Picked(x, y, quads) * QUAD_BYTES <= cols
  {
    MulMonotone(SliceBound(x, quads) + Picked(x, y, quads), quads, QUAD_BYTES);
  }

  /** quads[:, lo : lo + width / QUAD_BYTES], flattened per expert. */
  function Columns<T>(gate: seq<T>, experts: nat, cols: nat, from: nat, width: nat): (r: seq<T>)
    requires |gate| == experts * cols && from + width <= cols
    ensures |r| == experts * width
  {
    seq(experts * width, n requires 0 <= n < experts * width =>
                           SliceInside(experts, cols, from, width, n);
                           gate[SliceIndex(cols, from, width, n)])
  }

  /** Columns [start, start + length) of a packed matrix of the given bytes per expert. */
  function SliceGate<T>(gate: seq<T>, experts: nat, cols: nat, start: int, length: int): (r: Result<seq<T>>)
    requires |gate| == experts * cols && 0 < cols
    ensures r.Ok? <==> start % 64 == 0 && length % 64 == 0 && cols % QUAD_BYTES == 0
                       && (start + length) / 64 <= cols / QUAD_BYTES
    ensures r.Ok? ==> |r.value| == experts * (Picked(start / 64, (start + length) / 64, cols / QUAD_BYTES) * QUAD_BYTES)
  {
    if start % 64 != 0 || length % 64 != 0 || cols % QUAD_BYTES != 0 then
      Err("packed gate/up slices must be aligned to 64 columns")
    else if (start + length) / 64 > cols / QUAD_BYTES then
      Err("packed gate/up slice out of range")
    else
      var quads := cols / QUAD_BYTES;
      PickedFits(start / 64, (start + length) / 64, quads, cols);
      Ok(Columns(gate, experts, cols, SliceBound(start / 64, quads) * QUAD_BYTES,
                 Picked(start / 64, (start + length) / 64, quads) * QUAD_BYTES))
  }

  /** Where entry n of the slice comes from. */
  function SliceIndex(cols: nat, from: nat, width: nat, n: nat): int
    requires 0 < width
  {
    n / width * cols + from + n % width
  }

  lemma {:induction false} SliceInside(experts: nat, cols: nat, from: nat, width: nat, n: nat)
    requires n < experts * width && from + width <= cols
    ensures 0 < width && 0 <= SliceIndex(cols, from, width, n) < experts * cols
  {
    Split(n, experts, width);
    Below(n / width, experts, cols, from + n % width);
    MulMonotone(0, n / width, cols);
  }

  /** Which quad the slice holds: quad q of every expert is the full matrix's quad start / 64 + q. */
  lemma {:induction false} SlicedQuad<T>(gate: seq<T>, experts: nat, cols: nat, start: nat, length: nat, gate': seq<T>,
                                         e: nat, q: nat, o: nat)
    requires |gate| == experts * cols && 0 < cols && SliceGate(gate, experts, cols, start, length) == Ok(gate')
    requires e < experts && q < length / 64 && o < 48 * 2304
    ensures 0 <= e * (length / 64 * (48 * 2304)) + q * (48 * 2304) + o < |gate'|
    ensures 0 <= e * cols + (start / 64 + q) * (48 * 2304) + o < |gate|
    ensures gate'[e * (length / 64 * (48 * 2304)) + q * (48 * 2304) + o]
         == gate[e * cols + (start / 64 + q) * (48 * 2304) + o]
  {
    var quads, lo, count := cols / QUAD_BYTES, start / 64, length / 64;
    assert (start + length) / 64 == lo + count;
    var from, width, at := lo * QUAD_BYTES, count * QUAD_BYTES, q * QUAD_BYTES + o;
    Below(q, count, QUAD_BYTES, o);
    Below(e, experts, width, at);
    DivMod(e, width, at);
    PickedFits(lo, lo + count, quads, cols);
    SliceInside(experts, cols, from, width, e * width + at);
    assert (lo + q) * QUAD_BYTES == from + q * QUAD_BYTES;
    assert gate' == Columns(gate, experts, cols, from, width);
  }

  // ---------------------------------------------------------------------------
  // Shards
  // ---------------------------------------------------------------------------

  /** The cell of the full matrix that a cell of the shard starting at block first stands for. */
  function FullCell(first: nat, c: Cell): Cell {
    c.(b := c.b + first)
  }

  /** The shard holds, atom by atom, blocks [first, first + zs.blocks) of the full matrix, although its
      own groups of six start afresh. */
  ghost predicate IsShard<T>(z: Gate, data: seq<T>, zs: Gate, shard: seq<T>, first: nat)
    requires |data| == z.SourceBytes() && |shard| == zs.SourceBytes()
    requires zs.experts == z.experts && first + zs.blocks <= z.blocks
  {
    forall c: Cell | c.Valid(zs) ::
      SourceInside(zs, c);
      SourceInside(z, FullCell(first, c));
      AtomAt(shard, Source(zs, c)) == AtomAt(data, Source(z, FullCell(first, c)))
  }

  function ByteOf<T>(a: Atom<T>, i: nat): T
    requires i < 9
  {
    if i < 4 then a.Low(i) else if i < 8 then a.Sign(i - 4) else a.meta
  }

  lemma {:induction false} AtomBytes<T>(z: Gate, data: seq<T>, c: Cell, i: nat)
    requires c.Valid(z) && |data| == z.SourceBytes() && i < 9
    ensures SourceByte(z, c, i) < |data|
    ensures Source(z, c).Base() + 8 <= |data| && Source(z, c).Meta() < |data|
    ensures data[SourceByte(z, c, i)] == ByteOf(AtomAt(data, Source(z, c)), i)
  {
    SourceInside(z, c);
  }

  /** The place of a byte among the bytes of its expert. */
  function Local(c: Cell, i: nat): nat {
    (c.b / 4 * TILES + c.tile) * QUAD_ROW + Offset(c.b % 4, c.lane, i)
  }

  /** A target position, counted expert by expert. */
  lemma {:induction false} TargetByExpert(z: Gate, c: Cell, i: nat)
    requires c.Valid(z) && z.WholeQuads() && i < 9
    ensures Target(z, c, i) == c.e * (z.Quads() * QUAD_BYTES) + Local(c, i)
    ensures Local(c, i) < z.Quads() * QUAD_BYTES
  {
    assert TargetRow(z, c) * QUAD_ROW == c.e * z.Quads() * (TILES * QUAD_ROW) + (c.b / 4 * TILES + c.tile) * QUAD_ROW;
    assert c.e * z.Quads() * (TILES * QUAD_ROW) == c.e * (z.Quads() * QUAD_BYTES);
    assert c.b / 4 < z.Quads();
  }

  lemma {:induction false} LocalShift(quad: nat, c: Cell, i: nat)
    ensures Local(FullCell(4 * quad, c), i) == quad * QUAD_BYTES + Local(c, i)
  {
    assert (c.b + 4 * quad) / 4 == c.b / 4 + quad && (c.b + 4 * quad) % 4 == c.b % 4;
  }

  lemma {:induction false} ShiftedTarget(z: Gate, zs: Gate, quad: nat, c: Cell, i: nat, cols: nat, width: nat, n: nat)
    requires z.WholeQuads() && zs.WholeQuads() && zs.experts == z.experts && 4 * quad + zs.blocks <= z.blocks
    requires c.Valid(zs) && i < 9 && n == Target(zs, c, i)
    requires cols == z.Quads() * QUAD_BYTES && width == zs.Quads() * QUAD_BYTES
    ensures FullCell(4 * quad, c).Valid(z) && 0 < width
    ensures Target(z, FullCell(4 * quad, c), i) == n / width * cols + quad * QUAD_BYTES + n % width
  {
    TargetByExpert(zs, c, i);
    TargetByExpert(z, FullCell(4 * quad, c), i);
    LocalShift(quad, c, i);
    DivMod(c.e, width, Local(c, i));
  }

  lemma {:induction false} SliceGeometry(z: Gate, zs: Gate, quad: nat)
    requires z.WholeQuads() && zs.WholeQuads() && 4 * quad + zs.blocks <= z.blocks
    ensures z.Quads() * QUAD_BYTES / QUAD_BYTES == z.Quads() && z.Quads() * QUAD_BYTES % QUAD_BYTES == 0
    ensures 64 * quad / 64 == quad && (64 * quad + 16 * zs.blocks) / 64 == quad + zs.Quads()
    ensures 64 * quad % 64 == 0 && 16 * zs.blocks % 64 == 0
    ensures Picked(quad, quad + zs.Quads(), z.Quads()) == zs.Quads() && SliceBound(quad, z.Quads()) == quad
  {
    DivMod(z.Quads(), QUAD_BYTES, 0);
    assert zs.blocks == 4 * zs.Quads();
  }

  lemma {:induction false} SliceIsColumns<T>(z: Gate, zs: Gate, quad: nat, gate: seq<T>, cols: nat, width: nat)
    requires z.WholeQuads() && zs.WholeQuads() && 4 * quad + zs.blocks <= z.blocks && 0 < z.blocks
    requires cols == z.Quads() * QUAD_BYTES && width == zs.Quads() * QUAD_BYTES && |gate| == z.experts * cols
    ensures 0 < cols && quad * QUAD_BYTES + width <= cols
    ensures SliceGate(gate, z.experts, cols, 64 * quad, 16 * zs.blocks)
         == Ok(Columns(gate, z.experts, cols, quad * QUAD_BYTES, width))
  {
    SliceGeometry(z, zs, quad);
    PickedFits(quad, quad + zs.Quads(), z.Quads(), cols);
  }

  /** Slicing the regrouped matrix gives the regrouped shard. */
  lemma {:induction false} SliceIsRegroupedShard<T>(z: Gate, data: seq<T>, gate: seq<T>, zs: Gate, shard: seq<T>,
                                                    gate': seq<T>, quad: nat)
    requires Regrouped(z, data, gate) && Regrouped(zs, shard, gate')
    requires zs.experts == z.experts && 4 * quad + zs.blocks <= z.blocks && 0 < z.blocks
    requires IsShard(z, data, zs, shard, 4 * quad)
    ensures |gate| == z.experts * (z.Quads() * QUAD_BYTES) && 0 < z.Quads() * QUAD_BYTES
    ensures SliceGate(gate, z.experts, z.Quads() * QUAD_BYTES, 64 * quad, 16 * zs.blocks) == Ok(gate')
  {
    var cols, width := z.Quads() * QUAD_BYTES, zs.Quads() * QUAD_BYTES;
    TargetSizes(z);
    TargetSizes(zs);
    SliceIsColumns(z, zs, quad, gate, cols, width);
    ColumnsAreShard(z, data, gate, zs, shard, gate', quad, cols, width);
  }

  lemma {:induction false} TargetSizes(z: Gate)
    ensures z.TargetBytes() == z.experts * (z.Quads() * QUAD_BYTES)
  {
  }

  lemma {:induction false} ColumnsAreShard<T>(z: Gate, data: seq<T>, gate: seq<T>, zs: Gate, shard: seq<T>,
                                              gate': seq<T>, quad: nat, cols: nat, width: nat)
    requires Regrouped(z, data, gate) && Regrouped(zs, shard, gate')
    requires zs.experts == z.experts && 4 * quad + zs.blocks <= z.blocks
    requires IsShard(z, data, zs, shard, 4 * quad)
    requires cols == z.Quads() * QUAD_BYTES && width == zs.Quads() * QUAD_BYTES && quad * QUAD_BYTES + width <= cols
    requires |gate| == z.experts * cols && |gate'| == z.experts * width
    ensures Columns(gate, z.experts, cols, quad * QUAD_BYTES, width) == gate'
  {
    var columns := Columns(gate, z.experts, cols, quad * QUAD_BYTES, width);
    forall n | 0 <= n < |gate'|
      ensures columns[n] == gate'[n]
    {
      SliceInside(z.experts, cols, quad * QUAD_BYTES, width, n);
      var c, i := TargetCovered(zs, n);
      SameByte(z, data, gate, zs, shard, gate', quad, c, i);
      var at := Target(z, FullCell(4 * quad, c), i);
      assert columns[n] == gate[at] by {
        ShiftedTarget(z, zs, quad, c, i, cols, width, n);
      }
    }
  }

  lemma {:induction false} SameByte<T>(z: Gate, data: seq<T>, gate: seq<T>, zs: Gate, shard: seq<T>, gate': seq<T>,
                                       quad: nat, c: Cell, i: nat)
    requires Regrouped(z, data, gate) && Regrouped(zs, shard, gate')
    requires zs.experts == z.experts && 4 * quad + zs.blocks <= z.blocks
    requires IsShard(z, data, zs, shard, 4 * quad) && c.Valid(zs) && i < 9
    ensures Target(z, FullCell(4 * quad, c), i) < |gate| && Target(zs, c, i) < |gate'|
    ensures gate[Target(z, FullCell(4 * quad, c), i)] == gate'[Target(zs, c, i)]
  {
    var d := FullCell(4 * quad, c);
    TargetInside(z, d, i);
    TargetInside(zs, c, i);
    assert CellCopied(z, data, gate, d, 9) && CellCopied(zs, shard, gate', c, 9);
    AtomBytes(z, data, d, i);
    AtomBytes(zs, shard, c, i);
  }

  // ---------------------------------------------------------------------------
  // The whole gate/up path
  // ---------------------------------------------------------------------------

  function PackShape(z: Gate, auxCols: nat): Iq2rPack.Shape {
    Iq2rPack.Shape(z.experts, z.Groups() * TILES, auxCols)
  }

  /** From canonical data and auxiliary to the packed quads and cleared auxiliary. */
  ghost predicate GatePacked(z: Gate, auxCols: nat, data: seq<bv8>, aux: seq<bv8>, gate: seq<bv8>, aux': seq<bv8>)
    requires PackShape(z, auxCols).Holds(data, aux)
  {
    exists packed: seq<bv8> ::
      Iq2rPack.Packed(PackShape(z, auxCols), true, data, aux, packed, aux') && Regrouped(z, packed, gate)
  }

  lemma {:induction false} ExpertOfCell(z: Gate, c: Cell)
    requires c.Valid(z)
    ensures 0 < z.Groups() * TILES && Source(z, c).rec / (z.Groups() * TILES) == c.e
    ensures Source(z, c).rec < z.experts * (z.Groups() * TILES)
  {
    var within := c.b / 6 * TILES + c.tile;
    RecordOfTile(c.e, z.Groups(), c.b / 6, TILES, c.tile);
    DivMod(c.e, z.Groups() * TILES, within);
    Below(c.e, z.experts, z.Groups() * TILES, within);
  }

  lemma {:induction false} RecordOfTile(e: nat, groups: nat, g: nat, tiles: nat, t: nat)
    ensures (e * groups + g) * tiles + t == e * (groups * tiles) + (g * tiles + t)
  {
    assert (e * groups + g) * tiles == e * groups * tiles + g * tiles;
    assert e * groups * tiles == e * (groups * tiles);
  }

  /** The atom read back from the quads. */
  function GateAtom(z: Gate, gate: seq<bv8>, c: Cell): Atom<bv8>
    requires c.Valid(z) && z.WholeQuads() && |gate| == z.TargetBytes()
  {
    TargetInside(z, c, 0);
    TargetInside(z, c, 7);
    TargetInside(z, c, 8);
    var b := Target(z, c, 0);
    AtomFrom(gate, b, Target(z, c, 8))
  }

  lemma {:induction false} GateAtomIsSource(z: Gate, data: seq<bv8>, gate: seq<bv8>, c: Cell)
    requires Regrouped(z, data, gate) && c.Valid(z)
    ensures Source(z, c).Base() + 8 <= |data| && Source(z, c).Meta() < |data|
    ensures GateAtom(z, gate, c) == AtomAt(data, Source(z, c))
  {
    SourceInside(z, c);
    TargetInside(z, c, 7);
    TargetInside(z, c, 8);
    assert CellCopied(z, data, gate, c, 9);
    forall i: nat | i < 8
      ensures Target(z, c, i) == Target(z, c, 0) + i && SourceByte(z, c, i) == Source(z, c).Base() + i
      ensures gate[Target(z, c, i)] == data[SourceByte(z, c, i)]
    {
    }
    assert Target(z, c, 1) < |gate| && Target(z, c, 2) < |gate| && Target(z, c, 3) < |gate| && Target(z, c, 4) < |gate|
           && Target(z, c, 5) < |gate| && Target(z, c, 6) < |gate|;
  }

  lemma {:induction false} BookOfCell(z: Gate, auxCols: nat, aux: seq<bv8>, c: Cell)
    requires c.Valid(z) && Iq2rPack.HasBooks(aux, z.experts, auxCols)
    ensures 0 < PackShape(z, auxCols).perExpert
    ensures Source(z, c).rec < PackShape(z, auxCols).experts * PackShape(z, auxCols).perExpert
    ensures PackShape(z, auxCols).BookOf(aux, Source(z, c).rec) == Iq2rPack.Book(aux, z.experts, auxCols, c.e)
  {
    ExpertOfCell(z, c);
  }

  /** What the kernel decodes from the packed quads is the canonical weight: for every expert, block 6k + 3m + a,
      tile, lane, word and byte, with the upper metadata nibble unchanged. The canonical atom is the one at its flat
      place: eight bytes from base on, and the metadata byte. */
  lemma {:induction false} PackedGateDecodes(z: Gate, auxCols: nat, data: seq<bv8>, aux: seq<bv8>, gate: seq<bv8>,
                                             aux': seq<bv8>, c: Cell, k: nat, m: nat, a: nat, base: nat, meta: nat,
                                             w: nat, j: bv3)
    requires PackShape(z, auxCols).Holds(data, aux) && GatePacked(z, auxCols, data, aux, gate, aux')
    requires c.Valid(z) && m < 2 && a < 3 && c.b == 6 * k + 3 * m + a && w < 4
    requires var triplet := ((c.e * ((z.blocks + 5) / 6) + k) * 48 + c.tile) * 3584 + m * 1792;
             && base == triplet + (if a < 2 then c.lane * 16 + a * 8 else 1024 + c.lane * 12)
             && meta == triplet + 1024 + c.lane * 12 + 8 + a
    ensures z.WholeQuads() && |gate| == z.TargetBytes() && Iq2rPack.HasBooks(aux', z.experts, auxCols)
    ensures base + 8 <= |data| && meta < |data|
    ensures Iq2rPack.GateWeight(GateAtom(z, gate, c), Iq2rPack.Book(aux', z.experts, auxCols, c.e), w, j)
         == Iq2rPack.CanonicalWeight(AtomFrom(data, base, meta), Iq2rPack.Book(aux, z.experts, auxCols, c.e), w, j)
    ensures GateAtom(z, gate, c).meta & 240 == data[meta] & 240
  {
    FlatPlace(z, c, k, m, a, base, meta);
    GateDecodesAt(z, auxCols, data, aux, gate, aux', c, base, meta, w, j);
  }

  lemma {:induction false} FlatPlace(z: Gate, c: Cell, k: nat, m: nat, a: nat, base: nat, meta: nat)
    requires m < 2 && a < 3 && c.b == 6 * k + 3 * m + a
    requires var triplet := ((c.e * ((z.blocks + 5) / 6) + k) * 48 + c.tile) * 3584 + m * 1792;
             && base == triplet + (if a < 2 then c.lane * 16 + a * 8 else 1024 + c.lane * 12)
             && meta == triplet + 1024 + c.lane * 12 + 8 + a
    ensures Source(z, c).Base() == base && Source(z, c).Meta() == meta
  {
    SourceByParts(z, c.e, k, m, a, c.tile, c.lane);
  }

  lemma {:induction false} GateDecodesAt(z: Gate, auxCols: nat, data: seq<bv8>, aux: seq<bv8>, gate: seq<bv8>,
                                         aux': seq<bv8>, c: Cell, base: nat, meta: nat, w: nat, j: bv3)
    requires PackShape(z, auxCols).Holds(data, aux) && GatePacked(z, auxCols, data, aux, gate, aux')
    requires c.Valid(z) && w < 4 && Source(z, c).Base() == base && Source(z, c).Meta() == meta
    ensures z.WholeQuads() && |gate| == z.TargetBytes() && Iq2rPack.HasBooks(aux', z.experts, auxCols)
    ensures base + 8 <= |data| && meta < |data|
    ensures Iq2rPack.GateWeight(GateAtom(z, gate, c), Iq2rPack.Book(aux', z.experts, auxCols, c.e), w, j)
         == Iq2rPack.CanonicalWeight(AtomFrom(data, base, meta), Iq2rPack.Book(aux, z.experts, auxCols, c.e), w, j)
    ensures GateAtom(z, gate, c).meta & 240 == data[meta] & 240
  {
    GateDecodesSource(z, auxCols, data, aux, gate, aux', c, w, j);
  }

  lemma {:induction false} GateDecodesSource(z: Gate, auxCols: nat, data: seq<bv8>, aux: seq<bv8>, gate: seq<bv8>,
                                             aux': seq<bv8>, c: Cell, w: nat, j: bv3)
    requires PackShape(z, auxCols).Holds(data, aux) && GatePacked(z, auxCols, data, aux, gate, aux')
    requires c.Valid(z) && w < 4
    ensures z.WholeQuads() && |gate| == z.TargetBytes() && Iq2rPack.HasBooks(aux', z.experts, auxCols)
    ensures Source(z, c).Base() + 8 <= |data| && Source(z, c).Meta() < |data|
    ensures Iq2rPack.GateWeight(GateAtom(z, gate, c), Iq2rPack.Book(aux', z.experts, auxCols, c.e), w, j)
            == Iq2rPack.CanonicalWeight(AtomAt(data, Source(z, c)), Iq2rPack.Book(aux, z.experts, auxCols, c.e), w, j)
    ensures GateAtom(z, gate, c).meta & 240 == AtomAt(data, Source(z, c)).meta & 240
  {
    var shape := PackShape(z, auxCols);
    var packed :| Iq2rPack.Packed(shape, true, data, aux, packed, aux') && Regrouped(z, packed, gate);
    SourceInside(z, c);
    ExpertOfCell(z, c);
    GateAtomIsSource(z, packed, gate, c);
    Iq2rPack.PackingPreservesWeights(shape, true, data, aux, packed, aux', Source(z, c), w, j);
    BookOfCell(z, auxCols, aux, c);
    BookOfCell(z, auxCols, aux', c);
  }

  lemma {:induction false} PackedAtom(z: Gate, auxCols: nat, data: seq<bv8>, aux: seq<bv8>, packed: seq<bv8>,
                                      aux': seq<bv8>, c: Cell)
    requires PackShape(z, auxCols).Holds(data, aux)
    requires Iq2rPack.Packed(PackShape(z, auxCols), true, data, aux, packed, aux')
    requires c.Valid(z)
    ensures Source(z, c).Base() + 8 <= |data| == |packed| && Source(z, c).Meta() < |data|
    ensures AtomAt(packed, Source(z, c))
            == Iq2rPack.Form(true, AtomAt(data, Source(z, c)), Iq2rPack.Book(aux, z.experts, auxCols, c.e))
  {
    var shape := PackShape(z, auxCols);
    SourceInside(z, c);
    ExpertOfCell(z, c);
    BookOfCell(z, auxCols, aux, c);
    RewrittenAt(data, packed, shape.experts * shape.perExpert, Iq2rPack.FormFunction(shape, true, aux), Source(z, c));
  }

  /** The two codebooks of every expert agree, whatever the widths of the auxiliaries. */
  ghost predicate SameBooks(experts: nat, cols: nat, aux: seq<bv8>, cols': nat, aux': seq<bv8>)
    requires Iq2rPack.HasBooks(aux, experts, cols) && Iq2rPack.HasBooks(aux', experts, cols')
  {
    forall e: nat | e < experts :: Iq2rPack.Book(aux, experts, cols, e) == Iq2rPack.Book(aux', experts, cols', e)
  }

  lemma {:induction false} PackedShard(z: Gate, zs: Gate, first: nat, cols: nat, aux: seq<bv8>, data: seq<bv8>,
                                       packed: seq<bv8>, aux1: seq<bv8>, cols': nat, aux': seq<bv8>, shard: seq<bv8>,
                                       packed': seq<bv8>, aux2: seq<bv8>)
    requires PackShape(z, cols).Holds(data, aux) && PackShape(zs, cols').Holds(shard, aux')
    requires zs.experts == z.experts && first + zs.blocks <= z.blocks && SameBooks(z.experts, cols, aux, cols', aux')
    requires |data| == |packed| == z.SourceBytes() && |shard| == |packed'| == zs.SourceBytes()
    requires Iq2rPack.Packed(PackShape(z, cols), true, data, aux, packed, aux1)
    requires Iq2rPack.Packed(PackShape(zs, cols'), true, shard, aux', packed', aux2)
    requires IsShard(z, data, zs, shard, first)
    ensures IsShard(z, packed, zs, packed', first)
  {
    forall c: Cell | c.Valid(zs)
      ensures Source(zs, c).Base() + 8 <= |packed'| && Source(zs, c).Meta() < |packed'|
      ensures FullCell(first, c).Valid(z)
      ensures Source(z, FullCell(first, c)).Base() + 8 <= |packed| && Source(z, FullCell(first, c)).Meta() < |packed|
      ensures AtomAt(packed', Source(zs, c)) == AtomAt(packed, Source(z, FullCell(first, c)))
    {
      PackedAtom(z, cols, data, aux, packed, aux1, FullCell(first, c));
      PackedAtom(zs, cols', shard, aux', packed', aux2, c);
    }
  }

  /** The packed gate bytes of a shard depend on the full matrix only through its atoms and codebooks: a
      64-column-aligned slice of the packed full matrix is, byte for byte, the packed canonical shard. */
  lemma {:induction false} SliceOfPackedGate(z: Gate, zs: Gate, quad: nat, cols: nat, aux: seq<bv8>, data: seq<bv8>,
                                             gate: seq<bv8>, aux1: seq<bv8>, cols': nat, aux': seq<bv8>,
                                             shard: seq<bv8>, gate': seq<bv8>, aux2: seq<bv8>)
    requires PackShape(z, cols).Holds(data, aux) && PackShape(zs, cols').Holds(shard, aux')
    requires zs.experts == z.experts && 4 * quad + zs.blocks <= z.blocks && 0 < z.blocks
    requires SameBooks(z.experts, cols, aux, cols', aux')
    requires |data| == z.SourceBytes() && |shard| == zs.SourceBytes() && IsShard(z, data, zs, shard, 4 * quad)
    requires GatePacked(z, cols, data, aux, gate, aux1) && GatePacked(zs, cols', shard, aux', gate', aux2)
    ensures |gate| == z.experts * (z.Quads() * QUAD_BYTES) && 0 < z.Quads() * QUAD_BYTES
    ensures SliceGate(gate, z.experts, z.Quads() * QUAD_BYTES, 64 * quad, 16 * zs.blocks) == Ok(gate')
  {
    var packed :| Iq2rPack.Packed(PackShape(z, cols), true, data, aux, packed, aux1) && Regrouped(z, packed, gate);
    var packed' :| Iq2rPack.Packed(PackShape(zs, cols'), true, shard, aux', packed', aux2)
      && Regrouped(zs, packed', gate');
    PackedShard(z, zs, 4 * quad, cols, aux, data, packed, aux1, cols', aux', shard, packed', aux2);
    SliceIsRegroupedShard(z, packed, gate, zs, packed', gate', quad);
  }

  /** The auxiliary slice keeps the codebooks. */
  lemma {:induction false} SlicedAuxKeepsBooks(experts: nat, cols: nat, aux: seq<bv8>, n: int, start: int,
                                               length: int, aux': seq<bv8>)
    requires |aux| == experts * cols && SliceAux(aux, experts, cols, n, start, length) == Ok(aux')
    ensures Iq2rPack.HasBooks(aux, experts, cols) && Iq2rPack.HasBooks(aux', experts, AuxBytes(length / 16))
    ensures SameBooks(experts, cols, aux, AuxBytes(length / 16), aux')
  {
    forall e: nat | e < experts
      ensures Iq2rPack.Book(aux, experts, cols, e) == Iq2rPack.Book(aux', experts, AuxBytes(length / 16), e)
    {
      SliceKeepsBooks(aux, experts, cols, start / 16, length / 16, 127 as bv8, AuxBytes(length / 16), e);
    }
  }

  /** Slicing the packed auxiliary gives the packed sliced auxiliary. */
  lemma {:induction false} SliceOfPackedAux(experts: nat, cols: nat, aux: seq<bv8>, n: int, start: int, length: int,
                                            aux': seq<bv8>)
    requires |aux| == experts * cols && SliceAux(aux, experts, cols, n, start, length) == Ok(aux')
    ensures SliceAux(ClearedAux(aux, cols, Iq2rPack.ClearTop), experts, cols, n, start, length)
         == Ok(ClearedAux(aux', AuxBytes(length / 16), Iq2rPack.ClearTop))
  {
    SliceOfClearedIsClearedSlice(aux, experts, cols, start / 16, length / 16, 127 as bv8, AuxBytes(length / 16),
                                 Iq2rPack.ClearTop);
  }

  /** Slicing commutes with packing. Take a 64-column-aligned shard of the canonical matrix, with its own
      sliced auxiliary, and pack it; or pack the full matrix and slice the packed quads and the packed auxiliary: the
      bytes are the same. */
  lemma {:induction false} SliceOfPackedIsPackedShard(z: Gate, zs: Gate, quad: nat, aux: seq<bv8>, data: seq<bv8>,
                                                      gate: seq<bv8>, aux1: seq<bv8>, aux': seq<bv8>, shard: seq<bv8>,
                                                      gate': seq<bv8>, aux2: seq<bv8>)
    requires |aux| == z.experts * AuxBytes(z.blocks)
    requires SliceAux(aux, z.experts, AuxBytes(z.blocks), 16 * z.blocks, 64 * quad, 16 * zs.blocks) == Ok(aux')
    requires zs.experts == z.experts && |data| == z.SourceBytes() && |shard| == zs.SourceBytes()
    requires 4 * quad + zs.blocks <= z.blocks && IsShard(z, data, zs, shard, 4 * quad)
    requires PackShape(z, AuxBytes(z.blocks)).Holds(data, aux)
    requires GatePacked(z, AuxBytes(z.blocks), data, aux, gate, aux1)
    requires PackShape(zs, AuxBytes(zs.blocks)).Holds(shard, aux')
    requires GatePacked(zs, AuxBytes(zs.blocks), shard, aux', gate', aux2)
    ensures |gate| == z.experts * (z.Quads() * QUAD_BYTES) && 0 < z.Quads() * QUAD_BYTES && |aux1| == |aux|
    ensures SliceGate(gate, z.experts, z.Quads() * QUAD_BYTES, 64 * quad, 16 * zs.blocks) == Ok(gate')
    ensures SliceAux(aux1, z.experts, AuxBytes(z.blocks), 16 * z.blocks, 64 * quad, 16 * zs.blocks) == Ok(aux2)
  {
    var cols, cols' := AuxBytes(z.blocks), AuxBytes(zs.blocks);
    SlicedAuxKeepsBooks(z.experts, cols, aux, 16 * z.blocks, 64 * quad, 16 * zs.blocks, aux');
    SliceOfPackedGate(z, zs, quad, cols, aux, data, gate, aux1, cols', aux', shard, gate', aux2);
    SliceOfPackedAux(z.experts, cols, aux, 16 * z.blocks, 64 * quad, 16 * zs.blocks, aux');
  }

  const HIDDEN := 6144

  lemma {:induction false} GateColumns(z: Gate, cols: nat)
    ensures cols == z.Groups() * GROUP_BYTES ==>
              cols % (HIDDEN / 128 * RECORD) == 0 && cols / RECORD == z.Groups() * TILES
  {
    if cols == z.Groups() * GROUP_BYTES {
      DivMod(z.Groups(), TILES * RECORD, 0);
      DivMod(z.Groups() * TILES, RECORD, 0);
    }
  }

  /** Packing one gate/up matrix on a copy: the canonical data stay, the result is the packed quads with
      the cleared auxiliary, and exactly the mismatched layouts are refused. */
  method PackGateUp(experts: nat, cols: nat, auxCols: nat, data: array<bv8>, aux: seq<bv8>, intermediateSize: nat)
    returns (r: Result<(array<bv8>, seq<bv8>)>)
    requires data.Length == experts * cols && |aux| == experts * auxCols
    ensures var z := Gate(experts, 2 * intermediateSize / 16);
            r.Ok? <==> && 0 < experts && BOOK <= auxCols && 2 * intermediateSize % 64 == 0
                       && cols == z.Groups() * GROUP_BYTES
    ensures var z := Gate(experts, 2 * intermediateSize / 16);
            r.Ok? ==> fresh(r.value.0) && PackShape(z, auxCols).Holds(data[..], aux)
                      && GatePacked(z, auxCols, data[..], aux, r.value.0[..], r.value.1)
  {
    ghost var z := Gate(experts, 2 * intermediateSize / 16);
    var gate := new bv8[data.Length](i requires 0 <= i < data.Length reads data => data[i]);
    assert gate[..] == data[..];
    GateColumns(z, cols);
    var packed := Iq2rPack.PackRecords(experts, cols, auxCols, true, HIDDEN, gate, aux);
    if packed.Err? {
      return Err(packed.message);
    }
    var quad := QuadGate(gate, experts, cols, 2 * intermediateSize);
    if quad.Err? {
      return Err(quad.message);
    }
    r := Ok((quad.value, packed.value));
  }

  /** Packing one down matrix on a copy. */
  method PackDown(experts: nat, cols: nat, auxCols: nat, data: array<bv8>, aux: seq<bv8>, intermediateSize: nat)
    returns (r: Result<(array<bv8>, seq<bv8>)>)
    requires data.Length == experts * cols && |aux| == experts * auxCols
    ensures r.Ok? <==> && 0 < experts && 4096 <= auxCols && 128 <= intermediateSize
                       && cols % (intermediateSize / 128 * 3584) == 0
    ensures var z := Iq2rPack.Shape(experts, cols / RECORD, auxCols);
            r.Ok? ==> fresh(r.value.0) && z.Holds(data[..], aux)
                      && Iq2rPack.Packed(z, false, data[..], aux, r.value.0[..], r.value.1)
  {
    var down := new bv8[data.Length](i requires 0 <= i < data.Length reads data => data[i]);
    assert down[..] == data[..];
    var packed := Iq2rPack.PackRecords(experts, cols, auxCols, false, intermediateSize, down, aux);
    if packed.Err? {
      return Err(packed.message);
    }
    r := Ok((down, packed.value));
  }
}
