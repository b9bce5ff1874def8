/** Regrouping packed gate/up records (aiter/iq2r_glm53.py): source groups hold six 16-column blocks
    per record, target quads hold four; slices of whole quads are column slices of the matrix. */
module Iq2rQuad {
  import opened Iq2rLayout
  import opened Results
  import opened RowMajor

  const TILES := 48
  const QUAD_ROW := 2304
  const QUAD_BYTES := 48 * 2304
  const GROUP_BYTES := 48 * 3584

  /** One matrix: experts, and the 16-column blocks of each. */
  datatype Gate = Gate(experts: nat, blocks: nat) {
    function Groups(): nat {
      (blocks + 5) / 6
    }

    function Quads(): nat {
      blocks / 4
    }

    function Records(): nat {
      experts * Groups() * TILES
    }

    function SourceBytes(): nat {
      experts * Groups() * GROUP_BYTES
    }

    function TargetBytes(): nat {
      experts * Quads() * QUAD_BYTES
    }

    predicate WholeQuads() {
      blocks % 4 == 0
    }
  }

  /** One atom of the matrix: expert, block, tile of 128 inputs, lane. */
  datatype Cell = Cell(e: nat, b: nat, tile: nat, lane: nat) {
    predicate Valid(z: Gate) {
      e < z.experts && b < z.blocks && tile < TILES && lane < LANES
    }
  }

  /** Where the cell lies in the source records. */
  function Source(z: Gate, c: Cell): Pos {
    Pos((c.e * z.Groups() + c.b / 6) * TILES + c.tile, c.b % 6 / 3, c.b % 3, c.lane)
  }

  /** Block 6k + 3m + a lies in group k: triplet m, atom a of the record of its tile. */
  lemma {:induction false} SourceByParts(z: Gate, e: nat, k: nat, m: nat, a: nat, tile: nat, lane: nat)
    requires m < 2 && a < 3
    ensures Source(z, Cell(e, 6 * k + 3 * m + a, tile, lane)) == Pos((e * z.Groups() + k) * TILES + tile, m, a, lane)
  {
    BlockParts(k, m, a);
  }

  lemma {:induction false} BlockParts(k: nat, m: nat, a: nat)
    requires m < 2 && a < 3
    ensures var b := 6 * k + 3 * m + a; b / 6 == k && b % 6 / 3 == m && b % 3 == a
  {
  }

  lemma {:induction false} SourceInside(z: Gate, c: Cell)
    requires c.Valid(z)
    ensures Source(z, c).Valid(z.Records())
    ensures z.Records() * RECORD == z.SourceBytes()
    ensures Source(z, c).Base() + 8 <= z.SourceBytes() && Source(z, c).Meta() < z.SourceBytes()
  {
    Below(c.e, z.experts, z.Groups(), c.b / 6);
    Below(c.e * z.Groups() + c.b / 6, z.experts * z.Groups(), TILES, c.tile);
    Inside(Source(z, c), z.Records());
  }

  /** The row of 2304 bytes that a quad and tile own in the target. */
  function TargetRow(z: Gate, c: Cell): nat {
    (c.e * z.Quads() + c.b / 4) * TILES + c.tile
  }

  /** Where byte i of an atom goes within the row; byte 8 is the metadata. */
  function Offset(slot: nat, lane: nat, i: nat): nat {
    if i < 8 then slot / 2 * 1024 + lane * 16 + slot % 2 * 8 + i else 2048 + lane * 4 + slot
  }

  /** Where byte i of the cell goes. */
  function Target(z: Gate, c: Cell, i: nat): nat {
    TargetRow(z, c) * QUAD_ROW + Offset(c.b % 4, c.lane, i)
  }

  lemma {:induction false} OffsetInside(slot: nat, lane: nat, i: nat)
    requires slot < 4 && lane < LANES && i < 9
    ensures Offset(slot, lane, i) < QUAD_ROW
  {
  }

  lemma {:induction false} TargetInside(z: Gate, c: Cell, i: nat)
    requires c.Valid(z) && z.WholeQuads() && i < 9
    ensures Target(z, c, i) < z.TargetBytes()
  {
    Below(c.e, z.experts, z.Quads(), c.b / 4);
    Below(c.e * z.Quads() + c.b / 4, z.experts * z.Quads(), TILES, c.tile);
    OffsetInside(c.b % 4, c.lane, i);
    Below(TargetRow(z, c), z.experts * z.Quads() * TILES, QUAD_ROW, Offset(c.b % 4, c.lane, i));
  }

  /** No target byte is written twice. */
  lemma {:induction false} TargetsApart(z: Gate, c: Cell, i: nat, d: Cell, j: nat)
    requires c.Valid(z) && d.Valid(z) && z.WholeQuads() && i < 9 && j < 9
    requires Target(z, c, i) == Target(z, d, j)
    ensures c == d && i == j
  {
    OffsetInside(c.b % 4, c.lane, i);
    OffsetInside(d.b % 4, d.lane, j);
    PositionsApart(QUAD_ROW, TargetRow(z, c), Offset(c.b % 4, c.lane, i), TargetRow(z, d), Offset(d.b % 4, d.lane, j));
    OffsetsApart(c.b % 4, c.lane, i, d.b % 4, d.lane, j);
    RowNamesQuadAndTile(z, c, d, z.Quads());
  }

  lemma {:induction false} RowNamesQuadAndTile(z: Gate, c: Cell, d: Cell, quads: nat)
    requires TargetRow(z, c) == TargetRow(z, d) && quads == z.Quads()
    requires c.tile < TILES && d.tile < TILES && c.b / 4 < quads && d.b / 4 < quads
    ensures c.e == d.e && c.b / 4 == d.b / 4 && c.tile == d.tile
  {
    PositionsApart(TILES, c.e * quads + c.b / 4, c.tile, d.e * quads + d.b / 4, d.tile);
    PositionsApart(quads, c.e, c.b / 4, d.e, d.b / 4);
  }

  lemma {:induction false} PairOffset(half: nat, lane: nat, odd: nat, i: nat)
    requires half < 2 && odd < 2 && i < 8
    ensures Offset(half * 2 + odd, lane, i) == half * 1024 + lane * 16 + odd * 8 + i
  {
  }

  /** The four parts of a record byte's offset can be read back. */
  lemma {:induction false} OffsetDecodes(half: nat, lane: nat, odd: nat, i: nat, o: nat)
    requires half < 2 && odd < 2 && i < 8 && lane < LANES && o == half * 1024 + lane * 16 + odd * 8 + i
    ensures o < 2048 && o / 1024 == half && o % 1024 / 16 == lane && o % 16 / 8 == odd && o % 8 == i
  {
  }

  lemma {:induction false} OffsetsApart(slot: nat, lane: nat, i: nat, slot': nat, lane': nat, j: nat)
    requires slot < 4 && slot' < 4 && lane < LANES && lane' < LANES && i < 9 && j < 9
    requires Offset(slot, lane, i) == Offset(slot', lane', j)
    ensures slot == slot' && lane == lane' && i == j
  {
    var o := Offset(slot, lane, i);
    if i < 8 {
      OffsetDecodes(slot / 2, lane, slot % 2, i, o);
    }
    if j < 8 {
      OffsetDecodes(slot' / 2, lane', slot' % 2, j, o);
    }
  }

  lemma {:induction false} OffsetCovered(o: nat) returns (slot: nat, lane: nat, i: nat)
    requires o < QUAD_ROW
    ensures slot < 4 && lane < LANES && i < 9 && Offset(slot, lane, i) == o
  {
    if o < 2048 {
      var half, rest := o / 1024, o % 1024;
      lane := rest / 16;
      var odd := rest % 16 / 8;
      i := rest % 16 % 8;
      slot := half * 2 + odd;
      PairOffset(half, lane, odd, i);
    } else {
      slot, lane, i := o % 4, (o - 2048) / 4, 8;
    }
  }

  lemma {:induction false} QuadOfBlock(z: Gate, quad: nat, slot: nat)
    requires z.WholeQuads() && quad < z.Quads() && slot < 4
    ensures quad * 4 + slot < z.blocks && (quad * 4 + slot) / 4 == quad && (quad * 4 + slot) % 4 == slot
  {
  }

  lemma {:induction false} RowCovered(row: nat, experts: nat, quads: nat) returns (e: nat, quad: nat, tile: nat)
    requires row < experts * quads * TILES
    ensures e < experts && quad < quads && tile < TILES && (e * quads + quad) * TILES + tile == row
  {
    Split(row, experts * quads, TILES);
    Split(row / TILES, experts, quads);
    e, quad, tile := row / TILES / quads, row / TILES % quads, row % TILES;
  }

  /** Every target byte is written: it belongs to some byte of some cell. */
  lemma {:induction false} TargetCovered(z: Gate, n: nat) returns (c: Cell, i: nat)
    requires z.WholeQuads() && n < z.TargetBytes()
    ensures c.Valid(z) && i < 9 && Target(z, c, i) == n
  {
    Split(n, z.experts * z.Quads() * TILES, QUAD_ROW);
    var e, quad, tile := RowCovered(n / QUAD_ROW, z.experts, z.Quads());
    var slot, lane;
    slot, lane, i := OffsetCovered(n % QUAD_ROW);
    QuadOfBlock(z, quad, slot);
    c := Cell(e, quad * 4 + slot, tile, lane);
  }

  // ---------------------------------------------------------------------------
  // The regroup
  // ---------------------------------------------------------------------------

  /** Byte i of a source atom; byte 8 is the metadata. */
  function SourceByte(z: Gate, c: Cell, i: nat): nat {
    if i < 8 then Source(z, c).Base() + i else Source(z, c).Meta()
  }

  /** The nine bytes of an atom sit at their targets. */
  ghost predicate CellCopied<T>(z: Gate, data: seq<T>, target: seq<T>, c: Cell, n: nat)
    requires z.WholeQuads() && c.Valid(z) && |data| == z.SourceBytes() && |target| == z.TargetBytes() && n <= 9
  {
    forall i: nat | i < n ::
      SourceInside(z, c);
      TargetInside(z, c, i);
      target[Target(z, c, i)] == data[SourceByte(z, c, i)]
  }

  ghost predicate OwnsTarget(z: Gate, c: Cell, n: int) {
    exists i: nat :: i < 9 && Target(z, c, i) == n
  }

  ghost predicate Regrouped<T>(z: Gate, data: seq<T>, target: seq<T>) {
    && z.WholeQuads() && |data| == z.SourceBytes() && |target| == z.TargetBytes()
    && forall c: Cell | c.Valid(z) :: CellCopied(z, data, target, c, 9)
  }

  /** The regroup leaves nothing open: two targets of the same source are equal. */
  lemma {:induction false} RegroupDetermined<T>(z: Gate, data: seq<T>, t: seq<T>, t': seq<T>)
    requires Regrouped(z, data, t) && Regrouped(z, data, t')
    ensures t == t'
  {
    forall n | 0 <= n < |t|
      ensures t[n] == t'[n]
    {
      var c, i := TargetCovered(z, n);
      assert CellCopied(z, data, t, c, 9) && CellCopied(z, data, t', c, 9);
    }
  }

  /** The regroup byte by byte, in flat positions. Byte i of the atom of block 6k + 3m + a (byte 8 is its metadata)
      moves from its place in the 3584-byte record of its group and tile to its place in the 2304-byte row of its quad
      and tile. */
  lemma {:induction false} RegroupedBytes<T>(z: Gate, data: seq<T>, target: seq<T>, e: nat, k: nat, m: nat, a: nat,
                                             tile: nat, lane: nat, i: nat, from: nat, to: nat)
    requires Regrouped(z, data, target) && e < z.experts && m < 2 && a < 3 && tile < 48 && lane < 64 && i < 9
    requires 6 * k + 3 * m + a < z.blocks
    requires from == ((e * ((z.blocks + 5) / 6) + k) * 48 + tile) * 3584 + m * 1792
                     + if i == 8 then 1024 + lane * 12 + 8 + a
                       else if a < 2 then lane * 16 + a * 8 + i else 1024 + lane * 12 + i
    requires var b := 6 * k + 3 * m + a;
             to == ((e * (z.blocks / 4) + b / 4) * 48 + tile) * 2304
                   + if i == 8 then 2048 + lane * 4 + b % 4
                     else b % 4 / 2 * 1024 + lane * 16 + b % 4 % 2 * 8 + i
    ensures from < |data| && to < |target| && target[to] == data[from]
  {
    var c := Cell(e, 6 * k + 3 * m + a, tile, lane);
    SourceByParts(z, e, k, m, a, tile, lane);
    SourceInside(z, c);
    TargetInside(z, c, i);
    assert c.Valid(z) && CellCopied(z, data, target, c, 9);
    assert SourceByte(z, c, i) == from && Target(z, c, i) == to;
  }

  /** Copying one atom: eight record bytes, then its metadata byte. */
  method CopyCell<T>(z: Gate, data: array<T>, target: array<T>, c: Cell)
    requires z.WholeQuads() && c.Valid(z) && data.Length == z.SourceBytes() && target.Length == z.TargetBytes()
    requires data != target
    modifies target
    ensures CellCopied(z, data[..], target[..], c, 9)
    ensures forall n | 0 <= n < target.Length && !OwnsTarget(z, c, n) :: target[n] == old(target[n])
  {
    SourceInside(z, c);
    for k := 0 to 9
      invariant CellCopied(z, data[..], target[..], c, k)
      invariant forall n | 0 <= n < target.Length && !OwnsTarget(z, c, n) :: target[n] == old(target[n])
    {
      TargetInside(z, c, k);
      ghost var was := target[..];
      target[Target(z, c, k)] := data[SourceByte(z, c, k)];
      forall i: nat | i < k
        ensures Target(z, c, i) < |was| && target[Target(z, c, i)] == was[Target(z, c, i)]
      {
        TargetInside(z, c, i);
        if Target(z, c, i) == Target(z, c, k) {
          TargetsApart(z, c, i, c, k);
        }
      }
    }
  }

  /** The walk: blocks in order, and for each block all experts, tiles and lanes. */
  ghost predicate Before(c: Cell, b: nat, n: nat) {
    c.b < b || (c.b == b && (c.e * TILES + c.tile) * LANES + c.lane < n)
  }

  ghost predicate CopiedSoFar<T>(z: Gate, data: seq<T>, target: seq<T>, b: nat, n: nat)
    requires z.WholeQuads() && |data| == z.SourceBytes() && |target| == z.TargetBytes()
  {
    forall c: Cell | c.Valid(z) && Before(c, b, n) :: CellCopied(z, data, target, c, 9)
  }

  lemma {:induction false} CellStays<T>(z: Gate, data: seq<T>, was: seq<T>, now: seq<T>, c: Cell, d: Cell)
    requires z.WholeQuads() && c.Valid(z) && d.Valid(z) && c != d
    requires |data| == z.SourceBytes() && |was| == |now| == z.TargetBytes()
    requires CellCopied(z, data, was, d, 9)
    requires forall n | 0 <= n < |was| && !OwnsTarget(z, c, n) :: now[n] == was[n]
    ensures CellCopied(z, data, now, d, 9)
  {
    forall i: nat | i < 9
      ensures Target(z, d, i) < |was| && now[Target(z, d, i)] == was[Target(z, d, i)]
    {
      TargetInside(z, d, i);
      if OwnsTarget(z, c, Target(z, d, i)) {
        var j: nat :| j < 9 && Target(z, c, j) == Target(z, d, i);
        TargetsApart(z, c, j, d, i);
      }
    }
  }

  lemma {:induction false} CellOfIndex(z: Gate, b: nat, n: nat) returns (c: Cell)
    requires n < z.experts * TILES * LANES && b < z.blocks
    ensures c == Cell(n / LANES / TILES, b, n / LANES % TILES, n % LANES)
    ensures c.Valid(z) && (c.e * TILES + c.tile) * LANES + c.lane == n
  {
    c := Cell(n / LANES / TILES, b, n / LANES % TILES, n % LANES);
  }

  lemma {:induction false} SameTurn(c: Cell, d: Cell)
    requires c.b == d.b && c.tile < TILES && d.tile < TILES && c.lane < LANES && d.lane < LANES
    requires (c.e * TILES + c.tile) * LANES + c.lane == (d.e * TILES + d.tile) * LANES + d.lane
    ensures c == d
  {
    PositionsApart(LANES, c.e * TILES + c.tile, c.lane, d.e * TILES + d.tile, d.lane);
    PositionsApart(TILES, c.e, c.tile, d.e, d.tile);
  }

  lemma {:induction false} CopyAdvances<T>(z: Gate, data: seq<T>, was: seq<T>, now: seq<T>, c: Cell, n: nat)
    requires z.WholeQuads() && c.Valid(z) && |data| == z.SourceBytes() && |was| == |now| == z.TargetBytes()
    requires n == (c.e * TILES + c.tile) * LANES + c.lane && CopiedSoFar(z, data, was, c.b, n)
    requires CellCopied(z, data, now, c, 9)
    requires forall k | 0 <= k < |was| && !OwnsTarget(z, c, k) :: now[k] == was[k]
    ensures CopiedSoFar(z, data, now, c.b, n + 1)
  {
    forall d: Cell | d.Valid(z) && Before(d, c.b, n + 1)
      ensures CellCopied(z, data, now, d, 9)
    {
      if Before(d, c.b, n) {
        CellStays(z, data, was, now, c, d);
      } else {
        SameTurn(c, d);
      }
    }
  }

  method CopyBlock<T>(z: Gate, data: array<T>, target: array<T>, b: nat)
    requires z.WholeQuads() && b < z.blocks && data.Length == z.SourceBytes() && target.Length == z.TargetBytes()
    requires data != target
    requires CopiedSoFar(z, data[..], target[..], b, 0)
    modifies target
    ensures CopiedSoFar(z, data[..], target[..], b, z.experts * TILES * LANES)
  {
    for n := 0 to z.experts * TILES * LANES
      invariant CopiedSoFar(z, data[..], target[..], b, n)
    {
      ghost var c' := CellOfIndex(z, b, n);
      var c := Cell(n / LANES / TILES, b, n / LANES % TILES, n % LANES);
      ghost var was := target[..];
      CopyCell(z, data, target, c);
      CopyAdvances(z, data[..], was, target[..], c, n);
    }
  }

  lemma {:induction false} BlockCopied<T>(z: Gate, data: seq<T>, target: seq<T>, b: nat)
    requires z.WholeQuads() && |data| == z.SourceBytes() && |target| == z.TargetBytes()
    requires CopiedSoFar(z, data, target, b, z.experts * TILES * LANES)
    ensures CopiedSoFar(z, data, target, b + 1, 0)
  {
    forall c: Cell | c.Valid(z) && Before(c, b + 1, 0)
      ensures Before(c, b, z.experts * TILES * LANES)
    {
      assert (c.e * TILES + c.tile) * LANES + c.lane < z.experts * TILES * LANES;
    }
  }

  /** Bytes per expert of a packed matrix with logicalN columns. */
  function GateBytes(logicalN: nat): (r: Result<nat>)
    ensures r.Ok? <==> logicalN % 64 == 0
  {
    if logicalN % 64 != 0 then Err("packed gate/up N must be a multiple of 64") else Ok(logicalN / 64 * QUAD_BYTES)
  }

  lemma {:induction false} AllBlocksCopied<T>(z: Gate, data: seq<T>, target: seq<T>)
    requires z.WholeQuads() && |data| == z.SourceBytes() && |target| == z.TargetBytes()
    requires CopiedSoFar(z, data, target, z.blocks, 0)
    ensures Regrouped(z, data, target)
  {
    forall c: Cell | c.Valid(z)
      ensures CellCopied(z, data, target, c, 9)
    {
      assert Before(c, z.blocks, 0);
    }
  }

  lemma {:induction false} QuadSizes(z: Gate, groups: nat, logicalN: nat)
    requires z.blocks == logicalN / 16 && logicalN % 64 == 0 && groups == z.Groups()
    ensures z.WholeQuads()
    ensures z.SourceBytes() == z.experts * (groups * GROUP_BYTES)
    ensures z.TargetBytes() == z.experts * (z.Quads() * QUAD_BYTES) == z.experts * z.Quads() * QUAD_BYTES
    ensures z.Quads() == logicalN / 64 && z.TargetBytes() == z.experts * (logicalN / 64 * QUAD_BYTES)
  {
    assert logicalN == 64 * (logicalN / 64) && z.blocks / 4 == logicalN / 64;
  }

  /** The whole regroup, from data of the given columns per expert.  The target starts uninitialised;
      every byte of it is written, and it has GateBytes per expert. */
  method QuadGate<T(0)>(data: array<T>, experts: nat, cols: nat, logicalN: nat) returns (r: Result<array<T>>)
    requires data.Length == experts * cols
    ensures r.Ok? <==> logicalN % 64 == 0 && cols == Gate(experts, logicalN / 16).Groups() * GROUP_BYTES
    ensures r.Ok? ==> fresh(r.value) && Regrouped(Gate(experts, logicalN / 16), data[..], r.value[..])
    ensures r.Ok? ==> r.value.Length == experts * GateBytes(logicalN).value
  {
    var groups := cols / GROUP_BYTES;
    var blocks := logicalN / 16;
    if logicalN % 64 != 0 || (blocks + 5) / 6 != groups {
      return Err("gate/up N must be a multiple of 64 matching the data");
    }
    if cols % GROUP_BYTES != 0 {
      return Err("data cannot be viewed as whole groups");
    }
    var z := Gate(experts, blocks);
    QuadSizes(z, groups, logicalN);
    var target := new T[experts * z.Quads() * QUAD_BYTES];
    for b := 0 to blocks
      invariant CopiedSoFar(z, data[..], target[..], b, 0)
    {
      CopyBlock(z, data, target, b);
      BlockCopied(z, data[..], target[..], b);
    }
    AllBlocksCopied(z, data[..], target[..]);
    r := Ok(target);
  }
}
