/** The bit-level rewriting of one 8-byte IQ2R atom and its metadata byte (aiter/iq2r_glm53.py):
    four codebook indices of nine bits, and one sign bit for each of the 32 weights they select. */
module Iq2rBits {

  import opened Iq2rLayout

  function Bit(x: bv8, j: bv3): bv8 {
    (x >> j) & 1
  }

  /** (meta >> w) & 1 */
  function MetaBit(meta: bv8, w: nat): bv8
    requires w < 4
  {
    if w == 0 then meta & 1 else if w == 1 then (meta >> 1) & 1 else if w == 2 then (meta >> 2) & 1 else (meta >> 3) & 1
  }

  // ---------------------------------------------------------------------------
  // Decoding
  // ---------------------------------------------------------------------------

  /** Canonical index of word w: a whole byte, and the ninth bit from the metadata. */
  function CanonicalIndex(low: bv8, meta: bv8, w: nat): bv9
    requires w < 4
  {
    (low as bv9) | ((MetaBit(meta, w) as bv9) << 8)
  }

  /** The 36 packed index bits: four bytes and the low metadata nibble. */
  function Assemble(b0: bv8, b1: bv8, b2: bv8, b3: bv8, meta: bv8): bv36 {
    (b0 as bv36) | ((b1 as bv36) << 8) | ((b2 as bv36) << 16) | ((b3 as bv36) << 24) | (((meta & 15) as bv36) << 32)
  }

  function Packed36(a: Atom<bv8>): bv36 {
    Assemble(a.i0, a.i1, a.i2, a.i3, a.meta)
  }

  /** (p >> 9w) & 511 */
  function FieldOf(p: bv36, w: nat): bv9
    requires w < 4
  {
    if w == 0 then (p & 511) as bv9
    else if w == 1 then ((p >> 9) & 511) as bv9
    else if w == 2 then ((p >> 18) & 511) as bv9
    else ((p >> 27) & 511) as bv9
  }

  function PackedIndex(a: Atom<bv8>, w: nat): bv9
    requires w < 4
  {
    FieldOf(Packed36(a), w)
  }

  /** The four sign bytes as one word, byte w at bits 8w and up. */
  function SignWord(a: Atom<bv8>): bv32 {
    (a.s0 as bv32) + ((a.s1 as bv32) << 8) + ((a.s2 as bv32) << 16) + ((a.s3 as bv32) << 24)
  }

  function BitOf(x: bv32, bit: bv32): bv32
    requires bit < 32
  {
    (x >> bit) & 1
  }

  /** Where weight j of word w has its sign in the canonical sign word. */
  function WordBit(w: nat, j: bv3): (b: bv32)
    requires w < 4
    ensures b < 32
  {
    (if w == 0 then 0 else if w == 1 then 8 else if w == 2 then 16 else 24) + (j as bv32)
  }

  /** Where the transpose sends a bit of the sign word. */
  function Destination(bit: bv32): bv32 {
    (bit % 4) * 8 + bit / 4
  }

  /** The sign of weight j of word w once the sign bytes hold planes. */
  function PlaneSign(a: Atom<bv8>, w: nat, j: bv3): bv32
    requires w < 4
  {
    DestinationInside(WordBit(w, j));
    BitOf(SignWord(a), Destination(WordBit(w, j)))
  }

  lemma {:induction false} DestinationInside(b: bv32)
    requires b < 32
    ensures Destination(b) < 32
  {
  }

  /** The planes: weight j goes to plane j % 4, and takes bit 2w + j / 4 of it. */
  lemma {:induction false} DestinationIsPlane(w: nat, j: bv3)
    requires w < 4
    ensures Destination(WordBit(w, j)) / 8 == (j as bv32) % 4
    ensures Destination(WordBit(w, j)) % 8
            == (if w == 0 then 0 else if w == 1 then 2 else if w == 2 then 4 else 6) + (j as bv32) / 4
  {
  }

  /** A weight: a codebook byte whose top bit is flipped by the sign bit. */
  function Weight(book: bv8, sign: bv8): bv8 {
    book ^ (sign << 7)
  }

  // ---------------------------------------------------------------------------
  // Sign folding
  // ---------------------------------------------------------------------------

  /** The top bits of the first n codebook bytes of an entry, byte k at bit k. */
  function FoldedSigns(entry: seq<bv8>, n: nat): bv8
    requires n <= |entry| && n <= 8
  {
    if n == 0 then 0 else FoldedSigns(entry, n - 1) | ((entry[n - 1] >> 7) << (n - 1))
  }

  lemma {:induction false} EightTerms(b0: bv8, b1: bv8, b2: bv8, b3: bv8, b4: bv8, b5: bv8, b6: bv8, b7: bv8, f: bv8)
    requires f == 0 | ((b0 >> 7) << 0) | ((b1 >> 7) << 1) | ((b2 >> 7) << 2) | ((b3 >> 7) << 3)
                  | ((b4 >> 7) << 4) | ((b5 >> 7) << 5) | ((b6 >> 7) << 6) | ((b7 >> 7) << 7)
    ensures (f >> 0) & 1 == b0 >> 7 && (f >> 1) & 1 == b1 >> 7 && (f >> 2) & 1 == b2 >> 7 && (f >> 3) & 1 == b3 >> 7
    ensures (f >> 4) & 1 == b4 >> 7 && (f >> 5) & 1 == b5 >> 7 && (f >> 6) & 1 == b6 >> 7 && (f >> 7) & 1 == b7 >> 7
  {
  }

  lemma {:induction false} UnfoldSigns(entry: seq<bv8>)
    requires |entry| == 8
    ensures FoldedSigns(entry, 8) == 0 | ((entry[0] >> 7) << 0) | ((entry[1] >> 7) << 1) | ((entry[2] >> 7) << 2)
                                     | ((entry[3] >> 7) << 3) | ((entry[4] >> 7) << 4) | ((entry[5] >> 7) << 5)
                                     | ((entry[6] >> 7) << 6) | ((entry[7] >> 7) << 7)
  {
    assert FoldedSigns(entry, 1) == FoldedSigns(entry, 0) | ((entry[0] >> 7) << 0);
    assert FoldedSigns(entry, 2) == FoldedSigns(entry, 1) | ((entry[1] >> 7) << 1);
    assert FoldedSigns(entry, 3) == FoldedSigns(entry, 2) | ((entry[2] >> 7) << 2);
    assert FoldedSigns(entry, 4) == FoldedSigns(entry, 3) | ((entry[3] >> 7) << 3);
    assert FoldedSigns(entry, 5) == FoldedSigns(entry, 4) | ((entry[4] >> 7) << 4);
    assert FoldedSigns(entry, 6) == FoldedSigns(entry, 5) | ((entry[5] >> 7) << 5);
    assert FoldedSigns(entry, 7) == FoldedSigns(entry, 6) | ((entry[6] >> 7) << 6);
  }

  /** Bit j of the folded signs is the sign of codebook byte j. */
  lemma {:induction false} FoldedSignBit(entry: seq<bv8>, j: bv3)
    requires |entry| == 8
    ensures Bit(FoldedSigns(entry, 8), j) == entry[j as int] >> 7
  {
    UnfoldSigns(entry);
    EightTerms(entry[0], entry[1], entry[2], entry[3], entry[4], entry[5], entry[6], entry[7], FoldedSigns(entry, 8));
  }

  /** Clearing the codebook sign and flipping the record sign leaves the weight alone. */
  lemma {:induction false} FoldingKeepsWeight(book: bv8, sign: bv8, flip: bv8, j: bv3)
    requires Bit(flip, j) == book >> 7
    ensures Weight(book & 127, Bit(sign ^ flip, j)) == Weight(book, Bit(sign, j))
  {
    XorOfBits(sign, flip, j);
    CancelSign(book, Bit(sign, j), Bit(flip, j));
  }

  lemma {:induction false} XorOfBits(sign: bv8, flip: bv8, j: bv3)
    ensures Bit(sign ^ flip, j) == Bit(sign, j) ^ Bit(flip, j)
  {
  }

  lemma {:induction false} CancelSign(book: bv8, sign: bv8, flip: bv8)
    requires flip == book >> 7
    ensures (book & 127) ^ ((sign ^ flip) << 7) == book ^ (sign << 7)
  {
  }

  // ---------------------------------------------------------------------------
  // Index packing
  // ---------------------------------------------------------------------------

  /** x << 9w */
  function FieldAt(x: bv9, w: nat): bv36
    requires w < 4
  {
    if w == 0 then x as bv36
    else if w == 1 then (x as bv36) << 9
    else if w == 2 then (x as bv36) << 18
    else (x as bv36) << 27
  }

  /** The four indices, each in its own nine of the 36 bits, so no shift loses any. */
  function Fields(a: Atom<bv8>): (r: seq<bv36>)
    ensures |r| == 4
  {
    seq(4, w requires 0 <= w < 4 => FieldAt(CanonicalIndex(a.Low(w), a.meta, w), w))
  }

  /** A left fold of the first n elements, kept generic so that unrolling it involves no bit arithmetic. */
  function Accumulated<T>(f: (T, T) -> T, zero: T, xs: seq<T>, n: nat): T
    requires n <= |xs|
  {
    if n == 0 then zero else f(Accumulated(f, zero, xs, n - 1), xs[n - 1])
  }

  lemma {:induction false} AccumulatedFour<T>(f: (T, T) -> T, zero: T, xs: seq<T>)
    requires |xs| == 4
    ensures Accumulated(f, zero, xs, 4) == f(f(f(f(zero, xs[0]), xs[1]), xs[2]), xs[3])
  {
    assert Accumulated(f, zero, xs, 1) == f(zero, xs[0]);
    assert Accumulated(f, zero, xs, 2) == f(Accumulated(f, zero, xs, 1), xs[1]);
    assert Accumulated(f, zero, xs, 3) == f(Accumulated(f, zero, xs, 2), xs[2]);
  }

  function Or(x: bv36, y: bv36): bv36 {
    x | y
  }

  /** The bitwise union of the first n elements. */
  function Union(xs: seq<bv36>, n: nat): bv36
    requires n <= |xs|
  {
    Accumulated(Or, 0, xs, n)
  }

  lemma {:induction false} UnionOfFour(xs: seq<bv36>)
    requires |xs| == 4
    ensures Union(xs, 4) == Or(Or(Or(Or(0, xs[0]), xs[1]), xs[2]), xs[3])
  {
    AccumulatedFour(Or, 0, xs);
  }

  function PackedByte(packed: bv36, k: nat): bv8
    requires k < 4
  {
    if k == 0 then (packed & 255) as bv8
    else if k == 1 then ((packed >> 8) & 255) as bv8
    else if k == 2 then ((packed >> 16) & 255) as bv8
    else ((packed >> 24) & 255) as bv8
  }

  function PackedMeta(meta: bv8, packed: bv36): bv8 {
    (meta & 240) | (((packed >> 32) & 15) as bv8)
  }

  function PackedBytes(p: bv36): (r: seq<bv8>)
    ensures |r| == 4
  {
    [PackedByte(p, 0), PackedByte(p, 1), PackedByte(p, 2), PackedByte(p, 3)]
  }

  function WithPacked(a: Atom<bv8>, p: bv36): Atom<bv8> {
    SetByte(PutBytes(a, 0, PackedBytes(p), 4), 8, PackedMeta(a.meta, p))
  }

  function PackedAtom(a: Atom<bv8>): Atom<bv8> {
    WithPacked(a, Union(Fields(a), 4))
  }

  lemma {:induction false} FieldsOfPacked(x0: bv9, x1: bv9, x2: bv9, x3: bv9, p: bv36)
    requires p == Or(Or(Or(Or(0, FieldAt(x0, 0)), FieldAt(x1, 1)), FieldAt(x2, 2)), FieldAt(x3, 3))
    ensures FieldOf(p, 0) == x0 && FieldOf(p, 1) == x1 && FieldOf(p, 2) == x2 && FieldOf(p, 3) == x3
  {
  }

  lemma {:induction false} AssemblePieces(p: bv36, meta: bv8)
    ensures Assemble(PackedByte(p, 0), PackedByte(p, 1), PackedByte(p, 2), PackedByte(p, 3), PackedMeta(meta, p)) == p
    ensures PackedMeta(meta, p) & 240 == meta & 240
  {
  }

  lemma {:induction false} FieldsRoundTrip(a: Atom<bv8>, w: nat)
    requires w < 4
    ensures FieldOf(Union(Fields(a), 4), w) == CanonicalIndex(a.Low(w), a.meta, w)
  {
    var xs := Fields(a);
    UnionOfFour(xs);
    FieldsOfPacked(CanonicalIndex(a.Low(0), a.meta, 0), CanonicalIndex(a.Low(1), a.meta, 1),
                   CanonicalIndex(a.Low(2), a.meta, 2), CanonicalIndex(a.Low(3), a.meta, 3), Union(xs, 4));
  }

  lemma {:induction false} WithPackedHolds(a: Atom<bv8>, p: bv36)
    ensures Packed36(WithPacked(a, p)) == p && WithPacked(a, p).meta & 240 == a.meta & 240
    ensures forall w: nat | w < 4 :: WithPacked(a, p).Sign(w) == a.Sign(w)
  {
    AssemblePieces(p, a.meta);
    PutFour(a, PackedBytes(p));
  }

  /** The packed indices decode to the canonical ones, and the upper metadata nibble is untouched. */
  lemma {:induction false} PackingKeepsIndices(a: Atom<bv8>, w: nat)
    requires w < 4
    ensures PackedIndex(PackedAtom(a), w) == CanonicalIndex(a.Low(w), a.meta, w)
    ensures PackedAtom(a).meta & 240 == a.meta & 240
    ensures PackedAtom(a).Sign(w) == a.Sign(w)
  {
    FieldsRoundTrip(a, w);
    WithPackedHolds(a, Union(Fields(a), 4));
  }

  lemma {:induction false} BytesOfFields(x0: bv9, x1: bv9, x2: bv9, x3: bv9, p: bv36, meta: bv8)
    requires p == Or(Or(Or(Or(0, FieldAt(x0, 0)), FieldAt(x1, 1)), FieldAt(x2, 2)), FieldAt(x3, 3))
    ensures PackedByte(p, 0) == (x0 & 255) as bv8
    ensures PackedByte(p, 1) == (x0 >> 8) as bv8 | ((x1 << 1) & 255) as bv8
    ensures PackedByte(p, 2) == (x1 >> 7) as bv8 | ((x2 << 2) & 255) as bv8
    ensures PackedByte(p, 3) == (x2 >> 6) as bv8 | ((x3 << 3) & 255) as bv8
    ensures PackedMeta(meta, p) == (meta & 240) | (x3 >> 5) as bv8
  {
  }

  /** The packed bytes written out: each index continues where the one before ends, and the last four bits of the
      last one are the low metadata nibble. */
  lemma {:induction false} PackedBytesWrittenOut(a: Atom<bv8>, x0: bv9, x1: bv9, x2: bv9, x3: bv9)
    requires x0 == CanonicalIndex(a.i0, a.meta, 0) && x1 == CanonicalIndex(a.i1, a.meta, 1)
    requires x2 == CanonicalIndex(a.i2, a.meta, 2) && x3 == CanonicalIndex(a.i3, a.meta, 3)
    ensures PackedAtom(a)
         == Atom((x0 & 255) as bv8, (x0 >> 8) as bv8 | ((x1 << 1) & 255) as bv8,
                 (x1 >> 7) as bv8 | ((x2 << 2) & 255) as bv8, (x2 >> 6) as bv8 | ((x3 << 3) & 255) as bv8,
                 a.s0, a.s1, a.s2, a.s3, (a.meta & 240) | (x3 >> 5) as bv8)
  {
    var xs := Fields(a);
    UnionOfFour(xs);
    BytesOfFields(x0, x1, x2, x3, Union(xs, 4), a.meta);
    PutFour(a, PackedBytes(Union(xs, 4)));
  }

  /** A canonical index: its byte, and 256 more if bit w of the metadata is set. */
  lemma {:induction false} CanonicalIndexIs(low: bv8, meta: bv8, w: nat)
    requires w < 4
    ensures CanonicalIndex(low, meta, w)
         == if meta & (if w == 0 then 1 else if w == 1 then 2 else if w == 2 then 4 else 8) == 0 then low as bv9
            else low as bv9 + 256
  {
  }

  // ---------------------------------------------------------------------------
  // The sign transpose
  // ---------------------------------------------------------------------------

  /** The first n bits of x moved to their destinations. */
  function Moved(x: bv32, n: bv32): bv32
    requires n <= 32
    decreases n
  {
    if n == 0 then 0 else Moved(x, n - 1) | (((x >> (n - 1)) & 1) << Destination(n - 1))
  }

  lemma {:induction false} MovedStep(x: bv32, bit: bv32)
    requires bit < 32
    ensures bit + 1 <= 32
    ensures Moved(x, bit + 1) == Moved(x, bit) | (((x >> bit) & 1) << Destination(bit))
  {
    assert (bit + 1) - 1 == bit && bit + 1 != 0;
  }

  lemma {:induction false} DestinationApart(b: bv32, c: bv32)
    requires b < 32 && c < 32
    ensures Destination(b) < 32
    ensures b != c ==> Destination(b) != Destination(c)
  {
  }

  lemma {:induction false} SetBit(x: bv32, y: bv32, p: bv32, q: bv32)
    requires y <= 1 && p < 32 && q < 32
    ensures ((x | (y << p)) >> q) & 1 == ((x >> q) & 1) | (if p == q then y else 0)
  {
  }

  /** Each of the first n bits reaches its destination; the other destinations stay clear. */
  lemma {:induction false} MovedBit(x: bv32, n: bv32, b: bv32)
    requires n <= 32 && b < 32
    ensures Destination(b) < 32
    ensures BitOf(Moved(x, n), Destination(b)) == if b < n then BitOf(x, b) else 0
    decreases n
  {
    DestinationApart(b, b);
    if n > 0 {
      MovedBit(x, n - 1, b);
      DestinationApart(b, n - 1);
      SetBit(Moved(x, n - 1), (x >> (n - 1)) & 1, Destination(n - 1), Destination(b));
    }
  }

  function PlaneByte(x: bv32, k: nat): bv8
    requires k < 4
  {
    if k == 0 then (x & 255) as bv8
    else if k == 1 then ((x >> 8) & 255) as bv8
    else if k == 2 then ((x >> 16) & 255) as bv8
    else ((x >> 24) & 255) as bv8
  }

  function PlaneBytes(x: bv32): (r: seq<bv8>)
    ensures |r| == 4
  {
    [PlaneByte(x, 0), PlaneByte(x, 1), PlaneByte(x, 2), PlaneByte(x, 3)]
  }

  function WithSigns(a: Atom<bv8>, x: bv32): Atom<bv8> {
    PutBytes(a, 4, PlaneBytes(x), 4)
  }

  function TransposedAtom(a: Atom<bv8>): Atom<bv8> {
    WithSigns(a, Moved(SignWord(a), 32))
  }

  lemma {:induction false} SignBytesRoundTrip(x: bv32)
    ensures (PlaneByte(x, 0) as bv32) + ((PlaneByte(x, 1) as bv32) << 8)
            + ((PlaneByte(x, 2) as bv32) << 16) + ((PlaneByte(x, 3) as bv32) << 24) == x
  {
  }

  lemma {:induction false} BitsOfSignWord(a: Atom<bv8>, j: bv3)
    ensures BitOf(SignWord(a), WordBit(0, j)) == Bit(a.s0, j) as bv32
    ensures BitOf(SignWord(a), WordBit(1, j)) == Bit(a.s1, j) as bv32
    ensures BitOf(SignWord(a), WordBit(2, j)) == Bit(a.s2, j) as bv32
    ensures BitOf(SignWord(a), WordBit(3, j)) == Bit(a.s3, j) as bv32
  {
  }

  lemma {:induction false} WordOfPlanes(a: Atom<bv8>, x: bv32)
    ensures SignWord(WithSigns(a, x)) == x
  {
    SignBytesRoundTrip(x);
    PutFour(a, PlaneBytes(x));
  }

  lemma {:induction false} WordBitIsSign(a: Atom<bv8>, w: nat, j: bv3)
    requires w < 4
    ensures BitOf(SignWord(a), WordBit(w, j)) == Bit(a.Sign(w), j) as bv32
  {
    BitsOfSignWord(a, j);
  }

  lemma {:induction false} PlaneOfMoved(a: Atom<bv8>, word: bv32, w: nat, j: bv3)
    requires w < 4
    ensures PlaneSign(WithSigns(a, Moved(word, 32)), w, j) == BitOf(word, WordBit(w, j))
  {
    WordOfPlanes(a, Moved(word, 32));
    MovedBit(word, 32, WordBit(w, j));
  }

  /** The planes hold exactly the signs of the record, and the transpose touches nothing else. */
  lemma {:induction false} TransposeKeepsSigns(a: Atom<bv8>, w: nat, j: bv3)
    requires w < 4
    ensures PlaneSign(TransposedAtom(a), w, j) == Bit(a.Sign(w), j) as bv32
    ensures TransposedAtom(a).Low(w) == a.Low(w) && TransposedAtom(a).meta == a.meta
  {
    PlaneOfMoved(a, SignWord(a), w, j);
    WordBitIsSign(a, w, j);
    PutFour(a, PlaneBytes(Moved(SignWord(a), 32)));
  }

  lemma {:induction false} BitOfPlanes(a: Atom<bv8>, w: nat, j: bv3)
    requires w < 4
    ensures var bit := (if w == 0 then 0 else if w == 1 then 2 else if w == 2 then 4 else 6) + j / 4;
            PlaneSign(a, w, j) == Bit(if j % 4 == 0 then a.s0 else if j % 4 == 1 then a.s1 else if j % 4 == 2 then a.s2
                                      else a.s3, bit) as bv32
  {
    var plane := a.Sign((j % 4) as nat);
    BitsOfSignWord(a, (if w == 0 then 0 else if w == 1 then 2 else if w == 2 then 4 else 6) + j / 4);
  }

  /** The planes written out: byte j mod 4 holds the sign of weight j of word w at bit 2w + j / 4. */
  lemma {:induction false} PlanesWrittenOut(a: Atom<bv8>, w: nat, j: bv3)
    requires w < 4
    ensures var bit := (if w == 0 then 0 else if w == 1 then 2 else if w == 2 then 4 else 6) + j / 4;
            Bit(TransposedAtom(a).Sign((j % 4) as nat), bit) == Bit(a.Sign(w), j)
  {
    TransposeKeepsSigns(a, w, j);
    BitOfPlanes(TransposedAtom(a), w, j);
  }
}
