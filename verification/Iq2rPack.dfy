/** Packing one IQ2R matrix (aiter/iq2r_glm53.py): codebook signs move into the records, indices are
    packed, and for gate/up the signs become planes.  The decoded weights do not change. */
module Iq2rPack {
  import opened Iq2rLayout
  import opened Iq2rBits
  import opened Iq2rRecords
  import opened Iq2rFormat
  import opened Results
  import RowMajor

  const ENTRIES := 512

  // ---------------------------------------------------------------------------
  // Codebooks
  // ---------------------------------------------------------------------------

  /** The auxiliary buffer holds one row per expert; the codebook is the first 4096 bytes of it. */
  ghost predicate HasBooks(aux: seq<bv8>, experts: nat, auxCols: nat) {
    BOOK <= auxCols && |aux| == experts * auxCols
  }

  lemma {:induction false} BookInside(aux: seq<bv8>, experts: nat, auxCols: nat, e: nat)
    requires HasBooks(aux, experts, auxCols) && e < experts
    ensures 0 <= e * auxCols && e * auxCols + BOOK <= |aux|
  {
    RowMajor.MulMonotone(e + 1, experts, auxCols);
  }

  ghost function Book(aux: seq<bv8>, experts: nat, auxCols: nat, e: nat): (book: seq<bv8>)
    requires HasBooks(aux, experts, auxCols) && e < experts
    ensures |book| == BOOK
  {
    BookInside(aux, experts, auxCols, e);
    aux[e * auxCols..e * auxCols + BOOK]
  }

  function Entry(book: seq<bv8>, x: nat): (entry: seq<bv8>)
    requires |book| == BOOK && x < ENTRIES
    ensures |entry| == 8
  {
    book[x * 8..x * 8 + 8]
  }

  function BookByte(book: seq<bv8>, x: bv9, j: bv3): bv8
    requires |book| == BOOK
  {
    Entry(book, x as int)[j as int]
  }

  /** The signs of every codebook entry, gathered byte by byte over all experts and entries. */
  method GatherSigns(aux: seq<bv8>, experts: nat, auxCols: nat) returns (signs: seq<seq<bv8>>)
    requires HasBooks(aux, experts, auxCols)
    ensures |signs| == experts
    ensures forall e | 0 <= e < experts :: SignsOf(Book(aux, experts, auxCols, e), signs[e])
  {
    signs := seq(experts, _ => seq(ENTRIES, _ => 0));
    for byte := 0 to 8
      invariant |signs| == experts
      invariant forall e | 0 <= e < experts :: PartialSigns(Book(aux, experts, auxCols, e), signs[e], byte)
    {
      var next: seq<seq<bv8>> := [];
      for e := 0 to experts
        invariant |next| == e
        invariant forall k | 0 <= k < e :: PartialSigns(Book(aux, experts, auxCols, k), next[k], byte + 1)
      {
        BookInside(aux, experts, auxCols, e);
        var row := AddSigns(aux, e * auxCols, signs[e], byte);
        assert Book(aux, experts, auxCols, e) == aux[e * auxCols..e * auxCols + BOOK];
        next := next + [row];
      }
      signs := next;
    }
  }

  /** signs |= (book byte >> 7) << byte, for one expert. */
  method AddSigns(aux: seq<bv8>, base: nat, was: seq<bv8>, byte: nat) returns (row: seq<bv8>)
    requires base + BOOK <= |aux| && byte < 8
    requires PartialSigns(aux[base..base + BOOK], was, byte)
    ensures PartialSigns(aux[base..base + BOOK], row, byte + 1)
  {
    ghost var book := aux[base..base + BOOK];
    row := [];
    for x := 0 to ENTRIES
      invariant |row| == x
      invariant forall k | 0 <= k < x :: row[k] == FoldedSigns(Entry(book, k), byte + 1)
    {
      var top := aux[base + x * 8 + byte] >> 7;
      assert Entry(book, x)[byte] == book[x * 8 + byte] == aux[base + (x * 8 + byte)];
      row := row + [was[x] | (top << byte)];
    }
  }

  ghost predicate PartialSigns(book: seq<bv8>, signs: seq<bv8>, n: nat)
    requires |book| == BOOK && n <= 8
  {
    |signs| == ENTRIES && forall x | 0 <= x < ENTRIES :: signs[x] == FoldedSigns(Entry(book, x), n)
  }

  ghost predicate SignsOf(book: seq<bv8>, signs: seq<bv8>)
    requires |book| == BOOK
  {
    PartialSigns(book, signs, 8)
  }

  function Cleared(book: seq<bv8>): (r: seq<bv8>)
    ensures |r| == |book|
  {
    seq(|book|, i requires 0 <= i < |book| => book[i] & 127)
  }

  function ClearTop(x: bv8): bv8 {
    x & 127
  }

  /** A copy of the auxiliary buffer with the top bit of every codebook byte cleared. */
  method ClearBooks(aux: seq<bv8>, experts: nat, auxCols: nat) returns (cleared: seq<bv8>)
    requires HasBooks(aux, experts, auxCols)
    ensures cleared == ClearedAux(aux, auxCols, ClearTop)
  {
    cleared := seq(|aux|, i requires 0 <= i < |aux| => if i % auxCols < BOOK then aux[i] & 127 else aux[i]);
    forall i | 0 <= i < |aux|
      ensures cleared[i] == ClearedAux(aux, auxCols, ClearTop)[i]
    {
      assert ClearTop(aux[i]) == aux[i] & 127;
    }
  }

  /** Every expert's codebook loses its signs. */
  lemma {:induction false} ClearedBook(aux: seq<bv8>, experts: nat, auxCols: nat, e: nat)
    requires HasBooks(aux, experts, auxCols) && e < experts
    ensures HasBooks(ClearedAux(aux, auxCols, ClearTop), experts, auxCols)
    ensures Book(ClearedAux(aux, auxCols, ClearTop), experts, auxCols, e) == Cleared(Book(aux, experts, auxCols, e))
  {
    BookInside(aux, experts, auxCols, e);
    var book, was := Book(ClearedAux(aux, auxCols, ClearTop), experts, auxCols, e), Book(aux, experts, auxCols, e);
    forall k | 0 <= k < BOOK
      ensures book[k] == was[k] & 127
    {
      ClearedAuxAt(aux, experts, auxCols, ClearTop, e, k);
    }
  }

  // ---------------------------------------------------------------------------
  // What an atom decodes to
  // ---------------------------------------------------------------------------

  /** Weight j of word w of a canonical atom. */
  function CanonicalWeight(a: Atom<bv8>, book: seq<bv8>, w: nat, j: bv3): bv8
    requires |book| == BOOK && w < 4
  {
    Weight(BookByte(book, CanonicalIndex(a.Low(w), a.meta, w), j), Bit(a.Sign(w), j))
  }

  /** ... of a packed atom with the signs still in word order (down) ... */
  function DownWeight(a: Atom<bv8>, book: seq<bv8>, w: nat, j: bv3): bv8
    requires |book| == BOOK && w < 4
  {
    Weight(BookByte(book, PackedIndex(a, w), j), Bit(a.Sign(w), j))
  }

  /** ... and of a packed atom with the signs in planes (gate/up). */
  function GateWeight(a: Atom<bv8>, book: seq<bv8>, w: nat, j: bv3): bv8
    requires |book| == BOOK && w < 4
  {
    Weight(BookByte(book, PackedIndex(a, w), j), (PlaneSign(a, w, j) & 255) as bv8)
  }

  /** The index of an entry as a number: a byte, and a metadata bit worth 256. */
  function EntryIndex(low: bv8, meta: bv8, w: nat): (x: nat)
    requires w < 4
  {
    low as nat + if meta & (if w == 0 then 1 else if w == 1 then 2 else if w == 2 then 4 else 8) == 0 then 0 else 256
  }

  lemma {:induction false} WeightOfParts(a: Atom<bv8>, book: seq<bv8>, w: nat, j: bv3, index: nat, k: nat)
    requires |book| == BOOK && w < 4 && index == EntryIndex(a.Low(w), a.meta, w) && k == j as nat && k < 8
    ensures index * 8 + k < BOOK
    ensures CanonicalWeight(a, book, w, j) == book[index * 8 + k] ^ (((a.Sign(w) >> j) & 1) << 7)
  {
    IndexOfBytes(a.Low(w), a.meta, w, index);
    ByteOfEntry(book, CanonicalIndex(a.Low(w), a.meta, w), index, j, k);
  }

  /** The canonical weight in flat positions: byte k of the entry that the index names, its top bit flipped by
      bit k of the word's sign byte. */
  lemma {:induction false} CanonicalWeightOfBytes(data: seq<bv8>, b: nat, m: nat, book: seq<bv8>, w: nat, j: bv3,
                                                  k: nat)
    requires b + 8 <= |data| && m < |data| && |book| == BOOK && w < 4 && k == j as nat && k < 8
    ensures EntryIndex(data[b + w], data[m], w) * 8 + k < 4096
    ensures CanonicalWeight(AtomFrom(data, b, m), book, w, j)
         == book[EntryIndex(data[b + w], data[m], w) * 8 + k] ^ (((data[b + 4 + w] >> j) & 1) << 7)
  {
    FieldsOfAtom(data, b, m, w);
    WeightOfParts(AtomFrom(data, b, m), book, w, j, EntryIndex(data[b + w], data[m], w), k);
  }

  lemma {:induction false} FieldsOfAtom(data: seq<bv8>, b: nat, m: nat, w: nat)
    requires b + 8 <= |data| && m < |data| && w < 4
    ensures var a := AtomFrom(data, b, m);
            a.Low(w) == data[b + w] && a.Sign(w) == data[b + 4 + w] && a.meta == data[m]
  {
  }

  lemma {:induction false} ByteOfEntry(book: seq<bv8>, x: bv9, index: nat, j: bv3, k: nat)
    requires |book| == BOOK && x as nat == index < ENTRIES && k == j as nat && k < 8
    ensures index * 8 + k < BOOK && BookByte(book, x, j) == book[index * 8 + k]
  {
    assert Entry(book, index)[k] == book[index * 8 + k];
  }

  lemma {:induction false} IndexOfBytes(low: bv8, meta: bv8, w: nat, index: nat)
    requires w < 4 && index == EntryIndex(low, meta, w)
    ensures CanonicalIndex(low, meta, w) as nat == index < ENTRIES
  {
    CanonicalIndexIs(low, meta, w);
    IndexAsNumber(low, CanonicalIndex(low, meta, w), index);
  }

  lemma {:induction false} IndexAsNumber(low: bv8, x: bv9, index: nat)
    requires (x == low as bv9 && index == low as nat) || (x == low as bv9 + 256 && index == low as nat + 256)
    ensures x as nat == index < 512
  {
  }

  lemma {:induction false} ByteRoundTrip(x: bv8)
    ensures ((x as bv32) & 255) as bv8 == x
  {
  }

  lemma {:induction false} FoldedAtomFields(a: Atom<bv8>, signs: seq<bv8>, w: nat)
    requires |signs| == ENTRIES && w < 4
    ensures FoldedAtom(a, signs).Low(w) == a.Low(w) && FoldedAtom(a, signs).meta == a.meta
    ensures FoldedAtom(a, signs).Sign(w) == a.Sign(w) ^ signs[CanonicalIndex(a.Low(w), a.meta, w) as int]
  {
    PutSignsKeeps(a, FoldedBytes(a, signs), 4, w);
  }

  lemma {:induction false} ClearedEntry(book: seq<bv8>, x: nat, j: nat)
    requires |book| == BOOK && x < ENTRIES && j < 8
    ensures Entry(Cleared(book), x)[j] == Entry(book, x)[j] & 127
  {
    assert Entry(book, x)[j] == book[x * 8 + j] && Entry(Cleared(book), x)[j] == Cleared(book)[x * 8 + j];
  }

  lemma {:induction false} ClearedByte(book: seq<bv8>, x: bv9, j: bv3)
    requires |book| == BOOK
    ensures BookByte(Cleared(book), x, j) == BookByte(book, x, j) & 127
  {
    ClearedEntry(book, x as int, j as int);
  }

  lemma {:induction false} SignOfByte(book: seq<bv8>, signs: seq<bv8>, x: bv9, j: bv3)
    requires |book| == BOOK && SignsOf(book, signs)
    ensures Bit(signs[x as int], j) == BookByte(book, x, j) >> 7
  {
    FoldedSignBit(Entry(book, x as int), j);
  }

  lemma {:induction false} FoldingKeepsCanonicalWeight(book: seq<bv8>, signs: seq<bv8>, x: bv9, sign: bv8, j: bv3)
    requires |book| == BOOK && SignsOf(book, signs)
    ensures Weight(BookByte(Cleared(book), x, j), Bit(sign ^ signs[x as int], j))
            == Weight(BookByte(book, x, j), Bit(sign, j))
  {
    SignOfByte(book, signs, x, j);
    ClearedByte(book, x, j);
    FoldingKeepsWeight(BookByte(book, x, j), sign, signs[x as int], j);
  }

  /** Folding then packing keeps every weight of an atom and the upper metadata nibble. */
  lemma {:induction false} DownAtomKeepsWeight(a: Atom<bv8>, book: seq<bv8>, signs: seq<bv8>, w: nat, j: bv3)
    requires |book| == BOOK && SignsOf(book, signs) && w < 4
    ensures DownWeight(PackedAtom(FoldedAtom(a, signs)), Cleared(book), w, j) == CanonicalWeight(a, book, w, j)
    ensures PackedAtom(FoldedAtom(a, signs)).meta & 240 == a.meta & 240
  {
    FoldedAtomFields(a, signs, w);
    PackingKeepsIndices(FoldedAtom(a, signs), w);
    FoldingKeepsCanonicalWeight(book, signs, CanonicalIndex(a.Low(w), a.meta, w), a.Sign(w), j);
  }

  lemma {:induction false} TransposeKeepsWeight(a: Atom<bv8>, book: seq<bv8>, w: nat, j: bv3)
    requires |book| == BOOK && w < 4
    ensures GateWeight(TransposedAtom(a), book, w, j) == DownWeight(a, book, w, j)
    ensures TransposedAtom(a).meta == a.meta
  {
    TransposeKeepsIndex(a, w);
    SignFromPlanes(a, w, j);
  }

  lemma {:induction false} TransposeKeepsIndex(a: Atom<bv8>, w: nat)
    requires w < 4
    ensures PackedIndex(TransposedAtom(a), w) == PackedIndex(a, w) && TransposedAtom(a).meta == a.meta
  {
    TransposeKeepsSigns(a, 0, 0);
    TransposeKeepsSigns(a, 1, 0);
    TransposeKeepsSigns(a, 2, 0);
    TransposeKeepsSigns(a, 3, 0);
  }

  lemma {:induction false} SignFromPlanes(a: Atom<bv8>, w: nat, j: bv3)
    requires w < 4
    ensures (PlaneSign(TransposedAtom(a), w, j) & 255) as bv8 == Bit(a.Sign(w), j)
  {
    TransposeKeepsSigns(a, w, j);
    ByteRoundTrip(Bit(a.Sign(w), j));
  }

  function SignTable(book: seq<bv8>): (signs: seq<bv8>)
    requires |book| == BOOK
    ensures SignsOf(book, signs)
  {
    seq(ENTRIES, x requires 0 <= x < ENTRIES => FoldedSigns(Entry(book, x), 8))
  }

  /** What packing makes of one atom, for a given codebook. */
  function DownForm(a: Atom<bv8>, book: seq<bv8>): Atom<bv8>
    requires |book| == BOOK
  {
    PackedAtom(FoldedAtom(a, SignTable(book)))
  }

  function GateForm(a: Atom<bv8>, book: seq<bv8>): Atom<bv8>
    requires |book| == BOOK
  {
    TransposedAtom(DownForm(a, book))
  }

  function Form(planes: bool, a: Atom<bv8>, book: seq<bv8>): Atom<bv8>
    requires |book| == BOOK
  {
    if planes then GateForm(a, book) else DownForm(a, book)
  }

  function FormWeight(planes: bool, a: Atom<bv8>, book: seq<bv8>, w: nat, j: bv3): bv8
    requires |book| == BOOK && w < 4
  {
    if planes then GateWeight(a, book, w, j) else DownWeight(a, book, w, j)
  }

  /** Both packed forms decode, through the cleared codebook, to the canonical weights. */
  lemma {:induction false} FormKeepsWeights(planes: bool, a: Atom<bv8>, book: seq<bv8>, w: nat, j: bv3)
    requires |book| == BOOK && w < 4
    ensures FormWeight(planes, Form(planes, a, book), Cleared(book), w, j) == CanonicalWeight(a, book, w, j)
    ensures Form(planes, a, book).meta & 240 == a.meta & 240
  {
    DownAtomKeepsWeight(a, book, SignTable(book), w, j);
    TransposeKeepsWeight(DownForm(a, book), Cleared(book), w, j);
  }

  // ---------------------------------------------------------------------------
  // A whole matrix
  // ---------------------------------------------------------------------------

  /** One packed or canonical matrix: its experts and the records of each. */
  datatype Shape = Shape(experts: nat, perExpert: nat, auxCols: nat) {
    ghost predicate Holds(data: seq<bv8>, aux: seq<bv8>) {
      |data| == experts * perExpert * RECORD && HasBooks(aux, experts, auxCols)
    }

    ghost function BookOf(aux: seq<bv8>, rec: nat): (book: seq<bv8>)
      requires HasBooks(aux, experts, auxCols) && rec < experts * perExpert
      ensures |book| == BOOK
    {
      ExpertInRange(rec, experts, perExpert);
      Book(aux, experts, auxCols, rec / perExpert)
    }
  }

  /** The packed form as a function of the record and the atom. */
  ghost function FormFunction(z: Shape, planes: bool, aux: seq<bv8>): (nat, Atom<bv8>) -> Atom<bv8>
    requires HasBooks(aux, z.experts, z.auxCols)
  {
    (rec: nat, a: Atom<bv8>) => if rec < z.experts * z.perExpert then Form(planes, a, z.BookOf(aux, rec)) else a
  }

  /** Every atom takes its packed form, every unowned byte stays, the codebooks lose their signs and
      the rest of the auxiliary buffer stays. */
  ghost predicate Packed(z: Shape, planes: bool, data: seq<bv8>, aux: seq<bv8>, data': seq<bv8>, aux': seq<bv8>)
    requires z.Holds(data, aux)
  {
    && z.Holds(data', aux')
    && RewrittenBy(data, data', z.experts * z.perExpert, FormFunction(z, planes, aux))
    && aux' == ClearedAux(aux, z.auxCols, ClearTop)
  }

  lemma {:induction false} FormApplied(z: Shape, planes: bool, aux: seq<bv8>, rec: nat, a: Atom<bv8>)
    requires HasBooks(aux, z.experts, z.auxCols) && rec < z.experts * z.perExpert
    ensures FormFunction(z, planes, aux)(rec, a) == Form(planes, a, z.BookOf(aux, rec))
  {
  }

  lemma {:induction false} SignsAreTheTable(book: seq<bv8>, signs: seq<bv8>)
    requires |book| == BOOK && SignsOf(book, signs)
    ensures signs == SignTable(book)
  {
  }

  lemma {:induction false} WholeRecords(cols: nat, kTiles: nat)
    requires 0 < kTiles && cols % (kTiles * RECORD) == 0
    ensures cols == cols / RECORD * RECORD
  {
    var q := cols / (kTiles * RECORD);
    assert cols == q * (kTiles * RECORD) == q * kTiles * RECORD;
    RowMajor.DivMod(q * kTiles, RECORD, 0);
  }

  lemma {:induction false} RecordsOfColumns(experts: nat, cols: nat, perExpert: nat)
    requires cols == perExpert * RECORD
    ensures experts * cols == experts * perExpert * RECORD
  {
  }

  /** Folding, packing and (for gate/up) transposing in place. Buffers it does not take are refused before
      anything is written. */
  method PackRecords(experts: nat, cols: nat, auxCols: nat, planes: bool, logicalK: nat, data: array<bv8>,
                     aux: seq<bv8>)
    returns (r: Result<seq<bv8>>)
    requires data.Length == experts * cols && |aux| == experts * auxCols
    modifies data
    ensures r.Ok? <==> && 0 < experts && 4096 <= auxCols && 128 <= logicalK
                       && cols % (logicalK / 128 * 3584) == 0
    ensures r.Err? ==> data[..] == old(data[..])
    ensures r.Ok? ==> var z := Shape(experts, cols / RECORD, auxCols);
                      z.Holds(old(data[..]), aux) && Packed(z, planes, old(data[..]), aux, data[..], r.value)
  {
    var kTiles := logicalK / 128;
    if kTiles == 0 {
      return Err("modulo by zero");
    }
    if cols % (kTiles * RECORD) != 0 {
      return Err("unexpected IQ2R record layout");
    }
    if experts == 0 {
      return Err("the unspecified dimension can be any value");
    }
    if auxCols < BOOK {
      return Err("the auxiliary holds no whole codebook");
    }
    WholeRecords(cols, kTiles);
    RecordsOfColumns(experts, cols, cols / RECORD);
    var cleared := RunPasses(Shape(experts, cols / RECORD, auxCols), planes, data, aux);
    r := Ok(cleared);
  }

  /** The passes over buffers of the right shape. */
  method RunPasses(z: Shape, planes: bool, data: array<bv8>, aux: seq<bv8>) returns (cleared: seq<bv8>)
    requires z.Holds(data[..], aux)
    modifies data
    ensures Packed(z, planes, old(data[..]), aux, data[..], cleared)
  {
    var records := z.experts * z.perExpert;
    ghost var canonical := data[..];
    var signs := GatherSigns(aux, z.experts, z.auxCols);
    forall e | 0 <= e < |signs|
      ensures |signs[e]| == ENTRIES
    {
      assert SignsOf(Book(aux, z.experts, z.auxCols, e), signs[e]);
    }
    ghost var f := PassFunction(FoldSigns(signs, z.perExpert), records);
    RewriteAtoms(data, records, FoldSigns(signs, z.perExpert), f);
    ghost var folded := data[..];
    cleared := ClearBooks(aux, z.experts, z.auxCols);
    RewriteAtoms(data, records, PackIndices, PassFunction(PackIndices, records));
    TwoPasses(z, aux, signs, canonical, folded, data[..]);
    if planes {
      ghost var packed := data[..];
      RewriteAtoms(data, records, TransposeSigns, PassFunction(TransposeSigns, records));
      ThirdPass(z, aux, canonical, packed, data[..]);
    }
  }

  lemma {:induction false} TwoPasses(z: Shape, aux: seq<bv8>, signs: seq<seq<bv8>>, data: seq<bv8>, folded: seq<bv8>,
                                     packed: seq<bv8>)
    requires HasBooks(aux, z.experts, z.auxCols) && |signs| == z.experts
    requires forall e | 0 <= e < z.experts :: SignsOf(Book(aux, z.experts, z.auxCols, e), signs[e])
    requires FoldSigns(signs, z.perExpert).Ready(z.experts * z.perExpert)
    requires RewrittenBy(data, folded, z.experts * z.perExpert,
                         PassFunction(FoldSigns(signs, z.perExpert), z.experts * z.perExpert))
    requires RewrittenBy(folded, packed, z.experts * z.perExpert, PassFunction(PackIndices, z.experts * z.perExpert))
    ensures RewrittenBy(data, packed, z.experts * z.perExpert, FormFunction(z, false, aux))
  {
    var records := z.experts * z.perExpert;
    var f, g := PassFunction(FoldSigns(signs, z.perExpert), records), PassFunction(PackIndices, records);
    var h := FormFunction(z, false, aux);
    forall rec, x | 0 <= rec < records
      ensures h(rec, x) == g(rec, f(rec, x))
    {
      ExpertInRange(rec, z.experts, z.perExpert);
      SignsAreTheTable(z.BookOf(aux, rec), signs[rec / z.perExpert]);
    }
    Compose(data, folded, packed, records, f, g, h);
  }

  lemma {:induction false} ThirdPass(z: Shape, aux: seq<bv8>, data: seq<bv8>, packed: seq<bv8>, final: seq<bv8>)
    requires HasBooks(aux, z.experts, z.auxCols)
    requires RewrittenBy(data, packed, z.experts * z.perExpert, FormFunction(z, false, aux))
    requires RewrittenBy(packed, final, z.experts * z.perExpert, PassFunction(TransposeSigns, z.experts * z.perExpert))
    ensures RewrittenBy(data, final, z.experts * z.perExpert, FormFunction(z, true, aux))
  {
    var records := z.experts * z.perExpert;
    var f, g := FormFunction(z, false, aux), PassFunction(TransposeSigns, records);
    Compose(data, packed, final, records, f, g, FormFunction(z, true, aux));
  }

  /** Packing a matrix preserves every weight of every expert, record, lane, atom, word and byte, and
      the upper nibble of every metadata byte. */
  lemma {:induction false} PackingPreservesWeights(z: Shape, planes: bool, data: seq<bv8>, aux: seq<bv8>,
                                                   data': seq<bv8>, aux': seq<bv8>, p: Pos, w: nat, j: bv3)
    requires z.Holds(data, aux) && Packed(z, planes, data, aux, data', aux')
    requires p.Valid(z.experts * z.perExpert) && w < 4
    ensures p.Base() + 8 <= |data| && p.Meta() < |data|
    ensures FormWeight(planes, AtomAt(data', p), z.BookOf(aux', p.rec), w, j)
            == CanonicalWeight(AtomAt(data, p), z.BookOf(aux, p.rec), w, j)
    ensures AtomAt(data', p).meta & 240 == AtomAt(data, p).meta & 240
  {
    RewrittenAt(data, data', z.experts * z.perExpert, FormFunction(z, planes, aux), p);
    ExpertInRange(p.rec, z.experts, z.perExpert);
    ClearedBook(aux, z.experts, z.auxCols, p.rec / z.perExpert);
    FormKeepsWeights(planes, AtomAt(data, p), z.BookOf(aux, p.rec), w, j);
  }
}
