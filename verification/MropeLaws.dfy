/** What the multimodal position loop computes on well-formed prompts (aiter/rotary_embedding.py): one column
    per token, every segment one past the maximum of what precedes it, and a delta that decoding can use. */
module MropeLaws {
  import opened MropeGrids
  import opened Mrope
  import opened Numbers

  // ---------------------------------------------------------------------------
  // Well-formed prompts
  // ---------------------------------------------------------------------------

  /** Text up to a start token, then the placeholders of one image or video, whose columns span size
      positions. */
  datatype Item = Item(text: seq<int>, kind: Kind, block: seq<Col>, size: nat)

  function Id(p: Prompt, kind: Kind): int {
    if kind == Image then p.imageId else p.videoId
  }

  predicate Plain(p: Prompt, text: seq<int>) {
    p.imageId !in text && p.videoId !in text
  }

  ghost predicate GoodItem(p: Prompt, item: Item) {
    && Plain(p, item.text) && EndsInStart(item.text, p.startId)
    && item.block != [] && 0 < item.size && EndsAtTop(item.block, item.size - 1)
  }

  predicate GoodIds(p: Prompt) {
    p.imageId != p.videoId && p.startId != p.imageId && p.startId != p.videoId
  }

  ghost predicate GoodItems(p: Prompt, items: seq<Item>) {
    forall i :: 0 <= i < |items| ==> GoodItem(p, items[i])
  }

  function Pads(p: Prompt, item: Item): seq<int> {
    seq(|item.block|, _ => Id(p, item.kind))
  }

  function Assemble(p: Prompt, items: seq<Item>, tail: seq<int>): seq<int> {
    if items == [] then tail else items[0].text + (Pads(p, items[0]) + Assemble(p, items[1..], tail))
  }

  function BlocksOfKind(items: seq<Item>, kind: Kind): seq<seq<Col>> {
    if items == [] then []
    else (if items[0].kind == kind then [items[0].block] else []) + BlocksOfKind(items[1..], kind)
  }

  /** The prompt is text, start token and placeholders again and again, then text; there are blocks for
      at least its images and videos, in order. */
  ghost predicate WellFormed(p: Prompt, items: seq<Item>, tail: seq<int>) {
    && GoodIds(p) && GoodItems(p, items) && Plain(p, tail) && !EndsInStart(tail, p.startId)
    && p.tokens == Assemble(p, items, tail)
    && BlocksOfKind(items, Image) <= p.images && BlocksOfKind(items, Video) <= p.videos
  }

  // The reference: what the positions should be, item by item.

  function AfterItem(item: Item, base: int): int {
    base + |item.text| + item.size
  }

  function After(items: seq<Item>, base: int): int {
    if items == [] then base else After(items[1..], AfterItem(items[0], base))
  }

  function ItemColumns(item: Item, base: int): seq<Col> {
    Text(|item.text|, base) + ShiftAll(item.block, base + |item.text|)
  }

  function Columns(items: seq<Item>, tail: seq<int>, base: int): seq<Col> {
    if items == [] then Text(|tail|, base)
    else ItemColumns(items[0], base) + Columns(items[1..], tail, AfterItem(items[0], base))
  }

  // ---------------------------------------------------------------------------
  // Counting the segments
  // ---------------------------------------------------------------------------

  lemma {:induction false} PairsOfRest(front: seq<int>, rest: seq<int>, a: int, b: int, i: nat)
    ensures Pairs(front + rest, a, b, |front| + i) == Pairs(rest, a, b, i)
    decreases |rest| - i
  {
    if i + 1 < |rest| {
      PairsOfRest(front, rest, a, b, i + 1);
    }
  }

  lemma {:induction false} PairsOfText(text: seq<int>, rest: seq<int>, a: int, b: int, i: nat)
    requires b !in text && i < |text| && text[|text| - 1] == a
    ensures Pairs(text + rest, a, b, i) == (if rest != [] && rest[0] == b then 1 else 0) + Pairs(rest, a, b, 0)
    decreases |text| - i
  {
    PairsOfRest(text, rest, a, b, 0);
    if i + 1 < |text| {
      PairsOfText(text, rest, a, b, i + 1);
    }
  }

  lemma {:induction false} PairsOfPads(pads: seq<int>, rest: seq<int>, a: int, b: int, i: nat)
    requires a !in pads && i <= |pads|
    ensures Pairs(pads + rest, a, b, i) == Pairs(rest, a, b, 0)
    decreases |pads| - i
  {
    PairsOfRest(pads, rest, a, b, 0);
    if i < |pads| {
      PairsOfPads(pads, rest, a, b, i + 1);
    }
  }

  lemma {:induction false} NoPairs(tail: seq<int>, a: int, b: int, i: nat)
    requires b !in tail
    ensures Pairs(tail, a, b, i) == 0
    decreases |tail| - i
  {
    if i + 1 < |tail| {
      NoPairs(tail, a, b, i + 1);
    }
  }

  /** Start tokens followed by a placeholder count the images and the videos. */
  lemma {:induction false} PairsCountItems(p: Prompt, items: seq<Item>, tail: seq<int>, kind: Kind)
    requires GoodIds(p) && GoodItems(p, items) && Plain(p, tail)
    ensures Pairs(Assemble(p, items, tail), p.startId, Id(p, kind), 0) == |BlocksOfKind(items, kind)|
  {
    if items == [] {
      NoPairs(tail, p.startId, Id(p, kind), 0);
    } else {
      var pads, rest := Pads(p, items[0]), Assemble(p, items[1..], tail);
      assert GoodItem(p, items[0]);
      PairsCountItems(p, items[1..], tail, kind);
      PadsExist(p, items[0]);
      PairsOfPads(pads, rest, p.startId, Id(p, kind), 0);
      PairsOfText(items[0].text, pads + rest, p.startId, Id(p, kind), 0);
    }
  }

  lemma {:induction false} PadsExist(p: Prompt, item: Item)
    requires GoodItem(p, item)
    ensures |Pads(p, item)| > 0 && Pads(p, item)[0] == Id(p, item.kind)
  {
  }

  lemma {:induction false} KindOccurs(p: Prompt, items: seq<Item>, tail: seq<int>, kind: Kind)
    requires GoodItems(p, items) && BlocksOfKind(items, kind) != []
    ensures Id(p, kind) in Assemble(p, items, tail)
  {
    if items[0].kind == kind {
      PadsExist(p, items[0]);
      assert Pads(p, items[0])[0] in Assemble(p, items, tail);
    } else {
      KindOccurs(p, items[1..], tail, kind);
    }
  }

  // ---------------------------------------------------------------------------
  // The loop on a well-formed prompt
  // ---------------------------------------------------------------------------

  function Index(s: State, kind: Kind): nat {
    if kind == Image then s.images else s.videos
  }

  function Blocks(p: Prompt, kind: Kind): seq<seq<Col>> {
    if kind == Image then p.images else p.videos
  }

  function Total(ni: nat, nv: nat, kind: Kind): nat {
    if kind == Image then ni else nv
  }

  /** The loop stands before these items. */
  ghost predicate At(p: Prompt, ni: nat, nv: nat, items: seq<Item>, tail: seq<int>, before: seq<int>, s: State) {
    && p.tokens == before + Assemble(p, items, tail) && s.st == |before|
    && forall kind ::
         && Total(ni, nv, kind) - Index(s, kind) == |BlocksOfKind(items, kind)|
         && Index(s, kind) <= |Blocks(p, kind)|
         && BlocksOfKind(items, kind) <= Blocks(p, kind)[Index(s, kind)..]
  }

  lemma {:induction false} ItemTokens(p: Prompt, items: seq<Item>, tail: seq<int>, before: seq<int>)
    requires GoodIds(p) && GoodItems(p, items) && items != []
    requires p.tokens == before + Assemble(p, items, tail)
    ensures var k := |before| + |items[0].text|;
            && k < |p.tokens| && p.tokens[k] == Id(p, items[0].kind)
            && (forall i :: |before| <= i < k ==> p.tokens[i] in items[0].text)
  {
    assert GoodItem(p, items[0]);
    PadsExist(p, items[0]);
    var k := |before| + |items[0].text|;
    assert p.tokens[k] == Pads(p, items[0])[0];
    forall i | |before| <= i < k
      ensures p.tokens[i] in items[0].text
    {
      assert p.tokens[i] == items[0].text[i - |before|];
    }
  }

  lemma {:induction false} OwnSegment(p: Prompt, items: seq<Item>, tail: seq<int>, before: seq<int>, remain: int)
    requires GoodIds(p) && GoodItems(p, items) && items != []
    requires p.tokens == before + Assemble(p, items, tail) && remain > 0
    ensures NextOf(p.tokens, Id(p, items[0].kind), remain, |before|) == |before| + |items[0].text|
  {
    ItemTokens(p, items, tail, before);
    assert GoodItem(p, items[0]);
  }

  lemma {:induction false} OtherSegment(p: Prompt, items: seq<Item>, tail: seq<int>, before: seq<int>, kind: Kind)
    requires GoodIds(p) && GoodItems(p, items) && items != [] && kind != items[0].kind
    requires p.tokens == before + Assemble(p, items, tail)
    ensures NextOf(p.tokens, Id(p, kind), |BlocksOfKind(items, kind)|, |before|) > |before| + |items[0].text|
  {
    ItemTokens(p, items, tail, before);
    assert GoodItem(p, items[0]);
    if BlocksOfKind(items, kind) != [] {
      KindOccurs(p, items, tail, kind);
      var k :| 0 <= k < |Assemble(p, items, tail)| && Assemble(p, items, tail)[k] == Id(p, kind);
      assert p.tokens[|before| + k] == Id(p, kind);
    }
  }

  lemma {:induction false} BlockOfFirst(p: Prompt, ni: nat, nv: nat, items: seq<Item>, tail: seq<int>,
                                        before: seq<int>, s: State)
    requires items != [] && At(p, ni, nv, items, tail, before, s)
    ensures var kind := items[0].kind;
            && Index(s, kind) < |Blocks(p, kind)| && Blocks(p, kind)[Index(s, kind)] == items[0].block
            && Total(ni, nv, kind) - Index(s, kind) > 0
  {
    var kind := items[0].kind;
    assert BlocksOfKind(items, kind)[0] == items[0].block;
    assert Blocks(p, kind)[Index(s, kind)..][0] == items[0].block;
    assert Total(ni, nv, kind) - Index(s, kind) == |BlocksOfKind(items, kind)|;
  }

  /** The loop picks exactly the next item. */
  lemma {:induction false} ChoosesItem(p: Prompt, ni: nat, nv: nat, items: seq<Item>, tail: seq<int>,
                                       before: seq<int>, s: State)
    requires GoodIds(p) && GoodItems(p, items) && items != [] && At(p, ni, nv, items, tail, before, s)
    ensures Choose(p, ni, nv, s) == Pick(items[0].kind, |before| + |items[0].text|)
  {
    var other := if items[0].kind == Image then Video else Image;
    BlockOfFirst(p, ni, nv, items, tail, before, s);
    OwnSegment(p, items, tail, before, Total(ni, nv, items[0].kind) - Index(s, items[0].kind));
    OtherSegment(p, items, tail, before, other);
    assert Total(ni, nv, other) - Index(s, other) == |BlocksOfKind(items, other)|;
  }

  /** The state after the first item. */
  function Advanced(item: Item, s: State): State {
    State(s.st + |item.text| + |item.block|, s.images + ImageTaken(item.kind), s.videos + 1 - ImageTaken(item.kind),
          Then(s.plan, |item.text|, item.block))
  }

  function ImageTaken(kind: Kind): nat {
    if kind == Image then 1 else 0
  }

  lemma {:induction false} StepTakesItem(p: Prompt, ni: nat, nv: nat, items: seq<Item>, tail: seq<int>,
                                         before: seq<int>, s: State)
    requires GoodIds(p) && GoodItems(p, items) && items != [] && At(p, ni, nv, items, tail, before, s)
    requires s.plan.Then? ==> s.plan.block != []
    ensures Step(p, ni, nv, s) == Reached(Advanced(items[0], s))
  {
    ChoosesItem(p, ni, nv, items, tail, before, s);
    BlockOfFirst(p, ni, nv, items, tail, before, s);
  }

  lemma {:induction false} AdvancedAt(p: Prompt, ni: nat, nv: nat, items: seq<Item>, tail: seq<int>, before: seq<int>,
                                      s: State)
    requires GoodIds(p) && GoodItems(p, items) && items != [] && At(p, ni, nv, items, tail, before, s)
    ensures At(p, ni, nv, items[1..], tail, before + items[0].text + Pads(p, items[0]), Advanced(items[0], s))
  {
    var next := Advanced(items[0], s);
    var gone := before + items[0].text + Pads(p, items[0]);
    assert gone + Assemble(p, items[1..], tail) == before + Assemble(p, items, tail);
    forall kind
      ensures Total(ni, nv, kind) - Index(next, kind) == |BlocksOfKind(items[1..], kind)|
      ensures Index(next, kind) <= |Blocks(p, kind)|
      ensures BlocksOfKind(items[1..], kind) <= Blocks(p, kind)[Index(next, kind)..]
    {
      var all, rest := BlocksOfKind(items, kind), BlocksOfKind(items[1..], kind);
      assert Total(ni, nv, kind) - Index(s, kind) == |all| && all <= Blocks(p, kind)[Index(s, kind)..];
      if kind == items[0].kind {
        assert all[1..] == rest;
        assert Blocks(p, kind)[Index(s, kind)..][1..] == Blocks(p, kind)[Index(next, kind)..];
      } else {
        assert all == rest;
      }
    }
  }

  /** A plan and then all the items. */
  function Planned(plan: Plan, items: seq<Item>): Plan
    decreases |items|
  {
    if items == [] then plan else Planned(Then(plan, |items[0].text|, items[0].block), items[1..])
  }

  lemma {:induction false} FirstRound(p: Prompt, ni: nat, nv: nat, s: State, next: State, n: nat, end: State)
    requires Step(p, ni, nv, s) == Reached(next) && Rounds(p, ni, nv, next, n) == Reached(end)
    ensures Rounds(p, ni, nv, s, n + 1) == Reached(end)
  {
  }

  /** The loop gets from s to end in n rounds. */
  ghost predicate Leads(p: Prompt, ni: nat, nv: nat, s: State, n: nat, end: State)
    decreases n
  {
    if n == 0 then s == end
    else exists next :: Step(p, ni, nv, s) == Reached(next) && Leads(p, ni, nv, next, n - 1, end)
  }

  lemma {:induction false} LeadsNext(p: Prompt, ni: nat, nv: nat, s: State, n: nat, end: State) returns (next: State)
    requires n > 0 && Leads(p, ni, nv, s, n, end)
    ensures Step(p, ni, nv, s) == Reached(next) && Leads(p, ni, nv, next, n - 1, end)
  {
    next :| Step(p, ni, nv, s) == Reached(next) && Leads(p, ni, nv, next, n - 1, end);
  }

  lemma {:induction false} LeadsIsRounds(p: Prompt, ni: nat, nv: nat, s: State, n: nat, end: State)
    requires Leads(p, ni, nv, s, n, end)
    ensures Rounds(p, ni, nv, s, n) == Reached(end)
    decreases n
  {
    if n > 0 {
      var next := LeadsNext(p, ni, nv, s, n, end);
      LeadsIsRounds(p, ni, nv, next, n - 1, end);
      FirstRound(p, ni, nv, s, next, n - 1, end);
    }
  }

  lemma {:induction false} PlannedFirst(s: State, items: seq<Item>)
    requires items != []
    ensures Planned(s.plan, items) == Planned(Advanced(items[0], s).plan, items[1..])
  {
  }

  lemma {:induction false} LeadsFromHere(p: Prompt, ni: nat, nv: nat, items: seq<Item>, tail: seq<int>,
                                         before: seq<int>, s: State, end: State)
    requires GoodIds(p) && GoodItems(p, items) && items != [] && At(p, ni, nv, items, tail, before, s)
    requires s.plan.Then? ==> s.plan.block != []
    requires Leads(p, ni, nv, Advanced(items[0], s), |items| - 1, end)
    ensures Leads(p, ni, nv, s, |items|, end)
  {
    StepTakesItem(p, ni, nv, items, tail, before, s);
  }

  /** The whole loop on a well-formed prompt never fails, takes all items and stops at the closing text. */
  lemma {:induction false} LoopTakesAllItems(p: Prompt, ni: nat, nv: nat, items: seq<Item>, tail: seq<int>,
                                             before: seq<int>, s: State)
    returns (end: State)
    requires GoodIds(p) && GoodItems(p, items) && At(p, ni, nv, items, tail, before, s)
    requires s.plan.Then? ==> s.plan.block != []
    ensures Leads(p, ni, nv, s, |items|, end)
    ensures end.st + |tail| == |p.tokens| && end.plan == Planned(s.plan, items)
    decreases |items|
  {
    if items == [] {
      end := s;
    } else {
      AdvancedAt(p, ni, nv, items, tail, before, s);
      assert GoodItem(p, items[0]);
      end := LoopTakesAllItems(p, ni, nv, items[1..], tail, before + items[0].text + Pads(p, items[0]),
                               Advanced(items[0], s));
      LeadsFromHere(p, ni, nv, items, tail, before, s, end);
      PlannedFirst(s, items);
    }
  }

  // ---------------------------------------------------------------------------
  // The pieces of the plan
  // ---------------------------------------------------------------------------

  lemma {:induction false} NextAfterItem(item: Item, pieces: Pieces, base: int)
    requires item.block != [] && EndsAtTop(item.block, item.size - 1)
    ensures NextStart(Append(pieces, ShiftAll(item.block, |item.text| + base))) == Start(AfterItem(item, base))
  {
    var v := ShiftAll(item.block, |item.text| + base);
    ShiftedEndsAtTop(item.block, item.size - 1, |item.text| + base);
    MaxOfEnd(v, item.size - 1 + (|item.text| + base));
  }

  lemma {:induction false} FlattenTwo(pieces: Pieces, a: seq<Col>, b: seq<Col>)
    ensures Flatten(Append(Append(pieces, a), b)) == Flatten(pieces) + (a + b)
  {
    Regroup(Flatten(pieces), a, b);
  }

  lemma {:induction false} PiecesThen(plan: Plan, len: nat, block: seq<Col>, base: int)
    requires NextStart(PiecesOf(plan)) == Start(base)
    ensures PiecesOf(Then(plan, len, block))
            == Append(Append(PiecesOf(plan), Text(len, base)), ShiftAll(block, len + base))
  {
  }

  lemma {:induction false} PiecesOfItem(plan: Plan, item: Item, base: int)
    requires item.block != [] && EndsAtTop(item.block, item.size - 1) && NextStart(PiecesOf(plan)) == Start(base)
    ensures var pieces := PiecesOf(Then(plan, |item.text|, item.block));
            NextStart(pieces) == Start(AfterItem(item, base))
              && Flatten(pieces) == Flatten(PiecesOf(plan)) + ItemColumns(item, base)
  {
    var text, block := Text(|item.text|, base), ShiftAll(item.block, |item.text| + base);
    PiecesThen(plan, |item.text|, item.block, base);
    NextAfterItem(item, Append(PiecesOf(plan), text), base);
    FlattenTwo(PiecesOf(plan), text, block);
    assert ItemColumns(item, base) == text + block;
  }

  /** The pieces of the items are the reference columns, up to the closing text. */
  lemma {:induction false} PiecesOfItems(p: Prompt, plan: Plan, items: seq<Item>, tail: seq<int>, base: int)
    requires GoodItems(p, items) && NextStart(PiecesOf(plan)) == Start(base)
    ensures var pieces := PiecesOf(Planned(plan, items));
            && NextStart(pieces) == Start(After(items, base))
            && Flatten(pieces) + Text(|tail|, After(items, base))
              == Flatten(PiecesOf(plan)) + Columns(items, tail, base)
            && (items != [] ==> pieces != Empty)
    decreases |items|
  {
    if items != [] {
      assert GoodItem(p, items[0]);
      PiecesOfItem(plan, items[0], base);
      var next := Then(plan, |items[0].text|, items[0].block);
      PiecesOfItems(p, next, items[1..], tail, AfterItem(items[0], base));
      Regroup(Flatten(PiecesOf(plan)), ItemColumns(items[0], base),
              Columns(items[1..], tail, AfterItem(items[0], base)));
      NotEmpty(next, items[1..]);
    }
  }

  lemma {:induction false} NotEmpty(plan: Plan, items: seq<Item>)
    requires plan.Then?
    ensures PiecesOf(Planned(plan, items)) != Empty
    decreases |items|
  {
    if items != [] {
      NotEmpty(Then(plan, |items[0].text|, items[0].block), items[1..]);
    }
  }

  // ---------------------------------------------------------------------------
  // The results
  // ---------------------------------------------------------------------------

  lemma {:induction false} ColumnsPerToken(p: Prompt, items: seq<Item>, tail: seq<int>, base: int)
    ensures |Columns(items, tail, base)| == |Assemble(p, items, tail)|
  {
    if items != [] {
      ColumnsPerToken(p, items[1..], tail, AfterItem(items[0], base));
    }
  }

  lemma {:induction false} JoinedEndsAtTop(a: seq<Col>, top: int, b: seq<Col>, top': int)
    requires EndsAtTop(a, top) && EndsAtTop(b, top') && top <= top' && (b == [] ==> top == top')
    ensures EndsAtTop(a + b, top')
  {
    forall i | 0 <= i < |a + b|
      ensures Top((a + b)[i]) <= top'
    {
      if i < |a| {
        assert (a + b)[i] == a[i];
      } else {
        assert (a + b)[i] == b[i - |a|];
      }
    }
    if b != [] {
      assert (a + b)[|a + b| - 1] == b[|b| - 1];
    }
  }

  lemma {:induction false} AfterGrows(p: Prompt, items: seq<Item>, base: int)
    requires GoodItems(p, items)
    ensures After(items, base) >= base && (items != [] ==> After(items, base) > base)
  {
    if items != [] {
      assert GoodItem(p, items[0]);
      AfterGrows(p, items[1..], AfterItem(items[0], base));
    }
  }

  lemma {:induction false} ItemEndsAtTop(p: Prompt, item: Item, base: int)
    requires GoodItem(p, item)
    ensures EndsAtTop(ItemColumns(item, base), AfterItem(item, base) - 1)
    ensures ItemColumns(item, base) != []
  {
    var b := base + |item.text|;
    TextEndsAtTop(|item.text|, base);
    ShiftedEndsAtTop(item.block, item.size - 1, b);
    JoinedEndsAtTop(Text(|item.text|, base), b - 1, ShiftAll(item.block, b), b + item.size - 1);
  }

  /** The last column holds the largest position of all. */
  lemma {:induction false} ColumnsEndAtTop(p: Prompt, items: seq<Item>, tail: seq<int>, base: int)
    requires GoodItems(p, items)
    ensures EndsAtTop(Columns(items, tail, base), After(items, base) + |tail| - 1)
    decreases |items|
  {
    if items == [] {
      TextEndsAtTop(|tail|, base);
    } else {
      var next := AfterItem(items[0], base);
      assert GoodItem(p, items[0]);
      ItemEndsAtTop(p, items[0], base);
      ColumnsEndAtTop(p, items[1..], tail, next);
      AfterGrows(p, items[1..], next);
      var rest := Columns(items[1..], tail, next);
      ColumnsPerToken(p, items[1..], tail, next);
      if items[1..] != [] {
        SomethingAssembled(p, items[1..], tail);
      }
      JoinedEndsAtTop(ItemColumns(items[0], base), next - 1, rest, After(items, base) + |tail| - 1);
    }
  }

  lemma {:induction false} SomethingAssembled(p: Prompt, items: seq<Item>, tail: seq<int>)
    requires GoodItems(p, items) && items != []
    ensures Assemble(p, items, tail) != []
  {
    assert GoodItem(p, items[0]);
  }

  lemma {:induction false} SuffixEndsAtTop(cols: seq<Col>, k: nat, top: int)
    requires EndsAtTop(cols, top) && k <= |cols|
    ensures EndsAtTop(cols[k..], top)
  {
  }

  lemma {:induction false} SuffixTop(cols: seq<Col>, context: int, top: int)
    requires EndsAtTop(cols, top) && From(cols, context) != []
    ensures MaxOf(From(cols, context)) == top
  {
    SuffixEndsAtTop(cols, SliceBound(context, |cols|), top);
    MaxOfEnd(From(cols, context), top);
  }

  /** A well-formed prompt gets its reference columns, one per token; only the empty prompt fails. */
  lemma {:induction false} ColumnsOfThePrompt(p: Prompt, items: seq<Item>, tail: seq<int>)
    requires WellFormed(p, items, tail)
    ensures |Columns(items, tail, 0)| == |p.tokens|
    ensures AllColumns(p) == if p.tokens == [] then NotJoined(NothingToJoin) else Joined(Columns(items, tail, 0))
  {
    var cols := Columns(items, tail, 0);
    ColumnsPerToken(p, items, tail, 0);
    NoStartAtTheEnd(p, items, tail);
    var end := SegmentsOfThePrompt(p, items, tail);
    ClosesTheSegments(p, end, |tail|);
    PiecesOfThePrompt(p, items, tail);
    if items != [] {
      SomethingAssembled(p, items, tail);
    }
    ClosedColumns(end.pieces, cols, After(items, 0), |tail|);
  }

  lemma {:induction false} ClosesTheSegments(p: Prompt, end: Loop, n: nat)
    requires !EndsInStart(p.tokens, p.startId) && end == Segments(p, Count(p, p.imageId), Count(p, p.videoId))
    requires end.Ended? && end.st + n == |p.tokens|
    ensures AllColumns(p) == Closed(end.pieces, n)
  {
  }

  lemma {:induction false} PiecesOfThePrompt(p: Prompt, items: seq<Item>, tail: seq<int>)
    requires GoodItems(p, items)
    ensures var pieces := PiecesOf(Planned(Nothing, items));
            && NextStart(pieces) == Start(After(items, 0))
            && Flatten(pieces) + Text(|tail|, After(items, 0)) == Columns(items, tail, 0)
            && (items != [] ==> pieces != Empty)
  {
    PiecesOfItems(p, Nothing, items, tail, 0);
    assert Flatten(PiecesOf(Nothing)) + Columns(items, tail, 0) == Columns(items, tail, 0);
  }

  lemma {:induction false} SegmentsOfThePrompt(p: Prompt, items: seq<Item>, tail: seq<int>) returns (end: Loop)
    requires WellFormed(p, items, tail)
    ensures end == Segments(p, Count(p, p.imageId), Count(p, p.videoId))
    ensures end.Ended? && end.st + |tail| == |p.tokens| && end.pieces == PiecesOf(Planned(Nothing, items))
  {
    var start := State(0, 0, 0, Nothing);
    var ni, nv := Count(p, p.imageId), Count(p, p.videoId);
    StartsAt(p, ni, nv, items, tail, start);
    end := SegmentsFrom(p, items, tail, start, ni, nv);
  }

  lemma {:induction false} SegmentsFrom(p: Prompt, items: seq<Item>, tail: seq<int>, start: State, ni: nat, nv: nat)
    returns (end: Loop)
    requires GoodIds(p) && GoodItems(p, items) && start == State(0, 0, 0, Nothing)
    requires At(p, ni, nv, items, tail, [], start) && ni + nv == |items|
    ensures end == Segments(p, ni, nv)
    ensures end.Ended? && end.st + |tail| == |p.tokens| && end.pieces == PiecesOf(Planned(start.plan, items))
  {
    var s := LoopTakesAllItems(p, ni, nv, items, tail, [], start);
    SegmentsEnd(p, ni, nv, start, s);
    end := Ended(s.st, PiecesOf(s.plan));
  }

  lemma {:induction false} SegmentsEnd(p: Prompt, ni: nat, nv: nat, start: State, s: State)
    requires start == State(0, 0, 0, Nothing) && Leads(p, ni, nv, start, ni + nv, s)
    ensures Segments(p, ni, nv) == Ended(s.st, PiecesOf(s.plan))
  {
    LeadsIsRounds(p, ni, nv, start, ni + nv, s);
    assert Left(Reached(s)) == Ended(s.st, PiecesOf(s.plan));
  }

  lemma {:induction false} StartsAt(p: Prompt, ni: nat, nv: nat, items: seq<Item>, tail: seq<int>, s: State)
    requires WellFormed(p, items, tail) && s.st == s.images == s.videos == 0
    requires ni == Count(p, p.imageId) && nv == Count(p, p.videoId)
    ensures At(p, ni, nv, items, tail, [], s) && ni + nv == |items|
  {
    PairsCountItems(p, items, tail, Image);
    PairsCountItems(p, items, tail, Video);
    KindsAreAll(items);
    assert [] + p.tokens == p.tokens;
    assert forall kind :: Blocks(p, kind)[0..] == Blocks(p, kind);
  }

  lemma {:induction false} ClosedColumns(pieces: Pieces, cols: seq<Col>, next: int, n: nat)
    requires NextStart(pieces) == Start(next) && Flatten(pieces) + Text(n, next) == cols
    ensures Closed(pieces, n) == if pieces == Empty && n == 0 then NotJoined(NothingToJoin) else Joined(cols)
  {
    if n == 0 {
      assert Flatten(pieces) + Text(0, next) == Flatten(pieces);
    }
  }

  /** Every context yields the columns from there on and the same delta, that of the whole prompt; the only
      failure is a context that leaves no column. */
  lemma {:induction false} PositionsAreTheColumns(p: Prompt, items: seq<Item>, tail: seq<int>, context: int)
    requires WellFormed(p, items, tail)
    ensures var cols := Columns(items, tail, 0);
            if From(cols, context) == [] then Positions(p, context).Failed?
            else Positions(p, context) == Output(From(cols, context), MaxOf(cols) + 1 - |p.tokens|)
  {
    ColumnsOfThePrompt(p, items, tail);
    ColumnsEndAtTop(p, items, tail, 0);
    SliceKeepsTheDelta(|p.tokens|, Columns(items, tail, 0), After(items, 0) + |tail| - 1, context);
  }

  lemma {:induction false} SliceKeepsTheDelta(n: nat, cols: seq<Col>, top: int, context: int)
    requires EndsAtTop(cols, top)
    ensures if From(cols, context) == [] then Slice(n, cols, context).Failed?
            else Slice(n, cols, context) == Output(From(cols, context), MaxOf(cols) + 1 - n)
  {
    if From(cols, context) != [] {
      SuffixTop(cols, context, top);
      MaxOfEnd(cols, top);
    }
  }

  /** What a context leaves: from its column on, counted from the end if it is negative. */
  lemma {:induction false} PositionsFrom(p: Prompt, items: seq<Item>, tail: seq<int>, context: int, n: nat)
    requires WellFormed(p, items, tail) && n == |p.tokens|
    ensures var cols := Columns(items, tail, 0); var r := Positions(p, context);
            && |cols| == n
            && (r.Failed? <==> n <= context || n == 0)
            && (0 <= context < n ==> r.columns == cols[context..])
            && (0 <= n + context < n ==> r.columns == cols[n + context..])
            && (n + context < 0 < n ==> r.columns == cols)
            && (r.Output? ==> r.delta == MaxOf(cols) + 1 - n)
  {
    PositionsAreTheColumns(p, items, tail, context);
    ColumnsPerToken(p, items, tail, 0);
  }

  lemma {:induction false} KindsAreAll(items: seq<Item>)
    ensures |BlocksOfKind(items, Image)| + |BlocksOfKind(items, Video)| == |items|
  {
    if items != [] {
      KindsAreAll(items[1..]);
    }
  }

  lemma {:induction false} NoStartAtTheEnd(p: Prompt, items: seq<Item>, tail: seq<int>)
    requires GoodIds(p) && GoodItems(p, items) && !EndsInStart(tail, p.startId)
    ensures !EndsInStart(Assemble(p, items, tail), p.startId)
  {
    if items != [] {
      var rest := Assemble(p, items[1..], tail);
      NoStartAtTheEnd(p, items[1..], tail);
      assert GoodItem(p, items[0]);
      PadsExist(p, items[0]);
      var pads := Pads(p, items[0]);
      var all := items[0].text + (pads + rest);
      assert all[|all| - 1] == if rest == [] then pads[|pads| - 1] else rest[|rest| - 1];
    }
  }

  /** The reference columns split at any segment: what follows starts one past the maximum of everything
      before it. */
  lemma {:induction false} SegmentsStartPastTheMaximum(p: Prompt, items: seq<Item>, tail: seq<int>, i: nat)
    requires WellFormed(p, items, tail) && 0 < i <= |items|
    ensures var front := Columns(items[..i], [], 0);
            && |front| == |Assemble(p, items[..i], [])| && front != []
            && Columns(items, tail, 0) == front + Columns(items[i..], tail, MaxOf(front) + 1)
  {
    var front := Columns(items[..i], [], 0);
    ColumnsPerToken(p, items[..i], [], 0);
    SomethingAssembled(p, items[..i], []);
    ColumnsEndAtTop(p, items[..i], [], 0);
    MaxOfEnd(front, After(items[..i], 0) - 1);
    SplitColumns(items, tail, 0, i);
  }

  lemma {:induction false} SplitColumns(items: seq<Item>, tail: seq<int>, base: int, i: nat)
    requires i <= |items|
    ensures Columns(items, tail, base)
         == Columns(items[..i], [], base) + Columns(items[i..], tail, After(items[..i], base))
  {
    if i == 0 {
      assert items[0..] == items;
      assert Columns(items[..0], [], base) == [];
    } else {
      var next := AfterItem(items[0], base);
      SplitColumns(items[1..], tail, next, i - 1);
      SlicesOfRest(items, i);
      Regroup(ItemColumns(items[0], base), Columns(items[1..][..i - 1], [], next),
              Columns(items[i..], tail, After(items[..i], base)));
    }
  }

  lemma {:induction false} SlicesOfRest(items: seq<Item>, i: nat)
    requires 0 < i <= |items|
    ensures items[..i][0] == items[0] && items[..i][1..] == items[1..][..i - 1] && items[1..][i - 1..] == items[i..]
  {
  }

  /** Whatever context the delta was computed with, the position after the prompt is one past the largest. */
  lemma {:induction false} DecodingResumes(p: Prompt, items: seq<Item>, tail: seq<int>, context: int, delta: int)
    requires WellFormed(p, items, tail)
    requires Positions(p, context).Output? && Positions(p, context).delta == delta
    ensures Columns(items, tail, 0) != [] && |p.tokens| + delta == MaxOf(Columns(items, tail, 0)) + 1
  {
    PositionsAreTheColumns(p, items, tail, context);
  }

  lemma {:induction false} TextAt(n: nat, base: int, i: nat)
    requires i < n
    ensures Text(n, base)[i] == Col(base + i, base + i, base + i)
  {
    if i < n - 1 {
      TextAt(n - 1, base, i);
    }
  }

  /** Decoded tokens continue one by one in all three coordinates. */
  lemma {:induction false} NextPositionsAt(delta: int, context: int, length: int, i: nat)
    requires i < length - context
    ensures |NextPositions(delta, context, length)| == length - context
    ensures var x := context + delta + i; NextPositions(delta, context, length)[i] == Col(x, x, x)
  {
    TextAt(length - context, context + delta, i);
  }

  /** The item of a grid: its block counted from zero, spanning as many positions as its largest side. */
  function ItemOf(text: seq<int>, kind: Kind, g: Grid, m: Merge): Item {
    Item(text, kind, Block(g, m), Largest(Merged(g, m)))
  }

  /** Every nonempty merged grid makes a good item with one placeholder per merged cell. */
  lemma {:induction false} GridItemIsGood(p: Prompt, text: seq<int>, kind: Kind, g: Grid, m: Merge)
    requires Plain(p, text) && EndsInStart(text, p.startId) && 0 < g.t && m <= g.h && m <= g.w
    ensures GoodItem(p, ItemOf(text, kind, g, m))
    ensures |Pads(p, ItemOf(text, kind, g, m))| == g.t * (g.h / m * (g.w / m))
  {
    AtLeastOne(g.h, m);
    AtLeastOne(g.w, m);
    VisionEndsAtTop(Merged(g, m));
  }

  lemma {:induction false} AtLeastOne(n: nat, m: Merge)
    requires m <= n
    ensures n / m >= 1
  {
    assert n == (n / m) * m + n % m;
  }

  // ---------------------------------------------------------------------------
  // Prompts with grids
  // ---------------------------------------------------------------------------

  /** Text up to a start token, then one image or video of the given grid. */
  datatype Shown = Shown(text: seq<int>, kind: Kind, grid: Grid)

  function SizeOf(m: Merge): Grid -> nat {
    (g: Grid) => Largest(Merged(g, m))
  }

  function ItemsWith(shown: seq<Shown>, block: Grid -> seq<Col>, size: Grid -> nat): seq<Item> {
    if shown == [] then []
    else [ItemWith(shown[0], block, size)] + ItemsWith(shown[1..], block, size)
  }

  function ItemsOf(shown: seq<Shown>, m: Merge): seq<Item> {
    ItemsWith(shown, Expander(m), SizeOf(m))
  }

  function GridsOfKind(shown: seq<Shown>, kind: Kind): seq<Grid> {
    if shown == [] then [] else (if shown[0].kind == kind then [shown[0].grid] else []) + GridsOfKind(shown[1..], kind)
  }

  /** Each text holds no placeholder and ends in the start token, and each merged grid is nonempty. */
  ghost predicate GoodShown(q: Request, shown: seq<Shown>) {
    forall s <- shown ::
      && Plain(PromptOf(q), s.text) && EndsInStart(s.text, q.startId)
      && 0 < s.grid.t && q.merge <= s.grid.h && q.merge <= s.grid.w
  }

  lemma {:induction false} BlocksOfShown(shown: seq<Shown>, block: Grid -> seq<Col>, size: Grid -> nat, kind: Kind)
    ensures BlocksOfKind(ItemsWith(shown, block, size), kind) == Each(GridsOfKind(shown, kind), block)
  {
    if shown != [] {
      BlocksOfShown(shown[1..], block, size, kind);
      var items := ItemsWith(shown, block, size);
      assert items[1..] == ItemsWith(shown[1..], block, size);
      if shown[0].kind == kind {
        assert GridsOfKind(shown, kind)[1..] == GridsOfKind(shown[1..], kind);
        assert BlocksOfKind(items, kind) == [block(shown[0].grid)] + BlocksOfKind(items[1..], kind);
      } else {
        assert GridsOfKind(shown, kind) == GridsOfKind(shown[1..], kind);
        assert BlocksOfKind(items, kind) == BlocksOfKind(items[1..], kind);
      }
    }
  }

  function ItemWith(s: Shown, block: Grid -> seq<Col>, size: Grid -> nat): Item {
    Item(s.text, s.kind, block(s.grid), size(s.grid))
  }

  lemma {:induction false} ShownIsGood(q: Request, s: Shown)
    requires Plain(PromptOf(q), s.text) && EndsInStart(s.text, q.startId)
    requires 0 < s.grid.t && q.merge <= s.grid.h && q.merge <= s.grid.w
    ensures GoodItem(PromptOf(q), ItemWith(s, Expander(q.merge), SizeOf(q.merge)))
  {
    GridItemIsGood(PromptOf(q), s.text, s.kind, s.grid, q.merge);
  }

  lemma {:induction false} ItemsWithAreGood(p: Prompt, shown: seq<Shown>, block: Grid -> seq<Col>, size: Grid -> nat)
    requires forall s <- shown :: GoodItem(p, ItemWith(s, block, size))
    ensures GoodItems(p, ItemsWith(shown, block, size))
  {
    if shown != [] {
      assert shown[0] in shown;
      ItemsWithAreGood(p, shown[1..], block, size);
    }
  }

  lemma {:induction false} ItemsAreGood(q: Request, shown: seq<Shown>)
    requires GoodShown(q, shown)
    ensures GoodItems(PromptOf(q), ItemsOf(shown, q.merge))
  {
    var p, block, size := PromptOf(q), Expander(q.merge), SizeOf(q.merge);
    forall s | s in shown
      ensures GoodItem(p, ItemWith(s, block, size))
    {
      ShownIsGood(q, s);
    }
    ItemsWithAreGood(p, shown, block, size);
  }

  lemma {:induction false} PrefixOfBlocks(front: seq<Grid>, grids: seq<Grid>, f: Grid -> seq<Col>)
    requires front <= grids
    ensures Each(front, f) <= Each(grids, f)
  {
    EachOfBoth(front, grids[|front|..], f);
    assert front + grids[|front|..] == grids;
  }

  /** Texts with start tokens, each followed by one placeholder for every cell of its merged grid, and closing
      text make a well-formed prompt when at least its grids are given, in order. */
  lemma {:induction false} GridPromptIsWellFormed(q: Request, shown: seq<Shown>, tail: seq<int>)
    requires GoodIds(PromptOf(q)) && GoodShown(q, shown) && Plain(PromptOf(q), tail) && !EndsInStart(tail, q.startId)
    requires q.tokens == Assemble(PromptOf(q), ItemsOf(shown, q.merge), tail)
    requires GridsOfKind(shown, Image) <= q.images && GridsOfKind(shown, Video) <= q.videos
    ensures WellFormed(PromptOf(q), ItemsOf(shown, q.merge), tail)
  {
    var block := Expander(q.merge);
    ItemsAreGood(q, shown);
    BlocksOfShown(shown, block, SizeOf(q.merge), Image);
    BlocksOfShown(shown, block, SizeOf(q.merge), Video);
    PrefixOfBlocks(GridsOfKind(shown, Image), q.images, block);
    PrefixOfBlocks(GridsOfKind(shown, Video), q.videos, block);
  }

  // ---------------------------------------------------------------------------
  // Too few grids
  // ---------------------------------------------------------------------------

  /** The loop stands before these items, with or without enough blocks for them. */
  ghost predicate Stands(p: Prompt, ni: nat, nv: nat, items: seq<Item>, tail: seq<int>, before: seq<int>, s: State) {
    && p.tokens == before + Assemble(p, items, tail) && s.st == |before|
    && forall kind :: Total(ni, nv, kind) - Index(s, kind) == |BlocksOfKind(items, kind)|
  }

  /** The blocks that are left are those of the items in order, as far as there are any. */
  ghost predicate Supplied(p: Prompt, items: seq<Item>, s: State, kind: Kind) {
    && Index(s, kind) <= |Blocks(p, kind)|
    && var left, need := Blocks(p, kind)[Index(s, kind)..], BlocksOfKind(items, kind);
       left <= need || need <= left
  }

  ghost predicate Lacks(p: Prompt, items: seq<Item>, s: State, kind: Kind) {
    |Blocks(p, kind)| - Index(s, kind) < |BlocksOfKind(items, kind)|
  }

  lemma {:induction false} FindsItem(p: Prompt, ni: nat, nv: nat, items: seq<Item>, tail: seq<int>, before: seq<int>,
                                     s: State)
    requires GoodIds(p) && GoodItems(p, items) && items != [] && Stands(p, ni, nv, items, tail, before, s)
    ensures var kind := items[0].kind;
            Choose(p, ni, nv, s) == if Index(s, kind) < |Blocks(p, kind)| then Pick(kind, |before| + |items[0].text|)
                                    else NoPick(OutOfRange)
  {
    var kind := items[0].kind;
    var other := if kind == Image then Video else Image;
    assert Total(ni, nv, kind) - Index(s, kind) == |BlocksOfKind(items, kind)|;
    OwnSegment(p, items, tail, before, Total(ni, nv, kind) - Index(s, kind));
    OtherSegment(p, items, tail, before, other);
    assert Total(ni, nv, other) - Index(s, other) == |BlocksOfKind(items, other)|;
  }

  lemma {:induction false} TakesSupplied(p: Prompt, ni: nat, nv: nat, items: seq<Item>, tail: seq<int>,
                                         before: seq<int>, s: State)
    requires GoodIds(p) && GoodItems(p, items) && items != [] && Stands(p, ni, nv, items, tail, before, s)
    requires s.plan.Then? ==> s.plan.block != []
    requires Supplied(p, items, s, items[0].kind) && Index(s, items[0].kind) < |Blocks(p, items[0].kind)|
    ensures Step(p, ni, nv, s) == Reached(Advanced(items[0], s))
  {
    var kind := items[0].kind;
    FindsItem(p, ni, nv, items, tail, before, s);
    assert BlocksOfKind(items, kind)[0] == items[0].block;
    assert Blocks(p, kind)[Index(s, kind)..][0] == items[0].block;
  }

  lemma {:induction false} StandsNext(p: Prompt, ni: nat, nv: nat, items: seq<Item>, tail: seq<int>, before: seq<int>,
                                      s: State)
    requires items != [] && Stands(p, ni, nv, items, tail, before, s)
    ensures Stands(p, ni, nv, items[1..], tail, before + items[0].text + Pads(p, items[0]), Advanced(items[0], s))
  {
    var gone := before + items[0].text + Pads(p, items[0]);
    assert gone + Assemble(p, items[1..], tail) == before + Assemble(p, items, tail);
    forall kind
      ensures Total(ni, nv, kind) - Index(Advanced(items[0], s), kind) == |BlocksOfKind(items[1..], kind)|
    {
      assert Total(ni, nv, kind) - Index(s, kind) == |BlocksOfKind(items, kind)|;
    }
  }

  lemma {:induction false} SuppliedNext(p: Prompt, items: seq<Item>, s: State, kind: Kind)
    requires items != [] && Supplied(p, items, s, kind)
    requires Index(s, items[0].kind) < |Blocks(p, items[0].kind)|
    ensures Supplied(p, items[1..], Advanced(items[0], s), kind)
    ensures Lacks(p, items, s, kind) ==> Lacks(p, items[1..], Advanced(items[0], s), kind)
  {
    var left, need := Blocks(p, kind)[Index(s, kind)..], BlocksOfKind(items, kind);
    NeedOfRest(items, kind);
    if kind == items[0].kind {
      RestsAgree(left, need);
      assert left[1..] == Blocks(p, kind)[Index(s, kind) + 1..];
    }
  }

  lemma {:induction false} NeedOfRest(items: seq<Item>, kind: Kind)
    requires items != []
    ensures kind == items[0].kind ==>
              BlocksOfKind(items, kind) != [] && BlocksOfKind(items, kind)[1..] == BlocksOfKind(items[1..], kind)
    ensures kind != items[0].kind ==> BlocksOfKind(items, kind) == BlocksOfKind(items[1..], kind)
  {
  }

  lemma {:induction false} RestsAgree<T>(a: seq<T>, b: seq<T>)
    requires a != [] && b != [] && (a <= b || b <= a)
    ensures a[1..] <= b[1..] || b[1..] <= a[1..]
  {
  }

  lemma {:induction false} BothSuppliedNext(p: Prompt, items: seq<Item>, s: State, lacking: Kind)
    requires items != [] && Index(s, items[0].kind) < |Blocks(p, items[0].kind)|
    requires Supplied(p, items, s, Image) && Supplied(p, items, s, Video) && Lacks(p, items, s, lacking)
    ensures var next := Advanced(items[0], s);
            && Supplied(p, items[1..], next, Image) && Supplied(p, items[1..], next, Video)
            && Lacks(p, items[1..], next, lacking)
  {
    SuppliedNext(p, items, s, Image);
    SuppliedNext(p, items, s, Video);
  }

  lemma {:induction false} LastRound(p: Prompt, ni: nat, nv: nat, s: State, next: State, n: nat, error: Error)
    requires Step(p, ni, nv, s) == Reached(next) && Rounds(p, ni, nv, next, n) == Stopped(error)
    ensures Rounds(p, ni, nv, s, n + 1) == Stopped(error)
  {
  }

  /** What the loop's failure follows from: it stands before items for which some block will be missing. */
  ghost predicate WillRunOut(p: Prompt, ni: nat, nv: nat, items: seq<Item>, tail: seq<int>, before: seq<int>, s: State,
                             lacking: Kind) {
    && GoodIds(p) && GoodItems(p, items) && Stands(p, ni, nv, items, tail, before, s)
    && (s.plan.Then? ==> s.plan.block != [])
    && Supplied(p, items, s, Image) && Supplied(p, items, s, Video) && Lacks(p, items, s, lacking)
  }

  lemma {:induction false} OneRound(p: Prompt, ni: nat, nv: nat, items: seq<Item>, tail: seq<int>, before: seq<int>,
                                    s: State, lacking: Kind)
    requires items != [] && WillRunOut(p, ni, nv, items, tail, before, s, lacking)
    requires Index(s, items[0].kind) < |Blocks(p, items[0].kind)|
    ensures Step(p, ni, nv, s) == Reached(Advanced(items[0], s))
    ensures WillRunOut(p, ni, nv, items[1..], tail, before + items[0].text + Pads(p, items[0]), Advanced(items[0], s),
                       lacking)
  {
    TakesSupplied(p, ni, nv, items, tail, before, s);
    StandsNext(p, ni, nv, items, tail, before, s);
    BothSuppliedNext(p, items, s, lacking);
    GoodRest(p, items);
  }

  lemma {:induction false} LackingMeansItems(p: Prompt, ni: nat, nv: nat, items: seq<Item>, tail: seq<int>,
                                             before: seq<int>, s: State, lacking: Kind)
    requires WillRunOut(p, ni, nv, items, tail, before, s, lacking)
    ensures items != []
    ensures Index(s, items[0].kind) >= |Blocks(p, items[0].kind)| ==> Choose(p, ni, nv, s) == NoPick(OutOfRange)
  {
    FindsItem(p, ni, nv, items, tail, before, s);
  }

  lemma {:induction false} LoopRunsOut(p: Prompt, ni: nat, nv: nat, items: seq<Item>, tail: seq<int>,
                                       before: seq<int>, s: State, lacking: Kind, n: nat)
    requires WillRunOut(p, ni, nv, items, tail, before, s, lacking) && n == |items|
    ensures Rounds(p, ni, nv, s, n) == Stopped(OutOfRange)
    decreases n
  {
    LackingMeansItems(p, ni, nv, items, tail, before, s, lacking);
    if Index(s, items[0].kind) < |Blocks(p, items[0].kind)| {
      var next := Advanced(items[0], s);
      OneRound(p, ni, nv, items, tail, before, s, lacking);
      LoopRunsOut(p, ni, nv, items[1..], tail, before + items[0].text + Pads(p, items[0]), next, lacking, n - 1);
      LastRound(p, ni, nv, s, next, n - 1, OutOfRange);
    } else {
      StopsHere(p, ni, nv, s, n);
    }
  }

  lemma {:induction false} GoodRest(p: Prompt, items: seq<Item>)
    requires GoodItems(p, items) && items != []
    ensures GoodItems(p, items[1..]) && items[0].block != []
  {
    assert GoodItem(p, items[0]);
  }

  lemma {:induction false} StopsHere(p: Prompt, ni: nat, nv: nat, s: State, n: nat)
    requires Choose(p, ni, nv, s) == NoPick(OutOfRange) && 0 < n
    ensures Rounds(p, ni, nv, s, n) == Stopped(OutOfRange)
  {
  }

  lemma {:induction false} BothKinds(items: seq<Item>)
    ensures |BlocksOfKind(items, Image)| + |BlocksOfKind(items, Video)| == |items|
  {
    if items != [] {
      BothKinds(items[1..]);
    }
  }

  /** The loop at its start. */
  function Begin(): State {
    State(0, 0, 0, Nothing)
  }

  lemma {:induction false} StartStands(p: Prompt, ni: nat, nv: nat, items: seq<Item>, tail: seq<int>, s: State)
    requires p.tokens == Assemble(p, items, tail) && s == Begin()
    requires ni == |BlocksOfKind(items, Image)| && nv == |BlocksOfKind(items, Video)|
    ensures Stands(p, ni, nv, items, tail, [], s) && !s.plan.Then?
  {
    assert [] + p.tokens == p.tokens;
  }

  lemma {:induction false} StartSupplied(p: Prompt, items: seq<Item>, kind: Kind, s: State)
    requires Blocks(p, kind) <= BlocksOfKind(items, kind) || BlocksOfKind(items, kind) <= Blocks(p, kind)
    requires s == Begin()
    ensures Supplied(p, items, s, kind)
    ensures |Blocks(p, kind)| < |BlocksOfKind(items, kind)| ==> Lacks(p, items, s, kind)
  {
    assert Blocks(p, kind)[0..] == Blocks(p, kind);
  }

  lemma {:induction false} CountsItems(p: Prompt, items: seq<Item>, tail: seq<int>)
    requires GoodIds(p) && GoodItems(p, items) && Plain(p, tail) && p.tokens == Assemble(p, items, tail)
    ensures Count(p, p.imageId) == |BlocksOfKind(items, Image)| && Count(p, p.videoId) == |BlocksOfKind(items, Video)|
    ensures Count(p, p.imageId) + Count(p, p.videoId) == |items|
  {
    PairsCountItems(p, items, tail, Image);
    PairsCountItems(p, items, tail, Video);
    BothKinds(items);
  }

  lemma {:induction false} StoppedFails(p: Prompt, ni: nat, nv: nat, n: nat, s: State, context: int)
    requires ni == Count(p, p.imageId) && nv == Count(p, p.videoId) && n == ni + nv && s == Begin()
    requires Rounds(p, ni, nv, s, n) == Stopped(OutOfRange)
    ensures Positions(p, context) == Failed(OutOfRange)
  {
  }

  lemma {:induction false} StartRunsOut(p: Prompt, ni: nat, nv: nat, items: seq<Item>, tail: seq<int>, kind: Kind,
                                        s: State)
    requires GoodIds(p) && GoodItems(p, items) && Stands(p, ni, nv, items, tail, [], s) && !s.plan.Then?
    requires Supplied(p, items, s, Image) && Supplied(p, items, s, Video) && Lacks(p, items, s, kind)
    ensures Rounds(p, ni, nv, s, |items|) == Stopped(OutOfRange)
  {
    LoopRunsOut(p, ni, nv, items, tail, [], s, kind, |items|);
  }

  /** A prompt with fewer image grids than images, or fewer video grids than videos, fails. */
  lemma {:induction false} TooFewGridsFail(p: Prompt, items: seq<Item>, tail: seq<int>, context: int, kind: Kind)
    requires GoodIds(p) && GoodItems(p, items) && Plain(p, tail) && p.tokens == Assemble(p, items, tail)
    requires p.images <= BlocksOfKind(items, Image) || BlocksOfKind(items, Image) <= p.images
    requires p.videos <= BlocksOfKind(items, Video) || BlocksOfKind(items, Video) <= p.videos
    requires if kind == Image then |p.images| < |BlocksOfKind(items, Image)|
             else |p.videos| < |BlocksOfKind(items, Video)|
    ensures Positions(p, context) == Failed(OutOfRange)
  {
    var ni, nv, s := Count(p, p.imageId), Count(p, p.videoId), Begin();
    CountsItems(p, items, tail);
    StartStands(p, ni, nv, items, tail, s);
    StartSupplied(p, items, Image, s);
    StartSupplied(p, items, Video, s);
    StartRunsOut(p, ni, nv, items, tail, kind, s);
    StoppedFails(p, ni, nv, |items|, s, context);
  }

  // ---------------------------------------------------------------------------
  // The column of every token
  // ---------------------------------------------------------------------------

  /** The rest of the columns from item i on, and where they start. */
  lemma {:induction false} ColumnsFromItem(p: Prompt, items: seq<Item>, tail: seq<int>, i: nat)
    returns (front: seq<Col>, x: int)
    requires WellFormed(p, items, tail) && i <= |items|
    ensures Columns(items, tail, 0) == front + Columns(items[i..], tail, x)
    ensures |front| == |Assemble(p, items[..i], [])| && EndsAtTop(front, x - 1)
    ensures x == if front == [] then 0 else MaxOf(front) + 1
  {
    front := Columns(items[..i], [], 0);
    ColumnsPerToken(p, items[..i], [], 0);
    ColumnsEndAtTop(p, items[..i], [], 0);
    x := After(items[..i], 0);
    SplitColumns(items, tail, 0, i);
    if i > 0 {
      SomethingAssembled(p, items[..i], []);
      MaxOfEnd(front, x - 1);
    } else {
      assert items[..i] == [];
    }
  }

  lemma {:induction false} InTheMiddle(cols: seq<Col>, before: seq<Col>, part: seq<Col>, rest: seq<Col>, j: nat)
    requires cols == before + (part + rest) && j < |part|
    ensures |before| + j < |cols| && cols[..|before|] == before && cols[|before| + j] == part[j]
  {
  }

  lemma {:induction false} TextReachesTop(front: seq<Col>, x: int, text: nat)
    requires EndsAtTop(front, x - 1) && 0 < text
    ensures MaxOf(front + Text(text, x)) == x + text - 1
  {
    TextEndsAtTop(text, x);
    JoinedEndsAtTop(front, x - 1, Text(text, x), x + text - 1);
    MaxOfEnd(front + Text(text, x), x + text - 1);
  }

  lemma {:induction false} ShiftedCell(block: seq<Col>, base: int, j: nat)
    requires j < |block|
    ensures ShiftAll(block, base)[j] == Col(base + block[j].t, base + block[j].h, base + block[j].w)
  {
    ShiftAllAt(block, base, j);
  }

  /** A column of an item's block, counted from the largest position before the block. */
  lemma {:induction false} BlockColumn(cols: seq<Col>, front: seq<Col>, x: int, text: nat, block: seq<Col>,
                                       rest: seq<Col>, j: nat, k: nat, cell: Col)
    requires cols == front + (Text(text, x) + ShiftAll(block, x + text) + rest) && 0 < text
    requires j < |block| && block[j] == cell && k == |front| + text && EndsAtTop(front, x - 1)
    ensures k + j < |cols|
    ensures var s := MaxOf(cols[..k]) + 1; cols[k + j] == Col(s + cell.t, s + cell.h, s + cell.w)
  {
    var before, part := front + Text(text, x), ShiftAll(block, x + text);
    assert cols == before + (part + rest);
    InTheMiddle(cols, before, part, rest, j);
    TextReachesTop(front, x, text);
    ShiftedCell(block, x + text, j);
  }

  lemma {:induction false} ColumnsAtItem(items: seq<Item>, tail: seq<int>, base: int) returns (rest: seq<Col>)
    requires items != []
    ensures Columns(items, tail, base)
         == Text(|items[0].text|, base) + ShiftAll(items[0].block, base + |items[0].text|) + rest
  {
    rest := Columns(items[1..], tail, AfterItem(items[0], base));
  }

  lemma {:induction false} ItemColumn(p: Prompt, items: seq<Item>, tail: seq<int>, cols: seq<Col>, i: nat, j: nat,
                                      k: nat, cell: Col)
    requires WellFormed(p, items, tail) && cols == Columns(items, tail, 0)
    requires i < |items| && j < |items[i].block| && items[i].block[j] == cell
    requires k == |Assemble(p, items[..i], [])| + |items[i].text|
    ensures 0 < k && k + j < |cols|
    ensures var s := MaxOf(cols[..k]) + 1; cols[k + j] == Col(s + cell.t, s + cell.h, s + cell.w)
  {
    assert GoodItem(p, items[i]);
    var front, x := ColumnsFromItem(p, items, tail, i);
    var rest := ColumnsAtItem(items[i..], tail, x);
    BlockColumn(cols, front, x, |items[i].text|, items[i].block, rest, j, k, cell);
  }

  lemma {:induction false} FirstTextColumn(cols: seq<Col>, front: seq<Col>, x: int, text: nat, rest: seq<Col>, j: nat)
    requires cols == front + (Text(text, x) + rest) && j < text
    requires x == if front == [] then 0 else MaxOf(front) + 1
    ensures |front| + j < |cols|
    ensures var at := j + if |front| == 0 then 0 else MaxOf(cols[..|front|]) + 1;
            cols[|front| + j] == Col(at, at, at)
  {
    InTheMiddle(cols, front, Text(text, x), rest, j);
    TextAt(text, x, j);
  }

  lemma {:induction false} ColumnsBeginWithText(items: seq<Item>, i: nat, tail: seq<int>, base: int)
    returns (text: nat, rest: seq<Col>)
    requires i <= |items|
    ensures text == if i < |items| then |items[i].text| else |tail|
    ensures Columns(items[i..], tail, base) == Text(text, base) + rest
  {
    if i < |items| {
      var more := ColumnsAtItem(items[i..], tail, base);
      text, rest := |items[i].text|, ShiftAll(items[i].block, base + |items[i].text|) + more;
    } else {
      text, rest := |tail|, [];
    }
  }

  lemma {:induction false} ItemTextColumn(p: Prompt, items: seq<Item>, tail: seq<int>, cols: seq<Col>, i: nat, j: nat,
                                          k: nat)
    requires WellFormed(p, items, tail) && cols == Columns(items, tail, 0)
    requires i <= |items| && k == |Assemble(p, items[..i], [])|
    requires j < if i < |items| then |items[i].text| else |tail|
    ensures k + j < |cols|
    ensures var x := j + if k == 0 then 0 else MaxOf(cols[..k]) + 1; cols[k + j] == Col(x, x, x)
  {
    var front, x := ColumnsFromItem(p, items, tail, i);
    var text, rest := ColumnsBeginWithText(items, i, tail, x);
    FirstTextColumn(cols, front, x, text, rest, j);
  }

  /** The cells of a merged grid: one placeholder for each. */
  function CellsOf(g: Grid, m: Merge): nat {
    g.t * (g.h / m * (g.w / m))
  }

  /** The tokens: text, then the placeholders of the image or video, again and again, and the closing text. */
  function Tokens(q: Request, shown: seq<Shown>, tail: seq<int>): seq<int> {
    if shown == [] then tail
    else
      var id := if shown[0].kind == Image then q.imageId else q.videoId;
      shown[0].text + (seq(CellsOf(shown[0].grid, q.merge), _ => id) + Tokens(q, shown[1..], tail))
  }

  /** How many tokens the first i images and videos and their texts take. */
  function TokensBefore(shown: seq<Shown>, m: Merge, i: nat): nat
    requires i <= |shown|
  {
    if i == 0 then 0 else TokensBefore(shown, m, i - 1) + |shown[i - 1].text| + CellsOf(shown[i - 1].grid, m)
  }

  /** A prompt made of these texts and grids, which the request lists in order. */
  ghost predicate ShownPrompt(q: Request, shown: seq<Shown>, tail: seq<int>) {
    && GoodIds(PromptOf(q)) && GoodShown(q, shown) && Plain(PromptOf(q), tail) && !EndsInStart(tail, q.startId)
    && q.tokens == Tokens(q, shown, tail)
    && GridsOfKind(shown, Image) <= q.images && GridsOfKind(shown, Video) <= q.videos
  }

  lemma {:induction false} BlockSize(g: Grid, m: Merge)
    ensures |Block(g, m)| == CellsOf(g, m)
  {
  }

  lemma {:induction false} TokensAreAssembled(q: Request, shown: seq<Shown>, tail: seq<int>)
    ensures Tokens(q, shown, tail) == Assemble(PromptOf(q), ItemsOf(shown, q.merge), tail)
  {
    if shown != [] {
      TokensAreAssembled(q, shown[1..], tail);
      var items := ItemsOf(shown, q.merge);
      assert items[1..] == ItemsOf(shown[1..], q.merge);
      BlockSize(shown[0].grid, q.merge);
      assert items[0] == ItemWith(shown[0], Expander(q.merge), SizeOf(q.merge));
      var id := if shown[0].kind == Image then q.imageId else q.videoId;
      assert Pads(PromptOf(q), items[0]) == seq(CellsOf(shown[0].grid, q.merge), _ => id);
    }
  }

  lemma {:induction false} ItemsWithAt(shown: seq<Shown>, block: Grid -> seq<Col>, size: Grid -> nat, i: nat)
    requires i < |shown|
    ensures |ItemsWith(shown, block, size)| == |shown|
    ensures ItemsWith(shown, block, size)[i] == ItemWith(shown[i], block, size)
  {
    ItemsWithLength(shown, block, size);
    if i > 0 {
      ItemsWithAt(shown[1..], block, size, i - 1);
    }
  }

  lemma {:induction false} ItemsWithLength(shown: seq<Shown>, block: Grid -> seq<Col>, size: Grid -> nat)
    ensures |ItemsWith(shown, block, size)| == |shown|
  {
    if shown != [] {
      ItemsWithLength(shown[1..], block, size);
    }
  }

  lemma {:induction false} AssembleSnoc(p: Prompt, items: seq<Item>, item: Item)
    ensures |Assemble(p, items + [item], [])| == |Assemble(p, items, [])| + |item.text| + |item.block|
  {
    if items == [] {
      assert items + [item] == [item];
      assert [item][1..] == [];
    } else {
      AssembleSnoc(p, items[1..], item);
      assert (items + [item])[1..] == items[1..] + [item];
    }
  }

  lemma {:induction false} ShownItem(shown: seq<Shown>, m: Merge, i: nat)
    requires i < |shown|
    ensures |ItemsOf(shown, m)| == |shown|
    ensures var item := ItemsOf(shown, m)[i];
            item.text == shown[i].text && item.block == Block(shown[i].grid, m)
  {
    ItemsWithAt(shown, Expander(m), SizeOf(m), i);
  }

  lemma {:induction false} ShownTokens(shown: seq<Shown>, m: Merge, i: nat)
    requires i < |shown|
    ensures |ItemsOf(shown, m)| == |shown|
    ensures var item := ItemsOf(shown, m)[i];
            TokensBefore(shown, m, i + 1) == TokensBefore(shown, m, i) + |item.text| + |item.block|
  {
    ShownItem(shown, m, i);
    BlockSize(shown[i].grid, m);
  }

  lemma {:induction false} FrontSnoc(items: seq<Item>, i: nat)
    requires i < |items|
    ensures items[..i + 1] == items[..i] + [items[i]]
  {
  }

  lemma {:induction false} TokensOfFront(p: Prompt, shown: seq<Shown>, m: Merge, items: seq<Item>, i: nat)
    requires i <= |shown| && items == ItemsOf(shown, m)
    ensures |items| == |shown|
    ensures |Assemble(p, items[..i], [])| == TokensBefore(shown, m, i)
  {
    ItemsWithLength(shown, Expander(m), SizeOf(m));
    if i > 0 {
      TokensOfFront(p, shown, m, items, i - 1);
      ShownTokens(shown, m, i - 1);
      FrontSnoc(items, i - 1);
      AssembleSnoc(p, items[..i - 1], items[i - 1]);
    } else {
      assert items[..0] == [];
    }
  }

  /** A prompt with an image or video has a column per token. */
  lemma {:induction false} ShownColumns(q: Request, shown: seq<Shown>, tail: seq<int>)
    requires ShownPrompt(q, shown, tail)
    ensures WellFormed(PromptOf(q), ItemsOf(shown, q.merge), tail)
    ensures var cols := Columns(ItemsOf(shown, q.merge), tail, 0);
            |cols| == |q.tokens| && (q.tokens != [] ==> Positions(PromptOf(q), 0).Output?
                                                        && Positions(PromptOf(q), 0).columns == cols)
  {
    var p, items := PromptOf(q), ItemsOf(shown, q.merge);
    TokensAreAssembled(q, shown, tail);
    GridPromptIsWellFormed(q, shown, tail);
    ColumnsPerToken(p, items, tail, 0);
    PositionsAreTheColumns(p, items, tail, 0);
    assert From(Columns(items, tail, 0), 0) == Columns(items, tail, 0);
  }

  lemma {:induction false} CellOfBlock(g: Grid, m: Merge, a: nat, b: nat, c: nat, h: nat, w: nat, j: nat)
    requires h == g.h / m && w == g.w / m && a < g.t && b < h && c < w && j == a * (h * w) + (b * w + c)
    ensures j < |Block(g, m)| && Block(g, m)[j] == Col(a, b, c)
  {
    VisionAt(Merged(g, m), a, b, c);
  }

  lemma {:induction false} ShownFront(p: Prompt, shown: seq<Shown>, m: Merge, items: seq<Item>, i: nat)
    requires i < |shown| && items == ItemsOf(shown, m)
    ensures |items| == |shown| && items[i].text == shown[i].text && items[i].block == Block(shown[i].grid, m)
    ensures |Assemble(p, items[..i], [])| == TokensBefore(shown, m, i)
  {
    TokensOfFront(p, shown, m, items, i);
    ShownItem(shown, m, i);
  }

  /** The columns of the whole prompt, one per token. */
  ghost predicate Answer(q: Request, cols: seq<Col>) {
    var output := Positions(PromptOf(q), 0);
    output.Output? && output.columns == cols && |cols| == |q.tokens|
  }

  lemma {:induction false} ShownAnswer(q: Request, shown: seq<Shown>, tail: seq<int>)
    returns (p: Prompt, items: seq<Item>, cols: seq<Col>)
    requires ShownPrompt(q, shown, tail) && (shown != [] || tail != [])
    ensures items == ItemsOf(shown, q.merge) && WellFormed(p, items, tail)
    ensures cols == Columns(items, tail, 0) && Answer(q, cols)
  {
    p, items := PromptOf(q), ItemsOf(shown, q.merge);
    cols := Columns(items, tail, 0);
    ShownColumns(q, shown, tail);
    if shown != [] {
      SomethingAssembled(p, items, tail);
    }
  }

  lemma {:induction false} ShownBlockColumn(p: Prompt, shown: seq<Shown>, m: Merge, items: seq<Item>, tail: seq<int>,
                                            cols: seq<Col>, i: nat, j: nat, k: nat, cell: Col)
    requires items == ItemsOf(shown, m) && WellFormed(p, items, tail) && cols == Columns(items, tail, 0)
    requires i < |shown| && j < |Block(shown[i].grid, m)| && Block(shown[i].grid, m)[j] == cell
    requires k == TokensBefore(shown, m, i) + |shown[i].text|
    ensures 0 < k && k + j < |cols|
    ensures var s := MaxOf(cols[..k]) + 1; cols[k + j] == Col(s + cell.t, s + cell.h, s + cell.w)
  {
    ShownFront(p, shown, m, items, i);
    ItemColumn(p, items, tail, cols, i, j, k, cell);
  }

  lemma {:induction false} ShownTextColumn(p: Prompt, shown: seq<Shown>, m: Merge, items: seq<Item>, tail: seq<int>,
                                           cols: seq<Col>, i: nat, j: nat, k: nat)
    requires items == ItemsOf(shown, m) && WellFormed(p, items, tail) && cols == Columns(items, tail, 0)
    requires i <= |shown| && k == TokensBefore(shown, m, i) && j < if i < |shown| then |shown[i].text| else |tail|
    ensures k + j < |cols|
    ensures var x := j + if k == 0 then 0 else MaxOf(cols[..k]) + 1; cols[k + j] == Col(x, x, x)
  {
    TokensOfFront(p, shown, m, items, i);
    if i < |shown| {
      ShownFront(p, shown, m, items, i);
    }
    ItemTextColumn(p, items, tail, cols, i, j, k);
  }

  lemma {:induction false} BlockTokenColumn(q: Request, shown: seq<Shown>, tail: seq<int>, i: nat, j: nat, k: nat,
                                            cell: Col)
    returns (cols: seq<Col>)
    requires ShownPrompt(q, shown, tail) && i < |shown| && k == TokensBefore(shown, q.merge, i) + |shown[i].text|
    requires j < |Block(shown[i].grid, q.merge)| && Block(shown[i].grid, q.merge)[j] == cell
    ensures Answer(q, cols) && 0 < k && k + j < |cols|
    ensures var s := MaxOf(cols[..k]) + 1; cols[k + j] == Col(s + cell.t, s + cell.h, s + cell.w)
  {
    var p, items;
    p, items, cols := ShownAnswer(q, shown, tail);
    ShownBlockColumn(p, shown, q.merge, items, tail, cols, i, j, k, cell);
  }

  /** The column of cell (a, b, c) of the i-th image or video: its three indices, each counted from one past the
      largest position of all tokens before the placeholders. */
  lemma {:induction false} CellColumn(q: Request, shown: seq<Shown>, tail: seq<int>, i: nat, a: nat, b: nat, c: nat,
                                      h: nat, w: nat, j: nat, k: nat)
    returns (cols: seq<Col>)
    requires ShownPrompt(q, shown, tail) && i < |shown|
    requires h == shown[i].grid.h / q.merge && w == shown[i].grid.w / q.merge
    requires a < shown[i].grid.t && b < h && c < w && j == a * (h * w) + (b * w + c)
    requires k == TokensBefore(shown, q.merge, i) + |shown[i].text|
    ensures Answer(q, cols) && 0 < k && k + j < |cols|
    ensures var s := MaxOf(cols[..k]) + 1; cols[k + j] == Col(s + a, s + b, s + c)
  {
    CellOfBlock(shown[i].grid, q.merge, a, b, c, h, w, j);
    cols := BlockTokenColumn(q, shown, tail, i, j, k, Col(a, b, c));
  }

  /** The columns of the texts, closing text included: all three coordinates count up from one past the largest
      position before the text. */
  lemma {:induction false} TextTokenColumn(q: Request, shown: seq<Shown>, tail: seq<int>, i: nat, j: nat, k: nat)
    returns (cols: seq<Col>)
    requires ShownPrompt(q, shown, tail) && i <= |shown| && k == TokensBefore(shown, q.merge, i)
    requires j < if i < |shown| then |shown[i].text| else |tail|
    ensures Answer(q, cols) && k + j < |cols|
    ensures var x := j + if k == 0 then 0 else MaxOf(cols[..k]) + 1; cols[k + j] == Col(x, x, x)
  {
    var p, items;
    p, items, cols := ShownAnswer(q, shown, tail);
    ShownTextColumn(p, shown, q.merge, items, tail, cols, i, j, k);
  }
}
