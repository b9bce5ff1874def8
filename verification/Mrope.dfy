/** The multimodal position loop (aiter/rotary_embedding.py): it walks the vision segments of a prompt, gives
    every token a (temporal, height, width) position, and returns the delta that decoding continues from.
    The loop works on a prompt that carries, for every image and video, the columns of its grid. */
module Mrope {
  import opened MropeGrids
  import opened Numbers
  import opened Results

  datatype Kind = Image | Video

  datatype Prompt = Prompt(tokens: seq<int>, images: seq<seq<Col>>, videos: seq<seq<Col>>,
                           imageId: int, videoId: int, startId: int)

  /** A call: the tokens, the (t, h, w) grids of images and videos, the three ids and the spatial merge size. */
  datatype Request = Request(tokens: seq<int>, images: seq<Grid>, videos: seq<Grid>,
                             imageId: int, videoId: int, startId: int, merge: Merge)

  function PromptOf(r: Request): Prompt {
    Prompt(r.tokens, BlocksOf(r.images, r.merge), BlocksOf(r.videos, r.merge), r.imageId, r.videoId, r.startId)
  }

  /** The list of position pieces, growing at its end. */
  datatype Pieces = Empty | Append(front: Pieces, last: seq<Col>)

  /** The segments taken so far: the length of the text before each, and its block. */
  datatype Plan = Nothing | Then(front: Plan, len: nat, block: seq<Col>)

  /** The next token, the images and videos taken, and the segments. */
  datatype State = State(st: nat, images: nat, videos: nat, plan: Plan)

  /** list.index without a hit, a list index past the end, the maximum of an empty tensor, a negative
      length, and a concatenation of nothing. */
  datatype Error = NotInList | OutOfRange | EmptyMax | NegativeLength | NothingToJoin

  datatype Start = Start(at: int) | NoStart(error: Error)
  datatype Pick = Pick(kind: Kind, ed: nat) | NoPick(error: Error)
  datatype Outcome = Reached(state: State) | Stopped(error: Error)
  datatype Loop = Ended(st: nat, pieces: Pieces) | Broken(error: Error)
  datatype Joined = Joined(columns: seq<Col>) | NotJoined(error: Error)
  datatype Result = Output(columns: seq<Col>, delta: int) | Failed(error: Error)

  /** Text: all three coordinates count up together. */
  function Text(n: nat, base: int): (r: seq<Col>)
    ensures |r| == n
  {
    if n == 0 then [] else Text(n - 1, base) + [Col(base + n - 1, base + n - 1, base + n - 1)]
  }

  // ---------------------------------------------------------------------------
  // The loop
  // ---------------------------------------------------------------------------

  lemma {:induction false} TextEndsAtTop(n: nat, base: int)
    ensures EndsAtTop(Text(n, base), base + n - 1)
  {
    if n > 0 {
      TextEndsAtTop(n - 1, base);
    }
  }

  /** list.index(id, from), -1 where it raises. */
  function IndexFrom(tokens: seq<int>, id: int, from: nat): (r: int)
    ensures r == -1 || (from <= r < |tokens| && tokens[r] == id)
    ensures forall i :: from <= i < (if r == -1 then |tokens| else r) ==> tokens[i] != id
    decreases |tokens| - from
  {
    if from >= |tokens| then -1 else if tokens[from] == id then from else IndexFrom(tokens, id, from + 1)
  }

  /** How often b directly follows a, from position i on. */
  function Pairs(tokens: seq<int>, a: int, b: int, i: nat): nat
    decreases |tokens| - i
  {
    if i + 1 >= |tokens| then 0
    else (if tokens[i] == a && tokens[i + 1] == b then 1 else 0) + Pairs(tokens, a, b, i + 1)
  }

  /** One past the largest position so far. */
  function NextStart(pieces: Pieces): Start {
    match pieces
    case Empty => Start(0)
    case Append(_, last) => if last == [] then NoStart(EmptyMax) else Start(MaxOf(last) + 1)
  }

  /** Where the next segment of a kind begins: past the end when none is left, -1 when the search raises. */
  function NextOf(tokens: seq<int>, id: int, remain: int, st: nat): int {
    if id in tokens && remain > 0 then IndexFrom(tokens, id, st) else |tokens| + 1
  }

  /** The segment that comes first, image or video, of ni images and nv videos. */
  function Choose(p: Prompt, ni: nat, nv: nat, s: State): Pick {
    var image := NextOf(p.tokens, p.imageId, ni - s.images, s.st);
    var video := NextOf(p.tokens, p.videoId, nv - s.videos, s.st);
    if image < 0 || video < 0 then NoPick(NotInList)
    else if image < video then
      if s.images >= |p.images| then NoPick(OutOfRange) else Pick(Image, image)
    else
      if s.videos >= |p.videos| then NoPick(OutOfRange) else Pick(Video, video)
  }

  /** One round of the loop: the text before position ed, and the block that starts there. */
  function Step(p: Prompt, ni: nat, nv: nat, s: State): Outcome {
    var pick := Choose(p, ni, nv, s);
    if pick.NoPick? then Stopped(pick.error)
    else if s.plan.Then? && s.plan.block == [] then Stopped(EmptyMax)
    else if pick.ed < s.st then Stopped(NegativeLength)
    else if pick.kind == Image then Reached(Taken(s, pick.ed, p.images[s.images], 1, 0))
    else Reached(Taken(s, pick.ed, p.videos[s.videos], 0, 1))
  }

  function Taken(s: State, ed: nat, block: seq<Col>, image: nat, video: nat): State
    requires s.st <= ed
  {
    State(ed + |block|, s.images + image, s.videos + video, Then(s.plan, ed - s.st, block))
  }

  function Rounds(p: Prompt, ni: nat, nv: nat, s: State, n: nat): Outcome
    decreases n
  {
    if n == 0 then Reached(s) else
    var next := Step(p, ni, nv, s);
    if next.Stopped? then next else Rounds(p, ni, nv, next.state, n - 1)
  }

  /** The pieces of a plan: every segment starts one past the largest position of the piece before it. */
  function PiecesOf(plan: Plan): Pieces {
    match plan
    case Nothing => Empty
    case Then(front, len, block) =>
      var before := PiecesOf(front);
      var start := NextStart(before);
      var at := if start.Start? then start.at else 0;
      Append(Append(before, Text(len, at)), ShiftAll(block, len + at))
  }

  function Flatten(pieces: Pieces): seq<Col> {
    match pieces
    case Empty => []
    case Append(front, last) => Flatten(front) + last
  }

  function Join(pieces: Pieces): Joined {
    if pieces == Empty then NotJoined(NothingToJoin) else Joined(Flatten(pieces))
  }

  /** n more tokens of text after the last segment, and the concatenation. */
  function Closed(pieces: Pieces, n: int): Joined {
    if n <= 0 then Join(pieces) else
    var start := NextStart(pieces);
    if start.NoStart? then NotJoined(start.error) else Join(Append(pieces, Text(n, start.at)))
  }

  /** The columns from context onwards. */
  function From(cols: seq<Col>, context: int): seq<Col> {
    cols[SliceBound(context, |cols|)..]
  }

  /** The slice of the columns of a prompt of n tokens, and its delta. */
  function Slice(n: nat, cols: seq<Col>, context: int): Result {
    var rest := From(cols, context);
    if rest == [] then Failed(EmptyMax) else Output(rest, MaxOf(rest) + 1 - n)
  }

  predicate EndsInStart(tokens: seq<int>, startId: int) {
    tokens != [] && tokens[|tokens| - 1] == startId
  }

  function Count(p: Prompt, id: int): nat {
    Pairs(p.tokens, p.startId, id, 0)
  }

  /** What the loop over all segments leaves. */
  function Segments(p: Prompt, ni: nat, nv: nat): Loop {
    Left(Rounds(p, ni, nv, State(0, 0, 0, Nothing), ni + nv))
  }

  function Left(end: Outcome): Loop {
    match end
    case Reached(s) => Ended(s.st, PiecesOf(s.plan))
    case Stopped(error) => Broken(error)
  }

  /** The columns of the whole prompt. */
  function AllColumns(p: Prompt): Joined {
    if EndsInStart(p.tokens, p.startId) then NotJoined(OutOfRange) else
    var end := Segments(p, Count(p, p.imageId), Count(p, p.videoId));
    if end.Broken? then NotJoined(end.error) else Closed(end.pieces, |p.tokens| - end.st)
  }

  function Positions(p: Prompt, context: int): Result {
    var all := AllColumns(p);
    if all.NotJoined? then Failed(all.error) else Slice(|p.tokens|, all.columns, context)
  }

  /** The occurrences of id right after a start token, counted by a scan. */
  method CountPairs(tokens: seq<int>, a: int, b: int) returns (n: nat)
    ensures n == Pairs(tokens, a, b, 0)
  {
    n := 0;
    var i := 0;
    while i + 1 < |tokens|
      invariant n + Pairs(tokens, a, b, i) == Pairs(tokens, a, b, 0)
    {
      if tokens[i] == a && tokens[i + 1] == b {
        n := n + 1;
      }
      i := i + 1;
    }
  }

  /** The segment that comes first: its kind, where it starts, its block. */
  method PickSegment(p: Prompt, remainImages: int, remainVideos: int, imageIndex: nat, videoIndex: nat, st: nat)
    returns (r: Pick, block: seq<Col>)
    ensures forall ni: nat, nv: nat, plan ::
              ni - imageIndex == remainImages && nv - videoIndex == remainVideos
              ==> r == Choose(p, ni, nv, State(st, imageIndex, videoIndex, plan))
    ensures r.Pick? && r.kind == Image ==> imageIndex < |p.images| && block == p.images[imageIndex]
    ensures r.Pick? && r.kind == Video ==> videoIndex < |p.videos| && block == p.videos[videoIndex]
  {
    block := [];
    var image := NextOf(p.tokens, p.imageId, remainImages, st);
    var video := NextOf(p.tokens, p.videoId, remainVideos, st);
    if image < 0 || video < 0 {
      return NoPick(NotInList), block;
    }
    if image < video {
      if imageIndex >= |p.images| {
        return NoPick(OutOfRange), block;
      }
      return Pick(Image, image), p.images[imageIndex];
    }
    if videoIndex >= |p.videos| {
      return NoPick(OutOfRange), block;
    }
    return Pick(Video, video), p.videos[videoIndex];
  }

  /** Appends the text before the segment and the segment's own columns to the list of pieces. */
  method AppendSegment(before: Pieces, ghost plan: Plan, len: int, block: seq<Col>) returns (r: Start, pieces: Pieces)
    requires before == PiecesOf(plan)
    ensures r == if plan.Then? && plan.block == [] then NoStart(EmptyMax)
                 else if len < 0 then NoStart(NegativeLength) else NextStart(before)
    ensures r.Start? ==> len >= 0 && pieces == PiecesOf(Then(plan, len, block))
  {
    pieces := before;
    r := NextStart(before);
    if r.NoStart? {
      return;
    }
    if len < 0 {
      return NoStart(NegativeLength), pieces;
    }
    pieces := Append(pieces, Text(len, r.at));
    pieces := Append(pieces, ShiftAll(block, len + r.at));
  }

  /** The loop's counters and its list of pieces. */
  datatype Counters = Counters(st: nat, imageIndex: nat, videoIndex: nat, remainImages: int, remainVideos: int,
                               pieces: Pieces)

  ghost predicate Agree(c: Counters, ni: nat, nv: nat, s: State) {
    && s.st == c.st && s.images == c.imageIndex && s.videos == c.videoIndex
    && c.remainImages == ni - c.imageIndex && c.remainVideos == nv - c.videoIndex
    && c.pieces == PiecesOf(s.plan)
  }

  /** One round on the counters. */
  method TakeSegment(p: Prompt, c: Counters, ghost ni: nat, ghost nv: nat, ghost s: State)
    returns (error: Option<Error>, next: Counters)
    requires Agree(c, ni, nv, s)
    ensures error.Some? ==> Step(p, ni, nv, s) == Stopped(error.value)
    ensures error.None? ==> Step(p, ni, nv, s).Reached? && Agree(next, ni, nv, Step(p, ni, nv, s).state)
  {
    error, next := None, c;
    var pick, block := PickSegment(p, c.remainImages, c.remainVideos, c.imageIndex, c.videoIndex, c.st);
    assert s == State(c.st, c.imageIndex, c.videoIndex, s.plan);
    assert pick == Choose(p, ni, nv, s);
    if pick.NoPick? {
      error := Some(pick.error);
      return;
    }
    var start, pieces := AppendSegment(c.pieces, s.plan, pick.ed - c.st, block);
    if start.NoStart? {
      error := Some(start.error);
      return;
    }
    if pick.kind == Image {
      next := next.(imageIndex := c.imageIndex + 1, remainImages := c.remainImages - 1);
    } else {
      next := next.(videoIndex := c.videoIndex + 1, remainVideos := c.remainVideos - 1);
    }
    next := next.(st := pick.ed + |block|, pieces := pieces);
  }

  lemma {:induction false} RoundsOn(p: Prompt, ni: nat, nv: nat, s: State, n: nat, all: Outcome, step: Outcome)
    requires 0 < n && Rounds(p, ni, nv, s, n) == all && step == Step(p, ni, nv, s)
    ensures if step.Stopped? then all == step else Rounds(p, ni, nv, step.state, n - 1) == all
  {
  }

  /** The same round, with the rounds that remain. */
  method NextSegment(p: Prompt, c: Counters, ghost ni: nat, ghost nv: nat, ghost s: State, ghost n: nat,
                     ghost all: Outcome)
    returns (error: Option<Error>, next: Counters, ghost s': State)
    requires Agree(c, ni, nv, s) && 0 < n && Rounds(p, ni, nv, s, n) == all
    ensures error.Some? ==> all == Stopped(error.value)
    ensures error.None? ==> Agree(next, ni, nv, s') && Rounds(p, ni, nv, s', n - 1) == all
  {
    error, next := TakeSegment(p, c, ni, nv, s);
    ghost var step := Step(p, ni, nv, s);
    RoundsOn(p, ni, nv, s, n, all, step);
    s' := if step.Reached? then step.state else s;
  }

  /** The loop over the segments. */
  method RunSegments(p: Prompt, ni: nat, nv: nat) returns (r: Loop)
    ensures r == Segments(p, ni, nv)
  {
    var c := Counters(0, 0, 0, ni, nv, Empty);
    ghost var s := State(0, 0, 0, Nothing);
    ghost var all := Rounds(p, ni, nv, s, ni + nv);
    assert Segments(p, ni, nv) == Left(all);
    for k := 0 to ni + nv
      invariant Agree(c, ni, nv, s) && Rounds(p, ni, nv, s, ni + nv - k) == all
    {
      var error;
      error, c, s := NextSegment(p, c, ni, nv, s, ni + nv - k, all);
      if error.Some? {
        return Broken(error.value);
      }
    }
    r := Ended(c.st, c.pieces);
  }

  method JoinColumns(p: Prompt) returns (r: Joined)
    ensures r == AllColumns(p)
  {
    if EndsInStart(p.tokens, p.startId) {
      return NotJoined(OutOfRange);
    }
    var images := CountPairs(p.tokens, p.startId, p.imageId);
    var videos := CountPairs(p.tokens, p.startId, p.videoId);
    var end := RunSegments(p, images, videos);
    if end.Broken? {
      return NotJoined(end.error);
    }
    var pieces := end.pieces;
    var n := |p.tokens| - end.st;
    if n > 0 {
      var start := NextStart(pieces);
      if start.NoStart? {
        return NotJoined(start.error);
      }
      pieces := Append(pieces, Text(n, start.at));
    }
    r := Join(pieces);
  }

  /** The expanded index tensors of a grid: cell j of the flattened merged grid. */
  method ExpandGrid(g: Grid, m: Merge) returns (block: seq<Col>)
    ensures block == Block(g, m)
  {
    var h, w := g.h / m, g.w / m;
    block := [];
    if h == 0 || w == 0 {
      return;
    }
    ghost var all := Vision(Merged(g, m));
    for j := 0 to g.t * (h * w)
      invariant block == all[..j]
    {
      CellOfVision(Merged(g, m), j);
      block := block + [Cell(j, h, w)];
    }
  }

  method ExpandGrids(grids: seq<Grid>, m: Merge) returns (blocks: seq<seq<Col>>)
    ensures blocks == BlocksOf(grids, m)
  {
    blocks := [];
    for i := 0 to |grids|
      invariant blocks == BlocksOf(grids[..i], m)
    {
      var block := ExpandGrid(grids[i], m);
      EachOfNext(grids[..i], grids[i], Expander(m));
      assert grids[..i + 1] == grids[..i] + [grids[i]];
      blocks := blocks + [block];
    }
    assert grids[..|grids|] == grids;
  }

  /** get_input_positions, with every grid expanded before the loop. */
  method GetInputPositions(q: Request, context: int) returns (r: Result)
    ensures r == Positions(PromptOf(q), context)
  {
    var images := ExpandGrids(q.images, q.merge);
    var videos := ExpandGrids(q.videos, q.merge);
    var all := JoinColumns(Prompt(q.tokens, images, videos, q.imageId, q.videoId, q.startId));
    if all.NotJoined? {
      return Failed(all.error);
    }
    r := Slice(|q.tokens|, all.columns, context);
  }

  /** The rows decoding uses: the same range three times. */
  function NextPositions(delta: int, context: int, length: int): seq<Col> {
    if length <= context then [] else Text(length - context, context + delta)
  }
}
