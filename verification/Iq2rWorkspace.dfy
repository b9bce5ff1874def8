/** The fixed-capacity workspace and launch control of the IQ2R MoE (aiter/iq2r_glm53.py).  Python
    slices shorten silently, so every slice length below is the shortened one. */
module Iq2rWorkspace {
  import opened Results
  import opened Numbers
  import opened Sums
  import opened Buckets
  import opened RowMajor

  const EXPERTS := 257
  const TOPK := 9
  const MAX_DECODE_TOKENS := 1024
  const DEFAULT_DECODE_TOKENS := 256
  const MAX_CHUNK_TOKENS := 4096
  const GATE_KERNELS := {"decode", "nobarrier", "prefill"}
  const DOWN_KERNELS := {"packed", "ordered", "single"}

  datatype Config = Config(gateKernel: string, gateGrid: int, downKernel: string, downGrid: int, downChunks: int)

  function DefaultConfig(tokens: nat): Config {
    if tokens > DEFAULT_DECODE_TOKENS then Config("prefill", 2, "prefill", 0, if tokens <= 2560 then 1 else 2)
    else Config("decode", 2, if tokens in {1, 2, 4} then "route9" else "packed", 4, 1)
  }

  /** Why the configuration cannot run this many tokens, or nothing. */
  function ConfigProblem(c: Config, tokens: nat, intermediateSize: nat): Option<string> {
    if tokens == 1 then (if c.downKernel == "route9" then None else Some("M1 needs down route9"))
    else if c.gateKernel !in GATE_KERNELS then Some("unknown gate kernel")
    else if !(1 <= c.gateGrid <= 8) then Some("gate_grid must be 1..8")
    else if c.gateKernel == "prefill" then
      if c.downKernel != "prefill" then Some("the prefill gate runs only with down prefill")
      else if c.downChunks == 1 || c.downChunks == 2 then None else Some("down_chunks must be 1 or 2")
    else if tokens > MAX_DECODE_TOKENS then Some("decode kernels cover M2..1024")
    else if c.downKernel == "route9" then
      if tokens == 2 || tokens == 4 then None else Some("route9 covers M1, M2 and M4")
    else if c.downKernel !in DOWN_KERNELS then Some("unknown decode down kernel")
    else if c.downKernel == "ordered" && intermediateSize != 256 then Some("the ordered down kernel is TP8 only")
    else if 1 <= c.downGrid <= 16 then None else Some("down_grid must be 1..16")
  }

  /** The first tuned row at or above tokens that can run them, else the default. */
  function SelectConfig(rows: seq<(nat, Config)>, tokens: nat, intermediateSize: nat): Config {
    if rows == [] then DefaultConfig(tokens)
    else if rows[0].0 >= tokens && ConfigProblem(rows[0].1, tokens, intermediateSize).None? then rows[0].1
    else SelectConfig(rows[1..], tokens, intermediateSize)
  }

  /** Whatever the tuned table holds, the selected configuration can run the tokens it is selected for. */
  lemma {:induction false} SelectedConfigRuns(rows: seq<(nat, Config)>, tokens: nat, intermediateSize: nat)
    ensures ConfigProblem(SelectConfig(rows, tokens, intermediateSize), tokens, intermediateSize) == None
  {
    if rows != [] {
      SelectedConfigRuns(rows[1..], tokens, intermediateSize);
    }
  }

  /** A tuned row that covers the tokens and can run them. */
  predicate Usable(row: (nat, Config), tokens: nat, intermediateSize: nat) {
    tokens <= row.0 && ConfigProblem(row.1, tokens, intermediateSize).None?
  }

  /** The selected configuration is that of the first usable row, and the default when there is none. In a table
      sorted by tokens the first usable row is the least one. */
  lemma {:induction false} SelectsLeastUsableRow(rows: seq<(nat, Config)>, tokens: nat, intermediateSize: nat)
    returns (i: nat)
    ensures i <= |rows| && forall k :: 0 <= k < i ==> !Usable(rows[k], tokens, intermediateSize)
    ensures i == |rows| ==> SelectConfig(rows, tokens, intermediateSize) == DefaultConfig(tokens)
    ensures i < |rows| ==> Usable(rows[i], tokens, intermediateSize)
                           && SelectConfig(rows, tokens, intermediateSize) == rows[i].1
    ensures i < |rows| && (forall j, k :: 0 <= j < k < |rows| ==> rows[j].0 <= rows[k].0) ==>
              forall k :: 0 <= k < |rows| && Usable(rows[k], tokens, intermediateSize) ==> rows[i].0 <= rows[k].0
  {
    if rows == [] || Usable(rows[0], tokens, intermediateSize) {
      i := 0;
    } else {
      i := SelectsLeastUsableRow(rows[1..], tokens, intermediateSize);
      i := i + 1;
      assert forall k :: 1 <= k < |rows| ==> rows[k] == rows[1..][k - 1];
    }
  }

  /** The default changes kernel above 256 tokens and the number of down chunks above 2560. */
  lemma {:induction false} DefaultConfigAtItsBounds()
    ensures DefaultConfig(1) == DefaultConfig(2) == DefaultConfig(4) == Config("decode", 2, "route9", 4, 1)
    ensures DefaultConfig(3) == DefaultConfig(5) == DefaultConfig(256) == Config("decode", 2, "packed", 4, 1)
    ensures DefaultConfig(257) == DefaultConfig(2560) == Config("prefill", 2, "prefill", 0, 1)
    ensures DefaultConfig(2561) == Config("prefill", 2, "prefill", 0, 2)
  {
  }

  /** A configuration runs the tokens exactly in one of four ways. */
  lemma {:induction false} RunsExactlyWhen(c: Config, tokens: nat, intermediateSize: nat)
    ensures ConfigProblem(c, tokens, intermediateSize) == None <==>
              || (tokens == 1 && c.downKernel == "route9")
              || (tokens != 1 && 1 <= c.gateGrid <= 8
                  && (|| (c.gateKernel == "prefill" && c.downKernel == "prefill" && 1 <= c.downChunks <= 2)
                      || (tokens <= 1024 && (c.gateKernel == "decode" || c.gateKernel == "nobarrier")
                          && (|| (c.downKernel == "route9" && (tokens == 2 || tokens == 4))
                              || (1 <= c.downGrid <= 16
                                  && (c.downKernel == "packed" || c.downKernel == "single"
                                      || (c.downKernel == "ordered" && intermediateSize == 256)))))))
  {
  }

  // ---------------------------------------------------------------------------
  // Capacities
  // ---------------------------------------------------------------------------

  function TaskCapacity(routes: nat, rows: nat): nat
    requires 0 < rows
  {
    (routes + rows - 1) / rows + Min(routes, EXPERTS + 1)
  }

  /** For any split of the routes over at most 258 buckets (the experts and the invalid ids), cutting
      every bucket into tasks of the given rows stays within the capacity. */
  lemma {:induction false} TasksFit(counts: seq<nat>, routes: nat, rows: nat)
    requires 0 < rows && |counts| <= EXPERTS + 1 && Sum(counts) == routes
    ensures Sum(Blocks(counts, rows)) <= TaskCapacity(routes, rows)
  {
    PaddedItems(counts, rows);
    NonEmptyAtMostItems(counts);
    BlocksAtMost(Sum(Blocks(counts, rows)), routes, NonEmpty(counts), rows);
  }

  /** More routes never need less capacity. */
  lemma {:induction false} CapacityMonotone(routes: nat, routes': nat, rows: nat)
    requires 0 < rows && routes <= routes'
    ensures TaskCapacity(routes, rows) <= TaskCapacity(routes', rows)
  {
    CeilDivBounds(routes, rows);
    CeilDivBounds(routes', rows);
    CancelBlocks(CeilDiv(routes, rows), CeilDiv(routes', rows), rows);
  }

  /** The rows of every buffer. */
  datatype Workspace = Workspace(
    maxTokens: nat, intermediateSize: nat,
    routeInput: nat, intermediate: nat, routeOutput: nat, gather: nat, scatter: nat, tasks: nat, gateTasks: nat)

  function Allocate(maxTokens: int, intermediateSize: nat): (r: Result<Workspace>) {
    if intermediateSize !in {256, 512} then Err("GLM-5.3 IQ2R supports intermediate 256 (TP8) or 512 (TP4)")
    else
      var tokens := Min(Max(maxTokens, 1), MAX_CHUNK_TOKENS);
      var routes := tokens * TOPK;
      var decodeRoutes := Min(tokens, MAX_DECODE_TOKENS) * TOPK;
      Ok(Workspace(tokens, intermediateSize, Max(tokens, TOPK), routes, routes, routes, routes,
                   Max(TaskCapacity(routes, 64), TaskCapacity(decodeRoutes, 32)),
                   TaskCapacity(decodeRoutes, 16)))
  }

  /** The rows of the largest workspace, which any larger request also gets, and of the smallest one. */
  lemma {:induction false} AllocationAtItsBounds(maxTokens: int, intermediateSize: nat)
    requires intermediateSize == 256 || intermediateSize == 512
    ensures maxTokens >= 4096 ==>
              (Allocate(maxTokens, intermediateSize)
               == Ok(Workspace(4096, intermediateSize, 4096, 36864, 36864, 36864, 36864, 834, 834)))
    ensures maxTokens <= 1 ==>
              (Allocate(maxTokens, intermediateSize) == Ok(Workspace(1, intermediateSize, 9, 9, 9, 9, 9, 10, 10)))
  {
  }

  // ---------------------------------------------------------------------------
  // One launch
  // ---------------------------------------------------------------------------

  datatype Path = M1 | Decode(route9: bool) | Prefill

  /** Which kernels a launch of these tokens runs. */
  function PathOf(c: Config, tokens: nat): Path {
    if tokens == 1 then M1
    else if c.gateKernel != "prefill" && tokens <= MAX_DECODE_TOKENS then Decode(c.downKernel == "route9")
    else Prefill
  }

  /** The lengths of the workspace slices a launch works on. */
  datatype Slices = Slices(gather: nat, scatter: nat, intermediate: nat, quant: nat, tasks: nat, gateTasks: nat,
                           routeOutput: nat)

  /** x[:n] of a buffer of the given length. */
  function Slice(length: nat, n: nat): nat {
    if n <= length then n else length
  }

  function TaskRows(path: Path): nat {
    match path case M1 => 1 case Decode(_) => 32 case Prefill => 64
  }

  function WantedTasks(path: Path, routes: nat): nat {
    if path.M1? then routes else TaskCapacity(routes, TaskRows(path))
  }

  /** The slices as requested ... */
  function Wanted(path: Path, tokens: nat): Slices {
    var routes := tokens * TOPK;
    Slices(routes, routes, routes, if tokens == 1 then TOPK else tokens, WantedTasks(path, routes),
           if path.Decode? then TaskCapacity(routes, 16) else 0, if path.M1? then 0 else routes)
  }

  /** ... and as Python delivers them. */
  function Delivered(ws: Workspace, path: Path, tokens: nat): Slices {
    var want := Wanted(path, tokens);
    Slices(Slice(ws.gather, want.gather), Slice(ws.scatter, want.scatter), Slice(ws.intermediate, want.intermediate),
           Slice(ws.routeInput, want.quant), Slice(ws.tasks, want.tasks), Slice(ws.gateTasks, want.gateTasks),
           Slice(ws.routeOutput, want.routeOutput))
  }

  /** A workspace of any requested size never shortens a slice of a launch it accepts. */
  lemma {:induction false} NeverTruncates(maxTokens: int, intermediateSize: nat, c: Config, tokens: nat)
    requires intermediateSize in {256, 512}
    requires 1 <= tokens <= Allocate(maxTokens, intermediateSize).value.maxTokens
    ensures Delivered(Allocate(maxTokens, intermediateSize).value, PathOf(c, tokens), tokens)
            == Wanted(PathOf(c, tokens), tokens)
  {
    var ws := Allocate(maxTokens, intermediateSize).value;
    CapacityMonotone(tokens * TOPK, ws.maxTokens * TOPK, 64);
    if tokens <= MAX_DECODE_TOKENS {
      CapacityMonotone(tokens * TOPK, Min(ws.maxTokens, MAX_DECODE_TOKENS) * TOPK, 32);
      CapacityMonotone(tokens * TOPK, Min(ws.maxTokens, MAX_DECODE_TOKENS) * TOPK, 16);
    }
  }

  /** An accepted launch has room for every task of any routing, both in its down tasks and, when it
      decodes, in its gate tasks; and the kernel its configuration names exists on its path. */
  lemma {:induction false} AcceptedLaunchFits(maxTokens: int, intermediateSize: nat, c: Config, tokens: nat,
                                              counts: seq<nat>)
    requires intermediateSize in {256, 512}
    requires 1 <= tokens <= Allocate(maxTokens, intermediateSize).value.maxTokens
    requires ConfigProblem(c, tokens, intermediateSize) == None
    requires |counts| <= EXPERTS + 1 && Sum(counts) == tokens * TOPK
    ensures var path := PathOf(c, tokens);
            var got := Delivered(Allocate(maxTokens, intermediateSize).value, path, tokens);
            && Sum(Blocks(counts, match path case M1 => 1 case Decode(_) => 32 case Prefill => 64)) <= got.tasks
            && (path.Decode? ==> Sum(Blocks(counts, 16)) <= got.gateTasks)
            && got.gather == got.scatter == got.intermediate == 9 * tokens
            && got.quant == (if tokens == 1 then 9 else tokens) && (path.M1? || got.routeOutput == 9 * tokens)
    ensures match PathOf(c, tokens)
            case M1 => tokens == 1 && c.downKernel == "route9"
            case Decode(route9) => c.gateKernel in GATE_KERNELS - {"prefill"}
              && (if route9 then c.downKernel == "route9" else c.downKernel in DOWN_KERNELS)
            case Prefill => c.gateKernel == "prefill" && c.downKernel == "prefill" && 1 <= c.downChunks <= 2
  {
    var path := PathOf(c, tokens);
    NeverTruncates(maxTokens, intermediateSize, c, tokens);
    if path.M1? {
      OneRowTasks(counts);
    } else {
      TasksFit(counts, tokens * TOPK, TaskRows(path));
      TasksFit(counts, tokens * TOPK, 16);
    }
  }

  lemma {:induction false} OneRowTasks(counts: seq<nat>)
    ensures Sum(Blocks(counts, 1)) == Sum(counts)
  {
    if counts != [] {
      var n := |counts| - 1;
      OneRowTasks(counts[..n]);
      assert Blocks(counts, 1)[..n] == Blocks(counts[..n], 1);
    }
  }

  // ---------------------------------------------------------------------------
  // Whole calls
  // ---------------------------------------------------------------------------

  /** What one launch covers. */
  datatype Launch = Launch(begin: nat, tokens: nat, config: Config, slices: Slices)

  /** A launch with the caller's configuration, or else the one selected for its own tokens. */
  ghost predicate GoodLaunch(ws: Workspace, config: Option<Config>, tuned: seq<(nat, Config)>, l: Launch) {
    && 1 <= l.tokens <= ws.maxTokens
    && l.config == (if config.Some? then config.value else SelectConfig(tuned, l.tokens, ws.intermediateSize))
    && ConfigProblem(l.config, l.tokens, ws.intermediateSize) == None
    && l.slices == Wanted(PathOf(l.config, l.tokens), l.tokens)
  }

  /** The shapes and strides of topk_ids and topk_weights. */
  datatype Routing = Routing(idRows: nat, idCols: nat, weightRows: nat, weightCols: nat,
                             float32: bool, rowStride: nat, colStride: nat)

  /** How many of n rows x[from:to] keeps. */
  function SliceLength(n: nat, from: nat, to: nat): nat {
    var lo, hi := SliceBound(from, n), SliceBound(to, n);
    if hi <= lo then 0 else hi - lo
  }

  function RowsOf(r: Routing, from: nat, to: nat): Routing {
    r.(idRows := SliceLength(r.idRows, from, to), weightRows := SliceLength(r.weightRows, from, to))
  }

  /** One launch takes the routing of exactly its tokens, nine routes each, with contiguous weights; a single
      row is contiguous whatever its row stride. */
  predicate Takes(r: Routing, tokens: nat) {
    && r.idRows == tokens && r.idCols == TOPK && r.weightRows == tokens && r.weightCols == TOPK
    && r.float32 && r.colStride == 1 && (tokens <= 1 || r.rowStride == TOPK)
  }

  /** What a chunked call needs besides enough rows. */
  predicate Steady(r: Routing, chunk: nat) {
    && r.idCols == TOPK && r.weightCols == TOPK
    && r.float32 && r.colStride == 1 && (chunk <= 1 || r.rowStride == TOPK)
  }

  function RoutedRows(r: Routing): nat {
    if r.idRows <= r.weightRows then r.idRows else r.weightRows
  }

  /** Exactly the calls that succeed. One launch needs as many routing rows as tokens; a chunked call needs at
      least as many, because a slice drops the surplus. */
  predicate Accepts(gfx950: bool, tokens: nat, ws: Workspace, r: Routing, config: Option<Config>) {
    && gfx950
    && if tokens > ws.maxTokens then config.None? && Steady(r, ws.maxTokens) && tokens <= RoutedRows(r)
       else || tokens == 0
            || (Takes(r, tokens) && (config.Some? ==> ConfigProblem(config.value, tokens, ws.intermediateSize).None?))
  }

  /** How many output rows a call writes before it returns or raises: all, none, or the chunks before the
      first one whose routing is short. */
  function Written(gfx950: bool, tokens: nat, ws: Workspace, r: Routing, config: Option<Config>): nat {
    if Accepts(gfx950, tokens, ws, r, config) then tokens
    else if gfx950 && 0 < ws.maxTokens < tokens && config.None? && Steady(r, ws.maxTokens) then
      RoutedRows(r) / ws.maxTokens * ws.maxTokens
    else 0
  }

  /** The chunks start with a whole one, so it decides the shapes and strides ... */
  lemma {:induction false} FirstChunk(r: Routing, chunk: nat)
    requires 0 < chunk
    ensures Takes(RowsOf(r, 0, chunk), chunk) <==> Steady(r, chunk) && chunk <= RoutedRows(r)
  {
  }

  /** ... and the later ones only run out of rows. */
  lemma {:induction false} LaterChunk(r: Routing, chunk: nat, at: nat, stop: nat)
    requires Steady(r, chunk) && at < stop <= at + chunk && at <= RoutedRows(r)
    ensures Takes(RowsOf(r, at, stop), stop - at) <==> stop <= RoutedRows(r)
  {
  }

  lemma {:induction false} WholeChunks(rows: nat, chunk: nat, k: nat)
    requires 0 < chunk && k * chunk <= rows < k * chunk + chunk
    ensures rows / chunk * chunk == k * chunk
  {
    DivMod(k, chunk, rows - k * chunk);
  }

  ghost predicate IsAllocated(ws: Workspace) {
    exists m: int, i: nat :: i in {256, 512} && Allocate(m, i) == Ok(ws)
  }

  /** One launch writes every output row of its tokens. */
  method RunLaunch(begin: nat, tokens: nat, ws: Workspace, config: Config, writes: array<nat>) returns (l: Launch)
    requires IsAllocated(ws) && 1 <= tokens <= ws.maxTokens && begin + tokens <= writes.Length
    requires ConfigProblem(config, tokens, ws.intermediateSize) == None
    modifies writes
    ensures l.begin == begin && l.tokens == tokens && GoodLaunch(ws, Some(config), [], l)
    ensures AddedOnce(old(writes[..]), writes[..], begin, tokens)
  {
    var path := PathOf(config, tokens);
    l := Launch(begin, tokens, config, Delivered(ws, path, tokens));
    ghost var m: int, i: nat :| i in {256, 512} && Allocate(m, i) == Ok(ws);
    NeverTruncates(m, i, config, tokens);
    forall i | begin <= i < begin + tokens {
      writes[i] := writes[i] + 1;
    }
  }

  /** A call that fits one launch. */
  method LaunchOnce(begin: nat, tokens: nat, ws: Workspace, routing: Routing, config: Option<Config>,
                    tuned: seq<(nat, Config)>, writes: array<nat>) returns (r: Result<seq<Launch>>)
    requires IsAllocated(ws) && tokens <= ws.maxTokens && begin + tokens <= writes.Length
    modifies writes
    ensures r.Ok? <==> Accepts(true, tokens, ws, routing, config)
    ensures AddedOnce(old(writes[..]), writes[..], begin, if r.Ok? then tokens else 0)
    ensures r.Ok? ==> AllGood(ws, config, tuned, r.value, begin, begin + tokens) && |r.value| <= 1
  {
    if tokens == 0 {
      return Ok([]);
    }
    if routing.idRows != tokens || routing.idCols != TOPK || routing.weightRows != tokens
      || routing.weightCols != TOPK {
      return Err("expects top-9 routing");
    }
    if !routing.float32 || routing.colStride != 1 || (tokens > 1 && routing.rowStride != TOPK) {
      return Err("topk_weights must be contiguous float32");
    }
    var chosen;
    if config.None? {
      chosen := SelectConfig(tuned, tokens, ws.intermediateSize);
      SelectedConfigRuns(tuned, tokens, ws.intermediateSize);
    } else {
      chosen := config.value;
      var problem := ConfigProblem(chosen, tokens, ws.intermediateSize);
      if problem.Some? {
        return Err(problem.value);
      }
    }
    var l := RunLaunch(begin, tokens, ws, chosen, writes);
    r := Ok([l]);
  }

  /** One turn of the chunk loop: the call on the slices. */
  method RunChunk(begin: nat, at: nat, stop: nat, ws: Workspace, routing: Routing, tuned: seq<(nat, Config)>,
                  writes: array<nat>, ghost start: seq<nat>) returns (part: Result<seq<Launch>>)
    requires IsAllocated(ws) && begin + stop <= writes.Length
    requires at < stop <= at + ws.maxTokens && (at == 0 ==> stop == ws.maxTokens)
    requires at > 0 ==> Steady(routing, ws.maxTokens) && at <= RoutedRows(routing)
    requires AddedOnce(start, writes[..], begin, at)
    modifies writes
    ensures part.Ok? <==> Steady(routing, ws.maxTokens) && stop <= RoutedRows(routing)
    ensures AddedOnce(start, writes[..], begin, if part.Ok? then stop else at)
    ensures part.Ok? ==> AllGood(ws, None, tuned, part.value, begin + at, begin + stop) && |part.value| <= 1
    decreases 1, 0
  {
    ghost var before := writes[..];
    part := MoeOut(true, begin + at, stop - at, ws, RowsOf(routing, at, stop), None, tuned, writes);
    ChunkVerdict(ws, routing, at, stop);
    AddedTogether(start, before, writes[..], begin, at, if part.Ok? then stop else at);
  }

  /** The chunk loop: every chunk is a call of its own on slices of the routing. */
  method RunChunks(begin: nat, tokens: nat, ws: Workspace, routing: Routing, tuned: seq<(nat, Config)>,
                   writes: array<nat>)
    returns (r: Result<seq<Launch>>)
    requires IsAllocated(ws) && 0 < ws.maxTokens < tokens && begin + tokens <= writes.Length
    modifies writes
    ensures r.Ok? <==> Accepts(true, tokens, ws, routing, None)
    ensures AddedOnce(old(writes[..]), writes[..], begin, Written(true, tokens, ws, routing, None))
    ensures r.Ok? ==> AllGood(ws, None, tuned, r.value, begin, begin + tokens)
    decreases 1, 1
  {
    var chunk := ws.maxTokens;
    var launches: seq<Launch> := [];
    var at, k := 0, 0;
    while at < tokens
      invariant at <= tokens && (at < tokens ==> at == k * chunk)
      invariant at > 0 ==> Steady(routing, chunk) && at <= RoutedRows(routing)
      invariant AddedOnce(old(writes[..]), writes[..], begin, at)
      invariant AllGood(ws, None, tuned, launches, begin, begin + at)
      invariant at < tokens ==> forall l <- launches :: l.tokens == chunk
    {
      var stop := if at + chunk < tokens then at + chunk else tokens;
      var part := RunChunk(begin, at, stop, ws, routing, tuned, writes, old(writes[..]));
      if part.Err? {
        StopsShort(tokens, ws, routing, at, stop, k);
        return Err(part.message);
      }
      GoodTogether(ws, tuned, launches, part.value, begin, begin + at, begin + stop);
      OneLaunch(part.value, begin + at, begin + stop);
      launches := launches + part.value;
      at := stop;
      k := k + 1;
      NextChunk(k - 1, chunk);
    }
    r := Ok(launches);
  }

  /** A chunk goes through exactly when shapes and strides are right and it does not run out of rows. */
  lemma {:induction false} ChunkVerdict(ws: Workspace, r: Routing, at: nat, stop: nat)
    requires at < stop <= at + ws.maxTokens && (at == 0 ==> stop == ws.maxTokens)
    requires at > 0 ==> Steady(r, ws.maxTokens) && at <= RoutedRows(r)
    ensures Accepts(true, stop - at, ws, RowsOf(r, at, stop), None)
            <==> Steady(r, ws.maxTokens) && stop <= RoutedRows(r)
    ensures Written(true, stop - at, ws, RowsOf(r, at, stop), None)
         == if Steady(r, ws.maxTokens) && stop <= RoutedRows(r) then stop - at else 0
  {
    if at == 0 {
      FirstChunk(r, ws.maxTokens);
    } else {
      LaterChunk(r, ws.maxTokens, at, stop);
    }
  }

  lemma {:induction false} NextChunk(k: nat, chunk: nat)
    ensures (k + 1) * chunk == k * chunk + chunk
  {
  }

  /** The call stops at the first chunk that is not taken, with exactly the chunks before it written. */
  lemma {:induction false} StopsShort(tokens: nat, ws: Workspace, r: Routing, at: nat, stop: nat, k: nat)
    requires 0 < ws.maxTokens < tokens && at < tokens && at == k * ws.maxTokens
    requires stop == if at + ws.maxTokens < tokens then at + ws.maxTokens else tokens
    requires at > 0 ==> Steady(r, ws.maxTokens) && at <= RoutedRows(r)
    requires !(Steady(r, ws.maxTokens) && stop <= RoutedRows(r))
    ensures !Accepts(true, tokens, ws, r, None) && Written(true, tokens, ws, r, None) == at
  {
    if Steady(r, ws.maxTokens) {
      WholeChunks(RoutedRows(r), ws.maxTokens, k);
    }
  }

  /** The MoE call: it succeeds exactly when Accepts says so, and writes every output row of the chunks it
      completes exactly once. */
  method MoeOut(gfx950: bool, begin: nat, tokens: nat, ws: Workspace, routing: Routing, config: Option<Config>,
                tuned: seq<(nat, Config)>, writes: array<nat>) returns (r: Result<seq<Launch>>)
    requires IsAllocated(ws) && begin + tokens <= writes.Length
    modifies writes
    ensures r.Ok? <==> Accepts(gfx950, tokens, ws, routing, config)
    ensures AddedOnce(old(writes[..]), writes[..], begin, Written(gfx950, tokens, ws, routing, config))
    ensures r.Ok? ==> AllGood(ws, config, tuned, r.value, begin, begin + tokens)
    ensures r.Ok? && tokens <= ws.maxTokens ==> |r.value| <= 1
    decreases if tokens > ws.maxTokens then 1 else 0, 2
  {
    if !gfx950 {
      return Err("GLM-5.3 IQ2R MoE requires gfx950");
    }
    if tokens > ws.maxTokens {
      if config.Some? {
        return Err("an explicit config runs one launch");
      }
      AllocatedIsPositive(ws);
      r := RunChunks(begin, tokens, ws, routing, tuned, writes);
    } else {
      r := LaunchOnce(begin, tokens, ws, routing, config, tuned, writes);
    }
  }

  lemma {:induction false} AllocatedIsPositive(ws: Workspace)
    requires IsAllocated(ws)
    ensures 0 < ws.maxTokens
  {
  }

  /** A call of one launch takes a routing of exactly its tokens, nine routes each, with weights without gaps. */
  lemma {:induction false} OneLaunchTakes(ws: Workspace, r: Routing, tokens: nat, rowStride: nat)
    requires 1 <= tokens <= ws.maxTokens && rowStride == (if tokens == 1 then r.rowStride else 9)
    ensures Accepts(true, tokens, ws, r, None) <==> r == Routing(tokens, 9, tokens, 9, true, rowStride, 1)
  {
  }

  /** A routing of 5000 rows for 8192 tokens in chunks of 4096: the first chunk is written, then the call
      raises. */
  lemma {:induction false} ShortRoutingIsHalfWritten(ws: Workspace, r: Routing)
    requires Allocate(4096, 256) == Ok(ws) && r == Routing(5000, TOPK, 5000, TOPK, true, TOPK, 1)
    ensures !Accepts(true, 8192, ws, r, None) && Written(true, 8192, ws, r, None) == 4096
  {
  }

  /** A routing of 3000 rows for 2048 tokens is accepted in chunks of 1024, and refused by a workspace that
      takes all tokens in one launch. */
  lemma {:induction false} LongRoutingPassesInChunks(ws: Workspace, whole: Workspace, r: Routing)
    requires Allocate(1024, 256) == Ok(ws) && Allocate(4096, 256) == Ok(whole)
    requires r == Routing(3000, TOPK, 3000, TOPK, true, TOPK, 1)
    ensures Accepts(true, 2048, ws, r, None) && !Accepts(true, 2048, whole, r, None)
  {
  }

  /** The n entries from begin on went up by one, and no other entry changed. */
  ghost predicate AddedOnce(was: seq<nat>, now: seq<nat>, begin: nat, n: nat) {
    |now| == |was| && forall i :: 0 <= i < |was| ==> now[i] == was[i] + if begin <= i < begin + n then 1 else 0
  }

  lemma {:induction false} AddedTogether(a: seq<nat>, b: seq<nat>, c: seq<nat>, begin: nat, at: nat, stop: nat)
    requires at <= stop && AddedOnce(a, b, begin, at) && AddedOnce(b, c, begin + at, stop - at)
    ensures AddedOnce(a, c, begin, stop)
  {
  }

  /** The launches lie end to end, each but the last as large as the workspace allows, and each has what it
      needs. */
  ghost predicate AllGood(ws: Workspace, config: Option<Config>, tuned: seq<(nat, Config)>, launches: seq<Launch>,
                          from: nat, to: nat) {
    && EndToEnd(launches, from, to) && (forall l <- launches :: GoodLaunch(ws, config, tuned, l))
    && forall k :: 0 <= k < |launches| - 1 ==> launches[k].tokens == ws.maxTokens
  }

  lemma {:induction false} GoodTogether(ws: Workspace, tuned: seq<(nat, Config)>, a: seq<Launch>, b: seq<Launch>,
                                        from: nat, mid: nat, to: nat)
    requires AllGood(ws, None, tuned, a, from, mid) && AllGood(ws, None, tuned, b, mid, to)
    requires forall l <- a :: l.tokens == ws.maxTokens
    ensures AllGood(ws, None, tuned, a + b, from, to)
  {
    EndToEndConcat(a, b, from, mid, to);
    assert forall k :: 0 <= k < |a| ==> (a + b)[k] in a;
  }

  lemma {:induction false} OneLaunch(b: seq<Launch>, from: nat, to: nat)
    requires EndToEnd(b, from, to) && |b| <= 1
    ensures forall l <- b :: l.tokens == to - from
  {
  }

  /** The launches cover [from, to) one after the other. */
  ghost predicate EndToEnd(launches: seq<Launch>, from: nat, to: nat) {
    if launches == [] then from == to
    else launches[0].begin == from && EndToEnd(launches[1..], from + launches[0].tokens, to)
  }

  lemma {:induction false} EndToEndConcat(a: seq<Launch>, b: seq<Launch>, from: nat, mid: nat, to: nat)
    requires EndToEnd(a, from, mid) && EndToEnd(b, mid, to)
    ensures EndToEnd(a + b, from, to)
  {
    if a == [] {
      assert a + b == b;
    } else {
      EndToEndConcat(a[1..], b, from + a[0].tokens, mid, to);
      assert (a + b)[1..] == a[1..] + b;
    }
  }

  lemma {:induction false} LaunchBegins(ws: Workspace, launches: seq<Launch>, from: nat, to: nat, k: nat)
    requires EndToEnd(launches, from, to) && k < |launches|
    requires forall i :: 0 <= i < |launches| - 1 ==> launches[i].tokens == ws.maxTokens
    ensures launches[k].begin == from + k * ws.maxTokens
    ensures k == |launches| - 1 ==> launches[k].begin + launches[k].tokens == to
  {
    if k > 0 {
      NextChunk(k - 1, ws.maxTokens);
      LaunchBegins(ws, launches[1..], from + launches[0].tokens, to, k - 1);
    }
  }

  /** The launches of a call that succeeds: one behind the other, whole chunks and then the rest, each with the
      caller's configuration or the one selected for its own tokens. */
  lemma {:induction false} LaunchAt(ws: Workspace, config: Option<Config>, tuned: seq<(nat, Config)>,
                                    launches: seq<Launch>, begin: nat, tokens: nat, k: nat)
    requires AllGood(ws, config, tuned, launches, begin, begin + tokens) && k < |launches|
    ensures var l := launches[k];
            && l.begin == begin + k * ws.maxTokens && 0 < l.tokens <= ws.maxTokens
            && l.tokens == (if k < |launches| - 1 then ws.maxTokens else tokens - k * ws.maxTokens)
            && l.config == (if config.Some? then config.value else SelectConfig(tuned, l.tokens, ws.intermediateSize))
  {
    LaunchBegins(ws, launches, begin, begin + tokens, k);
    assert launches[k] in launches;
  }

  /** Each launch has one entry a route in its index and result buffers, and room for the tasks of any routing. */
  lemma {:induction false} LaunchHasRoom(ws: Workspace, config: Option<Config>, tuned: seq<(nat, Config)>,
                                         launches: seq<Launch>, from: nat, to: nat, l: Launch, counts: seq<nat>)
    requires IsAllocated(ws) && AllGood(ws, config, tuned, launches, from, to) && l in launches
    requires |counts| <= 258 && Sum(counts) == l.tokens * 9
    ensures ConfigProblem(l.config, l.tokens, ws.intermediateSize) == None
    ensures l.slices.gather == l.slices.scatter == l.slices.intermediate == 9 * l.tokens
    ensures var path := PathOf(l.config, l.tokens);
            && Sum(Blocks(counts, match path case M1 => 1 case Decode(_) => 32 case Prefill => 64)) <= l.slices.tasks
            && (path.Decode? ==> Sum(Blocks(counts, 16)) <= l.slices.gateTasks)
  {
    var m: int, i: nat :| i in {256, 512} && Allocate(m, i) == Ok(ws);
    AcceptedLaunchFits(m, i, l.config, l.tokens, counts);
    NeverTruncates(m, i, l.config, l.tokens);
  }
}
