/** The cgroup memory warning (aiter_worker_limits.py): a lock-protected state machine that limits how often it
    warns. One call is one step; a run is any order in which threads take the lock. */
module MemoryDiagnostics {
  import opened TokenBuckets
  import opened Results
  import opened Numbers

  const INTERVAL := 60.0

  /** One call: its budgets, whether a cgroup bound was observed, and the clock if it is read. */
  datatype Call = Call(cpu: int, memory: int, ceiling: Option<int>, observed: bool, now: real)

  datatype State = State(lastTime: Option<real>, lastBudget: Option<int>)

  datatype Warning = Warning(time: real, budget: int)

  function Requested(c: Call): int {
    var ceiling := if c.ceiling.None? || c.ceiling.value == 0 then c.cpu else c.ceiling.value;
    if ceiling < c.cpu then ceiling else c.cpu
  }

  predicate Recovers(c: Call) {
    c.memory >= Requested(c)
  }

  /** Whether the call warns in this state. */
  predicate Warns(s: State, c: Call) {
    && !Recovers(c)
    && c.observed && (c.memory <= 3 || c.memory * 4 <= Requested(c))
    && (s.lastBudget.Some? ==> c.memory * 2 <= s.lastBudget.value || c.memory == 1 < s.lastBudget.value)
    && (s.lastTime.Some? ==> c.now - s.lastTime.value >= INTERVAL)
  }

  function Step(s: State, c: Call): State {
    if Recovers(c) then s.(lastBudget := None)
    else if Warns(s, c) then State(Some(c.now), Some(c.memory))
    else s
  }

  /** The module's globals. */
  class Diagnostic {
    var lastTime: Option<real>
    var lastBudget: Option<int>

    function Current(): State
      reads this
    {
      State(lastTime, lastBudget)
    }

    constructor ()
      ensures Current() == State(None, None)
    {
      lastTime, lastBudget := None, None;
    }

    method MaybeLog(c: Call) returns (warned: bool)
      modifies this
      ensures Current() == Step(old(Current()), c) && warned == Warns(old(Current()), c)
    {
      warned := false;
      var ceiling := c.cpu;
      if c.ceiling.Some? && c.ceiling.value != 0 {
        ceiling := c.ceiling.value;
      }
      var requested := if ceiling < c.cpu then ceiling else c.cpu;
      if c.memory >= requested {
        lastBudget := None;
        return;
      }
      if !c.observed || !(c.memory <= 3 || c.memory * 4 <= requested) {
        return;
      }
      var previous := lastBudget;
      if previous.Some? && !(c.memory * 2 <= previous.value || c.memory == 1 < previous.value) {
        return;
      }
      if lastTime.Some? && c.now - lastTime.value < INTERVAL {
        return;
      }
      lastTime := Some(c.now);
      lastBudget := Some(c.memory);
      warned := true;
    }
  }

  // ---------------------------------------------------------------------------
  // Runs
  // ---------------------------------------------------------------------------

  function After(s: State, calls: seq<Call>): State {
    if calls == [] then s else Step(After(s, calls[..|calls| - 1]), calls[|calls| - 1])
  }

  /** The warnings of a run, in order. */
  function Warnings(s: State, calls: seq<Call>): seq<Warning> {
    if calls == [] then []
    else
      var n := |calls| - 1;
      var c := calls[n];
      Warnings(s, calls[..n]) + if Warns(After(s, calls[..n]), c) then [Warning(c.now, c.memory)] else []
  }

  /** The first call warns if memory allows fewer workers than the processors and any set ceiling, a bound was
      seen, and it leaves at most three workers or a quarter. */
  lemma {:induction false} FirstCallWarnsExactlyWhen(c: Call)
    ensures Warnings(State(None, None), [c]) != []
            <==> && c.memory < c.cpu && (c.ceiling.Some? && c.ceiling.value != 0 ==> c.memory < c.ceiling.value)
                 && c.observed
                 && (c.memory <= 3
                     || (4 * c.memory <= c.cpu
                         && (c.ceiling.Some? && c.ceiling.value != 0 ==> 4 * c.memory <= c.ceiling.value)))
  {
    assert [c][..0] == [];
    assert Warnings(State(None, None), [c][..0]) == [];
  }

  /** The time of the last warning is remembered through recoveries. */
  lemma {:induction false} LastTimeRemembered(s: State, calls: seq<Call>)
    requires s.lastTime == None
    ensures var w := Warnings(s, calls);
            After(s, calls).lastTime == if w == [] then None else Some(w[|w| - 1].time)
    decreases |calls|
  {
    if calls != [] {
      LastTimeRemembered(s, calls[..|calls| - 1]);
    }
  }

  /** Over any run, n warnings apart are at least n minutes apart, recoveries or not. */
  lemma {:induction false} WarningsApart(s: State, calls: seq<Call>, i: nat, j: nat)
    requires s.lastTime == None && i <= j < |Warnings(s, calls)|
    ensures Warnings(s, calls)[j].time - Warnings(s, calls)[i].time >= (j - i) as real * 60.0
    decreases |calls|
  {
    var n := |calls| - 1;
    var before := Warnings(s, calls[..n]);
    LastTimeRemembered(s, calls[..n]);
    if j < |before| {
      WarningsApart(s, calls[..n], i, j);
    } else if i < j {
      WarningsApart(s, calls[..n], i, j - 1);
    }
  }

  /** A recovery forgets the warned budget: the next shortfall warns again, whatever was warned before, once the
      minute is over. */
  lemma {:induction false} RecoveryForgetsTheBudget(s: State, c: Call, next: Call)
    requires c.memory >= c.cpu && next.ceiling == None && next.observed
    requires next.memory < next.cpu && (next.memory <= 3 || 4 * next.memory <= next.cpu)
    requires s.lastTime.Some? ==> next.now - s.lastTime.value >= 60.0
    ensures Warnings(s, [c, next]) == [Warning(next.now, next.memory)]
  {
    assert [c, next][..1] == [c] && [c][..0] == [];
    assert Warnings(s, [c][..0]) == [];
    assert Warnings(s, [c, next][..1]) == [];
    assert After(s, [c, next][..1]) == Step(After(s, [c][..0]), c);
  }

  ghost predicate NoRecovery(calls: seq<Call>) {
    forall k :: 0 <= k < |calls| ==> !Recovers(calls[k])
  }

  ghost predicate PositiveBudgets(calls: seq<Call>) {
    forall k :: 0 <= k < |calls| ==> calls[k].memory >= 1
  }

  /** Without a recovery the last warning's budget is remembered. */
  lemma {:induction false} LastBudgetRemembered(s: State, calls: seq<Call>)
    requires NoRecovery(calls)
    ensures var w := Warnings(s, calls);
            After(s, calls).lastBudget == if w == [] then s.lastBudget else Some(w[|w| - 1].budget)
    decreases |calls|
  {
    if calls != [] {
      assert !Recovers(calls[|calls| - 1]);
      LastBudgetRemembered(s, calls[..|calls| - 1]);
    }
  }

  lemma {:induction false} WarningsPositive(s: State, calls: seq<Call>, i: nat)
    requires PositiveBudgets(calls) && i < |Warnings(s, calls)|
    ensures Warnings(s, calls)[i].budget >= 1
    decreases |calls|
  {
    var n := |calls| - 1;
    assert calls[n].memory >= 1;
    if i < |Warnings(s, calls[..n])| {
      WarningsPositive(s, calls[..n], i);
    }
  }

  /** Between recoveries every warning's budget is at most half of the one before. */
  lemma {:induction false} BudgetsHalve(s: State, calls: seq<Call>, i: nat)
    requires NoRecovery(calls) && PositiveBudgets(calls) && i + 1 < |Warnings(s, calls)|
    ensures Warnings(s, calls)[i + 1].budget * 2 <= Warnings(s, calls)[i].budget
    decreases |calls|
  {
    var n := |calls| - 1;
    var before := Warnings(s, calls[..n]);
    LastBudgetRemembered(s, calls[..n]);
    assert calls[n].memory >= 1;
    if i + 1 < |before| {
      BudgetsHalve(s, calls[..n], i);
    }
  }

  lemma {:induction false} BudgetsShrink(s: State, calls: seq<Call>, i: nat)
    requires NoRecovery(calls) && PositiveBudgets(calls) && i < |Warnings(s, calls)|
    ensures Warnings(s, calls)[i].budget * Pow2(i) <= Warnings(s, calls)[0].budget
  {
    if i > 0 {
      BudgetsShrink(s, calls, i - 1);
      BudgetsHalve(s, calls, i - 1);
      Doubled(Warnings(s, calls)[i].budget, Warnings(s, calls)[i - 1].budget, Pow2(i - 1));
    }
  }

  lemma {:induction false} Doubled(x: int, y: int, p: int)
    requires 2 * x <= y && 0 <= p
    ensures x * (2 * p) <= y * p
  {
    assert (y - 2 * x) * p >= 0;
  }

  /** An episode, from a recovery to the next, that first warns at budget b warns at most floor(log2 b) + 1
      times, which is the bit length of b. */
  lemma {:induction false} EpisodeWarnsFewTimes(s: State, calls: seq<Call>)
    requires NoRecovery(calls) && PositiveBudgets(calls) && Warnings(s, calls) != []
    ensures Warnings(s, calls)[0].budget >= 1 && |Warnings(s, calls)| <= BitLength(Warnings(s, calls)[0].budget)
  {
    var w := Warnings(s, calls);
    var last := |w| - 1;
    WarningsPositive(s, calls, 0);
    WarningsPositive(s, calls, last);
    BudgetsShrink(s, calls, last);
    assert w[last].budget * Pow2(last) >= Pow2(last) by {
      assert (w[last].budget - 1) * Pow2(last) >= 0;
    }
    PowerBelow(last, w[0].budget);
  }

  /** The bound is met: halving budgets, a minute apart, warn every time. */
  lemma {:induction false} BoundIsMet(s: State, b: nat, now: real) returns (calls: seq<Call>)
    requires b >= 1
    requires s.lastBudget.None? || 2 * b <= s.lastBudget.value
    requires s.lastTime.None? || now - s.lastTime.value >= 60.0
    ensures NoRecovery(calls) && PositiveBudgets(calls)
    ensures |Warnings(s, calls)| == BitLength(b) && Warnings(s, calls)[0].budget == b
    decreases b
  {
    var first := Call(4 * b, b, None, true, now);
    if b == 1 {
      calls := [first];
      assert calls[..0] == [];
      assert Warnings(s, calls[..0]) == [];
    } else {
      var rest := BoundIsMet(Step(s, first), b / 2, now + INTERVAL);
      calls := [first] + rest;
      FirstThenRest(s, first, rest);
    }
  }

  lemma {:induction false} FirstThenRest(s: State, first: Call, rest: seq<Call>)
    ensures After(s, [first] + rest) == After(Step(s, first), rest)
    ensures Warnings(s, [first] + rest)
         == (if Warns(s, first) then [Warning(first.now, first.memory)] else []) + Warnings(Step(s, first), rest)
    decreases |rest|
  {
    var calls := [first] + rest;
    if rest == [] {
      assert calls == [first] && calls[..0] == [];
      assert After(s, calls[..0]) == s && Warnings(s, calls[..0]) == [];
    } else {
      var n := |rest| - 1;
      FirstThenRest(s, first, rest[..n]);
      assert calls[..|calls| - 1] == [first] + rest[..n];
    }
  }

  // ---------------------------------------------------------------------------
  // Splitting a worker budget
  // ---------------------------------------------------------------------------

  function Cap(budget: int, ceiling: int): int {
    Max(1, Min(budget, Max(1, ceiling)))
  }

  /** Modules built at once, and jobs for each. */
  function SplitBudget(total: int, modules: int, maxOuter: int): (r: (nat, nat))
    ensures r.0 >= 1 && r.1 >= 1 && r.0 <= Max(1, Min(total, Min(modules, Max(1, maxOuter))))
  {
    var outer := Cap(total, Min(modules, Max(1, maxOuter)));
    (outer, Max(1, total / outer))
  }

  /** The pools together never exceed a positive budget, and leave less than one job per module unused. */
  lemma {:induction false} SplitUsesTheBudget(total: int, modules: int, maxOuter: int)
    requires 1 <= total
    ensures var (outer, inner) := SplitBudget(total, modules, maxOuter); outer * inner <= total < outer * inner + outer
  {
    var outer := SplitBudget(total, modules, maxOuter).0;
    assert total == total / outer * outer + total % outer;
  }

  /** As many modules at once as the budget, the module count and the ceiling all allow, and at least one. */
  lemma {:induction false} OuterIsTheGreatest(total: int, modules: int, maxOuter: int, k: int)
    ensures k <= SplitBudget(total, modules, maxOuter).0 <==> k <= 1 || (k <= total && k <= modules && k <= maxOuter)
  {
  }
}
