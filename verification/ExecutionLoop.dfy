/** `rann_agent/core/runtime.py` and `budget.py`. The runtime's execution loop under its budget,
    for every sequence of model responses and tool results. */
module ExecutionLoops {
  import opened Prelude

  datatype Budget = Budget(maxTokens: int, maxTimeSeconds: real, maxToolCalls: int, maxModelCalls: int,
                           maxCostUsd: real, maxTurns: int, warningThreshold: real)

  datatype Usage = Usage(tokens: nat, inputTokens: nat, outputTokens: nat, modelCalls: nat, toolCalls: nat,
                         turns: nat, costUsd: real)

  const UNUSED := Usage(0, 0, 0, 0, 0, 0, 0.0)

  /** `max(0, limit - used) <= 0` for any of the six budgets. */
  predicate Exhausted(b: Budget, u: Usage, elapsed: real) {
    || Max(0, b.maxTokens - u.tokens) <= 0
    || b.maxTimeSeconds - elapsed <= 0.0
    || Max(0, b.maxToolCalls - u.toolCalls) <= 0
    || Max(0, b.maxModelCalls - u.modelCalls) <= 0
    || b.maxCostUsd - u.costUsd <= 0.0
    || Max(0, b.maxTurns - u.turns) <= 0
  }

  /** A model response: its reported usage and, for each tool it calls, whether executing the tool
      returned (rather than raised). */
  datatype Response = Response(input: nat, output: nat, tools: seq<bool>)

  function AtLeastOne(limit: real): real {
    if limit > 1.0 then limit else 1.0
  }

  /** Computing the warnings raises: the text for a limit is looked up under "used" first, which the
      entries for time and cost do not have, as soon as one of those two is past the threshold. */
  predicate WarningRaises(b: Budget, u: Usage, elapsed: real) {
    || elapsed / AtLeastOne(b.maxTimeSeconds) >= b.warningThreshold
    || u.costUsd / AtLeastOne(b.maxCostUsd) >= b.warningThreshold
  }

  /** What the world does in one turn: the clock when the budget is checked, when the model call is
      recorded and when the turn is, and the two attempts at the model. */
  datatype Turn = Turn(elapsed: real, atCall: real, atTurn: real, first: Option<Response>, second: Option<Response>)

  function Answer(t: Turn): Option<Response> {
    if t.first.Some? then t.first else t.second
  }

  function Tokens(t: Turn): nat {
    match t
    case Turn(_, _, _, Some(r), _) => r.input + r.output
    case Turn(_, _, _, None, Some(r)) => r.input + r.output
    case Turn(_, _, _, None, None) => 0
  }

  function Returned(tools: seq<bool>): nat {
    if tools == [] then 0 else Returned(tools[..|tools| - 1]) + if tools[|tools| - 1] then 1 else 0
  }

  /** The tool calls of the first response, or of the second if the first attempt failed. */
  function Calls(t: Turn): seq<bool> {
    match t
    case Turn(_, _, _, Some(r), _) => r.tools
    case Turn(_, _, _, None, Some(r)) => r.tools
    case Turn(_, _, _, None, None) => []
  }

  lemma {:induction false} ReturnedCounts(tools: seq<bool>)
    ensures Returned(tools) == multiset(tools)[true]
  {
    if tools != [] {
      assert tools == tools[..|tools| - 1] + [tools[|tools| - 1]];
      ReturnedCounts(tools[..|tools| - 1]);
    }
  }

  function ToolCalls(t: Turn): nat {
    multiset(Calls(t))[true]
  }

  function ModelCalled(u: Usage, r: Response): Usage {
    u.(modelCalls := u.modelCalls + 1, inputTokens := u.inputTokens + r.input,
        outputTokens := u.outputTokens + r.output,
       tokens := u.tokens + r.input + r.output)
  }

  function TurnTaken(u: Usage, r: Response): Usage {
    ModelCalled(u, r).(turns := u.turns + 1)
  }

  /** How the loop ends. `turns` is what it reports or had counted. */
  datatype Ending =
    | Done(turns: nat)
    | TurnLimit(turns: nat)
    | BudgetExceeded(turns: nat)
    | ModelFailed(turns: nat)
    | WarningRaised(turns: nat)

  datatype Outcome = Outcome(ending: Ending, usage: Usage)

  /** One round: it ends the loop, or made tool calls and goes on. */
  datatype Round = Ends(ending: Ending, usage: Usage) | GoesOn(usage: Usage)

  function Play(b: Budget, u: Usage, t: Turn, turn: nat): Round {
    if Exhausted(b, u, t.elapsed) then Ends(BudgetExceeded(turn), u)
    else if Answer(t).None? then Ends(ModelFailed(turn), u)
    else
      var r := Answer(t).value;
      if WarningRaises(b, ModelCalled(u, r), t.atCall) then Ends(WarningRaised(turn), ModelCalled(u, r))
      else if WarningRaises(b, TurnTaken(u, r), t.atTurn) then Ends(WarningRaised(turn), TurnTaken(u, r))
      else if r.tools == [] then Ends(Done(turn), TurnTaken(u, r))
      else
        var u1 := TurnTaken(u, r).(toolCalls := u.toolCalls + Returned(r.tools));
        if turn + 1 >= b.maxTurns then Ends(TurnLimit(turn + 1), u1) else GoesOn(u1)
  }

  /** The loop from turn number `turn` on. It ends on every `world`, because each round uses up one
      of the budget's turns. */
  function Loop(b: Budget, u: Usage, world: nat -> Turn, turn: nat): Outcome
    decreases Max(0, b.maxTurns - u.turns)
  {
    match Play(b, u, world(turn), turn)
    case Ends(ending, u1) => Outcome(ending, u1)
    case GoesOn(u1) => Loop(b, u1, world, turn + 1)
  }

  function SumTokens(world: nat -> Turn, n: nat): nat {
    if n == 0 then 0 else SumTokens(world, n - 1) + Tokens(world(n - 1))
  }

  function SumToolCalls(world: nat -> Turn, n: nat): nat {
    if n == 0 then 0 else SumToolCalls(world, n - 1) + ToolCalls(world(n - 1))
  }

  /** The clock is past the threshold; nothing is when the threshold is not positive. */
  predicate Late(b: Budget, elapsed: real) {
    b.warningThreshold <= 0.0 || elapsed / AtLeastOne(b.maxTimeSeconds) >= b.warningThreshold
  }

  predicate LateTurn(b: Budget, t: Turn) {
    Late(b, t.atCall) || Late(b, t.atTurn)
  }

  /** The first `n` turns were recorded before the threshold. */
  ghost predicate InTime(b: Budget, world: nat -> Turn, n: nat) {
    forall i: nat :: i < n ==> !LateTurn(b, world(i))
  }

  /** What holds whenever the loop checks its condition: the turn number, the recorded turns and the
      recorded model calls are equal, nothing was overshot, and the consumption is exactly what the
      turns so far used. */
  ghost predicate AtHead(b: Budget, u: Usage, world: nat -> Turn, turn: nat) {
    && u.turns == u.modelCalls == turn
    && turn <= Max(0, Min(b.maxTurns, b.maxModelCalls))
    && u.tokens == SumTokens(world, turn) == u.inputTokens + u.outputTokens
    && u.toolCalls == SumToolCalls(world, turn)
    && u.costUsd == 0.0 && InTime(b, world, turn)
    && (turn > 0 ==> u.tokens - Tokens(world(turn - 1)) < b.maxTokens)
    && (turn > 0 ==> u.toolCalls - ToolCalls(world(turn - 1)) < b.maxToolCalls)
  }

  /** Which turns were recorded before the threshold, by how the loop ended. */
  ghost predicate Timely(b: Budget, ending: Ending, world: nat -> Turn) {
    && InTime(b, world, if ending.Done? then ending.turns + 1 else ending.turns)
    && (ending.WarningRaised? ==> LateTurn(b, world(ending.turns)))
  }

  /** What holds when the loop has ended. */
  ghost predicate AtEnd(b: Budget, o: Outcome, world: nat -> Turn) {
    Consumed(b, o, world) && Timely(b, o.ending, world) && Counted(b, o, world)
  }

  /** What was used. */
  ghost predicate Consumed(b: Budget, o: Outcome, world: nat -> Turn) {
    var u, n := o.usage, o.ending.turns;
    && u.modelCalls <= Max(0, Min(b.maxTurns, b.maxModelCalls))
    && u.turns <= u.modelCalls <= u.turns + 1 && n <= u.turns + 1
    && u.tokens == SumTokens(world, u.modelCalls)
    && (u.modelCalls > 0 ==> u.tokens - Tokens(world(u.modelCalls - 1)) < b.maxTokens)
    && u.toolCalls == SumToolCalls(world, n)
    && (n > 0 ==> u.toolCalls - ToolCalls(world(n - 1)) < b.maxToolCalls)
  }

  /** How the reported turns and the recorded ones differ, by how the loop ended. */
  predicate Counted(b: Budget, o: Outcome, world: nat -> Turn) {
    var u, n := o.usage, o.ending.turns;
    match o.ending
    case Done(_) => u.turns == n + 1 && u.modelCalls == n + 1
    case TurnLimit(_) => u.turns == n == u.modelCalls && n == b.maxTurns
    case BudgetExceeded(_) =>
      u.turns == n == u.modelCalls && Exhausted(b, u, world(n).elapsed) && (n < b.maxTurns || n == 0)
    case ModelFailed(_) => u.turns == n == u.modelCalls && world(n).first.None? && world(n).second.None?
    case WarningRaised(_) => u.modelCalls == n + 1
  }

  lemma FreeWarningIff(b: Budget, u: Usage, elapsed: real)
    requires u.costUsd == 0.0
    ensures WarningRaises(b, u, elapsed) <==> Late(b, elapsed)
  {
    assert 0.0 / AtLeastOne(b.maxCostUsd) == 0.0;
  }

  lemma RoundGoesOn(b: Budget, u: Usage, world: nat -> Turn, turn: nat)
    requires AtHead(b, u, world, turn) && Play(b, u, world(turn), turn).GoesOn?
    ensures AtHead(b, Play(b, u, world(turn), turn).usage, world, turn + 1) && turn + 1 < b.maxTurns
  {
    ReturnedCounts(Calls(world(turn)));
  }

  lemma RoundEnds(b: Budget, u: Usage, world: nat -> Turn, turn: nat)
    requires AtHead(b, u, world, turn) && (turn > 0 ==> turn < b.maxTurns) && Play(b, u, world(turn), turn).Ends?
    ensures var r := Play(b, u, world(turn), turn); AtEnd(b, Outcome(r.ending, r.usage), world)
  {
    RoundEndsConsumed(b, u, world, turn);
    RoundEndsTimely(b, u, world, turn);
    RoundEndsCounted(b, u, world, turn);
  }

  lemma RoundEndsConsumed(b: Budget, u: Usage, world: nat -> Turn, turn: nat)
    requires AtHead(b, u, world, turn) && Play(b, u, world(turn), turn).Ends?
    ensures var r := Play(b, u, world(turn), turn); Consumed(b, Outcome(r.ending, r.usage), world)
  {
    ReturnedCounts(Calls(world(turn)));
  }

  lemma RoundEndsCounted(b: Budget, u: Usage, world: nat -> Turn, turn: nat)
    requires u.turns == u.modelCalls == turn && (turn > 0 ==> turn < b.maxTurns)
    requires Play(b, u, world(turn), turn).Ends?
    ensures var r := Play(b, u, world(turn), turn); Counted(b, Outcome(r.ending, r.usage), world)
  {
  }

  lemma RoundEndsTimely(b: Budget, u: Usage, world: nat -> Turn, turn: nat)
    requires u.costUsd == 0.0 && InTime(b, world, turn) && Play(b, u, world(turn), turn).Ends?
    ensures Timely(b, Play(b, u, world(turn), turn).ending, world)
  {
  }

  lemma {:induction false} LoopKeepsBudget(b: Budget, u: Usage, world: nat -> Turn, turn: nat)
    requires AtHead(b, u, world, turn) && (turn > 0 ==> turn < b.maxTurns)
    ensures AtEnd(b, Loop(b, u, world, turn), world)
    decreases Max(0, b.maxTurns - u.turns)
  {
    match Play(b, u, world(turn), turn) {
      case Ends(_, _) => RoundEnds(b, u, world, turn);
      case GoesOn(u1) =>
        RoundGoesOn(b, u, world, turn);
        LoopKeepsBudget(b, u1, world, turn + 1);
    }
  }

  /** For every world: model calls and turns never exceed either limit, tokens overshoot by less
      than the last response, tool calls by less than the last batch, and the consumption is the sum
      of what each turn used. A finished loop reports one turn less than it recorded. */
  lemma LoopBounds(b: Budget, world: nat -> Turn)
    ensures AtEnd(b, Loop(b, UNUSED, world, 0), world)
  {
    LoopKeepsBudget(b, UNUSED, world, 0);
  }

  /** The usage when the loop checks its condition for the n-th time, if it gets that far. */
  function Head(b: Budget, world: nat -> Turn, n: nat): Option<Usage> {
    if n == 0 then Some(UNUSED)
    else
      var before := Head(b, world, n - 1);
      if before.None? then None
      else match Play(b, before.value, world(n - 1), n - 1)
        case Ends(_, _) => None
        case GoesOn(u) => Some(u)
  }

  /** Each time the loop checks its condition, turns and model calls are equal and within both
      limits, and nothing but the last response and the last batch has overshot. */
  lemma {:induction false} HeadsAreBalanced(b: Budget, world: nat -> Turn, n: nat)
    requires Head(b, world, n).Some?
    ensures AtHead(b, Head(b, world, n).value, world, n) && (n > 0 ==> n < b.maxTurns)
  {
    if n > 0 {
      HeadsAreBalanced(b, world, n - 1);
      RoundGoesOn(b, Head(b, world, n - 1).value, world, n - 1);
    }
  }

  lemma {:induction false} LoopFromHead(b: Budget, world: nat -> Turn, n: nat)
    requires Head(b, world, n).Some?
    ensures Loop(b, UNUSED, world, 0) == Loop(b, Head(b, world, n).value, world, n)
  {
    if n > 0 {
      LoopFromHead(b, world, n - 1);
    }
  }

  /** Something is left of each budget, costs being zero. */
  predicate Affords(b: Budget, u: Usage, elapsed: real) {
    && u.tokens < b.maxTokens && elapsed < b.maxTimeSeconds && u.toolCalls < b.maxToolCalls
    && u.modelCalls < b.maxModelCalls && 0.0 < b.maxCostUsd && u.turns < b.maxTurns
  }

  /** The turn gets as far as its tool calls: something is left, an attempt at the model returned, and
      both records were made before the threshold. */
  predicate ReachesTools(b: Budget, u: Usage, t: Turn) {
    Affords(b, u, t.elapsed) && (t.first.Some? || t.second.Some?) && !LateTurn(b, t)
  }

  lemma RoundIs(b: Budget, u: Usage, t: Turn, turn: nat)
    requires u.costUsd == 0.0
    ensures var r := Play(b, u, t, turn);
            && (r.Ends? && r.ending == BudgetExceeded(turn) <==> !Affords(b, u, t.elapsed))
            && (r.Ends? && r.ending == ModelFailed(turn) <==>
                Affords(b, u, t.elapsed) && t.first.None? && t.second.None?)
            && (r.Ends? && r.ending == Done(turn) <==> ReachesTools(b, u, t) && Calls(t) == [])
            && (r.Ends? && r.ending == TurnLimit(turn + 1) <==>
                ReachesTools(b, u, t) && Calls(t) != [] && b.maxTurns <= turn + 1)
            && (r.GoesOn? <==> ReachesTools(b, u, t) && Calls(t) != [] && turn + 1 < b.maxTurns)
            && (r.Ends? ==> r.ending.turns == if r.ending.TurnLimit? then turn + 1 else turn)
  {
    forall v: Usage, elapsed | v.costUsd == 0.0 ensures WarningRaises(b, v, elapsed) <==> Late(b, elapsed) {
      FreeWarningIff(b, v, elapsed);
    }
  }

  /** A loop that goes on ends later. */
  lemma {:induction false} EndsLater(b: Budget, u: Usage, world: nat -> Turn, turn: nat)
    requires u.costUsd == 0.0
    ensures var e := Loop(b, u, world, turn).ending; e.turns >= if e.TurnLimit? then turn + 1 else turn
    decreases Max(0, b.maxTurns - u.turns)
  {
    RoundIs(b, u, world(turn), turn);
    match Play(b, u, world(turn), turn) {
      case Ends(_, _) =>
      case GoesOn(u1) => EndsLater(b, u1, world, turn + 1);
    }
  }

  /** Once the loop has got to its n-th check, how it ends there is decided by what is left, the two
      attempts at the model, the clock and whether tools are called; and it gets to the next check
      exactly when tools are called and a turn is left for them. */
  lemma EndsIff(b: Budget, world: nat -> Turn, n: nat)
    requires Head(b, world, n).Some?
    ensures var u, t, e := Head(b, world, n).value, world(n), Loop(b, UNUSED, world, 0).ending;
            && (e == BudgetExceeded(n) <==> !Affords(b, u, t.elapsed))
            && (e == ModelFailed(n) <==> Affords(b, u, t.elapsed) && t.first.None? && t.second.None?)
            && (e == Done(n) <==> ReachesTools(b, u, t) && Calls(t) == [])
            && (e == TurnLimit(n + 1) <==> ReachesTools(b, u, t) && Calls(t) != [] && b.maxTurns <= n + 1)
            && (Head(b, world, n + 1).Some? <==> ReachesTools(b, u, t) && Calls(t) != [] && n + 1 < b.maxTurns)
  {
    var u := Head(b, world, n).value;
    HeadsAreBalanced(b, world, n);
    LoopFromHead(b, world, n);
    RoundIs(b, u, world(n), n);
    if Play(b, u, world(n), n).GoesOn? {
      RoundGoesOn(b, u, world, n);
      EndsLater(b, Play(b, u, world(n), n).usage, world, n + 1);
    }
  }

  /** Once the loop has got to its n-th check, a warning ends it in that turn exactly when a budget is
      left, the model answers, and the clock is past the threshold when the call or the turn is
      recorded. */
  lemma WarningEndsIff(b: Budget, world: nat -> Turn, n: nat)
    requires Head(b, world, n).Some?
    ensures Loop(b, UNUSED, world, 0).ending == WarningRaised(n) <==>
            && Affords(b, Head(b, world, n).value, world(n).elapsed)
            && (world(n).first.Some? || world(n).second.Some?) && LateTurn(b, world(n))
  {
    var u := Head(b, world, n).value;
    HeadsAreBalanced(b, world, n);
    LoopFromHead(b, world, n);
    if Play(b, u, world(n), n).GoesOn? {
      RoundGoesOn(b, u, world, n);
      EndsLater(b, Play(b, u, world(n), n).usage, world, n + 1);
    }
    forall v: Usage, elapsed | v.costUsd == 0.0 ensures WarningRaises(b, v, elapsed) <==> Late(b, elapsed) {
      FreeWarningIff(b, v, elapsed);
    }
  }

  /** The defaults of `Budget`. */
  const DEFAULT := Budget(100000, 3600.0, 100, 50, 10.0, 50, 0.8)

  /** Under the default budget a first answer that arrives after 48 of the 60 minutes ends the loop by
      raising, though no budget is exhausted. */
  lemma AnswerPastThresholdRaises(world: nat -> Turn, r: Response)
    requires world(0) == Turn(0.0, 2880.0, 2880.0, Some(r), None) && r.input + r.output < 100000
    ensures var o := Loop(DEFAULT, UNUSED, world, 0);
            o.ending == WarningRaised(0) && !Exhausted(DEFAULT, o.usage, 2880.0)
  {
    WarningEndsIff(DEFAULT, world, 0);
  }

  // ----- the objects -----

  class BudgetTracker {
    const budget: Budget
    var tokensUsed: nat
    var modelCalls: nat
    var toolCalls: nat
    var costUsd: real
    var turns: nat
    var inputTokens: nat
    var outputTokens: nat

    constructor (budget: Budget)
      ensures this.budget == budget && Value() == UNUSED
    {
      this.budget := budget;
      tokensUsed, modelCalls, toolCalls, costUsd, turns, inputTokens, outputTokens := 0, 0, 0, 0.0, 0, 0, 0;
    }

    function Value(): Usage
      reads this
    {
      Usage(tokensUsed, inputTokens, outputTokens, modelCalls, toolCalls, turns, costUsd)
    }

    predicate IsExhausted(elapsed: real)
      reads this
    {
      Exhausted(budget, Value(), elapsed)
    }

    method RecordModelCall(input: nat, output: nat, cost: real)
      modifies this
      ensures Value() == ModelCalled(old(Value()), Response(input, output, [])).(costUsd := old(costUsd) + cost)
    {
      modelCalls := modelCalls + 1;
      inputTokens := inputTokens + input;
      outputTokens := outputTokens + output;
      tokensUsed := tokensUsed + input + output;
      costUsd := costUsd + cost;
    }

    method RecordToolCall()
      modifies this`toolCalls
      ensures toolCalls == old(toolCalls) + 1
    {
      toolCalls := toolCalls + 1;
    }

    method RecordTurn()
      modifies this`turns
      ensures turns == old(turns) + 1
    {
      turns := turns + 1;
    }
  }

  method ExecuteTools(tracker: BudgetTracker, tools: seq<bool>)
    modifies tracker`toolCalls
    ensures tracker.toolCalls == old(tracker.toolCalls) + Returned(tools)
  {
    for i := 0 to |tools|
      invariant tracker.toolCalls == old(tracker.toolCalls) + Returned(tools[..i])
    {
      assert tools[..i + 1][..i] == tools[..i];
      if tools[i] {
        tracker.RecordToolCall();
      }
    }
    assert tools[..|tools|] == tools;
  }

  /** The body of the loop: the ending, if the round ends it. */
  method PlayRound(tracker: BudgetTracker, t: Turn, turn: nat) returns (ending: Option<Ending>)
    requires tracker.costUsd == 0.0
    modifies tracker
    ensures Play(tracker.budget, old(tracker.Value()), t, turn) ==
            if ending.Some? then Ends(ending.value, tracker.Value()) else GoesOn(tracker.Value())
    ensures tracker.costUsd == 0.0
  {
    if tracker.IsExhausted(t.elapsed) {
      return Some(BudgetExceeded(turn));
    }
    var response := t.first;
    if response.None? {
      response := t.second;
      if response.None? {
        return Some(ModelFailed(turn));
      }
    }
    tracker.RecordModelCall(response.value.input, response.value.output, 0.0);
    if WarningRaises(tracker.budget, tracker.Value(), t.atCall) {
      return Some(WarningRaised(turn));
    }
    tracker.RecordTurn();
    if WarningRaises(tracker.budget, tracker.Value(), t.atTurn) {
      return Some(WarningRaised(turn));
    }
    if response.value.tools == [] {
      return Some(Done(turn));
    }
    ExecuteTools(tracker, response.value.tools);
    if turn + 1 >= tracker.budget.maxTurns {
      return Some(TurnLimit(turn + 1));
    }
    return None;
  }

  /** `_execute_loop` on a machine that is not terminal; the loop itself never moves the machine. */
  method ExecuteLoop(tracker: BudgetTracker, world: nat -> Turn) returns (ending: Ending)
    requires tracker.Value() == UNUSED
    modifies tracker
    ensures Outcome(ending, tracker.Value()) == Loop(tracker.budget, UNUSED, world, 0)
    ensures AtEnd(tracker.budget, Outcome(ending, tracker.Value()), world)
  {
    LoopBounds(tracker.budget, world);
    var turn := 0;
    while true
      invariant tracker.costUsd == 0.0
      invariant Loop(tracker.budget, tracker.Value(), world, turn) == Loop(tracker.budget, UNUSED, world, 0)
      decreases Max(0, tracker.budget.maxTurns - tracker.turns)
    {
      var ended := PlayRound(tracker, world(turn), turn);
      if ended.Some? {
        return ended.value;
      }
      turn := turn + 1;
    }
  }
}
