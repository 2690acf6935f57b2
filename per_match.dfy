/**
  The loop of `interpretCommand` over the matched target objects: the goal
  `buildRelativeLiterals` gives for each, stopping at the first failure, and
  their combination.
*/
module PerMatch {
  import opened Outcomes
  import opened Parser
  import opened World
  import opened LiteralSets
  import opened RelativeLiterals
  import opened Distribution

  /** The goals `buildRelativeLiterals` gives for the first `n` matches, stopping at the first failure. */
  function MatchGoals(matching: seq<string>, n: nat, loc: Location, world: WorldState, gate: AmbiguityGate): Result<seq<Goal>>
    requires n <= |matching|
  {
    if n == 0 then Success([])
    else
      match MatchGoals(matching, n - 1, loc, world, gate)
      case Failure(e) => Failure(e)
      case Success(goals) =>
        match RelativeGoal(matching[n - 1], loc, world, gate)
        case Failure(e) => Failure(e)
        case Success(g) => Success(goals + [g])
  }

  /** The goals built for each target relative to `loc`, crossed or concatenated; the first failure if any. */
  function CombinedGoal(targets: seq<string>, loc: Location, isAll: bool, world: WorldState, gate: AmbiguityGate): Result<Goal> {
    match MatchGoals(targets, |targets|, loc, world, gate)
    case Failure(e) => Failure(e)
    case Success(goals) => Success(Accumulated(isAll, goals))
  }

  lemma {:induction false} MatchGoalsFailureSticks(matching: seq<string>, m: nat, n: nat, loc: Location,
                                                   world: WorldState, gate: AmbiguityGate)
    requires m <= n <= |matching|
    requires MatchGoals(matching, m, loc, world, gate).Failure?
    ensures MatchGoals(matching, n, loc, world, gate) == MatchGoals(matching, m, loc, world, gate)
  {
    if m < n {
      MatchGoalsFailureSticks(matching, m, n - 1, loc, world, gate);
    }
  }

  /** A successful run holds exactly the goal of each match, in match order. */
  lemma {:induction false} MatchGoalsElements(matching: seq<string>, n: nat, loc: Location, world: WorldState, gate: AmbiguityGate)
    requires n <= |matching|
    requires MatchGoals(matching, n, loc, world, gate).Success?
    ensures |MatchGoals(matching, n, loc, world, gate).value| == n
    ensures forall i :: 0 <= i < n ==>
              RelativeGoal(matching[i], loc, world, gate) == Success(MatchGoals(matching, n, loc, world, gate).value[i])
  {
    if n > 0 {
      MatchGoalsElements(matching, n - 1, loc, world, gate);
    }
  }

  /** The run fails exactly when some match's goal fails, and then with the first such error. */
  lemma {:induction false} MatchGoalsFailure(matching: seq<string>, n: nat, loc: Location, world: WorldState, gate: AmbiguityGate)
    requires n <= |matching|
    ensures MatchGoals(matching, n, loc, world, gate).Failure? <==>
              exists i :: 0 <= i < n && RelativeGoal(matching[i], loc, world, gate).Failure?
    ensures MatchGoals(matching, n, loc, world, gate).Failure? ==>
              exists i :: 0 <= i < n && RelativeGoal(matching[i], loc, world, gate).Failure?
                && RelativeGoal(matching[i], loc, world, gate).error == MatchGoals(matching, n, loc, world, gate).error
                && forall i' :: 0 <= i' < i ==> RelativeGoal(matching[i'], loc, world, gate).Success?
  {
    if n > 0 {
      MatchGoalsFailure(matching, n - 1, loc, world, gate);
      if MatchGoals(matching, n - 1, loc, world, gate).Success? {
        MatchGoalsElements(matching, n - 1, loc, world, gate);
      }
    }
  }

  /**
    All matches get goals of the same size, so under "all" the accumulator
    is never emptied by one match and restarted by the next.
  */
  lemma MatchGoalsUniform(matching: seq<string>, loc: Location, world: WorldState, gate: AmbiguityGate)
    requires MatchGoals(matching, |matching|, loc, world, gate).Success?
    ensures var goals := MatchGoals(matching, |matching|, loc, world, gate).value;
            forall i, j :: 0 <= i < |goals| && 0 <= j < |goals| ==> |goals[i]| == |goals[j]|
  {
    MatchGoalsElements(matching, |matching|, loc, world, gate);
    forall i, j | 0 <= i < |matching| && 0 <= j < |matching|
      ensures |RelativeGoal(matching[i], loc, world, gate).value| == |RelativeGoal(matching[j], loc, world, gate).value|
    {
      RelativeGoalUniform(matching[i], matching[j], loc, world, gate);
    }
  }

  lemma MatchGoalsStep(matching: seq<string>, i: nat, loc: Location, world: WorldState, gate: AmbiguityGate,
                       goals: seq<Goal>, g: Goal)
    requires i < |matching|
    requires MatchGoals(matching, i, loc, world, gate) == Success(goals)
    requires RelativeGoal(matching[i], loc, world, gate) == Success(g)
    ensures MatchGoals(matching, i + 1, loc, world, gate) == Success(goals + [g])
  {
  }

  /** A failing match ends the run over the matches with its error. */
  lemma MatchGoalsStops(matching: seq<string>, i: nat, loc: Location, world: WorldState, gate: AmbiguityGate,
                        goals: seq<Goal>)
    requires i < |matching|
    requires MatchGoals(matching, i, loc, world, gate) == Success(goals)
    requires RelativeGoal(matching[i], loc, world, gate).Failure?
    ensures MatchGoals(matching, |matching|, loc, world, gate) == Failure(RelativeGoal(matching[i], loc, world, gate).error)
  {
    MatchGoalsFailureSticks(matching, i + 1, |matching|, loc, world, gate);
  }

  /** The loop of `interpretCommand` over the target objects, once a location is known. */
  method RelateEachMatch(targets: seq<string>, loc: Location, isAll: bool, state: WorldState, gate: AmbiguityGate)
    returns (r: Result<Goal>)
    requires state.WellFormed()
    ensures r == CombinedGoal(targets, loc, isAll, state, gate)
  {
    var literals: Goal := [];
    ghost var goals: seq<Goal> := [];
    var i := 0;
    while i < |targets|
      invariant 0 <= i <= |targets|
      invariant MatchGoals(targets, i, loc, state, gate) == Success(goals)
      invariant literals == Accumulated(isAll, goals)
    {
      var built := BuildRelativeLiterals(targets[i], loc, state, gate);
      if built.Failure? {
        MatchGoalsStops(targets, i, loc, state, gate, goals);
        return Failure(built.error);
      }
      var matchLiterals := built.value;
      MatchGoalsStep(targets, i, loc, state, gate, goals, matchLiterals);
      AccumulatedSnoc(isAll, goals, matchLiterals);
      if isAll {
        literals := CrossLiterals(literals, matchLiterals);
      } else {
        literals := literals + matchLiterals;
      }
      goals := goals + [matchLiterals];
      i := i + 1;
    }
    return Success(literals);
  }

  lemma {:induction false} MatchGoalsNoInterpretation(matching: seq<string>, n: nat, loc: Location, world: WorldState, gate: AmbiguityGate)
    requires n <= |matching|
    ensures MatchGoals(matching, n, loc, world, gate).Failure? ==> MatchGoals(matching, n, loc, world, gate).error == Ambiguous
  {
    if n > 0 {
      MatchGoalsNoInterpretation(matching, n - 1, loc, world, gate);
      RelativeGoalErrors(matching[n - 1], loc, world, gate);
    }
  }
}
