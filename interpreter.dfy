/**
  The entry points: `interpretCommand` turns one parsed command into a goal
  in disjunctive normal form, and `interpret` does so for every parse.
*/
module Interpreter {
  import opened Outcomes
  import opened Parser
  import opened World
  import opened RelationAlgebra
  import opened LiteralSets
  import opened ObjectMatcher
  import opened RelativeLiterals
  import opened Distribution
  import opened PerMatch

  /** A parse together with the goal found for it (`Interpreter.Result`). */
  datatype Interpretation = Interpretation(input: string, prs: Command, intp: Goal)

  /** The literal `holding(id)`. */
  function Holding(id: string): Literal {
    Literal(true, "holding", [id])
  }

  /** One singleton conjunct `[holding(m)]` per match, in order. */
  function HoldingGoal(matching: seq<string>): Goal {
    seq(|matching|, i requires 0 <= i < |matching| => [Holding(matching[i])])
  }

  /** "any X <rel> all Y": the command the code rewrites before interpreting it. */
  predicate Swappable(cmd: Command) {
    && cmd.ent.Some? && cmd.ent.value.quant == Any
    && cmd.loc.Some? && cmd.loc.value.ent.quant == All
  }

  /**
    The rewrite of "any X <rel> all Y" into "all Y <reversed rel> any X": the
    quantifiers become "all" and "any", the descriptions change places and
    the relation is reversed.
  */
  function Swap(cmd: Command): Command
    requires Swappable(cmd)
  {
    var ent, loc := cmd.ent.value, cmd.loc.value;
    Command(Some(Entity(All, loc.ent.obj)), Some(Location(ReverseRelation(loc.rel), Entity(Any, ent.obj))))
  }

  /** The command as it stands once `interpretCommand` has returned: it rewrites its argument in place. */
  function Rewritten(cmd: Command): Command {
    if Swappable(cmd) then Swap(cmd) else cmd
  }

  /**
    The objects the command is about: the target entity's referents, else the
    held object, else none at all (the code leaves `matching` undefined).
  */
  function Targets(cmd: Command, world: WorldState, isRelativeMatch: RelativeMatch): Option<seq<string>> {
    if cmd.ent.Some? then Some(Referents(cmd.ent.value.obj, world, isRelativeMatch))
    else if world.IsHolding() then Some([world.holding.value])
    else None
  }

  /** Under a target quantified by "all" the per-match goals are crossed, otherwise concatenated. */
  predicate IsUniversal(cmd: Command) {
    cmd.ent.Some? && cmd.ent.value.quant == All
  }

  /**
    What `interpretCommand` returns.  The target's referents go through the
    ambiguity gate first.  Without a location the goal is to hold one of the
    matches; "any X <rel> all Y" is interpreted as its swap; otherwise the
    goals built for each match relative to the location are combined.
  */
  function CommandGoal(cmd: Command, world: WorldState, isRelativeMatch: RelativeMatch, gate: AmbiguityGate): Result<Goal>
    decreases if Swappable(cmd) then 1 else 0
  {
    var matching := Targets(cmd, world, isRelativeMatch);
    if cmd.ent.Some? && !gate(cmd.ent.value, matching.value, world) then Failure(Ambiguous)
    else if cmd.loc.None? then
      if matching.None? then Failure(NoReferent) else Success(HoldingGoal(matching.value))
    else if Swappable(cmd) then CommandGoal(Swap(cmd), world, isRelativeMatch, gate)
    else if matching.None? then Failure(NoReferent)
    else CombinedGoal(matching.value, cmd.loc.value, IsUniversal(cmd), world, gate)
  }

  /** The rewrite settles after one step, swaps the descriptions and reverses the relation; a second swap would restore both. */
  lemma SwapSettles(cmd: Command)
    requires Swappable(cmd)
    ensures !Swappable(Swap(cmd))
    ensures Swap(cmd).ent.value.quant == All && Swap(cmd).loc.value.ent.quant == Any
    ensures Swap(cmd).ent.value.obj == cmd.loc.value.ent.obj && Swap(cmd).loc.value.ent.obj == cmd.ent.value.obj
    ensures Swap(cmd).loc.value.rel == ReverseRelation(cmd.loc.value.rel)
    ensures ReverseRelation(Swap(cmd).loc.value.rel) == cmd.loc.value.rel
  {
    ReverseIsInvolution(cmd.loc.value.rel);
  }

  /** "any X <rel> all Y" means what "all Y <reversed rel> any X" means, once X passes the gate. */
  lemma SwapPreservesGoal(cmd: Command, world: WorldState, isRelativeMatch: RelativeMatch, gate: AmbiguityGate)
    requires Swappable(cmd)
    requires gate(cmd.ent.value, Referents(cmd.ent.value.obj, world, isRelativeMatch), world)
    ensures CommandGoal(cmd, world, isRelativeMatch, gate) == CommandGoal(Swap(cmd), world, isRelativeMatch, gate)
    ensures CommandGoal(cmd, world, isRelativeMatch, gate).Success? ==>
              CommandGoal(cmd, world, isRelativeMatch, gate).value ==
              Accumulated(true, MatchGoals(Referents(cmd.loc.value.ent.obj, world, isRelativeMatch),
                                           |Referents(cmd.loc.value.ent.obj, world, isRelativeMatch)|,
                                           Swap(cmd).loc.value, world, gate).value)
  {
  }

  /**
    Without a location the goal is to hold one of the matches: one conjunct
    `[holding(m)]` per match, in order; with neither a target nor a held
    object there is nothing to refer to.
  */
  lemma NoLocationMeansHolding(cmd: Command, world: WorldState, isRelativeMatch: RelativeMatch, gate: AmbiguityGate)
    requires cmd.loc.None?
    ensures cmd.ent.None? && !world.IsHolding() ==> CommandGoal(cmd, world, isRelativeMatch, gate) == Failure(NoReferent)
    ensures cmd.ent.None? && world.IsHolding() ==>
              CommandGoal(cmd, world, isRelativeMatch, gate) == Success([[Holding(world.holding.value)]])
    ensures cmd.ent.Some? ==>
              var refs := Referents(cmd.ent.value.obj, world, isRelativeMatch);
              CommandGoal(cmd, world, isRelativeMatch, gate) ==
              if gate(cmd.ent.value, refs, world) then Success(HoldingGoal(refs)) else Failure(Ambiguous)
    ensures CommandGoal(cmd, world, isRelativeMatch, gate).Success? ==>
              var g := CommandGoal(cmd, world, isRelativeMatch, gate).value;
              |g| == |Targets(cmd, world, isRelativeMatch).value| &&
              forall i :: 0 <= i < |g| ==> g[i] == [Literal(true, "holding", [Targets(cmd, world, isRelativeMatch).value[i]])]
  {
    if cmd.ent.None? && world.IsHolding() {
      assert HoldingGoal([world.holding.value]) == [[Holding(world.holding.value)]];
    }
  }

  /**
    A command with a location but no target entity is about the held object
    alone: its goal is the one `buildRelativeLiterals` gives for it, even
    though the location entity's quantifier may be "all".
  */
  lemma NoTargetMeansHeldObject(cmd: Command, world: WorldState, isRelativeMatch: RelativeMatch, gate: AmbiguityGate)
    requires cmd.ent.None? && cmd.loc.Some?
    ensures !world.IsHolding() ==> CommandGoal(cmd, world, isRelativeMatch, gate) == Failure(NoReferent)
    ensures world.IsHolding() ==>
              CommandGoal(cmd, world, isRelativeMatch, gate) == RelativeGoal(world.holding.value, cmd.loc.value, world, gate)
  {
    if world.IsHolding() {
      var m := [world.holding.value];
      var loc := cmd.loc.value;
      match RelativeGoal(world.holding.value, loc, world, gate)
      case Failure(e) =>
        assert MatchGoals(m, 1, loc, world, gate) == Failure(e);
      case Success(g) =>
        assert MatchGoals(m, 1, loc, world, gate) == Success([] + [g]);
        assert [] + [g] == [g];
        AccumulatedSnoc(false, [], g);
        assert [] + g == g;
    }
  }

  /**
    Under a target that is not "all" (including a missing one), the goal is
    the in-order concatenation of the goals built for each match.
  */
  lemma NonUniversalConcatenates(cmd: Command, world: WorldState, isRelativeMatch: RelativeMatch, gate: AmbiguityGate)
    requires cmd.loc.Some? && !Swappable(cmd) && !IsUniversal(cmd)
    requires CommandGoal(cmd, world, isRelativeMatch, gate).Success?
    ensures var matching := Targets(cmd, world, isRelativeMatch).value;
            var goals := MatchGoals(matching, |matching|, cmd.loc.value, world, gate).value;
            |goals| == |matching| &&
            (forall i :: 0 <= i < |matching| ==> RelativeGoal(matching[i], cmd.loc.value, world, gate) == Success(goals[i])) &&
            CommandGoal(cmd, world, isRelativeMatch, gate).value == Concat(goals)
  {
    var matching := Targets(cmd, world, isRelativeMatch).value;
    MatchGoalsElements(matching, |matching|, cmd.loc.value, world, gate);
    AccumulatedAnyIsConcat(MatchGoals(matching, |matching|, cmd.loc.value, world, gate).value);
  }

  /** Under an "all" target that the swap leaves alone, the per-match goals are crossed. */
  lemma UniversalCrosses(cmd: Command, world: WorldState, isRelativeMatch: RelativeMatch, gate: AmbiguityGate)
    requires cmd.loc.Some? && IsUniversal(cmd)
    requires CommandGoal(cmd, world, isRelativeMatch, gate).Success?
    ensures var matching := Referents(cmd.ent.value.obj, world, isRelativeMatch);
            var goals := MatchGoals(matching, |matching|, cmd.loc.value, world, gate);
            goals.Success? && CommandGoal(cmd, world, isRelativeMatch, gate).value == Accumulated(true, goals.value)
  {
  }

  /**
    Under an "all" target, when every match has at least one alternative and
    no alternative is empty, every conjunct of the goal contains all the
    literals of one alternative built for each match: one conjunct fulfils
    the command for every target object at once.
  */
  lemma UniversalCoversEveryMatch(cmd: Command, world: WorldState, isRelativeMatch: RelativeMatch, gate: AmbiguityGate)
    requires cmd.loc.Some? && IsUniversal(cmd)
    requires CommandGoal(cmd, world, isRelativeMatch, gate).Success?
    requires forall m :: m in Referents(cmd.ent.value.obj, world, isRelativeMatch) ==>
               RelativeGoal(m, cmd.loc.value, world, gate).Success? && RelativeGoal(m, cmd.loc.value, world, gate).value != [] &&
               forall c :: c in RelativeGoal(m, cmd.loc.value, world, gate).value ==> c != []
    ensures Referents(cmd.ent.value.obj, world, isRelativeMatch) != [] ==> CommandGoal(cmd, world, isRelativeMatch, gate).value != []
    ensures forall c, m :: c in CommandGoal(cmd, world, isRelativeMatch, gate).value && m in Referents(cmd.ent.value.obj, world, isRelativeMatch) ==>
              c != [] && exists a :: a in RelativeGoal(m, cmd.loc.value, world, gate).value && ContainsAll(c, a)
  {
    var matching := Referents(cmd.ent.value.obj, world, isRelativeMatch);
    var loc := cmd.loc.value;
    UniversalCrosses(cmd, world, isRelativeMatch, gate);
    var goals := MatchGoals(matching, |matching|, loc, world, gate).value;
    var g := CommandGoal(cmd, world, isRelativeMatch, gate).value;
    assert g == Accumulated(true, goals);
    MatchGoalsElements(matching, |matching|, loc, world, gate);
    assert forall i :: 0 <= i < |goals| ==> RelativeGoal(matching[i], loc, world, gate) == Success(goals[i]);
    forall i | 0 <= i < |goals|
      ensures goals[i] != [] && forall c :: c in goals[i] ==> c != []
    {
      assert matching[i] in matching;
    }
    UniversalSatisfiesEveryMatch(goals);
    forall c, m | c in g && m in matching
      ensures c != [] && exists a :: a in RelativeGoal(m, loc, world, gate).value && ContainsAll(c, a)
    {
      var i :| 0 <= i < |matching| && matching[i] == m;
      assert MeetsEvery(c, goals);
      assert MeetsOne(c, goals[i]);
    }
  }

  method InterpretCommand(cmd: Command, state: WorldState, isRelativeMatch: RelativeMatch, gate: AmbiguityGate)
    returns (r: Result<Goal>, rewritten: Command)
    requires state.WellFormed()
    ensures r == CommandGoal(cmd, state, isRelativeMatch, gate)
    ensures r.Success? ==> rewritten == Rewritten(cmd)
    decreases if Swappable(cmd) then 1 else 0
  {
    rewritten := cmd;
    var matching: Option<seq<string>> := None;
    if cmd.ent.Some? {
      var found := FindObjects(cmd.ent.value.obj, state, isRelativeMatch);
      if !gate(cmd.ent.value, found, state) {
        return Failure(Ambiguous), rewritten;
      }
      matching := Some(found);
    } else if state.IsHolding() {
      matching := Some([state.holding.value]);
    }

    var literals: Goal := [];

    if cmd.loc.None? {
      if matching.None? {
        return Failure(NoReferent), rewritten;
      }
      var i := 0;
      while i < |matching.value|
        invariant 0 <= i <= |matching.value| && |literals| == i
        invariant forall k :: 0 <= k < i ==> literals[k] == [Holding(matching.value[k])]
      {
        literals := literals + [[Holding(matching.value[i])]];
        i := i + 1;
      }
      assert literals == HoldingGoal(matching.value);
      return Success(literals), rewritten;
    }

    if Swappable(cmd) {
      SwapSettles(cmd);
      rewritten := Swap(cmd);
      var swapped, _ := InterpretCommand(rewritten, state, isRelativeMatch, gate);
      return swapped, rewritten;
    }

    if matching.None? {
      return Failure(NoReferent), rewritten;
    }
    r := RelateEachMatch(matching.value, cmd.loc.value, IsUniversal(cmd), state, gate);
  }

  /** What `interpret` builds from the first `n` parses, stopping at the first error. */
  function InterpretedUpTo(parses: seq<ParseResult>, n: nat, world: WorldState,
                           isRelativeMatch: RelativeMatch, gate: AmbiguityGate): Result<seq<Interpretation>>
    requires n <= |parses|
  {
    if n == 0 then Success([])
    else
      match InterpretedUpTo(parses, n - 1, world, isRelativeMatch, gate)
      case Failure(e) => Failure(e)
      case Success(done) =>
        var parse := parses[n - 1];
        match CommandGoal(parse.prs, world, isRelativeMatch, gate)
        case Failure(e) => Failure(e)
        case Success(g) => Success(done + [Interpretation(parse.input, Rewritten(parse.prs), g)])
  }

  /**
    What `interpret` returns: an interpretation for every parse, with empty
    goals kept; the first error from any parse; or no interpretation at all
    when there are no parses.
  */
  function Interpretations(parses: seq<ParseResult>, world: WorldState,
                           isRelativeMatch: RelativeMatch, gate: AmbiguityGate): Result<seq<Interpretation>>
  {
    match InterpretedUpTo(parses, |parses|, world, isRelativeMatch, gate)
    case Failure(e) => Failure(e)
    case Success(done) => if |done| > 0 then Success(done) else Failure(NoInterpretation)
  }

  lemma {:induction false} InterpretedFailureSticks(parses: seq<ParseResult>, m: nat, n: nat, world: WorldState,
                                                    isRelativeMatch: RelativeMatch, gate: AmbiguityGate)
    requires m <= n <= |parses|
    requires InterpretedUpTo(parses, m, world, isRelativeMatch, gate).Failure?
    ensures InterpretedUpTo(parses, n, world, isRelativeMatch, gate) == InterpretedUpTo(parses, m, world, isRelativeMatch, gate)
  {
    if m < n {
      InterpretedFailureSticks(parses, m, n - 1, world, isRelativeMatch, gate);
    }
  }

  /** A successful run keeps one interpretation per parse, in order, empty goals included. */
  lemma {:induction false} InterpretedElements(parses: seq<ParseResult>, n: nat, world: WorldState,
                                               isRelativeMatch: RelativeMatch, gate: AmbiguityGate)
    requires n <= |parses|
    requires InterpretedUpTo(parses, n, world, isRelativeMatch, gate).Success?
    ensures var done := InterpretedUpTo(parses, n, world, isRelativeMatch, gate).value;
            |done| == n &&
            forall i :: 0 <= i < n ==>
              CommandGoal(parses[i].prs, world, isRelativeMatch, gate) == Success(done[i].intp)
              && done[i].input == parses[i].input && done[i].prs == Rewritten(parses[i].prs)
  {
    if n > 0 {
      InterpretedElements(parses, n - 1, world, isRelativeMatch, gate);
    }
  }

  /** A run without an error reaches every parse. */
  lemma {:induction false} InterpretedSucceeds(parses: seq<ParseResult>, n: nat, world: WorldState,
                                               isRelativeMatch: RelativeMatch, gate: AmbiguityGate)
    requires n <= |parses|
    requires forall i :: 0 <= i < n ==> CommandGoal(parses[i].prs, world, isRelativeMatch, gate).Success?
    ensures InterpretedUpTo(parses, n, world, isRelativeMatch, gate).Success?
  {
    if n > 0 {
      InterpretedSucceeds(parses, n - 1, world, isRelativeMatch, gate);
    }
  }

  /**
    `interpret` succeeds iff there is at least one parse and every parse can
    be interpreted; then it keeps every parse, in order, even one whose goal
    is empty.  "Found no interpretation" is raised only for an empty list.
  */
  lemma InterpretKeepsEveryParse(parses: seq<ParseResult>, world: WorldState,
                                 isRelativeMatch: RelativeMatch, gate: AmbiguityGate)
    ensures Interpretations(parses, world, isRelativeMatch, gate).Success? <==>
              parses != [] && forall i :: 0 <= i < |parses| ==> CommandGoal(parses[i].prs, world, isRelativeMatch, gate).Success?
    ensures Interpretations(parses, world, isRelativeMatch, gate) == Failure(NoInterpretation) <==> parses == []
    ensures Interpretations(parses, world, isRelativeMatch, gate).Success? ==>
              var done := Interpretations(parses, world, isRelativeMatch, gate).value;
              |done| == |parses| &&
              forall i :: 0 <= i < |parses| ==>
                CommandGoal(parses[i].prs, world, isRelativeMatch, gate) == Success(done[i].intp)
                && done[i].input == parses[i].input && done[i].prs == Rewritten(parses[i].prs)
  {
    var run := InterpretedUpTo(parses, |parses|, world, isRelativeMatch, gate);
    if run.Success? {
      InterpretedElements(parses, |parses|, world, isRelativeMatch, gate);
    } else {
      InterpretNoParseError(parses, |parses|, world, isRelativeMatch, gate);
    }
    if forall i :: 0 <= i < |parses| ==> CommandGoal(parses[i].prs, world, isRelativeMatch, gate).Success? {
      InterpretedSucceeds(parses, |parses|, world, isRelativeMatch, gate);
    }
  }

  /** A failed run fails with the error of some parse, never with "no interpretation". */
  lemma {:induction false} InterpretNoParseError(parses: seq<ParseResult>, n: nat, world: WorldState,
                                                 isRelativeMatch: RelativeMatch, gate: AmbiguityGate)
    requires n <= |parses|
    requires InterpretedUpTo(parses, n, world, isRelativeMatch, gate).Failure?
    ensures exists i :: 0 <= i < n && CommandGoal(parses[i].prs, world, isRelativeMatch, gate).Failure? &&
              CommandGoal(parses[i].prs, world, isRelativeMatch, gate).error == InterpretedUpTo(parses, n, world, isRelativeMatch, gate).error
    ensures InterpretedUpTo(parses, n, world, isRelativeMatch, gate).error != NoInterpretation
  {
    if InterpretedUpTo(parses, n - 1, world, isRelativeMatch, gate).Failure? {
      InterpretNoParseError(parses, n - 1, world, isRelativeMatch, gate);
    }
    CommandGoalErrors(parses[n - 1 ].prs, world, isRelativeMatch, gate);
  }

  /** `interpretCommand` fails only through the gate or for want of a referent. */
  lemma CommandGoalErrors(cmd: Command, world: WorldState, isRelativeMatch: RelativeMatch, gate: AmbiguityGate)
    ensures CommandGoal(cmd, world, isRelativeMatch, gate).Failure? ==>
              CommandGoal(cmd, world, isRelativeMatch, gate).error != NoInterpretation
    decreases if Swappable(cmd) then 1 else 0
  {
    if Swappable(cmd) && cmd.loc.Some? {
      SwapSettles(cmd);
      CommandGoalErrors(Swap(cmd), world, isRelativeMatch, gate);
    }
    var matching := Targets(cmd, world, isRelativeMatch);
    if cmd.loc.Some? && !Swappable(cmd) && matching.Some? {
      MatchGoalsNoInterpretation(matching.value, |matching.value|, cmd.loc.value, world, gate);
    }
  }

  lemma InterpretedStep(parses: seq<ParseResult>, i: nat, world: WorldState, isRelativeMatch: RelativeMatch,
                        gate: AmbiguityGate, done: seq<Interpretation>, g: Goal)
    requires i < |parses|
    requires InterpretedUpTo(parses, i, world, isRelativeMatch, gate) == Success(done)
    requires CommandGoal(parses[i].prs, world, isRelativeMatch, gate) == Success(g)
    ensures InterpretedUpTo(parses, i + 1, world, isRelativeMatch, gate)
         == Success(done + [Interpretation(parses[i].input, Rewritten(parses[i].prs), g)])
  {
  }

  /** A failing reading ends the run with its error. */
  lemma InterpretedStops(parses: seq<ParseResult>, i: nat, world: WorldState, isRelativeMatch: RelativeMatch,
                         gate: AmbiguityGate, done: seq<Interpretation>)
    requires i < |parses|
    requires InterpretedUpTo(parses, i, world, isRelativeMatch, gate) == Success(done)
    requires CommandGoal(parses[i].prs, world, isRelativeMatch, gate).Failure?
    ensures Interpretations(parses, world, isRelativeMatch, gate) == Failure(CommandGoal(parses[i].prs, world, isRelativeMatch, gate).error)
  {
    InterpretedFailureSticks(parses, i + 1, |parses|, world, isRelativeMatch, gate);
  }

  method Interpret(parses: seq<ParseResult>, currentState: WorldState, isRelativeMatch: RelativeMatch, gate: AmbiguityGate)
    returns (r: Result<seq<Interpretation>>)
    requires currentState.WellFormed()
    ensures r == Interpretations(parses, currentState, isRelativeMatch, gate)
  {
    var interpretations: seq<Interpretation> := [];
    var i := 0;
    while i < |parses|
      invariant 0 <= i <= |parses|
      invariant InterpretedUpTo(parses, i, currentState, isRelativeMatch, gate) == Success(interpretations)
    {
      var intp, prs := InterpretCommand(parses[i].prs, currentState, isRelativeMatch, gate);
      if intp.Failure? {
        InterpretedStops(parses, i, currentState, isRelativeMatch, gate, interpretations);
        return Failure(intp.error);
      }
      // An interpretation is kept even when its goal is empty: an empty array is truthy.
      InterpretedStep(parses, i, currentState, isRelativeMatch, gate, interpretations, intp.value);
      interpretations := interpretations + [Interpretation(parses[i].input, prs, intp.value)];
      i := i + 1;
    }
    if |interpretations| > 0 {
      return Success(interpretations);
    }
    return Failure(NoInterpretation);
  }
}
