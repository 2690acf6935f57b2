/**
  The goal that relates one object to a described location
  (`buildRelativeLiterals`), following chains of relative descriptions.
*/
module RelativeLiterals {
  import opened Outcomes
  import opened Parser
  import opened World
  import opened LiteralSets
  import opened ObjectMatcher

  /**
    The ambiguity check of the dialogue layer, left abstract: true when it
    accepts the matches found for an entity, false when it throws.
  */
  type AmbiguityGate = (Entity, seq<string>, WorldState) -> bool

  /** The positive binary literal `rel(a, b)`. */
  function Related(rel: string, a: string, b: string): Literal {
    Literal(true, rel, [a, b])
  }

  /** The description whose matches a location entity is anchored to: the base of a relative one. */
  function Anchor(desc: Object): Object {
    match desc
    case Relative(base, _) => base
    case Flat(_, _, _) => desc
  }

  /** One singleton conjunct `[rel(objectId, r)]` per referent `r`, in order. */
  function Alternatives(rel: string, objectId: string, refs: seq<string>): Goal {
    seq(|refs|, k requires 0 <= k < |refs| => [Related(rel, objectId, refs[k])])
  }

  /** The single conjunct relating `objectId` to every referent at once. */
  function Together(rel: string, objectId: string, refs: seq<string>): Conjunct {
    seq(|refs|, k requires 0 <= k < |refs| => Related(rel, objectId, refs[k]))
  }

  /** Every conjunct of `goal` with `lit` put in front. */
  function Prefixed(lit: Literal, goal: Goal): Goal {
    seq(|goal|, k requires 0 <= k < |goal| => [lit] + goal[k])
  }

  /**
    What `buildRelativeLiterals(objectId, location)` returns.  The location
    entity's anchor is matched by description only and passed to the gate.
    A relative anchor recurses into its own location for each match `r` and
    puts `rel(objectId, r)` in front of each of the resulting conjuncts; a flat
    one gives one conjunct per match, or under "all" a single conjunct with
    all of them.
  */
  function RelativeGoal(objectId: string, location: Location, world: WorldState, gate: AmbiguityGate): Result<Goal>
    decreases location, 0, 0
  {
    var matching := Described(Anchor(location.ent.obj), world);
    if !gate(location.ent, matching, world) then Failure(Ambiguous)
    else
      match location.ent.obj
      case Relative(_, nested) => Chain(objectId, location.rel, matching, |matching|, nested, world, gate)
      case Flat(_, _, _) =>
        if location.ent.quant != All then Success(Alternatives(location.rel, objectId, matching))
        else Success([Together(location.rel, objectId, matching)])
  }

  /** The concatenation, over the first `n` referents `r`, of the prefixed goals for `r` at `nested`. */
  function Chain(objectId: string, rel: string, refs: seq<string>, n: nat, nested: Location,
                 world: WorldState, gate: AmbiguityGate): Result<Goal>
    requires n <= |refs|
    decreases nested, 1, n
  {
    if n == 0 then Success([])
    else
      match Chain(objectId, rel, refs, n - 1, nested, world, gate)
      case Failure(e) => Failure(e)
      case Success(earlier) =>
        match RelativeGoal(refs[n - 1], nested, world, gate)
        case Failure(e) => Failure(e)
        case Success(sub) => Success(earlier + Prefixed(Related(rel, objectId, refs[n - 1]), sub))
  }

  /** Once a referent's goal fails, the whole chain fails with that error. */
  lemma {:induction false} ChainFailureSticks(objectId: string, rel: string, refs: seq<string>, m: nat, n: nat,
                                              nested: Location, world: WorldState, gate: AmbiguityGate)
    requires m <= n <= |refs|
    requires Chain(objectId, rel, refs, m, nested, world, gate).Failure?
    ensures Chain(objectId, rel, refs, n, nested, world, gate) == Chain(objectId, rel, refs, m, nested, world, gate)
  {
    if m < n {
      ChainFailureSticks(objectId, rel, refs, m, n - 1, nested, world, gate);
    }
  }

  /** The members of a prefixed goal are the prefixed members. */
  lemma PrefixedMembers(lit: Literal, goal: Goal)
    ensures forall c :: c in Prefixed(lit, goal) <==> c != [] && c[0] == lit && c[1..] in goal
  {
    forall c | c != [] && c[0] == lit && c[1..] in goal
      ensures c in Prefixed(lit, goal)
    {
      var k :| 0 <= k < |goal| && goal[k] == c[1..];
      assert Prefixed(lit, goal)[k] == c;
    }
  }

  /**
    A successful chain over the first `n` referents: every referent's own goal
    succeeds, and a conjunct belongs to the chain iff it is `rel(objectId, r)`
    followed by a conjunct of the goal of some referent `r`.
  */
  lemma {:induction false} ChainMembers(objectId: string, rel: string, refs: seq<string>, n: nat,
                                        nested: Location, world: WorldState, gate: AmbiguityGate)
    requires n <= |refs|
    requires Chain(objectId, rel, refs, n, nested, world, gate).Success?
    ensures forall k :: 0 <= k < n ==> RelativeGoal(refs[k], nested, world, gate).Success?
    ensures forall c :: c in Chain(objectId, rel, refs, n, nested, world, gate).value <==>
              exists k :: 0 <= k < n && RelativeGoal(refs[k], nested, world, gate).Success? &&
                c != [] && c[0] == Related(rel, objectId, refs[k]) && c[1..] in RelativeGoal(refs[k], nested, world, gate).value
  {
    if n > 0 {
      ChainMembers(objectId, rel, refs, n - 1, nested, world, gate);
      var sub := RelativeGoal(refs[n - 1], nested, world, gate).value;
      PrefixedMembers(Related(rel, objectId, refs[n - 1]), sub);
    }
  }

  /** `buildRelativeLiterals` fails only through the ambiguity gate. */
  lemma {:induction false} RelativeGoalErrors(objectId: string, location: Location, world: WorldState, gate: AmbiguityGate)
    ensures RelativeGoal(objectId, location, world, gate).Failure? ==>
              RelativeGoal(objectId, location, world, gate).error == Ambiguous
    decreases location, 0, 0
  {
    var matching := Described(Anchor(location.ent.obj), world);
    if location.ent.obj.Relative? {
      ChainErrors(objectId, location.rel, matching, |matching|, location.ent.obj.loc, world, gate);
    }
  }

  lemma {:induction false} ChainErrors(objectId: string, rel: string, refs: seq<string>, n: nat,
                                       nested: Location, world: WorldState, gate: AmbiguityGate)
    requires n <= |refs|
    ensures Chain(objectId, rel, refs, n, nested, world, gate).Failure? ==>
              Chain(objectId, rel, refs, n, nested, world, gate).error == Ambiguous
    decreases nested, 1, n
  {
    if n > 0 {
      ChainErrors(objectId, rel, refs, n - 1, nested, world, gate);
      RelativeGoalErrors(refs[n - 1], nested, world, gate);
    }
  }

  /**
    The three shapes of a successful goal, with `refs` the matches of the
    location entity's description: a flat location with "any" or "the" gives
    one singleton `[rel(objectId, r)]` per referent, in order; a flat one with
    "all" gives the single conjunct of all `rel(objectId, r)` (which is `[[]]`
    with no referents); a relative one gives exactly the conjuncts of the
    referents' own goals, each with `rel(objectId, r)` put in front.
  */
  lemma RelativeGoalShape(objectId: string, location: Location, world: WorldState, gate: AmbiguityGate)
    requires RelativeGoal(objectId, location, world, gate).Success?
    ensures gate(location.ent, Described(Anchor(location.ent.obj), world), world)
    ensures var refs, g := Described(location.ent.obj, world), RelativeGoal(objectId, location, world, gate).value;
            location.ent.obj.Flat? && location.ent.quant != All ==>
              |g| == |refs| && forall k :: 0 <= k < |refs| ==> g[k] == [Related(location.rel, objectId, refs[k])]
    ensures var refs, g := Described(location.ent.obj, world), RelativeGoal(objectId, location, world, gate).value;
            location.ent.obj.Flat? && location.ent.quant == All ==>
              |g| == 1 && |g[0]| == |refs| && forall k :: 0 <= k < |refs| ==> g[0][k] == Related(location.rel, objectId, refs[k])
    ensures location.ent.obj.Relative? ==>
              var refs, nested := Described(location.ent.obj.obj, world), location.ent.obj.loc;
              var g := RelativeGoal(objectId, location, world, gate).value;
              forall c :: c in g <==>
                exists k :: 0 <= k < |refs| && RelativeGoal(refs[k], nested, world, gate).Success? &&
                  c != [] && c[0] == Related(location.rel, objectId, refs[k]) && c[1..] in RelativeGoal(refs[k], nested, world, gate).value
  {
    if location.ent.obj.Relative? {
      var refs := Described(location.ent.obj.obj, world);
      ChainMembers(objectId, location.rel, refs, |refs|, location.ent.obj.loc, world, gate);
    }
  }

  /**
    Every conjunct relates `objectId` first: it begins with
    `rel(objectId, r)` for a referent `r` of the location's anchor, and only
    the flat "all" location without referents yields the empty conjunct.
  */
  lemma RelativeGoalLeads(objectId: string, location: Location, world: WorldState, gate: AmbiguityGate)
    requires RelativeGoal(objectId, location, world, gate).Success?
    ensures var refs := Described(Anchor(location.ent.obj), world);
            forall c :: c in RelativeGoal(objectId, location, world, gate).value ==>
              if c == [] then location.ent.obj.Flat? && location.ent.quant == All && refs == []
              else exists k :: 0 <= k < |refs| && c[0] == Related(location.rel, objectId, refs[k])
  {
    RelativeGoalShape(objectId, location, world, gate);
    var refs := Described(Anchor(location.ent.obj), world);
    var g := RelativeGoal(objectId, location, world, gate).value;
    if location.ent.obj.Flat? {
      forall c | c in g
        ensures if c == [] then location.ent.quant == All && refs == []
                else exists k :: 0 <= k < |refs| && c[0] == Related(location.rel, objectId, refs[k])
      {
        var i :| 0 <= i < |g| && g[i] == c;
        if location.ent.quant == All {
          if refs != [] {
            assert c[0] == Related(location.rel, objectId, refs[0]);
          }
        } else {
          assert c[0] == Related(location.rel, objectId, refs[i]);
        }
      }
    }
  }

  /**
    Whether `buildRelativeLiterals` succeeds and how many conjuncts it gives
    depend on the location alone, not on the object related to it: the
    matched targets of one command all get goals of the same size.
  */
  lemma {:induction false} RelativeGoalUniform(a: string, b: string, location: Location, world: WorldState, gate: AmbiguityGate)
    ensures RelativeGoal(a, location, world, gate).Success? <==> RelativeGoal(b, location, world, gate).Success?
    ensures RelativeGoal(a, location, world, gate).Success? ==>
              |RelativeGoal(a, location, world, gate).value| == |RelativeGoal(b, location, world, gate).value|
  {
    var matching := Described(Anchor(location.ent.obj), world);
    if location.ent.obj.Relative? {
      ChainUniform(a, b, location.rel, matching, |matching|, location.ent.obj.loc, world, gate);
    }
  }

  lemma {:induction false} ChainUniform(a: string, b: string, rel: string, refs: seq<string>, n: nat,
                                        nested: Location, world: WorldState, gate: AmbiguityGate)
    requires n <= |refs|
    ensures Chain(a, rel, refs, n, nested, world, gate).Success? <==> Chain(b, rel, refs, n, nested, world, gate).Success?
    ensures Chain(a, rel, refs, n, nested, world, gate).Success? ==>
              |Chain(a, rel, refs, n, nested, world, gate).value| == |Chain(b, rel, refs, n, nested, world, gate).value|
  {
    if n > 0 {
      ChainUniform(a, b, rel, refs, n - 1, nested, world, gate);
    }
  }

  method BuildRelativeLiterals(objectId: string, location: Location, world: WorldState, gate: AmbiguityGate)
    returns (r: Result<Goal>)
    requires world.WellFormed()
    ensures r == RelativeGoal(objectId, location, world, gate)
    decreases location
  {
    var matching: seq<string>;
    if location.ent.obj.Relative? {
      matching := FindObjectsByDescription(location.ent.obj.obj, world);
    } else {
      matching := FindObjectsByDescription(location.ent.obj, world);
    }
    if !gate(location.ent, matching, world) {
      return Failure(Ambiguous);
    }
    var result: Goal := [];
    if location.ent.obj.Relative? {
      var nested := location.ent.obj.loc;
      var i := 0;
      while i < |matching|
        invariant 0 <= i <= |matching|
        invariant Chain(objectId, location.rel, matching, i, nested, world, gate) == Success(result)
      {
        var built := BuildRelativeLiterals(matching[i], nested, world, gate);
        if built.Failure? {
          ChainFailureSticks(objectId, location.rel, matching, i + 1, |matching|, nested, world, gate);
          return Failure(built.error);
        }
        var lit := Related(location.rel, objectId, matching[i]);
        var literals := built.value;
        var j := 0;
        while j < |literals|
          invariant 0 <= j <= |literals| == |built.value|
          invariant forall k :: 0 <= k < j ==> literals[k] == [lit] + built.value[k]
          invariant forall k :: j <= k < |literals| ==> literals[k] == built.value[k]
        {
          literals := literals[j := [lit] + literals[j]];
          j := j + 1;
        }
        assert literals == Prefixed(lit, built.value);
        result := result + literals;
        i := i + 1;
      }
      return Success(result);
    } else {
      if location.ent.quant != All {
        var m := 0;
        while m < |matching|
          invariant 0 <= m <= |matching| && |result| == m
          invariant forall k :: 0 <= k < m ==> result[k] == [Related(location.rel, objectId, matching[k])]
        {
          result := result + [[Related(location.rel, objectId, matching[m])]];
          m := m + 1;
        }
        assert result == Alternatives(location.rel, objectId, matching);
      } else {
        var res: Conjunct := [];
        var m := 0;
        while m < |matching|
          invariant 0 <= m <= |matching| && |res| == m
          invariant forall k :: 0 <= k < m ==> res[k] == Related(location.rel, objectId, matching[k])
        {
          res := res + [Related(location.rel, objectId, matching[m])];
          m := m + 1;
        }
        assert res == Together(location.rel, objectId, matching);
        result := result + [res];
        assert result == [res];
      }
      assert location.ent.obj.Flat?;
      return Success(result);
    }
  }
}
