/**
  Worked examples on a small world: one white ball and two boxes, each on
  a stack of its own, with the arm empty or holding the ball.  The gate
  accepts every reference, and the geometry says that the ball is inside
  the first box only.
*/
module Scenarios {
  import opened Outcomes
  import opened Parser
  import opened World
  import opened LiteralSets
  import opened ObjectMatcher
  import opened RelativeLiterals
  import opened Distribution
  import opened PerMatch
  import opened Interpreter

  function Objects(): map<string, ObjectDefinition> {
    map["b1" := ObjectDefinition("ball", "small", "white"),
        "x1" := ObjectDefinition("box", "large", "red"),
        "x2" := ObjectDefinition("box", "small", "blue")]
  }

  function Table(): WorldState {
    WorldState([["b1"], ["x1"], ["x2"]], None, Objects())
  }

  function Accept(e: Entity, m: seq<string>, w: WorldState): bool { true }

  function InFirstBox(a: string, rel: string, b: string, w: WorldState): bool {
    a == "b1" && rel == "inside" && b == "x1"
  }

  function Ball(): Object { Flat("ball", None, Some("white")) }
  function Box(): Object { Flat("box", Some(""), None) }

  /** `[id]` when `id` fits `desc` by its definition in `w`, else nothing. */
  function Pick(desc: Object, id: string, w: WorldState): seq<string> {
    if Passes(desc, id, w.objects) then [id] else []
  }

  /** The scan of three one-object stacks visits the held object, then the three in turn. */
  lemma ScanOfThree(desc: Object, w: WorldState)
    requires |w.stacks| == 3 && forall s :: 0 <= s < 3 ==> |w.stacks[s]| == 1
    ensures ScanMatches(desc, w, 3, 0)
         == HeldMatches(desc, w) + Pick(desc, w.stacks[0][0], w) + Pick(desc, w.stacks[1][0], w) + Pick(desc, w.stacks[2][0], w)
  {
    assert ScanMatches(desc, w, 1, 0) == HeldMatches(desc, w) + Pick(desc, w.stacks[0][0], w);
    assert ScanMatches(desc, w, 2, 0) == ScanMatches(desc, w, 1, 0) + Pick(desc, w.stacks[1][0], w);
    assert ScanMatches(desc, w, 3, 0) == ScanMatches(desc, w, 2, 0) + Pick(desc, w.stacks[2][0], w);
  }

  /** Both boxes are boxes, whatever the arm holds; "anyform" would find the ball too. */
  lemma BoxesAreFound(w: WorldState)
    requires w.stacks == Table().stacks && w.objects == Objects()
    requires !w.IsHolding() || w.holding.value == "b1"
    ensures Described(Box(), w) == ["x1", "x2"]
    ensures Described(Flat("box", None, None), w) == ["x1", "x2"]
  {
    ScanOfThree(Box(), w);
    ScanOfThree(Flat("box", None, None), w);
    assert Objects()["b1"].form == "ball" && Objects()["x1"].form == "box" && Objects()["x2"].form == "box";
  }

  /** Only the ball is white, and the floor is found as such. */
  lemma BallIsFound()
    ensures Described(Ball(), Table()) == ["b1"]
    ensures Described(Flat("floor", None, None), Table()) == ["floor"]
  {
    ScanOfThree(Ball(), Table());
    assert Objects()["b1"].form == "ball" && Objects()["x1"].form == "box" && Objects()["x2"].form == "box";
    assert Objects()["b1"].color == "white";
  }

  /** A command about the single white ball, with a location whose goal for the ball is `g`. */
  lemma SingleTarget(cmd: Command, w: WorldState, isRelativeMatch: RelativeMatch, gate: AmbiguityGate, g: Goal)
    requires cmd.ent.Some? && cmd.ent.value.quant == The && cmd.loc.Some?
    requires Referents(cmd.ent.value.obj, w, isRelativeMatch) == ["b1"] && gate(cmd.ent.value, ["b1"], w)
    requires RelativeGoal("b1", cmd.loc.value, w, gate) == Success(g)
    ensures CommandGoal(cmd, w, isRelativeMatch, gate) == Success(g)
  {
    assert MatchGoals(["b1"], 1, cmd.loc.value, w, gate) == Success([] + [g]);
    assert [] + [g] == [g];
    AccumulatedSnoc(false, [], g);
    assert [] + g == g;
  }

  /** "put the white ball inside a box": one alternative per box. */
  lemma BallInsideABox()
    ensures CommandGoal(Command(Some(Entity(The, Ball())), Some(Location("inside", Entity(Any, Box())))),
                        Table(), InFirstBox, Accept)
         == Success([[Related("inside", "b1", "x1")], [Related("inside", "b1", "x2")]])
  {
    BoxesAreFound(Table());
    BallIsFound();
    var loc := Location("inside", Entity(Any, Box()));
    var g := [[Related("inside", "b1", "x1")], [Related("inside", "b1", "x2")]];
    assert Alternatives("inside", "b1", ["x1", "x2"]) == g;
    assert RelativeGoal("b1", loc, Table(), Accept) == Success(g);
    SingleTarget(Command(Some(Entity(The, Ball())), Some(loc)), Table(), InFirstBox, Accept, g);
  }

  /** "put the white ball inside all boxes": one conjunct naming both boxes. */
  lemma BallInsideAllBoxes()
    ensures CommandGoal(Command(Some(Entity(The, Ball())), Some(Location("inside", Entity(All, Box())))),
                        Table(), InFirstBox, Accept)
         == Success([[Related("inside", "b1", "x1"), Related("inside", "b1", "x2")]])
  {
    BoxesAreFound(Table());
    BallIsFound();
    var loc := Location("inside", Entity(All, Box()));
    var g := [[Related("inside", "b1", "x1"), Related("inside", "b1", "x2")]];
    assert Together("inside", "b1", ["x1", "x2"]) == g[0];
    assert RelativeGoal("b1", loc, Table(), Accept) == Success(g);
    SingleTarget(Command(Some(Entity(The, Ball())), Some(loc)), Table(), InFirstBox, Accept, g);
  }

  /** "take a box containing the white ball": only the first box qualifies. */
  lemma BoxContainingTheBall()
    ensures CommandGoal(Command(Some(Entity(Any, Relative(Flat("box", None, None), Location("containing", Entity(The, Ball()))))), None),
                        Table(), BallInBoxGeometry, Accept)
         == Success([[Holding("x1")]])
  {
    BoxesAreFound(Table());
    BallIsFound();
    var base := Flat("box", None, None);
    var loc := Location("containing", Entity(The, Ball()));
    assert Referents(Ball(), Table(), BallInBoxGeometry) == ["b1"];
    assert BallInBoxGeometry("x1", "containing", Referents(Ball(), Table(), BallInBoxGeometry)[0], Table());
    assert LocationHolds("x1", loc, Table(), BallInBoxGeometry);
    assert !LocationHolds("x2", loc, Table(), BallInBoxGeometry);
    assert Located(["x1", "x2"], 1, loc, Table(), BallInBoxGeometry) == ["x1"];
    assert Referents(Relative(base, loc), Table(), BallInBoxGeometry) == ["x1"];
    assert HoldingGoal(["x1"]) == [[Holding("x1")]];
  }

  function BallInBoxGeometry(a: string, rel: string, b: string, w: WorldState): bool {
    (a == "b1" && rel == "inside" && b == "x1") || (a == "x1" && rel == "containing" && b == "b1")
  }

  /** Each box, related to the white ball, has the one alternative of containing it. */
  lemma BoxGoals()
    ensures MatchGoals(["x1", "x2"], 2, Location("containing", Entity(Any, Ball())), Table(), Accept)
         == Success([[[Related("containing", "x1", "b1")]], [[Related("containing", "x2", "b1")]]])
  {
    BallIsFound();
    var loc := Location("containing", Entity(Any, Ball()));
    var c1, c2 := Related("containing", "x1", "b1"), Related("containing", "x2", "b1");
    assert Alternatives("containing", "x1", ["b1"]) == [[c1]];
    assert Alternatives("containing", "x2", ["b1"]) == [[c2]];
    var targets := ["x1", "x2"];
    assert targets[0] == "x1" && targets[1] == "x2";
    assert MatchGoals(targets, 1, loc, Table(), Accept) == Success([] + [[[c1]]]);
    assert [] + [[[c1]]] == [[[c1]]];
    assert MatchGoals(targets, 2, loc, Table(), Accept) == Success([[[c1]]] + [[[c2]]]);
    assert [[[c1]]] + [[[c2]]] == [[[c1]], [[c2]]];
  }

  /** Crossing the two boxes' goals merges their literals into one conjunct. */
  lemma BoxesCrossed()
    ensures var c1, c2 := Related("containing", "x1", "b1"), Related("containing", "x2", "b1");
            Accumulated(true, [[[c1]], [[c2]]]) == [[c1, c2]]
  {
    var c1, c2 := Related("containing", "x1", "b1"), Related("containing", "x2", "b1");
    AccumulatedSnoc(true, [], [[c1]]);
    assert [] + [[[c1]]] == [[[c1]]];
    AccumulatedSnoc(true, [[[c1]]], [[c2]]);
    assert [[[c1]]] + [[[c2]]] == [[[c1]], [[c2]]];
    assert Deduped([c1, c2]) == [c1, c2] by {
      assert c1.args[0] != c2.args[0];
      DedupedOfDistinct([c1, c2]);
    }
    assert [c1] + [c2] == [c1, c2];
    assert Candidate([[c1]], [[c2]], 0, 0) == [c1, c2];
    assert !SomeContainsAll([], [c1, c2]);
    assert KeptUpTo([[c1]], [[c2]], 0, 1) == [[c1, c2]];
    assert Combined([[c1]], [[c2]]) == KeptUpTo([[c1]], [[c2]], 1, 0);
  }

  /** "put all boxes so that they contain a ball": one conjunct in which each box contains the ball. */
  lemma EveryBoxContainsTheBall()
    ensures CommandGoal(Command(Some(Entity(All, Box())), Some(Location("containing", Entity(Any, Ball())))),
                        Table(), InFirstBox, Accept)
         == Success([[Related("containing", "x1", "b1"), Related("containing", "x2", "b1")]])
  {
    BoxesAreFound(Table());
    BoxGoals();
    BoxesCrossed();
  }

  /** "put a ball inside all boxes" is read as "all boxes containing a ball". */
  lemma BallInsideEveryBox()
    ensures CommandGoal(Command(Some(Entity(Any, Ball())), Some(Location("inside", Entity(All, Box())))),
                        Table(), InFirstBox, Accept)
         == Success([[Related("containing", "x1", "b1"), Related("containing", "x2", "b1")]])
  {
    BallIsFound();
    var cmd := Command(Some(Entity(Any, Ball())), Some(Location("inside", Entity(All, Box()))));
    assert Swap(cmd) == Command(Some(Entity(All, Box())), Some(Location("containing", Entity(Any, Ball()))));
    SwapPreservesGoal(cmd, Table(), InFirstBox, Accept);
    EveryBoxContainsTheBall();
  }

  /** With the ball in hand and no target, "put it inside a box" is about the ball. */
  lemma HeldBallInsideABox()
    ensures CommandGoal(Command(None, Some(Location("inside", Entity(Any, Box())))),
                        Table().(holding := Some("b1")), InFirstBox, Accept)
         == Success([[Related("inside", "b1", "x1")], [Related("inside", "b1", "x2")]])
  {
    var w := Table().(holding := Some("b1"));
    var loc := Location("inside", Entity(Any, Box()));
    BoxesAreFound(w);
    assert Alternatives("inside", "b1", ["x1", "x2"]) == [[Related("inside", "b1", "x1")], [Related("inside", "b1", "x2")]];
    assert RelativeGoal("b1", loc, w, Accept) == Success([[Related("inside", "b1", "x1")], [Related("inside", "b1", "x2")]]);
    NoTargetMeansHeldObject(Command(None, Some(loc)), w, InFirstBox, Accept);
  }

  /** With nothing held and no target, there is nothing to refer to. */
  lemma NothingToReferTo()
    ensures CommandGoal(Command(None, None), Table(), InFirstBox, Accept) == Failure(NoReferent)
    ensures Interpretations([ParseResult("take it", Command(None, None))], Table(), InFirstBox, Accept) == Failure(NoReferent)
    ensures Interpretations([], Table(), InFirstBox, Accept) == Failure(NoInterpretation)
  {
    assert InterpretedUpTo([ParseResult("take it", Command(None, None))], 1, Table(), InFirstBox, Accept) == Failure(NoReferent);
  }
}
