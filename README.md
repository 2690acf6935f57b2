# Shrdlite interpreter in Dafny

This project models the interpreter of the shrdlite blocks-world dialogue system (`Interpreter.ts`).
The interpreter takes the parser's readings of a command ("put the white ball inside all boxes") and a snapshot of the world.
For each reading it builds a goal in disjunctive normal form: a list of conjuncts, each a list of literals such as `inside(b1,x1)`.
A planner can then pick any one conjunct to achieve.

The model follows the source's structure:

- `outcomes.dfy` defines `Option`, and `Result` with the three ways an attempt fails.
- `parser.dfy` defines the shapes of parsed commands: flat and relative object descriptions, locations, entities with the quantifiers "the", "any" and "all".
- `world.dfy` defines the world snapshot: stacks, the held object and the object definitions, plus the scan order of the matcher.
- `relation_algebra.dfy` has `reverseRelation`.
- `literal_sets.dfy` has literals and the list algebra: `stripDuplicates`, `listContainsObject`, `listContainsList` and `concatLiterals`.
- `object_matcher.dfy` has `findObjects`, `findObjectsByDescription`, `isMatchByDescription`, `findObjectsByLocation` and `isMatchByLocation`.
- `relative_literals.dfy` has `buildRelativeLiterals`, which follows chains of relative descriptions.
- `distribution.dfy` says how the goals for several matched objects are combined.
  Under "any" and "the" they are concatenated.
  Under "all" they are crossed: every earlier conjunct is merged with every new alternative, and merges already covered are dropped.
- `per_match.dfy` has the loop of `interpretCommand` over the matched targets: one goal per target, stopping at the first failure.
- `interpreter.dfy` has `interpretCommand`, including the any/all rewrite, and `interpret`.
- `formatter.dfy` has `interpretationToString` and `literalToString`.
  It also has a read-back parser for rendered literals (`Split`, `OpenParen`, `ParseBody`, `ParseLiteral`). The TypeScript code has no such parser; it exists only to prove that the rendering loses no information.
- `scenarios.dfy` works through concrete commands over a fixed world of one ball and two boxes.

Every loop of the source is a `method` with a `while` loop that is proved equal to a specification function.
The properties are proved about those functions.

Two collaborators are not part of this model and become function-typed parameters:

- `isRelativeMatch` is the world model's geometry test (`RelativeMatch`).
- `AmbiguityResolve.checkTheTheAmbiguity` is the ambiguity gate (`AmbiguityGate`). It returns false where the TypeScript code throws.

Exceptions become `Failure` results:

- `NoInterpretation` is the "Found no interpretation" error.
- `Ambiguous` is a rejection by the gate.
- `NoReferent` covers the case where there is no target entity and nothing is held. The code then reads `.length` of an undefined list.

The first failure aborts the whole batch, as in the code, which catches nothing.

Literals are compared structurally: two literals are the same when their sign, relation and arguments agree.
The TypeScript code compares them with `===`, which is object identity; "## Left out" says what that changes.

The model keeps these behaviours of the TypeScript code, which a reader might not expect:

- `interpret` keeps every reading, including one whose goal is empty, because an empty array is truthy in JavaScript. Only an empty list of readings gives "no interpretation".
- The any/all rewrite mutates the command in place, so the returned interpretation carries the rewritten command (`Rewritten`).
- The ambiguity gate is applied to the target and in `buildRelativeLiterals`. It is not applied inside `findObjectsByLocation`/`isMatchByLocation`.
- A relative description whose base is itself relative matches nothing, because a relative description has no form of its own. Both `findObjectsByLocation` (Interpreter.ts:280) and `buildRelativeLiterals` (Interpreter.ts:183) resolve the base by description only. So ((ball in box) on table) refers to no object.

## Model

| member | source | states |
|---|---|---|
| Interpreter.Interpret | Interpreter.ts:10-25 | The result equals `Interpretations`, the specification of `interpret`: one interpretation per reading in order, the first error from any reading, "no interpretation" for an empty list |
| Interpreter.InterpretKeepsEveryParse | Interpreter.ts:10-25 | Success iff there is at least one reading and every reading's command goal succeeds; "no interpretation" iff there is no reading; on success each reading is kept in order with its input, its rewritten command and its goal, empty goals included |
| Interpreter.InterpretNoParseError | Interpreter.ts:13-24 | A failed run fails with the error of some reading, never with "no interpretation" |
| Interpreter.InterpretedElements | Interpreter.ts:13-19 | A run without error holds exactly one interpretation per reading so far, carrying that reading's goal, input and rewritten command |
| Interpreter.InterpretedSucceeds | Interpreter.ts:13-19 | When every reading's goal succeeds, the whole run succeeds |
| Interpreter.InterpretedFailureSticks | Interpreter.ts:13-19 | Once a reading fails, the run keeps that failure for all later readings |
| Interpreter.InterpretCommand | Interpreter.ts:56-115 | The result equals `CommandGoal`; on success the returned command is the command as rewritten in place |
| PerMatch.RelateEachMatch | Interpreter.ts:87-114 | The loop over the matched targets returns the per-match goals of `buildRelativeLiterals`, crossed under "all" and concatenated otherwise, or the first failure |
| Interpreter.NoLocationMeansHolding | Interpreter.ts:57-72 | Without a location the goal is one conjunct `[holding(m)]` per match, in order; with a target it is gated; with no target the held object is the only match; with nothing held there is no referent |
| Interpreter.NoTargetMeansHeldObject | Interpreter.ts:61-63 | With a location but no target, the goal is the one built for the held object alone; with nothing held there is no referent |
| Interpreter.Swap | Interpreter.ts:74-83 | The rewritten command: target "all" with the location's description, location "any" with the target's description, relation reversed |
| Interpreter.Rewritten | Interpreter.ts:74-84 | The command as it stands after `interpretCommand` returns: swapped when it is "any X rel all Y", unchanged otherwise |
| Interpreter.SwapSettles | Interpreter.ts:74-83 | The rewrite makes the target "all" and the location "any", swaps the two descriptions and reverses the relation; it cannot fire twice, and reversing again restores the relation |
| Interpreter.SwapPreservesGoal | Interpreter.ts:74-85 | Once the target passes the gate, "any X rel all Y" has the goal of "all Y reversed-rel any X": the crossed per-match goals of the Y referents |
| Interpreter.NonUniversalConcatenates | Interpreter.ts:87-113 | Under a target that is not "all", each match's goal succeeds and the command goal is their in-order concatenation |
| Interpreter.UniversalCrosses | Interpreter.ts:87-113 | Under an "all" target with a location, every match's goal succeeds and the command goal is their crossed accumulation |
| Interpreter.UniversalCoversEveryMatch | Interpreter.ts:87-113 | Under an "all" target, when every match has a non-empty set of non-empty alternatives, the goal is non-empty and every conjunct contains all literals of some alternative for each matched object |
| Interpreter.CommandGoalErrors | Interpreter.ts:56-115 | `interpretCommand` fails only through the gate or for want of a referent, never with "no interpretation" |
| PerMatch.MatchGoalsElements | Interpreter.ts:87-89 | A successful run over the matches holds exactly each match's goal, in match order |
| PerMatch.MatchGoalsFailure | Interpreter.ts:87-89 | The run over the matches fails iff some match's goal fails, and then with the error of the first failing match |
| PerMatch.MatchGoalsUniform | Interpreter.ts:87-89 | All matches of one command get goals of the same size, so under "all" no match empties the accumulator while another restarts it |
| PerMatch.MatchGoalsFailureSticks | Interpreter.ts:87-89 | Once one match fails, the run over the matches keeps that failure |
| PerMatch.MatchGoalsNoInterpretation | Interpreter.ts:87-89 | The run over the matches can only fail as ambiguous |
| Interpreter.InterpretedStep | Interpreter.ts:13-18 | One successful reading extends the run by its interpretation |
| Distribution.CrossLiterals | Interpreter.ts:94-109 | The crossing loop returns `Combined`: the match's alternatives when nothing is accumulated, else the non-redundant merges in loop order |
| Distribution.CombinedCrossProduct | Interpreter.ts:94-109 | With a non-empty accumulator: each kept conjunct is `concatLiterals(prev[k], alts[j])`; every such merge is contained in a kept conjunct; no kept conjunct is contained in an earlier one; at most `|prev| * |alts|` are kept; some are kept when there are alternatives |
| Distribution.KeptFromCandidates | Interpreter.ts:100-107 | Every conjunct the loop keeps is one of the merges |
| Distribution.KeptCoversCandidates | Interpreter.ts:100-107 | Every merge the loop has met is contained in some kept conjunct |
| Distribution.KeptIrredundant | Interpreter.ts:104-106 | No kept conjunct has all its literals in an earlier kept one |
| Distribution.KeptLength | Interpreter.ts:100-107 | At most one conjunct is kept per merge met |
| Distribution.KeptNonEmpty | Interpreter.ts:100-107 | Once one merge has been met, something is kept |
| Distribution.AccumulatedAnyIsConcat | Interpreter.ts:110-112 | Without "all" the accumulated goal is the concatenation of the per-match goals |
| Distribution.AccumulatedAllRestarts | Interpreter.ts:96-99 | Under "all", an empty accumulator takes the next alternatives unchanged, and a match without alternatives empties it |
| Distribution.AccumulatedSnoc | Interpreter.ts:87-113 | One more match extends the accumulation by one step |
| Distribution.MergedMeetsEvery | Interpreter.ts:101-103 | Merging a conjunct that meets every earlier goal with an alternative gives a non-empty conjunct that also meets the new goal |
| Distribution.CombinedMeetsEvery | Interpreter.ts:94-109 | The "all" step keeps every conjunct non-empty and meeting every goal so far |
| Distribution.UniversalSatisfiesEveryMatch | Interpreter.ts:87-113 | Crossing goals that each have non-empty alternatives gives a non-empty goal whose every conjunct meets one alternative of every goal |
| Distribution.SomeContainsAllGrows | Interpreter.ts:104-106 | A conjunct covered by the kept list stays covered after a push |
| LiteralSets.ConcatLiterals | Interpreter.ts:120-131 | The result equals `Merged`: the duplicate-free union led by the first conjunct, or nothing when the first is empty |
| LiteralSets.MergedIsUnion | Interpreter.ts:120-131 | With a non-empty first conjunct the merge is duplicate-free, holds exactly the literals of both and extends the stripped first conjunct |
| LiteralSets.MergeStep | Interpreter.ts:122-129 | One step of the merging loop keeps the stripped accumulator equal to the stripped concatenation so far |
| LiteralSets.FirstRowStep | Interpreter.ts:122-129 | The same for the first row, where the second conjunct is still being appended |
| LiteralSets.StripDuplicates | Interpreter.ts:136-145 | The result equals `Deduped`, the list with repeated literals after the first occurrence removed |
| LiteralSets.DedupedMembers | Interpreter.ts:136-145 | Stripping keeps exactly the literals of the input |
| LiteralSets.DedupedDistinct | Interpreter.ts:136-145 | Stripping leaves no duplicate |
| LiteralSets.DedupedOfDistinct | Interpreter.ts:136-145 | A duplicate-free list is unchanged |
| LiteralSets.DedupedIdempotent | Interpreter.ts:136-145 | Stripping twice is stripping once |
| LiteralSets.DedupedKeepsFirstOccurrenceOrder | Interpreter.ts:136-145 | The kept literals appear in the order of their first occurrences in the input |
| LiteralSets.DedupedPrefix | Interpreter.ts:136-145 | Appending only extends the stripped list |
| LiteralSets.DedupedAbsorbs | Interpreter.ts:136-145 | Appending literals already present changes nothing |
| LiteralSets.DedupedOfDoubled | Interpreter.ts:136-145 | A list repeated twice strips to the list stripped once |
| LiteralSets.DedupedSnoc | Interpreter.ts:138-143 | One step: a literal is appended iff it is not yet kept |
| LiteralSets.DedupedSnocPresent | Interpreter.ts:139-142 | Appending a literal already present does not change the stripped list |
| LiteralSets.FirstIndex | Interpreter.ts:136-145 | The first position holding a literal present in the list |
| LiteralSets.FirstIndexUnique | Interpreter.ts:136-145 | A position with no earlier occurrence is the first index |
| LiteralSets.ListContainsObject | Interpreter.ts:150-157 | True iff the literal occurs in the list |
| LiteralSets.ListContainsList | Interpreter.ts:162-175 | True iff some conjunct of the list contains every literal of the given one: a subset test, not equality |
| RelativeLiterals.BuildRelativeLiterals | Interpreter.ts:180-217 | The result equals `RelativeGoal`, the specification of `buildRelativeLiterals` |
| RelativeLiterals.RelativeGoalShape | Interpreter.ts:180-217 | A successful result passed the gate and has one of three shapes: a flat "any"/"the" location gives one singleton `rel(obj, r)` per referent, in order; a flat "all" location gives the single conjunct of all of them; a relative location gives exactly each referent's own conjuncts with `rel(obj, r)` in front |
| RelativeLiterals.RelativeGoalLeads | Interpreter.ts:189-215 | Every conjunct begins with `rel(obj, r)` for a referent `r` of the location's anchor; only a flat "all" location without referents gives the empty conjunct |
| RelativeLiterals.ChainMembers | Interpreter.ts:191-200 | In a successful chain every referent's goal succeeds, and a conjunct is in it iff it is `rel(obj, r)` followed by a conjunct of some referent `r`'s goal |
| RelativeLiterals.ChainFailureSticks | Interpreter.ts:191-200 | Once one referent's goal fails, the chain keeps that failure |
| RelativeLiterals.PrefixedMembers | Interpreter.ts:194-196 | A conjunct is in the prefixed goal iff it is the literal followed by a conjunct of the goal |
| RelativeLiterals.RelativeGoalErrors | Interpreter.ts:180-217 | `buildRelativeLiterals` fails only through the gate |
| RelativeLiterals.RelativeGoalUniform | Interpreter.ts:180-217 | Whether the goal succeeds and how many conjuncts it has depend only on the location, not on the object related to it |
| RelativeLiterals.ChainUniform | Interpreter.ts:191-200 | The same for a chain over the location's referents |
| RelativeLiterals.ChainErrors | Interpreter.ts:191-200 | A chain fails only through the gate |
| ObjectMatcher.IsMatchByDescription | Interpreter.ts:260-273 | A definition fits a flat description when the form is "anyform" or equal, and each size or colour that is set and not "" is equal; a relative description fits nothing |
| ObjectMatcher.DescriptionWildcards | Interpreter.ts:260-273 | "anyform" with unset or empty size and colour fits every definition; a relative description fits none; a fit agrees with every set attribute and with a form other than "anyform" |
| ObjectMatcher.FindObjects | Interpreter.ts:222-228 | The result equals `Referents`: by location for a relative description, by description otherwise |
| ObjectMatcher.FindObjectsByDescription | Interpreter.ts:233-258 | The result equals `Described`: `["floor"]` for the floor, otherwise the matching objects of the scan |
| ObjectMatcher.DescribedFiltersScan | Interpreter.ts:233-273 | Off the floor the result is the scan (held object, then each stack bottom to top) filtered by the description: an id is returned iff the scan visits it and its definition fits, in scan order |
| ObjectMatcher.MatchingIdsAppend | Interpreter.ts:248-256 | Filtering distributes over concatenation, so the scan order is kept |
| ObjectMatcher.MatchingIdsMembers | Interpreter.ts:248-256 | An id passes the filter iff it is in the list and its definition fits |
| ObjectMatcher.MatchingPrefixMembers | Interpreter.ts:248-256 | The same for a prefix of the list |
| ObjectMatcher.MatchingPrefixOfPrefix | Interpreter.ts:248-256 | Filtering a prefix ignores what follows it |
| ObjectMatcher.ScanMatchesWithinStack | Interpreter.ts:249-255 | Within a stack, the scan adds the filtered prefix of that stack |
| ObjectMatcher.ScanMatchesFilterFlatten | Interpreter.ts:241-256 | Before stack `s`, the scan has met the held match and the filtered concatenation of stacks 0 to s-1 |
| ObjectMatcher.FindObjectsByLocation | Interpreter.ts:278-289 | The result equals `Referents` of the relative description: the base matches that satisfy the location, in order |
| ObjectMatcher.RelativeReferents | Interpreter.ts:278-289 | A relative referent is exactly a base match that satisfies the location; there are no more of them than base matches |
| ObjectMatcher.LocatedMembers | Interpreter.ts:282-287 | The location filter keeps exactly the ids that satisfy the location |
| ObjectMatcher.LocatedLength | Interpreter.ts:282-287 | The location filter never lengthens the list |
| ObjectMatcher.IsMatchByLocation | Interpreter.ts:291-313 | Under "all", true iff the object relates to every referent of the location entity (vacuously with none); otherwise true iff it relates to at least one |
| World.FlattenMembers | Interpreter.ts:248-250 | An id is in the concatenated stacks iff some stack holds it |
| World.FlattenPrefixSnoc | Interpreter.ts:248-250 | The concatenation of one more stack appends that stack |
| World.ScanDefined | Interpreter.ts:241-251 | In a well-formed world every object the scan visits has a definition |
| RelationAlgebra.ReverseRelation | Interpreter.ts:318-338 | The result is in the table iff the argument is; the result equals the argument iff the argument is not in the table |
| RelationAlgebra.ReverseIsInvolution | Interpreter.ts:318-338 | Reversing twice gives back any relation |
| RelationAlgebra.ReversePairs | Interpreter.ts:318-338 | The four pairs of the table, and an unknown relation is kept |
| Formatter.LiteralToString | Interpreter.ts:38-40 | "-" for a negative literal, then the relation, then the arguments joined by "," in parentheses |
| Formatter.ConjunctToString | Interpreter.ts:33-35 | The literals' renderings joined by " & " |
| Formatter.InterpretationToString | Interpreter.ts:32-36 | The conjuncts' renderings joined by " \| " |
| Formatter.ConjunctRendering | Interpreter.ts:34 | A one-literal conjunct renders as the literal; one more literal appends " & " and its rendering |
| Formatter.InterpretationRendering | Interpreter.ts:32-36 | A one-conjunct goal renders as the conjunct; one more conjunct appends " \| " and its rendering |
| Formatter.JoinSnoc | Interpreter.ts:34-35 | Joining one more part appends the separator and the part |
| Formatter.JoinLength | Interpreter.ts:32-40 | A join has every part once and one separator between neighbours |
| Formatter.SplitJoin | Interpreter.ts:38-40 | Helper of the read-back parser: the `join(",")` of the rendering, over pieces free of the separator, is undone by splitting at it |
| Formatter.SplitWithout | Interpreter.ts:38-40 | Helper of the read-back parser: a string without the separator splits into itself |
| Formatter.SplitAfterPiece | Interpreter.ts:38-40 | Helper of the read-back parser: splitting after a separator-free piece yields that piece first |
| Formatter.Split | Interpreter.ts:38-40 | Helper of the read-back parser (the code never splits): a split yields at least one piece |
| Formatter.OpenParen | Interpreter.ts:38-40 | Helper of the read-back parser: the position of the first '(' in the string, or its length when there is none |
| Formatter.OpenParenAfter | Interpreter.ts:38-40 | Helper of the read-back parser: in a rendering, the first '(' follows the relation name |
| Formatter.JoinEmpty | Interpreter.ts:38-40 | Joining non-empty parts gives the empty string iff there are none |
| Formatter.ParseBodyRendered | Interpreter.ts:38-40 | A rendered `rel(args)` reads back as that relation and those arguments |
| Formatter.RenderedSign | Interpreter.ts:38-40 | A literal renders as its sign, then `rel(args)`, which never starts with '-' |
| Formatter.ParseRendered | Interpreter.ts:38-40 | The rendering of a literal with a plain relation name and non-empty comma-free arguments reads back as that literal |
| Formatter.RenderingIsInjective | Interpreter.ts:38-40 | Two such literals that render alike are equal |
| Formatter.LiteralRendering | Interpreter.ts:38-40 | A negative literal renders with a leading '-', and a positive one as `rel(a,b)` |
| Formatter.EmptyGoalsRenderAlike | Interpreter.ts:32-36 | The empty goal and the goal of one empty conjunct both render as the empty string |
| Formatter.InterpretationLength | Interpreter.ts:32-36 | A goal of n conjuncts renders as their renderings plus n - 1 separators " \| " |
| Scenarios.ScanOfThree | Interpreter.ts:241-256 | In a world of three single-object stacks the scan meets the held match, then each of the three objects in turn |
| Scenarios.BoxesAreFound | Interpreter.ts:233-273 | "box", with a size set to "" or unset, finds both boxes in stack order, with the arm empty or holding the ball |
| Scenarios.BallIsFound | Interpreter.ts:233-273 | "white ball" finds the ball only, and "floor" finds the floor |
| Scenarios.SingleTarget | Interpreter.ts:56-113 | A command about a single referent has exactly the goal built for that referent |
| Scenarios.BallInsideABox | Interpreter.ts:56-113 | "the white ball inside a box" gives one alternative per box |
| Scenarios.BallInsideAllBoxes | Interpreter.ts:203-214 | "the white ball inside all boxes" gives one conjunct naming both boxes |
| Scenarios.BoxContainingTheBall | Interpreter.ts:278-313 | "a box containing the white ball" gives holding the one box the geometry accepts |
| Scenarios.BoxGoals | Interpreter.ts:87-89 | Each box's goal relative to the ball is the single alternative of containing it |
| Scenarios.BoxesCrossed | Interpreter.ts:94-109 | Crossing the two boxes' goals merges them into one conjunct |
| Scenarios.EveryBoxContainsTheBall | Interpreter.ts:87-113 | "all boxes containing a ball" gives the one conjunct in which each box contains the ball |
| Scenarios.BallInsideEveryBox | Interpreter.ts:74-85 | "a ball inside all boxes" is rewritten and gives the same single conjunct |
| Scenarios.HeldBallInsideABox | Interpreter.ts:61-63 | With the ball held and no target, "inside a box" relates the held ball to each box |
| Scenarios.NothingToReferTo | Interpreter.ts:10-25 | With nothing held and no target there is no referent; an empty list of readings gives "no interpretation" |

## Left out

- The geometry test `isRelativeMatch` is a parameter, not a definition. It lives in the world model, which is not part of this model.
- `AmbiguityResolve.checkTheTheAmbiguity` is the `gate` parameter. Its policy is not part of this model; the model only records whether it accepts.
- The `Interpreter.Error` class and its message text are replaced by the `Error` datatype.
- JavaScript compares literals with `===`, which is object identity. The model uses structural equality.
  Literals that are equal but distinct objects are merged in the model.
  In particular, `concatLiterals`, `stripDuplicates` and `listContainsList` can drop a structurally repeated literal or conjunct that the code keeps.
- In-place mutation and aliasing are not modelled.
  The any/all rewrite changes the parse's own command object. The model returns the rewritten command instead (`Rewritten`).
  The `splice` in `buildRelativeLiterals` becomes a copy of each conjunct with the literal in front.
- ObjectMatcher.Passes: an object without a definition never fits a description in the model. In the code, `world.objects[id]` is then `undefined`, and `isMatchByDescription` behaves in two ways.
  It throws a TypeError when it reads the form, size or colour of that `undefined` (Interpreter.ts:261, 265, 269).
  For "anyform" with no size and no colour it reads none of them and returns true, so the code returns that id: `["z"]` for the world with the one stack `[["z"]]` and no definitions, where the model gives `[]`.
  The methods require `WellFormed`, which rules such worlds out.
- Interpreter.Interpret: the truth test on the goal is always true for an array, so it is not modelled as a filter.
- The parser and the loading of worlds are not part of this model. The command and world datatypes carry only the fields the interpreter reads.
- `location.ent` is assumed present in every location; the parser always sets it.
- Concurrency and timing: none in the source.
