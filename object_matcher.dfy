/**
  Resolution of object descriptions against the world: by form, size and
  colour, and for relative descriptions by a nested location with a
  quantifier.
*/
module ObjectMatcher {
  import opened Outcomes
  import opened Parser
  import opened World

  /** JavaScript's truth test on an optional size or colour: unset and "" are wildcards. */
  predicate IsSet(attribute: Option<string>) {
    attribute.Some? && attribute.value != ""
  }

  /**
    Whether a definition fits a description.  A relative description has no
    form of its own, so no definition fits it.
  */
  predicate IsMatchByDescription(desc: Object, objectDefinition: ObjectDefinition) {
    match desc
    case Relative(_, _) => false
    case Flat(form, size, color) =>
      && (form == "anyform" || form == objectDefinition.form)
      && (!IsSet(size) || size.value == objectDefinition.size)
      && (!IsSet(color) || color.value == objectDefinition.color)
  }

  /**
    "anyform" and an unset or empty size or colour constrain nothing, a set
    attribute must agree, and a relative description fits no definition.
  */
  lemma DescriptionWildcards(desc: Object, d: ObjectDefinition)
    ensures IsMatchByDescription(Flat("anyform", None, None), d)
    ensures IsMatchByDescription(Flat("anyform", Some(""), Some("")), d)
    ensures desc.Relative? ==> !IsMatchByDescription(desc, d)
    ensures IsMatchByDescription(desc, d) && IsSet(desc.size) ==> desc.size.value == d.size
    ensures IsMatchByDescription(desc, d) && IsSet(desc.color) ==> desc.color.value == d.color
    ensures IsMatchByDescription(desc, d) && desc.form != "anyform" ==> desc.form == d.form
  {
  }

  predicate Passes(desc: Object, id: string, objects: map<string, ObjectDefinition>) {
    id in objects && IsMatchByDescription(desc, objects[id])
  }

  /** The ids among the first `n` of `ids` whose definitions fit `desc`, in order. */
  function MatchingPrefix(desc: Object, ids: seq<string>, n: nat, objects: map<string, ObjectDefinition>): seq<string>
    requires n <= |ids|
  {
    if n == 0 then []
    else MatchingPrefix(desc, ids, n - 1, objects) + if Passes(desc, ids[n - 1], objects) then [ids[n - 1]] else []
  }

  /** The ids of `ids` whose definitions fit `desc`, in order. */
  function MatchingIds(desc: Object, ids: seq<string>, objects: map<string, ObjectDefinition>): seq<string>
  {
    MatchingPrefix(desc, ids, |ids|, objects)
  }

  lemma {:induction false} MatchingPrefixOfPrefix(desc: Object, ids: seq<string>, more: seq<string>, n: nat, objects: map<string, ObjectDefinition>)
    requires n <= |ids|
    ensures MatchingPrefix(desc, ids + more, n, objects) == MatchingPrefix(desc, ids, n, objects)
  {
    if n > 0 {
      MatchingPrefixOfPrefix(desc, ids, more, n - 1, objects);
    }
  }

  /** Filtering distributes over concatenation, so scan order is kept. */
  lemma {:induction false} MatchingIdsAppend(desc: Object, ids1: seq<string>, ids2: seq<string>, objects: map<string, ObjectDefinition>)
    ensures MatchingIds(desc, ids1 + ids2, objects) == MatchingIds(desc, ids1, objects) + MatchingIds(desc, ids2, objects)
  {
    if ids2 == [] {
      assert ids1 + ids2 == ids1;
    } else {
      var init, x := ids2[..|ids2| - 1], ids2[|ids2| - 1];
      MatchingIdsAppend(desc, ids1, init, objects);
      assert ids1 + ids2 == (ids1 + init) + [x];
      assert ids2 == init + [x];
      MatchingPrefixOfPrefix(desc, ids1 + init, [x], |ids1 + init|, objects);
      MatchingPrefixOfPrefix(desc, init, [x], |init|, objects);
    }
  }

  lemma {:induction false} MatchingPrefixMembers(desc: Object, ids: seq<string>, n: nat, objects: map<string, ObjectDefinition>)
    requires n <= |ids|
    ensures forall id :: id in MatchingPrefix(desc, ids, n, objects) <==> id in ids[..n] && Passes(desc, id, objects)
  {
    if n > 0 {
      MatchingPrefixMembers(desc, ids, n - 1, objects);
      assert ids[..n] == ids[..n - 1] + [ids[n - 1]];
    }
  }

  lemma MatchingIdsMembers(desc: Object, ids: seq<string>, objects: map<string, ObjectDefinition>)
    ensures forall id :: id in MatchingIds(desc, ids, objects) <==> id in ids && Passes(desc, id, objects)
  {
    MatchingPrefixMembers(desc, ids, |ids|, objects);
    assert ids[..|ids|] == ids;
  }

  /** The held object, when it fits `desc`. */
  function HeldMatches(desc: Object, world: WorldState): seq<string>
  {
    if world.IsHolding() && Passes(desc, world.holding.value, world.objects) then [world.holding.value] else []
  }

  /**
    The fitting objects the scan has met once it reaches object `n` of stack
    `s`: the held one, the whole of stacks 0 to s-1, and the first `n` of stack `s`.
  */
  function ScanMatches(desc: Object, world: WorldState, s: nat, n: nat): seq<string>
    requires s <= |world.stacks| && (if s < |world.stacks| then n <= |world.stacks[s]| else n == 0)
    decreases s, n
  {
    if n > 0 then
      ScanMatches(desc, world, s, n - 1)
      + if Passes(desc, world.stacks[s][n - 1], world.objects) then [world.stacks[s][n - 1]] else []
    else if s > 0 then ScanMatches(desc, world, s - 1, |world.stacks[s - 1]|)
    else HeldMatches(desc, world)
  }

  /** What `findObjectsByDescription` returns: ["floor"] for the floor, else what the whole scan meets. */
  function Described(desc: Object, world: WorldState): seq<string>
  {
    if desc.Flat? && desc.form == "floor" then ["floor"]
    else ScanMatches(desc, world, |world.stacks|, 0)
  }

  lemma {:induction false} ScanMatchesWithinStack(desc: Object, world: WorldState, s: nat, n: nat)
    requires s < |world.stacks| && n <= |world.stacks[s]|
    ensures ScanMatches(desc, world, s, n)
         == ScanMatches(desc, world, s, 0) + MatchingPrefix(desc, world.stacks[s], n, world.objects)
  {
    if n > 0 {
      ScanMatchesWithinStack(desc, world, s, n - 1);
    }
  }

  lemma {:induction false} ScanMatchesFilterFlatten(desc: Object, world: WorldState, s: nat)
    requires s <= |world.stacks|
    ensures ScanMatches(desc, world, s, 0)
         == HeldMatches(desc, world) + MatchingIds(desc, Flatten(world.stacks[..s]), world.objects)
  {
    if s > 0 {
      ScanMatchesFilterFlatten(desc, world, s - 1);
      ScanMatchesWithinStack(desc, world, s - 1, |world.stacks[s - 1]|);
      FlattenPrefixSnoc(world.stacks, s - 1);
      MatchingIdsAppend(desc, Flatten(world.stacks[..s - 1]), world.stacks[s - 1], world.objects);
    } else {
      assert world.stacks[..0] == [];
    }
  }

  /**
    Off the floor, the result is the scan (held object first, then each stack
    bottom to top) filtered by the description: an id is returned iff the
    scan visits it and its definition fits, in scan order.
  */
  lemma DescribedFiltersScan(desc: Object, world: WorldState)
    requires !(desc.Flat? && desc.form == "floor")
    ensures Described(desc, world) == MatchingIds(desc, world.Scan(), world.objects)
    ensures forall id :: id in Described(desc, world) <==>
              id in world.Scan() && id in world.objects && IsMatchByDescription(desc, world.objects[id])
  {
    ScanMatchesFilterFlatten(desc, world, |world.stacks|);
    assert world.stacks[..|world.stacks|] == world.stacks;
    var held := if world.IsHolding() then [world.holding.value] else [];
    MatchingIdsAppend(desc, held, Flatten(world.stacks), world.objects);
    assert HeldMatches(desc, world) == MatchingIds(desc, held, world.objects) by {
      if world.IsHolding() {
        assert MatchingIds(desc, held, world.objects)
            == MatchingPrefix(desc, held, 0, world.objects) + if Passes(desc, held[0], world.objects) then [held[0]] else [];
      }
    }
    MatchingIdsMembers(desc, world.Scan(), world.objects);
  }

  method FindObjectsByDescription(desc: Object, world: WorldState) returns (result: seq<string>)
    requires world.WellFormed()
    ensures result == Described(desc, world)
  {
    result := [];
    if desc.Flat? && desc.form == "floor" {
      result := result + ["floor"];
      return;
    }
    if world.IsHolding() {
      var objectDefinition := world.objects[world.holding.value];
      if IsMatchByDescription(desc, objectDefinition) {
        result := result + [world.holding.value];
      }
    }
    var stack := 0;
    while stack < |world.stacks|
      invariant 0 <= stack <= |world.stacks|
      invariant result == ScanMatches(desc, world, stack, 0)
    {
      var objectnr := 0;
      while objectnr < |world.stacks[stack]|
        invariant 0 <= objectnr <= |world.stacks[stack]|
        invariant result == ScanMatches(desc, world, stack, objectnr)
      {
        var worldObject := world.stacks[stack][objectnr];
        var objectDefinition := world.objects[worldObject];
        if IsMatchByDescription(desc, objectDefinition) {
          result := result + [worldObject];
        }
        objectnr := objectnr + 1;
      }
      stack := stack + 1;
    }
  }

  /** What `findObjects` returns: the referents of a flat or relative description. */
  function Referents(desc: Object, world: WorldState, isRelativeMatch: RelativeMatch): seq<string>
    decreases desc, 2, 0
  {
    match desc
    case Flat(_, _, _) => Described(desc, world)
    case Relative(base, loc) =>
      var candidates := Described(base, world);
      Located(candidates, |candidates|, loc, world, isRelativeMatch)
  }

  /**
    The ids among the first `n` of `ids` that satisfy `loc`, in order: the
    filter `findObjectsByLocation` applies to the base matches.
  */
  function Located(ids: seq<string>, n: nat, loc: Location, world: WorldState, isRelativeMatch: RelativeMatch): seq<string>
    requires n <= |ids|
    decreases loc, 1, n
  {
    if n == 0 then []
    else
      Located(ids, n - 1, loc, world, isRelativeMatch)
      + if LocationHolds(ids[n - 1], loc, world, isRelativeMatch) then [ids[n - 1]] else []
  }

  /**
    `id` stands in relation `loc.rel` to every referent of the location
    entity under "all" (vacuously so when there are none), and to at least
    one of them otherwise.
  */
  predicate LocationHolds(id: string, loc: Location, world: WorldState, isRelativeMatch: RelativeMatch)
    decreases loc, 0, 0
  {
    var refs := Referents(loc.ent.obj, world, isRelativeMatch);
    if loc.ent.quant == All then forall k :: 0 <= k < |refs| ==> isRelativeMatch(id, loc.rel, refs[k], world)
    else exists k :: 0 <= k < |refs| && isRelativeMatch(id, loc.rel, refs[k], world)
  }

  /** The location filter keeps exactly the base ids that satisfy the location. */
  lemma {:induction false} LocatedMembers(ids: seq<string>, n: nat, loc: Location, world: WorldState, isRelativeMatch: RelativeMatch)
    requires n <= |ids|
    ensures forall id :: id in Located(ids, n, loc, world, isRelativeMatch) <==>
              id in ids[..n] && LocationHolds(id, loc, world, isRelativeMatch)
  {
    if n > 0 {
      LocatedMembers(ids, n - 1, loc, world, isRelativeMatch);
      assert ids[..n] == ids[..n - 1] + [ids[n - 1]];
    }
  }

  /** Relative referents are the base referents that satisfy the location, in their order. */
  lemma RelativeReferents(base: Object, loc: Location, world: WorldState, isRelativeMatch: RelativeMatch)
    ensures forall id :: id in Referents(Relative(base, loc), world, isRelativeMatch) <==>
              id in Described(base, world) && LocationHolds(id, loc, world, isRelativeMatch)
    ensures |Referents(Relative(base, loc), world, isRelativeMatch)| <= |Described(base, world)|
  {
    var candidates := Described(base, world);
    LocatedMembers(candidates, |candidates|, loc, world, isRelativeMatch);
    assert candidates[..|candidates|] == candidates;
    LocatedLength(candidates, |candidates|, loc, world, isRelativeMatch);
  }

  lemma {:induction false} LocatedLength(ids: seq<string>, n: nat, loc: Location, world: WorldState, isRelativeMatch: RelativeMatch)
    requires n <= |ids|
    ensures |Located(ids, n, loc, world, isRelativeMatch)| <= n
  {
    if n > 0 {
      LocatedLength(ids, n - 1, loc, world, isRelativeMatch);
    }
  }

  method FindObjects(parserObject: Object, world: WorldState, isRelativeMatch: RelativeMatch) returns (result: seq<string>)
    requires world.WellFormed()
    ensures result == Referents(parserObject, world, isRelativeMatch)
    decreases parserObject, 2, 0
  {
    if parserObject.Relative? {
      result := FindObjectsByLocation(parserObject, world, isRelativeMatch);
    } else {
      result := FindObjectsByDescription(parserObject, world);
    }
  }

  method FindObjectsByLocation(desc: Object, world: WorldState, isRelativeMatch: RelativeMatch) returns (result: seq<string>)
    requires world.WellFormed() && desc.Relative?
    ensures result == Referents(desc, world, isRelativeMatch)
    decreases desc, 1, 0
  {
    result := [];
    var matchingObjects := FindObjectsByDescription(desc.obj, world);
    var objectnr := 0;
    while objectnr < |matchingObjects|
      invariant 0 <= objectnr <= |matchingObjects|
      invariant result == Located(matchingObjects, objectnr, desc.loc, world, isRelativeMatch)
    {
      var matchingObject := matchingObjects[objectnr];
      var matches := IsMatchByLocation(matchingObject, desc.loc, world, isRelativeMatch);
      if matches {
        result := result + [matchingObject];
      }
      objectnr := objectnr + 1;
    }
  }

  method IsMatchByLocation(objectId: string, location: Location, world: WorldState, isRelativeMatch: RelativeMatch) returns (matches: bool)
    requires world.WellFormed()
    ensures matches == LocationHolds(objectId, location, world, isRelativeMatch)
    decreases location, 0, 0
  {
    var matchingEntities := FindObjects(location.ent.obj, world, isRelativeMatch);
    var matchingNr := 0;
    while matchingNr < |matchingEntities|
      invariant 0 <= matchingNr <= |matchingEntities|
      invariant forall k :: 0 <= k < matchingNr ==>
                  (isRelativeMatch(objectId, location.rel, matchingEntities[k], world) <==> location.ent.quant == All)
    {
      if isRelativeMatch(objectId, location.rel, matchingEntities[matchingNr], world) {
        if location.ent.quant != All {
          return true;
        }
      } else {
        if location.ent.quant == All {
          return false;
        }
      }
      matchingNr := matchingNr + 1;
    }
    if location.ent.quant == All {
      return true;
    }
    return false;
  }
}
