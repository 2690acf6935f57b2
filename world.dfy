/** The read-only world snapshot the interpreter resolves descriptions against. */
module World {
  import opened Outcomes

  datatype ObjectDefinition = ObjectDefinition(form: string, size: string, color: string)

  /** Stacks bottom to top, the held object (absent or "" when the arm is empty) and the definitions. */
  datatype WorldState = WorldState(
    stacks: seq<seq<string>>,
    holding: Option<string>,
    objects: map<string, ObjectDefinition>)
  {
    /** The arm holds something: JavaScript's truth test on `holding`. */
    predicate IsHolding() {
      holding.Some? && holding.value != ""
    }

    /** Every object the matcher looks up has a definition. */
    predicate WellFormed() {
      && (IsHolding() ==> holding.value in objects)
      && forall s, n :: 0 <= s < |stacks| && 0 <= n < |stacks[s]| ==> stacks[s][n] in objects
    }

    /** The order in which the matcher visits objects: the held one, then each stack bottom to top. */
    function Scan(): seq<string> {
      (if IsHolding() then [holding.value] else []) + Flatten(stacks)
    }
  }

  /** The concatenation of the stacks, in order. */
  function Flatten(stacks: seq<seq<string>>): seq<string>
  {
    if stacks == [] then [] else Flatten(stacks[..|stacks| - 1]) + stacks[|stacks| - 1]
  }

  lemma FlattenPrefixSnoc(stacks: seq<seq<string>>, i: nat)
    requires i < |stacks|
    ensures Flatten(stacks[..i + 1]) == Flatten(stacks[..i]) + stacks[i]
  {
    assert stacks[..i + 1][..i] == stacks[..i];
  }

  lemma {:induction false} FlattenMembers(stacks: seq<seq<string>>, id: string)
    ensures id in Flatten(stacks) <==> exists s, n :: 0 <= s < |stacks| && 0 <= n < |stacks[s]| && stacks[s][n] == id
  {
    if stacks != [] {
      var init := stacks[..|stacks| - 1];
      FlattenMembers(init, id);
      if id in Flatten(stacks) && id !in Flatten(init) {
        var last := stacks[|stacks| - 1];
        var n :| 0 <= n < |last| && last[n] == id;
        assert stacks[|stacks| - 1][n] == id;
      }
      if exists s, n :: 0 <= s < |stacks| && 0 <= n < |stacks[s]| && stacks[s][n] == id {
        var s, n :| 0 <= s < |stacks| && 0 <= n < |stacks[s]| && stacks[s][n] == id;
        if s < |stacks| - 1 {
          assert init[s][n] == id;
        } else {
          assert stacks[|stacks| - 1][n] == id;
        }
      }
    }
  }

  /** A well-formed world defines every object the scan visits. */
  lemma ScanDefined(world: WorldState, id: string)
    requires world.WellFormed() && id in world.Scan()
    ensures id in world.objects
  {
    if !(world.IsHolding() && id == world.holding.value) {
      FlattenMembers(world.stacks, id);
    }
  }

  /** The geometric relation predicate of the world model (`isRelativeMatch`), left abstract. */
  type RelativeMatch = (string, string, string, WorldState) -> bool
}
