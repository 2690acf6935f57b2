/** The fixed table of inverse spatial relations (`reverseRelation`). */
module RelationAlgebra {

  /** The relations that the table pairs with an inverse. */
  predicate Reversible(relation: string) {
    relation in {"leftof", "rightof", "containing", "inside", "under", "ontop", "below", "above"}
  }

  function ReverseRelation(relation: string): (r: string)
    ensures Reversible(r) <==> Reversible(relation)
    ensures r == relation <==> !Reversible(relation)
  {
    match relation
    case "leftof" => "rightof"
    case "rightof" => "leftof"
    case "containing" => "inside"
    case "under" => "ontop"
    case "inside" => "containing"
    case "ontop" => "under"
    case "below" => "above"
    case "above" => "below"
    case _ => relation
  }

  /** Reversing twice gives back the relation, for table entries and every other name alike. */
  lemma ReverseIsInvolution(relation: string)
    ensures ReverseRelation(ReverseRelation(relation)) == relation
  {
  }

  /** The four pairs of the table. */
  lemma ReversePairs()
    ensures ReverseRelation("leftof") == "rightof" && ReverseRelation("rightof") == "leftof"
    ensures ReverseRelation("containing") == "inside" && ReverseRelation("inside") == "containing"
    ensures ReverseRelation("under") == "ontop" && ReverseRelation("ontop") == "under"
    ensures ReverseRelation("below") == "above" && ReverseRelation("above") == "below"
    ensures ReverseRelation("holding") == "holding"
  {
  }
}
