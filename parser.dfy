/**
  The shapes of a parsed command, as the interpreter reads them.  The parser
  itself is not part of this model; these datatypes follow the fields the
  interpreter uses.
*/
module Parser {
  import opened Outcomes

  /** The parser's quantifier words "the", "any" and "all". */
  datatype Quant = The | Any | All

  /**
    An object description: either flat (form, size, colour; an unset or empty
    size or colour is a wildcard, the form "anyform" is a wildcard) or relative
    (a base description qualified by a location).
  */
  datatype Object =
    | Flat(form: string, size: Option<string>, color: Option<string>)
    | Relative(obj: Object, loc: Location)

  datatype Location = Location(rel: string, ent: Entity)

  datatype Entity = Entity(quant: Quant, obj: Object)

  /** A command: an optional target entity and an optional location. */
  datatype Command = Command(ent: Option<Entity>, loc: Option<Location>)

  /** One parse of the user's utterance. */
  datatype ParseResult = ParseResult(input: string, prs: Command)
}
