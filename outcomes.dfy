/** Optional values and the interpreter's failure results. */
module Outcomes {

  datatype Option<T> = None | Some(value: T)

  /** The three ways an interpretation attempt can fail. */
  datatype Error =
    | NoInterpretation   // `interpret` found no parse to keep ("Found no interpretation")
    | Ambiguous          // the ambiguity gate rejected a definite reference
    | NoReferent         // no target entity and nothing held: the code dereferences an undefined list

  datatype Result<T> = Success(value: T) | Failure(error: Error)
}
