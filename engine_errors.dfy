// The error enums of the older engine under src/ (src/models/errors.rs,
// src/objects/errors.rs and the enums the registries and animation code
// return), reduced to the variants the modelled code returns. The parser
// errors are those of the model crate.
module EngineErrors {
  import ModelErrors

  datatype Direction = Up | Left | Right | Down

  datatype ModelError =
    | NoCenter
    | NonRectangularShape
    | EmptyHitboxString
    | IncorrectStrataRange(strata: nat)
    | OutOfBounds(direction: Direction)
    | ModelAlreadyExists
    | ModelDoesntExist
    | ModelCreationError(creation: ModelErrors.ModelCreationError)

  /// src/objects/errors.rs.
  datatype ObjectError = ObjectNoCenter | ObjectNonRectangularShape | ObjectEmptyHitboxString
}
