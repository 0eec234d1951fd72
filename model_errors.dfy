// The error enums of the model crate (model_data_structures/src/models/errors.rs
// and animation/errors.rs), reduced to the variants the modelled code returns.
module ModelErrors {
  import opened Wrappers

  datatype ModelError =
    | NoAnchor
    | NonRectangularShape
    | IncorrectStrataRange(strata: nat)
    | ModelAlreadyExists
    | ModelDoesntExist
    | MultipleAnchorsFound(indices: seq<nat>)
    | ModelCreationError(creation: ModelCreationError)
    | AnimationError(animation: AnimationError)
    | SpriteAnchorMatchesAirCharacter
    | ModelSpriteContainsNewAnchorCharacter
    | IndexLargerThanHitboxArea
    | ModelOutOfBounds
    | SpriteValidityChecks(errors: seq<ModelError>)

  /// Errors of the `.model` file parser; line numbers count from 1.
  datatype ModelCreationError =
    | InvalidSyntax(line: nat)
    | InvalidStringSizeAtLine(line: nat)
    | InvalidStrataRange(value: nat)
    | MissingData(fields: seq<string>)
    | ModelFileIsEmpty

  datatype AnimationError =
    | AnimationDoesntExist(invalidAnimationName: string)
    | AnimationAlreadyExists
    | ModelHasNoAnimationData
    | AnimationValidityCheckFailed(failures: seq<AnimationValidityErrorData>)

  /// What is wrong with one animation: the errors of its resting appearance,
  /// if any, and the errors of each invalid frame by frame index.
  datatype AnimationValidityErrorData = AnimationValidityErrorData(
    animationName: string,
    restingAppearanceErrors: Option<seq<ModelError>>,
    invalidFrameErrors: seq<(nat, seq<ModelError>)>)
}
