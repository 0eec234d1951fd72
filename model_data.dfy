// The model record the registries, the model manager and the printer work on.
// Its source, model_data_structures/src/models/model_data.rs, is entirely
// commented out, so this record holds only what those callers read from it:
// the hash, name, strata, frame position (the index of the sprite's top-left
// cell in the frame string), the current sprite, the hitbox and the stored
// animations, if any.
module ModelRecord {
  import opened Wrappers
  import Sprites
  import Hitboxes
  import AnimationFrames

  datatype ModelData = ModelData(
    uniqueHash: nat,
    name: string,
    strata: nat,
    framePosition: nat,
    appearance: Sprites.Sprite,
    hitbox: Hitboxes.Hitbox,
    animations: Option<map<string, AnimationFrames.AnimationFrames>>)

  /// The record with its frame position replaced (what `change_position`
  /// is called for; its body is not visible).
  function ChangePosition(m: ModelData, position: nat): ModelData
  {
    m.(framePosition := position)
  }

  /// The hitbox's own emptiness flag, read from the record.
  predicate HitboxIsEmpty(m: ModelData)
  {
    m.hitbox.emptyHitbox
  }

  /// The hitbox's stored offset from the sprite's top left to its own top
  /// left, read from the record.
  function SpriteToHitboxAnchorDifference(m: ModelData): (int, int)
  {
    m.hitbox.skinTopLeftToHitboxTopLeft
  }
}
