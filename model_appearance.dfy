// model_data_structures/src/models/model_appearance.rs: a model's default
// sprite and its optional animation data.
//
// Which sprite the running animation shows depends on the time elapsed
// since it started; `GetAppearance` takes that sprite, if any, as a
// parameter instead of computing it.
module ModelAppearance {
  import opened Wrappers
  import opened ModelErrors
  import Sprites
  import AnimationData

  class ModelAppearance {
    var defaultSprite: Sprites.Sprite
    var animationData: Option<AnimationData.ModelAnimationData>

    /// `ModelAppearance::new`.
    constructor (sprite: Sprites.Sprite, animationData: Option<AnimationData.ModelAnimationData>)
      ensures defaultSprite == sprite && this.animationData == animationData
    {
      defaultSprite := sprite;
      this.animationData := animationData;
    }

    /// `add_animation_data`: the new data replaces the old, which is returned.
    method AddAnimationData(newAnimationData: AnimationData.ModelAnimationData)
      returns (previous: Option<AnimationData.ModelAnimationData>)
      modifies this
      ensures previous == old(animationData)
      ensures animationData == Some(newAnimationData)
      ensures defaultSprite == old(defaultSprite)
    {
      previous := animationData;
      animationData := Some(newAnimationData);
    }

    /// `get_appearance`, given what the animation data currently shows: the
    /// animated sprite when there is animation data and it shows one, the
    /// default sprite otherwise.
    function GetAppearance(currentAnimated: Option<Sprites.Sprite>): (r: Sprites.Sprite)
      reads this
      ensures animationData.None? || currentAnimated.None? ==> r == GetDefaultAppearance()
      ensures animationData.Some? && currentAnimated.Some? ==> r == currentAnimated.value
    {
      if animationData.Some? && currentAnimated.Some? then currentAnimated.value else defaultSprite
    }

    /// `get_default_appearance`: the default sprite, whatever the animations.
    function GetDefaultAppearance(): (r: Sprites.Sprite)
      reads this
      ensures r == defaultSprite
    {
      defaultSprite
    }

    /// `update_default_sprite`: the new sprite replaces the default, which is
    /// returned.
    method UpdateDefaultSprite(newSprite: Sprites.Sprite) returns (previous: Sprites.Sprite)
      modifies this
      ensures previous == old(defaultSprite)
      ensures defaultSprite == newSprite && animationData == old(animationData)
    {
      previous := defaultSprite;
      defaultSprite := newSprite;
    }

    /// `get_mut_animation_data`: default animation data is created when
    /// there is none, so there is always some afterwards.
    method GetMutAnimationData() returns (d: AnimationData.ModelAnimationData)
      modifies this
      ensures animationData == Some(d)
      ensures old(animationData).Some? ==> d == old(animationData).value
      ensures old(animationData).None? ==> fresh(d) && d.animations == map[]
      ensures defaultSprite == old(defaultSprite)
    {
      if animationData.None? {
        var created := new AnimationData.ModelAnimationData.Default();
        animationData := Some(created);
      }
      d := animationData.value;
    }

    /// `remove_animation_from_list`: through `get_mut_animation_data`, so a
    /// model without animation data gains empty data and removes nothing.
    method RemoveAnimationFromList(name: string) returns (r: Option<AnimationData.Frames>)
      modifies this, if animationData.Some? then {animationData.value} else {}
      ensures animationData.Some? && defaultSprite == old(defaultSprite)
      ensures old(animationData).Some? ==>
                animationData == old(animationData) &&
                r == old(animationData.value.GetAnimation(name)) &&
                animationData.value.animations == old(animationData.value.animations) - {name}
      ensures old(animationData).None? ==> r == None && animationData.value.animations == map[]
    {
      var d := GetMutAnimationData();
      r := d.RemoveAnimationFromList(name);
    }

    /// `full_validity_check`, given the failures the stored animations report
    /// of themselves: without animation data the model is always accepted;
    /// with it, the failures are reported together with those of the default
    /// sprite, listed last under the name "Default Sprite".
    function FullValidityCheck(animationFailures: seq<AnimationValidityErrorData>): (r: Result<Unit, ModelError>)
      reads this
      ensures animationData.None? ==> r.Ok?
      ensures animationData.Some? ==>
                (r.Ok? <==> animationFailures == [] && Sprites.ValidityCheck(defaultSprite).Ok?)
      ensures r.Err? ==> r.error == AnimationError(AnimationValidityCheckFailed(
                animationFailures + DefaultSpriteFailure(defaultSprite)))
    {
      if animationData.None? then Ok(Unit)
      else
        var failures := animationFailures + DefaultSpriteFailure(defaultSprite);
        if failures == [] then Ok(Unit) else Err(AnimationError(AnimationValidityCheckFailed(failures)))
    }
  }

  /// The entry `full_validity_check` adds for an invalid default sprite.
  function DefaultSpriteFailure(sprite: Sprites.Sprite): (r: seq<AnimationValidityErrorData>)
    ensures r == [] <==> Sprites.ValidityCheck(sprite).Ok?
    ensures r != [] ==> r == [AnimationValidityErrorData("Default Sprite", None,
                                  [(0, Sprites.ValidityErrors(sprite))])]
  {
    match Sprites.ValidityCheck(sprite)
    case Ok(_) => []
    case Err(e) =>
      if e.SpriteValidityChecks? then [AnimationValidityErrorData("Default Sprite", None, [(0, e.errors)])]
      else []
  }

  /// Without animation data even a sprite that fails every rule is accepted.
  method NoDataAcceptsInvalidSprite() returns (r: Result<Unit, ModelError>)
    ensures r.Ok?
  {
    var appearance := new ModelAppearance(Sprites.Sprite("x-x\naa", '-', ' ', '-', 0), None);
    r := appearance.FullValidityCheck([]);
  }
}
