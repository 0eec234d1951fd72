// model_data_structures/src/models/animation.rs: a model's list of named
// animations together with the animator that queues them.
module AnimationData {
  import opened Wrappers
  import opened ModelErrors
  import AnimationFrames
  import ModelAnimator

  type Frames = AnimationFrames.AnimationFrames

  /// Collecting `(name, frames)` pairs into a map: every name becomes a key,
  /// and nothing else does.
  function ListToMap(list: seq<(string, Frames)>): (r: map<string, Frames>)
    ensures forall i :: 0 <= i < |list| ==> list[i].0 in r
    ensures forall name :: name in r ==> exists i :: 0 <= i < |list| && list[i].0 == name
  {
    if list == [] then map[]
    else
      var front := list[..|list| - 1];
      var r := ListToMap(front)[list[|list| - 1].0 := list[|list| - 1].1];
      assert forall i :: 0 <= i < |front| ==> front[i] == list[i];
      r
  }

  /// When a name occurs several times, the last pair with that name wins.
  lemma {:induction false} LastPairWins(list: seq<(string, Frames)>, i: nat)
    requires i < |list|
    requires forall j :: i < j < |list| ==> list[j].0 != list[i].0
    ensures ListToMap(list)[list[i].0] == list[i].1
  {
    if i < |list| - 1 {
      var front := list[..|list| - 1];
      assert front[i] == list[i];
      LastPairWins(front, i);
    }
  }

  class ModelAnimationData {
    var animations: map<string, Frames>
    var modelAnimator: ModelAnimator.ModelAnimator

    /// `ModelAnimationData::default()`.
    constructor Default()
      ensures animations == map[]
      ensures fresh(modelAnimator) && modelAnimator.animationQueue == []
      ensures modelAnimator.currentAnimationStart.None? && modelAnimator.lastRunAnimation.None?
    {
      animations := map[];
      modelAnimator := new ModelAnimator.ModelAnimator.Default();
    }

    /// `From<(ModelData, list)>` and `new`: the list becomes the animation
    /// map and the animator starts empty; the model itself is not used.
    constructor From(animationList: seq<(string, Frames)>)
      ensures animations == ListToMap(animationList)
      ensures fresh(modelAnimator) && modelAnimator.animationQueue == []
      ensures modelAnimator.currentAnimationStart.None? && modelAnimator.lastRunAnimation.None?
    {
      animations := ListToMap(animationList);
      modelAnimator := new ModelAnimator.ModelAnimator.Default();
    }

    /// `contains_animation`.
    function ContainsAnimation(name: string): (r: bool)
      reads this
      ensures r <==> GetAnimation(name).Some?
    {
      name in animations
    }

    /// `get_animation`.
    function GetAnimation(name: string): (r: Option<Frames>)
      reads this
      ensures r.Some? <==> name in animations
      ensures r.Some? ==> r.value == animations[name]
    {
      if name in animations then Some(animations[name]) else None
    }

    /// `remove_animation_from_list`: the stored frames, if any, are returned
    /// and the name leaves the list.
    method RemoveAnimationFromList(name: string) returns (r: Option<Frames>)
      modifies this
      ensures r == old(GetAnimation(name))
      ensures animations == old(animations) - {name}
      ensures modelAnimator == old(modelAnimator)
    {
      r := GetAnimation(name);
      animations := animations - {name};
    }

    /// `add_new_animation_to_list`: a new name is inserted, an existing one
    /// is refused and the list is left as it was.
    method AddNewAnimationToList(name: string, animation: Frames) returns (r: Result<Unit, AnimationError>)
      modifies this
      ensures r.Err? <==> name in old(animations)
      ensures r.Err? ==> r.error == AnimationAlreadyExists && animations == old(animations)
      ensures r.Ok? ==> animations == old(animations)[name := animation]
      ensures modelAnimator == old(modelAnimator)
    {
      if name !in animations {
        animations := animations[name := animation];
        r := Ok(Unit);
      } else {
        r := Err(AnimationAlreadyExists);
      }
    }
  }

  /// The source's `contains_animation_logic` and `add_new_animation_to_list_logic`
  /// tests: an added animation is contained, adding it again is refused,
  /// and once removed it is no longer contained.
  method AddTwiceThenRemove(name: string, animation: Frames)
    returns (containedAfterAdd: bool, second: Result<Unit, AnimationError>,
             removed: Option<Frames>, containedAfterRemove: bool)
    ensures containedAfterAdd && second == Err(AnimationAlreadyExists)
    ensures removed == Some(animation) && !containedAfterRemove
  {
    var data := new ModelAnimationData.Default();
    var first := data.AddNewAnimationToList(name, animation);
    containedAfterAdd := data.ContainsAnimation(name);
    second := data.AddNewAnimationToList(name, animation);
    removed := data.RemoveAnimationFromList(name);
    containedAfterRemove := data.ContainsAnimation(name);
  }

  /// The source's `model_animation_data_from` test: a one-pair list gives
  /// the one-entry map.
  method FromOnePair(name: string, animation: Frames) returns (animations: map<string, Frames>)
    ensures animations == map[name := animation]
  {
    var data := new ModelAnimationData.From([(name, animation)]);
    assert [(name, animation)][..0] == [];
    animations := data.animations;
  }
}
