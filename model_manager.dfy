// src/screen/model_manager.rs: moving models around the world and asking
// which other models a (possibly simulated) position collides with, plus the
// checks `run_animation_event` makes before handing an event to a model's
// animation data. The world is the model storage the manager shares; the
// collision test between two hitbox rectangles (`Rectangle::is_colliding`)
// and the absolute-position helper of the model data
// (`calculate_top_left_index_from`) are not part of this model and are
// passed in as functions.
module ModelManager {
  import opened Wrappers
  import Config
  import opened ModelErrors
  import EngineCoordinates
  import EngineRectangle
  import AnimationFrames
  import ModelRecord
  import ModelStorage

  /// `ModelMovement`: move the top left to an absolute (x, y), or by a
  /// relative (dx, dy).
  datatype ModelMovement = Absolute(target: (int, int)) | Relative(offset: (int, int))

  /// `ModelCollisions`.
  datatype ModelCollisions = ModelCollisions(collider: nat, causedMovement: ModelMovement, collisionList: seq<nat>)

  /// `Rectangle::is_colliding(position, other, other_position)`.
  type CollisionTest = (EngineRectangle.Rectangle, (int, int), EngineRectangle.Rectangle, (int, int)) -> bool

  /// `ModelData::calculate_top_left_index_from(world_position)`.
  type TopLeftIndexFrom = (ModelRecord.ModelData, (nat, nat)) -> Option<nat>

  /// `add_index_to_coordinates`: the (x, y) of frame index `index` (rows are
  /// `GridWidth + 1` characters apart) shifted by `offset`.
  function AddIndexToCoordinates(offset: (int, int), index: nat): (r: (int, int))
    ensures 0 <= r.0 - offset.0 < Config.RowStride && r.1 - offset.1 >= 0
    ensures (r.0 - offset.0) + Config.RowStride * (r.1 - offset.1) == index
  {
    var c := EngineCoordinates.IndexToCoordinates(index, Config.RowStride);
    (c.0 + offset.0, c.1 + offset.1)
  }

  /// `calculate_relative_movement_frame_position`: the frame index moved by
  /// `dx` columns and `dy` rows, or `None` when that falls before the start
  /// of the frame. (isize overflow is not modelled.)
  function CalculateRelativeMovementFramePosition(position: nat, offset: (int, int)): (r: Option<nat>)
    ensures r.Some? <==> offset.0 + Config.RowStride * offset.1 + position >= 0
    ensures r.Some? ==> r.value as int - position == offset.0 + Config.RowStride * offset.1
  {
    var newPosition := offset.0 + Config.RowStride * offset.1 + position;
    if newPosition >= 0 then Some(newPosition) else None
  }

  /// `calculate_movement_of_model`: an absolute movement is cast to `usize`
  /// (negative components wrap) and handed to the model; a relative one is
  /// applied to the model's frame position.
  function CalculateMovementOfModel(movement: ModelMovement, model: ModelRecord.ModelData,
                                    topLeftFrom: TopLeftIndexFrom): (r: Option<nat>)
    requires movement.Absolute? ==> EngineCoordinates.IsIsize(movement.target.0) && EngineCoordinates.IsIsize(movement.target.1)
    ensures movement.Relative? ==> r == CalculateRelativeMovementFramePosition(model.framePosition, movement.offset)
    ensures movement.Absolute? && movement.target.0 >= 0 && movement.target.1 >= 0 ==>
              r == topLeftFrom(model, (movement.target.0, movement.target.1))
  {
    match movement
    case Absolute(target) =>
      topLeftFrom(model, (EngineCoordinates.IsizeToUsize(target.0), EngineCoordinates.IsizeToUsize(target.1)))
    case Relative(offset) => CalculateRelativeMovementFramePosition(model.framePosition, offset)
  }

  /// Where the hitbox of a model sits when its sprite's top left is at frame
  /// index `position`.
  function HitboxPosition(model: ModelRecord.ModelData, position: nat): (r: (int, int))
    ensures (r.0 - model.hitbox.skinTopLeftToHitboxTopLeft.0) + Config.RowStride * (r.1 - model.hitbox.skinTopLeftToHitboxTopLeft.1) == position
  {
    AddIndexToCoordinates(ModelRecord.SpriteToHitboxAnchorDifference(model), position)
  }

  /// `models_are_colliding`: an empty hitbox on either side never collides;
  /// otherwise the two hitbox rectangles are tested at their positions, the
  /// first model's taken from `newPosition` when one is given.
  function ModelsAreColliding(one: ModelRecord.ModelData, newPosition: Option<nat>, two: ModelRecord.ModelData,
                              isColliding: CollisionTest): (r: bool)
    ensures ModelRecord.HitboxIsEmpty(one) || ModelRecord.HitboxIsEmpty(two) ==> !r
    ensures !ModelRecord.HitboxIsEmpty(one) && !ModelRecord.HitboxIsEmpty(two) ==>
              (r <==> isColliding(one.hitbox.dimensions,
                                  HitboxPosition(one, if newPosition.Some? then newPosition.value else one.framePosition),
                                  two.hitbox.dimensions, HitboxPosition(two, two.framePosition)))
  {
    if ModelRecord.HitboxIsEmpty(one) || ModelRecord.HitboxIsEmpty(two) then false
    else
      var oneIndex := if newPosition.Some? then newPosition.value else one.framePosition;
      isColliding(one.hitbox.dimensions, HitboxPosition(one, oneIndex),
                  two.hitbox.dimensions, HitboxPosition(two, two.framePosition))
  }

  /// The keys of the stored models, other than the moving model's own, that
  /// it collides with.
  function CollidingKeys(models: ModelStorage.Models, moving: ModelRecord.ModelData, newPosition: Option<nat>,
                         isColliding: CollisionTest): set<nat>
  {
    set k | k in models && k != moving.uniqueHash && ModelsAreColliding(moving, newPosition, models[k], isColliding)
  }

  /// The hashes of the models stored under `keys`.
  function HashesOf(models: ModelStorage.Models, keys: set<nat>): set<nat>
  {
    set k | k in keys && k in models :: models[k].uniqueHash
  }

  /// The result of `check_if_movement_causes_collisions` and `move_model`:
  /// `None` for an empty collision list.
  function CollisionsOf(hash: nat, movement: ModelMovement, list: seq<nat>): (r: Option<ModelCollisions>)
    ensures r.Some? <==> list != []
    ensures r.Some? ==> r.value.collider == hash && r.value.causedMovement == movement && r.value.collisionList == list
  {
    if list != [] then Some(ModelCollisions(hash, movement, list)) else None
  }

  /// The events `run_animation_event` dispatches.
  datatype AnimationEvent =
    | QueueAnimation
    | OverwriteCurrentlyRunningAnimation
    | ClearQueue
    | StopAnimation
    | AddAnimation(frames: AnimationFrames.AnimationFrames)

  /// What `run_animation_event` does to the model's animation data once
  /// every check has passed.
  datatype AnimationUpdate =
    | QueueFrames(frames: AnimationFrames.AnimationFrames)
    | OverwriteWith(frames: AnimationFrames.AnimationFrames)
    | StoreAnimations(animations: map<string, AnimationFrames.AnimationFrames>)
    | ClearAnimatorQueue
    | StopAnimator
    | NoUpdate

  /// `run_animation_event`: the model must exist, then have animation data,
  /// and, for queueing or overwriting, hold an animation of the given name;
  /// adding an animation fails on a name already in use.
  function RunAnimationEvent(models: ModelStorage.Models, hash: nat, name: Option<string>,
                             event: AnimationEvent): (r: Result<AnimationUpdate, ModelError>)
    ensures hash !in models ==> r == Err(ModelDoesntExist)
    ensures hash in models && models[hash].animations.None? ==> r == Err(AnimationError(ModelHasNoAnimationData))
    ensures hash in models && models[hash].animations.Some? ==>
              var animations := models[hash].animations.value;
              && ((event.QueueAnimation? || event.OverwriteCurrentlyRunningAnimation?) ==>
                    (r.Err? <==> name.None? || name.value !in animations))
              && (event.QueueAnimation? && r.Ok? ==> name.Some? && r.value == QueueFrames(animations[name.value]))
              && (event.OverwriteCurrentlyRunningAnimation? && r.Ok? ==>
                    name.Some? && r.value == OverwriteWith(animations[name.value]))
              && (event.AddAnimation? ==>
                    if name.None? then r == Ok(NoUpdate)
                    else if name.value in animations then r == Err(AnimationError(AnimationAlreadyExists))
                    else r == Ok(StoreAnimations(animations[name.value := event.frames])))
              && (event.ClearQueue? ==> r == Ok(ClearAnimatorQueue))
              && (event.StopAnimation? ==> r == Ok(StopAnimator))
    ensures r.Err? && r.error.AnimationError? && r.error.animation.AnimationDoesntExist? ==>
              event.QueueAnimation? || event.OverwriteCurrentlyRunningAnimation?
  {
    if hash !in models then Err(ModelDoesntExist)
    else if models[hash].animations.None? then Err(AnimationError(ModelHasNoAnimationData))
    else
      var animations := models[hash].animations.value;
      var animation := if name.Some? && name.value in animations then Some(animations[name.value]) else None;
      var missing := AnimationError(AnimationDoesntExist(if name.Some? then name.value else ""));
      match event
      case QueueAnimation => if animation.None? then Err(missing) else Ok(QueueFrames(animation.value))
      case OverwriteCurrentlyRunningAnimation => if animation.None? then Err(missing) else Ok(OverwriteWith(animation.value))
      case AddAnimation(frames) =>
        if name.None? then Ok(NoUpdate)
        else if name.value in animations then Err(AnimationError(AnimationAlreadyExists))
        else Ok(StoreAnimations(animations[name.value := frames]))
      case ClearQueue => Ok(ClearAnimatorQueue)
      case StopAnimation => Ok(StopAnimator)
  }

  class ModelManager {
    const storage: ModelStorage.InternalModels

    constructor New(storage: ModelStorage.InternalModels)
      ensures this.storage == storage
    {
      this.storage := storage;
    }

    /// `check_collisions_against_all_models`: the hashes of every other
    /// stored model the moving model collides with, each once; nothing when
    /// the moving model is not registered.
    method CheckCollisionsAgainstAllModels(moving: ModelRecord.ModelData, newPosition: Option<nat>,
                                           isColliding: CollisionTest) returns (list: seq<nat>)
      ensures !storage.ModelExists(moving.uniqueHash) ==> list == []
      ensures storage.ModelExists(moving.uniqueHash) ==>
                forall x :: x in list <==> x in HashesOf(storage.models, CollidingKeys(storage.models, moving, newPosition, isColliding))
      ensures storage.ModelExists(moving.uniqueHash) ==>
                |list| == |CollidingKeys(storage.models, moving, newPosition, isColliding)|
      ensures (forall k :: k in storage.models ==> storage.models[k].uniqueHash == k) ==> moving.uniqueHash !in list
    {
      list := [];
      if !storage.ModelExists(moving.uniqueHash) {
        return;
      }
      list := CollidingHashes(storage.models, moving, newPosition, isColliding);
      SelfNotAmongHashes(storage.models, CollidingKeys(storage.models, moving, newPosition, isColliding), moving.uniqueHash);
    }

    /// `check_if_movement_causes_collisions`: the collisions the movement
    /// would cause, without moving anything. A movement that cannot be
    /// computed is checked at the model's current position.
    method CheckIfMovementCausesCollisions(hash: nat, movement: ModelMovement, isColliding: CollisionTest,
                                           topLeftFrom: TopLeftIndexFrom)
      returns (r: Result<Option<ModelCollisions>, ModelError>)
      requires movement.Absolute? ==> EngineCoordinates.IsIsize(movement.target.0) && EngineCoordinates.IsIsize(movement.target.1)
      ensures hash !in storage.models ==> r == Err(ModelDoesntExist)
      ensures hash in storage.models ==> r.Ok?
      ensures hash in storage.models ==>
                var model := storage.models[hash];
                var keys := CollidingKeys(storage.models, model, CalculateMovementOfModel(movement, model, topLeftFrom), isColliding);
                (r.value.Some? <==> storage.ModelExists(model.uniqueHash) && keys != {}) &&
                (r.value.Some? ==> r.value.value.collider == hash && r.value.value.causedMovement == movement &&
                                   forall x :: x in r.value.value.collisionList <==> x in HashesOf(storage.models, keys))
    {
      var model := storage.GetModel(hash);
      if model.None? {
        return Err(ModelDoesntExist);
      }
      var newPosition := CalculateMovementOfModel(movement, model.value, topLeftFrom);
      var list := CheckCollisionsAgainstAllModels(model.value, newPosition, isColliding);
      if storage.ModelExists(model.value.uniqueHash) {
        CardinalityZero(CollidingKeys(storage.models, model.value, newPosition, isColliding), list);
      }
      r := Ok(CollisionsOf(hash, movement, list));
    }

    /// `move_model`: the stored model takes its new frame position (the
    /// storage shares the model's data), then the collisions at that
    /// position are reported.
    method MoveModel(hash: nat, movement: ModelMovement, isColliding: CollisionTest, topLeftFrom: TopLeftIndexFrom)
      returns (r: Result<Option<ModelCollisions>, ModelError>)
      requires movement.Absolute? ==> EngineCoordinates.IsIsize(movement.target.0) && EngineCoordinates.IsIsize(movement.target.1)
      modifies storage
      ensures storage.modelStratas == old(storage.modelStratas)
      ensures hash !in old(storage.models) ==> r == Err(ModelDoesntExist) && storage.models == old(storage.models)
      ensures hash in old(storage.models) && CalculateMovementOfModel(movement, old(storage.models[hash]), topLeftFrom).None? ==>
                r == Err(ModelOutOfBounds) && storage.models == old(storage.models)
      ensures hash in old(storage.models) && CalculateMovementOfModel(movement, old(storage.models[hash]), topLeftFrom).Some? ==>
                var moved := ModelRecord.ChangePosition(old(storage.models[hash]),
                                                       CalculateMovementOfModel(movement, old(storage.models[hash]), topLeftFrom).value);
                var keys := CollidingKeys(storage.models, moved, None, isColliding);
                && storage.models == old(storage.models)[hash := moved]
                && r.Ok?
                && (r.value.Some? <==> storage.ModelExists(moved.uniqueHash) && keys != {})
                && (r.value.Some? ==> r.value.value.collider == hash && r.value.value.causedMovement == movement &&
                                      forall x :: x in r.value.value.collisionList <==> x in HashesOf(storage.models, keys))
    {
      var model := storage.GetModel(hash);
      if model.None? {
        return Err(ModelDoesntExist);
      }
      var newPosition := CalculateMovementOfModel(movement, model.value, topLeftFrom);
      if newPosition.None? {
        return Err(ModelOutOfBounds);
      }
      var moved := ModelRecord.ChangePosition(model.value, newPosition.value);
      storage.models := storage.models[hash := moved];
      var list := CheckCollisionsAgainstAllModels(moved, None, isColliding);
      if storage.ModelExists(moved.uniqueHash) {
        CardinalityZero(CollidingKeys(storage.models, moved, None, isColliding), list);
      }
      r := Ok(CollisionsOf(hash, movement, list));
    }
  }

  /// The scan of `check_collisions_against_all_models` over every stored
  /// model, in the map's iteration order: the hash of each other model the
  /// moving model collides with is pushed to the front of the list.
  method CollidingHashes(models: ModelStorage.Models, moving: ModelRecord.ModelData, newPosition: Option<nat>,
                         isColliding: CollisionTest) returns (list: seq<nat>)
    ensures forall x :: x in list <==> x in HashesOf(models, CollidingKeys(models, moving, newPosition, isColliding))
    ensures |list| == |CollidingKeys(models, moving, newPosition, isColliding)|
  {
    list := [];
    var id := moving.uniqueHash;
    var remaining := models.Keys;
    ghost var done: set<nat> := {};
    while remaining != {}
      invariant ScanState(models, moving, newPosition, isColliding, remaining, done, list)
      decreases |remaining|
    {
      var hash :| hash in remaining;
      var hits := hash != id && ModelsAreColliding(moving, newPosition, models[hash], isColliding);
      ScanStep(models, moving, newPosition, isColliding, remaining, done, list, hash);
      if hits {
        list := [models[hash].uniqueHash] + list;
        done := done + {hash};
      }
      remaining := remaining - {hash};
    }
    ScanDone(models, moving, newPosition, isColliding, done, list);
  }

  /// The scan with `remaining` keys left: `done` holds the colliding keys
  /// seen so far and `list` their hashes.
  ghost predicate ScanState(models: ModelStorage.Models, moving: ModelRecord.ModelData, newPosition: Option<nat>,
                            isColliding: CollisionTest, remaining: set<nat>, done: set<nat>, list: seq<nat>)
  {
    remaining <= models.Keys
    && done == CollidingKeys(models, moving, newPosition, isColliding) - remaining
    && Lists(list, HashesOf(models, done))
    && |list| == |done|
  }

  /// One key of the scan.
  lemma ScanStep(models: ModelStorage.Models, moving: ModelRecord.ModelData, newPosition: Option<nat>,
                 isColliding: CollisionTest, remaining: set<nat>, done: set<nat>, list: seq<nat>, k: nat)
    requires ScanState(models, moving, newPosition, isColliding, remaining, done, list) && k in remaining
    ensures var hits := k != moving.uniqueHash && ModelsAreColliding(moving, newPosition, models[k], isColliding);
            if hits then ScanState(models, moving, newPosition, isColliding, remaining - {k}, done + {k},
                                   [models[k].uniqueHash] + list)
            else ScanState(models, moving, newPosition, isColliding, remaining - {k}, done, list)
  {
    KeysStep(models, moving, newPosition, isColliding, remaining, k);
    ListsCons(list, HashesOf(models, done), models[k].uniqueHash);
    HashesStep(models, done, k);
    AddOne(done, k);
  }

  /// The scan's end: every key seen.
  lemma ScanDone(models: ModelStorage.Models, moving: ModelRecord.ModelData, newPosition: Option<nat>,
                 isColliding: CollisionTest, done: set<nat>, list: seq<nat>)
    requires ScanState(models, moving, newPosition, isColliding, {}, done, list)
    ensures forall x :: x in list <==> x in HashesOf(models, CollidingKeys(models, moving, newPosition, isColliding))
    ensures |list| == |CollidingKeys(models, moving, newPosition, isColliding)|
  {
    assert done == CollidingKeys(models, moving, newPosition, isColliding);
  }

  /// `list` holds exactly the members of `s`.
  ghost predicate Lists(list: seq<nat>, s: set<nat>)
  {
    forall x :: x in list <==> x in s
  }

  lemma ListsCons(list: seq<nat>, s: set<nat>, h: nat)
    requires Lists(list, s)
    ensures Lists([h] + list, s + {h})
  {
  }

  /// Adding a key to the scanned set adds its model's hash to the reported
  /// hashes.
  lemma HashesStep(models: ModelStorage.Models, done: set<nat>, k: nat)
    requires k in models
    ensures HashesOf(models, done + {k}) == HashesOf(models, done) + {models[k].uniqueHash}
  {
    assert models[k].uniqueHash in HashesOf(models, done + {k});
  }

  /// Scanning one more key adds it to the colliding keys found so far
  /// exactly when it collides.
  lemma KeysStep(models: ModelStorage.Models, moving: ModelRecord.ModelData, newPosition: Option<nat>,
                 isColliding: CollisionTest, remaining: set<nat>, k: nat)
    requires k in remaining && k in models
    ensures var all := CollidingKeys(models, moving, newPosition, isColliding);
            all - (remaining - {k}) ==
              (all - remaining) + (if k != moving.uniqueHash && ModelsAreColliding(moving, newPosition, models[k], isColliding) then {k} else {})
    ensures k !in CollidingKeys(models, moving, newPosition, isColliding) - remaining
  {
  }

  /// A new element makes a set one larger.
  lemma AddOne(s: set<nat>, k: nat)
    requires k !in s
    ensures |s + {k}| == |s| + 1
  {
  }

  /// When every key is its model's hash, the moving model's hash is not
  /// among the hashes of the other keys.
  lemma SelfNotAmongHashes(models: ModelStorage.Models, keys: set<nat>, id: nat)
    requires id !in keys
    ensures (forall k :: k in models ==> models[k].uniqueHash == k) ==> id !in HashesOf(models, keys)
  {
  }

  /// A list as long as a set is empty exactly when the set is.
  lemma CardinalityZero(keys: set<nat>, list: seq<nat>)
    requires |list| == |keys|
    ensures list == [] <==> keys == {}
  {
    if keys != {} {
      var k :| k in keys;
      assert |keys| >= 1 by {
        assert {k} <= keys;
      }
    }
  }

  /// A relative movement shifts the model's coordinates: from the cell
  /// (x, y), moving by (dx, dy) to a cell (x + dx, y + dy) inside the frame's
  /// rows lands on that cell's index.
  lemma {:induction false} RelativeMovementShiftsCoordinates(x: nat, y: nat, offset: (int, int))
    requires x < Config.RowStride
    requires 0 <= x + offset.0 < Config.RowStride && y + offset.1 >= 0
    ensures var target := EngineCoordinates.CoordinatesToIndex((x + offset.0, y + offset.1), Config.RowStride);
            CalculateRelativeMovementFramePosition(EngineCoordinates.CoordinatesToIndex((x, y), Config.RowStride), offset) == Some(target) &&
            AddIndexToCoordinates((0, 0), target) == (x + offset.0, y + offset.1)
  {
    var target := EngineCoordinates.CoordinatesToIndex((x + offset.0, y + offset.1), Config.RowStride);
    assert target == x + Config.RowStride * y + (offset.0 + Config.RowStride * offset.1) by {
      assert Config.RowStride * (y + offset.1) == Config.RowStride * y + Config.RowStride * offset.1;
    }
    EngineCoordinates.CoordinatesRoundTrip((x + offset.0, y + offset.1), Config.RowStride);
  }

  /// The unit test: ten columns left and ten rows up from a top left before
  /// the eleventh row's eleventh cell leaves the frame.
  lemma RelativeMovementOutOfBounds(position: nat)
    requires position < 10 + Config.RowStride * 10
    ensures CalculateRelativeMovementFramePosition(position, (-10, -10)).None?
  {
  }

  /// Neither an empty hitbox on the moving model nor on the other model
  /// collides, whatever the rectangles' own test says.
  lemma EmptyHitboxesNeverCollide(models: ModelStorage.Models, moving: ModelRecord.ModelData,
                                  newPosition: Option<nat>, isColliding: CollisionTest)
    ensures ModelRecord.HitboxIsEmpty(moving) ==> CollidingKeys(models, moving, newPosition, isColliding) == {}
    ensures forall k :: k in CollidingKeys(models, moving, newPosition, isColliding) ==> !ModelRecord.HitboxIsEmpty(models[k])
  {
  }
}
