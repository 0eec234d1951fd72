// src/models/animation/animation_frames.rs: the older animation values. A
// frame is a plain string appearance with a duration in ticks (a `u32`) and
// an optional replacement for the anchor character.
module OldAnimationFrames {
  import opened Wrappers
  import Config
  import Arith

  /// `AnimationFrame::new` and its getters are the constructor and the
  /// fields of this datatype.
  datatype AnimationFrame = AnimationFrame(
    appearance: string,
    frameDuration: nat,
    anchorReplacementCharacter: Option<char>)

  datatype AnimationLoopCount = Forever | Limited(count: nat)

  datatype AnimationFrames = AnimationFrames(frames: seq<AnimationFrame>, loopCount: AnimationLoopCount)

  /// `AnimationFrames::new`.
  function New(frames: seq<AnimationFrame>, loopCount: AnimationLoopCount): (r: AnimationFrames)
    ensures r.frames == frames && r.loopCount == loopCount
  {
    AnimationFrames(frames, loopCount)
  }

  /// `frame_count`: the number of frames.
  function FrameCount(a: AnimationFrames): (n: nat)
    ensures n == |a.frames|
  {
    |a.frames|
  }

  /// `get_frame`: the frame at `index`, if there is one.
  function GetFrame(a: AnimationFrames, index: nat): (r: Option<AnimationFrame>)
    ensures r.Some? <==> index < FrameCount(a)
    ensures r.Some? ==> r.value == a.frames[index]
  {
    if index < |a.frames| then Some(a.frames[index]) else None
  }

  /// `new` keeps the frames in their order and the loop count as given.
  lemma NewKeepsFrames(frames: seq<AnimationFrame>, loopCount: AnimationLoopCount, index: nat)
    ensures FrameCount(New(frames, loopCount)) == |frames| && New(frames, loopCount).loopCount == loopCount
    ensures GetFrame(New(frames, loopCount), index) == if index < |frames| then Some(frames[index]) else None
  {
  }

  /// `AnimationLoopCount::reached_loop_count`: never for `Forever`, and for
  /// `Limited(m)` exactly when the counter equals m.
  predicate LoopCountReached(loopCount: AnimationLoopCount, loops: nat)
  {
    match loopCount
    case Forever => false
    case Limited(m) => m == loops
  }

  /// `AnimationFrames::reached_loop_count`: the whole loops in
  /// `framesIteratedThrough`, cast to `u32`, against the loop count. No
  /// frames divides by zero in the source.
  function ReachedLoopCount(a: AnimationFrames, framesIteratedThrough: nat): (r: bool)
    requires FrameCount(a) > 0
    ensures r <==> a.loopCount.Limited?
                   && (framesIteratedThrough / FrameCount(a)) % Config.U32Limit == a.loopCount.count
  {
    LoopCountReached(a.loopCount, (framesIteratedThrough / FrameCount(a)) % Config.U32Limit)
  }

  /// A `Forever` animation never reaches its loop count.
  lemma ForeverNeverReached(a: AnimationFrames, k: nat)
    requires FrameCount(a) > 0 && a.loopCount == Forever
    ensures !ReachedLoopCount(a, k)
  {
  }

  /// With `Limited(n)` (a `u32`), counting up from zero, the loop count is
  /// first reached after exactly `n` times the number of frames.
  lemma {:induction false} LimitedLoopsEndAfterAllFrames(a: AnimationFrames, k: nat)
    requires FrameCount(a) > 0 && a.loopCount.Limited? && a.loopCount.count < Config.U32Limit
    requires k <= a.loopCount.count * FrameCount(a)
    ensures ReachedLoopCount(a, k) <==> k == a.loopCount.count * FrameCount(a)
  {
    var n, c := a.loopCount.count, FrameCount(a);
    var q := k / c;
    assert k == k % c + c * q;
    assert q <= n;
    assert q % Config.U32Limit == q;
    if k == n * c {
      Arith.DivModUnique(k, c, n, 0);
    } else if q == n {
      assert false;
    }
  }
}

// src/models/animation/animation_frames_iterators.rs: the older iterator over
// an animation. Its counter counts the frames handed out; the frame handed
// out is the counter modulo the number of frames.
module OldAnimationFramesIterators {
  import opened Wrappers
  import opened OldAnimationFrames
  import Config

  class AnimationFramesIntoIter {
    var frames: AnimationFrames
    var currentLoopCounter: nat

    /// `into_iter`: the counter starts at zero.
    constructor IntoIter(a: AnimationFrames)
      ensures frames == a && currentLoopCounter == 0
    {
      frames := a;
      currentLoopCounter := 0;
    }

    /// The frame at the counter, whether or not the loop count is reached.
    function FrameAtCounter(): (f: AnimationFrame)
      reads this
      requires FrameCount(frames) > 0
      ensures f in frames.frames
    {
      frames.frames[currentLoopCounter % FrameCount(frames)]
    }

    /// `next`: nothing, without advancing, once the loop count is reached;
    /// otherwise the frame at the counter, which then advances by one. No
    /// frames divides by zero, and the `u64` counter may not pass its limit.
    method Next() returns (r: Option<AnimationFrame>)
      requires FrameCount(frames) > 0
      requires !ReachedLoopCount(frames, currentLoopCounter) ==> currentLoopCounter + 1 < Config.U64Limit
      modifies this
      ensures frames == old(frames)
      ensures ReachedLoopCount(old(frames), old(currentLoopCounter))
              ==> r.None? && currentLoopCounter == old(currentLoopCounter)
      ensures !ReachedLoopCount(old(frames), old(currentLoopCounter))
              ==> r == Some(old(FrameAtCounter())) && currentLoopCounter == old(currentLoopCounter) + 1
    {
      if ReachedLoopCount(frames, currentLoopCounter) {
        return None;
      }
      var item := GetFrame(frames, currentLoopCounter % FrameCount(frames));
      currentLoopCounter := currentLoopCounter + 1;
      r := item;
    }

    /// `current_frame_duration`: the duration of the frame `next` hands out
    /// unless the loop count is reached.
    function CurrentFrameDuration(): (d: Option<nat>)
      reads this
      requires FrameCount(frames) > 0
      ensures d.Some? && d.value == FrameAtCounter().frameDuration
    {
      Some(GetFrame(frames, currentLoopCounter % FrameCount(frames)).value.frameDuration)
    }
  }

  /// The source's test: three frames, two loops, then nothing.
  method IterLogic(l: AnimationFrame, m: AnimationFrame, n: AnimationFrame)
    returns (yielded: seq<Option<AnimationFrame>>)
    ensures yielded == [Some(l), Some(m), Some(n), Some(l), Some(m), Some(n), None]
  {
    var it := new AnimationFramesIntoIter.IntoIter(New([l, m, n], Limited(2)));
    yielded := [];
    while |yielded| < 6
      invariant |yielded| <= 6 && it.currentLoopCounter == |yielded|
      invariant it.frames == New([l, m, n], Limited(2))
      invariant yielded == [Some(l), Some(m), Some(n), Some(l), Some(m), Some(n)][..|yielded|]
    {
      var f := it.Next();
      yielded := yielded + [f];
    }
    var last := it.Next();
    yielded := yielded + [last];
  }

  /// Once `next` has returned nothing the counter stays put, so every later
  /// call returns nothing as well.
  method ExhaustedStaysExhausted(it: AnimationFramesIntoIter) returns (first: Option<AnimationFrame>, second: Option<AnimationFrame>)
    requires FrameCount(it.frames) > 0
    requires ReachedLoopCount(it.frames, it.currentLoopCounter)
    modifies it
    ensures first.None? && second.None?
  {
    first := it.Next();
    second := it.Next();
  }
}

// src/models/animation.rs: the animator each model has on the older
// animation thread (a queue of animations and the iterator of the one
// running), the request dispatch, and the model's list of named animations.
// The thread loop, the channels and the frame change through `ModelData` are
// not part of this model.
module OldModelAnimation {
  import opened Wrappers
  import opened OldAnimationFrames
  import opened OldAnimationFramesIterators
  import ModelRecord

  /// The errors these operations return; the enum they come from
  /// (`crate::errors`) is not part of this model.
  datatype OldAnimationError =
    | EmptyQueue
    | AnimationDoesntExist
    | AnimationAlreadyExists
    | AnimationDataAlreadyHasConnection
    | AnimationNotStarted

  datatype AnimationAction =
    | AddToQueue(frames: AnimationFrames)
    | OverwriteCurrentAnimation(frames: AnimationFrames)
    | ClearQueue
    | AddAnimator(model: ModelRecord.ModelData)
    | RemoveAnimatior
    | KillThread

  datatype AnimationRequest = AnimationRequest(modelUniqueHash: nat, request: AnimationAction)

  class ModelAnimatorData {
    var model: ModelRecord.ModelData
    var animationQueue: seq<AnimationFrames>
    var currentAnimation: Option<AnimationFramesIntoIter>
    var iterationOfLastFrameChange: nat

    /// `new`: nothing queued, nothing running.
    constructor New(model: ModelRecord.ModelData)
      ensures this.model == model && animationQueue == [] && currentAnimation.None?
      ensures iterationOfLastFrameChange == 0
      ensures !HasAnimationsToRun()
    {
      this.model := model;
      animationQueue := [];
      currentAnimation := None;
      iterationOfLastFrameChange := 0;
    }

    /// `has_animations_queued`.
    function HasAnimationsQueued(): (r: bool)
      reads this
      ensures r <==> |animationQueue| > 0
    {
      animationQueue != []
    }

    /// `has_animations_to_run`: something queued or something running.
    function HasAnimationsToRun(): (r: bool)
      reads this
      ensures !r <==> animationQueue == [] && currentAnimation.None?
    {
      HasAnimationsQueued() || currentAnimation.Some?
    }

    /// `overwrite_current_animation`: a fresh iterator over the animation
    /// becomes the running one; the queue is kept.
    method OverwriteCurrentAnimation(newAnimation: AnimationFrames)
      modifies this
      ensures Runs(newAnimation)
      ensures animationQueue == old(animationQueue) && model == old(model)
      ensures iterationOfLastFrameChange == old(iterationOfLastFrameChange)
    {
      var it := new AnimationFramesIntoIter.IntoIter(newAnimation);
      currentAnimation := Some(it);
    }

    /// The running animation is a fresh iterator at the first frame of `a`.
    twostate predicate Runs(a: AnimationFrames)
      reads this, if currentAnimation.Some? then {currentAnimation.value} else {}
    {
      currentAnimation.Some? && fresh(currentAnimation.value) &&
      currentAnimation.value.frames == a && currentAnimation.value.currentLoopCounter == 0
    }

    /// `add_new_animation_to_queue`: runs the animation at once if nothing
    /// runs, and otherwise appends it to the queue.
    method AddNewAnimationToQueue(newAnimation: AnimationFrames)
      modifies this
      ensures Added(newAnimation)
      ensures HasAnimationsToRun()
    {
      if currentAnimation.None? {
        var it := new AnimationFramesIntoIter.IntoIter(newAnimation);
        currentAnimation := Some(it);
      } else {
        animationQueue := animationQueue + [newAnimation];
      }
    }

    /// The state `add_new_animation_to_queue` leaves.
    twostate predicate Added(a: AnimationFrames)
      reads this, if currentAnimation.Some? then {currentAnimation.value} else {}
    {
      model == old(model) && iterationOfLastFrameChange == old(iterationOfLastFrameChange) &&
      if old(currentAnimation).None? then Runs(a) && animationQueue == old(animationQueue)
      else currentAnimation == old(currentAnimation) && animationQueue == old(animationQueue) + [a]
    }

    /// `clear_queue`: the queue empties and the running animation stays.
    method ClearQueue()
      modifies this
      ensures animationQueue == [] && !HasAnimationsQueued()
      ensures currentAnimation == old(currentAnimation) && model == old(model)
      ensures iterationOfLastFrameChange == old(iterationOfLastFrameChange)
    {
      animationQueue := [];
    }

    /// `overwrite_current_animation_with_first_in_queue`: the front of the
    /// queue becomes the running animation; an empty queue is an error and
    /// leaves everything as it was.
    method OverwriteCurrentAnimationWithFirstInQueue() returns (r: Result<Unit, OldAnimationError>)
      modifies this
      ensures old(animationQueue) == [] ==> r == Err(EmptyQueue) && currentAnimation == old(currentAnimation) && animationQueue == []
      ensures old(animationQueue) != [] ==> r.Ok? && Runs(old(animationQueue)[0]) && animationQueue == old(animationQueue)[1..]
      ensures model == old(model) && iterationOfLastFrameChange == old(iterationOfLastFrameChange)
    {
      if animationQueue == [] {
        return Err(EmptyQueue);
      }
      var newAnimation := animationQueue[0];
      animationQueue := animationQueue[1..];
      OverwriteCurrentAnimation(newAnimation);
      r := Ok(Unit);
    }

    /// `update_when_last_frame_changed`.
    method UpdateWhenLastFrameChanged(currentIteration: nat)
      modifies this
      ensures iterationOfLastFrameChange == currentIteration
      ensures animationQueue == old(animationQueue) && currentAnimation == old(currentAnimation) && model == old(model)
    {
      iterationOfLastFrameChange := currentIteration;
    }

    /// The running animation, if any, has a frame, so that reading its
    /// current frame does not divide by zero.
    predicate CurrentHasFrames()
      reads this, if currentAnimation.Some? then {currentAnimation.value} else {}
    {
      currentAnimation.Some? ==> FrameCount(currentAnimation.value.frames) > 0
    }

    /// The shape the running animation must have for the source not to
    /// divide by zero or overflow its counter when it steps.
    predicate CurrentIsPlayable()
      reads this, if currentAnimation.Some? then {currentAnimation.value} else {}
    {
      CurrentHasFrames() &&
      (currentAnimation.Some? ==>
        (!ReachedLoopCount(currentAnimation.value.frames, currentAnimation.value.currentLoopCounter) ==>
          currentAnimation.value.currentLoopCounter + 1 < 0x1_0000_0000_0000_0000))
    }

    /// `next_frame`: nothing when no animation runs, else the iterator's
    /// next frame.
    method NextFrame() returns (r: Option<AnimationFrame>)
      requires CurrentIsPlayable()
      modifies if currentAnimation.Some? then {currentAnimation.value} else {}
      ensures currentAnimation == old(currentAnimation)
      ensures old(currentAnimation).None? ==> r.None?
      ensures old(currentAnimation).Some? ==>
        var it := currentAnimation.value;
        it.frames == old(it.frames) &&
        if ReachedLoopCount(old(it.frames), old(it.currentLoopCounter))
        then r.None? && it.currentLoopCounter == old(it.currentLoopCounter)
        else r == Some(old(it.FrameAtCounter())) && it.currentLoopCounter == old(it.currentLoopCounter) + 1
    {
      if currentAnimation.None? {
        return None;
      }
      r := currentAnimation.value.Next();
    }

    /// `get_current_animation_frame_duration`: nothing when no animation
    /// runs, else the duration of the running iterator's current frame.
    function GetCurrentAnimationFrameDuration(): (d: Option<nat>)
      reads this, if currentAnimation.Some? then {currentAnimation.value} else {}
      requires CurrentHasFrames()
      ensures d.None? <==> currentAnimation.None?
      ensures d.Some? ==> d.value == currentAnimation.value.FrameAtCounter().frameDuration
    {
      if currentAnimation.Some? then currentAnimation.value.CurrentFrameDuration() else None
    }

    /// `current_frame_duration_is_finished`: with no running animation this
    /// holds (so the caller moves on); otherwise it holds once the current
    /// frame's duration has passed since the last change.
    function CurrentFrameDurationIsFinished(currentIteration: nat): (r: bool)
      reads this, if currentAnimation.Some? then {currentAnimation.value} else {}
      requires CurrentHasFrames()
      ensures currentAnimation.None? ==> r
      ensures currentAnimation.Some? ==>
        (r <==> iterationOfLastFrameChange + currentAnimation.value.FrameAtCounter().frameDuration <= currentIteration)
    {
      var duration := GetCurrentAnimationFrameDuration();
      if duration.Some? then iterationOfLastFrameChange + duration.value <= currentIteration else true
    }

    /// `run_request`: queue requests are applied and answer false, a removal
    /// request answers true, and adding an animator through a model changes
    /// nothing. A kill request panics in the source.
    method RunRequest(action: AnimationAction) returns (removal: bool)
      requires !action.KillThread?
      modifies this
      ensures removal <==> action.RemoveAnimatior?
      ensures RequestApplied(action)
    {
      match action {
        case AddToQueue(a) => AddNewAnimationToQueue(a);
        case OverwriteCurrentAnimation(a) => OverwriteCurrentAnimation(a);
        case ClearQueue => ClearQueue();
        case RemoveAnimatior => return true;
        case AddAnimator(_) =>
      }
      removal := false;
    }

    /// What `run_request` does to the animator.
    twostate predicate RequestApplied(action: AnimationAction)
      reads this, if currentAnimation.Some? then {currentAnimation.value} else {}
    {
      match action
      case AddToQueue(a) => Added(a)
      case OverwriteCurrentAnimation(a) =>
        Runs(a) && animationQueue == old(animationQueue) && model == old(model) &&
        iterationOfLastFrameChange == old(iterationOfLastFrameChange)
      case ClearQueue =>
        animationQueue == [] && currentAnimation == old(currentAnimation) && model == old(model) &&
        iterationOfLastFrameChange == old(iterationOfLastFrameChange)
      case _ => Unchanged()
    }

    twostate predicate Unchanged()
      reads this
    {
      animationQueue == old(animationQueue) && currentAnimation == old(currentAnimation) &&
      model == old(model) && iterationOfLastFrameChange == old(iterationOfLastFrameChange)
    }
  }

  /// `no_animators_are_running`: no animator has anything queued or running.
  predicate NoAnimatorsAreRunning(animators: map<nat, ModelAnimatorData>)
    reads animators.Values
  {
    forall a :: a in animators.Values ==> a.animationQueue == [] && a.currentAnimation.None?
  }

  /// `NoAnimatorsAreRunning` holds exactly when no animator has animations
  /// to run.
  lemma NoAnimatorsAreRunningIff(animators: map<nat, ModelAnimatorData>)
    ensures NoAnimatorsAreRunning(animators) <==> forall h :: h in animators ==> !animators[h].HasAnimationsToRun()
  {
    if !NoAnimatorsAreRunning(animators) {
      var a :| a in animators.Values && !(a.animationQueue == [] && a.currentAnimation.None?);
      var h :| h in animators && animators[h] == a;
    }
  }

  /// `run_model_request`: a request for a known model is run by its
  /// animator, which is dropped when the request asks for it; a request for
  /// an unknown model adds an animator when it is `AddAnimator` and is
  /// ignored otherwise. A kill request reaching an animator panics.
  method RunModelRequest(animators: map<nat, ModelAnimatorData>, request: AnimationRequest)
    returns (r: map<nat, ModelAnimatorData>)
    requires request.modelUniqueHash in animators ==> !request.request.KillThread?
    modifies if request.modelUniqueHash in animators then {animators[request.modelUniqueHash]} else {}
    ensures var h := request.modelUniqueHash;
      if h in animators then
        animators[h].RequestApplied(request.request) &&
        r == if request.request.RemoveAnimatior? then animators - {h} else animators
      else if request.request.AddAnimator? then
        h in r && fresh(r[h]) && r == animators[h := r[h]] &&
        r[h].model == request.request.model && !r[h].HasAnimationsToRun() &&
        r[h].iterationOfLastFrameChange == 0
      else r == animators
  {
    var h := request.modelUniqueHash;
    if h in animators {
      var removal := animators[h].RunRequest(request.request);
      r := if removal then animators - {h} else animators;
    } else if request.request.AddAnimator? {
      var animator := new ModelAnimatorData.New(request.request.model);
      r := animators[h := animator];
    } else {
      r := animators;
    }
  }

  class ModelAnimationData {
    var animations: map<string, AnimationFrames>
    /// The sender to the animation thread, named by a number.
    var animationCommunicator: Option<nat>

    /// `new`: no animations, not connected.
    constructor New()
      ensures animations == map[] && animationCommunicator.None?
    {
      animations := map[];
      animationCommunicator := None;
    }

    /// `is_started`: connected to the animation thread.
    function IsStarted(): (r: bool)
      reads this
      ensures r <==> animationCommunicator.Some?
    {
      animationCommunicator.Some?
    }

    /// `contains_animation`: the name is stored.
    function ContainsAnimation(name: string): (r: bool)
      reads this
      ensures r <==> name in animations.Keys
    {
      name in animations
    }

    /// `get_animation`: the stored frames, or `AnimationDoesntExist`.
    function GetAnimation(name: string): (r: Result<AnimationFrames, OldAnimationError>)
      reads this
      ensures r.Ok? <==> ContainsAnimation(name)
      ensures r.Ok? ==> r.value == animations[name]
      ensures r.Err? ==> r.error == AnimationDoesntExist
    {
      if name in animations then Ok(animations[name]) else Err(AnimationDoesntExist)
    }

    /// `add_new_animation_to_list`: a new name is stored; a name already
    /// there is `AnimationAlreadyExists` and nothing changes.
    method AddNewAnimationToList(name: string, animation: AnimationFrames) returns (r: Result<Unit, OldAnimationError>)
      modifies this
      ensures old(ContainsAnimation(name)) ==> r == Err(AnimationAlreadyExists) && animations == old(animations)
      ensures !old(ContainsAnimation(name)) ==> r.Ok? && animations == old(animations)[name := animation]
      ensures GetAnimation(name).Ok? && animationCommunicator == old(animationCommunicator)
    {
      if name in animations {
        return Err(AnimationAlreadyExists);
      }
      animations := animations[name := animation];
      r := Ok(Unit);
    }

    /// `remove_animation_from_list`: the stored frames, which are removed,
    /// or `AnimationDoesntExist`.
    method RemoveAnimationFromList(name: string) returns (r: Result<AnimationFrames, OldAnimationError>)
      modifies this
      ensures r == old(GetAnimation(name))
      ensures animations == old(animations) - {name} && !ContainsAnimation(name)
      ensures animationCommunicator == old(animationCommunicator)
    {
      r := GetAnimation(name);
      animations := animations - {name};
    }

    /// `assign_communicator`: connects once; a second connection is
    /// `AnimationDataAlreadyHasConnection` and keeps the first.
    method AssignCommunicator(communicator: nat) returns (r: Result<Unit, OldAnimationError>)
      modifies this
      ensures old(IsStarted()) ==> r == Err(AnimationDataAlreadyHasConnection) && animationCommunicator == old(animationCommunicator)
      ensures !old(IsStarted()) ==> r.Ok? && animationCommunicator == Some(communicator)
      ensures IsStarted() && animations == old(animations)
    {
      if animationCommunicator.Some? {
        return Err(AnimationDataAlreadyHasConnection);
      }
      animationCommunicator := Some(communicator);
      r := Ok(Unit);
    }

    /// `send_request`, without the send: `AnimationNotStarted` unless
    /// connected.
    function SendRequest(modelHash: nat, request: AnimationAction): (r: Result<Unit, OldAnimationError>)
      reads this
      ensures r.Ok? <==> IsStarted()
      ensures r.Err? ==> r.error == AnimationNotStarted
    {
      if animationCommunicator.Some? then Ok(Unit) else Err(AnimationNotStarted)
    }
  }

  /// An animation added and then removed comes back out, and the list
  /// is as it was before.
  method AddThenRemove(name: string, animation: AnimationFrames)
    returns (added: Result<Unit, OldAnimationError>, again: Result<Unit, OldAnimationError>,
             removed: Result<AnimationFrames, OldAnimationError>, missing: Result<AnimationFrames, OldAnimationError>)
    ensures added.Ok? && again == Err(AnimationAlreadyExists)
    ensures removed == Ok(animation) && missing == Err(AnimationDoesntExist)
  {
    var data := new ModelAnimationData.New();
    added := data.AddNewAnimationToList(name, animation);
    again := data.AddNewAnimationToList(name, animation);
    removed := data.RemoveAnimationFromList(name);
    missing := data.RemoveAnimationFromList(name);
  }

  /// A second communicator is refused.
  method ConnectTwice() returns (first: Result<Unit, OldAnimationError>, second: Result<Unit, OldAnimationError>, sent: Result<Unit, OldAnimationError>)
    ensures first.Ok? && second == Err(AnimationDataAlreadyHasConnection) && sent.Ok?
  {
    var data := new ModelAnimationData.New();
    first := data.AssignCommunicator(1);
    second := data.AssignCommunicator(2);
    sent := data.SendRequest(7, ClearQueue);
  }

  /// The source's run-request tests: the first animation added runs at
  /// once, the second is queued, a clear empties the queue and keeps the
  /// running one, and a removal request answers true.
  method RunRequestLogic(model: ModelRecord.ModelData, a: AnimationFrames, b: AnimationFrames)
    returns (queuedAfterOne: nat, queuedAfterTwo: nat, queuedAfterClear: nat, stillRuns: bool, removal: bool)
    ensures queuedAfterOne == 0 && queuedAfterTwo == 1 && queuedAfterClear == 0
    ensures stillRuns && removal
  {
    var animator := new ModelAnimatorData.New(model);
    var r := animator.RunRequest(AddToQueue(a));
    queuedAfterOne := |animator.animationQueue|;
    r := animator.RunRequest(AddToQueue(b));
    queuedAfterTwo := |animator.animationQueue|;
    r := animator.RunRequest(ClearQueue);
    queuedAfterClear := |animator.animationQueue|;
    stillRuns := animator.HasAnimationsToRun();
    removal := animator.RunRequest(RemoveAnimatior);
  }

  /// An animator added for an unknown model is idle, so a list that was
  /// idle stays idle; a removal request takes it out again.
  method AddThenRemoveAnimator(animators: map<nat, ModelAnimatorData>, hash: nat, model: ModelRecord.ModelData)
    returns (added: map<nat, ModelAnimatorData>, removed: map<nat, ModelAnimatorData>)
    requires hash !in animators && NoAnimatorsAreRunning(animators)
    ensures NoAnimatorsAreRunning(added) && hash in added
    ensures removed == animators
  {
    added := RunModelRequest(animators, AnimationRequest(hash, AddAnimator(model)));
    forall a | a in added.Values
      ensures a.animationQueue == [] && a.currentAnimation.None?
    {
      var k :| k in added && added[k] == a;
      if k != hash {
        assert a in animators.Values;
      }
    }
    removed := RunModelRequest(added, AnimationRequest(hash, RemoveAnimatior));
    assert removed == animators;
  }
}
