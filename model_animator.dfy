// model_data_structures/src/models/animation/model_animator.rs: the queue of
// animation names a model runs, the start of the running animation and the
// name of the last one that ran. The running animation is the queue's front.
//
// The start is an `EventSync` clock in the source; here it is the tick at
// which the running animation (re)started, and each method that restarts it
// takes that tick as a parameter.
module ModelAnimator {
  import opened Wrappers
  import AnimationFrames

  type AnimationList = map<string, AnimationFrames.AnimationFrames>

  /// The names of `queue` that are in `list`, in order (`retain`): each
  /// listed name is kept as often as it is queued, and every other name is
  /// dropped.
  function Retain(queue: seq<string>, list: AnimationList): (r: seq<string>)
    ensures |r| <= |queue|
    ensures forall i :: 0 <= i < |r| ==> r[i] in list && r[i] in queue
    ensures forall i :: 0 <= i < |queue| && queue[i] in list ==> queue[i] in r
    ensures forall x :: multiset(r)[x] == if x in list then multiset(queue)[x] else 0
  {
    if queue == [] then []
    else
      assert queue == [queue[0]] + queue[1..];
      if queue[0] in list then [queue[0]] + Retain(queue[1..], list)
      else Retain(queue[1..], list)
  }

  /// Retaining keeps the queue's order: what is kept from the front part of
  /// a queue comes before what is kept from the back part.
  lemma {:induction false} RetainAppend(front: seq<string>, back: seq<string>, list: AnimationList)
    ensures Retain(front + back, list) == Retain(front, list) + Retain(back, list)
  {
    if front != [] {
      var q := front + back;
      assert q[0] == front[0] && q[1..] == front[1..] + back;
      RetainAppend(front[1..], back, list);
      if front[0] in list {
        calc {
          Retain(q, list);
          [front[0]] + Retain(front[1..] + back, list);
          [front[0]] + (Retain(front[1..], list) + Retain(back, list));
          ([front[0]] + Retain(front[1..], list)) + Retain(back, list);
        }
      }
    } else {
      assert front + back == back;
    }
  }

  /// Retaining twice keeps what retaining once kept.
  lemma {:induction false} RetainIdempotent(queue: seq<string>, list: AnimationList)
    ensures Retain(Retain(queue, list), list) == Retain(queue, list)
  {
    if queue != [] {
      RetainIdempotent(queue[1..], list);
      if queue[0] in list {
        assert ([queue[0]] + Retain(queue[1..], list))[1..] == Retain(queue[1..], list);
      }
    }
  }

  /// The rearmost name of `queue` that is in `list`.
  function LastExisting(queue: seq<string>, list: AnimationList): (r: Option<string>)
    ensures r.Some? ==> r.value in list && r.value in queue
    ensures r.None? ==> forall i :: 0 <= i < |queue| ==> queue[i] !in list
    ensures r.Some? ==> exists i :: 0 <= i < |queue| && queue[i] == r.value
                                    && forall j :: i < j < |queue| ==> queue[j] !in list
  {
    if queue == [] then None
    else if queue[|queue| - 1] in list then Some(queue[|queue| - 1])
    else
      var r := LastExisting(queue[..|queue| - 1], list);
      assert forall j :: 0 <= j < |queue| - 1 ==> queue[..|queue| - 1][j] == queue[j];
      r
  }

  class ModelAnimator {
    var animationQueue: seq<string>
    var currentAnimationStart: Option<nat>
    var lastRunAnimation: Option<string>

    /// `ModelAnimator::default()`.
    constructor Default()
      ensures animationQueue == [] && currentAnimationStart.None? && lastRunAnimation.None?
    {
      animationQueue := [];
      currentAnimationStart := None;
      lastRunAnimation := None;
    }

    /// A start is recorded exactly while an animation is queued; the queue
    /// operations other than `ClearQueue` and `RemoveMissingAnimationsFromQueue`
    /// leave the animator in this state.
    predicate StartMatchesQueue()
      reads this
    {
      currentAnimationStart.Some? <==> animationQueue != []
    }

    /// `has_animations_to_run`: something is queued.
    function HasAnimationsToRun(): (r: bool)
      reads this
      ensures r <==> |animationQueue| > 0
    {
      animationQueue != []
    }

    /// `get_current_animation`: the queue's front.
    function GetCurrentAnimation(): (r: Option<string>)
      reads this
      ensures r.None? <==> !HasAnimationsToRun()
      ensures r.Some? ==> r.value == animationQueue[0]
    {
      if animationQueue == [] then None else Some(animationQueue[0])
    }

    /// `restart_animation_start`.
    method RestartAnimationStart(now: nat)
      modifies this
      ensures animationQueue == old(animationQueue) && lastRunAnimation == old(lastRunAnimation)
      ensures currentAnimationStart == if animationQueue != [] then Some(now) else None
      ensures StartMatchesQueue()
    {
      currentAnimationStart := if animationQueue != [] then Some(now) else None;
    }

    /// `overwrite_current_animation`: the front, if any, becomes the last run
    /// animation, the new name is queued at the back and the start restarts.
    method OverwriteCurrentAnimation(newAnimation: string, now: nat)
      modifies this
      ensures old(animationQueue) == [] ==>
                animationQueue == [newAnimation] && lastRunAnimation == old(lastRunAnimation)
      ensures old(animationQueue) != [] ==>
                (animationQueue == old(animationQueue)[1..] + [newAnimation]
                 && lastRunAnimation == Some(old(animationQueue)[0]))
      ensures currentAnimationStart == Some(now)
      ensures StartMatchesQueue()
    {
      if animationQueue != [] {
        lastRunAnimation := Some(animationQueue[0]);
        animationQueue := animationQueue[1..];
      }
      animationQueue := animationQueue + [newAnimation];
      RestartAnimationStart(now);
    }

    /// `step_animation_queue`: the start restarts at `now` while animations
    /// are queued, the front is popped and becomes the last run animation if
    /// it is still in the list, and an emptied queue has no start.
    method StepAnimationQueue(list: AnimationList, now: nat)
      modifies this
      ensures animationQueue == if old(animationQueue) == [] then [] else old(animationQueue)[1..]
      ensures lastRunAnimation == if old(animationQueue) != [] && old(animationQueue)[0] in list
                                  then Some(old(animationQueue)[0]) else old(lastRunAnimation)
      ensures currentAnimationStart == if animationQueue != [] then Some(now) else None
      ensures StartMatchesQueue()
    {
      RestartAnimationStart(now);
      if animationQueue != [] {
        var front := animationQueue[0];
        animationQueue := animationQueue[1..];
        if front in list {
          lastRunAnimation := Some(front);
        }
      }
      if animationQueue == [] {
        currentAnimationStart := None;
      }
    }

    /// `remove_missing_animations_from_queue`: a running animation missing
    /// from the list is stepped past, then the queue keeps exactly its names
    /// that are in the list. The start is that of the step, taken before the
    /// rest of the queue is filtered.
    method RemoveMissingAnimationsFromQueue(list: AnimationList, now: nat)
      modifies this
      ensures animationQueue == Retain(old(animationQueue), list)
      ensures lastRunAnimation == old(lastRunAnimation)
      ensures old(animationQueue) != [] && old(animationQueue)[0] !in list
              ==> currentAnimationStart == if |old(animationQueue)| > 1 then Some(now) else None
      ensures old(animationQueue) == [] || old(animationQueue)[0] in list
              ==> currentAnimationStart == old(currentAnimationStart)
    {
      if animationQueue != [] && animationQueue[0] !in list {
        StepAnimationQueue(list, now);
      }
      animationQueue := Retain(animationQueue, list);
    }

    /// `clear_queue`: despite its name, the queue itself is kept; the last
    /// run animation becomes the rearmost queued name still in the list, if
    /// any, and the start is dropped.
    method ClearQueue(list: AnimationList)
      modifies this
      ensures animationQueue == old(animationQueue)
      ensures lastRunAnimation == if LastExisting(animationQueue, list).Some?
                                  then LastExisting(animationQueue, list) else old(lastRunAnimation)
      ensures currentAnimationStart.None?
    {
      var last := LastExisting(animationQueue, list);
      if last.Some? {
        lastRunAnimation := last;
      }
      currentAnimationStart := None;
    }

    /// `add_new_animation_to_queue`: with nothing running the name starts at
    /// once (through `overwrite_current_animation`), otherwise it waits at
    /// the back.
    method AddNewAnimationToQueue(newAnimation: string, now: nat)
      modifies this
      ensures animationQueue == old(animationQueue) + [newAnimation]
      ensures lastRunAnimation == old(lastRunAnimation)
      ensures old(animationQueue) == [] ==> currentAnimationStart == Some(now)
      ensures old(animationQueue) != [] ==> currentAnimationStart == old(currentAnimationStart)
      ensures old(StartMatchesQueue()) ==> StartMatchesQueue()
    {
      if GetCurrentAnimation().None? {
        OverwriteCurrentAnimation(newAnimation, now);
      } else {
        animationQueue := animationQueue + [newAnimation];
      }
    }
  }

  /// The source's `existing_queue` test: three names queued and stepped
  /// through leave nothing queued, no start, and the third as last run.
  method ExistingQueue(list: AnimationList, a: string, b: string, c: string)
    returns (queue: seq<string>, start: Option<nat>, lastRun: Option<string>)
    requires a in list && b in list && c in list
    ensures queue == [] && start.None? && lastRun == Some(c)
  {
    var animator := new ModelAnimator.Default();
    animator.AddNewAnimationToQueue(a, 0);
    animator.AddNewAnimationToQueue(b, 0);
    animator.AddNewAnimationToQueue(c, 0);
    animator.StepAnimationQueue(list, 1);
    animator.StepAnimationQueue(list, 2);
    animator.StepAnimationQueue(list, 3);
    queue, start, lastRun := animator.animationQueue, animator.currentAnimationStart, animator.lastRunAnimation;
  }

  /// The source's `empty_queue_no_running_animation` test: stepping an empty
  /// animator changes nothing.
  method StepEmpty(list: AnimationList) returns (queue: seq<string>, start: Option<nat>, lastRun: Option<string>)
    ensures queue == [] && start.None? && lastRun.None?
  {
    var animator := new ModelAnimator.Default();
    animator.StepAnimationQueue(list, 0);
    queue, start, lastRun := animator.animationQueue, animator.currentAnimationStart, animator.lastRunAnimation;
  }

  /// The source's `clean_animation_queue_logic` test: removing the first of
  /// two queued animations from the list leaves the second running; removing
  /// the second empties the queue.
  method CleanAnimationQueue(list: AnimationList, one: string, two: string)
    returns (afterFirst: seq<string>, afterSecond: seq<string>)
    requires one in list && two in list && one != two
    ensures afterFirst == [two] && afterSecond == []
  {
    var animator := new ModelAnimator.Default();
    animator.AddNewAnimationToQueue(one, 0);
    animator.AddNewAnimationToQueue(two, 0);
    var list1 := list - {one};
    animator.RemoveMissingAnimationsFromQueue(list1, 1);
    afterFirst := animator.animationQueue;
    var list2 := list1 - {two};
    animator.RemoveMissingAnimationsFromQueue(list2, 2);
    afterSecond := animator.animationQueue;
  }
}
