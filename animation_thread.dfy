// src/models/animation_thread.rs: the request handling of the animation
// thread that drives the newer `ModelAnimator`s. The thread loop, its tick
// wait and its channels are not part of this model; the animators are shared
// references in the source and object references here.
module AnimationThread {
  import ModelAnimator

  type Animator = ModelAnimator.ModelAnimator

  datatype AnimationAction =
    | AddAnimator(animator: Animator)
    | RemoveAnimator
    | KillThread

  datatype AnimationRequest = AnimationRequest(modelUniqueHash: nat, request: AnimationAction)

  /// The request that ends the thread: the kill hash together with
  /// `KillThread`. Actions compare by variant only, so the animator an
  /// `AddAnimator` carries plays no part.
  predicate EndsThread(request: AnimationRequest, killHash: nat)
  {
    request.modelUniqueHash == killHash && request.request.KillThread?
  }

  /// Neither the kill hash alone nor `KillThread` alone ends the thread.
  lemma EndsThreadNeedsBoth(killHash: nat, other: nat, a: Animator)
    requires other != killHash
    ensures !EndsThread(AnimationRequest(other, KillThread), killHash)
    ensures !EndsThread(AnimationRequest(killHash, RemoveAnimator), killHash)
    ensures !EndsThread(AnimationRequest(killHash, AddAnimator(a)), killHash)
    ensures EndsThread(AnimationRequest(killHash, KillThread), killHash)
  {
  }

  /// `run_request`: `AddAnimator` stores the animator under the hash,
  /// replacing any there; `RemoveAnimator` drops the hash if present; any
  /// other request leaves the list alone.
  method RunRequest(animators: map<nat, Animator>, request: AnimationRequest) returns (r: map<nat, Animator>)
    ensures request.request.AddAnimator? ==> request.modelUniqueHash in r && r[request.modelUniqueHash] == request.request.animator
    ensures request.request.RemoveAnimator? ==> request.modelUniqueHash !in r
    ensures request.request.KillThread? ==> r == animators
    ensures forall h :: h != request.modelUniqueHash ==> (h in r <==> h in animators)
    ensures forall h :: h != request.modelUniqueHash && h in r ==> r[h] == animators[h]
    ensures request.modelUniqueHash in r ==> request.request.AddAnimator? || request.modelUniqueHash in animators
  {
    r := animators;
    match request.request {
      case AddAnimator(a) => r := r[request.modelUniqueHash := a];
      case RemoveAnimator => r := r - {request.modelUniqueHash};
      case KillThread =>
    }
  }

  /// Adding an animator under a new hash and then removing that hash gives
  /// back the list as it was; adding twice keeps only the second animator.
  method AddThenRemove(animators: map<nat, Animator>, hash: nat, first: Animator, second: Animator)
    returns (twice: map<nat, Animator>, removed: map<nat, Animator>)
    requires hash !in animators
    ensures twice == animators[hash := second]
    ensures removed == animators
  {
    var once := RunRequest(animators, AnimationRequest(hash, AddAnimator(first)));
    twice := RunRequest(once, AnimationRequest(hash, AddAnimator(second)));
    removed := RunRequest(twice, AnimationRequest(hash, RemoveAnimator));
  }
}
