// model_data_structures/src/models/animation/animation_frames.rs: an
// animation is a list of frames, each a sprite shown for a number of ticks,
// played once per loop a limited number of times or forever.
//
// `AnimationFrames` is a plain value in the source (cloned into iterators and
// animation lists), so `pause` and `start` are functions to the new value.
module AnimationFrames {
  import opened Wrappers
  import Sprites

  type Sprite = Sprites.Sprite

  /// A frame: its appearance and how many ticks it lives for.
  datatype AnimationFrame = AnimationFrame(appearance: Sprite, frameDuration: nat)

  datatype AnimationLoopCount = Forever | Limited(count: nat)

  datatype AnimationFrames = AnimationFrames(
    frames: seq<AnimationFrame>,
    loopCount: AnimationLoopCount,
    restingAppearance: Option<Sprite>,
    running: bool)

  /// `AnimationFrames::new`: running from the start.
  function New(frames: seq<AnimationFrame>, loopCount: AnimationLoopCount,
               restingAppearance: Option<Sprite>): (a: AnimationFrames)
    ensures a.frames == frames && a.loopCount == loopCount
    ensures a.restingAppearance == restingAppearance && a.running
  {
    AnimationFrames(frames, loopCount, restingAppearance, true)
  }

  /// `get_frame`.
  function GetFrame(a: AnimationFrames, index: nat): (r: Option<AnimationFrame>)
    ensures r.Some? <==> index < |a.frames|
    ensures r.Some? ==> r.value == a.frames[index]
  {
    if index < |a.frames| then Some(a.frames[index]) else None
  }

  /// `frame_count`: the frames `get_frame` can return are those below it.
  function FrameCount(a: AnimationFrames): (n: nat)
    ensures forall index: nat :: GetFrame(a, index).Some? <==> index < n
  {
    |a.frames|
  }

  /// `AnimationLoopCount::reached_loop_count`: never for `Forever`, and for
  /// `Limited(m)` exactly when the counter EQUALS m.
  predicate LoopCountReached(loopCount: AnimationLoopCount, loops: nat)
  {
    match loopCount
    case Forever => false
    case Limited(m) => m == loops
  }

  lemma LoopCountReachedIff(loopCount: AnimationLoopCount, loops: nat)
    ensures LoopCountReached(loopCount, loops) <==> loopCount.Limited? && loopCount.count == loops
  {
  }

  /// `AnimationFrames::reached_loop_count`: the number of whole loops in
  /// `framesIteratedThrough` against the loop count (no frames divides by
  /// zero in the source).
  function ReachedLoopCount(a: AnimationFrames, framesIteratedThrough: nat): (r: bool)
    requires FrameCount(a) > 0
    ensures r <==> a.loopCount.Limited? && framesIteratedThrough / FrameCount(a) == a.loopCount.count
  {
    LoopCountReached(a.loopCount, framesIteratedThrough / FrameCount(a))
  }

  /// `pause`.
  function Pause(a: AnimationFrames): (r: AnimationFrames)
    ensures !r.running && r.(running := a.running) == a
  {
    a.(running := false)
  }

  /// `start`.
  function Start(a: AnimationFrames): (r: AnimationFrames)
    ensures r.running && r.(running := a.running) == a
  {
    a.(running := true)
  }

  /// The sum of the durations of `frames`.
  function SumDurations(frames: seq<AnimationFrame>): (r: nat)
    ensures forall i :: 0 <= i < |frames| ==> frames[i].frameDuration <= r
  {
    if frames == [] then 0 else frames[0].frameDuration + SumDurations(frames[1..])
  }

  /// `get_cycle_duration`: the ticks of one loop.
  function GetCycleDuration(a: AnimationFrames): (r: nat)
    ensures forall i :: 0 <= i < |a.frames| ==> a.frames[i].frameDuration <= r
  {
    SumDurations(a.frames)
  }

  /// `get_total_duration`: none for a never-ending animation, else one cycle
  /// times the loop count.
  function GetTotalDuration(a: AnimationFrames): (r: Option<nat>)
    ensures r.None? <==> a.loopCount == Forever
    ensures r.Some? ==> r.value == GetCycleDuration(a) * a.loopCount.count
  {
    match a.loopCount
    case Forever => None
    case Limited(n) => Some(GetCycleDuration(a) * n)
  }

  /// The ticks taken by the first `k` frames.
  function StartOfFrame(frames: seq<AnimationFrame>, k: nat): nat
    requires k <= |frames|
  {
    SumDurations(frames[..k])
  }

  /// The frame showing `t` ticks into a loop: the one whose window of ticks
  /// holds `t`.
  function FrameAt(frames: seq<AnimationFrame>, t: nat): (k: nat)
    requires t < SumDurations(frames)
    ensures k < |frames|
  {
    if t < frames[0].frameDuration then 0 else 1 + FrameAt(frames[1..], t - frames[0].frameDuration)
  }

  /// `FrameAt` picks the frame whose window `[start, start + duration)`
  /// contains `t`, so exactly the frame a player of the cycle would show.
  lemma {:induction false} FrameAtWindow(frames: seq<AnimationFrame>, t: nat)
    requires t < SumDurations(frames)
    ensures StartOfFrame(frames, FrameAt(frames, t)) <= t
    ensures t < StartOfFrame(frames, FrameAt(frames, t)) + frames[FrameAt(frames, t)].frameDuration
  {
    var k := FrameAt(frames, t);
    if t < frames[0].frameDuration {
      assert frames[..0] == [];
    } else {
      var rest := frames[1..];
      FrameAtWindow(rest, t - frames[0].frameDuration);
      StartOfFrameCons(frames, k);
    }
  }

  lemma StartOfFrameCons(frames: seq<AnimationFrame>, k: nat)
    requires 0 < k <= |frames|
    ensures StartOfFrame(frames, k) == frames[0].frameDuration + StartOfFrame(frames[1..], k - 1)
  {
    assert frames[..k][1..] == frames[1..][..k - 1];
  }

  /// The frame shown `ticks` ticks after the animation started: none once
  /// the total duration has passed, otherwise the frame holding
  /// `ticks % cycle`. A never-ending animation of zero-tick frames divides
  /// by zero in the source.
  function FrameBasedOnTicks(a: AnimationFrames, ticks: nat): (r: Option<AnimationFrame>)
    requires a.loopCount == Forever ==> GetCycleDuration(a) > 0
    ensures r.None? <==> GetTotalDuration(a).Some? && GetTotalDuration(a).value <= ticks
  {
    var total := GetTotalDuration(a);
    if total.Some? && total.value <= ticks then None
    else
      assert GetCycleDuration(a) > 0;
      Some(a.frames[FrameAt(a.frames, ticks % GetCycleDuration(a))])
  }

  /// `get_frame_based_on_ticks`: the same frame, found by walking the frames
  /// and spending each one's duration from the remaining ticks.
  method GetFrameBasedOnTicks(a: AnimationFrames, ticks: nat) returns (r: Option<AnimationFrame>)
    requires a.loopCount == Forever ==> GetCycleDuration(a) > 0
    ensures r == FrameBasedOnTicks(a, ticks)
  {
    var total := GetTotalDuration(a);
    if total.Some? && total.value <= ticks {
      return None;
    }
    var frames := a.frames;
    var cycle := GetCycleDuration(a);
    var remainingTicks: nat := ticks % cycle;
    ghost var t := remainingTicks;
    assert frames[0..] == frames;
    var i := 0;
    while i < |frames| && remainingTicks >= frames[i].frameDuration
      invariant i <= |frames|
      invariant remainingTicks < SumDurations(frames[i..])
      invariant t < SumDurations(frames)
      invariant FrameAt(frames, t) == i + FrameAt(frames[i..], remainingTicks)
      decreases |frames| - i
    {
      FrameAtStep(frames, i, remainingTicks);
      remainingTicks := remainingTicks - frames[i].frameDuration;
      i := i + 1;
    }
    if i == |frames| {
      assert false;
    }
    r := GetFrame(a, i);
  }

  /// A frame whose duration the remaining ticks cover is skipped.
  lemma FrameAtStep(frames: seq<AnimationFrame>, i: nat, remaining: nat)
    requires i < |frames| && remaining < SumDurations(frames[i..])
    requires remaining >= frames[i].frameDuration
    ensures remaining - frames[i].frameDuration < SumDurations(frames[i + 1..])
    ensures FrameAt(frames[i..], remaining)
            == 1 + FrameAt(frames[i + 1..], remaining - frames[i].frameDuration)
  {
    assert frames[i..][1..] == frames[i + 1..];
  }

  /// `From<(loop_count, [(duration, sprite)], resting)>`: the pairs become
  /// frames in order, and the animation runs.
  function FromPairs(loopCount: AnimationLoopCount, pairs: seq<(nat, Sprite)>,
                     restingAppearance: Option<Sprite>): (a: AnimationFrames)
    ensures |a.frames| == |pairs|
    ensures forall i :: 0 <= i < |pairs| ==> a.frames[i] == AnimationFrame(pairs[i].1, pairs[i].0)
    ensures a.loopCount == loopCount && a.restingAppearance == restingAppearance && a.running
  {
    New(PairsToFrames(pairs), loopCount, restingAppearance)
  }

  function PairsToFrames(pairs: seq<(nat, Sprite)>): (frames: seq<AnimationFrame>)
    ensures |frames| == |pairs|
    ensures forall i :: 0 <= i < |pairs| ==> frames[i] == AnimationFrame(pairs[i].1, pairs[i].0)
  {
    if pairs == [] then [] else [AnimationFrame(pairs[0].1, pairs[0].0)] + PairsToFrames(pairs[1..])
  }

  /// Three one-tick frames, as in the source's tests.
  function ThreeFrames(l: Sprite, m: Sprite, n: Sprite): seq<AnimationFrame>
  {
    [AnimationFrame(l, 1), AnimationFrame(m, 1), AnimationFrame(n, 1)]
  }

  lemma SumOfThree(l: Sprite, m: Sprite, n: Sprite)
    ensures SumDurations(ThreeFrames(l, m, n)) == 3
  {
    var f := ThreeFrames(l, m, n);
    assert f[1..] == [AnimationFrame(m, 1), AnimationFrame(n, 1)];
    assert f[1..][1..] == [AnimationFrame(n, 1)];
    assert f[1..][1..][1..] == [];
    assert SumDurations(f[1..][1..]) == 1;
    assert SumDurations(f[1..]) == 2;
  }

  lemma DurationValues(l: Sprite, m: Sprite, n: Sprite)
    ensures GetCycleDuration(New(ThreeFrames(l, m, n), Limited(2), None)) == 3
    ensures GetTotalDuration(New(ThreeFrames(l, m, n), Limited(2), None)) == Some(6)
    ensures GetCycleDuration(New(ThreeFrames(l, m, n), Forever, None)) == 3
    ensures GetTotalDuration(New(ThreeFrames(l, m, n), Forever, None)).None?
  {
    SumOfThree(l, m, n);
  }

  lemma LimitedRuntime(l: Sprite, m: Sprite, n: Sprite)
    ensures var a := New(ThreeFrames(l, m, n), Limited(2), None);
            FrameBasedOnTicks(a, 3) == GetFrame(a, 0)
            && FrameBasedOnTicks(a, 4) == GetFrame(a, 1)
            && FrameBasedOnTicks(a, 5) == GetFrame(a, 2)
            && FrameBasedOnTicks(a, 6).None?
  {
    SumOfThree(l, m, n);
    ThreeFramesAt(l, m, n);
  }

  lemma UnlimitedRuntime(l: Sprite, m: Sprite, n: Sprite)
    ensures var a := New(ThreeFrames(l, m, n), Forever, None);
            FrameBasedOnTicks(a, 30) == GetFrame(a, 0)
            && FrameBasedOnTicks(a, 31) == GetFrame(a, 1)
            && FrameBasedOnTicks(a, 32) == GetFrame(a, 2)
            && FrameBasedOnTicks(a, 33) == GetFrame(a, 0)
  {
    SumOfThree(l, m, n);
    ThreeFramesAt(l, m, n);
  }

  lemma ThreeFramesAt(l: Sprite, m: Sprite, n: Sprite)
    ensures SumDurations(ThreeFrames(l, m, n)) == 3
    ensures FrameAt(ThreeFrames(l, m, n), 0) == 0
    ensures FrameAt(ThreeFrames(l, m, n), 1) == 1
    ensures FrameAt(ThreeFrames(l, m, n), 2) == 2
  {
    var f := ThreeFrames(l, m, n);
    SumOfThree(l, m, n);
    assert f[1..] == [AnimationFrame(m, 1), AnimationFrame(n, 1)];
    assert f[1..][1..] == [AnimationFrame(n, 1)];
  }
}
