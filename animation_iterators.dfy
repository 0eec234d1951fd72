// model_data_structures/src/models/animation/animation_frames_iterators.rs:
// an iterator that owns a copy of an animation and counts the frames handed
// out; the frame handed out is the counter modulo the number of frames, and
// the iterator is exhausted once the counter covers the loop count.
module AnimationFramesIterators {
  import opened Wrappers
  import opened AnimationFrames
  import Arith

  class AnimationFramesIntoIter {
    var frames: AnimationFrames
    var currentLoopCounter: nat

    /// `AnimationFrames::into_iter`.
    constructor IntoIter(a: AnimationFrames)
      ensures frames == a && currentLoopCounter == 0
    {
      frames := a;
      currentLoopCounter := 0;
    }

    /// The frame at the counter, whether or not the loop count is reached.
    function FrameAtCounter(): (f: AnimationFrame)
      reads this
      requires FrameCount(frames) > 0
      ensures f in frames.frames
    {
      frames.frames[currentLoopCounter % FrameCount(frames)]
    }

    /// `next`: nothing, without advancing, once the loop count is reached;
    /// otherwise the frame at the counter, advancing the counter by one.
    /// An animation without frames divides by zero in the source.
    method Next() returns (r: Option<AnimationFrame>)
      requires FrameCount(frames) > 0
      modifies this
      ensures frames == old(frames)
      ensures ReachedLoopCount(old(frames), old(currentLoopCounter))
              ==> r.None? && currentLoopCounter == old(currentLoopCounter)
      ensures !ReachedLoopCount(old(frames), old(currentLoopCounter))
              ==> r == Some(old(FrameAtCounter())) && currentLoopCounter == old(currentLoopCounter) + 1
    {
      if ReachedLoopCount(frames, currentLoopCounter) {
        return None;
      }
      var item := GetFrame(frames, currentLoopCounter % FrameCount(frames));
      currentLoopCounter := currentLoopCounter + 1;
      r := item;
    }

    /// `current_frame_duration`: the duration of the frame at the counter.
    function CurrentFrameDuration(): (d: Option<nat>)
      reads this
      requires FrameCount(frames) > 0
      ensures d.Some? && d.value == GetCurrentFrame().value.frameDuration
    {
      Some(GetFrame(frames, currentLoopCounter % FrameCount(frames)).value.frameDuration)
    }

    /// `get_current_frame`: the frame at the counter, which is what `next`
    /// hands out unless the loop count is reached.
    function GetCurrentFrame(): (f: Option<AnimationFrame>)
      reads this
      requires FrameCount(frames) > 0
      ensures f == Some(FrameAtCounter())
    {
      GetFrame(frames, currentLoopCounter % FrameCount(frames))
    }
  }

  /// With `Limited(n)`, counting up from zero, the loop count is first
  /// reached after exactly `n` times the number of frames: the iterator
  /// hands out `n` full loops and then nothing.
  lemma {:induction false} LimitedLoopsEndAfterAllFrames(a: AnimationFrames, k: nat)
    requires FrameCount(a) > 0 && a.loopCount.Limited?
    requires k <= a.loopCount.count * FrameCount(a)
    ensures ReachedLoopCount(a, k) <==> k == a.loopCount.count * FrameCount(a)
  {
    var n, c := a.loopCount.count, FrameCount(a);
    if k == n * c {
      Arith.DivModUnique(k, c, n, 0);
    } else {
      var q := k / c;
      assert k == k % c + c * q;
      if q >= n {
        if q > n {
          Arith.MulMono(c, n, q);
        }
        assert false;
      }
    }
  }

  /// Once `next` has returned nothing the counter stays put, so every later
  /// call returns nothing as well.
  method ExhaustedStaysExhausted(it: AnimationFramesIntoIter) returns (first: Option<AnimationFrame>, second: Option<AnimationFrame>)
    requires FrameCount(it.frames) > 0
    requires ReachedLoopCount(it.frames, it.currentLoopCounter)
    modifies it
    ensures first.None? && second.None?
  {
    first := it.Next();
    second := it.Next();
  }

  /// The source's test: three frames, two loops.
  method IterLogic(l: AnimationFrame, m: AnimationFrame, n: AnimationFrame)
    returns (yielded: seq<Option<AnimationFrame>>)
    ensures yielded == [Some(l), Some(m), Some(n), Some(l), Some(m), Some(n), None]
  {
    var it := new AnimationFramesIntoIter.IntoIter(New([l, m, n], Limited(2), None));
    yielded := [];
    while |yielded| < 6
      invariant |yielded| <= 6 && it.currentLoopCounter == |yielded|
      invariant it.frames == New([l, m, n], Limited(2), None)
      invariant yielded == [Some(l), Some(m), Some(n), Some(l), Some(m), Some(n)][..|yielded|]
    {
      var f := it.Next();
      yielded := yielded + [f];
    }
    var last := it.Next();
    yielded := yielded + [last];
  }
}
