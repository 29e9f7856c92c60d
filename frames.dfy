/** Frame-index arithmetic: `getNextFrameNumber`. */
module Frames {
  import opened CArith

  /** The frame a transition from `current` in `direction` leads to. The C++
      remainder of `current + direction` lies strictly between `-frameCount`
      and `frameCount`; a negative one is shifted up by `frameCount`, so the
      result is a valid index for every `current` and `direction`. */
  function NextFrameNumber(current: int, direction: int, frameCount: int): (next: int)
    requires frameCount >= 1
    ensures 0 <= next < frameCount
  {
    var n := Rem(current + direction, frameCount);
    if n < 0 then frameCount + n else n
  }

  /** The wrapped index is the mathematical (Euclidean) residue of
      `current + direction` modulo `frameCount`. */
  lemma NextFrameIsResidue(current: int, direction: int, frameCount: int)
    requires frameCount >= 1
    ensures NextFrameNumber(current, direction, frameCount) == (current + direction) % frameCount
  {
    var a := current + direction;
    var next := NextFrameNumber(current, direction, frameCount);
    var k := Quot(a, frameCount);
    assert a == k * frameCount + Rem(a, frameCount);
    if Rem(a, frameCount) < 0 {
      assert a == (k - 1) * frameCount + next;
      DivisionUnique(a, frameCount, k - 1, next);
    } else {
      DivisionUnique(a, frameCount, k, next);
    }
  }

  /** The index one step from `current` when that step stays within
      `[-frameCount, 2 * frameCount)`: no more than one wrap is needed. */
  lemma SingleWrap(a: int, frameCount: int)
    requires frameCount >= 1 && -frameCount <= a < 2 * frameCount
    ensures a % frameCount == if a < 0 then a + frameCount else if a < frameCount then a else a - frameCount
  {
    if a < 0 {
      DivisionUnique(a, frameCount, -1, a + frameCount);
    } else if a < frameCount {
      DivisionUnique(a, frameCount, 0, a);
    } else {
      DivisionUnique(a, frameCount, 1, a - frameCount);
    }
  }

  /** The two wrap-around boundaries: backward from the first frame reaches the
      last one, forward from the last frame reaches the first one. */
  lemma WrapAroundBoundaries(frameCount: int)
    requires frameCount >= 1
    ensures NextFrameNumber(0, -1, frameCount) == frameCount - 1
    ensures NextFrameNumber(frameCount - 1, 1, frameCount) == 0
  {
    NextFrameIsResidue(0, -1, frameCount);
    SingleWrap(-1, frameCount);
    NextFrameIsResidue(frameCount - 1, 1, frameCount);
    SingleWrap(frameCount, frameCount);
  }

  /** Stepping forward and then backward returns to the starting frame. */
  lemma BackwardUndoesForward(current: int, frameCount: int)
    requires frameCount >= 1 && 0 <= current < frameCount
    ensures NextFrameNumber(NextFrameNumber(current, 1, frameCount), -1, frameCount) == current
    ensures NextFrameNumber(NextFrameNumber(current, -1, frameCount), 1, frameCount) == current
  {
    var f := NextFrameNumber(current, 1, frameCount);
    var b := NextFrameNumber(current, -1, frameCount);
    NextFrameIsResidue(current, 1, frameCount);
    SingleWrap(current + 1, frameCount);
    NextFrameIsResidue(current, -1, frameCount);
    SingleWrap(current - 1, frameCount);
    NextFrameIsResidue(f, -1, frameCount);
    SingleWrap(f - 1, frameCount);
    NextFrameIsResidue(b, 1, frameCount);
    SingleWrap(b + 1, frameCount);
  }

  /** With three or more frames, the frame reached with direction +1 differs
      from the one reached with direction -1. Both `setAutoTransitionForwards`
      and `setAutoTransitionBackwards` store +1, so after the backwards setter
      the next automatic transition still reaches the forward target. */
  lemma ForwardAndBackwardTargetsDiffer(current: int, frameCount: int)
    requires frameCount >= 3 && 0 <= current < frameCount
    ensures NextFrameNumber(current, 1, frameCount) != NextFrameNumber(current, -1, frameCount)
  {
    NextFrameIsResidue(current, 1, frameCount);
    SingleWrap(current + 1, frameCount);
    NextFrameIsResidue(current, -1, frameCount);
    SingleWrap(current - 1, frameCount);
  }
}
