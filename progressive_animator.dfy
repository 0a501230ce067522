/**
  The early progressive animator (Source/Animator.swift). It keeps a fixed number
  of decoded frames in a ring: when playback leaves a slot, that slot is refilled
  with the next source frame still to come (`currentPreloadIndex`), so a long GIF is
  played in order with only `maxFrameCount` frames in memory. A jump to an
  arbitrary frame (`currentMoveIndex`) rebuilds the ring from that frame.

  The behaviour is given by pure functions over `Progress` values; the class's
  methods are proved to follow them, and the ring invariant `ProgressValid` is
  proved to be established by preparation and kept by every operation.
 */
module ProgressiveAnimators {
  import opened Wrappers
  import opened Platform
  import opened AnimatedFrames
  import opened ModArith
  import FH = FunctionalHelpers
  import Legacy = LegacyImageSourceHelpers
  import FS = FrameStores

  /** `maxTimeStep`. */
  const MaxTimeStep: real := 1.0

  /** `prepareFrame(_:)`: the decoded frame with its duration, the null frame when decoding fails. */
  function PrepareFrame(source: ImageSource, index: int): (r: AnimatedFrame)
    ensures r.image == CreateImageAtIndex(source, index)
    ensures r.IsPlaceholder() ==> r == NullFrame()
  {
    match CreateImageAtIndex(source, index)
    case None => NullFrame()
    case Some(frameImage) => AnimatedFrame(Some(frameImage), Legacy.CGImageSourceGIFFrameDuration(source, index))
  }

  /** The `reduce([]) { $0 + pure(prepareFrame($1)) }` over a list of source indices. */
  function PreparedFrames(source: ImageSource, indexes: seq<int>): (r: seq<AnimatedFrame>)
    ensures |r| == |indexes|
    ensures forall k :: 0 <= k < |indexes| ==> r[k] == PrepareFrame(source, indexes[k])
    decreases |indexes|
  {
    if indexes == [] then []
    else PreparedFrames(source, indexes[..|indexes| - 1]) + FH.ArrayPure(PrepareFrame(source, indexes[|indexes| - 1]))
  }

  /** `indicesForPreload`: `count` consecutive source indices from `move`, wrapped at the frame count. */
  function PreloadIndexes(move: int, count: nat, frameCount: nat): (r: seq<int>)
    requires move >= 0 && frameCount > 0
    ensures |r| == count
    ensures forall k :: 0 <= k < count ==> r[k] == (move + k) % frameCount && 0 <= r[k] < frameCount
  {
    seq(count, k => (move + k) % frameCount)
  }

  /** The state the animator changes. */
  datatype Progress = Progress(
    frames: seq<AnimatedFrame>,   // animatedFrames
    index: int,                   // currentFrameIndex
    preload: int,                 // currentPreloadIndex
    move: int,                    // currentMoveIndex; -1 when no move is pending
    elapsed: real)                // timeSinceLastFrameChange

  /** `prepareFrames`: the first `min(frameCount, maxFrameCount)` frames in order; the next one to load is the first not cached. */
  function Prepared(source: ImageSource, maxFrameCount: int, s: Progress): (r: Progress)
    requires maxFrameCount >= 0
    ensures var n := if Count(source) < maxFrameCount then Count(source) else maxFrameCount;
            && |r.frames| == n && n <= Count(source) && n <= maxFrameCount
            && (forall i :: 0 <= i < n ==> r.frames[i] == PrepareFrame(source, i))
            && r.preload == n
  {
    var frameCount := Count(source);
    var framesToProcess := if frameCount < maxFrameCount then frameCount else maxFrameCount;
    s.(frames := PreparedFrames(source, FS.Range(0, framesToProcess)), preload := framesToProcess)
  }

  /**
    `updateCurrentFrame(_:)`: add the clamped tick; if there is no slot at the
    current index or its frame is still due, report no change. Otherwise take the
    frame's duration off the timer, move to the next slot in the ring, and, when
    not every frame is cached, refill the slot just left with the next source frame.
   */
  function UpdateCurrent(source: ImageSource, frameCount: nat, s: Progress, duration: real): (r: (Progress, bool))
    ensures |r.0.frames| == |s.frames| && r.0.move == s.move
    ensures var elapsed := s.elapsed + Min(MaxTimeStep, duration);
            && (r.1 <==> 0 <= s.index < |s.frames| && s.frames[s.index].duration <= elapsed)
            && (!r.1 ==> r.0 == s.(elapsed := elapsed))
            && (r.1 ==> r.0.elapsed == elapsed - s.frames[s.index].duration && r.0.index == (s.index + 1) % |s.frames|)
    ensures r.1 && |s.frames| < frameCount ==>
              && r.0.frames == s.frames[s.index := PrepareFrame(source, s.preload)]
              && r.0.preload == FS.SwiftRemainder(s.preload + 1, frameCount)
    ensures r.1 && |s.frames| >= frameCount ==> r.0.frames == s.frames && r.0.preload == s.preload
  {
    var elapsed := s.elapsed + Min(MaxTimeStep, duration);
    if !(0 <= s.index < |s.frames|) || s.frames[s.index].duration > elapsed then (s.(elapsed := elapsed), false)
    else
      var remaining := elapsed - s.frames[s.index].duration;
      var lastFrameIndex := s.index;
      // the operand is positive, so Swift's `%` and Dafny's agree
      var next := (s.index + 1) % |s.frames|;
      if |s.frames| < frameCount then
        (Progress(s.frames[lastFrameIndex := PrepareFrame(source, s.preload)], next,
                  FS.SwiftRemainder(s.preload + 1, frameCount), s.move, remaining), true)
      else (s.(index := next, elapsed := remaining), true)
  }

  /**
    `rebuildFrameCache`: nothing without a pending move, or when the frame after
    the ring's last one is already the one the move calls for; otherwise refill the
    ring with the frames from the move index on and restart at slot 0.
   */
  function Rebuild(source: ImageSource, frameCount: nat, s: Progress): (r: Progress)
    requires s.move < 0 || frameCount > 0
    ensures |r.frames| == |s.frames| && r.move == s.move && r.elapsed == s.elapsed
    ensures s.move < 0 ==> r == s
    ensures s.move >= 0 && (s.move + |s.frames|) % frameCount == s.preload ==> r == s
    ensures s.move >= 0 && (s.move + |s.frames|) % frameCount != s.preload ==>
              && (forall k :: 0 <= k < |s.frames| ==> r.frames[k] == PrepareFrame(source, (s.move + k) % frameCount))
              && r.preload == (s.move + |s.frames|) % frameCount
              && r.index == 0
  {
    // below, the operands are non-negative, where Swift's `%` and Dafny's agree
    if s.move < 0 then s
    else if (s.move + |s.frames|) % frameCount == s.preload then s
    else
      s.(frames := PreparedFrames(source, PreloadIndexes(s.move, |s.frames|, frameCount)),
         preload := (s.move + |s.frames|) % frameCount,
         index := 0)
  }

  /** `prepareFramesAfterMoving`: jump in place when every frame is cached, otherwise rebuild; then reset the timer and the move. */
  function AfterMoving(source: ImageSource, frameCount: nat, s: Progress): (r: Progress)
    requires |s.frames| == frameCount || s.move < 0 || frameCount > 0
    ensures r.elapsed == 0.0 && r.move == -1 && |r.frames| == |s.frames|
  {
    var moved := if |s.frames| == frameCount then s.(index := s.move) else Rebuild(source, frameCount, s);
    moved.(elapsed := 0.0, move := -1)
  }

  // ---------------------------------------------------------------------------
  // The ring invariant

  /** Position `k` after `base` in a ring of `n`. */
  function RingIndex(base: int, k: int, n: int): int
    requires n > 0
  {
    (base + k) % n
  }

  /** Reading the ring from slot `current` on gives the source frames from `first` on, in order and wrapped. */
  ghost predicate Presents(source: ImageSource, frameCount: nat, frames: seq<AnimatedFrame>, current: int, first: int)
    requires |frames| <= frameCount
  {
    forall k :: 0 <= k < |frames| ==>
      frames[RingIndex(current, k, |frames|)] == PrepareFrame(source, RingIndex(first, k, frameCount))
  }

  /**
    The source frame on screen: with every frame cached, the one at the current
    slot; with a partial ring, the one `|frames|` frames before the next to load.
   */
  function Shown(frameCount: nat, s: Progress): int {
    if |s.frames| == 0 || frameCount == 0 then 0
    else if |s.frames| == frameCount then s.index
    else (s.preload - |s.frames|) % frameCount
  }

  /**
    The animator's invariant: the ring is no larger than the GIF; the current slot
    exists when any does; a partial ring's next index to load is a frame index; and
    the ring presents the source frames in order from the one on screen.
   */
  ghost predicate ProgressValid(source: ImageSource, frameCount: nat, s: Progress) {
    && |s.frames| <= frameCount
    && (|s.frames| > 0 ==> 0 <= s.index < |s.frames|)
    && (0 < |s.frames| < frameCount ==> 0 <= s.preload < frameCount)
    && Presents(source, frameCount, s.frames, s.index, Shown(frameCount, s))
  }

  /** With every frame cached, the ring presents the source in order exactly when each slot holds its own frame. */
  lemma FullRingInPlace(source: ImageSource, frames: seq<AnimatedFrame>, current: int)
    requires 0 <= current < |frames|
    ensures Presents(source, |frames|, frames, current, current)
            <==> forall i :: 0 <= i < |frames| ==> frames[i] == PrepareFrame(source, i)
  {
    var n := |frames|;
    if Presents(source, n, frames, current, current) {
      forall i | 0 <= i < n ensures frames[i] == PrepareFrame(source, i) {
        var k := if i >= current then i - current else n - current + i;
        if i >= current {
          ModOfSmall(current + k, n);
        } else {
          ModOfSmallPlusN(current + k, n);
        }
        assert RingIndex(current, k, n) == i;
      }
    }
  }

  /** One step round a ring: `k` after the successor of `c` is `k + 1` after `c`, and that is `c` itself only for `k == n - 1`. */
  lemma RingStep(c: int, k: int, n: int)
    requires 0 <= c < n && 0 <= k < n
    ensures RingIndex((c + 1) % n, k, n) == RingIndex(c, k + 1, n)
    ensures RingIndex(c, k + 1, n) == c <==> k == n - 1
  {
    ModAddMod(c + 1, k, n);
    if c + 1 + k < n {
      ModOfSmall(c + 1 + k, n);
    } else {
      ModOfSmallPlusN(c + 1 + k, n);
    }
  }

  /** `prepareFrames` establishes the invariant, with source frame 0 on screen. */
  lemma PreparedIsValid(source: ImageSource, maxFrameCount: int, s: Progress)
    requires maxFrameCount >= 0 && s.index == 0
    ensures ProgressValid(source, Count(source), Prepared(source, maxFrameCount, s))
    ensures |Prepared(source, maxFrameCount, s).frames| > 0 ==> Shown(Count(source), Prepared(source, maxFrameCount, s)) == 0
  {
    var fc := Count(source);
    var r := Prepared(source, maxFrameCount, s);
    var n := |r.frames|;
    if n > 0 {
      if n < fc {
        assert Shown(fc, r) == 0;
      }
      forall k | 0 <= k < n
        ensures r.frames[RingIndex(0, k, n)] == PrepareFrame(source, RingIndex(0, k, fc))
      {
        ModOfSmall(k, n);
        ModOfSmall(k, fc);
      }
    }
  }

  /**
    A tick keeps the invariant and plays the source in order. It changes the frame
    exactly when the current slot's duration is covered by the timer plus the
    clamped tick. Without a change only the timer moves; with one, the timer keeps
    the remainder and the frame on screen becomes the next source frame, wrapping at
    the frame count. The ring's size never changes.
   */
  lemma UpdateKeepsOrder(source: ImageSource, frameCount: nat, s: Progress, duration: real)
    requires ProgressValid(source, frameCount, s)
    ensures var (r, changed) := UpdateCurrent(source, frameCount, s, duration);
            var elapsed := s.elapsed + Min(MaxTimeStep, duration);
            && ProgressValid(source, frameCount, r)
            && |r.frames| == |s.frames|
            && (changed <==> |s.frames| > 0 && s.frames[s.index].duration <= elapsed)
            && (!changed ==> r == s.(elapsed := elapsed))
            && (changed ==> frameCount > 0 && Shown(frameCount, r) == (Shown(frameCount, s) + 1) % frameCount
                            && r.elapsed == elapsed - s.frames[s.index].duration)
  {
    TickKeepsRing(source, frameCount, s, duration);
  }

  /** The ring part of `UpdateKeepsOrder`: the invariant is kept and a change moves the frame on screen one on. */
  lemma TickKeepsRing(source: ImageSource, frameCount: nat, s: Progress, duration: real)
    requires ProgressValid(source, frameCount, s)
    ensures var (r, changed) := UpdateCurrent(source, frameCount, s, duration);
            && ProgressValid(source, frameCount, r)
            && (changed ==> frameCount > 0 && Shown(frameCount, r) == (Shown(frameCount, s) + 1) % frameCount)
  {
    var (r, changed) := UpdateCurrent(source, frameCount, s, duration);
    if changed {
      var n := |s.frames|;
      var c := s.index;
      var f := Shown(frameCount, s);
      if n == frameCount {
        FullRingInPlace(source, s.frames, c);
        FullRingInPlace(source, r.frames, r.index);
      } else {
        var p := s.preload;
        ModAddMod(p + 1, -n, frameCount);
        ModAddMod(p - n, 1, frameCount);
        assert Shown(frameCount, r) == (p + 1 - n) % frameCount;
        assert Shown(frameCount, r) == (f + 1) % frameCount;
        forall k | 0 <= k < n
          ensures r.frames[RingIndex(r.index, k, n)] == PrepareFrame(source, RingIndex((f + 1) % frameCount, k, frameCount))
        {
          RingStep(c, k, n);
          ModAddMod(f + 1, k, frameCount);
          if k < n - 1 {
            assert r.frames[RingIndex(r.index, k, n)] == s.frames[RingIndex(c, k + 1, n)];
          } else {
            ModAddMod(p - n, n, frameCount);
            ModOfSmall(p, frameCount);
            assert RingIndex((f + 1) % frameCount, k, frameCount) == p;
          }
        }
      }
    }
  }

  /**
    The early return of `rebuildFrameCache` is taken exactly when the frame on
    screen is already the one moved to.
   */
  lemma RebuildSkipsOnlyWhenInPlace(source: ImageSource, frameCount: nat, s: Progress)
    requires ProgressValid(source, frameCount, s) && 0 < |s.frames| < frameCount && 0 <= s.move < frameCount
    ensures (s.move + |s.frames|) % frameCount == s.preload <==> Shown(frameCount, s) == s.move
  {
    var n := |s.frames|;
    ModAddMod(s.preload - n, n, frameCount);
    ModOfSmall(s.preload, frameCount);
    ModAddMod(s.move + n, -n, frameCount);
    ModOfSmall(s.move, frameCount);
  }

  /**
    Moving to a frame index of the GIF keeps the invariant and puts that frame on
    screen, whether the ring is full (a jump in place), already positioned, or
    rebuilt; the timer restarts and the move is cleared.
   */
  lemma MovingShowsTarget(source: ImageSource, frameCount: nat, s: Progress)
    requires ProgressValid(source, frameCount, s) && |s.frames| > 0 && 0 <= s.move < frameCount
    ensures var r := AfterMoving(source, frameCount, s);
            && ProgressValid(source, frameCount, r)
            && Shown(frameCount, r) == s.move
            && r.elapsed == 0.0 && r.move == -1
  {
    var n := |s.frames|;
    var r := AfterMoving(source, frameCount, s);
    if n == frameCount {
      FullRingInPlace(source, s.frames, s.index);
      FullRingInPlace(source, r.frames, r.index);
    } else {
      RebuildSkipsOnlyWhenInPlace(source, frameCount, s);
      if (s.move + n) % frameCount != s.preload {
        ModAddMod(s.move + n, -n, frameCount);
        ModOfSmall(s.move, frameCount);
        forall k | 0 <= k < n
          ensures r.frames[RingIndex(0, k, n)] == PrepareFrame(source, RingIndex(s.move, k, frameCount))
        {
          ModOfSmall(k, n);
        }
      }
    }
  }

  /**
    As written, `prepareFramesAfterMoving` with no pending move on a fully cached
    GIF sets the current index to -1, after which no tick ever changes the frame.
   */
  lemma AfterMovingWithoutMoveStallsFullRing(source: ImageSource, s: Progress, duration: real)
    requires |s.frames| > 0 && s.move == -1
    ensures var r := AfterMoving(source, |s.frames|, s);
            r.index == -1 && !UpdateCurrent(source, |s.frames|, r, duration).1
  {
  }

  /** In a valid state the image shown is the decoded source frame `Shown`. */
  lemma CurrentFrameIsShown(source: ImageSource, frameCount: nat, s: Progress)
    requires ProgressValid(source, frameCount, s) && |s.frames| > 0
    ensures s.frames[s.index] == PrepareFrame(source, Shown(frameCount, s))
  {
    var n := |s.frames|;
    ModOfSmall(s.index, n);
    assert RingIndex(s.index, 0, n) == s.index;
    if n < frameCount {
      assert 0 <= Shown(frameCount, s) < frameCount;
    } else {
      assert 0 <= Shown(frameCount, s) < frameCount;
    }
    ModOfSmall(Shown(frameCount, s), frameCount);
  }

  // ---------------------------------------------------------------------------
  // The class

  /** The ring of decoded frames of one GIF, with the index on screen, the next frame to load and a pending move. */
  class Animator {
    const imageSource: ImageSource
    /** How many frames the ring holds at most (`framePreloadCount`). */
    const maxFrameCount: int

    var animatedFrames: seq<AnimatedFrame>
    var frameCount: nat
    var currentFrameIndex: int
    var currentPreloadIndex: int
    var currentMoveIndex: int
    var timeSinceLastFrameChange: real

    ghost function Snapshot(): Progress
      reads this
    {
      Progress(animatedFrames, currentFrameIndex, currentPreloadIndex, currentMoveIndex, timeSinceLastFrameChange)
    }

    /** `init(data:size:contentMode:framePreloadCount:)`; the source is given decoded. */
    constructor (source: ImageSource, framePreloadCount: int)
      ensures imageSource == source && maxFrameCount == framePreloadCount
      ensures frameCount == 0 && Snapshot() == Progress([], 0, 0, -1, 0.0)
      ensures ProgressValid(imageSource, frameCount, Snapshot())
    {
      imageSource := source;
      maxFrameCount := framePreloadCount;
      animatedFrames := [];
      frameCount := 0;
      currentFrameIndex := 0;
      currentPreloadIndex := 0;
      currentMoveIndex := -1;
      timeSinceLastFrameChange := 0.0;
    }

    /** `isAnimatable`. */
    predicate IsAnimatable() {
      Legacy.IsAnimatedGIF(imageSource)
    }

    /** `frameAtIndex(_:)`, which traps outside the ring. */
    function FrameAtIndex(index: int): (r: Option<Image>)
      requires 0 <= index < |animatedFrames|
      reads this
      ensures r == animatedFrames[index].image
    {
      animatedFrames[index].image
    }

    /** `currentFrame`: the image of the current slot. */
    function CurrentFrame(): (r: Option<Image>)
      requires 0 <= currentFrameIndex < |animatedFrames|
      reads this
      ensures r == animatedFrames[currentFrameIndex].image
    {
      FrameAtIndex(currentFrameIndex)
    }

    /** `prepareFrames`; a negative `maxFrameCount` would make the range `0..<framesToProcess` trap. */
    method PrepareFrames()
      requires maxFrameCount >= 0
      modifies this
      ensures frameCount == Count(imageSource)
      ensures Snapshot() == Prepared(imageSource, maxFrameCount, old(Snapshot()))
    {
      frameCount := Count(imageSource);
      var framesToProcess := if frameCount < maxFrameCount then frameCount else maxFrameCount;
      animatedFrames := PreparedFrames(imageSource, FS.Range(0, framesToProcess));
      currentPreloadIndex := framesToProcess;
    }

    /** `updateCurrentFrame(_:)`. */
    method UpdateCurrentFrame(duration: real) returns (changed: bool)
      modifies this
      ensures frameCount == old(frameCount)
      ensures (Snapshot(), changed) == UpdateCurrent(imageSource, frameCount, old(Snapshot()), duration)
    {
      timeSinceLastFrameChange := timeSinceLastFrameChange + Min(MaxTimeStep, duration);
      if !(0 <= currentFrameIndex < |animatedFrames|)
         || animatedFrames[currentFrameIndex].duration > timeSinceLastFrameChange {
        return false;
      }
      var frameDuration := animatedFrames[currentFrameIndex].duration;
      timeSinceLastFrameChange := timeSinceLastFrameChange - frameDuration;
      var lastFrameIndex := currentFrameIndex;
      currentFrameIndex := (currentFrameIndex + 1) % |animatedFrames|;
      if |animatedFrames| < frameCount {
        animatedFrames := animatedFrames[lastFrameIndex := PrepareFrame(imageSource, currentPreloadIndex)];
        currentPreloadIndex := FS.SwiftRemainder(currentPreloadIndex + 1, frameCount);
      }
      return true;
    }

    /** `rebuildFrameCache`. */
    method RebuildFrameCache()
      requires currentMoveIndex < 0 || frameCount > 0
      modifies this
      ensures frameCount == old(frameCount)
      ensures Snapshot() == Rebuild(imageSource, frameCount, old(Snapshot()))
    {
      if currentMoveIndex < 0 {
        return;
      }
      if (currentMoveIndex + |animatedFrames|) % frameCount == currentPreloadIndex {
        return;
      }
      var indicesForPreload := seq(|animatedFrames|, _ => 0);
      var baseIndex := currentMoveIndex;
      for indexForPreload := 0 to |indicesForPreload|
        invariant |indicesForPreload| == |animatedFrames|
        invariant baseIndex == currentMoveIndex + indexForPreload
        invariant forall k :: 0 <= k < indexForPreload ==> indicesForPreload[k] == (currentMoveIndex + k) % frameCount
      {
        indicesForPreload := indicesForPreload[indexForPreload := baseIndex % frameCount];
        baseIndex := baseIndex + 1;
      }
      assert indicesForPreload == PreloadIndexes(currentMoveIndex, |animatedFrames|, frameCount);
      animatedFrames := PreparedFrames(imageSource, indicesForPreload);
      currentPreloadIndex := baseIndex % frameCount;
      currentFrameIndex := 0;
    }

    /** `prepareFramesAfterMoving`. */
    method PrepareFramesAfterMoving()
      requires |animatedFrames| == frameCount || currentMoveIndex < 0 || frameCount > 0
      modifies this
      ensures frameCount == old(frameCount)
      ensures Snapshot() == AfterMoving(imageSource, frameCount, old(Snapshot()))
    {
      if |animatedFrames| == frameCount {
        currentFrameIndex := currentMoveIndex;
      } else {
        RebuildFrameCache();
      }
      timeSinceLastFrameChange := 0.0;
      currentMoveIndex := -1;
    }
  }
}
