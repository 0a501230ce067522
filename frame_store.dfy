/**
  The frame store of the current library (Sources/Gifu/Classes/FrameStore.swift): the
  frame records of one GIF, the playback position, loop bookkeeping and a bounded
  look-ahead cache of decoded images.

  The module first gives the store's behaviour as pure functions over values
  (`Tick`, `CacheUpdate`, `Step`), states its properties as lemmas, and then models
  the class itself, whose methods are proved to follow those functions.
 */
module FrameStores {
  import opened Wrappers
  import opened Platform
  import opened AnimatedFrames
  import opened ModArith
  import Helpers = ImageSourceHelpers

  /** `maxTimeStep`: the most a single tick may add to the frame timer, in seconds. */
  const MaxTimeStep: real := 1.0

  /** The look-ahead used when every frame is cached. */
  const CacheAllBufferSize: int := 10

  datatype FrameCachingStrategy =
    | CacheUpcoming(count: int)   // keep only `count` upcoming frames decoded
    | CacheAll                    // never evict

  /** A `TimeInterval` that may be infinite, as `duration(at:)` returns for a missing frame. */
  datatype TimeInterval = Seconds(seconds: real) | Infinity

  /** `d > t` for a possibly infinite `d`. */
  predicate Exceeds(d: TimeInterval, t: real) {
    d.Infinity? || d.seconds > t
  }

  /** `frameBufferSize`: the count of `cacheUpcoming`, and 10 under `cacheAll`. */
  function FrameBufferSizeOf(strategy: FrameCachingStrategy): (r: int)
    ensures strategy.CacheAll? ==> r == CacheAllBufferSize
    ensures strategy.CacheUpcoming? ==> r == strategy.count
    ensures StrategyValid(strategy) ==> r >= 0
  {
    match strategy
    case CacheUpcoming(size) => size
    case CacheAll => CacheAllBufferSize
  }

  /**
    A strategy the store can run. With a negative `cacheUpcoming` count the last index
    of the look-ahead window can fall below the first, and building the range
    `0...lastIndex` traps; the model makes that a precondition of construction.
   */
  predicate StrategyValid(strategy: FrameCachingStrategy) {
    strategy.CacheUpcoming? ==> strategy.count >= 0
  }

  /** The strategy picked from a plain buffer size: bounded when positive, otherwise cache everything. */
  function StrategyFor(frameBufferSize: int): (s: FrameCachingStrategy)
    ensures StrategyValid(s)
    ensures s.CacheUpcoming? <==> frameBufferSize > 0
    ensures FrameBufferSizeOf(s) == if frameBufferSize > 0 then frameBufferSize else 10
  {
    if frameBufferSize > 0 then CacheUpcoming(frameBufferSize) else CacheAll
  }

  // ---------------------------------------------------------------------------
  // Index arithmetic

  /** Swift's `%` on `Int`, which truncates toward zero. */
  function SwiftRemainder(a: int, n: int): (r: int)
    requires n > 0
    ensures a >= 0 ==> r == a % n
    ensures a < 0 ==> r == -((-a) % n)
  {
    if a >= 0 then a % n else -((-a) % n)
  }

  /** `increment(frameIndex:by:)`: the index `value` frames further on, wrapping at `frameCount`. */
  function Increment(frameIndex: int, value: int, frameCount: nat): (r: int)
    requires frameCount > 0
    ensures frameIndex + value >= 0 ==> 0 <= r < frameCount && r == (frameIndex + value) % frameCount
  {
    SwiftRemainder(frameIndex + value, frameCount)
  }

  /** `isLastFrame(frameIndex:)`. */
  predicate IsLastFrame(frameIndex: int, frameCount: nat) {
    frameIndex == frameCount - 1
  }

  /** `isLastLoop(loopIndex:)`: never true for a loop count of 0 or less once loops are counted from 0. */
  predicate IsLastLoop(loopIndex: int, loopCount: int) {
    loopIndex == loopCount - 1
  }

  /** The integers `lo, lo + 1, ..., hi - 1`: Swift's `lo..<hi` (and `lo...hi - 1`), which traps unless `lo <= hi`. */
  function Range(lo: int, hi: int): (r: seq<int>)
    requires lo <= hi
    ensures |r| == hi - lo
    ensures forall k :: 0 <= k < |r| ==> r[k] == lo + k
  {
    seq(hi - lo, k => lo + k)
  }

  // ---------------------------------------------------------------------------
  // Reading frames

  /** `frame(at:)`: the image of the record at `index`, nothing when there is no record. */
  function FrameAt(frames: seq<AnimatedFrame>, index: int): (r: Option<Image>)
    ensures !(0 <= index < |frames|) ==> r.None?
    ensures 0 <= index < |frames| ==> r == frames[index].image
  {
    if 0 <= index < |frames| then frames[index].image else None
  }

  /** `duration(at:)`: the duration of the record at `index`, infinite when there is no record. */
  function DurationAt(frames: seq<AnimatedFrame>, index: int): (r: TimeInterval)
    ensures r.Infinity? <==> !(0 <= index < |frames|)
    ensures r.Seconds? ==> r.seconds == frames[index].duration
  {
    if 0 <= index < |frames| then Seconds(frames[index].duration) else Infinity
  }

  // ---------------------------------------------------------------------------
  // The per-tick advance

  /** The playback part of the store's state. */
  datatype Playback = Playback(
    index: int,             // currentFrameIndex
    loop: int,              // currentLoop
    elapsed: real,          // timeSinceLastFrameChange
    isLoopFinished: bool,
    isFinished: bool)

  /** `incrementCurrentFrameIndex`: one frame on, then the loop flags and counter. */
  function Advance(p: Playback, frameCount: nat, loopCount: int): Playback
    requires frameCount > 0
  {
    var next := Increment(p.index, 1, frameCount);
    if IsLastFrame(next, frameCount) then
      p.(index := next, isLoopFinished := true,
         isFinished := if IsLastLoop(p.loop, loopCount) then true else p.isFinished)
    else
      p.(index := next, isLoopFinished := false,
         loop := if next == 0 then p.loop + 1 else p.loop)
  }

  /**
    `shouldChangeFrame(with:handler:)` on the playback state: add the clamped tick to
    the timer; if the current frame is still due, report no change; otherwise take its
    duration off the timer, advance one frame and report a change.
   */
  function Tick(p: Playback, frames: seq<AnimatedFrame>, frameCount: nat, loopCount: int, duration: real)
    : (r: (Playback, bool))
    requires |frames| <= frameCount
  {
    var elapsed := p.elapsed + Min(MaxTimeStep, duration);
    var current := DurationAt(frames, p.index);
    if Exceeds(current, elapsed) then (p.(elapsed := elapsed), false)
    else (Advance(p.(elapsed := elapsed - current.seconds), frameCount, loopCount), true)
  }

  /**
    A tick reports a change exactly when the current frame's duration is covered by
    the timer plus the clamped tick. Without a change only the timer moves, by at most
    `maxTimeStep`; with one the index moves exactly one frame on, modulo the frame
    count, and the timer keeps the remainder.
   */
  lemma TickAdvancesAtMostOneFrame(p: Playback, frames: seq<AnimatedFrame>, frameCount: nat, loopCount: int, duration: real)
    requires |frames| <= frameCount && p.index >= 0
    ensures var (q, changed) := Tick(p, frames, frameCount, loopCount, duration);
            var elapsed := p.elapsed + Min(MaxTimeStep, duration);
            && (changed <==> p.index < |frames| && frames[p.index].duration <= elapsed)
            && (!changed ==> q == p.(elapsed := elapsed))
            && (changed ==> frameCount > 0 && q.index == (p.index + 1) % frameCount
                            && q.elapsed == elapsed - frames[p.index].duration)
  {
  }

  /**
    Loop bookkeeping after an advance: `isLoopFinished` holds exactly when the new
    index is the last one; the loop counter grows by one exactly when the index wraps
    to 0 (which never happens with a single frame, where index 0 is also the last);
    `isFinished` is latched, and is newly set only on reaching the last frame during
    the last permitted loop.
   */
  lemma AdvanceLoopBookkeeping(p: Playback, frameCount: nat, loopCount: int)
    requires frameCount > 0 && p.index >= 0
    ensures var q := Advance(p, frameCount, loopCount);
            && q.index == (p.index + 1) % frameCount
            && (q.isLoopFinished <==> q.index == frameCount - 1)
            && q.loop == (if q.index == 0 && frameCount > 1 then p.loop + 1 else p.loop)
            && (q.isFinished <==> p.isFinished || (q.index == frameCount - 1 && p.loop == loopCount - 1))
            && q.elapsed == p.elapsed
  {
  }

  // ---------------------------------------------------------------------------
  // Cache maintenance

  /** `deleteCachedFrame(at:)` on the records: the slot becomes its placeholder. */
  function Evicted(frames: seq<AnimatedFrame>, index: int): (r: seq<AnimatedFrame>)
    requires 0 <= index < |frames|
    ensures |r| == |frames| && r[index].IsPlaceholder()
    ensures forall j :: 0 <= j < |frames| ==> r[j].duration == frames[j].duration
    ensures forall j :: 0 <= j < |frames| && j != index ==> r[j] == frames[j]
  {
    frames[index := frames[index].PlaceholderFrame()]
  }

  /** `loadFrameAtIndexIfNeeded` on the records: a placeholder slot gets the decoded image, any other slot is left alone. */
  function Loaded(frames: seq<AnimatedFrame>, source: ImageSource, index: int): (r: seq<AnimatedFrame>)
    requires 0 <= index < |frames|
    ensures |r| == |frames|
    ensures forall j :: 0 <= j < |frames| ==> r[j].duration == frames[j].duration
    ensures !frames[index].IsPlaceholder() ==> r == frames
  {
    if frames[index].IsPlaceholder() then
      frames[index := frames[index].FrameWithImage(CreateImageAtIndex(source, index))]
    else frames
  }

  /** The loop `for index in indexes { loadFrameAtIndexIfNeeded(index) }`. */
  function LoadedAll(frames: seq<AnimatedFrame>, source: ImageSource, indexes: seq<int>): (r: seq<AnimatedFrame>)
    requires forall k :: 0 <= k < |indexes| ==> 0 <= indexes[k] < |frames|
    ensures |r| == |frames|
    ensures forall j :: 0 <= j < |frames| ==> r[j].duration == frames[j].duration
    decreases |indexes|
  {
    if indexes == [] then frames
    else
      var rest := LoadedAll(frames, source, indexes[..|indexes| - 1]);
      Loaded(rest, source, indexes[|indexes| - 1])
  }

  /** `animatedFrames.filter(\.isPlaceholder).count`. */
  function PlaceholderCount(frames: seq<AnimatedFrame>): nat {
    |Filter(frames, (f: AnimatedFrame) => f.IsPlaceholder())|
  }

  /** `indexesToCache(startingAt:)`: from the next index to `index + frameBufferSize`, both wrapped. */
  function IndexesToCache(index: int, frameBufferSize: int, frameCount: nat): (r: seq<int>)
    requires frameCount > 0 && frameBufferSize >= 0 && index >= 0
    ensures forall k :: 0 <= k < |r| ==> 0 <= r[k] < frameCount
  {
    var nextIndex := Increment(index, 1, frameCount);
    var lastIndex := Increment(index, frameBufferSize, frameCount);
    if lastIndex >= nextIndex then Range(nextIndex, lastIndex + 1)
    else Range(nextIndex, frameCount) + Range(0, lastIndex + 1)
  }

  /** Under `cacheUpcoming(size)` with `size < frameCount - 1`, the frame just left is evicted. */
  predicate EvictsBehind(strategy: FrameCachingStrategy, frameCount: nat) {
    strategy.CacheUpcoming? && strategy.count < frameCount - 1
  }

  /** What `updateFrameCache` does to the records once the index has moved from `previous` to `current`. */
  function CacheUpdate(frames: seq<AnimatedFrame>, strategy: FrameCachingStrategy, frameCount: nat,
                       source: ImageSource, previous: int, current: int): (r: seq<AnimatedFrame>)
    requires StrategyValid(strategy) && |frames| == frameCount > 0
    requires 0 <= previous < frameCount && 0 <= current < frameCount
    ensures |r| == |frames|
    ensures forall j :: 0 <= j < |frames| ==> r[j].duration == frames[j].duration
  {
    var evicted := if EvictsBehind(strategy, frameCount) then Evicted(frames, previous) else frames;
    if PlaceholderCount(evicted) == 0 then evicted
    else LoadedAll(evicted, source, IndexesToCache(current, FrameBufferSizeOf(strategy), frameCount))
  }

  /** The number of slots the look-ahead window covers: `frameBufferSize` taken modulo the frame count, a full turn when that is 0. */
  function WindowLength(frameBufferSize: int, frameCount: nat): nat
    requires frameCount > 0 && frameBufferSize >= 0
  {
    if frameBufferSize % frameCount == 0 then frameCount else frameBufferSize % frameCount
  }

  /**
    The window is the run of consecutive indices after `index`, wrapping: element `k`
    is `(index + 1 + k) % frameCount`; it ends at `(index + frameBufferSize) % frameCount`
    and has `WindowLength` elements. So a buffer of `1 ... frameCount - 1` frames gives
    exactly that many indices, while a buffer of 0 (or any multiple of the frame count)
    covers every frame, the current one included.
   */
  lemma IndexesToCacheWindow(index: int, frameBufferSize: int, frameCount: nat)
    requires frameCount > 0 && frameBufferSize >= 0 && 0 <= index < frameCount
    ensures var w := IndexesToCache(index, frameBufferSize, frameCount);
            && |w| == WindowLength(frameBufferSize, frameCount)
            && (forall k :: 0 <= k < |w| ==> w[k] == (index + 1 + k) % frameCount)
            && w[|w| - 1] == (index + frameBufferSize) % frameCount
  {
    var n := frameCount;
    var r := frameBufferSize % n;
    var w := IndexesToCache(index, frameBufferSize, n);
    ModAddMod(frameBufferSize, index, n);
    assert (index + frameBufferSize) % n == (r + index) % n;
    if index + 1 < n {
      ModOfSmall(index + 1, n);
      if r >= 1 && index + r < n {
        ModOfSmall(index + r, n);
        forall k | 0 <= k < |w| ensures w[k] == (index + 1 + k) % n {
          ModOfSmall(index + 1 + k, n);
        }
      } else {
        if r >= 1 {
          ModOfSmallPlusN(index + r, n);
        } else {
          ModOfSmall(index, n);
        }
        forall k | 0 <= k < |w| ensures w[k] == (index + 1 + k) % n {
          if index + 1 + k < n {
            ModOfSmall(index + 1 + k, n);
          } else {
            ModOfSmallPlusN(index + 1 + k, n);
          }
        }
      }
    } else {
      ModOfSmallPlusN(index + 1, n);
      if r >= 1 {
        ModOfSmallPlusN(index + r, n);
      } else {
        ModOfSmall(index, n);
      }
      forall k | 0 <= k < |w| ensures w[k] == (index + 1 + k) % n {
        ModOfSmallPlusN(index + 1 + k, n);
      }
    }
  }

  /** A buffer of 0 as written caches the whole GIF: every index lies in the window. */
  lemma ZeroBufferCoversEveryFrame(index: int, frameCount: nat, j: int)
    requires frameCount > 0 && 0 <= index < frameCount && 0 <= j < frameCount
    ensures j in IndexesToCache(index, 0, frameCount)
  {
    IndexesToCacheWindow(index, 0, frameCount);
    var w := IndexesToCache(index, 0, frameCount);
    var k := if j > index then j - index - 1 else frameCount - index - 1 + j;
    if j > index {
      ModOfSmall(index + 1 + k, frameCount);
    } else {
      ModOfSmallPlusN(index + 1 + k, frameCount);
    }
    assert w[k] == j;
  }

  /**
    After loading a list of indices, a slot is changed exactly when it is listed and
    was a placeholder; it then carries the decoded image and keeps its duration.
    Loading the same slot twice is the same as loading it once.
   */
  lemma {:induction false} LoadedAllAt(frames: seq<AnimatedFrame>, source: ImageSource, indexes: seq<int>, j: int)
    requires forall k :: 0 <= k < |indexes| ==> 0 <= indexes[k] < |frames|
    requires 0 <= j < |frames|
    ensures LoadedAll(frames, source, indexes)[j]
            == if j in indexes && frames[j].IsPlaceholder()
               then frames[j].FrameWithImage(CreateImageAtIndex(source, j))
               else frames[j]
  {
    if indexes != [] {
      var prefix := indexes[..|indexes| - 1];
      var last := indexes[|indexes| - 1];
      LoadedAllAt(frames, source, prefix, j);
      assert indexes == prefix + [last];
      assert j in indexes <==> j in prefix || j == last;
    }
  }

  /** With no placeholder there is nothing to load: the `guard` in `updateFrameCache` only saves work. */
  lemma PlaceholderGuardIsShortcut(frames: seq<AnimatedFrame>, source: ImageSource, indexes: seq<int>)
    requires forall k :: 0 <= k < |indexes| ==> 0 <= indexes[k] < |frames|
    requires PlaceholderCount(frames) == 0
    ensures LoadedAll(frames, source, indexes) == frames
  {
    var keep := (f: AnimatedFrame) => f.IsPlaceholder();
    forall j | 0 <= j < |frames| ensures LoadedAll(frames, source, indexes)[j] == frames[j] {
      assert frames[j] in frames;
      assert !keep(frames[j]);
      LoadedAllAt(frames, source, indexes, j);
    }
  }

  /**
    Slot by slot, the cache pass first evicts the slot just left (only under a
    bounded strategy smaller than `frameCount - 1`), then fills every placeholder in
    the window with its decoded image. Every other slot is untouched, a decoded slot
    in the window is untouched, and no duration changes.
   */
  lemma CacheUpdateAt(frames: seq<AnimatedFrame>, strategy: FrameCachingStrategy, frameCount: nat,
                      source: ImageSource, previous: int, current: int, j: int)
    requires StrategyValid(strategy) && |frames| == frameCount > 0
    requires 0 <= previous < frameCount && 0 <= current < frameCount && 0 <= j < frameCount
    ensures var e := if EvictsBehind(strategy, frameCount) && j == previous
                     then frames[j].PlaceholderFrame() else frames[j];
            CacheUpdate(frames, strategy, frameCount, source, previous, current)[j]
            == if j in IndexesToCache(current, FrameBufferSizeOf(strategy), frameCount) && e.IsPlaceholder()
               then e.FrameWithImage(CreateImageAtIndex(source, j))
               else e
  {
    var evicted := if EvictsBehind(strategy, frameCount) then Evicted(frames, previous) else frames;
    var window := IndexesToCache(current, FrameBufferSizeOf(strategy), frameCount);
    if PlaceholderCount(evicted) == 0 {
      PlaceholderGuardIsShortcut(evicted, source, window);
    }
    LoadedAllAt(evicted, source, window, j);
  }

  /** Without eviction a cache pass never drops an image. */
  lemma CacheUpdateKeepsImagesWithoutEviction(frames: seq<AnimatedFrame>, strategy: FrameCachingStrategy, frameCount: nat,
                                               source: ImageSource, previous: int, current: int, j: int)
    requires StrategyValid(strategy) && |frames| == frameCount > 0
    requires 0 <= previous < frameCount && 0 <= current < frameCount && 0 <= j < frameCount
    requires !EvictsBehind(strategy, frameCount) && !frames[j].IsPlaceholder()
    ensures CacheUpdate(frames, strategy, frameCount, source, previous, current)[j] == frames[j]
  {
    CacheUpdateAt(frames, strategy, frameCount, source, previous, current, j);
  }

  /**
    A slot of the window after `previous`, other than the new current frame, is in the
    window after `(previous + 1) % frameCount`: the window slides by one.
   */
  lemma WindowSlides(previous: int, frameBufferSize: int, frameCount: nat, j: int)
    requires frameCount > 0 && 0 <= previous < frameCount && 0 <= frameBufferSize < frameCount
    requires j in IndexesToCache(previous, frameBufferSize, frameCount) && j != (previous + 1) % frameCount
    ensures j in IndexesToCache((previous + 1) % frameCount, frameBufferSize, frameCount)
  {
    var n := frameCount;
    var current := (previous + 1) % n;
    if frameBufferSize == 0 {
      ZeroBufferCoversEveryFrame(current, n, j);
    } else {
      var oldWindow := IndexesToCache(previous, frameBufferSize, n);
      IndexesToCacheWindow(previous, frameBufferSize, n);
      ModOfSmall(frameBufferSize, n);
      var k :| 0 <= k < |oldWindow| && oldWindow[k] == j;
      assert j == (previous + 1 + k) % n;
      if k == 0 {
        assert false;
      }
      ModAddMod(previous + 1, k, n);
      assert j == (current + 1 + (k - 1)) % n;
      SlotInWindow(current, frameBufferSize, n, k - 1);
    }
  }

  /** The slot `k` places after the next one is in the window when `k` is below the buffer size. */
  lemma SlotInWindow(index: int, frameBufferSize: int, frameCount: nat, k: int)
    requires 0 <= index < frameCount && 0 <= k < frameBufferSize < frameCount
    ensures (index + 1 + k) % frameCount in IndexesToCache(index, frameBufferSize, frameCount)
  {
    IndexesToCacheWindow(index, frameBufferSize, frameCount);
    ModOfSmall(frameBufferSize, frameCount);
    assert IndexesToCache(index, frameBufferSize, frameCount)[k] == (index + 1 + k) % frameCount;
  }

  /**
    Under a strategy that evicts with a buffer of at least one frame, the frame just
    left stays evicted after a one-frame advance: it is not in the new window.
   */
  lemma EvictedFrameStaysPlaceholder(frames: seq<AnimatedFrame>, strategy: FrameCachingStrategy, frameCount: nat,
                                     source: ImageSource, previous: int)
    requires StrategyValid(strategy) && |frames| == frameCount > 0 && 0 <= previous < frameCount
    requires EvictsBehind(strategy, frameCount) && strategy.count >= 1
    ensures var current := (previous + 1) % frameCount;
            CacheUpdate(frames, strategy, frameCount, source, previous, current)[previous].IsPlaceholder()
  {
    var current := (previous + 1) % frameCount;
    WindowAfterStepExcludesPrevious(previous, strategy.count, frameCount);
    CacheUpdateAt(frames, strategy, frameCount, source, previous, current, previous);
  }

  /** A window of fewer than `frameCount - 1` frames after the successor of `previous` does not reach back to `previous`. */
  lemma WindowAfterStepExcludesPrevious(previous: int, frameBufferSize: int, frameCount: nat)
    requires 0 <= previous < frameCount && 1 <= frameBufferSize < frameCount - 1
    ensures previous !in IndexesToCache((previous + 1) % frameCount, frameBufferSize, frameCount)
  {
    var n := frameCount;
    var current := (previous + 1) % n;
    IndexesToCacheWindow(current, frameBufferSize, n);
    ModOfSmall(frameBufferSize, n);
    var w := IndexesToCache(current, frameBufferSize, n);
    forall k | 0 <= k < |w| ensures w[k] != previous {
      ModAddMod(previous + 1, 1 + k, n);
      if previous + 2 + k < n {
        ModOfSmall(previous + 2 + k, n);
      } else {
        ModOfSmallPlusN(previous + 2 + k, n);
      }
    }
  }

  /**
    `cacheUpcoming(0)` as written: the window then covers every frame, so each pass
    evicts the frame just left and immediately decodes it again.
   */
  lemma ZeroBufferReloadsEvictedFrame(frames: seq<AnimatedFrame>, frameCount: nat, source: ImageSource, previous: int)
    requires |frames| == frameCount >= 2 && 0 <= previous < frameCount
    ensures var current := (previous + 1) % frameCount;
            CacheUpdate(frames, CacheUpcoming(0), frameCount, source, previous, current)[previous]
            == AnimatedFrame(CreateImageAtIndex(source, previous), frames[previous].duration)
  {
    var current := (previous + 1) % frameCount;
    ModOfSmall(current, frameCount);
    CacheUpdateAt(frames, CacheUpcoming(0), frameCount, source, previous, current, previous);
    ZeroBufferCoversEveryFrame(current, frameCount, previous);
  }

  /**
    Memory stays bounded: if every decoded slot is the current frame or in its
    window, that still holds after a one-frame advance and its cache pass, under a
    strategy that evicts. With a window of `1 ... frameCount - 2` frames this keeps at
    most `frameBufferSize + 1` images decoded.
   */
  predicate CachedWithinWindow(frames: seq<AnimatedFrame>, current: int, frameBufferSize: int, frameCount: nat)
    requires frameCount > 0 && frameBufferSize >= 0 && current >= 0
  {
    forall j :: 0 <= j < |frames| && !frames[j].IsPlaceholder() ==>
      j == current || j in IndexesToCache(current, frameBufferSize, frameCount)
  }

  lemma CacheUpdateStaysWithinWindow(frames: seq<AnimatedFrame>, strategy: FrameCachingStrategy, frameCount: nat,
                                     source: ImageSource, previous: int)
    requires StrategyValid(strategy) && |frames| == frameCount > 0 && 0 <= previous < frameCount
    requires EvictsBehind(strategy, frameCount)
    requires CachedWithinWindow(frames, previous, strategy.count, frameCount)
    ensures var current := (previous + 1) % frameCount;
            CachedWithinWindow(CacheUpdate(frames, strategy, frameCount, source, previous, current),
                               current, strategy.count, frameCount)
  {
    var n := frameCount;
    var current := (previous + 1) % n;
    var after := CacheUpdate(frames, strategy, n, source, previous, current);
    forall j | 0 <= j < n && !after[j].IsPlaceholder()
      ensures j == current || j in IndexesToCache(current, strategy.count, n)
    {
      CacheUpdateAt(frames, strategy, n, source, previous, current, j);
      if j != current && after[j] == frames[j] && j != previous {
        WindowSlides(previous, strategy.count, n, j);
      }
    }
  }

  // ---------------------------------------------------------------------------
  // The store as a whole

  /** The parts of the store that a tick never changes. */
  datatype StoreConfig = StoreConfig(source: ImageSource, strategy: FrameCachingStrategy, loopCount: int, frameCount: nat)

  /** The parts of the store that a tick changes. */
  datatype StoreState = StoreState(frames: seq<AnimatedFrame>, previous: int, playback: Playback)

  /**
    The store's invariant: the records are either not yet set up or one per frame;
    both indices lie in `[0, frameCount)` (or are still 0 before any frame exists);
    loops are counted from 0; a store with an infinite loop count is never finished.
   */
  predicate ValidState(config: StoreConfig, s: StoreState) {
    && StrategyValid(config.strategy)
    && (|s.frames| == 0 || |s.frames| == config.frameCount)
    && 0 <= s.playback.index && (s.playback.index < config.frameCount || s.playback.index == 0)
    && 0 <= s.previous && (s.previous < config.frameCount || s.previous == 0)
    && 0 <= s.playback.loop
    && (config.loopCount <= 0 ==> !s.playback.isFinished)
  }

  /**
    One `shouldChangeFrame` call with its cache pass: the tick on the playback state,
    and on a change `previousFrameIndex` takes the old index and the cache is updated.
   */
  function Step(config: StoreConfig, s: StoreState, duration: real): (r: (StoreState, bool))
    requires ValidState(config, s)
    ensures ValidState(config, r.0)
    ensures s.playback.isFinished ==> r.0.playback.isFinished
    ensures |r.0.frames| == |s.frames|
    ensures forall j :: 0 <= j < |s.frames| ==> r.0.frames[j].duration == s.frames[j].duration
  {
    var (p, changed) := Tick(s.playback, s.frames, config.frameCount, config.loopCount, duration);
    if !changed then (s.(playback := p), false)
    else
      var frames := CacheUpdate(s.frames, config.strategy, config.frameCount, config.source, s.playback.index, p.index);
      (StoreState(frames, s.playback.index, p), true)
  }

  /** A sequence of ticks, in order. */
  function Run(config: StoreConfig, s: StoreState, durations: seq<real>): (r: StoreState)
    requires ValidState(config, s)
    ensures ValidState(config, r)
    ensures s.playback.isFinished ==> r.playback.isFinished
    ensures |r.frames| == |s.frames|
    ensures forall j :: 0 <= j < |s.frames| ==> r.frames[j].duration == s.frames[j].duration
    decreases |durations|
  {
    if durations == [] then s else Run(config, Step(config, s, durations[0]).0, durations[1..])
  }

  /** However many ticks pass, an infinitely looping store never finishes and a finished one stays finished. */
  lemma RunFinishedFlag(config: StoreConfig, s: StoreState, durations: seq<real>)
    requires ValidState(config, s)
    ensures config.loopCount <= 0 ==> !Run(config, s, durations).playback.isFinished
    ensures s.playback.isFinished ==> Run(config, s, durations).playback.isFinished
  {
  }

  // ---------------------------------------------------------------------------
  // Setting up the records

  /** The record `setupAnimatedFrames` leaves at `index`: decoded only up to the buffer size. */
  function SetupRecord(source: ImageSource, index: int, frameBufferSize: int): AnimatedFrame {
    var placeholder := AnimatedFrame(None, Helpers.CGImageFrameDuration(source, index));
    if index > frameBufferSize then placeholder
    else placeholder.FrameWithImage(CreateImageAtIndex(source, index))
  }

  /** The records after `setupAnimatedFrames`, one per frame index in order. */
  function SetupFrames(source: ImageSource, frameCount: nat, frameBufferSize: int): (r: seq<AnimatedFrame>)
    ensures |r| == frameCount
    ensures forall i :: 0 <= i < frameCount ==> r[i] == SetupRecord(source, i, frameBufferSize)
  {
    seq(frameCount, i => SetupRecord(source, i, frameBufferSize))
  }

  /** `loopDuration`: the sum of the first `count` frame durations, each clamped to `maxTimeStep`. */
  function LoopDurationOf(source: ImageSource, count: nat): real {
    if count == 0 then 0.0
    else LoopDurationOf(source, count - 1) + Min(Helpers.CGImageFrameDuration(source, count - 1), MaxTimeStep)
  }

  /** The loop duration is never negative and at most `maxTimeStep` per frame. */
  lemma {:induction false} LoopDurationBounds(source: ImageSource, count: nat)
    ensures 0.0 <= LoopDurationOf(source, count) <= count as real * MaxTimeStep
  {
    if count > 0 {
      LoopDurationBounds(source, count - 1);
    }
  }

  /**
    The records after setup: every record keeps the source's duration for its index;
    the first `frameBufferSize + 1` carry their decoded image, the rest are
    placeholders; under an evicting strategy at index 0 the decoded slots lie within
    the cache window, so a tick's cache passes keep memory bounded from then on.
   */
  lemma SetupFramesCached(source: ImageSource, frameCount: nat, strategy: FrameCachingStrategy)
    requires StrategyValid(strategy) && frameCount > 0
    ensures var frames := SetupFrames(source, frameCount, FrameBufferSizeOf(strategy));
            && (forall i :: 0 <= i < frameCount ==> frames[i].duration == Helpers.CGImageFrameDuration(source, i))
            && (forall i :: 0 <= i < frameCount ==>
                  frames[i].image == if i <= FrameBufferSizeOf(strategy) then CreateImageAtIndex(source, i) else None)
            && (EvictsBehind(strategy, frameCount) ==> CachedWithinWindow(frames, 0, strategy.count, frameCount))
  {
    var frames := SetupFrames(source, frameCount, FrameBufferSizeOf(strategy));
    if EvictsBehind(strategy, frameCount) {
      var size := strategy.count;
      var w := IndexesToCache(0, size, frameCount);
      IndexesToCacheWindow(0, size, frameCount);
      forall j | 0 <= j < frameCount && !frames[j].IsPlaceholder()
        ensures j == 0 || j in w
      {
        if j != 0 {
          if size == 0 {
            ZeroBufferCoversEveryFrame(0, frameCount, j);
          } else {
            ModOfSmall(size, frameCount);
            ModOfSmall(j, frameCount);
            assert w[j - 1] == j;
          }
        }
      }
    }
  }

  // ---------------------------------------------------------------------------
  // Playback scenarios

  /** `k` advances in a row. */
  function Advances(p: Playback, k: nat, frameCount: nat, loopCount: int): Playback
    requires frameCount > 0
  {
    if k == 0 then p else Advance(Advances(p, k - 1, frameCount, loopCount), frameCount, loopCount)
  }

  /**
    Through one loop from frame 0: after `k` steps the index is `k`, the loop is the
    same, the loop is reported finished only at the last frame, and the animation is
    finished there if this was the last permitted loop.
   */
  lemma {:induction false} AdvancesThroughLoop(p: Playback, k: nat, frameCount: nat, loopCount: int)
    requires frameCount >= 2 && p.index == 0 && 1 <= k <= frameCount - 1
    ensures Advances(p, k, frameCount, loopCount)
            == p.(index := k, isLoopFinished := k == frameCount - 1,
                  isFinished := p.isFinished || (k == frameCount - 1 && p.loop == loopCount - 1))
  {
    if k == 1 {
      ModOfSmall(1, frameCount);
    } else {
      AdvancesThroughLoop(p, k - 1, frameCount, loopCount);
      ModOfSmall(k, frameCount);
    }
  }

  /** One more advance wraps to frame 0 and starts the next loop. */
  lemma AdvancesWrapToNextLoop(p: Playback, frameCount: nat, loopCount: int)
    requires frameCount >= 2 && p.index == 0
    ensures Advances(p, frameCount, frameCount, loopCount)
            == p.(index := 0, loop := p.loop + 1, isLoopFinished := false,
                  isFinished := p.isFinished || p.loop == loopCount - 1)
  {
    AdvancesThroughLoop(p, frameCount - 1, frameCount, loopCount);
    ModOfSmallPlusN(frameCount, frameCount);
  }

  lemma {:induction false} AdvancesAdd(p: Playback, a: nat, b: nat, frameCount: nat, loopCount: int)
    requires frameCount > 0
    ensures Advances(p, a + b, frameCount, loopCount)
            == Advances(Advances(p, a, frameCount, loopCount), b, frameCount, loopCount)
  {
    if b > 0 {
      AdvancesAdd(p, a, b - 1, frameCount, loopCount);
    }
  }

  /**
    Two loops with a loop count of 2: after the first pass through all frames the
    loop is finished but the animation is not; one more step wraps to frame 0; after
    the second pass both are finished.
   */
  lemma TwoLoopsFinish(frameCount: nat, elapsed: real)
    requires frameCount >= 2
    ensures var p := Playback(0, 0, elapsed, false, false);
            var first := Advances(p, frameCount - 1, frameCount, 2);
            var wrapped := Advances(p, frameCount, frameCount, 2);
            var second := Advances(p, 2 * frameCount - 1, frameCount, 2);
            && first.isLoopFinished && !first.isFinished
            && wrapped.index == 0 && wrapped.loop == 1 && !wrapped.isFinished
            && second.isLoopFinished && second.isFinished
  {
    var p := Playback(0, 0, elapsed, false, false);
    AdvancesThroughLoop(p, frameCount - 1, frameCount, 2);
    AdvancesWrapToNextLoop(p, frameCount, 2);
    var wrapped := Advances(p, frameCount, frameCount, 2);
    AdvancesAdd(p, frameCount, frameCount - 1, frameCount, 2);
    AdvancesThroughLoop(wrapped, frameCount - 1, frameCount, 2);
  }

  /** The playback state with the timer left out. */
  function Untimed(p: Playback): Playback {
    p.(elapsed := 0.0)
  }

  /** `k` ticks of `duration` seconds each on the playback state. */
  function Ticks(p: Playback, frames: seq<AnimatedFrame>, frameCount: nat, loopCount: int, duration: real, k: nat): Playback
    requires |frames| <= frameCount
  {
    if k == 0 then p
    else Tick(Ticks(p, frames, frameCount, loopCount, duration, k - 1), frames, frameCount, loopCount, duration).0
  }

  /**
    When no frame lasts longer than `maxTimeStep` and every tick is at least that
    long, every tick advances exactly one frame: `k` ticks are `k` advances, and the
    timer never goes negative.
   */
  lemma {:induction false} TicksAreAdvances(p: Playback, frames: seq<AnimatedFrame>, loopCount: int, duration: real, k: nat)
    requires |frames| > 0 && 0 <= p.index < |frames| && p.elapsed >= 0.0 && duration >= MaxTimeStep
    requires forall i :: 0 <= i < |frames| ==> frames[i].duration <= MaxTimeStep
    ensures var q := Ticks(p, frames, |frames|, loopCount, duration, k);
            && Untimed(q) == Untimed(Advances(p, k, |frames|, loopCount))
            && q.elapsed >= 0.0 && 0 <= q.index < |frames|
            && (k > 0 ==> Tick(Ticks(p, frames, |frames|, loopCount, duration, k - 1), frames, |frames|, loopCount, duration).1)
  {
    if k > 0 {
      TicksAreAdvances(p, frames, loopCount, duration, k - 1);
    }
  }

  /**
    The looping test scenario on real ticks: every frame lasts at most a second, the
    loop count is 2 and each tick is one second, as in the test suite.
   */
  lemma TwoLoopsFinishOnTicks(frames: seq<AnimatedFrame>)
    requires |frames| >= 2
    requires forall i :: 0 <= i < |frames| ==> frames[i].duration <= MaxTimeStep
    ensures var n := |frames|;
            var p := Playback(0, 0, 0.0, false, false);
            var first := Ticks(p, frames, n, 2, 1.0, n - 1);
            var second := Ticks(p, frames, n, 2, 1.0, 2 * n - 1);
            && Ticks(p, frames, n, 2, 1.0, 1).index == 1
            && first.isLoopFinished && !first.isFinished
            && Ticks(p, frames, n, 2, 1.0, n).index == 0
            && second.isLoopFinished && second.isFinished
  {
    var n := |frames|;
    var p := Playback(0, 0, 0.0, false, false);
    TwoLoopsFinish(n, 0.0);
    TicksAreAdvances(p, frames, 2, 1.0, 1);
    TicksAreAdvances(p, frames, 2, 1.0, n - 1);
    TicksAreAdvances(p, frames, 2, 1.0, n);
    TicksAreAdvances(p, frames, 2, 1.0, 2 * n - 1);
    AdvancesThroughLoop(p, 1, n, 2);
  }

  // ---------------------------------------------------------------------------
  // The class

  /** The records of one GIF's frames, with its playback position, loop counters and look-ahead cache. */
  class FrameStore {
    const imageSource: ImageSource
    const cachingStrategy: FrameCachingStrategy
    /** Desired number of loops; 0 or less loops forever. */
    const loopCount: int

    var loopDuration: real
    var isLoopFinished: bool
    var isFinished: bool
    var currentLoop: int
    var animatedFrames: seq<AnimatedFrame>
    var frameCount: nat
    var currentFrameIndex: int
    var previousFrameIndex: int
    var timeSinceLastFrameChange: real
    var shouldResizeFrames: bool

    ghost function Config(): StoreConfig
      reads this
    {
      StoreConfig(imageSource, cachingStrategy, loopCount, frameCount)
    }

    ghost function Snapshot(): StoreState
      reads this
    {
      StoreState(animatedFrames, previousFrameIndex,
                 Playback(currentFrameIndex, currentLoop, timeSinceLastFrameChange, isLoopFinished, isFinished))
    }

    ghost predicate Valid()
      reads this
    {
      && ValidState(Config(), Snapshot())
      && (frameCount == 0 || frameCount == Count(imageSource))
      && loopDuration == LoopDurationOf(imageSource, frameCount)
    }

    /** `init(data:size:contentMode:cachingStrategy:loopCount:)`. */
    constructor (source: ImageSource, cachingStrategy: FrameCachingStrategy, loopCount: int)
      requires StrategyValid(cachingStrategy)
      ensures Valid()
      ensures imageSource == source && this.cachingStrategy == cachingStrategy && this.loopCount == loopCount
      ensures animatedFrames == [] && frameCount == 0 && loopDuration == 0.0
      ensures Snapshot().playback == Playback(0, 0, 0.0, false, false) && previousFrameIndex == 0
      ensures shouldResizeFrames
    {
      imageSource := source;
      this.cachingStrategy := cachingStrategy;
      this.loopCount := loopCount;
      loopDuration := 0.0;
      isLoopFinished := false;
      isFinished := false;
      currentLoop := 0;
      animatedFrames := [];
      frameCount := 0;
      currentFrameIndex := 0;
      previousFrameIndex := 0;
      timeSinceLastFrameChange := 0.0;
      shouldResizeFrames := true;
    }

    /** The deprecated `init(data:size:contentMode:frameBufferSize:loopCount:)`. */
    constructor WithFrameBufferSize(source: ImageSource, frameBufferSize: int, loopCount: int)
      ensures Valid()
      ensures imageSource == source && cachingStrategy == StrategyFor(frameBufferSize) && this.loopCount == loopCount
      ensures animatedFrames == [] && frameCount == 0 && loopDuration == 0.0
      ensures Snapshot().playback == Playback(0, 0, 0.0, false, false) && previousFrameIndex == 0
      ensures shouldResizeFrames
    {
      imageSource := source;
      cachingStrategy := StrategyFor(frameBufferSize);
      this.loopCount := loopCount;
      loopDuration := 0.0;
      isLoopFinished := false;
      isFinished := false;
      currentLoop := 0;
      animatedFrames := [];
      frameCount := 0;
      currentFrameIndex := 0;
      previousFrameIndex := 0;
      timeSinceLastFrameChange := 0.0;
      shouldResizeFrames := true;
    }

    /** `frameBufferSize`: the look-ahead of the store's strategy. */
    function FrameBufferSize(): (r: int)
      ensures cachingStrategy.CacheAll? ==> r == CacheAllBufferSize
      ensures cachingStrategy.CacheUpcoming? ==> r == cachingStrategy.count
    {
      FrameBufferSizeOf(cachingStrategy)
    }

    /** `isAnimatable`. */
    predicate IsAnimatable() {
      Helpers.IsAnimatedGIF(imageSource)
    }

    /** `frame(at:)`: the record's image, nothing when there is no record. */
    function Frame(index: int): (r: Option<Image>)
      reads this
      ensures 0 <= index < |animatedFrames| ==> r == animatedFrames[index].image
      ensures !(0 <= index < |animatedFrames|) ==> r.None?
    {
      FrameAt(animatedFrames, index)
    }

    /** `duration(at:)`: the record's duration, infinite when there is no record. */
    function Duration(index: int): (r: TimeInterval)
      reads this
      ensures 0 <= index < |animatedFrames| ==> r == Seconds(animatedFrames[index].duration)
      ensures !(0 <= index < |animatedFrames|) ==> r.Infinity?
    {
      DurationAt(animatedFrames, index)
    }

    /** `currentFrameImage`: the current record's image, nothing when the index has no record. */
    function CurrentFrameImage(): (r: Option<Image>)
      reads this
      ensures 0 <= currentFrameIndex < |animatedFrames| ==> r == animatedFrames[currentFrameIndex].image
      ensures !(0 <= currentFrameIndex < |animatedFrames|) ==> r.None?
    {
      Frame(currentFrameIndex)
    }

    /** `currentFrameDuration`: the current record's duration, infinite when the index has no record. */
    function CurrentFrameDuration(): (r: TimeInterval)
      reads this
      ensures 0 <= currentFrameIndex < |animatedFrames| ==> r == Seconds(animatedFrames[currentFrameIndex].duration)
      ensures !(0 <= currentFrameIndex < |animatedFrames|) ==> r.Infinity?
    {
      Duration(currentFrameIndex)
    }

    /** `loadFrame(at:)`: the decoded image, nothing for a frame that cannot be decoded; resizing is not modelled. */
    function LoadFrame(index: int): (r: Option<Image>)
      ensures 0 <= index < Count(imageSource) ==> r == imageSource.frames[index].image
      ensures !(0 <= index < Count(imageSource)) ==> r.None?
    {
      CreateImageAtIndex(imageSource, index)
    }

    /**
      `prepareFrames`: read the frame count, then set up every record (run here to
      completion, where the source runs it on its preload queue and then calls the
      completion handler).
     */
    method PrepareFrames()
      requires Valid()
      modifies this
      ensures Valid()
      ensures frameCount == Count(imageSource)
      ensures animatedFrames == SetupFrames(imageSource, frameCount, FrameBufferSize())
      ensures loopDuration == LoopDurationOf(imageSource, frameCount)
      ensures Snapshot().playback == old(Snapshot().playback) && previousFrameIndex == old(previousFrameIndex)
      ensures shouldResizeFrames == old(shouldResizeFrames)
    {
      frameCount := Count(imageSource);
      SetupAnimatedFrames();
    }

    /** `setupAnimatedFrames`: one placeholder per index with its duration, decoding indices up to the buffer size. */
    method SetupAnimatedFrames()
      requires frameCount == Count(imageSource)
      modifies this`animatedFrames, this`loopDuration
      ensures animatedFrames == SetupFrames(imageSource, frameCount, FrameBufferSize())
      ensures loopDuration == LoopDurationOf(imageSource, frameCount)
    {
      animatedFrames := [];
      var duration: real := 0.0;
      for index := 0 to frameCount
        invariant |animatedFrames| == index
        invariant forall i :: 0 <= i < index ==> animatedFrames[i] == SetupRecord(imageSource, i, FrameBufferSize())
        invariant duration == LoopDurationOf(imageSource, index)
      {
        var frameDuration := Helpers.CGImageFrameDuration(imageSource, index);
        duration := duration + Min(frameDuration, MaxTimeStep);
        animatedFrames := animatedFrames + [AnimatedFrame(None, frameDuration)];
        if index <= FrameBufferSize() {
          LoadFrameAtIndexIfNeeded(index);
        }
      }
      loopDuration := duration;
    }

    /** `shouldChangeFrame(with:handler:)`; the handler's argument is the result. */
    method ShouldChangeFrame(duration: real) returns (changed: bool)
      requires Valid()
      modifies this
      ensures Valid()
      ensures (Snapshot(), changed) == Step(old(Config()), old(Snapshot()), duration)
      ensures frameCount == old(frameCount) && loopDuration == old(loopDuration)
      ensures shouldResizeFrames == old(shouldResizeFrames)
    {
      timeSinceLastFrameChange := timeSinceLastFrameChange + Min(MaxTimeStep, duration);
      if Exceeds(CurrentFrameDuration(), timeSinceLastFrameChange) {
        changed := false;
      } else {
        ResetTimeSinceLastFrameChange();
        IncrementCurrentFrameIndex();
        changed := true;
      }
    }

    /** `resetTimeSinceLastFrameChange`: take the current frame's duration off the timer. */
    method ResetTimeSinceLastFrameChange()
      requires 0 <= currentFrameIndex < |animatedFrames|
      modifies this`timeSinceLastFrameChange
      ensures timeSinceLastFrameChange == old(timeSinceLastFrameChange) - animatedFrames[currentFrameIndex].duration
    {
      timeSinceLastFrameChange := timeSinceLastFrameChange - CurrentFrameDuration().seconds;
    }

    /** `incrementCurrentFrameIndex`. */
    method IncrementCurrentFrameIndex()
      requires StrategyValid(cachingStrategy) && frameCount > 0 && |animatedFrames| == frameCount
      requires 0 <= currentFrameIndex < frameCount
      modifies this`currentFrameIndex, this`previousFrameIndex, this`animatedFrames,
               this`isLoopFinished, this`isFinished, this`currentLoop
      ensures Snapshot().playback == Advance(old(Snapshot().playback), frameCount, loopCount)
      ensures previousFrameIndex == old(currentFrameIndex)
      ensures animatedFrames == CacheUpdate(old(animatedFrames), cachingStrategy, frameCount, imageSource,
                                            old(currentFrameIndex), currentFrameIndex)
    {
      SetCurrentFrameIndex(Increment(currentFrameIndex, 1, frameCount));
      if IsLastFrame(currentFrameIndex, frameCount) {
        isLoopFinished := true;
        if IsLastLoop(currentLoop, loopCount) {
          isFinished := true;
        }
      } else {
        isLoopFinished := false;
        if currentFrameIndex == 0 {
          currentLoop := currentLoop + 1;
        }
      }
    }

    /**
      Assigning `currentFrameIndex` with its observers: `previousFrameIndex` takes the
      old value, and setting it runs a cache pass (here synchronously).
     */
    method SetCurrentFrameIndex(newValue: int)
      requires StrategyValid(cachingStrategy) && frameCount > 0 && |animatedFrames| == frameCount
      requires 0 <= currentFrameIndex < frameCount && 0 <= newValue < frameCount
      modifies this`currentFrameIndex, this`previousFrameIndex, this`animatedFrames
      ensures currentFrameIndex == newValue && previousFrameIndex == old(currentFrameIndex)
      ensures animatedFrames == CacheUpdate(old(animatedFrames), cachingStrategy, frameCount, imageSource,
                                            previousFrameIndex, currentFrameIndex)
    {
      var oldValue := currentFrameIndex;
      currentFrameIndex := newValue;
      previousFrameIndex := oldValue;
      UpdateFrameCache();
    }

    /** `updateFrameCache`: evict the frame behind, then load the placeholders of the window. */
    method UpdateFrameCache()
      requires StrategyValid(cachingStrategy) && frameCount > 0 && |animatedFrames| == frameCount
      requires 0 <= previousFrameIndex < frameCount && 0 <= currentFrameIndex < frameCount
      modifies this`animatedFrames
      ensures animatedFrames == CacheUpdate(old(animatedFrames), cachingStrategy, frameCount, imageSource,
                                            previousFrameIndex, currentFrameIndex)
    {
      if cachingStrategy.CacheUpcoming? && cachingStrategy.count < frameCount - 1 {
        DeleteCachedFrame(previousFrameIndex);
      }
      if PlaceholderCount(animatedFrames) == 0 {
        return;
      }
      var start := animatedFrames;
      var indexes := IndexesToCache(currentFrameIndex, FrameBufferSize(), frameCount);
      for k := 0 to |indexes|
        invariant |animatedFrames| == frameCount
        invariant animatedFrames == LoadedAll(start, imageSource, indexes[..k])
      {
        assert indexes[..k + 1][..k] == indexes[..k];
        LoadFrameAtIndexIfNeeded(indexes[k]);
      }
      assert indexes[..|indexes|] == indexes;
    }

    /** `deleteCachedFrame(at:)`. */
    method DeleteCachedFrame(index: int)
      requires 0 <= index < |animatedFrames|
      modifies this`animatedFrames
      ensures animatedFrames == Evicted(old(animatedFrames), index)
    {
      animatedFrames := animatedFrames[index := animatedFrames[index].PlaceholderFrame()];
    }

    /** `loadFrameAtIndexIfNeeded(_:)`. */
    method LoadFrameAtIndexIfNeeded(index: int)
      requires 0 <= index < |animatedFrames|
      modifies this`animatedFrames
      ensures animatedFrames == Loaded(old(animatedFrames), imageSource, index)
    {
      var frame := animatedFrames[index];
      if !frame.IsPlaceholder() {
        return;
      }
      var loadedFrame := frame.FrameWithImage(LoadFrame(index));
      animatedFrames := animatedFrames[index := loadedFrame];
    }
  }
}
