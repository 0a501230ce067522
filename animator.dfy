/**
  The playback driver of the current library (Sources/Gifu/Classes/Animator.swift).
  It owns an optional frame store, a display link reduced to its `isPaused` flag,
  and the two optional callbacks installed by `animate`. A display-link tick is the
  call `UpdateFrameIfNeeded(duration)`, where `duration` is the link's frame
  duration; what the driver calls back is returned as a list of events.
 */
module Animators {
  import opened Wrappers
  import opened Platform
  import opened FrameStores
  import Helpers = ImageSourceHelpers

  /** The buffer size a new driver passes to its stores. */
  const DefaultFrameBufferSize: int := 50

  /** A call the driver makes during one tick. */
  datatype Event =
    | NewFrame            // delegate.animatorHasNewFrame()
    | LoopFinished        // loopBlock()
    | AnimationFinished   // animationBlock()

  /** Which of the optional callbacks are installed. */
  datatype Callbacks = Callbacks(hasAnimationBlock: bool, hasLoopBlock: bool)

  /** The result of one tick on a store: its new state, whether the display link is paused, and the calls made. */
  datatype TickOutcome = TickOutcome(state: StoreState, stops: bool, events: seq<Event>)

  /**
    `updateFrameIfNeeded` when a store is present: a finished store stops the
    animation and fires `animationBlock` without ticking; otherwise the store ticks,
    and a frame change notifies the delegate and, at the end of a loop, fires
    `loopBlock`.
   */
  function UpdateFrame(config: StoreConfig, s: StoreState, duration: real, callbacks: Callbacks): TickOutcome
    requires ValidState(config, s)
  {
    if s.playback.isFinished then
      TickOutcome(s, true, if callbacks.hasAnimationBlock then [AnimationFinished] else [])
    else
      var (next, changed) := Step(config, s, duration);
      var loopEvents := if next.playback.isLoopFinished && callbacks.hasLoopBlock then [LoopFinished] else [];
      TickOutcome(next, false, if changed then [NewFrame] + loopEvents else [])
  }

  /**
    What a tick does, case by case: it stops the animation exactly when the store
    is finished, and then leaves the store alone and calls only `animationBlock` (if
    installed). Otherwise the delegate is notified exactly when the store reports a
    frame change, `loopBlock` fires exactly when that change lands on the last frame
    and the block is installed, and the delegate always hears first.
   */
  lemma UpdateFrameEvents(config: StoreConfig, s: StoreState, duration: real, callbacks: Callbacks)
    requires ValidState(config, s)
    ensures var o := UpdateFrame(config, s, duration, callbacks);
            var (next, changed) := Step(config, s, duration);
            && (o.stops <==> s.playback.isFinished)
            && (o.stops ==> o.state == s)
            && (!o.stops ==> o.state == next)
            && (AnimationFinished in o.events <==> s.playback.isFinished && callbacks.hasAnimationBlock)
            && (NewFrame in o.events <==> !s.playback.isFinished && changed)
            && (LoopFinished in o.events <==>
                  !s.playback.isFinished && changed && next.playback.isLoopFinished && callbacks.hasLoopBlock)
            && (o.events != [] ==> o.events[0] == NewFrame || o.events == [AnimationFinished])
  {
  }

  /** An animation with a loop count of 0 or less never stops by itself and never fires `animationBlock`. */
  lemma InfiniteAnimationNeverCompletes(config: StoreConfig, s: StoreState, duration: real, callbacks: Callbacks)
    requires ValidState(config, s) && config.loopCount <= 0
    ensures var o := UpdateFrame(config, s, duration, callbacks);
            !o.stops && AnimationFinished !in o.events && !o.state.playback.isFinished
  {
  }

  /**
    The driver of one animated view: it owns the frame store of the GIF being shown,
    passes each display-link tick to it, and reports frame changes, loop ends and the
    end of the animation.
   */
  class Animator {
    var frameBufferSize: int
    var shouldResizeFrames: bool
    var frameStore: FrameStore?
    /** `displayLink.isPaused`; the link is created paused. */
    var paused: bool
    var hasAnimationBlock: bool
    var hasLoopBlock: bool

    ghost predicate Valid()
      reads this, frameStore
    {
      frameStore != null ==> frameStore.Valid()
    }

    /** `init(withDelegate:)`; the delegate is not modelled. */
    constructor ()
      ensures Valid()
      ensures frameBufferSize == DefaultFrameBufferSize && !shouldResizeFrames
      ensures frameStore == null && paused && !hasAnimationBlock && !hasLoopBlock
    {
      frameBufferSize := DefaultFrameBufferSize;
      shouldResizeFrames := false;
      frameStore := null;
      paused := true;
      hasAnimationBlock := false;
      hasLoopBlock := false;
    }

    /** `loopDuration`: the store's loop duration, 0 without a store. */
    function LoopDuration(): (r: real)
      requires Valid()
      reads this, frameStore
      ensures frameStore == null ==> r == 0.0
      ensures frameStore != null ==> r == LoopDurationOf(frameStore.imageSource, frameStore.frameCount)
      ensures 0.0 <= r <= FrameCount() as real * MaxTimeStep
    {
      if frameStore == null then 0.0
      else
        LoopDurationBounds(frameStore.imageSource, frameStore.frameCount);
        frameStore.loopDuration
    }

    /** `frameCount`: 0 without a store and before the store is prepared, else the source's frame count. */
    function FrameCount(): (r: nat)
      requires Valid()
      reads this, frameStore
      ensures frameStore == null ==> r == 0
      ensures frameStore != null ==> r == 0 || r == Count(frameStore.imageSource)
    {
      if frameStore == null then 0 else frameStore.frameCount
    }

    /** `isAnimating`. */
    predicate IsAnimating()
      reads this
    {
      !paused
    }

    /** `activeFrame()`: the store's current image, nothing without a store. */
    function ActiveFrame(): (r: Option<Image>)
      reads this, frameStore
      ensures frameStore == null ==> r.None?
      ensures frameStore != null ==> r == FrameAt(frameStore.animatedFrames, frameStore.currentFrameIndex)
      ensures r.Some? ==> frameStore != null && 0 <= frameStore.currentFrameIndex < |frameStore.animatedFrames|
                          && r == frameStore.animatedFrames[frameStore.currentFrameIndex].image
    {
      if frameStore == null then None else frameStore.CurrentFrameImage()
    }

    /** `updateFrameIfNeeded`, for a tick of the display link lasting `duration` seconds. */
    method UpdateFrameIfNeeded(duration: real) returns (events: seq<Event>)
      requires Valid()
      modifies this`paused, frameStore
      ensures Valid() && frameStore == old(frameStore)
      ensures frameStore == null ==> events == [] && paused == old(paused)
      ensures frameStore != null ==>
                var o := UpdateFrame(old(frameStore.Config()), old(frameStore.Snapshot()), duration,
                                     Callbacks(hasAnimationBlock, hasLoopBlock));
                && frameStore.Snapshot() == o.state && frameStore.Config() == old(frameStore.Config())
                && events == o.events && paused == (o.stops || old(paused))
    {
      var store := frameStore;
      if store == null {
        return [];
      }
      if store.isFinished {
        StopAnimating();
        events := if hasAnimationBlock then [AnimationFinished] else [];
        return;
      }
      var changed := store.ShouldChangeFrame(duration);
      events := [];
      if changed {
        events := [NewFrame];
        if store.isLoopFinished && hasLoopBlock {
          events := events + [LoopFinished];
        }
      }
    }

    /**
      `prepareForAnimation(withGIFData:size:contentMode:loopCount:completionHandler:)`:
      a new store over the source with a bounded cache for a positive buffer size and
      a full cache otherwise, taking the driver's resize flag, prepared at once.
     */
    method PrepareForAnimation(source: ImageSource, loopCount: int)
      requires Valid()
      modifies this
      ensures Valid() && frameStore != null && fresh(frameStore)
      ensures frameStore.imageSource == source && frameStore.loopCount == loopCount
      ensures frameStore.cachingStrategy == StrategyFor(frameBufferSize)
      ensures frameStore.shouldResizeFrames == shouldResizeFrames
      ensures frameStore.frameCount == Count(source)
      ensures frameStore.animatedFrames == SetupFrames(source, Count(source), FrameBufferSizeOf(frameStore.cachingStrategy))
      ensures frameStore.Snapshot().playback == Playback(0, 0, 0.0, false, false)
      ensures paused == old(paused) && frameBufferSize == old(frameBufferSize)
      ensures shouldResizeFrames == old(shouldResizeFrames)
      ensures hasAnimationBlock == old(hasAnimationBlock) && hasLoopBlock == old(hasLoopBlock)
    {
      var store := new FrameStore(source, if frameBufferSize > 0 then CacheUpcoming(frameBufferSize) else CacheAll, loopCount);
      store.shouldResizeFrames := shouldResizeFrames;
      store.PrepareFrames();
      frameStore := store;
    }

    /** `startAnimating`: unpause only when a store exists and its source is animated. */
    method StartAnimating()
      modifies this`paused
      ensures paused == if frameStore != null && frameStore.IsAnimatable() then false else old(paused)
    {
      if frameStore != null && frameStore.IsAnimatable() {
        paused := false;
      }
    }

    /** `stopAnimating`. */
    method StopAnimating()
      modifies this`paused
      ensures paused
    {
      paused := true;
    }

    /** `animate(withGIFData:...)`: install both callbacks, prepare, then start. */
    method Animate(source: ImageSource, loopCount: int, animationBlock: bool, loopBlock: bool)
      requires Valid()
      modifies this
      ensures Valid() && frameStore != null && fresh(frameStore)
      ensures hasAnimationBlock == animationBlock && hasLoopBlock == loopBlock
      ensures frameStore.imageSource == source && frameStore.loopCount == loopCount
      ensures frameStore.cachingStrategy == StrategyFor(frameBufferSize)
      ensures frameStore.frameCount == Count(source)
      ensures frameStore.Snapshot().playback == Playback(0, 0, 0.0, false, false)
      ensures paused == if Helpers.IsAnimatedGIF(source) then false else old(paused)
      ensures frameBufferSize == old(frameBufferSize) && shouldResizeFrames == old(shouldResizeFrames)
    {
      hasAnimationBlock := animationBlock;
      hasLoopBlock := loopBlock;
      PrepareForAnimation(source, loopCount);
      StartAnimating();
    }

    /** `prepareForReuse`: stop and drop the store. */
    method PrepareForReuse()
      modifies this
      ensures Valid() && paused && frameStore == null
      ensures frameBufferSize == old(frameBufferSize) && shouldResizeFrames == old(shouldResizeFrames)
      ensures hasAnimationBlock == old(hasAnimationBlock) && hasLoopBlock == old(hasLoopBlock)
    {
      StopAnimating();
      frameStore := null;
    }
  }
}
