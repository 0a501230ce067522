/**
  The earlier playback driver (Source/Classes/Animator.swift): the same shape as the
  current one, without loop counts or callbacks. Its frame store takes a plain
  preload count; that store is not part of this model, so the driver is modelled
  over the current store built with the buffer-size initializer and an infinite
  loop count.
 */
module PreviousAnimators {
  import opened Wrappers
  import opened Platform
  import opened FrameStores

  /** The preload count a new driver passes to its stores. */
  const DefaultFrameBufferCount: int := 50

  /** The driver of one animated view: it owns the frame store and passes each display-link tick to it. */
  class Animator {
    var frameBufferCount: int
    var shouldResizeFrames: bool
    var frameStore: FrameStore?
    /** `displayLink.isPaused`; the link is created paused. */
    var paused: bool

    ghost predicate Valid()
      reads this, frameStore
    {
      frameStore != null ==> frameStore.Valid() && frameStore.loopCount == 0
    }

    /** `init(withDelegate:)`; the delegate is not modelled. */
    constructor ()
      ensures Valid()
      ensures frameBufferCount == DefaultFrameBufferCount && !shouldResizeFrames
      ensures frameStore == null && paused
    {
      frameBufferCount := DefaultFrameBufferCount;
      shouldResizeFrames := false;
      frameStore := null;
      paused := true;
    }

    /** `frameCount`: 0 without a store and before the store is prepared, else the source's frame count. */
    function FrameCount(): (r: nat)
      requires Valid()
      reads this, frameStore
      ensures frameStore == null ==> r == 0
      ensures frameStore != null ==> r == 0 || r == Count(frameStore.imageSource)
    {
      if frameStore == null then 0 else frameStore.frameCount
    }

    /** `isAnimating`. */
    predicate IsAnimating()
      reads this
    {
      !paused
    }

    /** `activeFrame()`: the store's current image, nothing without a store. */
    function ActiveFrame(): (r: Option<Image>)
      reads this, frameStore
      ensures frameStore == null ==> r.None?
      ensures frameStore != null ==> r == FrameAt(frameStore.animatedFrames, frameStore.currentFrameIndex)
      ensures r.Some? ==> frameStore != null && 0 <= frameStore.currentFrameIndex < |frameStore.animatedFrames|
                          && r == frameStore.animatedFrames[frameStore.currentFrameIndex].image
    {
      if frameStore == null then None else frameStore.CurrentFrameImage()
    }

    /**
      `updateFrameIfNeeded`, for a tick of `duration` seconds: without a store
      nothing happens; otherwise the store ticks and the delegate is notified
      (`notified`) exactly when it reports a frame change. The driver never pauses
      itself, and its store never finishes.
     */
    method UpdateFrameIfNeeded(duration: real) returns (notified: bool)
      requires Valid()
      modifies frameStore
      ensures Valid()
      ensures frameStore == null ==> !notified
      ensures frameStore != null ==>
                && (frameStore.Snapshot(), notified) == Step(old(frameStore.Config()), old(frameStore.Snapshot()), duration)
                && frameStore.Config() == old(frameStore.Config())
                && !frameStore.isFinished
    {
      var store := frameStore;
      if store == null {
        return false;
      }
      notified := store.ShouldChangeFrame(duration);
    }

    /**
      `prepareForAnimation(withGIFData:size:contentMode:)`: a new store, prepared at once,
      whose strategy comes from `frameBufferCount` (decoding frames `0 ... frameBufferCount`
      up front when it is positive, every frame otherwise).
     */
    method PrepareForAnimation(source: ImageSource)
      requires Valid()
      modifies this
      ensures Valid() && frameStore != null && fresh(frameStore)
      ensures frameStore.imageSource == source && frameStore.cachingStrategy == StrategyFor(frameBufferCount)
      ensures frameStore.shouldResizeFrames == shouldResizeFrames
      ensures frameStore.frameCount == Count(source)
      ensures frameStore.animatedFrames == SetupFrames(source, Count(source), FrameBufferSizeOf(frameStore.cachingStrategy))
      ensures frameStore.Snapshot().playback == Playback(0, 0, 0.0, false, false)
      ensures paused == old(paused) && frameBufferCount == old(frameBufferCount)
      ensures shouldResizeFrames == old(shouldResizeFrames)
    {
      var store := new FrameStore.WithFrameBufferSize(source, frameBufferCount, 0);
      store.shouldResizeFrames := shouldResizeFrames;
      store.PrepareFrames();
      frameStore := store;
    }

    /** `startAnimating`: unpause only when a store exists and its source is animated. */
    method StartAnimating()
      modifies this`paused
      ensures paused == if frameStore != null && frameStore.IsAnimatable() then false else old(paused)
    {
      if frameStore != null && frameStore.IsAnimatable() {
        paused := false;
      }
    }

    /** `stopAnimating`. */
    method StopAnimating()
      modifies this`paused
      ensures paused
    {
      paused := true;
    }

    /** `animate(withGIFData:size:contentMode:)`: prepare, then start. */
    method Animate(source: ImageSource)
      requires Valid()
      modifies this
      ensures Valid() && frameStore != null && fresh(frameStore)
      ensures frameStore.imageSource == source && frameStore.frameCount == Count(source)
      ensures paused == if frameStore.IsAnimatable() then false else old(paused)
      ensures frameBufferCount == old(frameBufferCount) && shouldResizeFrames == old(shouldResizeFrames)
    {
      PrepareForAnimation(source);
      StartAnimating();
    }

    /** `prepareForReuse`: stop and drop the store. */
    method PrepareForReuse()
      modifies this
      ensures Valid() && paused && frameStore == null
      ensures frameBufferCount == old(frameBufferCount) && shouldResizeFrames == old(shouldResizeFrames)
    {
      StopAnimating();
      frameStore := null;
    }
  }
}
