# Gifu frame store and playback engine, modelled in Dafny

Gifu plays animated GIFs on iOS. This project models its core:

- the **frame store**, which keeps one record per GIF frame (an optional decoded image and a duration). It also holds the playback position, the loop counters, and a bounded look-ahead cache of decoded images.
- the **playback drivers** (the current one and an earlier one). They turn display-link ticks into frame changes and callbacks.
- the **early progressive animator**. It keeps a fixed-size ring of decoded frames and refills the slot it just left with the next frame still to come.
- the **frame-duration rules** of the three versions of the image-source helpers. They read the unclamped and clamped delay times that the platform takes from each frame's Graphic Control Extension (section 23 of the GIF89a specification).
- the frame record value type, and the small Optional/Array combinators the early code uses.

The platform image source is a value, `Platform.ImageSource`. It holds the GIF-type flag and, per frame, an optional decoded image and an optional GIF property dictionary. Decoding a frame is a lookup that may yield nothing. Times are `real`s. Integers are unbounded; Swift's truncating `%` is written out as `FrameStores.SwiftRemainder`.

Each stateful Swift class is modelled as a Dafny `class` with the fields that drive the modelled behaviour. Fields for resizing, queues, locks, the delegate and the display link are not modelled; see "Left out". The display link is reduced to a `paused` flag. The methods are proved against pure functions of the old state:

- `FrameStores.Tick`, `CacheUpdate` and `Step` for the frame store;
- `Animators.UpdateFrame` for the current driver;
- `ProgressiveAnimators.UpdateCurrent`, `Rebuild` and `AfterMoving` for the progressive animator.

The properties are lemmas about those functions. For example: one tick moves at most one frame; the loop flags and counters; `isFinished` is latched and never set for infinite loops; the cache pass touches only images, never durations; the evicted frame stays evicted; decoded images stay within the current frame and its window; the progressive ring always shows the source frames in order and a move puts the requested frame on screen.

Points where the model follows the code literally:

- `currentFrameIndex`'s observer sets `previousFrameIndex`, and that observer schedules the cache pass. The model runs the pass synchronously right after the index changes (`FrameStores.FrameStore.SetCurrentFrameIndex`).
- `isLoopFinished` is set when playback arrives at the last frame, not when it wraps to frame 0.
- `cacheUpcoming(0)` makes the look-ahead window a full turn of the GIF. Every pass then evicts the frame just left and decodes it again at once (`FrameStores.ZeroBufferReloadsEvictedFrame`).
- A negative `cacheUpcoming` count can make the window's range trap: the last index can fall below the first. So the store requires a non-negative count (`FrameStores.StrategyValid`). The drivers never pass one, because they map a non-positive buffer size to `cacheAll`.
- A frame whose two delays are both negative gets the default 0 from `duration(withUnclampedTime:andClampedTime:)`, and `capDuration` then raises that 0 to 0.1 (`ImageSourceHelpers.BothDelaysNegativeLastATenth`).
- In the progressive animator, `prepareFramesAfterMoving` on a fully cached GIF with no pending move sets the index to -1, and no later tick changes the frame (`ProgressiveAnimators.AfterMovingWithoutMoveStallsFullRing`).

## Model

| member | source | states |
|---|---|---|
| FrameStores.StrategyFor | Sources/Gifu/Classes/FrameStore.swift:136-151 | a positive buffer size gives `cacheUpcoming` of that size, anything else `cacheAll`; the buffer size is then the given size or 10 |
| FrameStores.FrameBufferSizeOf | Sources/Gifu/Classes/FrameStore.swift:45-52 | the count of `cacheUpcoming`, 10 under `cacheAll`, and never negative for a strategy the store accepts |
| FrameStores.IsLastFrame | Sources/Gifu/Classes/FrameStore.swift:312-314 | the index is `frameCount - 1` (no contract of its own; `AdvanceLoopBookkeeping` states its use) |
| FrameStores.IsLastLoop | Sources/Gifu/Classes/FrameStore.swift:319-321 | the loop index is `loopCount - 1`, which never holds for loop counts of 0 or less because loops count up from 0 (no contract of its own; `AdvanceLoopBookkeeping` states its use) |
| FrameStores.Increment | Sources/Gifu/Classes/FrameStore.swift:305-307 | for `frameCount > 0` and a non-negative sum, the index is in `[0, frameCount)` and is the sum modulo the frame count |
| FrameStores.FrameAt | Sources/Gifu/Classes/FrameStore.swift:170-174 | the record's image for an index in range, nothing (no trap) outside |
| FrameStores.DurationAt | Sources/Gifu/Classes/FrameStore.swift:180-184 | infinite exactly for an index outside the records, else that record's duration |
| FrameStores.Advance | Sources/Gifu/Classes/FrameStore.swift:284-298 | one frame on, then the loop flags and counter (no contract of its own; `AdvanceLoopBookkeeping` states it in full) |
| FrameStores.Tick | Sources/Gifu/Classes/FrameStore.swift:190-200 | one tick on the playback state (no contract of its own; `TickAdvancesAtMostOneFrame` states it in full) |
| FrameStores.TickAdvancesAtMostOneFrame | Sources/Gifu/Classes/FrameStore.swift:190-200 | a tick changes the frame iff the current duration is at most the timer plus `min(1.0, tick)`; with no change only the timer moves; with a change the index moves exactly one on modulo the frame count and the timer loses that duration |
| FrameStores.AdvanceLoopBookkeeping | Sources/Gifu/Classes/FrameStore.swift:284-298 | after an advance `isLoopFinished` iff the new index is the last; the loop grows by one iff the index wraps to 0 with more than one frame; `isFinished` is latched and set only at the last frame of loop `loopCount - 1` |
| FrameStores.Evicted | Sources/Gifu/Classes/FrameStore.swift:255-259 | the slot becomes a placeholder, every duration and every other slot is unchanged |
| FrameStores.Loaded | Sources/Gifu/Classes/FrameStore.swift:261-276 | a non-placeholder slot is left untouched; length and durations are kept |
| FrameStores.LoadedAll | Sources/Gifu/Classes/FrameStore.swift:250-252 | loading a list of indices keeps the number of records and every duration |
| FrameStores.IndexesToCache | Sources/Gifu/Classes/FrameStore.swift:239-248 | every index of the window is a frame index |
| FrameStores.IndexesToCacheWindow | Sources/Gifu/Classes/FrameStore.swift:239-248 | the window is the consecutive wrapped run `(index + 1 + k) % frameCount`, ends at `(index + frameBufferSize) % frameCount`, and has `frameBufferSize % frameCount` elements, a full turn when that is 0 |
| FrameStores.ZeroBufferCoversEveryFrame | Sources/Gifu/Classes/FrameStore.swift:239-248 | with a buffer of 0 every frame index is in the window |
| FrameStores.SlotInWindow | Sources/Gifu/Classes/FrameStore.swift:239-248 | the `k`-th index after the next one is in the window for `k` below the buffer size |
| FrameStores.WindowSlides | Sources/Gifu/Classes/FrameStore.swift:239-248 | after a one-frame advance, the old window minus the new current frame lies in the new window |
| FrameStores.CacheUpdate | Sources/Gifu/Classes/FrameStore.swift:229-253 | a cache pass keeps the number of records and every duration |
| FrameStores.LoadedAllAt | Sources/Gifu/Classes/FrameStore.swift:250-276 | after loading a list, a slot has changed iff it is listed and was a placeholder, and then holds its decoded image with its old duration |
| FrameStores.PlaceholderGuardIsShortcut | Sources/Gifu/Classes/FrameStore.swift:236-237 | with no placeholder, loading changes nothing, so the early return only saves work |
| FrameStores.CacheUpdateAt | Sources/Gifu/Classes/FrameStore.swift:229-253 | slot by slot: the previous frame is evicted only under `cacheUpcoming(size)` with `size < frameCount - 1`, then every placeholder of the window is decoded, and every other slot is unchanged |
| FrameStores.CacheUpdateKeepsImagesWithoutEviction | Sources/Gifu/Classes/FrameStore.swift:229-234 | without eviction a cache pass never drops an image |
| FrameStores.WindowAfterStepExcludesPrevious | Sources/Gifu/Classes/FrameStore.swift:239-248 | a window of 1 to `frameCount - 2` frames after the successor of the frame just left never contains that frame |
| FrameStores.EvictedFrameStaysPlaceholder | Sources/Gifu/Classes/FrameStore.swift:229-253 | under an evicting strategy of at least one frame, the frame just left is a placeholder after the pass |
| FrameStores.ZeroBufferReloadsEvictedFrame | Sources/Gifu/Classes/FrameStore.swift:229-253 | under `cacheUpcoming(0)` the frame just left is evicted and holds its decoded image again after the same pass |
| FrameStores.CacheUpdateStaysWithinWindow | Sources/Gifu/Classes/FrameStore.swift:229-253 | under an evicting strategy, if every decoded slot is the current frame or in its window, that still holds after a one-frame advance and its pass |
| FrameStores.Step | Sources/Gifu/Classes/FrameStore.swift:190-200 | one tick with its cache pass keeps the store invariant (indices in range, records per frame, never finished with an infinite loop count), keeps `isFinished` once set, and keeps every duration |
| FrameStores.Run | Sources/Gifu/Classes/FrameStore.swift:190-200 | any sequence of ticks keeps the store invariant, the latched `isFinished` and the durations |
| FrameStores.RunFinishedFlag | Sources/Gifu/Classes/FrameStore.swift:24-31 | after any number of ticks a store with `loopCount <= 0` is not finished, and a finished one still is |
| FrameStores.SetupFrames | Sources/Gifu/Classes/FrameStore.swift:323-340 | setup yields exactly `frameCount` records, the one at index `i` built for source index `i` |
| FrameStores.LoopDurationBounds | Sources/Gifu/Classes/FrameStore.swift:326-331 | the loop duration is between 0 and `maxTimeStep` per frame |
| FrameStores.SetupFramesCached | Sources/Gifu/Classes/FrameStore.swift:323-340 | after setup every record has the source's duration, indices `0 ... frameBufferSize` hold their decoded image and the rest are placeholders; under an evicting strategy the decoded slots lie within frame 0 and its window |
| FrameStores.AdvancesThroughLoop | Sources/Gifu/Classes/FrameStore.swift:284-298 | from frame 0, `k` advances reach frame `k`; the loop is reported finished only at the last frame, and the animation there only in the last loop |
| FrameStores.AdvancesWrapToNextLoop | Sources/Gifu/Classes/FrameStore.swift:292-297 | one more advance after the last frame returns to frame 0 and counts the next loop |
| FrameStores.TwoLoopsFinish | Tests/GifuTests.swift:94-137 | with `loopCount = 2`: after the first loop it is loop-finished but not finished, then back at frame 0 in loop 1, and after the second loop both flags hold |
| FrameStores.TicksAreAdvances | Sources/Gifu/Classes/FrameStore.swift:190-200 | when no frame lasts more than a second and ticks last at least one, every tick changes the frame and `k` ticks are `k` advances |
| FrameStores.TwoLoopsFinishOnTicks | Tests/GifuTests.swift:44-137 | on one-second ticks, frame 0 goes to 1 in one tick, and the two-loop scenario of the tests holds |
| FrameStores.FrameStore.constructor | Sources/Gifu/Classes/FrameStore.swift:111-126 | a new store has no records, index 0, loop 0, both flags false, and resizing on |
| FrameStores.FrameStore.WithFrameBufferSize | Sources/Gifu/Classes/FrameStore.swift:136-151 | the deprecated initializer picks the strategy from the buffer size |
| FrameStores.FrameStore.FrameBufferSize | Sources/Gifu/Classes/FrameStore.swift:45-52 | the count of `cacheUpcoming`, 10 under `cacheAll` |
| FrameStores.FrameStore.IsAnimatable | Sources/Gifu/Classes/FrameStore.swift:98-100 | the source is an animated GIF (no contract of its own) |
| FrameStores.FrameStore.Frame | Sources/Gifu/Classes/FrameStore.swift:170-174 | the record's image for an index in range, nothing outside |
| FrameStores.FrameStore.Duration | Sources/Gifu/Classes/FrameStore.swift:180-184 | the record's duration for an index in range, infinite outside |
| FrameStores.FrameStore.CurrentFrameImage | Sources/Gifu/Classes/FrameStore.swift:88-90 | the current record's image, nothing when the index has no record |
| FrameStores.FrameStore.CurrentFrameDuration | Sources/Gifu/Classes/FrameStore.swift:93-95 | the current record's duration, infinite when the index has no record |
| FrameStores.FrameStore.LoadFrame | Sources/Gifu/Classes/FrameStore.swift:208-226 | the frame's decoded image, nothing for a frame that cannot be decoded or an index out of range; resizing is left out |
| FrameStores.FrameStore.PrepareFrames | Sources/Gifu/Classes/FrameStore.swift:155-164 | the frame count is the source's, the records are the setup ones, the loop duration is the clamped sum, and playback is unchanged |
| FrameStores.FrameStore.SetupAnimatedFrames | Sources/Gifu/Classes/FrameStore.swift:323-340 | the loop leaves exactly the setup records and the clamped duration sum |
| FrameStores.FrameStore.ShouldChangeFrame | Sources/Gifu/Classes/FrameStore.swift:190-200 | the new state and the handler's argument are exactly one `Step`, and the store invariant is kept |
| FrameStores.FrameStore.ResetTimeSinceLastFrameChange | Sources/Gifu/Classes/FrameStore.swift:279-281 | the timer loses the current frame's duration |
| FrameStores.FrameStore.IncrementCurrentFrameIndex | Sources/Gifu/Classes/FrameStore.swift:284-298 | playback becomes one `Advance`, the previous index is the old one, and the records are one cache pass |
| FrameStores.FrameStore.SetCurrentFrameIndex | Sources/Gifu/Classes/FrameStore.swift:61-74 | assigning the index records the old one as previous and runs the cache pass |
| FrameStores.FrameStore.UpdateFrameCache | Sources/Gifu/Classes/FrameStore.swift:229-253 | the records become `CacheUpdate` of the old ones |
| FrameStores.FrameStore.DeleteCachedFrame | Sources/Gifu/Classes/FrameStore.swift:255-259 | the records become `Evicted` at that index |
| FrameStores.FrameStore.LoadFrameAtIndexIfNeeded | Sources/Gifu/Classes/FrameStore.swift:261-276 | the records become `Loaded` at that index |
| Animators.UpdateFrame | Sources/Gifu/Classes/Animator.swift:63-80 | one tick of a driver with a store (no contract of its own; `UpdateFrameEvents` states what it does case by case) |
| Animators.UpdateFrameEvents | Sources/Gifu/Classes/Animator.swift:63-80 | a tick stops the animation iff the store is finished, and then leaves it alone and fires only `animationBlock`; otherwise the delegate hears iff the frame changed, `loopBlock` fires iff that change ends a loop, and the delegate hears first |
| Animators.InfiniteAnimationNeverCompletes | Sources/Gifu/Classes/Animator.swift:25-26 | with `loopCount <= 0` a tick never stops the animation and never fires `animationBlock` |
| Animators.Animator.constructor | Sources/Gifu/Classes/Animator.swift:11-14 | a new driver buffers 50 frames, does not resize, has no store, is paused and has no callbacks |
| Animators.Animator.LoopDuration | Sources/Gifu/Classes/Animator.swift:6-8 | 0 without a store, else the store's clamped duration sum, between 0 and one second per frame |
| Animators.Animator.FrameCount | Sources/Gifu/Classes/Animator.swift:49-51 | 0 without a store, else 0 or the source's frame count |
| Animators.Animator.ActiveFrame | Sources/Gifu/Classes/Animator.swift:216-218 | nothing without a store; with one, the current record's image, and nothing when the index has no record |
| Animators.Animator.IsAnimating | Sources/Gifu/Classes/Animator.swift:44-46 | the display link is not paused (no contract of its own) |
| Animators.Animator.UpdateFrameIfNeeded | Sources/Gifu/Classes/Animator.swift:63-80 | no store: nothing happens; else the store, the events and the paused flag are exactly `UpdateFrame` |
| Animators.Animator.PrepareForAnimation | Sources/Gifu/Classes/Animator.swift:114-132 | a fresh prepared store with `cacheUpcoming(frameBufferSize)` for a positive size, `cacheAll` otherwise, and the driver's resize flag |
| Animators.Animator.StartAnimating | Sources/Gifu/Classes/Animator.swift:146-150 | unpauses iff a store exists and is animatable, else the paused flag is unchanged |
| Animators.Animator.StopAnimating | Sources/Gifu/Classes/Animator.swift:153-155 | always pauses |
| Animators.Animator.Animate | Sources/Gifu/Classes/Animator.swift:191-205 | stores both callbacks, prepares a fresh store, and is running iff the source is an animated GIF |
| Animators.Animator.PrepareForReuse | Sources/Gifu/Classes/Animator.swift:208-211 | paused and without a store |
| PreviousAnimators.Animator.constructor | Source/Classes/Animator.swift:5-8 | a new driver preloads 50 frames, does not resize, has no store and is paused |
| PreviousAnimators.Animator.FrameCount | Source/Classes/Animator.swift:33-35 | 0 without a store, else 0 or the source's frame count |
| PreviousAnimators.Animator.IsAnimating | Source/Classes/Animator.swift:28-30 | the display link is not paused (no contract of its own) |
| PreviousAnimators.Animator.ActiveFrame | Source/Classes/Animator.swift:132-134 | nothing without a store; with one, the current record's image, and nothing when the index has no record |
| PreviousAnimators.Animator.UpdateFrameIfNeeded | Source/Classes/Animator.swift:47-52 | no store: no notification; else the store takes one `Step` and the delegate is notified iff it reports a change |
| PreviousAnimators.Animator.PrepareForAnimation | Source/Classes/Animator.swift:72-77 | a fresh prepared store whose strategy comes from `frameBufferCount`: frames `0 ... frameBufferCount` decoded up front when it is positive, every frame otherwise; the driver's resize flag is passed on |
| PreviousAnimators.Animator.StartAnimating | Source/Classes/Animator.swift:92-96 | unpauses iff a store exists and is animatable |
| PreviousAnimators.Animator.StopAnimating | Source/Classes/Animator.swift:99-101 | always pauses |
| PreviousAnimators.Animator.Animate | Source/Classes/Animator.swift:118-121 | prepares, then runs iff the source is animatable |
| PreviousAnimators.Animator.PrepareForReuse | Source/Classes/Animator.swift:124-127 | paused and without a store |
| ProgressiveAnimators.PrepareFrame | Source/Animator.swift:68-88 | the frame carries the decoded image, and is the null frame whenever decoding fails |
| ProgressiveAnimators.PreparedFrames | Source/Animator.swift:60 | the reduce yields one prepared frame per index, in order |
| ProgressiveAnimators.PreloadIndexes | Source/Animator.swift:143-148 | `count` consecutive indices from the move index, each taken modulo the frame count |
| ProgressiveAnimators.Prepared | Source/Animator.swift:56-62 | exactly `min(frameCount, maxFrameCount)` slots holding frames `0..<that`, never more than the source has, and the preload index is that count |
| ProgressiveAnimators.UpdateCurrent | Source/Animator.swift:117-133 | the timer gains `min(1.0, tick)`; the frame changes iff the current slot exists and its duration is covered; without a change only the timer moves; with one the timer loses that duration, the index moves one slot round the ring, and a partial ring refills the slot just left with the next frame to load, whose index moves on modulo the frame count; a full ring is left as is |
| ProgressiveAnimators.Rebuild | Source/Animator.swift:136-156 | nothing changes without a pending move or when the frame after the ring already is the one the move calls for; otherwise slot `k` holds frame `(move + k) % frameCount`, the next frame to load is `(move + n) % frameCount` and playback restarts at slot 0; the size, the move and the timer are kept |
| ProgressiveAnimators.AfterMoving | Source/Animator.swift:91-104 | the timer restarts, the move is cleared, and the ring keeps its size |
| ProgressiveAnimators.PreparedIsValid | Source/Animator.swift:56-62 | preparation establishes the ring invariant with source frame 0 on screen |
| ProgressiveAnimators.UpdateKeepsOrder | Source/Animator.swift:117-133 | a tick keeps the ring invariant and changes the frame iff the current slot's duration is covered by the timer plus `min(1.0, tick)`; without a change only the timer moves; with one the timer keeps the remainder and the frame on screen becomes the next source frame modulo the frame count |
| ProgressiveAnimators.TickKeepsRing | Source/Animator.swift:117-130 | a tick keeps the ring invariant, and a frame change moves the source frame on screen one on, modulo the frame count |
| ProgressiveAnimators.RebuildSkipsOnlyWhenInPlace | Source/Animator.swift:139-140 | the early return is taken iff the frame on screen already is the move index |
| ProgressiveAnimators.MovingShowsTarget | Source/Animator.swift:91-104 | moving to a frame index keeps the invariant and puts that frame on screen, by a jump in place when full and a rebuild otherwise |
| ProgressiveAnimators.AfterMovingWithoutMoveStallsFullRing | Source/Animator.swift:93-95 | with a full ring and no pending move the index becomes -1 and the next tick changes nothing |
| ProgressiveAnimators.CurrentFrameIsShown | Source/Animator.swift:32-35 | the current slot holds the prepared source frame that is on screen |
| ProgressiveAnimators.Animator.constructor | Source/Animator.swift:46-52 | no frames, index 0, preload 0, no pending move, and the ring invariant holds |
| ProgressiveAnimators.Animator.FrameAtIndex | Source/Animator.swift:110-112 | the image of the slot at that index |
| ProgressiveAnimators.Animator.CurrentFrame | Source/Animator.swift:32-35 | the image of the current slot |
| ProgressiveAnimators.Animator.IsAnimatable | Source/Animator.swift:37-40 | the source is an animated GIF, by the earlier helpers' test |
| ProgressiveAnimators.Animator.PrepareFrames | Source/Animator.swift:56-62 | the frame count is the source's and the state becomes `Prepared` |
| ProgressiveAnimators.Animator.UpdateCurrentFrame | Source/Animator.swift:117-133 | the state and the result are exactly `UpdateCurrent` |
| ProgressiveAnimators.Animator.RebuildFrameCache | Source/Animator.swift:136-156 | the loop builds the preload indices, and the state becomes `Rebuild` |
| ProgressiveAnimators.Animator.PrepareFramesAfterMoving | Source/Animator.swift:91-104 | the state becomes `AfterMoving` |
| ImageSourceHelpers.CapDuration | Sources/Helpers/ImageSourceHelpers.swift:25-30 | nothing iff negative; otherwise at least `0.02 - ulpOfOne`, unchanged from there up, 0.1 below |
| ImageSourceHelpers.Duration | Sources/Helpers/ImageSourceHelpers.swift:46-49 | the first non-negative of unclamped and clamped delay, else 0; never negative |
| ImageSourceHelpers.FrameDuration | Sources/Helpers/ImageSourceHelpers.swift:35-41 | nothing iff a delay key is missing, else the selected delay |
| ImageSourceHelpers.CGImageFrameDuration | Sources/Helpers/ImageSourceHelpers.swift:11-20 | never negative; 0 when not an animated GIF; for an animated GIF, the default 0 when the frame has no GIF dictionary or lacks a delay key, and at least the threshold when both delays are present |
| ImageSourceHelpers.IsAnimatedGIF | Sources/Helpers/ImageSourceHelpers.swift:56-60 | the type conforms to GIF and there is more than one image (no contract of its own; `SingleImageIsNotAnimated` states the consequence) |
| ImageSourceHelpers.FrameWithBothDelaysHasCappedDuration | Sources/Helpers/ImageSourceHelpers.swift:11-20 | with both keys present the extraction cannot fail: it is the capped selected delay, at least the threshold |
| ImageSourceHelpers.SingleImageIsNotAnimated | Sources/Helpers/ImageSourceHelpers.swift:56-60 | a source with at most one image is not animated, and every frame's duration is 0 |
| ImageSourceHelpers.DelayExamples | Sources/Helpers/ImageSourceHelpers.swift:25-49 | unclamped -1 with clamped 0.05 selects 0.05; both -1 select 0, which the cap raises to 0.1; 0.01 is raised to 0.1; negatives have no cap |
| ImageSourceHelpers.BothDelaysNegativeLastATenth | Sources/Helpers/ImageSourceHelpers.swift:11-30 | a frame whose two delays are negative lasts 0.1 s |
| LegacyImageSourceHelpers.CapDuration | Source/ImageSourceHelpers.swift:25-30 | nothing iff negative; otherwise at least `0.02 - FLT_EPSILON`, unchanged from there up, 0.1 below |
| LegacyImageSourceHelpers.Duration | Source/ImageSourceHelpers.swift:46-56 | the first of unclamped and clamped delay that `isPositive` (`>= 0`), else 0; never negative |
| LegacyImageSourceHelpers.DurationFromGIFProperties | Source/ImageSourceHelpers.swift:35-41 | nothing iff a delay key is missing, else the selected delay |
| LegacyImageSourceHelpers.CGImageSourceGIFFrameDuration | Source/ImageSourceHelpers.swift:11-20 | never negative; 0 when not an animated GIF; for an animated GIF, the default 0 when the frame has no GIF dictionary or lacks a delay key, and at least the threshold when both delays are present (the selected delay is never negative, so the cap cannot fail) |
| LegacyImageSourceHelpers.IsPositive | Source/ImageSourceHelpers.swift:54-56 | `isPositive` accepts zero as well (no contract of its own; `Duration` states its use) |
| LegacyImageSourceHelpers.IsAnimatedGIF | Source/ImageSourceHelpers.swift:63-67 | the type conforms to GIF and there is more than one image (no contract of its own; `AgreesWithCurrentSelection` ties it to the current test) |
| LegacyImageSourceHelpers.AgreesWithCurrentSelection | Source/ImageSourceHelpers.swift:46-67 | selection and the animated-GIF test (GIF type and more than one image) are those of the current helpers |
| LegacyImageSourceHelpers.CapAgreesOutsideThresholdGap | Source/ImageSourceHelpers.swift:25-30 | the two caps agree outside the band between `0.02 - FLT_EPSILON` and `0.02 - ulpOfOne` |
| LegacyImageSourceHelpers.CapDiffersInThresholdGap | Source/ImageSourceHelpers.swift:27-28 | inside that band this cap keeps the duration where the current one gives 0.1 |
| LegacyImageSourceHelpers.FrameDurationAgreesWithCurrent | Source/ImageSourceHelpers.swift:11-20 | the whole extraction agrees with the current one unless the selected delay falls in that band |
| EarlyImageSourceHelpers.CGImageSourceGIFFrameDuration | source/ImageSourceHelpers.swift:11-33 | 0 for a source that is not an animated GIF and for a frame without a GIF dictionary; a positive result is at least the threshold |
| EarlyImageSourceHelpers.PositiveUnclampedDelayIsUsed | source/ImageSourceHelpers.swift:19-31 | a positive unclamped delay is used, raised to 0.1 when below the threshold |
| EarlyImageSourceHelpers.ContainsAnimatedGIF | source/ImageSourceHelpers.swift:5-9 | the type conforms to GIF and there is more than one image (no contract of its own; the extraction's contract states its use) |
| EarlyImageSourceHelpers.FallsBackToPositiveClamped | source/ImageSourceHelpers.swift:19-31 | a non-positive unclamped delay falls back to a positive clamped one, which is raised to 0.1 when below the threshold and used as is otherwise |
| EarlyImageSourceHelpers.NonPositiveDelayPassesThrough | source/ImageSourceHelpers.swift:22-33 | a non-positive unclamped delay falls back to the clamped one, which passes through unchanged when not positive |
| EarlyImageSourceHelpers.AgreesWithLegacyForPositiveUnclamped | source/ImageSourceHelpers.swift:11-33 | with a positive unclamped delay and both keys, it agrees with the later extraction |
| EarlyImageSourceHelpers.DiffersFromLegacyForZeroUnclamped | source/ImageSourceHelpers.swift:20-24 | an unclamped delay of 0 makes it use the clamped delay, where the later version gives 0.1 |
| AnimatedFrames.AnimatedFrame.PlaceholderFrame | Source/AnimatedFrame.swift:10-12 | no image and the same duration |
| AnimatedFrames.AnimatedFrame.FrameWithImage | Source/AnimatedFrame.swift:19-25 | same duration, the given image, and a placeholder iff that image is nothing |
| AnimatedFrames.NullFrame | Source/Animator.swift:69-71 | the null frame has no image and a duration of 0 |
| AnimatedFrames.PlaceholderIdempotent | Source/AnimatedFrame.swift:10-17 | placeholding twice is placeholding once; a placeholder is its own placeholder |
| AnimatedFrames.PromotionAndEvictionInverse | Source/AnimatedFrame.swift:10-25 | promotion and eviction touch only the image and undo each other |
| Functional.Bind | Source/Functional.swift:5-10 | nothing for nothing, `f(x)` for `Some(x)` |
| Functional.Map | Source/Functional.swift:12-17 | a value iff the input has one, and then `f` of it |
| Functional.Apply | Source/Functional.swift:19-24 | a value iff both function and argument are present, and then the application |
| Functional.CurryApplies | Source/Functional.swift:26-28 | `curry(f)(a)(b) == f(a, b)` |
| Functional.MapLaws | Source/Functional.swift:12-17 | `<^>` keeps identity and composition |
| Functional.BindLaws | Source/Functional.swift:5-10 | `>>-` has `Some` as unit on both sides and is associative |
| Functional.ApplyIsMap | Source/Functional.swift:19-24 | applying a present function is mapping it, and mapping is binding then wrapping |
| FunctionalHelpers.CurryApplies | Source/FunctionalHelpers.swift:2-4 | `curry(f)(a)(b) == f(a, b)`, the same as the other file's `curry` |
| FunctionalHelpers.OptionFmap | Source/FunctionalHelpers.swift:7-9 | Optional `<^>` through `map` equals the switch-based `<^>` |
| FunctionalHelpers.OptionApply | Source/FunctionalHelpers.swift:10-12 | a value iff both sides are present, and then the application |
| FunctionalHelpers.OptionBind | Source/FunctionalHelpers.swift:14-16 | Optional `>>-` through `flatMap` equals the switch-based `>>-` |
| FunctionalHelpers.OptionPure | Source/FunctionalHelpers.swift:18-20 | `pure` wraps its argument |
| FunctionalHelpers.OptionApplyAgrees | Source/FunctionalHelpers.swift:22-26 | `apply` written as `f.flatMap { self.map($0) }` equals the switch-based `<*>` |
| FunctionalHelpers.ArrayFmap | Source/FunctionalHelpers.swift:29-31 | Array `<^>` keeps the length and maps element by element |
| FunctionalHelpers.ArrayApplyLength | Source/FunctionalHelpers.swift:33-35 | `fs <*> a` has `|fs| * |a|` elements |
| FunctionalHelpers.ArrayApplyAt | Source/FunctionalHelpers.swift:49-53 | element `i * |a| + j` of `fs <*> a` is `fs[i](a[j])`: function-major order |
| FunctionalHelpers.ArrayFlatMapAppend | Source/FunctionalHelpers.swift:37-39 | flat-mapping a concatenation concatenates the flat maps |
| FunctionalHelpers.ArrayBindLaws | Source/FunctionalHelpers.swift:37-43 | `>>-` and `-<<` are the same flat map; binding `pure x` is `f(x)`; binding into `pure` is the identity |
| FunctionalHelpers.ArrayPure | Source/FunctionalHelpers.swift:45-47 | `pure` on arrays is the singleton |
| FunctionalHelpers.ArrayBindPure | Source/FunctionalHelpers.swift:45-47 | flat-mapping `pure` over an array gives the array back |

## Left out

- Image decoding is a lookup in `Platform.ImageSource`. Resizing to a target size and content mode (`loadFrame(at:)`'s scaling, the progressive animator's prescaling) is not modelled: the decoded image is used as is, and `shouldResizeFrames` is only carried along. This also leaves out the case where resizing under a content mode other than fit or fill with a zero target size yields no image (`loadFrame(at:)`, line 219 of `Sources/Gifu/Classes/FrameStore.swift`). The store's `size` and `contentMode`, and the progressive animator's `needsPrescaling`, `size` and `contentMode`, are not fields of the model.
- Building an image source from `Data` (with the incremental-source fallback) is not modelled: every initializer takes the source directly.
- The preload dispatch queue and the lock are not modelled. `prepareFrames` runs setup to completion before returning, and the cache pass that the index observer schedules runs synchronously. Interleavings between ticks and a pending pass are not captured.
- The completion and preparation handlers passed to `prepareFrames`, `prepareForAnimation` and `animate` are not modelled (their only effect is the call itself, after setup).
- The display link is reduced to its `isPaused` flag and the tick's duration argument. This leaves out creating it, attaching it to the run loop, the proxy object and invalidation on `deinit`.
- The delegate is not modelled; its `animatorHasNewFrame` call is the `NewFrame` event, and `loopBlock` and `animationBlock` are the other events.
- `prepareForAnimation(withGIFNamed:...)` and `animate(withGIFNamed:...)` are left out because they read a file from the app bundle. The variants that take the GIF data are modelled.
- `totalFrameCacheSize` is left out: it sums a platform memory size per image.
- The platform's type check (`UTTypeConformsTo` on the source's type) is a boolean in the source value; a missing type counts as not conforming.
- The frame store with a preload-count initializer used by the earlier driver is not part of this model. That driver is modelled over the current store built with the buffer-size initializer and an infinite loop count.
- `makeAnimatedFrame(with:)` belongs to the current library's `AnimatedFrame` type, and `AnimatedFrame.null()` to the version of that type the progressive animator was written against. Neither declaration is in the files this model follows (only `Source/AnimatedFrame.swift`, which has neither, is). They are modelled from their call sites: `null()` as a frame with no image and duration 0 (`AnimatedFrames.NullFrame`), `makeAnimatedFrame(with:)` as `FrameWithImage`.
- Times are exact reals, not doubles: rounding of durations and of the timer is not modelled. `ulpOfOne` and `FLT_EPSILON` are their exact values, 2^-52 and 2^-23.
- Integers are unbounded: overflow of `currentLoop` or of an index sum is not modelled.
- `cachingStrategy` is a `var` in the store but is never reassigned, so the model makes it a constant.
- EarlyImageSourceHelpers.CGImageSourceGIFFrameDuration: requires the delays its forced casts read (`ReadableDelays`), because a missing or non-numeric delay traps in the source.
- FrameStores.FrameStore.DeleteCachedFrame: requires the index to be in range, because the source's array subscript traps otherwise. The same holds for `LoadFrameAtIndexIfNeeded` and for the progressive animator's `FrameAtIndex`.
- ProgressiveAnimators.Animator.PrepareFrames: requires a non-negative `maxFrameCount`, because the range `0..<framesToProcess` traps otherwise.
- ProgressiveAnimators.Animator.RebuildFrameCache: requires a non-zero frame count when a move is pending, because the source takes indices modulo it; `PrepareFramesAfterMoving` requires the same whenever it rebuilds.
- FrameStores.FrameStore.UpdateFrameCache: requires a non-empty store with in-range indices, because `increment` takes the index modulo the frame count and the eviction subscripts the records; `IncrementCurrentFrameIndex`, `SetCurrentFrameIndex` and `ResetTimeSinceLastFrameChange` require the same.
