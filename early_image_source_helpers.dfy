/**
  Frame-duration extraction of the earliest library layout (source/): straight-line
  code that prefers the unclamped delay unless it is not positive, and raises only
  strictly positive delays below the threshold.
 */
module EarlyImageSourceHelpers {
  import opened Wrappers
  import opened Platform
  import Legacy = LegacyImageSourceHelpers

  const FltEpsilon: real := 1.0 / 8388608.0

  const CapThreshold: real := 0.02 - FltEpsilon

  /** `CGImageSourceContainsAnimatedGIF`: the type conforms to GIF and there is more than one image. */
  predicate ContainsAnimatedGIF(source: ImageSource) {
    source.conformsToGIF && Count(source) > 1
  }

  /**
    What the forced casts of `CGImageSourceGIFFrameDuration` need, for an animated
    source: the index names a frame, and a GIF dictionary that is present holds the
    unclamped delay, and the clamped delay too when the unclamped one is not positive.
    A source or frame violating this makes the code trap.
   */
  predicate ReadableDelays(source: ImageSource, index: int) {
    ContainsAnimatedGIF(source) ==>
      0 <= index < Count(source) &&
      match GIFPropertiesAtIndex(source, index)
      case None => true
      case Some(properties) =>
        UnclampedDelayTimeKey in properties &&
        (properties[UnclampedDelayTimeKey] <= 0.0 ==> DelayTimeKey in properties)
  }

  /** `CGImageSourceGIFFrameDuration` as two reassignments of a local `duration`. */
  function CGImageSourceGIFFrameDuration(source: ImageSource, index: int): (r: real)
    requires ReadableDelays(source, index)
    ensures !ContainsAnimatedGIF(source) ==> r == 0.0
    ensures ContainsAnimatedGIF(source) && GIFPropertiesAtIndex(source, index).None? ==> r == 0.0
    ensures 0.0 < r ==> r >= CapThreshold
  {
    if !ContainsAnimatedGIF(source) then 0.0
    else
      var read :=
        match GIFPropertiesAtIndex(source, index)
        case None => 0.0
        case Some(properties) =>
          var unclamped := properties[UnclampedDelayTimeKey];
          if unclamped <= 0.0 then properties[DelayTimeKey] else unclamped;
      if read > 0.0 && read < CapThreshold then 0.1 else read
  }

  /** A positive unclamped delay is used directly; a short one is raised to 0.1. */
  lemma PositiveUnclampedDelayIsUsed(source: ImageSource, index: int, properties: GIFProperties)
    requires ContainsAnimatedGIF(source) && 0 <= index < Count(source)
    requires GIFPropertiesAtIndex(source, index) == Some(properties)
    requires UnclampedDelayTimeKey in properties && properties[UnclampedDelayTimeKey] > 0.0
    ensures var u := properties[UnclampedDelayTimeKey];
            CGImageSourceGIFFrameDuration(source, index) == if u < CapThreshold then 0.1 else u
  {
  }

  /** Zero and negative delays pass through unchanged: only delays strictly between 0 and the threshold are raised. */
  lemma NonPositiveDelayPassesThrough(source: ImageSource, index: int, properties: GIFProperties)
    requires ContainsAnimatedGIF(source) && 0 <= index < Count(source)
    requires GIFPropertiesAtIndex(source, index) == Some(properties)
    requires UnclampedDelayTimeKey in properties && properties[UnclampedDelayTimeKey] <= 0.0
    requires DelayTimeKey in properties && properties[DelayTimeKey] <= 0.0
    ensures CGImageSourceGIFFrameDuration(source, index) == properties[DelayTimeKey]
  {
  }

  /**
    A non-positive unclamped delay falls back to the clamped one; a positive clamped
    delay is then used, raised to 0.1 when below the threshold.
   */
  lemma FallsBackToPositiveClamped(source: ImageSource, index: int, properties: GIFProperties)
    requires ContainsAnimatedGIF(source) && 0 <= index < Count(source)
    requires GIFPropertiesAtIndex(source, index) == Some(properties)
    requires UnclampedDelayTimeKey in properties && properties[UnclampedDelayTimeKey] <= 0.0
    requires DelayTimeKey in properties && properties[DelayTimeKey] > 0.0
    ensures var d := properties[DelayTimeKey];
            CGImageSourceGIFFrameDuration(source, index) == if d < CapThreshold then 0.1 else d
  {
  }

  /** With a positive unclamped delay and both keys present, the earliest and the later extraction agree. */
  lemma AgreesWithLegacyForPositiveUnclamped(source: ImageSource, index: int, properties: GIFProperties)
    requires ContainsAnimatedGIF(source) && 0 <= index < Count(source)
    requires GIFPropertiesAtIndex(source, index) == Some(properties)
    requires UnclampedDelayTimeKey in properties && DelayTimeKey in properties
    requires properties[UnclampedDelayTimeKey] > 0.0
    ensures CGImageSourceGIFFrameDuration(source, index) == Legacy.CGImageSourceGIFFrameDuration(source, index)
  {
  }

  /** A zero unclamped delay is where they part: this version falls back to the clamped delay, the later one keeps 0 and raises it to 0.1. */
  lemma DiffersFromLegacyForZeroUnclamped()
    ensures var properties := map[UnclampedDelayTimeKey := 0.0, DelayTimeKey := 0.05];
            var frame := SourceFrame(None, Some(properties));
            var source := ImageSource(true, [frame, frame]);
            CGImageSourceGIFFrameDuration(source, 0) == 0.05 &&
            Legacy.CGImageSourceGIFFrameDuration(source, 0) == 0.1
  {
    var properties := map[UnclampedDelayTimeKey := 0.0, DelayTimeKey := 0.05];
    assert UnclampedDelayTimeKey != DelayTimeKey;
    assert Legacy.Duration(0.0, 0.05) == 0.0;
  }
}
