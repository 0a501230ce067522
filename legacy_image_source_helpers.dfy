/**
  Frame-duration extraction of the earlier library layout (Source/). It follows the
  same rules as `ImageSourceHelpers` but its threshold is built from single-precision
  epsilon, and "not negative" is spelled `isPositive`.
 */
module LegacyImageSourceHelpers {
  import opened Wrappers
  import opened Platform
  import Current = ImageSourceHelpers

  const DefaultDuration: real := 0.0

  /** `FLT_EPSILON`, the single-precision machine epsilon: 2^-23. */
  const FltEpsilon: real := 1.0 / 8388608.0

  const CapThreshold: real := 0.02 - FltEpsilon

  /** `isPositive`: despite its name it also accepts zero. */
  predicate IsPositive(value: real) {
    value >= 0.0
  }

  /** `capDuration`: nothing for a negative duration; values below the threshold become 0.1. */
  function CapDuration(duration: real): (r: Option<real>)
    ensures r.None? <==> duration < 0.0
    ensures r.Some? ==> r.value >= CapThreshold
    ensures r.Some? && duration >= CapThreshold ==> r.value == duration
    ensures r.Some? && duration < CapThreshold ==> r.value == 0.1
  {
    if duration < 0.0 then None
    else
      var threshold := CapThreshold;
      Some(if duration < threshold then 0.1 else duration)
  }

  /** `duration(_:delayTime:)`: the first of `[unclamped, delayTime]` satisfying `isPositive`, else the default. */
  function Duration(unclampedDelayTime: real, delayTime: real): (r: real)
    ensures IsPositive(unclampedDelayTime) ==> r == unclampedDelayTime
    ensures !IsPositive(unclampedDelayTime) && IsPositive(delayTime) ==> r == delayTime
    ensures !IsPositive(unclampedDelayTime) && !IsPositive(delayTime) ==> r == DefaultDuration
    ensures r >= 0.0
  {
    var delays := [unclampedDelayTime, delayTime];
    assert delays[1..] == [delayTime] && [delayTime][1..] == [];
    assert Filter([delayTime], IsPositive) == if IsPositive(delayTime) then [delayTime] else [];
    var kept := Filter(delays, IsPositive);
    if |kept| > 0 then kept[0] else DefaultDuration
  }

  /** `durationFromGIFProperties`: nothing unless both delay keys are present. */
  function DurationFromGIFProperties(properties: GIFProperties): (r: Option<real>)
    ensures r.None? <==> UnclampedDelayTimeKey !in properties || DelayTimeKey !in properties
    ensures r.Some? ==> r.value == Duration(properties[UnclampedDelayTimeKey], properties[DelayTimeKey])
  {
    if UnclampedDelayTimeKey in properties && DelayTimeKey in properties then
      Some(Duration(properties[UnclampedDelayTimeKey], properties[DelayTimeKey]))
    else None
  }

  /** `isAnimatedGIF`: the type conforms to GIF and there is more than one image. */
  predicate IsAnimatedGIF(source: ImageSource) {
    source.conformsToGIF && Count(source) > 1
  }

  /**
    `CGImageSourceGIFFrameDuration`: 0 when not animated, the default on any missing
    step, else the capped delay. The selected delay is never negative, so the cap
    never fails once both delays are present.
   */
  function CGImageSourceGIFFrameDuration(source: ImageSource, index: int): (r: real)
    ensures r >= 0.0
    ensures !IsAnimatedGIF(source) ==> r == 0.0
    ensures IsAnimatedGIF(source) && !HasBothDelays(source, index) ==> r == DefaultDuration
    ensures IsAnimatedGIF(source) && HasBothDelays(source, index) ==> r >= CapThreshold
  {
    if !IsAnimatedGIF(source) then 0.0
    else
      match GIFPropertiesAtIndex(source, index)
      case None => DefaultDuration
      case Some(properties) =>
        match DurationFromGIFProperties(properties)
        case None => DefaultDuration
        case Some(duration) =>
          match CapDuration(duration)
          case None => DefaultDuration
          case Some(capped) => capped
  }

  /** The selection of the delay and the animated test are the same as in the current helpers. */
  lemma AgreesWithCurrentSelection(unclamped: real, delay: real, source: ImageSource)
    ensures Duration(unclamped, delay) == Current.Duration(unclamped, delay)
    ensures IsAnimatedGIF(source) == Current.IsAnimatedGIF(source)
  {
  }

  /** The two caps agree on every duration outside the narrow band between the two thresholds. */
  lemma CapAgreesOutsideThresholdGap(duration: real)
    requires duration < CapThreshold || duration >= Current.CapThreshold
    ensures CapDuration(duration) == Current.CapDuration(duration)
  {
  }

  /** Inside that band they differ: this version keeps the duration, the current one raises it to 0.1. */
  lemma CapDiffersInThresholdGap()
    ensures var d := 0.02 - 1.0 / 16777216.0;
            CapDuration(d) == Some(d) && Current.CapDuration(d) == Some(0.1)
  {
  }

  /** The delay that both versions select for this frame, when its GIF dictionary has both keys, lies outside that band. */
  predicate SelectedDelayOutsideGap(source: ImageSource, index: int) {
    match GIFPropertiesAtIndex(source, index)
    case None => true
    case Some(properties) =>
      UnclampedDelayTimeKey in properties && DelayTimeKey in properties ==>
        var d := Duration(properties[UnclampedDelayTimeKey], properties[DelayTimeKey]);
        d < CapThreshold || d >= Current.CapThreshold
  }

  /** Hence the whole extraction agrees frame by frame unless the selected delay falls into the band. */
  lemma FrameDurationAgreesWithCurrent(source: ImageSource, index: int)
    requires SelectedDelayOutsideGap(source, index)
    ensures CGImageSourceGIFFrameDuration(source, index) == Current.CGImageFrameDuration(source, index)
  {
    match GIFPropertiesAtIndex(source, index)
    case None =>
    case Some(properties) =>
      if UnclampedDelayTimeKey in properties && DelayTimeKey in properties {
        var d := Duration(properties[UnclampedDelayTimeKey], properties[DelayTimeKey]);
        CapAgreesOutsideThresholdGap(d);
      }
  }
}
