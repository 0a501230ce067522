/**
  Frame-duration extraction of the current library (Sources/Helpers): the delay of a
  frame is read from its GIF dictionary, the first non-negative of the unclamped and
  the clamped delay is taken, and very short delays are raised to a tenth of a second.
 */
module ImageSourceHelpers {
  import opened Wrappers
  import opened Platform

  /** `defaultDuration`: the duration used whenever a step of the extraction fails. */
  const DefaultDuration: real := 0.0

  /** `Double.ulpOfOne`, the gap between 1.0 and the next double: 2^-52. */
  const UlpOfOne: real := 1.0 / 4503599627370496.0

  /** Durations strictly below this are treated as "too fast" and replaced. */
  const CapThreshold: real := 0.02 - UlpOfOne

  /** The duration that replaces a too-short one. */
  const ShortDelayReplacement: real := 0.1

  /** `capDuration(with:)`: nothing for a negative duration; otherwise never below the threshold. */
  function CapDuration(duration: real): (r: Option<real>)
    ensures r.None? <==> duration < 0.0
    ensures r.Some? ==> r.value >= CapThreshold
    ensures r.Some? && duration >= CapThreshold ==> r.value == duration
    ensures r.Some? && duration < CapThreshold ==> r.value == ShortDelayReplacement
  {
    if duration < 0.0 then None
    else
      var threshold := CapThreshold;
      Some(if duration < threshold then ShortDelayReplacement else duration)
  }

  /**
    `duration(withUnclampedTime:andClampedTime:)`: the first of `[unclamped, clamped]`
    that is not negative, else the default.
   */
  function Duration(unclampedDelayTime: real, delayTime: real): (r: real)
    ensures unclampedDelayTime >= 0.0 ==> r == unclampedDelayTime
    ensures unclampedDelayTime < 0.0 && delayTime >= 0.0 ==> r == delayTime
    ensures unclampedDelayTime < 0.0 && delayTime < 0.0 ==> r == DefaultDuration
    ensures r >= 0.0
  {
    var nonNegative := (d: real) => d >= 0.0;
    var delays := [unclampedDelayTime, delayTime];
    assert delays[1..] == [delayTime] && [delayTime][1..] == [];
    assert Filter([delayTime], nonNegative) == if delayTime >= 0.0 then [delayTime] else [];
    var kept := Filter(delays, nonNegative);
    if |kept| > 0 then kept[0] else DefaultDuration
  }

  /** `frameDuration(with:)`: nothing unless both delay keys are present. */
  function FrameDuration(properties: GIFProperties): (r: Option<real>)
    ensures r.None? <==> UnclampedDelayTimeKey !in properties || DelayTimeKey !in properties
    ensures r.Some? ==> r.value == Duration(properties[UnclampedDelayTimeKey], properties[DelayTimeKey])
  {
    if UnclampedDelayTimeKey in properties && DelayTimeKey in properties then
      Some(Duration(properties[UnclampedDelayTimeKey], properties[DelayTimeKey]))
    else None
  }

  /** `isAnimatedGIF`: the type conforms to GIF and there is more than one image. */
  predicate IsAnimatedGIF(source: ImageSource) {
    source.conformsToGIF && Count(source) > 1
  }

  /**
    `CGImageFrameDuration(with:atIndex:)`: 0 for a source that is not an animated GIF,
    the default when the properties, the delay or the cap is missing, otherwise the
    capped delay.
   */
  function CGImageFrameDuration(source: ImageSource, index: int): (r: real)
    ensures r >= 0.0
    ensures !IsAnimatedGIF(source) ==> r == 0.0
    ensures IsAnimatedGIF(source) && !HasBothDelays(source, index) ==> r == DefaultDuration
    ensures IsAnimatedGIF(source) && HasBothDelays(source, index) ==> r >= CapThreshold
  {
    if !IsAnimatedGIF(source) then 0.0
    else
      match GIFPropertiesAtIndex(source, index)
      case None => DefaultDuration
      case Some(properties) =>
        match FrameDuration(properties)
        case None => DefaultDuration
        case Some(duration) =>
          match CapDuration(duration)
          case None => DefaultDuration
          case Some(capped) => capped
  }

  /**
    Once both delay keys are present the extraction cannot fail: `Duration` is never
    negative, so the cap always succeeds and the result is at least the threshold.
   */
  lemma FrameWithBothDelaysHasCappedDuration(source: ImageSource, index: int, properties: GIFProperties)
    requires IsAnimatedGIF(source)
    requires GIFPropertiesAtIndex(source, index) == Some(properties)
    requires UnclampedDelayTimeKey in properties && DelayTimeKey in properties
    ensures CGImageFrameDuration(source, index)
            == CapDuration(Duration(properties[UnclampedDelayTimeKey], properties[DelayTimeKey])).value
    ensures CGImageFrameDuration(source, index) >= CapThreshold
  {
  }

  /** A source with a single image is never animated, whatever its type. */
  lemma SingleImageIsNotAnimated(source: ImageSource)
    requires Count(source) <= 1
    ensures !IsAnimatedGIF(source)
    ensures forall i :: CGImageFrameDuration(source, i) == 0.0
  {
  }

  /** Worked examples of the delay rules: a negative unclamped delay falls back to the clamped one, and short delays are raised. */
  lemma DelayExamples()
    ensures Duration(-1.0, 0.05) == 0.05 && CapDuration(0.05) == Some(0.05)
    ensures Duration(-1.0, -1.0) == 0.0 && CapDuration(0.0) == Some(0.1)
    ensures CapDuration(0.01) == Some(0.1)
    ensures CapDuration(-0.5) == None
  {
  }

  /**
    A frame whose two delays are both negative gets the default from the selection,
    but the cap then raises that 0 to 0.1: the frame lasts a tenth of a second.
   */
  lemma BothDelaysNegativeLastATenth(source: ImageSource, index: int, unclamped: real, delay: real)
    requires IsAnimatedGIF(source) && unclamped < 0.0 && delay < 0.0
    requires GIFPropertiesAtIndex(source, index) == Some(map[UnclampedDelayTimeKey := unclamped, DelayTimeKey := delay])
    ensures CGImageFrameDuration(source, index) == ShortDelayReplacement
  {
    var properties := map[UnclampedDelayTimeKey := unclamped, DelayTimeKey := delay];
    assert UnclampedDelayTimeKey != DelayTimeKey;
    assert properties[UnclampedDelayTimeKey] == unclamped && properties[DelayTimeKey] == delay;
  }
}
