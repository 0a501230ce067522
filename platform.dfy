/**
  A value model of the platform image source (ImageIO's `CGImageSource`) that the
  core reads from. Decoding a frame is a lookup: it yields the decoded bitmap or
  nothing when the frame is malformed or the index is out of range.
 */
module Platform {
  import opened Wrappers

  /** An opaque handle to one decoded bitmap. */
  datatype Image = Image(handle: nat)

  /** The GIF dictionary of one frame's properties: delay times in seconds, keyed by name. */
  type GIFProperties = map<string, real>

  /** Key of the delay time as written in the Graphic Control Extension (section 23 of GIF89a). */
  const UnclampedDelayTimeKey: string := "UnclampedDelayTime"

  /** Key of the delay time after the platform's own clamping of small values. */
  const DelayTimeKey: string := "DelayTime"

  /** What the source holds for one frame index. */
  datatype SourceFrame = SourceFrame(image: Option<Image>, gifProperties: Option<GIFProperties>)

  /**
    An image source: whether its type identifier conforms to GIF (a missing type
    counts as not conforming) and its frames in container order.
   */
  datatype ImageSource = ImageSource(conformsToGIF: bool, frames: seq<SourceFrame>)

  /** `CGImageSourceGetCount`. */
  function Count(source: ImageSource): nat {
    |source.frames|
  }

  /** `CGImageSourceCreateImageAtIndex`: nothing for a malformed frame or an index out of range. */
  function CreateImageAtIndex(source: ImageSource, index: int): Option<Image> {
    if 0 <= index < |source.frames| then source.frames[index].image else None
  }

  /** The GIF dictionary of the frame's properties, or nothing when it has none. */
  function GIFPropertiesAtIndex(source: ImageSource, index: int): Option<GIFProperties> {
    if 0 <= index < |source.frames| then source.frames[index].gifProperties else None
  }

  /** The frame has a GIF dictionary holding both the unclamped and the clamped delay. */
  predicate HasBothDelays(source: ImageSource, index: int) {
    match GIFPropertiesAtIndex(source, index)
    case None => false
    case Some(properties) => UnclampedDelayTimeKey in properties && DelayTimeKey in properties
  }
}
