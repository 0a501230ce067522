/** One GIF frame: an optional decoded image and its display duration. */
module AnimatedFrames {
  import opened Wrappers
  import opened Platform

  datatype AnimatedFrame = AnimatedFrame(image: Option<Image>, duration: real) {

    /** The same frame with its image dropped; used to evict frames no longer needed. */
    function PlaceholderFrame(): (r: AnimatedFrame)
      ensures r.IsPlaceholder()
      ensures r.duration == duration
    {
      AnimatedFrame(None, duration)
    }

    /** A frame is a placeholder exactly when it holds no image. */
    predicate IsPlaceholder() {
      image == None
    }

    /**
      The same frame carrying `newImage`. The duration is kept; the result is a
      placeholder again when `newImage` is nothing.
     */
    function FrameWithImage(newImage: Option<Image>): (r: AnimatedFrame)
      ensures r.duration == duration
      ensures r.image == newImage
      ensures r.IsPlaceholder() <==> newImage.None?
    {
      AnimatedFrame(newImage, duration)
    }
  }

  /** The frame used when a frame cannot be decoded: no image and no duration. */
  function NullFrame(): (r: AnimatedFrame)
    ensures r.IsPlaceholder() && r.duration == 0.0
  {
    AnimatedFrame(None, 0.0)
  }

  /** Taking the placeholder of a placeholder changes nothing. */
  lemma PlaceholderIdempotent(f: AnimatedFrame)
    ensures f.PlaceholderFrame().PlaceholderFrame() == f.PlaceholderFrame()
    ensures f.IsPlaceholder() ==> f.PlaceholderFrame() == f
  {
  }

  /** Eviction and promotion touch only the image: attaching an image to a placeholder equals attaching it to the frame, and evicting undoes promotion. */
  lemma PromotionAndEvictionInverse(f: AnimatedFrame, img: Image)
    ensures f.PlaceholderFrame().FrameWithImage(Some(img)) == f.FrameWithImage(Some(img))
    ensures f.FrameWithImage(Some(img)).PlaceholderFrame() == f.PlaceholderFrame()
    ensures !f.FrameWithImage(Some(img)).IsPlaceholder()
    ensures f.FrameWithImage(None).IsPlaceholder()
  {
  }
}
