/**
 * The server-side property value types the peers and the panel handle.
 * Their internals are not part of this model: each is an opaque type.
 */
module Values {
  import opened Wrappers

  type Insets(==)
  type Color(==)
  type FillImage(==)
  type Border(==)
  type Extent(==)

  /** The number of image slots of a fill-image border (the corners and the sides). */
  const FILL_IMAGE_SLOTS := 8

  /**
   * A border drawn with images: optional border insets, content insets and
   * color, and one possibly-null fill image per slot.
   */
  datatype FillImageBorder = FillImageBorder(
    color: Option<Color>,
    borderInsets: Option<Insets>,
    contentInsets: Option<Insets>,
    fillImages: seq<Option<FillImage>>)
  {
    /** A fill-image border always holds exactly one entry per slot. */
    predicate Valid() { |fillImages| == FILL_IMAGE_SLOTS }

    /** `getFillImage(position)`. */
    function GetFillImage(position: nat): (r: Option<FillImage>)
      requires Valid() && position < FILL_IMAGE_SLOTS
      ensures r == fillImages[position]
    {
      fillImages[position]
    }
  }
}
