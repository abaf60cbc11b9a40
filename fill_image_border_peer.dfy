/**
 * The synchronization peer for `FillImageBorder` properties: a `fib` child
 * with the optional `bi`, `ci` and `bc` attributes and one image child per slot.
 */
module FillImageBorderPeer {
  import opened Wrappers
  import opened Values
  import opened Wire

  /** The wire shape name of a fill-image border property. */
  const FILL_IMAGE_BORDER_TYPE := "FillImageBorder"
  const FIB_TAG := "fib"
  const BORDER_INSETS_ATTRIBUTE := "bi"
  const CONTENT_INSETS_ATTRIBUTE := "ci"
  const COLOR_ATTRIBUTE := "bc"

  /**
   * The peers this one delegates to: `InsetsPeer.toString`, `ColorPeer.toString`
   * and `FillImagePeer.createFillImageElement`. Their results are only placed.
   */
  datatype Delegates = Delegates(
    insetsText: Insets -> string,
    colorText: Color -> string,
    fillImageElement: Option<FillImage> -> Node)

  /** `toProperty` is not implemented: it returns null whatever it is given. */
  function ToProperty(propertyElement: Element): (r: Option<FillImageBorder>)
    ensures r.None?
  {
    None
  }

  /** The attributes of the `fib` element: each optional field that is set, rendered by its own peer. */
  function FibAttributes(delegates: Delegates, border: FillImageBorder): (attributes: map<string, string>)
    ensures BORDER_INSETS_ATTRIBUTE in attributes <==> border.borderInsets.Some?
    ensures CONTENT_INSETS_ATTRIBUTE in attributes <==> border.contentInsets.Some?
    ensures COLOR_ATTRIBUTE in attributes <==> border.color.Some?
    ensures border.borderInsets.Some? ==>
              attributes[BORDER_INSETS_ATTRIBUTE] == delegates.insetsText(border.borderInsets.value)
    ensures border.contentInsets.Some? ==>
              attributes[CONTENT_INSETS_ATTRIBUTE] == delegates.insetsText(border.contentInsets.value)
    ensures border.color.Some? ==> attributes[COLOR_ATTRIBUTE] == delegates.colorText(border.color.value)
    ensures attributes.Keys <= {BORDER_INSETS_ATTRIBUTE, CONTENT_INSETS_ATTRIBUTE, COLOR_ATTRIBUTE}
    ensures border.borderInsets.None? && border.contentInsets.None? && border.color.None? ==> attributes == map[]
  {
    var withBorderInsets :=
      if border.borderInsets.Some? then map[BORDER_INSETS_ATTRIBUTE := delegates.insetsText(border.borderInsets.value)]
      else map[];
    var withContentInsets :=
      if border.contentInsets.Some? then withBorderInsets[CONTENT_INSETS_ATTRIBUTE := delegates.insetsText(border.contentInsets.value)]
      else withBorderInsets;
    if border.color.Some? then withContentInsets[COLOR_ATTRIBUTE := delegates.colorText(border.color.value)]
    else withContentInsets
  }

  /** The children of the `fib` element: the image element of every slot, in slot order. */
  function FibChildren(delegates: Delegates, border: FillImageBorder): (children: seq<Node>)
    requires border.Valid()
    ensures |children| == FILL_IMAGE_SLOTS
    ensures forall i :: 0 <= i < FILL_IMAGE_SLOTS ==> children[i] == delegates.fillImageElement(border.GetFillImage(i))
  {
    seq(FILL_IMAGE_SLOTS, i requires 0 <= i < FILL_IMAGE_SLOTS => delegates.fillImageElement(border.fillImages[i]))
  }

  /**
   * `toXml`: sets `t` to "FillImageBorder" and appends one `fib` child built
   * from `FibAttributes` and `FibChildren`; existing attributes other than `t`
   * and existing children stay as they were.
   */
  method ToXml(delegates: Delegates, propertyElement: Element, border: FillImageBorder)
    requires border.Valid()
    modifies propertyElement
    ensures propertyElement.attributes == old(propertyElement.attributes)[TYPE_ATTRIBUTE := FILL_IMAGE_BORDER_TYPE]
    ensures propertyElement.children ==
              old(propertyElement.children) + [Node(FIB_TAG, FibAttributes(delegates, border), FibChildren(delegates, border))]
  {
    propertyElement.SetAttribute(TYPE_ATTRIBUTE, FILL_IMAGE_BORDER_TYPE);
    var fibElement := NewFibElement(delegates, border);
    propertyElement.AppendChild(fibElement.Snapshot());
  }

  /** The `fib` element `toXml` builds: its optional attributes, then the image element of each slot in order. */
  method NewFibElement(delegates: Delegates, border: FillImageBorder) returns (fibElement: Element)
    requires border.Valid()
    ensures fresh(fibElement)
    ensures fibElement.Snapshot() == Node(FIB_TAG, FibAttributes(delegates, border), FibChildren(delegates, border))
  {
    fibElement := new Element(FIB_TAG);

    if border.borderInsets.Some? {
      fibElement.SetAttribute(BORDER_INSETS_ATTRIBUTE, delegates.insetsText(border.borderInsets.value));
    }
    if border.contentInsets.Some? {
      fibElement.SetAttribute(CONTENT_INSETS_ATTRIBUTE, delegates.insetsText(border.contentInsets.value));
    }
    if border.color.Some? {
      fibElement.SetAttribute(COLOR_ATTRIBUTE, delegates.colorText(border.color.value));
    }

    for i := 0 to FILL_IMAGE_SLOTS
      modifies fibElement
      invariant fibElement.attributes == FibAttributes(delegates, border)
      invariant fibElement.children == FibChildren(delegates, border)[..i]
    {
      fibElement.AppendChild(delegates.fillImageElement(border.GetFillImage(i)));
    }

    assert FibChildren(delegates, border)[..FILL_IMAGE_SLOTS] == FibChildren(delegates, border);
  }
}
