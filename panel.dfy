/**
 * `Panel`, a single-child container: five typed accessor pairs over the
 * component's name-keyed property bag.
 */
module PanelComponent {
  import opened Wrappers
  import opened Values

  const PROPERTY_BACKGROUND_IMAGE := "backgroundImage"
  const PROPERTY_BORDER := "border"
  const PROPERTY_INSETS := "insets"
  const PROPERTY_WIDTH := "width"
  const PROPERTY_HEIGHT := "height"

  /** A value held in the property bag (the bag stores plain objects; the tag is their runtime class). */
  datatype PropertyValue =
    | FillImageValue(fillImage: FillImage)
    | BorderValue(border: Border)
    | InsetsValue(insets: Insets)
    | ExtentValue(extent: Extent)

  /**
   * The bag after `set(name, value)`: `name` holds the new value, or is unset
   * when the value is null, and every other name is as before.
   */
  function Store(bag: map<string, PropertyValue>, name: string, value: Option<PropertyValue>): (r: map<string, PropertyValue>)
    ensures name in r <==> value.Some?
    ensures value.Some? ==> r[name] == value.value
    ensures forall other :: other != name ==> (other in r <==> other in bag)
    ensures forall other :: other != name && other in r ==> r[other] == bag[other]
  {
    if value.Some? then bag[name := value.value] else bag - {name}
  }

  /** Writing the same property twice keeps only the last value. */
  lemma StoreTwice(bag: map<string, PropertyValue>, name: string, first: Option<PropertyValue>, second: Option<PropertyValue>)
    ensures Store(Store(bag, name, first), name, second) == Store(bag, name, second)
  {
  }

  /** Writes to two different properties commute. */
  lemma StoreCommutes(bag: map<string, PropertyValue>, a: string, b: string, x: Option<PropertyValue>, y: Option<PropertyValue>)
    requires a != b
    ensures Store(Store(bag, a, x), b, y) == Store(Store(bag, b, y), a, x)
  {
    var left, right := Store(Store(bag, a, x), b, y), Store(Store(bag, b, y), a, x);
    assert left.Keys == right.Keys;
    assert forall name :: name in left ==> left[name] == right[name];
  }

  /** The five property names are pairwise distinct. */
  lemma PropertyNamesDistinct()
    ensures |{PROPERTY_BACKGROUND_IMAGE, PROPERTY_BORDER, PROPERTY_INSETS, PROPERTY_WIDTH, PROPERTY_HEIGHT}| == 5
  {
  }

  function FromFillImage(v: Option<FillImage>): Option<PropertyValue> {
    if v.Some? then Some(FillImageValue(v.value)) else None
  }

  function FromBorder(v: Option<Border>): Option<PropertyValue> {
    if v.Some? then Some(BorderValue(v.value)) else None
  }

  function FromInsets(v: Option<Insets>): Option<PropertyValue> {
    if v.Some? then Some(InsetsValue(v.value)) else None
  }

  function FromExtent(v: Option<Extent>): Option<PropertyValue> {
    if v.Some? then Some(ExtentValue(v.value)) else None
  }

  class Panel {
    /** The component's local property bag. */
    var properties: map<string, PropertyValue>

    /** Each of the five properties, when set, holds a value of its declared type. */
    ghost predicate Valid()
      reads this
    {
      && (PROPERTY_BACKGROUND_IMAGE in properties ==> properties[PROPERTY_BACKGROUND_IMAGE].FillImageValue?)
      && (PROPERTY_BORDER in properties ==> properties[PROPERTY_BORDER].BorderValue?)
      && (PROPERTY_INSETS in properties ==> properties[PROPERTY_INSETS].InsetsValue?)
      && (PROPERTY_WIDTH in properties ==> properties[PROPERTY_WIDTH].ExtentValue?)
      && (PROPERTY_HEIGHT in properties ==> properties[PROPERTY_HEIGHT].ExtentValue?)
    }

    /** A new panel has no property set: every getter reads null. */
    constructor ()
      ensures Valid() && properties == map[]
      ensures GetBackgroundImage().None? && GetBorder().None? && GetInsets().None?
      ensures GetWidth().None? && GetHeight().None?
    {
      properties := map[];
    }

    function GetBackgroundImage(): (r: Option<FillImage>)
      reads this
      requires Valid()
      ensures r.Some? <==> PROPERTY_BACKGROUND_IMAGE in properties
      ensures r.Some? ==> properties[PROPERTY_BACKGROUND_IMAGE] == FillImageValue(r.value)
    {
      if PROPERTY_BACKGROUND_IMAGE in properties then Some(properties[PROPERTY_BACKGROUND_IMAGE].fillImage) else None
    }

    function GetBorder(): (r: Option<Border>)
      reads this
      requires Valid()
      ensures r.Some? <==> PROPERTY_BORDER in properties
      ensures r.Some? ==> properties[PROPERTY_BORDER] == BorderValue(r.value)
    {
      if PROPERTY_BORDER in properties then Some(properties[PROPERTY_BORDER].border) else None
    }

    function GetHeight(): (r: Option<Extent>)
      reads this
      requires Valid()
      ensures r.Some? <==> PROPERTY_HEIGHT in properties
      ensures r.Some? ==> properties[PROPERTY_HEIGHT] == ExtentValue(r.value)
    {
      if PROPERTY_HEIGHT in properties then Some(properties[PROPERTY_HEIGHT].extent) else None
    }

    function GetInsets(): (r: Option<Insets>)
      reads this
      requires Valid()
      ensures r.Some? <==> PROPERTY_INSETS in properties
      ensures r.Some? ==> properties[PROPERTY_INSETS] == InsetsValue(r.value)
    {
      if PROPERTY_INSETS in properties then Some(properties[PROPERTY_INSETS].insets) else None
    }

    function GetWidth(): (r: Option<Extent>)
      reads this
      requires Valid()
      ensures r.Some? <==> PROPERTY_WIDTH in properties
      ensures r.Some? ==> properties[PROPERTY_WIDTH] == ExtentValue(r.value)
    {
      if PROPERTY_WIDTH in properties then Some(properties[PROPERTY_WIDTH].extent) else None
    }

    method SetBackgroundImage(newValue: Option<FillImage>)
      requires Valid()
      modifies this
      ensures Valid()
      ensures properties == Store(old(properties), PROPERTY_BACKGROUND_IMAGE, FromFillImage(newValue))
      ensures GetBackgroundImage() == newValue
      ensures GetBorder() == old(GetBorder()) && GetInsets() == old(GetInsets())
      ensures GetWidth() == old(GetWidth()) && GetHeight() == old(GetHeight())
    {
      properties := Store(properties, PROPERTY_BACKGROUND_IMAGE, FromFillImage(newValue));
    }

    method SetBorder(newValue: Option<Border>)
      requires Valid()
      modifies this
      ensures Valid()
      ensures properties == Store(old(properties), PROPERTY_BORDER, FromBorder(newValue))
      ensures GetBorder() == newValue
      ensures GetBackgroundImage() == old(GetBackgroundImage()) && GetInsets() == old(GetInsets())
      ensures GetWidth() == old(GetWidth()) && GetHeight() == old(GetHeight())
    {
      properties := Store(properties, PROPERTY_BORDER, FromBorder(newValue));
    }

    method SetHeight(newValue: Option<Extent>)
      requires Valid()
      modifies this
      ensures Valid()
      ensures properties == Store(old(properties), PROPERTY_HEIGHT, FromExtent(newValue))
      ensures GetHeight() == newValue
      ensures GetBackgroundImage() == old(GetBackgroundImage()) && GetBorder() == old(GetBorder())
      ensures GetInsets() == old(GetInsets()) && GetWidth() == old(GetWidth())
    {
      properties := Store(properties, PROPERTY_HEIGHT, FromExtent(newValue));
    }

    method SetInsets(newValue: Option<Insets>)
      requires Valid()
      modifies this
      ensures Valid()
      ensures properties == Store(old(properties), PROPERTY_INSETS, FromInsets(newValue))
      ensures GetInsets() == newValue
      ensures GetBackgroundImage() == old(GetBackgroundImage()) && GetBorder() == old(GetBorder())
      ensures GetWidth() == old(GetWidth()) && GetHeight() == old(GetHeight())
    {
      properties := Store(properties, PROPERTY_INSETS, FromInsets(newValue));
    }

    method SetWidth(newValue: Option<Extent>)
      requires Valid()
      modifies this
      ensures Valid()
      ensures properties == Store(old(properties), PROPERTY_WIDTH, FromExtent(newValue))
      ensures GetWidth() == newValue
      ensures GetBackgroundImage() == old(GetBackgroundImage()) && GetBorder() == old(GetBorder())
      ensures GetInsets() == old(GetInsets()) && GetHeight() == old(GetHeight())
    {
      properties := Store(properties, PROPERTY_WIDTH, FromExtent(newValue));
    }
  }
}
