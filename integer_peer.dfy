/** The synchronization peer for `Integer` properties: `t="i"` and the value in `v`. */
module IntegerPeer {
  import opened Wrappers
  import opened JavaInt
  import opened Wire

  /** The wire shape name of an integer property. */
  const INTEGER_TYPE := "i"
  /** The attribute that holds the decimal value. */
  const VALUE_ATTRIBUTE := "v"

  /**
   * `toProperty`: null when `v` is absent, the parsed value when `v` is a
   * numeral within the `int` range, and a `NumberFormatException` otherwise.
   */
  function ToProperty(propertyElement: Element): (r: Result<Option<Int32>, NumberFormatError>)
    reads propertyElement
    ensures r == Success(None) <==> VALUE_ATTRIBUTE !in propertyElement.attributes
    ensures VALUE_ATTRIBUTE in propertyElement.attributes ==>
              (r.Failure? <==> Parse(propertyElement.attributes[VALUE_ATTRIBUTE]).Failure?)
    ensures r.Success? && r.value.Some? ==>
              Parse(propertyElement.attributes[VALUE_ATTRIBUTE]) == Success(r.value.value)
    ensures r.Failure? ==> r.error == NumberFormatError(propertyElement.attributes[VALUE_ATTRIBUTE])
  {
    match propertyElement.GetAttribute(VALUE_ATTRIBUTE)
    case None => Success(None)
    case Some(valueText) =>
      match Parse(valueText)
      case Success(n) => Success(Some(n))
      case Failure(e) => Failure(e)
  }

  /**
   * `toXml`: sets `t` to "i" and `v` to the decimal text of the value; every
   * other attribute and every child stays as it was, and the element now
   * decodes back to the value.
   */
  method ToXml(propertyElement: Element, propertyValue: Int32)
    modifies propertyElement
    ensures propertyElement.attributes ==
              old(propertyElement.attributes)[TYPE_ATTRIBUTE := INTEGER_TYPE][VALUE_ATTRIBUTE := ToString(propertyValue)]
    ensures propertyElement.children == old(propertyElement.children)
    ensures ToProperty(propertyElement) == Success(Some(propertyValue))
  {
    propertyElement.SetAttribute(TYPE_ATTRIBUTE, INTEGER_TYPE);
    propertyElement.SetAttribute(VALUE_ATTRIBUTE, ToString(propertyValue));
    DecodeEncoded(propertyElement, propertyValue);
  }

  /** An element whose `v` is the printed form of `n` decodes to `n`. */
  lemma DecodeEncoded(propertyElement: Element, n: Int32)
    requires propertyElement.GetAttribute(VALUE_ATTRIBUTE) == Some(ToString(n))
    ensures ToProperty(propertyElement) == Success(Some(n))
  {
    ParseToString(n);
  }

  /** A `v` that is not a numeral, such as "abc", is a format error, not a default value. */
  lemma MalformedValueFails(propertyElement: Element)
    requires propertyElement.GetAttribute(VALUE_ATTRIBUTE) == Some("abc")
    ensures ToProperty(propertyElement) == Failure(NumberFormatError("abc"))
  {
  }
}
