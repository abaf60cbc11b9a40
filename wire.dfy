/**
 * The XML-like wire element the property peers write to and read from:
 * a tag name, attributes by name, and an ordered list of children.
 */
module Wire {
  import opened Wrappers

  /** The attribute every property element carries to name its wire shape. */
  const TYPE_ATTRIBUTE := "t"

  /** A finished element, as a value: once appended, a child is not changed again. */
  datatype Node = Node(tag: string, attributes: map<string, string>, children: seq<Node>)

  /** An element under construction, changed in place by the peers. */
  class Element {
    const tag: string
    var attributes: map<string, string>
    var children: seq<Node>

    /** `Document.createElement(tag)`: a fresh element with no attributes and no children. */
    constructor (tag: string)
      ensures this.tag == tag && attributes == map[] && children == []
    {
      this.tag := tag;
      attributes := map[];
      children := [];
    }

    /** `getAttribute(name)`, with an absent attribute read as null. */
    function GetAttribute(name: string): (r: Option<string>)
      reads this
      ensures r.Some? <==> name in attributes
      ensures r.Some? ==> r.value == attributes[name]
    {
      if name in attributes then Some(attributes[name]) else None
    }

    /** `setAttribute(name, value)`: adds or replaces one attribute and touches nothing else. */
    method SetAttribute(name: string, value: string)
      modifies this
      ensures attributes == old(attributes)[name := value]
      ensures children == old(children)
    {
      attributes := attributes[name := value];
    }

    /** `appendChild(child)`: adds `child` after the existing children. */
    method AppendChild(child: Node)
      modifies this
      ensures children == old(children) + [child]
      ensures attributes == old(attributes)
    {
      children := children + [child];
    }

    /** The element as it stands now. */
    function Snapshot(): Node
      reads this
    {
      Node(tag, attributes, children)
    }
  }
}
