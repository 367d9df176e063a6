/**
 * The part of ElementTree that the figure processor uses: an element with a
 * tag, an optional text and an ordered list of children, and `SubElement`,
 * which creates a new element and appends it to its parent.
 */
module ElementTree {
  import opened Wrappers

  class Element {
    var tag: string
    /** `None` until assigned, as in ElementTree. */
    var text: Option<string>
    var children: seq<Element>

    constructor (tag: string)
      ensures this.tag == tag && text == None && children == []
    {
      this.tag := tag;
      text := None;
      children := [];
    }

    /** `etree.SubElement(this, tag)`: a fresh empty element appended as the last child. */
    method SubElement(tag: string) returns (child: Element)
      modifies this
      ensures fresh(child)
      ensures child.tag == tag && child.text == None && child.children == []
      ensures children == old(children) + [child]
      ensures this.tag == old(this.tag) && text == old(text)
    {
      child := new Element(tag);
      children := children + [child];
    }
  }
}
