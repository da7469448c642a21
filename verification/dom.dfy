/**
 * The document the renderer writes into, reduced to what rendering uses:
 * creating element and text nodes, setting attributes, appending children and
 * replacing the document element. Nodes live in an arena and refer to their
 * children by index; a child is always created after its parent, so every
 * child index is larger than its parent's and the tree below a node is finite.
 */
module Dom {

  /** An XML tree: what a document holds below its document element. */
  datatype Xml =
    | XElement(name: string, attributes: seq<(string, string)>, children: seq<Xml>)
    | XText(text: string)

  datatype DomNode =
    | DomElement(name: string, attributes: seq<(string, string)>, kids: seq<nat>)
    | DomText(text: string)

  predicate WellFormed(nodes: seq<DomNode>) {
    forall i, t :: 0 <= i < |nodes| && nodes[i].DomElement? && 0 <= t < |nodes[i].kids| ==>
      i < nodes[i].kids[t] < |nodes|
  }

  /** The XML tree rooted at node `id`. */
  function TreeAt(nodes: seq<DomNode>, id: nat): Xml
    requires WellFormed(nodes) && id < |nodes|
    decreases |nodes| - id
  {
    match nodes[id]
    case DomText(t) => XText(t)
    case DomElement(name, attrs, kids) =>
      XElement(name, attrs, seq(|kids|, t requires 0 <= t < |kids| => TreeAt(nodes, kids[t])))
  }

  /**
   * The tree below a node depends only on the nodes from it onwards: two arenas
   * that agree from index `q` up have the same trees there.
   */
  lemma {:induction false} TreeAtFrame(a: seq<DomNode>, b: seq<DomNode>, q: nat, id: nat)
    requires WellFormed(a) && WellFormed(b) && |a| <= |b|
    requires forall i :: q <= i < |a| ==> a[i] == b[i]
    requires q <= id < |a|
    ensures TreeAt(a, id) == TreeAt(b, id)
    decreases |a| - id
  {
    match a[id]
    case DomText(_) =>
    case DomElement(name, attrs, kids) =>
      forall t | 0 <= t < |kids| ensures TreeAt(a, kids[t]) == TreeAt(b, kids[t]) {
        TreeAtFrame(a, b, q, kids[t]);
      }
  }

  /** `Element.setAttribute`: an existing attribute keeps its place and takes the new value, a new one goes last. */
  function SetAttr(attrs: seq<(string, string)>, name: string, value: string): (r: seq<(string, string)>)
    ensures (name, value) in r
    ensures forall p :: p in attrs && p.0 != name ==> p in r
    ensures (forall p :: p in attrs ==> p.0 != name) ==> r == attrs + [(name, value)]
  {
    if attrs == [] then [(name, value)]
    else if attrs[0].0 == name then [(name, value)] + attrs[1..]
    else [attrs[0]] + SetAttr(attrs[1..], name, value)
  }

  class Document {
    var nodes: seq<DomNode>
    var documentElement: nat

    predicate Valid()
      reads this
    {
      WellFormed(nodes) && documentElement < |nodes|
    }

    /** The document parsed from `<PLACEHOLDER />`: a lone, empty document element. */
    constructor FromPlaceholder()
      ensures Valid()
      ensures nodes == [DomElement("PLACEHOLDER", [], [])] && documentElement == 0
    {
      nodes := [DomElement("PLACEHOLDER", [], [])];
      documentElement := 0;
    }

    method CreateElement(name: string) returns (id: nat)
      requires Valid()
      modifies this
      ensures Valid()
      ensures id == old(|nodes|) && nodes == old(nodes) + [DomElement(name, [], [])]
      ensures documentElement == old(documentElement)
    {
      id := |nodes|;
      nodes := nodes + [DomElement(name, [], [])];
    }

    method CreateTextNode(text: string) returns (id: nat)
      requires Valid()
      modifies this
      ensures Valid()
      ensures id == old(|nodes|) && nodes == old(nodes) + [DomText(text)]
      ensures documentElement == old(documentElement)
    {
      id := |nodes|;
      nodes := nodes + [DomText(text)];
    }

    method SetAttribute(id: nat, name: string, value: string)
      requires Valid() && id < |nodes| && nodes[id].DomElement?
      modifies this
      ensures Valid()
      ensures nodes == old(nodes[id := nodes[id].(attributes := SetAttr(nodes[id].attributes, name, value))])
      ensures documentElement == old(documentElement)
    {
      nodes := nodes[id := nodes[id].(attributes := SetAttr(nodes[id].attributes, name, value))];
    }

    /** `parent.appendChild(child)` for a node created after `parent` and not yet attached. */
    method AppendChild(parent: nat, child: nat)
      requires Valid() && parent < child < |nodes| && nodes[parent].DomElement?
      modifies this
      ensures Valid()
      ensures nodes == old(nodes[parent := nodes[parent].(kids := nodes[parent].kids + [child])])
      ensures documentElement == old(documentElement)
    {
      nodes := nodes[parent := nodes[parent].(kids := nodes[parent].kids + [child])];
    }

    /** `document.replaceChild(node, document.documentElement)`. */
    method ReplaceDocumentElement(id: nat)
      requires Valid() && id < |nodes|
      modifies this
      ensures Valid()
      ensures nodes == old(nodes) && documentElement == id
    {
      documentElement := id;
    }

    /** The document's content as an XML tree. */
    function Content(): Xml
      reads this
      requires Valid()
    {
      TreeAt(nodes, documentElement)
    }
  }
}
