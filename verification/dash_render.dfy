/**
 * The tree walk of `render2`, `render` and `serialize`: each node is created
 * in the document, its emitted props are set as attributes one by one, its
 * children are awaited, flattened and rendered in order, and each rendered
 * child is appended to its parent. Every method is proved to build exactly the
 * tree the rendering functions of `DashUtils` describe.
 */
module DashRender {
  import opened Wrappers
  import opened Seqs
  import opened JsValues
  import opened Errors
  import opened Dom
  import opened DashUtils

  /**
   * `render2(element, document)`: builds the subtree of `n` in new nodes of
   * `doc` and returns the index of its root, which is the first new node.
   * Nodes that existed before are left as they were.
   */
  method Render2(doc: Document, n: Node) returns (r: Result<nat, Error>)
    requires doc.Valid()
    modifies doc
    ensures doc.Valid() && doc.documentElement == old(doc.documentElement)
    ensures |doc.nodes| >= old(|doc.nodes|) && doc.nodes[..old(|doc.nodes|)] == old(doc.nodes)
    ensures r.Ok? <==> RenderNode(n).Ok?
    ensures r.Ok? ==>
      r.value == old(|doc.nodes|) < |doc.nodes| && TreeAt(doc.nodes, r.value) == RenderNode(n).value
    ensures r.Err? ==> RenderNode(n) == Err(r.error)
    decreases NodeSize(n), 3
  {
    if n.kind == TextKind {
      var id := doc.CreateTextNode(TextValue(n.props));
      return Ok(id);
    }
    var dom := doc.CreateElement(n.kind);
    SetAttributes(doc, dom, n.props);
    var items :- ChildItems(n.children);
    var c := AppendChildren(doc, dom, items);
    if c.Err? {
      return Err(c.error);
    }
    return Ok(dom);
  }

  /** The attribute loop of `render2`: every emitted prop is set on the new element, in key order. */
  method SetAttributes(doc: Document, dom: nat, props: Props)
    requires doc.Valid() && dom < |doc.nodes| && doc.nodes[dom].DomElement? && doc.nodes[dom].attributes == []
    modifies doc
    ensures doc.Valid() && doc.documentElement == old(doc.documentElement)
    ensures doc.nodes == old(doc.nodes[dom := doc.nodes[dom].(attributes := Attributes(props))])
  {
    var keys := ObjectKeys(props);
    for i := 0 to |keys|
      invariant doc.Valid() && doc.documentElement == old(doc.documentElement)
      invariant doc.nodes == old(doc.nodes[dom := doc.nodes[dom].(attributes := AttributeList(props, keys[..i]))])
    {
      assert keys[..i + 1][..i] == keys[..i];
      var name, value := keys[i], Lookup(props, keys[i]);
      ghost var done := AttributeList(props, keys[..i]);
      if name != "children" && name != "nodeValue" && value != Undefined {
        assert name !in keys[..i];
        forall p | p in done ensures p.0 != name {
          assert p.0 in keys[..i];
        }
        assert AttributeList(props, keys[..i + 1]) == done + [(name, Stringify(value))];
        doc.SetAttribute(dom, name, Stringify(value));
      } else {
        assert AttributeList(props, keys[..i + 1]) == done;
      }
    }
    assert keys[..|keys|] == keys;
  }

  /**
   * The child loop of `render2`: each awaited, flattened child is rendered and
   * appended to the last node `dom` in order, so that `dom` ends up holding
   * exactly the rendered children.
   */
  method AppendChildren(doc: Document, dom: nat, items: seq<Slot>) returns (r: Result<(), Error>)
    requires doc.Valid() && dom == |doc.nodes| - 1
    requires doc.nodes[dom].DomElement? && doc.nodes[dom].kids == []
    modifies doc
    ensures doc.Valid() && doc.documentElement == old(doc.documentElement)
    ensures |doc.nodes| > dom && doc.nodes[..dom] == old(doc.nodes[..dom])
    ensures r.Ok? <==> RenderItems(items).Ok?
    ensures r.Err? ==> RenderItems(items) == Err(r.error)
    ensures r.Ok? ==>
      TreeAt(doc.nodes, dom) == XElement(old(doc.nodes[dom].name), old(doc.nodes[dom].attributes), RenderItems(items).value)
    decreases SlotsSize(items), 2
  {
    ghost var rendered: seq<Xml> := [];
    for i := 0 to |items|
      invariant doc.Valid() && doc.documentElement == old(doc.documentElement)
      invariant |doc.nodes| > dom && doc.nodes[..dom] == old(doc.nodes[..dom])
      invariant doc.nodes[dom].DomElement? && doc.nodes[dom].name == old(doc.nodes[dom].name)
      invariant doc.nodes[dom].attributes == old(doc.nodes[dom].attributes)
      invariant |doc.nodes[dom].kids| == i
      invariant RenderItems(items[..i]) == Ok(rendered)
      invariant forall t :: 0 <= t < i ==> TreeAt(doc.nodes, doc.nodes[dom].kids[t]) == rendered[t]
    {
      assert items[..i + 1][..i] == items[..i];
      ghost var before := doc.nodes;
      SlotsSizeBound(items, i);
      var c := Render(doc, items[i], dom);
      if c.Err? {
        RenderItemsEach(items[..i]);
        assert forall j :: 0 <= j < i ==> items[..i][j] == items[j];
        RenderItemsFirstError(items, i);
        return Err(c.error);
      }
      forall t | 0 <= t < i
        ensures TreeAt(doc.nodes, doc.nodes[dom].kids[t]) == rendered[t]
      {
        TreeAtFrame(before, doc.nodes, dom + 1, before[dom].kids[t]);
      }
      rendered := rendered + [RenderItem(items[i]).value];
    }
    assert items[..|items|] == items;
    assert TreeAt(doc.nodes, dom).children == rendered;
    return Ok(());
  }

  /**
   * `render(item, container)`: awaits the item, renders it and appends the
   * result to `container` as its last child; nothing else that existed changes.
   */
  method Render(doc: Document, item: Slot, container: nat) returns (r: Result<(), Error>)
    requires doc.Valid() && container < |doc.nodes| && doc.nodes[container].DomElement?
    modifies doc
    ensures doc.Valid() && doc.documentElement == old(doc.documentElement)
    ensures |doc.nodes| >= old(|doc.nodes|)
    ensures forall i :: 0 <= i < old(|doc.nodes|) && i != container ==> doc.nodes[i] == old(doc.nodes[i])
    ensures doc.nodes[container].DomElement? && doc.nodes[container].name == old(doc.nodes[container].name)
    ensures doc.nodes[container].attributes == old(doc.nodes[container].attributes)
    ensures r.Ok? <==> RenderItem(item).Ok?
    ensures r.Err? ==> RenderItem(item) == Err(r.error)
    ensures r.Ok? ==>
      |doc.nodes| > old(|doc.nodes|) &&
      doc.nodes[container].kids == old(doc.nodes[container].kids) + [old(|doc.nodes|)] &&
      TreeAt(doc.nodes, old(|doc.nodes|)) == RenderItem(item).value
    decreases SlotSize(item), 1
  {
    var v :- Settle(item);
    if !v.Elem? {
      return Err(NotANode);
    }
    var id :- Render2(doc, v.node);
    ghost var rendered := doc.nodes;
    doc.AppendChild(container, id);
    TreeAtFrame(rendered, doc.nodes, id, id);
    return Ok(());
  }

  /**
   * `serialize(element)`: renders the awaited root into a fresh document
   * parsed from `<PLACEHOLDER />` and puts it in the placeholder's place; the
   * document then holds exactly the tree the rendering functions describe.
   */
  method Serialize(root: Slot) returns (r: Result<Xml, Error>)
    ensures r == RenderItem(root)
  {
    var doc := new Document.FromPlaceholder();
    var v :- Settle(root);
    if !v.Elem? {
      return Err(NotANode);
    }
    var id :- Render2(doc, v.node);
    doc.ReplaceDocumentElement(id);
    return Ok(doc.Content());
  }
}
