/**
 * The JSX-style element tree of the manifest generator: nodes with a type and
 * props, the tag spelling rule, `createElement`, `createTextElement`,
 * `Fragment`, and what rendering a tree produces.
 *
 * A child slot is what a JSX child expression evaluates to: a node, a string
 * not yet wrapped as a text node, an array, a promise that fulfils with a slot,
 * or a promise that rejects. Promises are modelled as already settled and are
 * awaited one after another in declaration order.
 */
module DashUtils {
  import opened Wrappers
  import opened Strings
  import opened Seqs
  import opened JsValues
  import opened Errors
  import opened Dom

  /** The props of a node in source order; a later binding of a name overrides an earlier one. */
  type Props = seq<(string, Value)>

  /** A node; `children` is the node's `props.children`, kept apart from the other props. */
  datatype Node = Node(kind: string, props: Props, children: seq<Slot>)

  datatype Slot =
    | Elem(node: Node)
    | Raw(text: string)
    | Many(items: seq<Slot>)
    | Pending(resolved: Slot)
    | Rejected(error: Error)

  /** The first argument of `createElement`: a tag name or a component function. */
  datatype Tag =
    | Name(name: string)
    | Component(call: (Props, seq<Slot>) -> Result<Slot, Error>)

  const TextKind: string := "TEXT_ELEMENT"

  // ---------------------------------------------------------------- tag names

  function UpperCase(c: char): char {
    if 'a' <= c <= 'z' then (c as int - 32) as char else c
  }

  /** `section.charAt(0).toUpperCase() + section.slice(1)`. */
  function Capitalize(section: string): (r: string)
    ensures |r| == |section| && (section != [] ==> r[1..] == section[1..])
    ensures '-' !in section ==> '-' !in r
  {
    if section == [] then [] else [UpperCase(section[0])] + section[1..]
  }

  /** The sections capitalized and joined with no separator. */
  function CapitalizeAll(sections: seq<string>): (r: string)
    ensures (forall i :: 0 <= i < |sections| ==> '-' !in sections[i]) ==> '-' !in r
  {
    if sections == [] then [] else Capitalize(sections[0]) + CapitalizeAll(sections[1..])
  }

  /** The MPD spelling of a lower-case, hyphenated JSX tag name. */
  function NormalizeTag(tag: string): (r: string)
    ensures '-' !in r
  {
    if tag == "mpd" then "MPD"
    else if tag == "base-url" then "BaseURL"
    else CapitalizeAll(Split(tag, '-'))
  }

  /**
   * Apart from the two special names, a tag is spelled by capitalizing each of
   * its hyphen-separated sections: the sections come back exactly as written.
   */
  lemma NormalizeSections(sections: seq<string>)
    requires |sections| >= 1
    requires forall i :: 0 <= i < |sections| ==> '-' !in sections[i]
    requires Join(sections, '-') != "mpd" && Join(sections, '-') != "base-url"
    ensures NormalizeTag(Join(sections, '-')) == CapitalizeAll(sections)
  {
    SplitJoin(sections, '-');
  }

  lemma NormalizeSpecialTags()
    ensures NormalizeTag("mpd") == "MPD"
    ensures NormalizeTag("base-url") == "BaseURL"
  {
  }

  // --------------------------------------------------------------- sizes

  function NodeSize(n: Node): nat {
    1 + SlotsSize(n.children)
  }

  function SlotSize(s: Slot): (r: nat)
    ensures r >= 1
  {
    match s
    case Elem(n) => 1 + NodeSize(n)
    case Many(items) => 1 + SlotsSize(items)
    case Pending(v) => 1 + SlotSize(v)
    case Raw(_) => 1
    case Rejected(_) => 1
  }

  function SlotsSize(ss: seq<Slot>): nat {
    if ss == [] then 0 else SlotsSize(ss[..|ss| - 1]) + SlotSize(ss[|ss| - 1])
  }

  lemma {:induction false} SlotsSizeAppend(a: seq<Slot>, b: seq<Slot>)
    ensures SlotsSize(a + b) == SlotsSize(a) + SlotsSize(b)
    decreases |b|
  {
    if b == [] {
      assert a + b == a;
    } else {
      assert (a + b)[..|a + b| - 1] == a + b[..|b| - 1];
      assert (a + b)[|a + b| - 1] == b[|b| - 1];
      SlotsSizeAppend(a, b[..|b| - 1]);
    }
  }

  lemma {:induction false} SlotsSizeBound(ss: seq<Slot>, i: nat)
    requires i < |ss|
    ensures SlotSize(ss[i]) <= SlotsSize(ss)
    decreases |ss|
  {
    if i < |ss| - 1 {
      SlotsSizeBound(ss[..|ss| - 1], i);
    }
  }

  // ------------------------------------------------------------- construction

  /** `createTextElement(text)`. */
  function CreateTextElement(text: string): (r: Node)
    ensures r.kind == TextKind && r.children == []
    ensures Lookup(r.props, "nodeValue") == Str(text)
  {
    Node(TextKind, [("nodeValue", Str(text))], [])
  }

  /** `xs.flat()`: arrays are spliced in, one level deep. */
  function Flat1(ss: seq<Slot>): seq<Slot> {
    if ss == [] then [] else Flat1(ss[..|ss| - 1]) + Spliced(ss[|ss| - 1])
  }

  /** Flattening makes nothing bigger. */
  lemma {:induction false} Flat1Size(ss: seq<Slot>)
    ensures SlotsSize(Flat1(ss)) <= SlotsSize(ss)
    decreases |ss|
  {
    if ss != [] {
      var init, last := ss[..|ss| - 1], ss[|ss| - 1];
      Flat1Size(init);
      SlotsSizeAppend(Flat1(init), Spliced(last));
      if !last.Many? {
        assert [last][..0] == [];
      }
    }
  }

  /** What `flat()` makes of one more slot at the end. */
  function Spliced(s: Slot): seq<Slot> {
    if s.Many? then s.items else [s]
  }

  lemma Flat1Snoc(xs: seq<Slot>, x: Slot)
    ensures Flat1(xs + [x]) == Flat1(xs) + Spliced(x)
  {
    assert (xs + [x])[..|xs|] == xs;
  }

  lemma {:induction false} Flat1Append(a: seq<Slot>, b: seq<Slot>)
    ensures Flat1(a + b) == Flat1(a) + Flat1(b)
    decreases |b|
  {
    if b == [] {
      assert a + b == a;
    } else {
      var init, last := b[..|b| - 1], b[|b| - 1];
      assert b == init + [last];
      calc {
        Flat1(a + b);
        { assert a + b == (a + init) + [last]; }
        Flat1((a + init) + [last]);
        { Flat1Snoc(a + init, last); }
        Flat1(a + init) + Spliced(last);
        { Flat1Append(a, init); }
        Flat1(a) + Flat1(init) + Spliced(last);
        { Flat1Snoc(init, last); }
        Flat1(a) + Flat1(b);
      }
    }
  }

  /** A sequence holding no arrays is left as it is by `flat()`. */
  lemma {:induction false} Flat1Flat(ss: seq<Slot>)
    requires forall i :: 0 <= i < |ss| ==> !ss[i].Many?
    ensures Flat1(ss) == ss
    decreases |ss|
  {
    if ss != [] {
      Flat1Flat(ss[..|ss| - 1]);
    }
  }

  function Wrap(s: Slot): Slot {
    if s.Raw? then Elem(CreateTextElement(s.text)) else s
  }

  /** The children as `createElement` stores them: flattened once, every string wrapped as a text node. */
  function NormalizeChildren(children: seq<Slot>): (r: seq<Slot>)
    ensures forall i :: 0 <= i < |r| ==> !r[i].Raw?
  {
    var flat := Flat1(children);
    seq(|flat|, i requires 0 <= i < |flat| => Wrap(flat[i]))
  }

  /** `createElement(tag, props, ...children)`. */
  function CreateElement(tag: Tag, props: Props, children: seq<Slot>): (r: Result<Slot, Error>)
    // These two clauses only let callers unfold the body; what the result
    // means is stated by CreateElementEach.
    ensures tag.Name? ==> r == Ok(Elem(Node(NormalizeTag(tag.name), props, NormalizeChildren(children))))
    ensures tag.Component? ==> r == tag.call(props, NormalizeChildren(children))
  {
    var kids := NormalizeChildren(children);
    match tag
    case Name(name) => Ok(Elem(Node(NormalizeTag(name), props, kids)))
    case Component(call) => call(props, kids)
  }

  /**
   * `kids` are the flattened children `flat`, position by position, except
   * that each string became a text node whose only prop is `nodeValue`,
   * bound to that string.
   */
  predicate WrappedChildren(flat: seq<Slot>, kids: seq<Slot>) {
    |kids| == |flat| &&
    forall i :: 0 <= i < |flat| ==>
      if flat[i].Raw? then
        kids[i].Elem? && kids[i].node.kind == TextKind && kids[i].node.children == [] &&
        kids[i].node.props == [("nodeValue", Str(flat[i].text))]
      else kids[i] == flat[i]
  }

  /** The stored children are `children.flat()` with every string wrapped as a text node, in place. */
  lemma NormalizeChildrenEach(children: seq<Slot>)
    ensures WrappedChildren(Flat1(children), NormalizeChildren(children))
  {
  }

  /**
   * `createElement` with a tag name gives a node of the normalized type with
   * exactly the given props, holding the wrapped, flattened children; with a
   * component it calls the component once with the props and those children
   * and returns what the component returns.
   */
  lemma CreateElementEach(tag: Tag, props: Props, children: seq<Slot>)
    ensures var r := CreateElement(tag, props, children);
      tag.Name? ==>
        r.Ok? && r.value.Elem? && r.value.node.kind == NormalizeTag(tag.name) && r.value.node.props == props &&
        WrappedChildren(Flat1(children), r.value.node.children)
    ensures tag.Component? ==>
      WrappedChildren(Flat1(children), NormalizeChildren(children)) &&
      CreateElement(tag, props, children) == tag.call(props, NormalizeChildren(children))
  {
    NormalizeChildrenEach(children);
  }

  /** `<name {...props}>{...children}</name>`, which cannot fail. */
  function Element(name: string, props: Props, children: seq<Slot>): (r: Slot)
    ensures r.Elem? && r.node.kind == NormalizeTag(name) && r.node.props == props
    ensures CreateElement(Name(name), props, children) == Ok(r)
  {
    Elem(Node(NormalizeTag(name), props, NormalizeChildren(children)))
  }

  /** `Fragment`: the children, unchanged, as an array. */
  function Fragment(props: Props, children: seq<Slot>): (r: Result<Slot, Error>)
    ensures r == Ok(Many(children))
  {
    Ok(Many(children))
  }

  // ---------------------------------------------------------------- props

  function PropName(p: (string, Value)): string {
    p.0
  }

  /** `Object.keys(props)`: each name once, in the order it was first bound. */
  function ObjectKeys(props: Props): (r: seq<string>)
    ensures Distinct(r)
    ensures forall k :: k in r <==> exists p :: p in props && PropName(p) == k
  {
    KeysDistinct(props, PropName);
    KeysOf(props, PropName)
  }

  /** `props[k]`: the last binding of `k`, or `undefined`. */
  function Lookup(props: Props, k: string): Value {
    if props == [] then Undefined
    else
      var last := props[|props| - 1];
      if last.0 == k then last.1 else Lookup(props[..|props| - 1], k)
  }

  /** `props[k]` is the value of the last binding of `k`. */
  lemma {:induction false} LookupAt(props: Props, i: nat)
    requires i < |props|
    requires forall j :: i < j < |props| ==> props[j].0 != props[i].0
    ensures Lookup(props, props[i].0) == props[i].1
  {
    if i < |props| - 1 {
      LookupAt(props[..|props| - 1], i);
    }
  }

  /** A name bound to something other than `undefined` is one of the keys. */
  lemma {:induction false} LookupKey(props: Props, k: string)
    ensures Lookup(props, k) != Undefined ==> k in ObjectKeys(props)
  {
    if props != [] {
      var last := props[|props| - 1];
      assert last in props;
      LookupKey(props[..|props| - 1], k);
    }
  }

  /** A prop becomes an attribute unless it is `children` or `nodeValue` or bound to `undefined`. */
  predicate Emits(props: Props, k: string) {
    k != "children" && k != "nodeValue" && Lookup(props, k) != Undefined
  }

  function AttributeList(props: Props, keys: seq<string>): (r: seq<(string, string)>)
    ensures forall p :: p in r ==> p.0 in keys
  {
    if keys == [] then []
    else
      var k := keys[|keys| - 1];
      AttributeList(props, keys[..|keys| - 1]) + (if Emits(props, k) then [(k, Stringify(Lookup(props, k)))] else [])
  }

  /** The attributes of the element rendered for these props, in key order. */
  function Attributes(props: Props): seq<(string, string)> {
    AttributeList(props, ObjectKeys(props))
  }

  lemma {:induction false} AttributeListExact(props: Props, keys: seq<string>, name: string, value: string)
    ensures (name, value) in AttributeList(props, keys) <==>
      name in keys && Emits(props, name) && value == Stringify(Lookup(props, name))
    decreases |keys|
  {
    if keys != [] {
      AttributeListExact(props, keys[..|keys| - 1], name, value);
      assert keys == keys[..|keys| - 1] + [keys[|keys| - 1]];
    }
  }

  /**
   * The emitted attributes are exactly the props other than `children` and
   * `nodeValue` that are not `undefined`, each with its value's text; and no
   * name appears twice.
   */
  lemma AttributesExact(props: Props, name: string, value: string)
    ensures (name, value) in Attributes(props) <==>
      name != "children" && name != "nodeValue" && Lookup(props, name) != Undefined &&
      value == Stringify(Lookup(props, name))
  {
    AttributeListExact(props, ObjectKeys(props), name, value);
    LookupKey(props, name);
  }

  lemma {:induction false} AttributeListDistinct(props: Props, keys: seq<string>)
    requires Distinct(keys)
    ensures forall i, j :: 0 <= i < j < |AttributeList(props, keys)| ==>
      AttributeList(props, keys)[i].0 != AttributeList(props, keys)[j].0
    decreases |keys|
  {
    if keys != [] {
      var init := keys[..|keys| - 1];
      AttributeListDistinct(props, init);
      var a := AttributeList(props, init);
      forall i | 0 <= i < |a| ensures a[i].0 != keys[|keys| - 1] {
        assert a[i] in a;
      }
    }
  }

  /** The value a text node shows: its `nodeValue` when that is a string, otherwise empty. */
  function TextValue(props: Props): string {
    match Lookup(props, "nodeValue")
    case Str(s) => s
    case _ => ""
  }

  // ------------------------------------------------------------- rendering

  /** `await s`: a promise becomes what it settles to; anything else stays as it is. */
  function Settle(s: Slot): (r: Result<Slot, Error>)
    ensures r.Ok? ==> !r.value.Pending? && !r.value.Rejected? && SlotSize(r.value) <= SlotSize(s)
  {
    match s
    case Pending(v) => Settle(v)
    case Rejected(e) => Err(e)
    case _ => Ok(s)
  }

  /** `Promise.all(ss)`, settled one after another: the first rejection in order wins. */
  function SettleAll(ss: seq<Slot>): (r: Result<seq<Slot>, Error>)
    ensures r.Ok? ==> |r.value| == |ss| && SlotsSize(r.value) <= SlotsSize(ss)
    ensures r.Ok? ==> forall i :: 0 <= i < |ss| ==> Settle(ss[i]) == Ok(r.value[i])
  {
    if ss == [] then Ok([])
    else
      var init :- SettleAll(ss[..|ss| - 1]);
      var last :- Settle(ss[|ss| - 1]);
      SlotsSizeAppend(init, [last]);
      Ok(init + [last])
  }

  /** `Promise.all` fulfils exactly when every slot settles without a rejection. */
  lemma {:induction false} SettleAllEach(ss: seq<Slot>)
    ensures SettleAll(ss).Ok? <==> forall i :: 0 <= i < |ss| ==> Settle(ss[i]).Ok?
    decreases |ss|
  {
    if ss != [] {
      var init := ss[..|ss| - 1];
      assert forall i :: 0 <= i < |init| ==> init[i] == ss[i];
      SettleAllEach(init);
      if SettleAll(init).Err? {
        var i :| 0 <= i < |init| && Settle(init[i]).Err?;
      }
    }
  }

  /** When some slot rejects, `Promise.all` rejects with the first rejection in order. */
  lemma {:induction false} SettleAllFirstRejection(ss: seq<Slot>, i: nat)
    requires i < |ss| && Settle(ss[i]).Err?
    requires forall j :: 0 <= j < i ==> Settle(ss[j]).Ok?
    ensures SettleAll(ss) == Err(Settle(ss[i]).error)
    decreases |ss|
  {
    var init := ss[..|ss| - 1];
    assert forall j :: 0 <= j < |init| ==> init[j] == ss[j];
    if i == |ss| - 1 {
      SettleAllEach(init);
    } else {
      SettleAllFirstRejection(init, i);
    }
  }

  /** `(await Promise.all(children.flat())).flat()`: the items rendered below an element. */
  function ChildItems(children: seq<Slot>): (r: Result<seq<Slot>, Error>)
    ensures r.Ok? ==> SlotsSize(r.value) <= SlotsSize(children)
  {
    Flat1Size(children);
    var settled :- SettleAll(Flat1(children));
    Flat1Size(settled);
    Ok(Flat1(settled))
  }

  /** The tree `render2` builds for a node. */
  function RenderNode(n: Node): (r: Result<Xml, Error>)
    decreases NodeSize(n), 2
  {
    if n.kind == TextKind then Ok(XText(TextValue(n.props)))
    else
      var items :- ChildItems(n.children);
      var kids :- RenderItems(items);
      Ok(XElement(n.kind, Attributes(n.props), kids))
  }

  /** The children of one element, rendered in order; the first failure in order wins. */
  function RenderItems(items: seq<Slot>): (r: Result<seq<Xml>, Error>)
    ensures r.Ok? ==> |r.value| == |items|
    decreases SlotsSize(items), 1
  {
    if items == [] then Ok([])
    else
      var init :- RenderItems(items[..|items| - 1]);
      var last :- RenderItem(items[|items| - 1]);
      Ok(init + [last])
  }

  /** `render(item, parent)`: the item is awaited and must then be a node. */
  function RenderItem(item: Slot): (r: Result<Xml, Error>)
    decreases SlotSize(item), 0
  {
    var v :- Settle(item);
    if v.Elem? then RenderNode(v.node) else Err(NotANode)
  }

  /**
   * Rendering the children succeeds exactly when every child renders, and then
   * each child's tree lands at its own position, once.
   */
  lemma {:induction false} RenderItemsEach(items: seq<Slot>)
    ensures RenderItems(items).Ok? <==> forall i :: 0 <= i < |items| ==> RenderItem(items[i]).Ok?
    ensures RenderItems(items).Ok? ==>
      forall i :: 0 <= i < |items| ==> RenderItem(items[i]) == Ok(RenderItems(items).value[i])
    decreases |items|
  {
    if items != [] {
      var init, last := items[..|items| - 1], items[|items| - 1];
      RenderItemsEach(init);
      var front, back := RenderItems(init), RenderItem(last);
      if front.Ok? && back.Ok? {
        var all := front.value + [back.value];
        assert RenderItems(items) == Ok(all);
        forall i | 0 <= i < |items|
          ensures RenderItem(items[i]) == Ok(all[i])
        {
          if i < |init| {
            assert items[i] == init[i];
          }
        }
      } else if front.Err? {
        assert RenderItems(items).Err?;
        var i :| 0 <= i < |init| && RenderItem(init[i]).Err?;
        assert items[i] == init[i];
      } else {
        assert RenderItems(items).Err?;
        assert items[|items| - 1] == last;
      }
    }
  }

  /** When some child fails, the first failing child's error is the result. */
  lemma {:induction false} RenderItemsFirstError(items: seq<Slot>, i: nat)
    requires i < |items| && RenderItem(items[i]).Err?
    requires forall j :: 0 <= j < i ==> RenderItem(items[j]).Ok?
    ensures RenderItems(items) == Err(RenderItem(items[i]).error)
    decreases |items|
  {
    var init := items[..|items| - 1];
    assert forall j :: 0 <= j < |init| ==> init[j] == items[j];
    if i == |items| - 1 {
      RenderItemsEach(init);
    } else {
      RenderItemsFirstError(init, i);
    }
  }

  /**
   * A fragment whose children are not arrays renders as if its children stood
   * in its place: `<>` adds no element of its own.
   */
  lemma FragmentTransparent(kind: string, props: Props, before: seq<Slot>, kids: seq<Slot>, after: seq<Slot>)
    requires forall i :: 0 <= i < |kids| ==> !kids[i].Many?
    ensures Fragment([], kids) == Ok(Many(kids))
    ensures RenderNode(Node(kind, props, before + [Many(kids)] + after)) ==
            RenderNode(Node(kind, props, before + kids + after))
  {
    Flat1Append(before + [Many(kids)], after);
    Flat1Append(before, [Many(kids)]);
    Flat1Append(before + kids, after);
    Flat1Append(before, kids);
    Flat1Flat(kids);
    assert Flat1([Many(kids)]) == kids by {
      Flat1Snoc([], Many(kids));
    }
  }

  /** A string child renders as text only once `createElement` has wrapped it; unwrapped it is not a node. */
  lemma TextChildren(text: string)
    ensures RenderNode(CreateTextElement(text)) == Ok(XText(text))
    ensures NormalizeChildren([Raw(text)]) == [Elem(CreateTextElement(text))]
    ensures RenderItem(Raw(text)) == Err(NotANode)
  {
    assert CreateTextElement(text).kind == TextKind;
    assert Settle(Raw(text)) == Ok(Raw(text));
    Flat1Snoc([], Raw(text));
    assert Flat1([Raw(text)]) == [Raw(text)];
  }

  /**
   * A text node renders as text, whatever its children: its `nodeValue` when
   * that is a string, and the empty string otherwise.
   */
  lemma TextNodeRender(props: Props, children: seq<Slot>, text: string)
    ensures RenderNode(Node(TextKind, props, children)) == Ok(XText(text)) <==>
      Lookup(props, "nodeValue") == Str(text) || (!Lookup(props, "nodeValue").Str? && text == "")
  {
  }
}
