/**
 * What `toDash` returns when it succeeds: a document whose root is the `MPD`
 * element with the manifest's attributes, holding one `Period`, whose
 * children are the adaptation sets of every MIME bucket flattened into one
 * list, carrying the ids 0, 1, 2, ... in document order.
 */
module ManifestOutput {
  import opened Wrappers
  import opened Strings
  import opened JsValues
  import opened Formats
  import opened Errors
  import opened Dom
  import opened DashUtils
  import opened ManifestComponents
  import opened DashManifest

  /** The three element names of the manifest's outer levels, as `normalizeTag` spells them. */
  lemma ManifestTags()
    ensures NormalizeTag("mpd") == "MPD"
    ensures NormalizeTag("period") == "Period"
    ensures NormalizeTag("adaptation-set") == "AdaptationSet"
  {
    NormalizeSpecialTags();
    PeriodTag();
    SetTag();
  }

  lemma PeriodTag()
    ensures NormalizeTag("period") == "Period"
  {
    assert Join(["period"], '-') == "period";
    NormalizeSections(["period"]);
    assert UpperCase('p') == 'P';
    assert Capitalize("period") == "Period";
  }

  lemma SetTag()
    ensures NormalizeTag("adaptation-set") == "AdaptationSet"
  {
    var sections := ["adaptation", "set"];
    assert sections[1..] == ["set"];
    assert Join(sections, '-') == "adaptation-set";
    NormalizeSections(sections);
    SetSections();
    assert CapitalizeAll(sections) == Capitalize("adaptation") + CapitalizeAll(["set"]);
    assert "Adaptation" + "Set" == "AdaptationSet";
  }

  lemma SetSections()
    ensures Capitalize("adaptation") == "Adaptation" && CapitalizeAll(["set"]) == "Set"
  {
    assert UpperCase('a') == 'A' && UpperCase('s') == 'S';
    assert "adaptation"[1..] == "daptation";
    assert ['A'] + "daptation" == "Adaptation";
    assert Capitalize("set") == "Set";
  }

  /** Awaiting slots that are already nodes succeeds. */
  lemma {:induction false} SettleAllNodesOk(ss: seq<Slot>)
    requires forall i :: 0 <= i < |ss| ==> ss[i].Elem?
    ensures SettleAll(ss).Ok?
    decreases |ss|
  {
    if ss != [] {
      SettleAllNodesOk(ss[..|ss| - 1]);
    }
  }

  /** Awaiting slots that are already nodes leaves them as they are. */
  lemma SettleAllNodes(ss: seq<Slot>)
    requires forall i :: 0 <= i < |ss| ==> ss[i].Elem?
    ensures SettleAll(ss) == Ok(ss)
  {
    SettleAllNodesOk(ss);
    var r := SettleAll(ss).value;
    assert forall i :: 0 <= i < |ss| ==> Settle(ss[i]) == Ok(ss[i]);
    assert r == ss;
  }

  /** Children that flatten into nodes only are rendered as exactly that flattening. */
  lemma ChildItemsNodes(children: seq<Slot>)
    requires forall i :: 0 <= i < |Flat1(children)| ==> Flat1(children)[i].Elem?
    ensures ChildItems(children) == Ok(Flat1(children))
  {
    SettleAllNodes(Flat1(children));
    Flat1Flat(Flat1(children));
  }

  /** A child that is not an array shows up in the flattening, so when that holds only nodes no child is a string. */
  lemma {:induction false} NoRawChildren(children: seq<Slot>)
    requires forall i :: 0 <= i < |Flat1(children)| ==> Flat1(children)[i].Elem?
    ensures forall i :: 0 <= i < |children| ==> !children[i].Raw?
    decreases |children|
  {
    if children != [] {
      var init, last := children[..|children| - 1], children[|children| - 1];
      var front := Flat1(init);
      assert Flat1(children) == front + Spliced(last);
      assert forall i :: 0 <= i < |front| ==> front[i] == Flat1(children)[i];
      NoRawChildren(init);
      if last.Raw? {
        assert Flat1(children)[|front|] == last;
      }
      assert forall i :: 0 <= i < |init| ==> init[i] == children[i];
    }
  }

  /** Rendered adaptation sets whose `id` attributes count up from 0 in document order. */
  ghost predicate RenderedSets(kids: seq<Xml>) {
    forall k :: 0 <= k < |kids| ==>
      kids[k].XElement? && kids[k].name == "AdaptationSet" && ("id", Stringify(Num(k))) in kids[k].attributes
  }

  /**
   * A node that is not a text node renders, when it does, as an element of its
   * kind with its emitted props, whose children are its rendered child items.
   */
  lemma RenderedElement(s: Slot)
    requires s.Elem? && s.node.kind != TextKind
    ensures var r := RenderItem(s);
      r.Ok? ==>
        r.value.XElement? && r.value.name == s.node.kind && r.value.attributes == Attributes(s.node.props) &&
        ChildItems(s.node.children).Ok? && RenderItems(ChildItems(s.node.children).value) == Ok(r.value.children)
  {
    assert Settle(s) == Ok(s);
    assert RenderItem(s) == RenderNode(s.node);
  }

  /** A set numbered `k` renders, when it does, as an `AdaptationSet` element whose `id` attribute is `k`. */
  lemma RenderedSet(s: Slot, k: nat)
    requires IsSet(s, k)
    ensures var r := RenderItem(s);
      r.Ok? ==> r.value.XElement? && r.value.name == "AdaptationSet" && ("id", Stringify(Num(k))) in r.value.attributes
  {
    SetTag();
    var kind := s.node.kind;
    assert kind == "AdaptationSet";
    assert kind != TextKind;
    RenderedElement(s);
    AttributesExact(s.node.props, "id", Stringify(Num(k)));
  }

  /** Sets numbered from 0 render, when they do, as sets whose `id` attributes are their positions. */
  lemma RenderedSetsNumbered(sets: seq<Slot>)
    requires Numbered(sets, 0)
    ensures var r := RenderItems(sets);
      r.Ok? ==> |r.value| == |sets| && RenderedSets(r.value)
  {
    var r := RenderItems(sets);
    if r.Ok? {
      RenderItemsEach(sets);
      forall k | 0 <= k < |sets|
        ensures r.value[k].XElement? && r.value[k].name == "AdaptationSet"
        ensures ("id", Stringify(Num(k))) in r.value[k].attributes
      {
        assert IsSet(sets[k], 0 + k);
        assert RenderItem(sets[k]) == Ok(r.value[k]);
        RenderedSet(sets[k], k);
      }
    }
  }

  /**
   * The `period` element around children that flatten into sets numbered
   * from 0 renders, when it does, as `Period` holding the rendered sets in
   * order.
   */
  lemma PeriodRendered(children: seq<Slot>)
    requires Numbered(Flat1(children), 0)
    ensures var r := RenderItem(Element("period", [], [Many(children)]));
      r.Ok? ==>
        r.value.XElement? && r.value.name == "Period" &&
        |r.value.children| == |Flat1(children)| && RenderedSets(r.value.children)
  {
    var sets := Flat1(children);
    assert forall i :: 0 <= i < |sets| ==> IsSet(sets[i], 0 + i);
    NoRawChildren(children);
    NormalizeOne(Many(children));
    var period := Element("period", [], [Many(children)]);
    assert period.node.children == children;
    PeriodTag();
    RenderedElement(period);
    ChildItemsNodes(children);
    RenderedSetsNumbered(sets);
  }

  /**
   * A node with a single child node renders, when it does, as an element of
   * its kind with its emitted props and that child, rendered, as its only child.
   */
  lemma SingleChildRendered(s: Slot, child: Slot)
    requires s.Elem? && s.node.kind != TextKind && child.Elem?
    requires s.node.children == [child]
    ensures var r := RenderItem(s);
      r.Ok? ==>
        r.value.XElement? && r.value.name == s.node.kind && r.value.attributes == Attributes(s.node.props) &&
        |r.value.children| == 1 && RenderItem(child) == Ok(r.value.children[0])
  {
    Flat1Flat([child]);
    RenderedElement(s);
    ChildItemsNodes([child]);
    RenderItemsEach([child]);
  }

  /** The `mpd` element holds the `period` element as its only child. */
  lemma MpdShape(props: Props, children: seq<Slot>)
    ensures var mpd := Mpd(props, children);
      mpd.Elem? && mpd.node.kind == "MPD" && mpd.node.props == props &&
      mpd.node.children == [Element("period", [], [Many(children)])]
  {
    NormalizeNodes([Element("period", [], [Many(children)])]);
    NormalizeSpecialTags();
  }

  /**
   * The `mpd` element around that period renders, when it does, as `MPD`
   * with the given props as attributes and the rendered period as its only
   * child.
   */
  lemma MpdRendered(props: Props, children: seq<Slot>)
    requires Numbered(Flat1(children), 0)
    ensures var r := RenderItem(Mpd(props, children));
      r.Ok? ==>
        r.value.XElement? && r.value.name == "MPD" && r.value.attributes == Attributes(props) &&
        |r.value.children| == 1 && r.value.children[0].XElement? && r.value.children[0].name == "Period" &&
        |r.value.children[0].children| == |Flat1(children)| && RenderedSets(r.value.children[0].children)
  {
    MpdShape(props, children);
    SingleChildRendered(Mpd(props, children), Element("period", [], [Many(children)]));
    PeriodRendered(children);
  }

  /**
   * A rendered manifest for the kept formats: `MPD` with the duration of the
   * first format, holding one `Period` whose children are as many adaptation
   * sets as the MIME buckets use ids, their `id` attributes counting 0, 1,
   * 2, ... in document order.
   */
  ghost predicate RenderedManifest(x: Xml, formats: seq<Format>)
    requires |formats| > 0
  {
    var buckets := MimeBuckets(formats);
    x.XElement? && x.name == "MPD" &&
    |x.children| == 1 && x.children[0].XElement? && x.children[0].name == "Period" &&
    |x.children[0].children| == SetTotal(buckets, |buckets|) && RenderedSets(x.children[0].children) &&
    x.attributes == Attributes(MpdProps(DurationText(formats[0].approxDurationMs)))
  }

  /**
   * `<DashManifest />` builds exactly when some format is kept and every MIME
   * bucket builds; the buckets' formats can all be addressed, so the only
   * throw left for a bucket is a multi-track bucket with a format that has
   * no audio track.
   */
  lemma ManifestOfOk(env: Env, data: StreamingData, rejectFormat: Option<Format -> bool>)
    ensures var formats := Kept(data.adaptiveFormats, rejectFormat);
      ManifestOf(env, data, rejectFormat).Ok? <==> |formats| > 0 && BucketsOk(MimeBuckets(formats))
  {
  }

  /** A manifest that builds is the `mpd` element around the period of the kept formats' sets. */
  lemma ManifestOfMpd(env: Env, data: StreamingData, rejectFormat: Option<Format -> bool>)
    requires ManifestOf(env, data, rejectFormat).Ok?
    ensures var formats := Kept(data.adaptiveFormats, rejectFormat);
      |formats| > 0 &&
      var children := PeriodSets(env, MimeTypes(formats), MimeBuckets(formats));
      children.Ok? &&
      ManifestOf(env, data, rejectFormat) == Ok(Mpd(MpdProps(DurationText(formats[0].approxDurationMs)), children.value))
  {
  }

  /**
   * `toDash` end to end: when it returns a document, streaming data was
   * given, some format was kept, and the document is the rendered manifest
   * of the kept formats.
   */
  lemma ToDashOutput(env: Env, data: Option<StreamingData>, rejectFormat: Option<Format -> bool>)
    ensures var r := ToDashOf(env, data, rejectFormat);
      r.Ok? ==>
        data.Some? && |Kept(data.value.adaptiveFormats, rejectFormat)| > 0 &&
        RenderedManifest(r.value, Kept(data.value.adaptiveFormats, rejectFormat))
  {
    var r := ToDashOf(env, data, rejectFormat);
    if r.Ok? {
      var root := ManifestOf(env, data.value, rejectFormat);
      assert r == RenderItem(root.value);
      ManifestOfMpd(env, data.value, rejectFormat);
      var formats := Kept(data.value.adaptiveFormats, rejectFormat);
      var buckets := MimeBuckets(formats);
      var children := PeriodSets(env, MimeTypes(formats), buckets).value;
      MpdRendered(MpdProps(DurationText(formats[0].approxDurationMs)), children);
    }
  }
}
