/**
 * The function components of the manifest: `SegmentInfo` and the
 * asynchronous `OTFSegmentInfo`, `AudioRepresentation`, `VideoRepresentation`
 * and the adaptation sets built from a list of formats. A component that
 * throws while it runs gives `Err`; the asynchronous component gives a promise,
 * which is a `Pending` slot when it fulfils and a `Rejected` one when it
 * rejects.
 */
module ManifestComponents {
  import opened Wrappers
  import opened Strings
  import opened Seqs
  import opened JsValues
  import opened Formats
  import opened Errors
  import opened DashUtils
  import opened OtfSegments

  /**
   * What the components take from outside: the URL deciphering of a format
   * (`format.decipher(player)`), setting the `cpn` search parameter of a URL,
   * the optional URL transformer, the optional client playback nonce and the
   * optional HTTP fetch of the `actions` instance.
   */
  datatype Env = Env(
    decipher: Format -> string,
    withCpn: (string, string) -> string,
    transformURL: Option<string -> string>,
    cpn: Option<string>,
    fetch: Option<string -> ProbeResponse>)

  /** The URL of a format's stream as a representation writes it. */
  function StreamUrl(env: Env, f: Format): string {
    var url := env.withCpn(env.decipher(f), env.cpn.GetOr(""));
    match env.transformURL
    case Some(transform) => transform(url)
    case None => url
  }

  lemma DigitsNoDash(s: string)
    requires AllDigits(s)
    ensures '-' !in s
  {
    forall k | 0 <= k < |s| ensures s[k] != '-' {
      assert IsDigit(s[k]);
    }
  }

  /** `${range.start}-${range.end}`. */
  function RangeText(range: Range): string {
    NatText(range.start) + "-" + NatText(range.end)
  }

  /** A byte range's text splits at its one dash into both numbers, and reads back as its start. */
  lemma RangeTextParts(range: Range)
    ensures Split(RangeText(range), '-') == [NatText(range.start), NatText(range.end)]
    ensures ParseInt(RangeText(range)) == Int(range.start)
  {
    var a, b := NatText(range.start), NatText(range.end);
    DigitsNoDash(a);
    DigitsNoDash(b);
    assert Join([a, b], '-') == a + "-" + b;
    SplitJoin([a, b], '-');
    ParseIntNatText(range.start, "-" + b);
    assert a + "-" + b == a + ("-" + b);
  }

  // ------------------------------------------------------------- segments

  function RepeatValue(count: Option<ParsedInt>): Value {
    match count
    case Some(p) => FromParsed(p)
    case None => Undefined
  }

  /** `<s d={duration} r={repeat_count} />`. */
  function TimelineEntry(d: SegmentDuration): Slot {
    Element("s", [("d", FromParsed(d.duration)), ("r", RepeatValue(d.repeatCount))], [])
  }

  function TimelineEntries(ds: seq<SegmentDuration>): (r: seq<Slot>)
    ensures |r| == |ds|
    ensures forall i :: 0 <= i < |r| ==> r[i] == TimelineEntry(ds[i])
  {
    seq(|ds|, i requires 0 <= i < |ds| => TimelineEntry(ds[i]))
  }

  /** The segment template of an OTF stream, numbered from 1 in milliseconds. */
  function SegmentTemplate(info: OtfSegmentInfo): Slot {
    Element("segment-template", TemplateProps(info),
      [Element("segment-timeline", [], [Many(TimelineEntries(info.segmentDurations))])])
  }

  function TemplateProps(info: OtfSegmentInfo): Props {
    [("startNumber", Str("1")), ("timescale", Str("1000")),
     ("initialization", Str(info.resolvedUrl + "&sq=0")),
     ("media", Str(info.resolvedUrl + "&sq=$Number$"))]
  }

  /** Children that are all nodes are stored as they are. */
  lemma NormalizeNodes(items: seq<Slot>)
    requires forall i :: 0 <= i < |items| ==> items[i].Elem?
    ensures NormalizeChildren(items) == items
  {
    Flat1Flat(items);
  }

  /** Nodes followed by an array of nodes: the array is spliced in after them. */
  lemma NormalizeNodesThenMany(heads: seq<Slot>, items: seq<Slot>)
    requires forall i :: 0 <= i < |heads| ==> heads[i].Elem?
    requires forall i :: 0 <= i < |items| ==> items[i].Elem?
    ensures NormalizeChildren(heads + [Many(items)]) == heads + items
  {
    Flat1Snoc(heads, Many(items));
    Flat1Flat(heads);
    var flat := heads + items;
    assert Flat1(heads + [Many(items)]) == flat;
    assert forall i :: 0 <= i < |flat| ==> flat[i].Elem?;
  }

  /** A single child that is an array of non-strings (or one non-string) is spliced in. */
  lemma NormalizeOne(s: Slot)
    requires forall i :: 0 <= i < |Spliced(s)| ==> !Spliced(s)[i].Raw?
    ensures NormalizeChildren([s]) == Spliced(s)
  {
    assert [s] == [] + [s];
    Flat1Snoc([], s);
    assert Flat1([s]) == Spliced(s);
  }

  lemma TemplateLookups(info: OtfSegmentInfo)
    ensures var props := TemplateProps(info);
      Lookup(props, "media") == Str(info.resolvedUrl + "&sq=$Number$") &&
      Lookup(props, "initialization") == Str(info.resolvedUrl + "&sq=0") &&
      Lookup(props, "startNumber") == Str("1") && Lookup(props, "timescale") == Str("1000")
  {
    var props := TemplateProps(info);
    LookupAt(props, 0);
    LookupAt(props, 1);
    LookupAt(props, 2);
    LookupAt(props, 3);
  }

  /**
   * The template numbers media segments from 1 in milliseconds, addressed from
   * the resolved URL, and its one child, the timeline, holds one `s` element
   * per parsed duration, in the order the durations were listed.
   */
  lemma TemplateTimeline(info: OtfSegmentInfo)
    ensures var t := SegmentTemplate(info).node;
      |t.children| == 1 && t.children[0].Elem? &&
      var timeline := t.children[0].node;
      timeline.kind == NormalizeTag("segment-timeline") &&
      timeline.children == TimelineEntries(info.segmentDurations) &&
      Lookup(t.props, "media") == Str(info.resolvedUrl + "&sq=$Number$") &&
      Lookup(t.props, "initialization") == Str(info.resolvedUrl + "&sq=0") &&
      Lookup(t.props, "startNumber") == Str("1") && Lookup(t.props, "timescale") == Str("1000")
  {
    TemplateLookups(info);
    var entries := TimelineEntries(info.segmentDurations);
    NormalizeOne(Many(entries));
    NormalizeNodes([Element("segment-timeline", [], [Many(entries)])]);
  }

  /** An `s` element carries `r` exactly when the entry had a repeat count. */
  lemma TimelineRepeat(d: SegmentDuration, value: string)
    ensures ("r", value) in Attributes(TimelineEntry(d).node.props) <==>
      d.repeatCount.Some? && value == Stringify(FromParsed(d.repeatCount.value))
    ensures ("d", Stringify(FromParsed(d.duration))) in Attributes(TimelineEntry(d).node.props)
  {
    var props := TimelineEntry(d).node.props;
    AttributesExact(props, "r", value);
    AttributesExact(props, "d", Stringify(FromParsed(d.duration)));
    assert Lookup(props, "d") == FromParsed(d.duration);
    assert FromParsed(d.duration) != Undefined;
  }

  /**
   * `<OTFSegmentInfo />`: a promise that rejects when there is no fetch or the
   * probe has no durations line, and otherwise fulfils with the segment
   * template built from the probe.
   */
  function OTFSegmentInfo(f: Format, url: string, fetch: Option<string -> ProbeResponse>): (r: Slot)
    ensures r.Pending? || r.Rejected?
    ensures fetch.None? ==> r == Rejected(MissingActions(f))
    ensures fetch.Some? ==> (r.Rejected? <==> SegmentInfoOf(url, fetch.value(ProbeUrl(url))).Err?)
    ensures r.Pending? ==> r.resolved.Elem? && r.resolved.node.kind == NormalizeTag("segment-template")
  {
    match fetch
    case None => Rejected(MissingActions(f))
    case Some(get) =>
      match SegmentInfoOf(url, get(ProbeUrl(url)))
      case Err(e) => Rejected(e)
      case Ok(info) => Pending(SegmentTemplate(info))
  }

  /**
   * With a fetch, the promise fulfils with the template of the segment info
   * read from the probe's response, or rejects with that reading's error.
   */
  lemma OTFSegmentInfoProbe(f: Format, url: string, get: string -> ProbeResponse)
    ensures var r := OTFSegmentInfo(f, url, Some(get)); var info := SegmentInfoOf(url, get(ProbeUrl(url)));
      (r.Pending? ==> info.Ok? && r.resolved == SegmentTemplate(info.value)) &&
      (r.Rejected? ==> info.Err? && r.error == info.error)
  {
  }

  /**
   * `<SegmentInfo />`: the OTF template for an OTF stream; otherwise a fragment
   * of the base URL and the segment base with the index and init ranges. It
   * throws exactly when a format that is not OTF lacks either range.
   */
  function SegmentInfo(f: Format, url: string, fetch: Option<string -> ProbeResponse>): (r: Result<Slot, Error>)
    ensures r.Ok? <==> Addressable(f)
    ensures r.Err? ==> r.error == RangesUnavailable(f)
    ensures f.isTypeOtf ==> r == Ok(OTFSegmentInfo(f, url, fetch))
    ensures r.Ok? && !f.isTypeOtf ==>
      r.value == Many([BaseUrlElement(url), SegmentBaseElement(f.indexRange.value, f.initRange.value)])
  {
    if f.isTypeOtf then Ok(OTFSegmentInfo(f, url, fetch))
    else if f.indexRange.None? || f.initRange.None? then Err(RangesUnavailable(f))
    else
      var parts := [BaseUrlElement(url), SegmentBaseElement(f.indexRange.value, f.initRange.value)];
      NormalizeNodes(parts);
      CreateElement(Component(Fragment), [], parts)
  }

  /** `<base-url>{url}</base-url>`. */
  function BaseUrlElement(url: string): (r: Slot)
    ensures r.Elem?
  {
    Element("base-url", [], [Raw(url)])
  }

  /** `<segment-base indexRange=...><initialization range=... /></segment-base>`. */
  function SegmentBaseElement(indexRange: Range, initRange: Range): (r: Slot)
    ensures r.Elem?
  {
    Element("segment-base", [("indexRange", Str(RangeText(indexRange)))],
      [Element("initialization", [("range", Str(RangeText(initRange)))], [])])
  }

  /**
   * The static segment information: a `BaseURL` holding the URL as its text,
   * then a `SegmentBase` carrying the index range, whose one child is the
   * `Initialization` element carrying the init range.
   */
  lemma SegmentBaseParts(url: string, indexRange: Range, initRange: Range)
    ensures var base := BaseUrlElement(url).node;
      base.kind == "BaseURL" && base.props == [] && base.children == [Elem(CreateTextElement(url))]
    ensures var sb := SegmentBaseElement(indexRange, initRange).node;
      sb.kind == NormalizeTag("segment-base") && Lookup(sb.props, "indexRange") == Str(RangeText(indexRange)) &&
      |sb.children| == 1 && sb.children[0].Elem? &&
      sb.children[0].node.kind == NormalizeTag("initialization") &&
      Lookup(sb.children[0].node.props, "range") == Str(RangeText(initRange))
  {
    NormalizeSpecialTags();
    TextChildren(url);
    NormalizeNodes([Element("initialization", [("range", Str(RangeText(initRange)))], [])]);
  }

  // ------------------------------------------------------- representations

  /** `format.audio_channels || 2`: a missing or zero channel count becomes 2. */
  function Channels(f: Format): (r: nat)
    ensures r > 0
    ensures f.audioChannels.Some? && f.audioChannels.value != 0 ==> r == f.audioChannels.value
    ensures f.audioChannels.None? || f.audioChannels == Some(0) ==> r == 2
  {
    match f.audioChannels
    case Some(c) => if c != 0 then c else 2
    case None => 2
  }

  /** The `codecs` parameter of the MIME type, or `undefined` when there is none. */
  function Codecs(mimeType: string): (r: Value)
    ensures r == Undefined <==> Between(mimeType, "codecs=\"", "\"").None?
    ensures Between(mimeType, "codecs=\"", "\"").Some? ==> r == Str(Between(mimeType, "codecs=\"", "\"").value)
  {
    match Between(mimeType, "codecs=\"", "\"")
    case Some(c) => Str(c)
    case None => Undefined
  }

  /** The id of an audio representation: `itag-trackid` when the format has a track, else the itag. */
  function AudioId(f: Format): Value {
    if f.audioTrack.Some? then Str(NatText(f.itag) + "-" + f.audioTrack.value.id) else Num(f.itag)
  }

  /** The props of an audio representation. */
  function AudioProps(f: Format): Props {
    [("id", AudioId(f)), ("codecs", Codecs(f.mimeType)), ("bandwidth", Num(f.bitrate)),
     ("audioSamplingRate", FromOption(f.audioSampleRate))]
  }

  /** The `id` attribute of an audio representation is `itag-trackid` when the format has a track, otherwise the itag. */
  lemma AudioIdAttribute(f: Format, value: string)
    ensures ("id", value) in Attributes(AudioProps(f)) <==>
      value == if f.audioTrack.Some? then NatText(f.itag) + "-" + f.audioTrack.value.id else NatText(f.itag)
  {
    LookupAt(AudioProps(f), 0);
    AttributesExact(AudioProps(f), "id", value);
  }

  /** The props of a video representation. */
  function VideoProps(f: Format): Props {
    [("id", Str(NatText(f.itag))), ("codecs", Codecs(f.mimeType)), ("bandwidth", Num(f.bitrate)),
     ("width", FromOption(f.width)), ("height", FromOption(f.height)),
     ("maxPlayoutRate", Str("1")), ("frameRate", FromOption(f.fps))]
  }

  /**
   * A video representation's `id` attribute is the itag and its
   * `maxPlayoutRate` is 1; a format without a frame rate gets no `frameRate`
   * attribute at all.
   */
  lemma VideoAttributes(f: Format, value: string)
    ensures ("id", value) in Attributes(VideoProps(f)) <==> value == NatText(f.itag)
    ensures ("maxPlayoutRate", value) in Attributes(VideoProps(f)) <==> value == "1"
    ensures f.fps.None? ==> ("frameRate", value) !in Attributes(VideoProps(f))
  {
    var props := VideoProps(f);
    LookupAt(props, 0);
    LookupAt(props, 5);
    LookupAt(props, 6);
    AttributesExact(props, "id", value);
    AttributesExact(props, "maxPlayoutRate", value);
    AttributesExact(props, "frameRate", value);
  }

  /** A node followed by the segment information: the fragment's parts are spliced in. */
  lemma NormalizeWithSegments(first: Slot, segments: Slot)
    requires first.Elem?
    requires forall i :: 0 <= i < |Spliced(segments)| ==> !Spliced(segments)[i].Raw?
    ensures NormalizeChildren([first, segments]) == [first] + Spliced(segments)
  {
    assert [first][..0] == [];
    assert Flat1([first]) == [first];
    assert [first, segments][..1] == [first];
    var flat := [first] + Spliced(segments);
    assert Flat1([first, segments]) == flat;
    assert forall i :: 0 <= i < |flat| ==> Wrap(flat[i]) == flat[i];
  }

  /** What `SegmentInfo` yields is a node, a promise or a fragment of nodes: never a bare string. */
  lemma SegmentPartsNotRaw(f: Format, url: string, fetch: Option<string -> ProbeResponse>)
    requires Addressable(f)
    ensures var s := SegmentInfo(f, url, fetch).value;
      forall i :: 0 <= i < |Spliced(s)| ==> !Spliced(s)[i].Raw?
  {
  }

  /**
   * `<AudioRepresentation />`: a representation whose first child is the
   * channel configuration and whose remaining children are the segment
   * information of the format's stream URL. It throws exactly when the
   * segment information does.
   */
  function AudioRepresentation(env: Env, f: Format): (r: Result<Slot, Error>)
    ensures r.Ok? <==> Addressable(f)
    ensures r.Err? ==> r.error == RangesUnavailable(f)
    ensures r.Ok? ==>
      r.value.Elem? && r.value.node.kind == NormalizeTag("representation") && r.value.node.props == AudioProps(f) &&
      r.value.node.children == [AudioChannel(f)] + Spliced(SegmentInfo(f, StreamUrl(env, f), env.fetch).value)
  {
    var url := StreamUrl(env, f);
    var segments :- SegmentInfo(f, url, env.fetch);
    SegmentPartsNotRaw(f, url, env.fetch);
    Ok(AudioElement(f, segments))
  }

  const ChannelScheme: string := "urn:mpeg:dash:23003:3:audio_channel_configuration:2011"
  const RoleScheme: string := "urn:mpeg:dash:role:2011"

  /** The `audio-channel-configuration` element: two channels, in the MPEG-DASH scheme. */
  function AudioChannel(f: Format): (r: Slot)
    ensures r.Elem? && r.node.kind == NormalizeTag("audio-channel-configuration")
  {
    Element("audio-channel-configuration",
      [("schemeIdUri", Str(ChannelScheme)),
       ("value", Num(Channels(f)))], [])
  }

  /**
   * The `representation` element of an audio format: the channel
   * configuration, then the segment information spliced in.
   */
  function AudioElement(f: Format, segments: Slot): (r: Slot)
    requires forall i :: 0 <= i < |Spliced(segments)| ==> !Spliced(segments)[i].Raw?
    ensures r.Elem? && r.node.kind == NormalizeTag("representation")
    ensures r.node.props == AudioProps(f) && r.node.children == [AudioChannel(f)] + Spliced(segments)
  {
    var channel := AudioChannel(f);
    NormalizeWithSegments(channel, segments);
    Element("representation", AudioProps(f), [channel, segments])
  }

  /**
   * `<VideoRepresentation />`: a representation whose children are the
   * segment information of the format's stream URL. It throws exactly when
   * the segment information does.
   */
  function VideoRepresentation(env: Env, f: Format): (r: Result<Slot, Error>)
    ensures r.Ok? <==> Addressable(f)
    ensures r.Err? ==> r.error == RangesUnavailable(f)
    ensures r.Ok? ==>
      (r.value.Elem? && r.value.node.kind == NormalizeTag("representation") && r.value.node.props == VideoProps(f) &&
       r.value.node.children == Spliced(SegmentInfo(f, StreamUrl(env, f), env.fetch).value))
  {
    var url := StreamUrl(env, f);
    var segments :- SegmentInfo(f, url, env.fetch);
    SegmentPartsNotRaw(f, url, env.fetch);
    NormalizeOne(segments);
    Ok(Element("representation", VideoProps(f), [segments]))
  }

  /**
   * One representation per format, in order, as `formats.map(...)` builds
   * them: a video representation for a format with video unless the set is a
   * multi-track audio set, otherwise an audio representation. The first
   * representation that throws is the error.
   */
  function Representation(env: Env, f: Format, audioOnly: bool): Result<Slot, Error> {
    if !audioOnly && f.hasVideo then VideoRepresentation(env, f) else AudioRepresentation(env, f)
  }

  function Representations(env: Env, formats: seq<Format>, audioOnly: bool): (r: Result<seq<Slot>, Error>)
    ensures r.Ok? <==> AllAddressable(formats)
    ensures r.Ok? ==> |r.value| == |formats|
    ensures r.Ok? ==> forall i :: 0 <= i < |r.value| ==> r.value[i].Elem?
    ensures r.Err? ==> r.error.RangesUnavailable?
  {
    var rep := (f: Format) => Representation(env, f, audioOnly);
    forall f: Format ensures rep(f) == Representation(env, f, audioOnly) && (rep(f).Ok? <==> Addressable(f)) {
      RepresentationOk(env, f, audioOnly);
    }
    MapResult(rep, formats)
  }

  /** The representations are those of the formats, one for one and in order. */
  lemma RepresentationsEach(env: Env, formats: seq<Format>, audioOnly: bool)
    ensures var r := Representations(env, formats, audioOnly);
      r.Ok? ==> forall i :: 0 <= i < |formats| ==> Representation(env, formats[i], audioOnly) == Ok(r.value[i])
  {
    var rep := (f: Format) => Representation(env, f, audioOnly);
    assert Representations(env, formats, audioOnly) == MapResult(rep, formats);
  }

  lemma RepresentationOk(env: Env, f: Format, audioOnly: bool)
    ensures Representation(env, f, audioOnly).Ok? <==> Addressable(f)
    ensures Representation(env, f, audioOnly).Ok? ==> Representation(env, f, audioOnly).value.Elem?
    ensures Representation(env, f, audioOnly).Err? ==> Representation(env, f, audioOnly).error.RangesUnavailable?
  {
  }

  // ------------------------------------------------------ adaptation sets

  /**
   * `type.split(';').shift()`: the MIME type up to its first `;`, which is
   * the whole type when it has no parameters.
   */
  function MimeEssence(mimeType: string): (r: string)
    ensures ';' !in r
    ensures |r| <= |mimeType| && mimeType[..|r|] == r
    ensures |r| < |mimeType| ==> mimeType[|r|] == ';'
  {
    SplitHead(mimeType, ';');
    Split(mimeType, ';')[0]
  }

  /** The DASH role of an audio track: the default track first, then dubbed, then descriptive. */
  function RoleOf(f: Format): string {
    if f.audioTrack.Some? && f.audioTrack.value.audioIsDefault then "main"
    else if f.isDubbed then "dub"
    else if f.isDescriptive then "description"
    else "alternate"
  }

  /** The role is decided by the first of these that holds: default track, dubbed, descriptive. */
  lemma RolePriority(f: Format)
    ensures RoleOf(f) == "main" <==> f.audioTrack.Some? && f.audioTrack.value.audioIsDefault
    ensures RoleOf(f) == "dub" <==> !(f.audioTrack.Some? && f.audioTrack.value.audioIsDefault) && f.isDubbed
    ensures RoleOf(f) == "description" <==>
      !(f.audioTrack.Some? && f.audioTrack.value.audioIsDefault) && !f.isDubbed && f.isDescriptive
    ensures RoleOf(f) in {"main", "dub", "description", "alternate"}
  {
  }

  /** `first_format.audio_track?.display_name`. */
  function TrackName(f: Format): Value {
    if f.audioTrack.Some? then Str(f.audioTrack.value.displayName) else Undefined
  }

  function TrackSetProps(mimeType: string, first: Format, id: nat): Props {
    [("id", Num(id)), ("mimeType", Str(MimeEssence(mimeType))), ("startWithSAP", Str("1")),
     ("subsegmentAlignment", Str("true")), ("lang", first.language), ("label", TrackName(first))]
  }

  function SetProps(mimeType: string, id: nat): Props {
    [("id", Num(id)), ("mimeType", Str(MimeEssence(mimeType))), ("startWithSAP", Str("1")),
     ("subsegmentAlignment", Str("true"))]
  }

  /** An adaptation set numbered `id`. */
  predicate IsSet(s: Slot, id: nat) {
    s.Elem? && s.node.kind == NormalizeTag("adaptation-set") && Lookup(s.node.props, "id") == Num(id)
  }

  lemma TrackSetPropsId(mimeType: string, first: Format, id: nat)
    ensures Lookup(TrackSetProps(mimeType, first, id), "id") == Num(id)
  {
    LookupAt(TrackSetProps(mimeType, first, id), 0);
  }

  lemma SetPropsId(mimeType: string, id: nat)
    ensures Lookup(SetProps(mimeType, id), "id") == Num(id)
  {
    LookupAt(SetProps(mimeType, id), 0);
  }

  /** `<role schemeIdUri=... value={role} />`. */
  function RoleElement(first: Format): Slot {
    Element("role", [("schemeIdUri", Str(RoleScheme)), ("value", Str(RoleOf(first)))], [])
  }

  /** `<label id={set_id}>{display_name}</label>`. */
  function LabelElement(first: Format, id: nat): Slot
    requires first.audioTrack.Some?
  {
    Element("label", [("id", Num(id))], [Raw(first.audioTrack.value.displayName)])
  }

  /**
   * The adaptation set of one audio track, around its representations:
   * numbered `id`, with the role of the track's first format and a label
   * element carrying the same id, then the representations in order.
   */
  function TrackSetOf(mimeType: string, first: Format, id: nat, reps: seq<Slot>): Slot
    requires first.audioTrack.Some?
  {
    Element("adaptation-set", TrackSetProps(mimeType, first, id),
      [RoleElement(first), LabelElement(first, id)] + [Many(reps)])
  }

  /**
   * A track's set carries its id twice, on the set and on its label element;
   * its children are the role, the label and the representations.
   */
  lemma TrackSetShape(mimeType: string, first: Format, id: nat, reps: seq<Slot>)
    requires first.audioTrack.Some?
    requires forall i :: 0 <= i < |reps| ==> reps[i].Elem?
    ensures var s := TrackSetOf(mimeType, first, id, reps);
      IsSet(s, id) && s.node.children == [RoleElement(first), LabelElement(first, id)] + reps &&
      Lookup(LabelElement(first, id).node.props, "id") == Num(id) &&
      Lookup(RoleElement(first).node.props, "value") == Str(RoleOf(first))
  {
    NormalizeNodesThenMany([RoleElement(first), LabelElement(first, id)], reps);
    TrackSetPropsId(mimeType, first, id);
    LookupAt(RoleElement(first).node.props, 1);
  }

  /**
   * `<adaptation-set>` of one audio track in a multi-track stream, with one
   * audio representation per format of the track. It throws exactly when one
   * of the formats cannot be addressed.
   */
  function TrackSet(env: Env, mimeType: string, formats: seq<Format>, id: nat): (r: Result<Slot, Error>)
    requires |formats| > 0 && formats[0].audioTrack.Some?
    ensures r.Ok? <==> AllAddressable(formats)
    ensures r.Err? ==> r.error.RangesUnavailable?
    ensures r.Ok? ==> r.value == TrackSetOf(mimeType, formats[0], id, Representations(env, formats, true).value)
  {
    var reps :- Representations(env, formats, true);
    Ok(TrackSetOf(mimeType, formats[0], id, reps))
  }

  /** The adaptation set of a MIME type without audio tracks, around its representations. */
  function SingleSetOf(mimeType: string, id: nat, reps: seq<Slot>): Slot {
    Element("adaptation-set", SetProps(mimeType, id), [Many(reps)])
  }

  lemma SingleSetShape(mimeType: string, id: nat, reps: seq<Slot>)
    requires forall i :: 0 <= i < |reps| ==> reps[i].Elem?
    ensures IsSet(SingleSetOf(mimeType, id, reps), id) && SingleSetOf(mimeType, id, reps).node.children == reps
  {
    NormalizeOne(Many(reps));
    SetPropsId(mimeType, id);
  }

  /**
   * `<adaptation-set>` of a MIME type without audio tracks, with one
   * representation per format. It throws exactly when one of the formats
   * cannot be addressed.
   */
  function SingleSet(env: Env, mimeType: string, formats: seq<Format>, id: nat): (r: Result<Slot, Error>)
    ensures r.Ok? <==> AllAddressable(formats)
    ensures r.Err? ==> r.error.RangesUnavailable?
    ensures r.Ok? ==> r.value == SingleSetOf(mimeType, id, Representations(env, formats, false).value)
  {
    var reps :- Representations(env, formats, false);
    Ok(SingleSetOf(mimeType, id, reps))
  }

  // ------------------------------------------------------------- duration

  /** The decimal digits of a fraction of a second, without trailing zeros. */
  function FractionDigits(ms: nat): (r: string)
    requires 0 < ms < 1000
    ensures 1 <= |r| <= 3 && AllDigits(r) && r[|r| - 1] != '0'
    ensures DigitsValue(r) * (if |r| == 1 then 100 else if |r| == 2 then 10 else 1) == ms
  {
    var a, b, c := ms / 100, ms / 10 % 10, ms % 10;
    DigitsOfThree(a, b, c);
    ThreeDigits(ms);
    if ms % 100 == 0 then [DigitChar(a)]
    else if ms % 10 == 0 then [DigitChar(a), DigitChar(b)]
    else [DigitChar(a), DigitChar(b), DigitChar(c)]
  }

  /** A number of milliseconds below a second, as its three decimal digits. */
  lemma ThreeDigits(ms: nat)
    requires 0 < ms < 1000
    ensures ms / 100 < 10 && ms / 10 % 10 < 10
    ensures ms == (ms / 100 * 10 + ms / 10 % 10) * 10 + ms % 10
    ensures ms % 100 == 0 ==> ms / 10 % 10 == 0 && ms % 10 == 0 && ms / 100 != 0 && ms == ms / 100 * 100
    ensures ms % 100 != 0 && ms % 10 == 0 ==> ms / 10 % 10 != 0 && ms == (ms / 100 * 10 + ms / 10 % 10) * 10
  {
  }

  lemma DigitsOfThree(a: nat, b: nat, c: nat)
    requires a < 10 && b < 10 && c < 10
    ensures DigitsValue([DigitChar(a)]) == a
    ensures DigitsValue([DigitChar(a), DigitChar(b)]) == a * 10 + b
    ensures DigitsValue([DigitChar(a), DigitChar(b), DigitChar(c)]) == (a * 10 + b) * 10 + c
  {
    assert [DigitChar(a)][..0] == [];
    assert [DigitChar(a), DigitChar(b)][..1] == [DigitChar(a)];
    assert [DigitChar(a), DigitChar(b), DigitChar(c)][..2] == [DigitChar(a), DigitChar(b)];
  }

  /**
   * `${approx_duration_ms / 1000}`: the whole seconds, then, when the
   * duration is not a whole number of seconds, a point and the fraction with
   * its trailing zeros dropped.
   */
  function DurationText(ms: nat): (r: string)
    // These two clauses only let callers unfold the body; what the text
    // means is stated by DurationTextMeaning.
    ensures ms % 1000 == 0 ==> r == NatText(ms / 1000)
    ensures ms % 1000 != 0 ==>
      r == NatText(ms / 1000) + "." + FractionDigits(ms % 1000)
  {
    if ms % 1000 == 0 then NatText(ms / 1000)
    else NatText(ms / 1000) + "." + FractionDigits(ms % 1000)
  }

  /**
   * What the duration text says: split at the point, the whole part is the
   * decimal of the whole seconds with no leading zero; a fractional part is
   * there exactly when the duration is not a whole number of seconds, has at
   * most three digits and no trailing zero, and scaled to thousandths it is
   * the milliseconds left over.
   */
  lemma DurationTextMeaning(ms: nat)
    ensures var parts := Split(DurationText(ms), '.');
      1 <= |parts| <= 2 && (|parts| == 2 <==> ms % 1000 != 0) &&
      AllDigits(parts[0]) && DigitsValue(parts[0]) == ms / 1000 && (|parts[0]| > 1 ==> parts[0][0] != '0') &&
      (|parts| == 2 ==>
        var frac := parts[1];
        1 <= |frac| <= 3 && AllDigits(frac) && frac[|frac| - 1] != '0' &&
        DigitsValue(frac) * (if |frac| == 1 then 100 else if |frac| == 2 then 10 else 1) == ms % 1000)
  {
    DurationTextParts(ms);
    NatTextValue(ms / 1000);
    if ms % 1000 != 0 {
      var frac := FractionDigits(ms % 1000);
      assert Split(DurationText(ms), '.')[1] == frac;
    }
  }

  /** The duration text splits at its point into the whole seconds and, when there is one, the fraction. */
  lemma DurationTextParts(ms: nat)
    ensures Split(DurationText(ms), '.') ==
      if ms % 1000 == 0 then [NatText(ms / 1000)] else [NatText(ms / 1000), FractionDigits(ms % 1000)]
  {
    var whole := NatText(ms / 1000);
    assert forall k :: 0 <= k < |whole| ==> whole[k] != '.';
    if ms % 1000 == 0 {
      assert DurationText(ms) == Join([whole], '.');
      SplitJoin([whole], '.');
    } else {
      var frac := FractionDigits(ms % 1000);
      assert forall k :: 0 <= k < |frac| ==> frac[k] != '.';
      assert DurationText(ms) == Join([whole, frac], '.') by {
        assert Join([whole, frac][1..], '.') == frac;
      }
      SplitJoin([whole, frac], '.');
    }
  }
}
