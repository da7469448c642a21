# DASH manifest generator, modelled in Dafny

This project models the part of YouTube.js that turns a video's streaming data into an MPEG-DASH manifest (`toDash`). It has two cooperating parts.

**The JSX-style element toolkit** (`src/utils/DashUtils.ts`):
- `normalizeTag` spells hyphenated tag names the way MPD spells them.
- `createElement`, `createTextElement` and `Fragment` build a tree of nodes.
- `render2`, `render` and `serialize` walk that tree into an XML document.

**The manifest components** (`src/utils/DashManifest.tsx`):
- `getOTFSegmentInfo` reads the segment timing line of an OTF stream.
- `OTFSegmentInfo` and `SegmentInfo` build the segment information.
- `AudioRepresentation` and `VideoRepresentation` build the representations.
- `MutiTrackSet` builds one adaptation set per audio track.
- `DashManifest` filters and buckets the formats and numbers the adaptation sets.
- `toDash` guards against missing streaming data and serializes the result.

The model follows the source's form, file by file:
- The tree builders and the components are functions over datatypes: `Node`, `Slot` (a JSX child: node, string, array, fulfilled or rejected promise), `Format`, `Value` (a JavaScript value) and `Xml`.
- The steps that change state are methods with loops, each proved to compute a function of the inputs or of the old state:
  - the segment-duration loop;
  - the two `Map`-filling loops;
  - the `set_id` counter and its `getNextSetId` closure, a class `SetIdCounter`;
  - the period and track loops that call the counter;
  - the DOM walk of `render2`, `render` and `serialize`, over a `Document` class whose nodes live in an arena.
- A thrown error is an `Err` of the datatype `Error`. A TypeError the code can reach is also an `Err`: `format.audio_track!.id` on a format without a track, or rendering something that is not a node.

Modules:
- `Wrappers`, `Strings`, `Seqs`, `JsValues`, `Formats`, `Errors`: values, string helpers, grouping into a first-seen-order `Map`, and collecting results up to the first throw.
- `DashUtils`: nodes, `normalizeTag`, `createElement`, `Fragment`, and what rendering produces.
- `Dom` and `DashRender`: the document and the imperative tree walk.
- `OtfSegments`: `getOTFSegmentInfo`.
- `ManifestComponents`: `OTFSegmentInfo`, `SegmentInfo`, the representations and the adaptation sets.
- `DashManifest`: `MutiTrackSet`, `DashManifest`, `toDash`.
- `ManifestOutput`: what `toDash` returns when it succeeds.

Assumptions where the code calls something not shown:
- `getStringBetweenStrings` finds the first occurrence of the start marker, then the first occurrence of the end marker after it. It returns the text between them, or nothing if either marker is missing (`Strings.Between`).
- `parseInt` reads the leading decimal digits, and gives NaN when there are none (`Strings.ParseInt`).

Points where the code decides, and the model follows it:
- A MIME bucket is multi-track when its *first* format has audio and an audio track (`src/utils/DashManifest.tsx:269`). Every format of the bucket is not checked. A later format without a track then makes `format.audio_track!.id` throw a TypeError. The model returns `MissingAudioTrack` for it (`DashManifest.MultiTrackSetOf`).
- `render` appends a child once that child's own subtree is finished. Promises are modelled as already settled, and they are awaited one after another in declaration order. The first rejection in that order is the error.

## Model

| member | source | states |
|---|---|---|
| DashUtils.NormalizeTag | src/utils/DashUtils.ts:22-28 | a normalized tag never contains a hyphen |
| DashUtils.NormalizeSpecialTags | src/utils/DashUtils.ts:23-24 | `mpd` is spelled `MPD` and `base-url` is spelled `BaseURL` |
| DashUtils.NormalizeSections | src/utils/DashUtils.ts:26-27 | any other tag, split on `-`, is spelled as its sections each with the first letter upper-cased, joined with no separator |
| DashUtils.Capitalize | src/utils/DashUtils.ts:27 | capitalizing a section keeps its length and everything after the first character, and adds no hyphen |
| DashUtils.CreateTextElement | src/utils/DashUtils.ts:50-55 | a text node has type `TEXT_ELEMENT`, no children, and the text as its `nodeValue` |
| DashUtils.NormalizeChildren | src/utils/DashUtils.ts:35 | after flattening and wrapping, no child is a bare string |
| DashUtils.NormalizeChildrenEach | src/utils/DashUtils.ts:35 | the children are the one-level flattening of the given ones, position by position: a string becomes a text element with no children whose only prop is `nodeValue`, bound to the string, and any other child is kept as it is |
| DashUtils.Flat1Append | src/utils/DashUtils.ts:35 | `flat()` distributes over concatenation |
| DashUtils.Flat1Flat | src/utils/DashUtils.ts:35 | `flat()` leaves a list without arrays unchanged |
| DashUtils.CreateElementEach | src/utils/DashUtils.ts:30-48 | a tag name gives an element whose type is the normalized tag, with the props unchanged, and whose children are the flattened children with each string wrapped as a text element; a component is called with the props and those same children, and its result is returned unchanged |
| DashUtils.Element | src/utils/DashUtils.ts:41-47 | an intrinsic element has the normalized type and exactly the given props, and `createElement` returns it |
| DashUtils.Fragment | src/utils/DashUtils.ts:89-91 | `Fragment` returns its children unchanged, as an array |
| DashUtils.FragmentTransparent | src/utils/DashUtils.ts:68-69 | a fragment renders as if its children stood in its place |
| DashUtils.ObjectKeys | src/utils/DashUtils.ts:64 | the keys are distinct and are exactly the bound prop names |
| DashUtils.LookupAt | src/utils/DashUtils.ts:43-45 | a prop's value is its last binding |
| DashUtils.LookupKey | src/utils/DashUtils.ts:64-65 | a prop bound to a value other than `undefined` is among the keys |
| DashUtils.AttributesExact | src/utils/DashUtils.ts:63-66 | an attribute `(name, value)` is emitted exactly when the name is not `children` or `nodeValue`, the prop is not `undefined`, and the value is the prop's text |
| DashUtils.AttributeListDistinct | src/utils/DashUtils.ts:64-66 | no attribute name is emitted twice |
| DashUtils.TextNodeRender | src/utils/DashUtils.ts:58-59 | a text node renders its `nodeValue` when that is a string, and the empty string otherwise |
| DashUtils.TextChildren | src/utils/DashUtils.ts:35 | a string child renders as text only after `createElement` wraps it; unwrapped it is not a node |
| DashUtils.Settle | src/utils/DashUtils.ts:69 | an awaited slot is no longer a promise |
| DashUtils.SettleAll | src/utils/DashUtils.ts:69 | when `Promise.all` fulfils, it gives every slot's settled value at that slot's position |
| DashUtils.SettleAllEach | src/utils/DashUtils.ts:69 | `Promise.all` fulfils exactly when every slot settles without a rejection |
| DashUtils.SettleAllFirstRejection | src/utils/DashUtils.ts:69 | when some slot rejects, `Promise.all` rejects with the first rejection in declaration order |
| DashUtils.ChildItems | src/utils/DashUtils.ts:69 | the settled, flattened children are no larger than the children, so the walk terminates |
| DashUtils.RenderItems | src/utils/DashUtils.ts:69 | rendering children that succeeds gives one tree per child |
| DashUtils.RenderItemsEach | src/utils/DashUtils.ts:69 | the children render exactly when every child does, and then each child's tree is at that child's position |
| DashUtils.RenderItemsFirstError | src/utils/DashUtils.ts:69 | when some child fails, the first failing child's error is the result |
| Dom.SetAttr | src/utils/DashUtils.ts:66 | `setAttribute` sets the value, keeps every other attribute, and appends a new name at the end |
| Dom.TreeAtFrame | src/utils/DashUtils.ts:57-73 | the tree below a node depends only on the nodes created after it |
| Dom.Document.FromPlaceholder | src/utils/DashUtils.ts:82 | the parsed placeholder document is one empty document element |
| Dom.Document.CreateElement | src/utils/DashUtils.ts:61 | a new element with no attributes and no children is added, and nothing else changes |
| Dom.Document.CreateTextNode | src/utils/DashUtils.ts:59 | a new text node is added, and nothing else changes |
| Dom.Document.SetAttribute | src/utils/DashUtils.ts:66 | only that element's attributes change |
| Dom.Document.AppendChild | src/utils/DashUtils.ts:77 | the child is appended last to the parent's children, and nothing else changes |
| Dom.Document.ReplaceDocumentElement | src/utils/DashUtils.ts:84 | the given node becomes the document element |
| DashRender.Render2 | src/utils/DashUtils.ts:57-73 | `render2` fails exactly when the tree does not render, with the same error; on success the new subtree is exactly the rendered tree and the nodes that existed are untouched |
| DashRender.SetAttributes | src/utils/DashUtils.ts:63-66 | the attribute loop leaves the element holding exactly the emitted attributes, in key order |
| DashRender.AppendChildren | src/utils/DashUtils.ts:68-70 | the child loop appends every awaited, flattened child once, in order; the element ends up holding exactly the rendered children, or the first error |
| DashRender.Render | src/utils/DashUtils.ts:75-78 | `render` appends the rendered item as the container's last child and changes no other existing node, or fails with the item's error |
| DashRender.Serialize | src/utils/DashUtils.ts:81-87 | the document holds exactly the rendered root once it replaces the placeholder |
| JsValues.NumberRoundTrip | src/utils/DashManifest.tsx:117-118 | the text of a non-negative number reads back as that number |
| Strings.IndexOf | src/utils/DashManifest.tsx:39 | the first occurrence of a pattern, or none |
| Strings.RemoveFirst | src/utils/DashManifest.tsx:39 | `replace` with a literal removes only the first occurrence, and leaves text without it unchanged |
| Strings.RemoveFirstAfter | src/utils/DashManifest.tsx:39 | removing a marker written right after text free of it leaves the text around it |
| Strings.Between | src/utils/DashManifest.tsx:48 | the extracted text holds no earlier occurrence of the end marker; a missing start marker gives nothing |
| Strings.BetweenFramed | src/utils/DashManifest.tsx:48 | text framed by the two markers is exactly what is extracted |
| Strings.Split | src/utils/DashManifest.tsx:48 | `split` gives at least one part, no part holds the separator, and joining the parts gives back the text |
| Strings.SplitJoin | src/utils/DashManifest.tsx:48 | splitting a join gives back parts that do not hold the separator |
| Strings.Trim | src/utils/DashManifest.tsx:56 | `trim` leaves no white space at either end, and is empty only when the text is all white space |
| Strings.TrimSlice | src/utils/DashManifest.tsx:56 | `trim` gives a slice of the text, and what it cuts from either end is white space |
| Strings.TrimKeeps | src/utils/DashManifest.tsx:56 | text with no white space at either end is left alone |
| Strings.ParseInt | src/utils/DashManifest.tsx:65-69 | `parseInt` gives NaN exactly when the text does not start with a digit |
| Strings.ParseIntNatText | src/utils/DashManifest.tsx:65-69 | a number written in decimal reads back, whatever non-digit follows it |
| Strings.NatTextValue | src/utils/DashManifest.tsx:96-97 | the decimal text of a number has that number as its value |
| OtfSegments.SegmentDurations | src/utils/DashManifest.tsx:54-72 | the entry loop trims each entry, skips the empty ones, parses the rest, and keeps their order |
| OtfSegments.GetOTFSegmentInfo | src/utils/DashManifest.tsx:27-78 | the method returns exactly what reading the probe's response gives |
| OtfSegments.SegmentInfoFails | src/utils/DashManifest.tsx:48-52 | reading fails exactly when the body has no durations line, and the error carries the probed URL |
| OtfSegments.ResolvedWithoutRedirect | src/utils/DashManifest.tsx:29-39 | without a redirect, the resolved URL is the stream URL that was probed |
| OtfSegments.DurationsAppend | src/utils/DashManifest.tsx:54-72 | the entries of two lists parse to the durations of each, concatenated |
| OtfSegments.EntryTrims | src/utils/DashManifest.tsx:56 | trimming an entry written by the server, or the first entry after its space, gives the entry |
| OtfSegments.EntryParses | src/utils/DashManifest.tsx:61-71 | an entry `d` or `d(r=n)` parses to duration `d` and repeat count `n` exactly when `(r=n)` is present |
| OtfSegments.BlankParts | src/utils/DashManifest.tsx:55-59 | a line with no entries gives no durations |
| OtfSegments.EntriesParse | src/utils/DashManifest.tsx:54-72 | a list of written entries parses back to their timings, in order |
| OtfSegments.LinePartsParse | src/utils/DashManifest.tsx:48-72 | the comma-separated parts of a written durations line, including its empty last part, parse back to the timings |
| OtfSegments.DurationsRoundTrip | src/utils/DashManifest.tsx:39-77 | a body with a durations line written from any list of timings reads back as exactly those timings, in order, with the resolved URL |
| OtfSegments.ExampleDurations | src/utils/DashManifest.tsx:44-45 | the documented body `Segment-Durations-Ms: 5120(r=920),3600,` reads as 5120 ms with 920 repeats, then 3600 ms with none |
| ManifestComponents.OTFSegmentInfo | src/utils/DashManifest.tsx:80-103 | the component rejects, before any probe, when there is no fetch; otherwise it rejects exactly when the probe has no durations line, and it fulfils with a segment template |
| ManifestComponents.OTFSegmentInfoProbe | src/utils/DashManifest.tsx:80-103 | with a fetch, the component fulfils with the segment template built from the segment info that reading the probe's response gives, or rejects with that reading's error |
| ManifestComponents.TemplateLookups | src/utils/DashManifest.tsx:86-91 | the template has `startNumber` 1 and `timescale` 1000; `initialization` is the resolved URL plus `&sq=0` and `media` is the resolved URL plus `&sq=$Number$` |
| ManifestComponents.TemplateTimeline | src/utils/DashManifest.tsx:86-102 | the template's one child is the segment timeline, holding one `s` element per parsed duration, in order |
| ManifestComponents.TimelineEntries | src/utils/DashManifest.tsx:94-99 | there is one `s` element per duration, at the same position |
| ManifestComponents.TimelineRepeat | src/utils/DashManifest.tsx:95-98 | an `s` element carries `d`, and carries `r` exactly when the entry had a repeat count |
| ManifestComponents.SegmentInfo | src/utils/DashManifest.tsx:105-121 | the component throws exactly when a format that is not OTF lacks a byte range; an OTF format gets the OTF component, and any other the base URL and segment base |
| ManifestComponents.SegmentBaseParts | src/utils/DashManifest.tsx:113-120 | the `BaseURL` element holds the URL as text; the `SegmentBase` carries `indexRange` and holds one `Initialization` carrying `range` |
| ManifestComponents.RangeTextParts | src/utils/DashManifest.tsx:117-118 | a byte range's text is its start and end joined by one dash, and reads back as its start |
| ManifestComponents.Channels | src/utils/DashManifest.tsx:137 | the channel count is the format's count when that is present and not zero; when it is absent or zero, the count is 2 |
| ManifestComponents.Codecs | src/utils/DashManifest.tsx:124 | `codecs` is `undefined` exactly when the MIME type has no `codecs="..."` parameter; otherwise it is the text between `codecs="` and the next `"` |
| ManifestComponents.AudioIdAttribute | src/utils/DashManifest.tsx:130 | an audio representation's `id` is `itag-trackid` when the format has a track, and the itag otherwise |
| ManifestComponents.AudioRepresentation | src/utils/DashManifest.tsx:123-141 | the audio representation throws exactly when its segment information does; otherwise it has the audio props, the channel configuration as its first child, and the segment information spliced in after it |
| ManifestComponents.AudioChannel | src/utils/DashManifest.tsx:135-138 | the channel configuration is an `AudioChannelConfiguration` element |
| ManifestComponents.AudioElement | src/utils/DashManifest.tsx:129-140 | the channel configuration comes first, then the parts of the segment information |
| ManifestComponents.VideoAttributes | src/utils/DashManifest.tsx:150-156 | a video representation's `id` is the itag and `maxPlayoutRate` is 1; a format without a frame rate gets no `frameRate` attribute |
| ManifestComponents.VideoRepresentation | src/utils/DashManifest.tsx:143-160 | the video representation throws exactly when its segment information does; otherwise it has the video props and the segment information as its children |
| ManifestComponents.NormalizeWithSegments | src/utils/DashManifest.tsx:134-139 | a fragment child after a node is spliced in after it |
| ManifestComponents.SegmentPartsNotRaw | src/utils/DashManifest.tsx:105-121 | the segment information never contributes a bare string |
| ManifestComponents.Representations | src/utils/DashManifest.tsx:283-300 | the representations build exactly when every format can be addressed, one node per format; an error is a missing byte range |
| ManifestComponents.RepresentationsEach | src/utils/DashManifest.tsx:209-217 | the representations are those of the formats, one for one and in order |
| ManifestComponents.RepresentationOk | src/utils/DashManifest.tsx:283-299 | one representation builds exactly when its format can be addressed |
| ManifestComponents.MimeEssence | src/utils/DashManifest.tsx:189 | the set's `mimeType` is the MIME type up to its first `;`, or the whole type when it has none |
| ManifestComponents.RolePriority | src/utils/DashManifest.tsx:196-204 | the role is `main` for the default track, else `dub` when dubbed, else `description` when descriptive, else `alternate` |
| ManifestComponents.TrackSetPropsId | src/utils/DashManifest.tsx:187-188 | a track's set carries the id it was given |
| ManifestComponents.SetPropsId | src/utils/DashManifest.tsx:276-277 | a single set carries the id it was given |
| ManifestComponents.TrackSetShape | src/utils/DashManifest.tsx:187-219 | a track's set carries its id, and so does its label; its children are the role, the label and then the representations |
| ManifestComponents.TrackSet | src/utils/DashManifest.tsx:183-221 | a track's set throws exactly when one of its formats cannot be addressed, and otherwise holds that track's audio representations |
| ManifestComponents.SingleSetShape | src/utils/DashManifest.tsx:275-302 | a single set carries its id and holds exactly the representations |
| ManifestComponents.SingleSet | src/utils/DashManifest.tsx:275-303 | a single set throws exactly when one of its formats cannot be addressed, and otherwise holds the formats' representations |
| ManifestComponents.FractionDigits | src/utils/DashManifest.tsx:239 | the fractional digits of a duration have no trailing zero and denote the milliseconds |
| ManifestComponents.DurationTextMeaning | src/utils/DashManifest.tsx:239-261 | the duration text, split at the point, is the decimal of the whole seconds with no leading zero. A fraction follows exactly when the milliseconds are not whole seconds. It has one to three digits and no trailing zero, and scaled to thousandths it is the leftover milliseconds |
| ManifestComponents.DurationTextParts | src/utils/DashManifest.tsx:239-261 | the duration text has a point exactly when the milliseconds are not whole seconds, and splits there into the whole seconds and the fraction digits |
| Seqs.Filter | src/utils/DashManifest.tsx:234 | `filter` keeps exactly the elements that pass |
| Seqs.FilterMultiset | src/utils/DashManifest.tsx:234 | `filter` keeps every passing element as often as it occurs |
| Seqs.KeysOf | src/utils/DashManifest.tsx:241-252 | the `Map`'s keys are exactly the keys of the elements |
| Seqs.KeysDistinct | src/utils/DashManifest.tsx:248-250 | each key is set once |
| Seqs.FirstFailing | src/utils/DashManifest.tsx:183-186 | names the first element that fails a test, all earlier ones passing, and none exactly when every element passes |
| Seqs.CollectErrIsFirst | src/utils/DashManifest.tsx:183-186 | when every result before a failure succeeded, collecting the results gives that failure's error |
| Seqs.GroupOf | src/utils/DashManifest.tsx:251 | a key's entry holds exactly the elements with that key |
| Seqs.GroupOfIsFilter | src/utils/DashManifest.tsx:251 | a key's entry is the input filtered by that key, so it keeps the input order |
| Seqs.GroupsPartition | src/utils/DashManifest.tsx:241-252 | the groups together hold exactly the elements, each as often as it occurs |
| Seqs.GroupsSnocNew | src/utils/DashManifest.tsx:248-251 | an element with a new key opens a new group at the end |
| Seqs.GroupsSnocSeen | src/utils/DashManifest.tsx:251 | an element with a seen key joins that key's group at its end |
| Seqs.GroupStateSnoc | src/utils/DashManifest.tsx:247-251 | one loop step (set a new key to an empty list, then push) keeps the `Map` equal to the groups so far |
| Seqs.GroupStateGroups | src/utils/DashManifest.tsx:267 | read in key order, the filled `Map` gives the groups |
| Seqs.GroupsNonEmpty | src/utils/DashManifest.tsx:248-251 | every group is non-empty and holds only input elements |
| Seqs.CollectSpec | src/utils/DashManifest.tsx:183-221 | a `map` stopped by the first throw succeeds exactly when every call does, holding their values in order; otherwise it fails with the first error |
| DashManifest.SetIdCounter.constructor | src/utils/DashManifest.tsx:254 | `set_id` starts at 0 |
| DashManifest.SetIdCounter.GetNextSetId | src/utils/DashManifest.tsx:185 | `set_id++` returns the current id and moves the counter on by one |
| DashManifest.FirstTrackless | src/utils/DashManifest.tsx:170-178 | finds a format of the list without an audio track, or none exactly when every format has one |
| DashManifest.FirstTracklessIsFirst | src/utils/DashManifest.tsx:170-178 | the format found is the first without an audio track: every format before it has one |
| DashManifest.FirstTracklessPrefix | src/utils/DashManifest.tsx:170-178 | the first format without a track in a prefix is the first one in the whole list |
| DashManifest.TrackBuckets | src/utils/DashManifest.tsx:169-178 | the track loop throws at the first format without a track; otherwise it gives the formats grouped by track id in first-seen order |
| DashManifest.TrackGroupsOf | src/utils/DashManifest.tsx:169-178 | with every format tracked, each track group is non-empty and starts with a tracked format |
| DashManifest.GroupsAddressableIff | src/utils/DashManifest.tsx:169-178 | the groups can all be addressed exactly when the whole list can |
| DashManifest.SetIds | src/utils/DashManifest.tsx:185 | the ids handed out are consecutive from the first |
| DashManifest.MapWithSetIds | src/utils/DashManifest.tsx:183-186 | the set loop calls the callback on each position in order with the next id, stops at the first throw, and on success moves the counter on by the count |
| DashManifest.TrackSetAtFacts | src/utils/DashManifest.tsx:183-221 | a track group becomes a set with the given id, or a missing byte range |
| DashManifest.TrackSetResultsCollect | src/utils/DashManifest.tsx:183-221 | the track sets all build exactly when every format can be addressed, and they carry consecutive ids in order |
| DashManifest.NumberedByIds | src/utils/DashManifest.tsx:185-188 | sets carrying consecutive ids are numbered from the first |
| DashManifest.NumberedAppend | src/utils/DashManifest.tsx:254-277 | numbering continues across consecutive runs of sets |
| DashManifest.TrackSets | src/utils/DashManifest.tsx:183-221 | one set per track, numbered consecutively in order, or the first missing byte range |
| DashManifest.FirstUnaddressable | src/utils/DashManifest.tsx:183-221 | names the first track group holding a format that cannot be addressed, and none exactly when every group can be |
| DashManifest.TrackSetResultAt | src/utils/DashManifest.tsx:183-221 | the result at position `j` is the track set of group `j` with id `first + j`, and it builds exactly when that group can be addressed |
| DashManifest.TrackSetResultsEach | src/utils/DashManifest.tsx:183-221 | when the track sets build, set `j` is the track set of group `j` with id `first + j` |
| DashManifest.TrackSetResultsOkBelow | src/utils/DashManifest.tsx:183-221 | every group before the first unaddressable one builds |
| DashManifest.TrackSetResultsFirstErr | src/utils/DashManifest.tsx:183-221 | the first unaddressable group fails, and its error is the error of the whole loop |
| DashManifest.TrackSetsEach | src/utils/DashManifest.tsx:183-221 | when the track sets build, set `j` is the track set of group `j`, numbered `first + j` |
| DashManifest.TrackSetsFirstErr | src/utils/DashManifest.tsx:183-221 | when the track sets fail, the error is that of the first group that cannot be addressed, built with its own id |
| DashManifest.MultiTrackSetOf | src/utils/DashManifest.tsx:162-224 | throws the TypeError of the first format without a track; otherwise builds exactly when every format can be addressed, as a fragment of one set per distinct track id, numbered consecutively |
| DashManifest.MultiTrackSetOfSets | src/utils/DashManifest.tsx:181-223 | with every format tracked, the fragment holds exactly the track sets, or their error |
| DashManifest.MultiTrackSetOfEach | src/utils/DashManifest.tsx:162-224 | a fragment that builds holds one set per distinct track id, and set `j` is the track set of the `j`-th track group, which starts with a tracked format, numbered `first + j` |
| DashManifest.MultiTrackSetOfFirstErr | src/utils/DashManifest.tsx:162-224 | with every format tracked, a failure is the error of the first track group that cannot be addressed |
| DashManifest.MutiTrackSet | src/utils/DashManifest.tsx:162-224 | the method builds exactly the multi-track fragment, numbered from the counter, and on success moves the counter on by the number of tracks |
| DashManifest.BucketOk | src/utils/DashManifest.tsx:269-303 | a bucket builds exactly when its formats can be addressed and, if it is multi-track, every format has a track |
| DashManifest.MimeSet | src/utils/DashManifest.tsx:267-304 | a bucket's child builds exactly when the bucket is sound; it splices into as many sets as the bucket uses ids, numbered from its first id; its error is a missing byte range or track, and only a missing track when the formats can be addressed |
| DashManifest.MultiTrackSetFacts | src/utils/DashManifest.tsx:269-273 | a multi-track bucket gives one set per track, numbered from its first id |
| DashManifest.MimeSetTracks | src/utils/DashManifest.tsx:269-273 | a multi-track bucket that builds gives, at position `j`, the track set of its `j`-th track group with id `first + j` |
| DashManifest.MimeSetSingle | src/utils/DashManifest.tsx:275-303 | any other bucket that builds gives exactly one adaptation set of its MIME type, with its first id, holding the bucket's representations |
| DashManifest.SingleSetFacts | src/utils/DashManifest.tsx:275-303 | any other bucket gives one set with its first id |
| DashManifest.SingleSetNumbered | src/utils/DashManifest.tsx:275-281 | a single set splices into itself, numbered with its id |
| DashManifest.FirstIds | src/utils/DashManifest.tsx:254-267 | each bucket's first id is the number of ids the buckets before it used |
| DashManifest.MimeSetAtFacts | src/utils/DashManifest.tsx:267-304 | the child at a bucket's position is that bucket's child, starting at the bucket's first id |
| DashManifest.PeriodResultOkAt | src/utils/DashManifest.tsx:267-304 | one bucket's child is there exactly when the bucket builds |
| DashManifest.PeriodResultErrAt | src/utils/DashManifest.tsx:267-304 | one bucket's error is a missing byte range or track, and only a missing track when its formats can be addressed |
| DashManifest.PeriodResultNumberedAt | src/utils/DashManifest.tsx:267-304 | one bucket's child uses the ids from its first id up to the next bucket's first id |
| DashManifest.PeriodResultsEachOk | src/utils/DashManifest.tsx:267-304 | every bucket's child is there exactly when that bucket builds |
| DashManifest.SplicedNumbered | src/utils/DashManifest.tsx:265-306 | children whose sets are numbered bucket by bucket splice together into sets numbered 0, 1, 2, ... |
| DashManifest.PeriodResultsOk | src/utils/DashManifest.tsx:265-306 | the period's children are all there exactly when every bucket builds |
| DashManifest.PeriodResultsErr | src/utils/DashManifest.tsx:265-306 | the period's error is a missing byte range or track, and only a missing track when every format can be addressed |
| DashManifest.PeriodResultsNumbered | src/utils/DashManifest.tsx:265-306 | spliced together, the period's children are all the sets, numbered from 0 |
| DashManifest.PeriodResultsOkBelow | src/utils/DashManifest.tsx:267-304 | every bucket before the first unsound one builds |
| DashManifest.PeriodResultsFirstErr | src/utils/DashManifest.tsx:267-304 | the first unsound bucket fails, and its error is the error of the whole period |
| DashManifest.PeriodSetsEach | src/utils/DashManifest.tsx:267-304 | when the period builds, child `j` is the child of bucket `j` with its MIME type, starting at that bucket's first id |
| DashManifest.PeriodSetsFirstErr | src/utils/DashManifest.tsx:267-304 | when the period fails, the error is that of the first unsound bucket, built from its first id |
| DashManifest.PeriodSets | src/utils/DashManifest.tsx:254-306 | the period is built exactly when every bucket builds, with one child per bucket; spliced together the children are all the sets, numbered 0, 1, 2, ... across single and multi-track buckets |
| DashManifest.BucketChild | src/utils/DashManifest.tsx:268-303 | one turn builds the bucket's child from the counter, and on success moves the counter on by the ids it used |
| DashManifest.PeriodTurn | src/utils/DashManifest.tsx:267-304 | one turn appends the bucket's child to the children so far, or ends with its error, keeping the counter at the next bucket's first id |
| DashManifest.PeriodLoop | src/utils/DashManifest.tsx:254-304 | the period loop, starting `set_id` at 0, builds exactly the period's children or the first error |
| DashManifest.Kept | src/utils/DashManifest.tsx:234 | the kept formats are exactly those the filter does not reject, and all formats when there is no filter |
| DashManifest.BucketsAddressed | src/utils/DashManifest.tsx:243-252 | the buckets are non-empty, and hold only formats that can be addressed |
| DashManifest.MimeBuckets | src/utils/DashManifest.tsx:241-252 | there is one bucket per MIME type, and each bucket is non-empty and can be addressed |
| DashManifest.AddressedSnoc | src/utils/DashManifest.tsx:244-246 | a format is skipped exactly when it is not OTF and lacks a byte range |
| DashManifest.BucketByMime | src/utils/DashManifest.tsx:241-252 | the bucketing loop gives the MIME types in first-seen order, and each type's addressable formats in input order |
| DashManifest.ManifestOf | src/utils/DashManifest.tsx:226-308 | no kept format throws `No adaptive formats found`; any other throw is a format without a track in a multi-track bucket |
| DashManifest.ManifestElement | src/utils/DashManifest.tsx:226-308 | the component's loops build exactly the manifest element |
| DashManifest.ToDashOf | src/utils/DashManifest.tsx:318-319 | missing streaming data throws `Streaming data not available` |
| DashManifest.ToDash | src/utils/DashManifest.tsx:310-331 | `toDash` returns exactly the serialized manifest, or the first error |
| ManifestOutput.ManifestTags | src/utils/DashManifest.tsx:256-276 | the outer levels are spelled `MPD`, `Period` and `AdaptationSet` |
| ManifestOutput.RenderedSet | src/utils/DashManifest.tsx:187-277 | a set numbered `k` renders as an `AdaptationSet` whose `id` attribute is `k` |
| ManifestOutput.RenderedSetsNumbered | src/utils/DashManifest.tsx:254-306 | sets numbered from 0 render with `id` attributes equal to their positions |
| ManifestOutput.PeriodRendered | src/utils/DashManifest.tsx:265-306 | the period renders as `Period`, holding the rendered sets in order |
| ManifestOutput.MpdRendered | src/utils/DashManifest.tsx:256-307 | the manifest renders as `MPD` with its attributes and one `Period` holding the numbered sets |
| ManifestOutput.ManifestOfOk | src/utils/DashManifest.tsx:234-304 | the manifest builds exactly when some format is kept and every MIME bucket builds |
| ManifestOutput.ManifestOfMpd | src/utils/DashManifest.tsx:234-264 | a manifest that builds is the `mpd` element with the first kept format's duration, around the period's children |
| ManifestOutput.ToDashOutput | src/utils/DashManifest.tsx:310-331 | when `toDash` gives a document, streaming data was given and some format was kept. The root is `MPD` with the first kept format's duration and one `Period`. The period holds as many `AdaptationSet`s as the buckets use ids, with `id`s 0, 1, 2, ... in document order |

## Left out

- The HTTP probe (`fetch_function`, `response.text()`) is a parameter. `Env.fetch` maps the probed URL to the response URL and body. Without an `actions` instance, there is no fetch.
- `format.decipher(player)`, the `URL` class and `searchParams.set('cpn', ...)` are parameters of `Env`. So is the optional `transformURL` hook. The default transformer of `toDash` is the identity, modelled by the absent hook. An absent `cpn` is passed on as the empty string.
- `ManifestComponents.StreamUrl`: `Env.decipher`, `Env.withCpn` and `Env.fetch` always return a value, so deciphering, the URL parse and the probe never fail in the model. The source's `new URL(format.decipher(player))` (`src/utils/DashManifest.tsx:126` and `:146`) throws a TypeError when the deciphered text is not an absolute URL, and a rejected `fetch_function` or `response.text()` (`src/utils/DashManifest.tsx:29` and `:46`) rejects the probe. Neither failure is modelled. So the "exactly when" contracts hold only under that assumption. They cover `AudioRepresentation` and `VideoRepresentation` throwing exactly when their segment information does, `Representations` building exactly when every format can be addressed, and `OTFSegmentInfo` rejecting exactly when the probe has no durations line. They also cover `DashManifest.ManifestOf`'s "any other throw is a missing audio track" and the if-and-only-if of `ManifestOutput.ManifestOfOk`.
- `DashRender.Serialize`: a root that settles to a text node is rendered and made the document element. The source's `document.replaceChild` (`src/utils/DashUtils.ts:84`) throws a `HierarchyRequestError` for a Text child of a Document. `toDash` never reaches this, because its root is always the `mpd` element.
- Promise concurrency: `Promise.all` and `render` run concurrently in the source. The model settles promises one after another in declaration order, so the first rejection in that order is the error.
- `DashRender.AppendChildren`: appends rendered children in declaration order. The source starts the children together through `Promise.all` (`src/utils/DashUtils.ts:69`), and `render` appends each child when its subtree finishes (`src/utils/DashUtils.ts:75-78`). So siblings in the source's document come in completion order. The model's sibling order is declaration order only.
- `ManifestOutput.ToDashOutput`: the `AdaptationSet`s carry `id`s 0, 1, 2, ... in document order only in the model's declaration order. The source hands out the ids in that order, but its document order is completion order, so the ids may appear in another order there.
- `DashUtils.Capitalize`: upper-cases ASCII letters only. JavaScript's `toUpperCase` is full Unicode (`ß` becomes `SS`, which changes the length). Every tag the manifest uses is an ASCII literal.
- `DOMParser` and `serializeDOM`: the document is an arena of element and text nodes. Its content is returned as an XML tree, not as XML text.
- `approx_duration_ms / 1000` is a floating-point division printed by JavaScript. `ManifestComponents.DurationText`: writes the exact decimal of a whole number of milliseconds. It does not model the floating-point rounding of very large values.
- `ManifestComponents.AudioChannel`: its contract states only the element's kind. The `value` attribute comes from `ManifestComponents.Channels`.
- `parseInt` reads only leading decimal digits. Leading white space, signs and `0x` prefixes are not modelled. The durations line never holds them.
- `Value` numbers are integers. No prop of the manifest carries a fraction except the duration, which is a string.
- `getStringBetweenStrings` lives in a utility file that is not part of this model. It is modelled as the first start marker, then the first end marker after it.
- `InnertubeError` payloads are reduced to what identifies them: the format or URL they carry.
