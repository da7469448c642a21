/**
 * `DashManifest`, `MutiTrackSet` and `toDash`: the formats are filtered,
 * bucketed by MIME type into a Map in first-seen order, and each bucket
 * becomes one adaptation set, or one set per audio track when the bucket's
 * first format carries an audio track. Sets are numbered by a counter that
 * starts at 0. The methods are proved to produce exactly the trees the
 * functions `MultiTrackSetOf` and `ManifestOf` describe.
 */
module DashManifest {
  import opened Wrappers
  import opened Seqs
  import opened JsValues
  import opened Formats
  import opened Errors
  import opened Dom
  import opened DashUtils
  import opened DashRender
  import opened ManifestComponents

  /** The `set_id` variable of the manifest and the `getNextSetId` closure over it. */
  class SetIdCounter {
    var next: nat

    constructor ()
      ensures next == 0
    {
      next := 0;
    }

    /** `set_id++`: the current id, and the counter moves on by one. */
    method GetNextSetId() returns (id: nat)
      modifies this
      ensures id == old(next) && next == old(next) + 1
    {
      id := next;
      next := next + 1;
    }
  }

  // ---------------------------------------------------------- audio tracks

  predicate HasTrack(f: Format) {
    f.audioTrack.Some?
  }

  /** `format.audio_track!.id`, the key of a multi-track bucket. */
  function TrackIdOf(f: Format): string {
    if f.audioTrack.Some? then f.audioTrack.value.id else ""
  }

  /** The first format without an audio track: the one whose `audio_track!.id` throws. */
  function FirstTrackless(formats: seq<Format>): (r: Option<Format>)
    ensures r.None? <==> forall i :: 0 <= i < |formats| ==> HasTrack(formats[i])
    ensures r.Some? ==> r.value in formats && !HasTrack(r.value)
  {
    if formats == [] then None
    else
      var init := formats[..|formats| - 1];
      var last := formats[|formats| - 1];
      assert forall i :: 0 <= i < |init| ==> init[i] == formats[i];
      match FirstTrackless(init)
      case Some(f) => Some(f)
      case None => if HasTrack(last) then None else Some(last)
  }

  /** The format found is the first without a track: every format before it has one. */
  lemma {:induction false} FirstTracklessIsFirst(formats: seq<Format>)
    ensures FirstTrackless(formats).Some? ==>
      exists i :: 0 <= i < |formats| && formats[i] == FirstTrackless(formats).value &&
        forall j :: 0 <= j < i ==> HasTrack(formats[j])
    decreases |formats|
  {
    if formats != [] {
      var init := formats[..|formats| - 1];
      assert forall j :: 0 <= j < |init| ==> init[j] == formats[j];
      FirstTracklessIsFirst(init);
      if FirstTrackless(init).None? && FirstTrackless(formats).Some? {
        assert formats[|formats| - 1] == FirstTrackless(formats).value;
      }
    }
  }

  lemma FirstTracklessSnoc(formats: seq<Format>, f: Format)
    ensures FirstTrackless(formats + [f]) ==
      if FirstTrackless(formats).Some? then FirstTrackless(formats) else if HasTrack(f) then None else Some(f)
  {
    assert (formats + [f])[..|formats|] == formats;
  }

  lemma {:induction false} FirstTracklessPrefix(formats: seq<Format>, n: nat)
    requires n <= |formats| && FirstTrackless(formats[..n]).Some?
    ensures FirstTrackless(formats) == FirstTrackless(formats[..n])
    decreases |formats|
  {
    if n < |formats| {
      var init := formats[..|formats| - 1];
      assert init[..n] == formats[..n];
      FirstTracklessPrefix(init, n);
    } else {
      assert formats[..n] == formats;
    }
  }

  /** Every group of formats is non-empty and starts with a format that has an audio track. */
  ghost predicate TrackGroups(groups: seq<seq<Format>>) {
    forall j :: 0 <= j < |groups| ==> |groups[j]| > 0 && HasTrack(groups[j][0])
  }

  /** Every format of every group can be addressed. */
  ghost predicate GroupsAddressable(groups: seq<seq<Format>>) {
    forall j :: 0 <= j < |groups| ==> AllAddressable(groups[j])
  }

  /** The position of the first group holding a format that cannot be addressed, if any. */
  function FirstUnaddressable(groups: seq<seq<Format>>): (r: Option<nat>)
    ensures r.None? <==> GroupsAddressable(groups)
    ensures r.Some? ==>
      r.value < |groups| && !AllAddressable(groups[r.value]) &&
      forall i :: 0 <= i < r.value ==> AllAddressable(groups[i])
  {
    FirstFailing(AllAddressable, groups)
  }

  /** The sets carry the ids `firstId`, `firstId + 1`, ... in order. */
  ghost predicate Numbered(sets: seq<Slot>, firstId: nat) {
    forall k :: 0 <= k < |sets| ==> IsSet(sets[k], firstId + k)
  }

  lemma NumberedAppend(a: seq<Slot>, b: seq<Slot>, firstId: nat, next: nat)
    requires Numbered(a, firstId) && Numbered(b, next) && next == firstId + |a|
    ensures Numbered(a + b, firstId)
  {
    forall k | 0 <= k < |a + b| ensures IsSet((a + b)[k], firstId + k) {
      if k >= |a| {
        var t := k - |a|;
        assert (a + b)[k] == b[t];
        assert IsSet(b[t], next + t);
        assert next + t == firstId + k;
      }
    }
  }

  /** The ids `firstId`, `firstId + 1`, ..., one for each of `n` sets. */
  function SetIds(firstId: nat, n: nat): (r: seq<nat>)
    ensures |r| == n && forall j :: 0 <= j < n ==> r[j] == firstId + j
  {
    seq(n, j requires 0 <= j < n => firstId + j)
  }

  /** The result of `f` at each position `j` below `|ids|`, position `j` taking the id `ids[j]`. */
  function NumberedResults<T>(f: (nat, nat) --> Result<T, Error>, ids: seq<nat>): (r: seq<Result<T, Error>>)
    requires forall j, id :: 0 <= j < |ids| ==> f.requires(j, id)
    ensures |r| == |ids|
    ensures forall j {:trigger r[j]} :: 0 <= j < |ids| ==> r[j] == f(j, ids[j])
  {
    seq(|ids|, j requires 0 <= j < |ids| => f(j, ids[j]))
  }

  /** The callback of the second loop of `<MutiTrackSet />`: group `j` becomes a track set with the id it is given. */
  function TrackSetAt(env: Env, mimeType: string, groups: seq<seq<Format>>): (r: (nat, nat) --> Result<Slot, Error>)
    requires TrackGroups(groups)
    ensures forall j, id :: 0 <= j < |groups| ==> r.requires(j, id)
  {
    (j: nat, id: nat) requires j < |groups| => TrackSet(env, mimeType, groups[j], id)
  }

  /**
   * Collected in order, the track sets all build exactly when every group can
   * be addressed, a throw is a missing byte range, and the sets built carry
   * the ids from `firstId` on in order.
   */
  lemma TrackSetResultsCollect(env: Env, mimeType: string, groups: seq<seq<Format>>, firstId: nat)
    requires TrackGroups(groups)
    ensures var r := Collect(NumberedResults(TrackSetAt(env, mimeType, groups), SetIds(firstId, |groups|)), |groups|);
      (r.Ok? <==> GroupsAddressable(groups)) &&
      (r.Err? ==> r.error.RangesUnavailable?) &&
      (r.Ok? ==> |r.value| == |groups| && Numbered(r.value, firstId))
  {
    var ids := SetIds(firstId, |groups|);
    var rs := NumberedResults(TrackSetAt(env, mimeType, groups), ids);
    var r := Collect(rs, |groups|);
    CollectSpec(rs, |groups|);
    forall j | 0 <= j < |groups|
      ensures rs[j].Ok? <==> AllAddressable(groups[j])
      ensures rs[j].Err? ==> rs[j].error.RangesUnavailable?
      ensures rs[j].Ok? ==> IsSet(rs[j].value, ids[j])
    {
      TrackSetAtFacts(env, mimeType, groups, j, ids[j]);
    }
    if r.Ok? {
      forall k | 0 <= k < |groups| ensures IsSet(r.value[k], ids[k]) {
        assert rs[k] == Ok(r.value[k]);
      }
      NumberedByIds(r.value, ids, firstId);
    }
  }

  /**
   * Collected in order, set `j` is the track set of group `j` with the id
   * `firstId + j`.
   */
  lemma TrackSetResultsEach(env: Env, mimeType: string, groups: seq<seq<Format>>, firstId: nat)
    requires TrackGroups(groups)
    ensures var r := Collect(NumberedResults(TrackSetAt(env, mimeType, groups), SetIds(firstId, |groups|)), |groups|);
      (r.Ok? ==> forall j :: 0 <= j < |groups| ==> TrackSet(env, mimeType, groups[j], firstId + j) == Ok(r.value[j]))
  {
    var f := TrackSetAt(env, mimeType, groups);
    NumberedCollected(f, firstId, |groups|);
    var r := Collect(NumberedResults(f, SetIds(firstId, |groups|)), |groups|);
    if r.Ok? {
      forall j, id | 0 <= j < |groups| && id == firstId + j
        ensures TrackSet(env, mimeType, groups[j], id) == Ok(r.value[j])
      {
        TrackSetAtApplied(env, mimeType, groups, j, id);
      }
    }
  }

  /** Collected in order, results numbered from `firstId` that all build give result `j` the id `firstId + j`. */
  lemma NumberedCollected<T>(f: (nat, nat) --> Result<T, Error>, firstId: nat, n: nat)
    requires forall j, id :: 0 <= j < n ==> f.requires(j, id)
    ensures var r := Collect(NumberedResults(f, SetIds(firstId, n)), n);
      r.Ok? ==> forall j, id :: 0 <= j < n && id == firstId + j ==> f(j, id) == Ok(r.value[j])
  {
    CollectSpec(NumberedResults(f, SetIds(firstId, n)), n);
  }

  /** The callback applied to group `j` and an id is that group's track set with the id. */
  lemma TrackSetAtApplied(env: Env, mimeType: string, groups: seq<seq<Format>>, j: nat, id: nat)
    requires TrackGroups(groups) && j < |groups|
    ensures TrackSetAt(env, mimeType, groups)(j, id) == TrackSet(env, mimeType, groups[j], id)
  {
  }

  /** Collected result `j` is the track set of group `j` with the id `firstId + j`. */
  lemma TrackSetResultAt(env: Env, mimeType: string, groups: seq<seq<Format>>, firstId: nat, j: nat, id: nat)
    requires TrackGroups(groups) && j < |groups| && id == firstId + j
    ensures NumberedResults(TrackSetAt(env, mimeType, groups), SetIds(firstId, |groups|))[j] == TrackSet(env, mimeType, groups[j], id)
    ensures TrackSet(env, mimeType, groups[j], id).Ok? <==> AllAddressable(groups[j])
  {
    assert SetIds(firstId, |groups|)[j] == id;
  }

  /** The track sets of groups that can all be addressed build. */
  lemma TrackSetResultsOkBelow(env: Env, mimeType: string, groups: seq<seq<Format>>, firstId: nat, n: nat)
    requires TrackGroups(groups) && n <= |groups|
    requires forall j :: 0 <= j < n ==> AllAddressable(groups[j])
    ensures var rs := NumberedResults(TrackSetAt(env, mimeType, groups), SetIds(firstId, |groups|));
      forall j :: 0 <= j < n ==> rs[j].Ok?
  {
    var ids := SetIds(firstId, |groups|);
    forall j | 0 <= j < n ensures NumberedResults(TrackSetAt(env, mimeType, groups), ids)[j].Ok? {
      TrackSetResultAt(env, mimeType, groups, firstId, j, firstId + j);
    }
  }

  /** Collected in order, the track sets throw the error of the first group holding a format that cannot be addressed. */
  lemma TrackSetResultsFirstErr(env: Env, mimeType: string, groups: seq<seq<Format>>, firstId: nat)
    requires TrackGroups(groups)
    ensures var rs := NumberedResults(TrackSetAt(env, mimeType, groups), SetIds(firstId, |groups|));
      var k := FirstUnaddressable(groups);
      k.Some? ==> rs[k.value].Err? && Collect(rs, |groups|) == Err(rs[k.value].error)
  {
    var ids := SetIds(firstId, |groups|);
    var rs := NumberedResults(TrackSetAt(env, mimeType, groups), ids);
    var k := FirstUnaddressable(groups);
    if k.Some? {
      TrackSetResultsOkBelow(env, mimeType, groups, firstId, k.value);
      TrackSetResultAt(env, mimeType, groups, firstId, k.value, firstId + k.value);
      CollectErrIsFirst(rs, |groups|, k.value);
    }
  }

  /** What the callback gives for one track group: a set with the given id, or a missing byte range. */
  lemma TrackSetAtFacts(env: Env, mimeType: string, groups: seq<seq<Format>>, j: nat, id: nat)
    requires TrackGroups(groups) && j < |groups|
    ensures var x := TrackSetAt(env, mimeType, groups)(j, id);
      (x.Ok? <==> AllAddressable(groups[j])) &&
      (x.Err? ==> x.error.RangesUnavailable?) &&
      (x.Ok? ==> IsSet(x.value, id))
  {
    var x := TrackSet(env, mimeType, groups[j], id);
    if x.Ok? {
      TrackSetShape(mimeType, groups[j][0], id, Representations(env, groups[j], true).value);
    }
  }

  /** Sets that carry the ids `SetIds(firstId, _)` in order are numbered from `firstId`. */
  lemma NumberedByIds(sets: seq<Slot>, ids: seq<nat>, firstId: nat)
    requires ids == SetIds(firstId, |sets|)
    requires forall k :: 0 <= k < |sets| ==> IsSet(sets[k], ids[k])
    ensures Numbered(sets, firstId)
  {
    forall k | 0 <= k < |sets| ensures IsSet(sets[k], firstId + k) {
      assert ids[k] == firstId + k;
    }
  }

  /**
   * One adaptation set per track group, numbered from `firstId` in order; the
   * set of the first group that throws decides the error.
   */
  function TrackSets(env: Env, mimeType: string, groups: seq<seq<Format>>, firstId: nat): (r: Result<seq<Slot>, Error>)
    requires TrackGroups(groups)
    ensures r.Ok? <==> GroupsAddressable(groups)
    ensures r.Err? ==> r.error.RangesUnavailable?
    ensures r.Ok? ==> |r.value| == |groups| && Numbered(r.value, firstId)
  {
    TrackSetResultsCollect(env, mimeType, groups, firstId);
    Collect(NumberedResults(TrackSetAt(env, mimeType, groups), SetIds(firstId, |groups|)), |groups|)
  }

  /** Set `j` of the track sets is the track set of group `j`, with the id `firstId + j`. */
  lemma TrackSetsEach(env: Env, mimeType: string, groups: seq<seq<Format>>, firstId: nat)
    requires TrackGroups(groups)
    ensures var r := TrackSets(env, mimeType, groups, firstId);
      r.Ok? ==> forall j :: 0 <= j < |groups| ==> TrackSet(env, mimeType, groups[j], firstId + j) == Ok(r.value[j])
  {
    TrackSetResultsEach(env, mimeType, groups, firstId);
  }

  /** The track sets throw the error of the first group holding a format that cannot be addressed. */
  lemma TrackSetsFirstErr(env: Env, mimeType: string, groups: seq<seq<Format>>, firstId: nat)
    requires TrackGroups(groups)
    ensures var r := TrackSets(env, mimeType, groups, firstId);
      var k := FirstUnaddressable(groups);
      r.Err? ==> k.Some? && TrackSet(env, mimeType, groups[k.value], firstId + k.value) == Err(r.error)
  {
    TrackSetResultsFirstErr(env, mimeType, groups, firstId);
    var k := FirstUnaddressable(groups);
    if k.Some? {
      TrackSetResultAt(env, mimeType, groups, firstId, k.value, firstId + k.value);
    }
  }

  /** With every format tracked, each track group starts with a format that has an audio track. */
  lemma TrackGroupsOf(formats: seq<Format>)
    requires FirstTrackless(formats).None?
    ensures TrackGroups(Groups(formats, TrackIdOf))
  {
    var groups := Groups(formats, TrackIdOf);
    GroupsNonEmpty(formats, TrackIdOf);
    forall j | 0 <= j < |groups| ensures HasTrack(groups[j][0]) {
      assert groups[j][0] in groups[j];
    }
  }

  /** The groups of a list can all be addressed exactly when the list can. */
  lemma GroupsAddressableIff(formats: seq<Format>, key: Format -> string)
    ensures GroupsAddressable(Groups(formats, key)) <==> AllAddressable(formats)
  {
    var groups := Groups(formats, key);
    GroupsNonEmpty(formats, key);
    if AllAddressable(formats) {
      forall j, i | 0 <= j < |groups| && 0 <= i < |groups[j]| ensures Addressable(groups[j][i]) {
        assert groups[j][i] in groups[j];
      }
    }
    if GroupsAddressable(groups) {
      forall i | 0 <= i < |formats| ensures Addressable(formats[i]) {
        var j := GroupsCover(formats, key, formats[i]);
        var t :| 0 <= t < |groups[j]| && groups[j][t] == formats[i];
      }
    }
  }

  /**
   * What `<MutiTrackSet />` evaluates to: a fragment of one adaptation set per
   * audio track, tracks in first-seen order, numbered from `firstId`; or the
   * TypeError of the first format without an audio track.
   */
  function MultiTrackSetOf(env: Env, mimeType: string, formats: seq<Format>, firstId: nat): (r: Result<Slot, Error>)
    ensures FirstTrackless(formats).Some? ==> r == Err(MissingAudioTrack(FirstTrackless(formats).value))
    ensures FirstTrackless(formats).None? ==> (r.Ok? <==> AllAddressable(formats))
    ensures r.Err? ==> r.error.RangesUnavailable? || r.error.MissingAudioTrack?
    ensures r.Ok? ==>
      r.value.Many? && |r.value.items| == |KeysOf(formats, TrackIdOf)| && Numbered(r.value.items, firstId)
  {
    match FirstTrackless(formats)
    case Some(f) => Err(MissingAudioTrack(f))
    case None =>
      var groups := Groups(formats, TrackIdOf);
      TrackGroupsOf(formats);
      GroupsAddressableIff(formats, TrackIdOf);
      var sets :- TrackSets(env, mimeType, groups, firstId);
      NormalizeOne(Many(sets));
      CreateElement(Component(Fragment), [], [Many(sets)])
  }

  /**
   * With every format tracked, the fragment is made of the track sets: it
   * holds exactly those sets, or throws their error.
   */
  lemma MultiTrackSetOfSets(env: Env, mimeType: string, formats: seq<Format>, firstId: nat)
    requires FirstTrackless(formats).None?
    ensures TrackGroups(Groups(formats, TrackIdOf))
    ensures var sets := TrackSets(env, mimeType, Groups(formats, TrackIdOf), firstId);
      MultiTrackSetOf(env, mimeType, formats, firstId) == if sets.Ok? then Ok(Many(sets.value)) else Err(sets.error)
  {
    TrackGroupsOf(formats);
    var sets := TrackSets(env, mimeType, Groups(formats, TrackIdOf), firstId);
    if sets.Ok? {
      NormalizeOne(Many(sets.value));
    }
  }

  /**
   * Set `j` of the fragment is the adaptation set of the `j`-th audio track in
   * first-seen order, holding exactly that track's formats, with the id
   * `firstId + j`.
   */
  lemma MultiTrackSetOfEach(env: Env, mimeType: string, formats: seq<Format>, firstId: nat)
    ensures var r := MultiTrackSetOf(env, mimeType, formats, firstId);
      var groups := Groups(formats, TrackIdOf);
      r.Ok? ==>
        r.value.Many? && |r.value.items| == |groups| &&
        forall j :: 0 <= j < |groups| ==>
          |groups[j]| > 0 && HasTrack(groups[j][0]) &&
          TrackSet(env, mimeType, groups[j], firstId + j) == Ok(r.value.items[j])
  {
    if FirstTrackless(formats).None? {
      MultiTrackSetOfSets(env, mimeType, formats, firstId);
      TrackSetsEach(env, mimeType, Groups(formats, TrackIdOf), firstId);
    }
  }

  /**
   * With every format tracked, the fragment throws the error of the set of the
   * first track holding a format that cannot be addressed.
   */
  lemma MultiTrackSetOfFirstErr(env: Env, mimeType: string, formats: seq<Format>, firstId: nat)
    ensures var r := MultiTrackSetOf(env, mimeType, formats, firstId);
      var groups := Groups(formats, TrackIdOf);
      var k := FirstUnaddressable(groups);
      FirstTrackless(formats).None? && r.Err? ==>
        k.Some? && |groups[k.value]| > 0 && HasTrack(groups[k.value][0]) &&
        TrackSet(env, mimeType, groups[k.value], firstId + k.value) == Err(r.error)
  {
    if FirstTrackless(formats).None? {
      MultiTrackSetOfSets(env, mimeType, formats, firstId);
      TrackSetsFirstErr(env, mimeType, Groups(formats, TrackIdOf), firstId);
    }
  }

  /**
   * The first loop of `<MutiTrackSet />`: the formats are put into a Map from
   * audio-track id to formats, in first-seen order; `audio_track!.id` throws
   * on the first format without a track. The result is the Map's values.
   */
  method TrackBuckets(formats: seq<Format>) returns (r: Result<seq<seq<Format>>, Error>)
    ensures FirstTrackless(formats).Some? ==> r == Err(MissingAudioTrack(FirstTrackless(formats).value))
    ensures FirstTrackless(formats).None? ==> r == Ok(Groups(formats, TrackIdOf))
  {
    var trackIds: seq<string> := [];
    var tracks: map<string, seq<Format>> := map[];
    for i := 0 to |formats|
      invariant FirstTrackless(formats[..i]).None?
      invariant GroupState(formats[..i], TrackIdOf, trackIds, tracks)
    {
      var format := formats[i];
      assert formats[..i + 1] == formats[..i] + [format];
      FirstTracklessSnoc(formats[..i], format);
      if format.audioTrack.None? {
        FirstTracklessPrefix(formats, i + 1);
        return Err(MissingAudioTrack(format));
      }
      var id := format.audioTrack.value.id;
      GroupStateSnoc(formats[..i], format, TrackIdOf, trackIds, tracks);
      if id !in tracks {
        tracks := tracks[id := []];
        trackIds := trackIds + [id];
      }
      tracks := tracks[id := tracks[id] + [format]];
    }
    assert formats[..|formats|] == formats;
    GroupStateGroups(formats, TrackIdOf, trackIds, tracks);
    var values := seq(|trackIds|, j requires 0 <= j < |trackIds| => tracks[trackIds[j]]);
    assert forall j :: 0 <= j < |values| ==> values[j] == Groups(formats, TrackIdOf)[j];
    assert values == Groups(formats, TrackIdOf);
    r := Ok(values);
  }

  /**
   * `values.map(callback)` where the callback takes `getNextSetId()` first:
   * `f` is called on each position in order with the counter's next id, and
   * the first throw ends the loop. On success the counter has moved on by `n`.
   */
  method MapWithSetIds<T>(f: (nat, nat) --> Result<T, Error>, n: nat, counter: SetIdCounter) returns (r: Result<seq<T>, Error>)
    requires forall j, id :: 0 <= j < n ==> f.requires(j, id)
    modifies counter
    ensures r == Collect(NumberedResults(f, SetIds(old(counter.next), n)), n)
    ensures r.Ok? ==> counter.next == old(counter.next) + n
  {
    ghost var ids := SetIds(counter.next, n);
    ghost var results := NumberedResults(f, ids);
    var values: seq<T> := [];
    for j := 0 to n
      invariant counter.next == old(counter.next) + j
      invariant Collect(results, j) == Ok(values)
    {
      CollectNext(results, j);
      var setId := counter.GetNextSetId();
      var value := f(j, setId);
      assert value == results[j];
      if value.Err? {
        CollectErrExtends(results, j + 1, n);
        return Err(value.error);
      }
      values := values + [value.value];
    }
    return Ok(values);
  }

  /**
   * `<MutiTrackSet />`: the formats are bucketed by audio-track id, each
   * bucket becomes an adaptation set numbered from the counter, and the sets
   * are returned in a fragment. On success the counter has moved on by the
   * number of tracks.
   */
  method MutiTrackSet(env: Env, formats: seq<Format>, mimeType: string, counter: SetIdCounter) returns (r: Result<Slot, Error>)
    modifies counter
    ensures r == MultiTrackSetOf(env, mimeType, formats, old(counter.next))
    ensures r.Ok? ==> counter.next == old(counter.next) + |KeysOf(formats, TrackIdOf)|
  {
    var tracks :- TrackBuckets(formats);
    MultiTrackSetOfSets(env, mimeType, formats, counter.next);
    var sets :- MapWithSetIds(TrackSetAt(env, mimeType, tracks), |tracks|, counter);
    NormalizeOne(Many(sets));
    r := CreateElement(Component(Fragment), [], [Many(sets)]);
  }

  // ------------------------------------------------------------ the period

  /** The rule of the period loop: a bucket is multi-track when its first format has audio and a track. */
  predicate IsMultiTrack(formats: seq<Format>)
    requires |formats| > 0
  {
    formats[0].hasAudio && formats[0].audioTrack.Some?
  }

  /** How many set ids a bucket uses. */
  function SetCount(formats: seq<Format>): nat
    requires |formats| > 0
  {
    if IsMultiTrack(formats) then |KeysOf(formats, TrackIdOf)| else 1
  }

  ghost predicate NonEmptyGroups(groups: seq<seq<Format>>) {
    forall j :: 0 <= j < |groups| ==> |groups[j]| > 0
  }

  /** The number of set ids the first `n` buckets use together: the first id of bucket `n`. */
  function SetTotal(groups: seq<seq<Format>>, n: nat): nat
    requires NonEmptyGroups(groups) && n <= |groups|
  {
    if n == 0 then 0 else SetTotal(groups, n - 1) + SetCount(groups[n - 1])
  }

  /** A bucket builds without a throw: its formats can be addressed and, if it is multi-track, all have a track. */
  predicate BucketOk(formats: seq<Format>) {
    |formats| > 0 && AllAddressable(formats) && (IsMultiTrack(formats) ==> FirstTrackless(formats).None?)
  }

  /**
   * The period child for one MIME bucket whose first set id is `id`: the
   * fragment of its track sets when the bucket is multi-track, otherwise a
   * single adaptation set. Spliced into the period, it gives `SetCount`
   * sets numbered from `id`.
   */
  function MimeSet(env: Env, mimeType: string, formats: seq<Format>, id: nat): (r: Result<Slot, Error>)
    requires |formats| > 0
    ensures r.Ok? <==> BucketOk(formats)
    ensures r.Err? ==> r.error.RangesUnavailable? || r.error.MissingAudioTrack?
    ensures r.Err? && AllAddressable(formats) ==> r.error.MissingAudioTrack?
    ensures r.Ok? ==> |Spliced(r.value)| == SetCount(formats) && Numbered(Spliced(r.value), id)
  {
    if IsMultiTrack(formats) then
      MultiTrackSetFacts(env, mimeType, formats, id);
      MultiTrackSetOf(env, mimeType, formats, id)
    else
      SingleSetFacts(env, mimeType, formats, id);
      SingleSet(env, mimeType, formats, id)
  }

  /** A bucket without tracks becomes one adaptation set around the representations of all its formats. */
  lemma MimeSetSingle(env: Env, mimeType: string, formats: seq<Format>, id: nat)
    requires |formats| > 0
    ensures var r := MimeSet(env, mimeType, formats, id);
      !IsMultiTrack(formats) && r.Ok? ==> r.value == SingleSetOf(mimeType, id, Representations(env, formats, false).value)
  {
  }

  /**
   * A multi-track bucket becomes the fragment of its track sets: set `j` holds
   * the formats of the `j`-th track in first-seen order and has the id `id + j`.
   */
  lemma MimeSetTracks(env: Env, mimeType: string, formats: seq<Format>, id: nat)
    requires |formats| > 0
    ensures var r := MimeSet(env, mimeType, formats, id);
      var groups := Groups(formats, TrackIdOf);
      IsMultiTrack(formats) && r.Ok? ==>
        r.value.Many? && |r.value.items| == |groups| &&
        forall j :: 0 <= j < |groups| ==>
          |groups[j]| > 0 && HasTrack(groups[j][0]) &&
          TrackSet(env, mimeType, groups[j], id + j) == Ok(r.value.items[j])
  {
    MultiTrackSetOfEach(env, mimeType, formats, id);
  }

  /** A multi-track bucket splices into one set per track, numbered from `id`. */
  lemma MultiTrackSetFacts(env: Env, mimeType: string, formats: seq<Format>, id: nat)
    requires |formats| > 0 && IsMultiTrack(formats)
    ensures var x := MultiTrackSetOf(env, mimeType, formats, id);
      (x.Ok? <==> BucketOk(formats)) &&
      (x.Err? ==> x.error.RangesUnavailable? || x.error.MissingAudioTrack?) &&
      (x.Err? && AllAddressable(formats) ==> x.error.MissingAudioTrack?) &&
      (x.Ok? ==> |Spliced(x.value)| == SetCount(formats) && Numbered(Spliced(x.value), id))
  {
  }

  /** A bucket without tracks splices into one set with the id `id`. */
  lemma SingleSetFacts(env: Env, mimeType: string, formats: seq<Format>, id: nat)
    requires |formats| > 0 && !IsMultiTrack(formats)
    ensures var x := SingleSet(env, mimeType, formats, id);
      (x.Ok? <==> BucketOk(formats)) &&
      (x.Err? ==> x.error.RangesUnavailable?) &&
      (x.Ok? ==> |Spliced(x.value)| == 1 && Numbered(Spliced(x.value), id))
  {
    var x := SingleSet(env, mimeType, formats, id);
    if x.Ok? {
      SingleSetNumbered(mimeType, id, Representations(env, formats, false).value);
    }
  }

  lemma SingleSetNumbered(mimeType: string, id: nat, reps: seq<Slot>)
    requires forall i :: 0 <= i < |reps| ==> reps[i].Elem?
    ensures |Spliced(SingleSetOf(mimeType, id, reps))| == 1 && Numbered(Spliced(SingleSetOf(mimeType, id, reps)), id)
  {
    var s := SingleSetOf(mimeType, id, reps);
    SingleSetShape(mimeType, id, reps);
    assert Spliced(s) == [s];
    assert IsSet(Spliced(s)[0], id + 0);
  }

  /** Every bucket builds without a throw. */
  ghost predicate BucketsOk(groups: seq<seq<Format>>) {
    forall j :: 0 <= j < |groups| ==> BucketOk(groups[j])
  }

  /** The first set id of each of the first `n` buckets. */
  function FirstIds(groups: seq<seq<Format>>, n: nat): (r: seq<nat>)
    requires NonEmptyGroups(groups) && n <= |groups| + 1
    ensures |r| == n && forall j :: 0 <= j < n ==> r[j] == SetTotal(groups, j)
  {
    seq(n, j requires 0 <= j < n => SetTotal(groups, j))
  }

  /** The period child of bucket `j`, given its first set id. */
  function MimeSetAt(env: Env, mimeTypes: seq<string>, groups: seq<seq<Format>>): (r: (nat, nat) --> Result<Slot, Error>)
    requires |mimeTypes| == |groups| && NonEmptyGroups(groups)
    ensures forall j, id :: 0 <= j < |groups| ==> r.requires(j, id)
  {
    (j: nat, id: nat) requires j < |groups| => MimeSet(env, mimeTypes[j], groups[j], id)
  }

  /** The child of each bucket, the bucket at position `j` starting at the id `SetTotal(groups, j)`. */
  function PeriodResults(env: Env, mimeTypes: seq<string>, groups: seq<seq<Format>>): (r: seq<Result<Slot, Error>>)
    requires |mimeTypes| == |groups| && NonEmptyGroups(groups)
    ensures |r| == |groups|
  {
    NumberedResults(MimeSetAt(env, mimeTypes, groups), FirstIds(groups, |groups|))
  }

  /** What the child of one bucket is: exactly `MimeSet` at the bucket's first id. */
  lemma MimeSetAtFacts(env: Env, mimeTypes: seq<string>, groups: seq<seq<Format>>, j: nat)
    requires |mimeTypes| == |groups| && NonEmptyGroups(groups) && j < |groups|
    ensures PeriodResults(env, mimeTypes, groups)[j] == MimeSet(env, mimeTypes[j], groups[j], SetTotal(groups, j))
  {
  }

  /** The child of one bucket is there exactly when the bucket builds without a throw. */
  lemma PeriodResultOkAt(env: Env, mimeTypes: seq<string>, groups: seq<seq<Format>>, j: nat)
    requires |mimeTypes| == |groups| && NonEmptyGroups(groups) && j < |groups|
    ensures PeriodResults(env, mimeTypes, groups)[j].Ok? <==> BucketOk(groups[j])
  {
    MimeSetAtFacts(env, mimeTypes, groups, j);
  }

  /** The error of one bucket: missing ranges or a missing audio track, only the latter when its formats are addressable. */
  lemma PeriodResultErrAt(env: Env, mimeTypes: seq<string>, groups: seq<seq<Format>>, j: nat)
    requires |mimeTypes| == |groups| && NonEmptyGroups(groups) && j < |groups|
    ensures var x := PeriodResults(env, mimeTypes, groups)[j];
      (x.Err? ==> x.error.RangesUnavailable? || x.error.MissingAudioTrack?) &&
      (x.Err? && AllAddressable(groups[j]) ==> x.error.MissingAudioTrack?)
  {
    MimeSetAtFacts(env, mimeTypes, groups, j);
  }

  /** The child of one bucket splices into `SetCount` sets numbered from the bucket's first id. */
  lemma PeriodResultNumberedAt(env: Env, mimeTypes: seq<string>, groups: seq<seq<Format>>, j: nat)
    requires |mimeTypes| == |groups| && NonEmptyGroups(groups) && j < |groups|
    ensures var x := PeriodResults(env, mimeTypes, groups)[j];
      x.Ok? ==>
        SetTotal(groups, j) + |Spliced(x.value)| == SetTotal(groups, j + 1) &&
        Numbered(Spliced(x.value), SetTotal(groups, j))
  {
    MimeSetAtFacts(env, mimeTypes, groups, j);
  }

  /** Every bucket's child is there exactly when that bucket builds. */
  lemma PeriodResultsEachOk(env: Env, mimeTypes: seq<string>, groups: seq<seq<Format>>)
    requires |mimeTypes| == |groups| && NonEmptyGroups(groups)
    ensures var rs := PeriodResults(env, mimeTypes, groups);
      forall j :: 0 <= j < |groups| ==> (rs[j].Ok? <==> BucketOk(groups[j]))
  {
    forall j | 0 <= j < |groups|
      ensures PeriodResults(env, mimeTypes, groups)[j].Ok? <==> BucketOk(groups[j])
    {
      PeriodResultOkAt(env, mimeTypes, groups, j);
    }
  }

  /**
   * Children that each splice into as many sets as their bucket's ids,
   * numbered from their bucket's first id, splice together into sets
   * numbered from 0.
   */
  lemma {:induction false} SplicedNumbered(children: seq<Slot>, firstIds: seq<nat>)
    requires |firstIds| == |children| + 1 && firstIds[0] == 0
    requires forall j :: 0 <= j < |children| ==> firstIds[j] + |Spliced(children[j])| == firstIds[j + 1]
    requires forall j :: 0 <= j < |children| ==> Numbered(Spliced(children[j]), firstIds[j])
    ensures |Flat1(children)| == firstIds[|children|] && Numbered(Flat1(children), 0)
  {
    if |children| > 0 {
      var n := |children|;
      var init := children[..n - 1];
      assert forall j :: 0 <= j < n - 1 ==> init[j] == children[j];
      SplicedNumbered(init, firstIds[..n]);
      NumberedAppend(Flat1(init), Spliced(children[n - 1]), 0, firstIds[n - 1]);
    }
  }

  /** The period's children are all there exactly when every bucket gives its child. */
  lemma PeriodResultsOk(env: Env, mimeTypes: seq<string>, groups: seq<seq<Format>>)
    requires |mimeTypes| == |groups| && NonEmptyGroups(groups)
    ensures Collect(PeriodResults(env, mimeTypes, groups), |groups|).Ok? <==> BucketsOk(groups)
  {
    PeriodResultsEachOk(env, mimeTypes, groups);
    CollectSpec(PeriodResults(env, mimeTypes, groups), |groups|);
  }

  /**
   * The error of the period is that of its first failing bucket: missing
   * ranges or a missing audio track, and only the latter when every format
   * is addressable.
   */
  lemma PeriodResultsErr(env: Env, mimeTypes: seq<string>, groups: seq<seq<Format>>)
    requires |mimeTypes| == |groups| && NonEmptyGroups(groups)
    ensures var r := Collect(PeriodResults(env, mimeTypes, groups), |groups|);
      (r.Err? ==> r.error.RangesUnavailable? || r.error.MissingAudioTrack?) &&
      (r.Err? && GroupsAddressable(groups) ==> r.error.MissingAudioTrack?)
  {
    var rs := PeriodResults(env, mimeTypes, groups);
    var r := Collect(rs, |groups|);
    CollectSpec(rs, |groups|);
    if r.Err? {
      var i :| 0 <= i < |groups| && rs[i] == Err(r.error) && forall j :: 0 <= j < i ==> rs[j].Ok?;
      PeriodResultErrAt(env, mimeTypes, groups, i);
    }
  }

  /** Spliced together, the period's children are all the sets, numbered from 0. */
  lemma PeriodResultsNumbered(env: Env, mimeTypes: seq<string>, groups: seq<seq<Format>>)
    requires |mimeTypes| == |groups| && NonEmptyGroups(groups)
    ensures var r := Collect(PeriodResults(env, mimeTypes, groups), |groups|);
      r.Ok? ==> |r.value| == |groups| && |Flat1(r.value)| == SetTotal(groups, |groups|) && Numbered(Flat1(r.value), 0)
  {
    var rs := PeriodResults(env, mimeTypes, groups);
    var r := Collect(rs, |groups|);
    if r.Ok? {
      CollectSpec(rs, |groups|);
      var firstIds := FirstIds(groups, |groups| + 1);
      forall j | 0 <= j < |groups|
        ensures firstIds[j] + |Spliced(r.value[j])| == firstIds[j + 1]
        ensures Numbered(Spliced(r.value[j]), firstIds[j])
      {
        assert rs[j] == Ok(r.value[j]);
        PeriodResultNumberedAt(env, mimeTypes, groups, j);
      }
      SplicedNumbered(r.value, firstIds);
    }
  }

  /**
   * The children of the period, one per bucket in Map order, or the error of
   * the first bucket that throws. Spliced together they are all the
   * adaptation sets, numbered from 0.
   */
  function PeriodSets(env: Env, mimeTypes: seq<string>, groups: seq<seq<Format>>): (r: Result<seq<Slot>, Error>)
    requires |mimeTypes| == |groups| && NonEmptyGroups(groups)
    ensures r.Ok? <==> BucketsOk(groups)
    ensures r.Err? ==> r.error.RangesUnavailable? || r.error.MissingAudioTrack?
    ensures r.Err? && GroupsAddressable(groups) ==> r.error.MissingAudioTrack?
    ensures r.Ok? ==>
      |r.value| == |groups| && |Flat1(r.value)| == SetTotal(groups, |groups|) && Numbered(Flat1(r.value), 0)
  {
    PeriodResultsOk(env, mimeTypes, groups);
    PeriodResultsErr(env, mimeTypes, groups);
    PeriodResultsNumbered(env, mimeTypes, groups);
    Collect(PeriodResults(env, mimeTypes, groups), |groups|)
  }

  /** Child `j` of the period is the child of bucket `j`, whose sets are numbered from the bucket's first id. */
  lemma PeriodSetsEach(env: Env, mimeTypes: seq<string>, groups: seq<seq<Format>>)
    requires |mimeTypes| == |groups| && NonEmptyGroups(groups)
    ensures var r := PeriodSets(env, mimeTypes, groups);
      r.Ok? ==> forall j :: 0 <= j < |groups| ==> MimeSet(env, mimeTypes[j], groups[j], SetTotal(groups, j)) == Ok(r.value[j])
  {
    var rs := PeriodResults(env, mimeTypes, groups);
    CollectSpec(rs, |groups|);
    forall j | 0 <= j < |groups|
      ensures rs[j] == MimeSet(env, mimeTypes[j], groups[j], SetTotal(groups, j))
    {
      MimeSetAtFacts(env, mimeTypes, groups, j);
    }
  }

  /** The buckets before the first one that throws all give their child. */
  lemma PeriodResultsOkBelow(env: Env, mimeTypes: seq<string>, groups: seq<seq<Format>>, n: nat)
    requires |mimeTypes| == |groups| && NonEmptyGroups(groups) && n <= |groups|
    requires forall j :: 0 <= j < n ==> BucketOk(groups[j])
    ensures forall j :: 0 <= j < n ==> PeriodResults(env, mimeTypes, groups)[j].Ok?
  {
    forall j | 0 <= j < n ensures PeriodResults(env, mimeTypes, groups)[j].Ok? {
      PeriodResultOkAt(env, mimeTypes, groups, j);
    }
  }

  /** Collected in order, the buckets' children throw the error of the first bucket that throws. */
  lemma PeriodResultsFirstErr(env: Env, mimeTypes: seq<string>, groups: seq<seq<Format>>)
    requires |mimeTypes| == |groups| && NonEmptyGroups(groups)
    ensures var rs := PeriodResults(env, mimeTypes, groups);
      var k := FirstFailing(BucketOk, groups);
      k.Some? ==> rs[k.value].Err? && Collect(rs, |groups|) == Err(rs[k.value].error)
  {
    var k := FirstFailing(BucketOk, groups);
    if k.Some? {
      PeriodResultsOkBelow(env, mimeTypes, groups, k.value);
      PeriodResultOkAt(env, mimeTypes, groups, k.value);
      CollectErrIsFirst(PeriodResults(env, mimeTypes, groups), |groups|, k.value);
    }
  }

  /** The period throws the error of the first bucket that throws. */
  lemma PeriodSetsFirstErr(env: Env, mimeTypes: seq<string>, groups: seq<seq<Format>>)
    requires |mimeTypes| == |groups| && NonEmptyGroups(groups)
    ensures var r := PeriodSets(env, mimeTypes, groups);
      var k := FirstFailing(BucketOk, groups);
      r.Err? ==> k.Some? && MimeSet(env, mimeTypes[k.value], groups[k.value], SetTotal(groups, k.value)) == Err(r.error)
  {
    var k := FirstFailing(BucketOk, groups);
    if k.Some? {
      PeriodResultsFirstErr(env, mimeTypes, groups);
      MimeSetAtFacts(env, mimeTypes, groups, k.value);
    }
  }

  /**
   * One turn of the period loop: a multi-track bucket renders through
   * `<MutiTrackSet />` with the counter; any other bucket takes `set_id++`
   * for a single adaptation set.
   */
  method BucketChild(env: Env, mimeType: string, formats: seq<Format>, counter: SetIdCounter) returns (r: Result<Slot, Error>)
    requires |formats| > 0
    modifies counter
    ensures r == MimeSet(env, mimeType, formats, old(counter.next))
    ensures r.Ok? ==> counter.next == old(counter.next) + SetCount(formats)
  {
    if formats[0].hasAudio && formats[0].audioTrack.Some? {
      r := MutiTrackSet(env, formats, mimeType, counter);
    } else {
      var setId := counter.GetNextSetId();
      r := SingleSet(env, mimeType, formats, setId);
    }
  }

  /** One turn of the period loop and what it adds to the children collected before it. */
  method PeriodTurn(env: Env, mimeTypes: seq<string>, groups: seq<seq<Format>>, j: nat, counter: SetIdCounter, ghost children: seq<Slot>)
    returns (child: Result<Slot, Error>)
    requires |mimeTypes| == |groups| && NonEmptyGroups(groups) && j < |groups|
    requires counter.next == SetTotal(groups, j)
    requires Collect(PeriodResults(env, mimeTypes, groups), j) == Ok(children)
    modifies counter
    ensures child.Ok? ==> counter.next == SetTotal(groups, j + 1)
    ensures Collect(PeriodResults(env, mimeTypes, groups), j + 1) ==
      if child.Ok? then Ok(children + [child.value]) else Err(child.error)
  {
    CollectNext(PeriodResults(env, mimeTypes, groups), j);
    MimeSetAtFacts(env, mimeTypes, groups, j);
    child := BucketChild(env, mimeTypes[j], groups[j], counter);
  }

  /**
   * The period loop of `<DashManifest />`: `set_id` starts at 0 and each MIME
   * bucket in Map order adds its child; the first throw ends the loop.
   */
  method PeriodLoop(env: Env, mimeTypes: seq<string>, groups: seq<seq<Format>>) returns (r: Result<seq<Slot>, Error>)
    requires |mimeTypes| == |groups| && NonEmptyGroups(groups)
    ensures r == PeriodSets(env, mimeTypes, groups)
  {
    var counter := new SetIdCounter();
    ghost var results := PeriodResults(env, mimeTypes, groups);
    var children: seq<Slot> := [];
    for j := 0 to |groups|
      invariant counter.next == SetTotal(groups, j)
      invariant Collect(results, j) == Ok(children)
    {
      var child := PeriodTurn(env, mimeTypes, groups, j, counter, children);
      if child.Err? {
        CollectErrExtends(results, j + 1, |groups|);
        return Err(child.error);
      }
      children := children + [child.value];
    }
    return Ok(children);
  }

  // ---------------------------------------------------------- the manifest

  /** `rejectFormat ? adaptive_formats.filter((fmt) => !rejectFormat(fmt)) : adaptive_formats`. */
  function Kept(formats: seq<Format>, rejectFormat: Option<Format -> bool>): (r: seq<Format>)
    ensures rejectFormat.None? ==> r == formats
    ensures forall f :: f in r <==> f in formats && (rejectFormat.Some? ==> !rejectFormat.value(f))
  {
    match rejectFormat
    case None => formats
    case Some(reject) => Filter(f => !reject(f), formats)
  }

  const MpdNamespace: string := "urn:mpeg:dash:schema:mpd:2011"
  const MainProfile: string := "urn:mpeg:dash:profile:isoff-main:2011"
  const SchemaInstance: string := "http://www.w3.org/2001/XMLSchema-instance"
  const MpdSchemaLocation: string :=
    "urn:mpeg:dash:schema:mpd:2011 http://standards.iso.org/ittf/PubliclyAvailableStandards/MPEG-DASH_schema_files/DASH-MPD.xsd"

  /** The attributes of the `mpd` element: a static presentation in the main profile, lasting `duration` seconds. */
  function MpdProps(duration: string): Props {
    [("xmlns", Str(MpdNamespace)),
     ("minBufferTime", Str("PT1.500S")),
     ("profiles", Str(MainProfile)),
     ("type", Str("static")),
     ("mediaPresentationDuration", Str("PT" + duration + "S")),
     ("xmlns:xsi", Str(SchemaInstance)),
     ("xsi:schemaLocation", Str(MpdSchemaLocation))]
  }

  /** The `mpd` element with the given attributes around a period holding the given children. */
  function Mpd(props: Props, children: seq<Slot>): Slot {
    Element("mpd", props, [Element("period", [], [Many(children)])])
  }

  /** The kept formats that can be addressed, which are the ones bucketed. */
  function Addressed(formats: seq<Format>): seq<Format> {
    Filter(Addressable, formats)
  }

  /** The MIME buckets are non-empty and hold only formats that can be addressed. */
  lemma BucketsAddressed(formats: seq<Format>)
    ensures NonEmptyGroups(Groups(Addressed(formats), MimeOf))
    ensures GroupsAddressable(Groups(Addressed(formats), MimeOf))
  {
    var addressed := Addressed(formats);
    GroupsNonEmpty(addressed, MimeOf);
    GroupsAddressableIff(addressed, MimeOf);
  }

  /** The MIME types of the buckets in Map order. */
  function MimeTypes(formats: seq<Format>): seq<string> {
    KeysOf(Addressed(formats), MimeOf)
  }

  /** The formats of each MIME bucket, in Map order. */
  function MimeBuckets(formats: seq<Format>): (r: seq<seq<Format>>)
    ensures |r| == |MimeTypes(formats)|
    ensures NonEmptyGroups(r) && GroupsAddressable(r)
  {
    BucketsAddressed(formats);
    Groups(Addressed(formats), MimeOf)
  }

  lemma AddressedSnoc(formats: seq<Format>, i: nat)
    requires i < |formats|
    ensures Addressed(formats[..i + 1]) ==
      Addressed(formats[..i]) + (if Addressable(formats[i]) then [formats[i]] else [])
  {
    assert formats[..i + 1] == formats[..i] + [formats[i]];
    FilterSnoc(Addressable, formats[..i], formats[i]);
  }

  /**
   * The bucketing loop of `<DashManifest />`: formats that can be addressed
   * are pushed onto the Map entry of their MIME type, a new type being set to
   * an empty list first; the others are skipped. The Map's keys and values
   * are returned in insertion order.
   */
  method BucketByMime(formats: seq<Format>) returns (mimeTypes: seq<string>, buckets: seq<seq<Format>>)
    ensures mimeTypes == MimeTypes(formats) && buckets == MimeBuckets(formats)
  {
    var keys: seq<string> := [];
    var mimeInfo: map<string, seq<Format>> := map[];
    for i := 0 to |formats|
      invariant GroupState(Addressed(formats[..i]), MimeOf, keys, mimeInfo)
    {
      var format := formats[i];
      ghost var done := Addressed(formats[..i]);
      AddressedSnoc(formats, i);
      if !((format.indexRange.Some? && format.initRange.Some?) || format.isTypeOtf) {
        assert Addressed(formats[..i + 1]) == done;
        continue;
      }
      assert Addressed(formats[..i + 1]) == done + [format];
      var mimeType := format.mimeType;
      GroupStateSnoc(done, format, MimeOf, keys, mimeInfo);
      if mimeType !in mimeInfo {
        mimeInfo := mimeInfo[mimeType := []];
        keys := keys + [mimeType];
      }
      mimeInfo := mimeInfo[mimeType := mimeInfo[mimeType] + [format]];
    }
    assert formats[..|formats|] == formats;
    GroupStateGroups(Addressed(formats), MimeOf, keys, mimeInfo);
    mimeTypes := keys;
    buckets := seq(|keys|, j requires 0 <= j < |keys| => mimeInfo[keys[j]]);
    assert forall j :: 0 <= j < |buckets| ==> buckets[j] == MimeBuckets(formats)[j];
  }

  /**
   * What `<DashManifest />` evaluates to: an error when no format is kept;
   * otherwise the `mpd` element whose period holds one child per MIME bucket
   * of the addressable formats, or the error of the first bucket that throws.
   */
  function ManifestOf(env: Env, data: StreamingData, rejectFormat: Option<Format -> bool>): (r: Result<Slot, Error>)
    ensures |Kept(data.adaptiveFormats, rejectFormat)| == 0 ==> r == Err(NoAdaptiveFormats)
    ensures r.Err? && r.error != NoAdaptiveFormats ==> r.error.MissingAudioTrack?
  {
    var formats := Kept(data.adaptiveFormats, rejectFormat);
    if |formats| == 0 then Err(NoAdaptiveFormats)
    else
      var children :- PeriodSets(env, MimeTypes(formats), MimeBuckets(formats));
      Ok(Mpd(MpdProps(DurationText(formats[0].approxDurationMs)), children))
  }

  /**
   * `<DashManifest />`: the formats are filtered, the duration is read from
   * the first one, the addressable ones are bucketed by MIME type and the
   * period loop builds the children of the `mpd` element's period.
   */
  method ManifestElement(env: Env, data: StreamingData, rejectFormat: Option<Format -> bool>) returns (r: Result<Slot, Error>)
    ensures r == ManifestOf(env, data, rejectFormat)
  {
    var formats := Kept(data.adaptiveFormats, rejectFormat);
    if |formats| == 0 {
      return Err(NoAdaptiveFormats);
    }
    var durationMs := formats[0].approxDurationMs;
    var mimeTypes, buckets := BucketByMime(formats);
    var children :- PeriodLoop(env, mimeTypes, buckets);
    return Ok(Mpd(MpdProps(DurationText(durationMs)), children));
  }

  /**
   * What `toDash` returns: without streaming data it throws; otherwise the
   * manifest element is evaluated and serialized.
   */
  function ToDashOf(env: Env, data: Option<StreamingData>, rejectFormat: Option<Format -> bool>): (r: Result<Xml, Error>)
    ensures data.None? ==> r == Err(StreamingDataUnavailable)
  {
    match data
    case None => Err(StreamingDataUnavailable)
    case Some(d) =>
      var root :- ManifestOf(env, d, rejectFormat);
      RenderItem(root)
  }

  /**
   * `toDash(streaming_data, url_transformer, format_filter, ...)`: the missing
   * URL transformer is the identity, which `StreamUrl` applies when the
   * environment holds none.
   */
  method ToDash(env: Env, data: Option<StreamingData>, rejectFormat: Option<Format -> bool>) returns (r: Result<Xml, Error>)
    ensures r == ToDashOf(env, data, rejectFormat)
  {
    if data.None? {
      return Err(StreamingDataUnavailable);
    }
    var root :- ManifestElement(env, data.value, rejectFormat);
    r := Serialize(root);
  }
}
