/**
 * `getOTFSegmentInfo`: the timing of an OTF ("open") stream is read from the
 * first segment, whose body holds a line such as
 * `Segment-Durations-Ms: 5120(r=920),3600,` listing each segment duration in
 * milliseconds and, after `(r=`, how many more times it repeats. The network
 * request is a parameter: `fetch` maps the probed URL to the (possibly
 * redirected) response URL and the response text.
 */
module OtfSegments {
  import opened Wrappers
  import opened Strings
  import opened Errors

  const DurationsMarker: string := "Segment-Durations-Ms:"
  const LineEnd: string := "\r\n"
  const RepeatOpen: string := "(r="
  const RepeatClose: string := ")"

  datatype ProbeResponse = ProbeResponse(url: string, body: string)

  /** One entry of the durations line: a duration and, when `(r=N)` follows it, its repeat count. */
  datatype SegmentDuration = SegmentDuration(duration: ParsedInt, repeatCount: Option<ParsedInt>)

  datatype OtfSegmentInfo = OtfSegmentInfo(resolvedUrl: string, segmentDurations: seq<SegmentDuration>)

  /** The first segment's URL: sequence number 0 of the stream. */
  function ProbeUrl(url: string): string {
    url + "&rn=0&sq=0"
  }

  /** The response URL with the first `&rn=0` and then the first `&sq=0` removed. */
  function ResolvedUrl(responseUrl: string): string {
    RemoveFirst(RemoveFirst(responseUrl, "&rn=0"), "&sq=0")
  }

  /** A trimmed, non-empty entry: its leading integer, and the integer inside `(r=…)` when that text is non-empty. */
  function ParseEntry(trimmed: string): SegmentDuration {
    var repeat := Between(trimmed, RepeatOpen, RepeatClose);
    SegmentDuration(
      ParseInt(trimmed),
      if repeat.Some? && repeat.value != [] then Some(ParseInt(repeat.value)) else None)
  }

  /** The entries in order, trimmed, those left empty skipped, each parsed. */
  function Durations(entries: seq<string>): seq<SegmentDuration> {
    if entries == [] then []
    else
      var trimmed := Trim(entries[|entries| - 1]);
      Durations(entries[..|entries| - 1]) + (if trimmed == [] then [] else [ParseEntry(trimmed)])
  }

  /** What `getOTFSegmentInfo` yields for the response to its probe. */
  function SegmentInfoOf(url: string, response: ProbeResponse): Result<OtfSegmentInfo, Error> {
    match Between(response.body, DurationsMarker, LineEnd)
    case None => Err(SegmentDurationsMissing(url))
    case Some(line) => Ok(OtfSegmentInfo(ResolvedUrl(response.url), Durations(Split(line, ','))))
  }

  /**
   * The loop of `getOTFSegmentInfo` over the comma-separated entries: each is
   * trimmed, skipped when empty, and otherwise parsed into a duration and an
   * optional repeat count.
   */
  method SegmentDurations(entries: seq<string>) returns (segmentDurations: seq<SegmentDuration>)
    ensures segmentDurations == Durations(entries)
  {
    segmentDurations := [];
    for i := 0 to |entries|
      invariant segmentDurations == Durations(entries[..i])
    {
      assert entries[..i + 1][..i] == entries[..i];
      var trimmed := Trim(entries[i]);
      if |trimmed| == 0 {
        continue;
      }
      var repeatCount: Option<ParsedInt> := None;
      var repeatText := Between(trimmed, RepeatOpen, RepeatClose);
      if repeatText.Some? && repeatText.value != [] {
        repeatCount := Some(ParseInt(repeatText.value));
      }
      assert SegmentDuration(ParseInt(trimmed), repeatCount) == ParseEntry(trimmed);
      segmentDurations := segmentDurations + [SegmentDuration(ParseInt(trimmed), repeatCount)];
    }
    assert entries[..|entries|] == entries;
  }

  /** `getOTFSegmentInfo(url, actions)`, with the HTTP fetch as the function `fetch`. */
  method GetOTFSegmentInfo(url: string, fetch: string -> ProbeResponse) returns (r: Result<OtfSegmentInfo, Error>)
    ensures r == SegmentInfoOf(url, fetch(ProbeUrl(url)))
  {
    var response := fetch(ProbeUrl(url));
    var resolvedUrl := ResolvedUrl(response.url);
    var line := Between(response.body, DurationsMarker, LineEnd);
    if line.None? {
      return Err(SegmentDurationsMissing(url));
    }
    var segmentDurations := SegmentDurations(Split(line.value, ','));
    return Ok(OtfSegmentInfo(resolvedUrl, segmentDurations));
  }

  // ------------------------------------------------------------- properties

  /**
   * Reading the timing fails exactly when the body has no durations line (the
   * marker is missing, or no line end follows it), and the error names the
   * probed stream's URL.
   */
  lemma SegmentInfoFails(url: string, response: ProbeResponse)
    ensures SegmentInfoOf(url, response).Err? <==> Between(response.body, DurationsMarker, LineEnd).None?
    ensures SegmentInfoOf(url, response).Err? ==> SegmentInfoOf(url, response).error == SegmentDurationsMissing(url)
    ensures !Contains(response.body, DurationsMarker) ==> SegmentInfoOf(url, response) == Err(SegmentDurationsMissing(url))
  {
  }

  /** Without a redirect, the resolved URL is the stream URL that was probed. */
  lemma ResolvedWithoutRedirect(url: string)
    requires !Contains(url, "&rn=0") && !Contains(url, "&sq=0")
    ensures ResolvedUrl(ProbeUrl(url)) == url
  {
    assert ProbeUrl(url) == url + "&rn=0" + "&sq=0";
    RemoveFirstAfter(url, "&rn=0", "&sq=0");
    assert url + "&sq=0" == url + "&sq=0" + "";
    RemoveFirstAfter(url, "&sq=0", "");
    assert url + "" == url;
  }

  lemma {:induction false} DurationsAppend(a: seq<string>, b: seq<string>)
    ensures Durations(a + b) == Durations(a) + Durations(b)
    decreases |b|
  {
    if b == [] {
      assert a + b == a;
    } else {
      var init := b[..|b| - 1];
      assert (a + b)[..|a + b| - 1] == a + init;
      assert (a + b)[|a + b| - 1] == b[|b| - 1];
      DurationsAppend(a, init);
    }
  }

  /** A segment timing as the server writes it: milliseconds and an optional repeat count. */
  datatype Timing = Timing(ms: nat, repeat: Option<nat>)

  function EntryText(t: Timing): string {
    NatText(t.ms) + (if t.repeat.Some? then RepeatOpen + NatText(t.repeat.value) + RepeatClose else "")
  }

  function EntryTexts(ts: seq<Timing>): seq<string> {
    seq(|ts|, i requires 0 <= i < |ts| => EntryText(ts[i]))
  }

  /** The durations line after the marker: a space, the entries joined by commas, a trailing comma. */
  function DurationsLine(ts: seq<Timing>): string {
    " " + Join(EntryTexts(ts), ',') + ","
  }

  /** What the parser should make of a timing. */
  function Expected(t: Timing): SegmentDuration {
    SegmentDuration(Int(t.ms), if t.repeat.Some? then Some(Int(t.repeat.value)) else None)
  }

  lemma DigitsFree(n: nat, c: char)
    requires !IsDigit(c)
    ensures c !in NatText(n)
  {
  }

  /** An entry holds no comma and no line break, and starts and ends with a character that is not white space. */
  lemma EntryChars(t: Timing)
    ensures ',' !in EntryText(t) && '\r' !in EntryText(t)
    ensures EntryText(t) != [] && !IsSpace(EntryText(t)[0]) && !IsSpace(EntryText(t)[|EntryText(t)| - 1])
  {
    var d := NatText(t.ms);
    DigitsFree(t.ms, ',');
    DigitsFree(t.ms, '\r');
    assert !IsSpace(d[0]);
    if t.repeat.Some? {
      DigitsFree(t.repeat.value, ',');
      DigitsFree(t.repeat.value, '\r');
    } else {
      assert EntryText(t) == d;
    }
  }

  /** `trim` leaves an entry alone, and strips the space in front of the first one. */
  lemma EntryTrims(t: Timing)
    ensures Trim(EntryText(t)) == EntryText(t)
    ensures Trim(" " + EntryText(t)) == EntryText(t)
  {
    var e := EntryText(t);
    EntryChars(t);
    TrimKeeps(e);
    assert (" " + e)[1..] == e;
    assert TrimStart(" " + e) == TrimStart(e);
  }

  /** An entry parses back to its timing. */
  lemma EntryParses(t: Timing)
    ensures ParseEntry(EntryText(t)) == Expected(t)
  {
    var e := EntryText(t);
    var d := NatText(t.ms);
    DigitsFree(t.ms, '(');
    AbsentHead(d, RepeatOpen);
    if t.repeat.Some? {
      var n := NatText(t.repeat.value);
      DigitsFree(t.repeat.value, ')');
      AbsentHead(n, RepeatClose);
      assert e == d + RepeatOpen + n + RepeatClose + "";
      BetweenFramed(d, RepeatOpen, n, RepeatClose, "");
      assert e == NatText(t.ms) + (RepeatOpen + n + RepeatClose);
      ParseIntNatText(t.ms, RepeatOpen + n + RepeatClose);
      assert n + [] == n;
      ParseIntNatText(t.repeat.value, []);
    } else {
      assert e == d + [];
      ParseIntNatText(t.ms, []);
      assert Between(e, RepeatOpen, RepeatClose).None?;
    }
  }

  function ExpectedAll(ts: seq<Timing>): seq<SegmentDuration> {
    seq(|ts|, i requires 0 <= i < |ts| => Expected(ts[i]))
  }

  lemma SingleEntry(t: Timing)
    ensures Durations([EntryText(t)]) == [Expected(t)]
    ensures Durations([" " + EntryText(t)]) == [Expected(t)]
  {
    EntryParses(t);
    EntryTrims(t);
    EntryChars(t);
  }

  lemma EntryTextsSnoc(ts: seq<Timing>)
    requires ts != []
    ensures EntryTexts(ts) == EntryTexts(ts[..|ts| - 1]) + [EntryText(ts[|ts| - 1])]
  {
  }

  lemma ExpectedAllSnoc(ts: seq<Timing>)
    requires ts != []
    ensures ExpectedAll(ts) == ExpectedAll(ts[..|ts| - 1]) + [Expected(ts[|ts| - 1])]
  {
  }

  lemma EntryTextsCons(ts: seq<Timing>)
    requires ts != []
    ensures EntryTexts(ts)[1..] == EntryTexts(ts[1..])
  {
  }

  lemma ExpectedAllCons(ts: seq<Timing>)
    requires ts != []
    ensures ExpectedAll(ts) == [Expected(ts[0])] + ExpectedAll(ts[1..])
  {
  }

  /** A line with no entries, " ,", splits into two blank parts and yields no durations. */
  lemma BlankParts()
    ensures Durations([" ", ""]) == []
  {
    assert Trim("") == [];
    assert " "[1..] == "";
    assert Trim(" ") == [];
    assert [" ", ""][..1] == [" "];
  }

  lemma {:induction false} EntriesParse(ts: seq<Timing>)
    ensures Durations(EntryTexts(ts)) == ExpectedAll(ts)
    decreases |ts|
  {
    if ts != [] {
      var init, last := ts[..|ts| - 1], ts[|ts| - 1];
      EntriesParse(init);
      SingleEntry(last);
      EntryTextsSnoc(ts);
      DurationsAppend(EntryTexts(init), [EntryText(last)]);
      ExpectedAllSnoc(ts);
    }
  }

  lemma {:induction false} JoinTrailing(parts: seq<string>, sep: char)
    requires |parts| >= 1
    ensures Join(parts + [""], sep) == Join(parts, sep) + [sep]
    decreases |parts|
  {
    if |parts| > 1 {
      assert (parts + [""])[1..] == parts[1..] + [""];
      JoinTrailing(parts[1..], sep);
    }
  }

  /** The comma-separated parts of a durations line: the first entry behind the space, and an empty last part. */
  function LineParts(ts: seq<Timing>): seq<string> {
    if ts == [] then [" ", ""]
    else [" " + EntryText(ts[0])] + EntryTexts(ts)[1..] + [""]
  }

  lemma LinePartsJoin(ts: seq<Timing>)
    ensures Join(LineParts(ts), ',') == DurationsLine(ts)
    ensures |LineParts(ts)| >= 1 && forall i :: 0 <= i < |LineParts(ts)| ==> ',' !in LineParts(ts)[i]
  {
    var es := EntryTexts(ts);
    forall i | 0 <= i < |es| ensures ',' !in es[i] {
      EntryChars(ts[i]);
    }
    if ts != [] {
      var first := [" " + es[0]];
      EntryChars(ts[0]);
      assert " " + Join(es, ',') == Join(first + es[1..], ',') by {
        if |es| > 1 {
          assert (first + es[1..])[1..] == es[1..];
        }
      }
      JoinTrailing(first + es[1..], ',');
    }
  }

  lemma LinePartsParse(ts: seq<Timing>)
    ensures Durations(LineParts(ts)) == ExpectedAll(ts)
  {
    if ts == [] {
      BlankParts();
      assert |ExpectedAll(ts)| == 0;
    } else {
      var first, rest := [" " + EntryText(ts[0])], EntryTexts(ts)[1..];
      EntryTextsCons(ts);
      SingleEntry(ts[0]);
      EntriesParse(ts[1..]);
      assert Durations([""]) == [];
      calc {
        Durations(LineParts(ts));
        { DurationsAppend(first + rest, [""]); }
        Durations(first + rest);
        { DurationsAppend(first, rest); }
        [Expected(ts[0])] + ExpectedAll(ts[1..]);
        { ExpectedAllCons(ts); }
        ExpectedAll(ts);
      }
    }
  }

  lemma LineChars(ts: seq<Timing>)
    ensures '\r' !in DurationsLine(ts)
  {
    var es := EntryTexts(ts);
    forall i | 0 <= i < |es| ensures '\r' !in es[i] {
      EntryChars(ts[i]);
    }
    JoinFree(es, ',', '\r');
    var j := Join(es, ',');
    assert DurationsLine(ts) == " " + j + ",";
  }

  /** Neither marker's first character recurs inside it, so the first occurrence of either is found where it is written. */
  lemma MarkersHeadUnique()
    ensures |DurationsMarker| >= 1 && DurationsMarker[0] !in DurationsMarker[1..]
    ensures |LineEnd| >= 1 && LineEnd[0] !in LineEnd[1..]
  {
  }

  /**
   * The round trip: a body holding a durations line written from a list of
   * timings (after any text without the marker, and before anything at all)
   * reads back as exactly those timings, in order.
   */
  lemma DurationsRoundTrip(url: string, responseUrl: string, pre: string, ts: seq<Timing>, post: string)
    requires !Contains(pre, DurationsMarker)
    ensures SegmentInfoOf(url, ProbeResponse(responseUrl, pre + DurationsMarker + DurationsLine(ts) + LineEnd + post))
      == Ok(OtfSegmentInfo(ResolvedUrl(responseUrl), ExpectedAll(ts)))
  {
    var parts := LineParts(ts);
    var line := DurationsLine(ts);
    LinePartsJoin(ts);
    LinePartsParse(ts);
    LineChars(ts);
    MarkersHeadUnique();
    AbsentHead(line, LineEnd);
    BetweenFramed(pre, DurationsMarker, line, LineEnd, post);
    SplitJoin(parts, ',');
  }

  lemma {:induction false} JoinFree(parts: seq<string>, sep: char, c: char)
    requires c != sep
    requires forall i :: 0 <= i < |parts| ==> c !in parts[i]
    ensures c !in Join(parts, sep)
    decreases |parts|
  {
    if |parts| > 1 {
      JoinFree(parts[1..], sep, c);
    }
  }

  lemma ExampleNumbers()
    ensures NatText(5120) == "5120" && NatText(920) == "920" && NatText(3600) == "3600"
  {
    assert NatText(5) == "5" && NatText(51) == "51" && NatText(512) == "512";
    assert NatText(9) == "9" && NatText(92) == "92";
    assert NatText(3) == "3" && NatText(36) == "36" && NatText(360) == "360";
  }

  lemma ExampleLine()
    ensures DurationsLine([Timing(5120, Some(920)), Timing(3600, None)]) == " 5120(r=920),3600,"
  {
    ExampleTexts();
    ExampleJoin();
  }

  lemma ExampleTexts()
    ensures EntryTexts([Timing(5120, Some(920)), Timing(3600, None)]) == ["5120(r=920)", "3600"]
  {
    ExampleEntries();
  }

  lemma ExampleJoin()
    ensures Join(["5120(r=920)", "3600"], ',') == "5120(r=920),3600"
  {
    assert ["5120(r=920)", "3600"][1..] == ["3600"];
  }

  lemma ExampleEntries()
    ensures EntryText(Timing(5120, Some(920))) == "5120(r=920)"
    ensures EntryText(Timing(3600, None)) == "3600"
  {
    ExampleNumbers();
  }

  /**
   * The line `Segment-Durations-Ms: 5120(r=920),3600,` after a
   * `Segment-Count: 922` line reads as 5120 ms repeated 920 more times, then
   * 3600 ms once.
   */
  lemma ExampleDurations(url: string, responseUrl: string)
    ensures SegmentInfoOf(url, ProbeResponse(responseUrl,
      "Segment-Count: 922\r\nSegment-Durations-Ms: 5120(r=920),3600,\r\n")) ==
      Ok(OtfSegmentInfo(ResolvedUrl(responseUrl),
        [SegmentDuration(Int(5120), Some(Int(920))), SegmentDuration(Int(3600), None)]))
  {
    var ts := [Timing(5120, Some(920)), Timing(3600, None)];
    var pre := "Segment-Count: 922\r\n";
    ExampleBody();
    DurationsRoundTrip(url, responseUrl, pre, ts, "");
    ExampleExpected();
  }

  lemma ExampleBody()
    ensures !Contains("Segment-Count: 922\r\n", DurationsMarker)
    ensures "Segment-Count: 922\r\nSegment-Durations-Ms: 5120(r=920),3600,\r\n" ==
      "Segment-Count: 922\r\n" + DurationsMarker + DurationsLine([Timing(5120, Some(920)), Timing(3600, None)]) + LineEnd + ""
  {
    ExampleLine();
    ExampleText();
  }

  lemma ExampleText()
    ensures "Segment-Count: 922\r\nSegment-Durations-Ms: 5120(r=920),3600,\r\n" ==
      "Segment-Count: 922\r\n" + DurationsMarker + " 5120(r=920),3600," + LineEnd + ""
  {
    var pre := "Segment-Count: 922\r\n";
    assert pre + DurationsMarker == "Segment-Count: 922\r\nSegment-Durations-Ms:";
    var line := " 5120(r=920),3600,";
    var body := pre + DurationsMarker + line;
    assert body == "Segment-Count: 922\r\nSegment-Durations-Ms: 5120(r=920),3600,";
    assert body + LineEnd + "" == body + LineEnd;
  }

  lemma ExampleExpected()
    ensures ExpectedAll([Timing(5120, Some(920)), Timing(3600, None)]) ==
      [SegmentDuration(Int(5120), Some(Int(920))), SegmentDuration(Int(3600), None)]
  {
  }
}
