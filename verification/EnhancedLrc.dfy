/**
  Enhanced LRC lines: words between inline time markers become cues whose inclusive byte
  ranges are offsets into the trimmed line.
 */
module EnhancedLrc {
  import opened Prelude
  import opened LyricsText

  /** An inline marker (None when its time does not parse) and the text up to the next one. */
  datatype Marker = Marker(time: Option<int>, word: string)

  predicate Timed(m: Marker) { m.time.Some? && m.word != "" }

  /** The raw line is built from the timed words only. */
  function Raw(markers: seq<Marker>): string {
    if markers == [] then ""
    else
      var n := |markers| - 1;
      Raw(markers[..n]) + (if Timed(markers[n]) then markers[n].word else "")
  }

  function SpanOf(m: Marker): Span {
    Span(|Bytes(m.word)|, Some(Timing(m.time, None, "")))
  }

  function Spans(markers: seq<Marker>): seq<Span> {
    if markers == [] then []
    else
      var n := |markers| - 1;
      Spans(markers[..n]) + (if Timed(markers[n]) then [SpanOf(markers[n])] else [])
  }

  /** A final marker with no text closes the last cue. */
  function TrailingEnd(markers: seq<Marker>): Option<int> {
    if markers != [] && markers[|markers| - 1].word == "" then markers[|markers| - 1].time else None
  }

  function CloseLast(cues: seq<Cue>, end: Option<int>): seq<Cue> {
    if cues == [] || end.None? then cues
    else cues[|cues| - 1 := cues[|cues| - 1].(end := end)]
  }

  /** What parseEnhancedLine returns; `plain` is the text with the markers removed. */
  function LineOf(markers: seq<Marker>, plain: string): string {
    if Spans(markers) == [] then TrimSpace(plain) else TrimSpace(Raw(markers))
  }

  function CuesOf(markers: seq<Marker>): seq<Cue> {
    var raw := Raw(markers);
    TrimSpaceBytes(raw);
    CloseLast(Clip(Bytes(raw), Spans(markers), LeftTrimBytes(raw), TrimmedEnd(raw)), TrailingEnd(markers))
  }

  lemma {:induction false} SpansNeedTimes(markers: seq<Marker>)
    ensures Spans(markers) == [] <==>
            forall i :: 0 <= i < |markers| ==> markers[i].time.None? || markers[i].word == ""
  {
    if markers != [] {
      var n := |markers| - 1;
      SpansNeedTimes(markers[..n]);
      assert forall i :: 0 <= i < n ==> markers[..n][i] == markers[i];
      if Timed(markers[n]) {
        assert Spans(markers) == Spans(markers[..n]) + [SpanOf(markers[n])];
      } else {
        assert Spans(markers) == Spans(markers[..n]);
      }
    }
  }

  lemma {:induction false} SpansCoverRaw(markers: seq<Marker>)
    ensures Total(Spans(markers)) == |Bytes(Raw(markers))|
    ensures forall k :: 0 <= k < |Spans(markers)| ==> Spans(markers)[k].timing.Some?
  {
    if markers != [] {
      var n := |markers| - 1;
      SpansCoverRaw(markers[..n]);
      if Timed(markers[n]) {
        BytesConcat(Raw(markers[..n]), markers[n].word);
        var front := Spans(markers[..n]);
        assert (front + [SpanOf(markers[n])])[..|front|] == front;
      } else {
        assert Raw(markers[..n]) + "" == Raw(markers[..n]);
        assert Spans(markers[..n]) + [] == Spans(markers[..n]);
      }
    }
  }

  lemma ClosedCues(line: seq<Byte>, cues: seq<Cue>, end: Option<int>)
    requires AllSelect(line, cues) && Ordered(cues)
    ensures AllSelect(line, CloseLast(cues, end)) && Ordered(CloseLast(cues, end))
    ensures forall n :: Tiling(cues, n) ==> Tiling(CloseLast(cues, end), n)
  {
  }

  /**
    Every cue's byte range selects exactly its value in the trimmed line, in order and
    without overlap, and the cues of a line with timed words tile all of it.
   */
  lemma CuesTileTheLine(markers: seq<Marker>, plain: string)
    ensures AllSelect(Bytes(LineOf(markers, plain)), CuesOf(markers)) && Ordered(CuesOf(markers))
    ensures Spans(markers) != [] ==> Tiling(CuesOf(markers), |Bytes(LineOf(markers, plain))|)
    ensures Spans(markers) == [] ==> CuesOf(markers) == []
  {
    var raw, spans := Raw(markers), Spans(markers);
    var left, right := LeftTrimBytes(raw), TrimmedEnd(raw);
    TrimSpaceBytes(raw);
    if spans != [] {
      SpansCoverRaw(markers);
      ClipSelects(Bytes(raw), spans, left, right);
      ClipTiling(Bytes(raw), spans, left, right);
      ClosedCues(Bytes(TrimSpace(raw)), Clip(Bytes(raw), spans, left, right), TrailingEnd(markers));
    }
  }

  // ---------------------------------------------------------------- which cues there are

  /** The words in front of marker i make up the raw line in front of its own word. */
  lemma {:induction false} RawAround(markers: seq<Marker>, i: nat) returns (rest: string)
    requires i < |markers|
    ensures Raw(markers) == Raw(markers[..i]) + (if Timed(markers[i]) then markers[i].word else "") + rest
    decreases |markers|
  {
    var n := |markers| - 1;
    rest := "";
    if i < n {
      rest := RawAround(markers[..n], i);
      assert markers[..n][..i] == markers[..i];
      if Timed(markers[n]) {
        rest := rest + markers[n].word;
      }
    }
  }

  /** The stamp of a timed word standing at byte `at` of the raw line, with its marker's time and no end. */
  function WordStamp(m: Marker, at: int, left: int, right: int): seq<Stamp> {
    if m.time.None? || m.word == "" then []
    else Surviving(Some(Timing(m.time, None, "")), at, at + |Bytes(m.word)|, left, right)
  }

  /** One stamp for every timed word of which something survives the trimming, in order. */
  function MarkerStamps(markers: seq<Marker>, n: nat, left: int, right: int): seq<Stamp>
    requires n <= |markers|
  {
    if n == 0 then []
    else MarkerStamps(markers, n - 1, left, right) +
         WordStamp(markers[n - 1], |Bytes(Raw(markers[..n - 1]))|, left, right)
  }

  lemma TimedStamp(m: Marker, at: int, left: int, right: int)
    ensures Timed(m) ==> WordStamp(m, at, left, right) == Surviving(SpanOf(m).timing, at, at + SpanOf(m).length, left, right)
    ensures !Timed(m) ==> WordStamp(m, at, left, right) == []
  {
  }

  lemma ClipWord(bytes: seq<Byte>, spans: seq<Span>, m: Marker, left: int, right: int)
    requires 0 <= left && right <= |bytes|
    ensures Stamps(Clip(bytes, if Timed(m) then spans + [SpanOf(m)] else spans, left, right)) ==
            Stamps(Clip(bytes, spans, left, right)) + WordStamp(m, Total(spans), left, right)
  {
    TimedStamp(m, Total(spans), left, right);
    if Timed(m) {
      ClipStampsNext(bytes, spans, SpanOf(m), left, right);
    }
  }

  lemma SpansNext(markers: seq<Marker>, n: nat)
    requires n < |markers|
    ensures Spans(markers[..n + 1]) ==
            if Timed(markers[n]) then Spans(markers[..n]) + [SpanOf(markers[n])] else Spans(markers[..n])
    ensures Total(Spans(markers[..n])) == |Bytes(Raw(markers[..n]))|
  {
    Grown(markers, n);
    SpansCoverRaw(markers[..n]);
  }

  lemma {:induction false} ClipIsStamped(markers: seq<Marker>, bytes: seq<Byte>, n: nat, left: int, right: int)
    requires n <= |markers| && 0 <= left && right <= |bytes|
    ensures Stamps(Clip(bytes, Spans(markers[..n]), left, right)) == MarkerStamps(markers, n, left, right)
  {
    if n > 0 {
      ClipIsStamped(markers, bytes, n - 1, left, right);
      SpansNext(markers, n - 1);
      ClipWord(bytes, Spans(markers[..n - 1]), markers[n - 1], left, right);
    }
  }

  /** Cue k is the k-th of the stamps; only the last cue has an end, the time of a closing marker. */
  ghost predicate Carries(cues: seq<Cue>, stamps: seq<Stamp>, closing: Option<int>) {
    && |cues| == |stamps|
    && forall k :: 0 <= k < |cues| ==>
         cues[k].start == stamps[k].timing.start && cues[k].agent == stamps[k].timing.agent &&
         cues[k].byteStart == stamps[k].first && cues[k].byteEnd == stamps[k].last &&
         cues[k].end == if k == |cues| - 1 then closing else None
  }

  lemma ClosedCarries(cues: seq<Cue>, stamps: seq<Stamp>, closing: Option<int>)
    requires |cues| == |stamps|
    requires forall k :: 0 <= k < |cues| ==> StampOf(cues[k]) == stamps[k] && stamps[k].timing.end.None?
    ensures Carries(CloseLast(cues, closing), stamps, closing)
  {
  }

  lemma {:induction false} NoEnds(markers: seq<Marker>, n: nat, left: int, right: int, k: nat)
    requires n <= |markers| && k < |MarkerStamps(markers, n, left, right)|
    ensures MarkerStamps(markers, n, left, right)[k].timing.end.None?
  {
    if k < |MarkerStamps(markers, n - 1, left, right)| {
      NoEnds(markers, n - 1, left, right, k);
    }
  }

  /** The stamps of the line's surviving words. */
  function LineStamps(markers: seq<Marker>): seq<Stamp> {
    MarkerStamps(markers, |markers|, LeftTrimBytes(Raw(markers)), TrimmedEnd(Raw(markers)))
  }

  /** Every timed word that survives has its cue, in order, starting at its marker's time. */
  lemma CuesCarryTimes(markers: seq<Marker>)
    ensures var closing := if markers != [] && markers[|markers| - 1].word == "" then markers[|markers| - 1].time else None;
            Carries(CuesOf(markers), LineStamps(markers), closing)
  {
    var raw := Raw(markers);
    var left, right := LeftTrimBytes(raw), TrimmedEnd(raw);
    TrimSpaceBytes(raw);
    var cues, stamps := Clip(Bytes(raw), Spans(markers), left, right), LineStamps(markers);
    assert Stamps(cues) == stamps by {
      ClipIsStamped(markers, Bytes(raw), |markers|, left, right);
      assert markers[..|markers|] == markers;
    }
    assert |Stamps(cues)| == |cues|;
    forall k | 0 <= k < |cues| ensures StampOf(cues[k]) == stamps[k] && stamps[k].timing.end.None? {
      NoEnds(markers, |markers|, left, right, k);
      StampAt(cues, k);
    }
    ClosedCarries(cues, stamps, TrailingEnd(markers));
  }

  // ---------------------------------------------------------------- the two loops

  datatype Segment = Segment(start: int, rawStart: int, rawEnd: int)

  /** The segments as the first loop records them. */
  ghost predicate Laid(segments: seq<Segment>, spans: seq<Span>) {
    |segments| == |spans| && forall k :: 0 <= k < |segments| ==> LaidAt(segments[k], spans, k)
  }

  ghost predicate LaidAt(seg: Segment, spans: seq<Span>, k: nat)
    requires k < |spans|
  {
    seg.rawStart == Total(spans[..k]) && seg.rawEnd == seg.rawStart + spans[k].length &&
    spans[k].timing == Some(Timing(Some(seg.start), None, ""))
  }

  lemma LaidGrows(segments: seq<Segment>, spans: seq<Span>, seg: Segment, span: Span)
    requires Laid(segments, spans) && LaidAt(seg, spans + [span], |spans|)
    ensures Laid(segments + [seg], spans + [span])
  {
    forall k | 0 <= k < |segments| ensures LaidAt(segments[k], spans + [span], k) {
      assert LaidAt(segments[k], spans, k);
      assert (spans + [span])[..k] == spans[..k];
    }
  }

  lemma Grown(markers: seq<Marker>, i: nat)
    requires i < |markers|
    ensures Timed(markers[i]) ==> Raw(markers[..i + 1]) == Raw(markers[..i]) + markers[i].word
    ensures Timed(markers[i]) ==> Spans(markers[..i + 1]) == Spans(markers[..i]) + [SpanOf(markers[i])]
    ensures !Timed(markers[i]) ==> Raw(markers[..i + 1]) == Raw(markers[..i])
    ensures !Timed(markers[i]) ==> Spans(markers[..i + 1]) == Spans(markers[..i])
  {
    assert markers[..i + 1][..i] == markers[..i];
  }

  method CollectSegments(markers: seq<Marker>) returns (raw: string, segments: seq<Segment>, trailing: Option<int>)
    ensures raw == Raw(markers) && Laid(segments, Spans(markers)) && trailing == TrailingEnd(markers)
  {
    raw, segments, trailing := "", [], None;
    var i := 0;
    while i < |markers|
      invariant i <= |markers| && raw == Raw(markers[..i]) && Laid(segments, Spans(markers[..i]))
      invariant trailing == if i == |markers| then TrailingEnd(markers) else None
    {
      var m := markers[i];
      Grown(markers, i);
      if m.time.Some? {
        if m.word == "" {
          if i == |markers| - 1 {
            trailing := m.time;
          }
        } else {
          var rawStart := |Bytes(raw)|;
          raw := raw + m.word;
          var seg := Segment(m.time.value, rawStart, |Bytes(raw)|);
          SpansCoverRaw(markers[..i]);
          BytesConcat(Raw(markers[..i]), m.word);
          assert (Spans(markers[..i]) + [SpanOf(m)])[..|segments|] == Spans(markers[..i]);
          LaidGrows(segments, Spans(markers[..i]), seg, SpanOf(m));
          segments := segments + [seg];
        }
      }
      i := i + 1;
    }
    assert markers[..|markers|] == markers;
  }

  method ClipSegment(bytes: seq<Byte>, seg: Segment, ghost spans: seq<Span>, ghost k: nat, left: int, right: int)
    returns (cues: seq<Cue>)
    requires 0 <= left && right <= |bytes| && k < |spans| && LaidAt(seg, spans, k)
    ensures cues == ClipOne(bytes, spans[k], Total(spans[..k]), left, right)
  {
    var from, to := Max(seg.rawStart, left), Min(seg.rawEnd, right);
    if from >= to {
      return [];
    }
    return [Cue(Some(seg.start), None, bytes[from..to], from - left, to - left - 1, "")];
  }

  method ClipSegments(bytes: seq<Byte>, segments: seq<Segment>, left: int, right: int, ghost spans: seq<Span>)
    returns (cues: seq<Cue>)
    requires Laid(segments, spans) && 0 <= left && right <= |bytes|
    ensures cues == Clip(bytes, spans, left, right)
  {
    cues := [];
    var k := 0;
    while k < |segments|
      invariant k <= |segments| && cues == Clip(bytes, spans[..k], left, right)
    {
      assert LaidAt(segments[k], spans, k);
      var more := ClipSegment(bytes, segments[k], spans, k, left, right);
      ClipNext(bytes, spans, k, left, right);
      cues := cues + more;
      k := k + 1;
    }
    assert spans[..|spans|] == spans;
  }

  /** parseEnhancedLine. */
  method ParseEnhancedLine(markers: seq<Marker>, plain: string) returns (line: string, cues: seq<Cue>)
    ensures line == LineOf(markers, plain) && cues == CuesOf(markers)
    ensures AllSelect(Bytes(line), cues) && Ordered(cues)
    ensures Spans(markers) != [] ==> Tiling(cues, |Bytes(line)|)
    ensures Carries(cues, LineStamps(markers),
                    if markers != [] && markers[|markers| - 1].word == "" then markers[|markers| - 1].time else None)
    ensures (forall i :: 0 <= i < |markers| ==> markers[i].time.None? || markers[i].word == "") ==>
              line == TrimSpace(plain) && cues == []
    ensures (exists i :: 0 <= i < |markers| && markers[i].time.Some? && markers[i].word != "") ==>
              line == TrimSpace(Raw(markers))
  {
    CuesTileTheLine(markers, plain);
    CuesCarryTimes(markers);
    SpansNeedTimes(markers);
    var raw, segments, trailing := CollectSegments(markers);
    if segments == [] {
      return TrimSpace(plain), [];
    }
    TrimSpaceBytes(raw);
    cues := ClipSegments(Bytes(raw), segments, LeftTrimBytes(raw), TrimmedEnd(raw), Spans(markers));
    if trailing.Some? && cues != [] {
      cues := cues[|cues| - 1 := cues[|cues| - 1].(end := trailing)];
    }
    line := TrimSpace(raw);
  }

  // ---------------------------------------------------------------- repeated lines

  function Later(t: Option<int>, offset: int): Option<int> {
    if t.Some? then Some(t.value + offset) else None
  }

  function Shifted(cues: seq<Cue>, offset: int): seq<Cue> {
    seq(|cues|, i requires 0 <= i < |cues| =>
      cues[i].(start := Later(cues[i].start, offset), end := Later(cues[i].end, offset)))
  }

  /** shiftELRCCues: a fresh copy with every known time moved. */
  method ShiftCues(cues: seq<Cue>, offset: int) returns (r: seq<Cue>)
    ensures r == Shifted(cues, offset)
  {
    r := [];
    for i := 0 to |cues|
      invariant r == Shifted(cues, offset)[..i]
    {
      var c := cues[i];
      if c.start.Some? {
        c := c.(start := Some(c.start.value + offset));
      }
      if c.end.Some? {
        c := c.(end := Some(c.end.value + offset));
      }
      r := r + [c];
    }
  }

  /** A shift adds the offset to every time that is known, and changes nothing else. */
  lemma ShiftMoves(cues: seq<Cue>, offset: int, i: nat)
    requires i < |cues|
    ensures |Shifted(cues, offset)| == |cues|
    ensures var c, moved := cues[i], Shifted(cues, offset)[i];
            && (c.start.Some? ==> moved.start == Some(c.start.value + offset))
            && (c.end.Some? ==> moved.end == Some(c.end.value + offset))
            && (c.start.None? ==> moved.start.None?) && (c.end.None? ==> moved.end.None?)
            && moved.(start := c.start, end := c.end) == c
  {
  }

  /** Shifting keeps every byte range valid and ordered, and shifting back undoes it. */
  lemma ShiftKeepsRanges(line: seq<Byte>, cues: seq<Cue>, offset: int)
    ensures AllSelect(line, cues) ==> AllSelect(line, Shifted(cues, offset))
    ensures Ordered(cues) ==> Ordered(Shifted(cues, offset))
    ensures Shifted(Shifted(cues, offset), -offset) == cues
  {
    var s := Shifted(cues, offset);
    assert forall i :: 0 <= i < |cues| ==> Selects(line, s[i]) == Selects(line, cues[i]);
    assert forall i :: 0 <= i < |cues| ==> Shifted(s, -offset)[i] == cues[i];
  }
}
