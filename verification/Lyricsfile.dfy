/**
  Lyricsfile documents: line entries become lines whose cues carry the voice allocated to
  the line and inclusive byte ranges into the text put together from the words.
 */
module Lyricsfile {
  import opened Prelude
  import opened LyricsText
  import opened VoiceAllocation

  datatype Word = Word(text: string, start: int, end: Option<int>)

  /** `text` is the entry's text after sanitising. */
  datatype Entry = Entry(text: string, start: int, end: Option<int>, words: seq<Word>)

  datatype Agent = Agent(id: string, role: string)

  /** lyricsfileLineEnd: the explicit end, else the last word's, else the next entry's start. */
  function LineEnd(entry: Entry, nextStart: Option<int>): Option<int> {
    if entry.end.Some? then entry.end
    else if entry.words != [] && entry.words[|entry.words| - 1].end.Some? then entry.words[|entry.words| - 1].end
    else nextStart
  }

  function EndOf(entries: seq<Entry>, i: nat): Option<int>
    requires i < |entries|
  {
    LineEnd(entries[i], if i + 1 < |entries| then Some(entries[i + 1].start) else None)
  }

  /** A line without an end holds its voice for no time. */
  function IntervalOf(start: int, end: Option<int>): Interval {
    Interval(start, if end.Some? then end.value else start)
  }

  function Intervals(entries: seq<Entry>): (r: seq<Interval>)
    ensures |r| == |entries|
    ensures forall i {:trigger r[i]} :: 0 <= i < |entries| ==> r[i] == IntervalOf(entries[i].start, EndOf(entries, i))
  {
    seq(|entries|, i requires 0 <= i < |entries| => IntervalOf(entries[i].start, EndOf(entries, i)))
  }

  // ---------------------------------------------------------------- words

  function TextOf(words: seq<Word>): string {
    if words == [] then "" else TextOf(words[..|words| - 1]) + words[|words| - 1].text
  }

  function ValueOf(entry: Entry): string {
    if entry.words == [] then entry.text else TextOf(entry.words)
  }

  /** A missing word end is the next word's start. */
  function WordEnd(words: seq<Word>, i: nat): Option<int>
    requires i < |words|
  {
    if words[i].end.None? && i + 1 < |words| then Some(words[i + 1].start) else words[i].end
  }

  /** The bytes in front of word i. */
  function At(words: seq<Word>, i: nat): nat
    requires i <= |words|
  {
    if i == 0 then 0 else At(words, i - 1) + |Bytes(words[i - 1].text)|
  }

  function CueOf(w: Word, at: int, end: Option<int>, agent: string): Cue {
    Cue(Some(w.start), end, Bytes(w.text), at, Max(at, at + |Bytes(w.text)| - 1), agent)
  }

  function WordCues(words: seq<Word>, agent: string): (r: seq<Cue>)
    ensures |r| == |words|
    ensures forall i {:trigger r[i]} :: 0 <= i < |words| ==>
              r[i] == CueOf(words[i], At(words, i), WordEnd(words, i), agent)
  {
    seq(|words|, i requires 0 <= i < |words| => CueOf(words[i], At(words, i), WordEnd(words, i), agent))
  }

  lemma {:induction false} AtIsLength(words: seq<Word>, i: nat)
    requires i <= |words|
    ensures At(words, i) == |Bytes(TextOf(words[..i]))|
  {
    if i > 0 {
      AtIsLength(words, i - 1);
      assert words[..i][..i - 1] == words[..i - 1];
      BytesConcat(TextOf(words[..i - 1]), words[i - 1].text);
    }
  }

  lemma {:induction false} TextConcat(a: seq<Word>, b: seq<Word>)
    ensures TextOf(a + b) == TextOf(a) + TextOf(b)
  {
    if b == [] {
      assert a + b == a;
    } else {
      assert (a + b)[..|a + b| - 1] == a + b[..|b| - 1];
      TextConcat(a, b[..|b| - 1]);
    }
  }

  lemma BytesAround(a: seq<Word>, w: Word, c: seq<Word>)
    ensures Bytes(TextOf(a + [w] + c)) == Bytes(TextOf(a)) + Bytes(w.text) + Bytes(TextOf(c))
  {
    var aw := a + [w];
    assert aw[..|aw| - 1] == a && TextOf(aw) == TextOf(a) + w.text;
    TextConcat(aw, c);
    BytesConcat(TextOf(aw), TextOf(c));
    BytesConcat(TextOf(a), w.text);
  }

  lemma SplitAt<T>(s: seq<T>, i: nat)
    requires i < |s|
    ensures s == s[..i] + [s[i]] + s[i + 1..]
  {
  }

  /** The line's bytes around word i. */
  lemma Around(words: seq<Word>, i: nat) returns (before: seq<Byte>, after: seq<Byte>)
    requires i < |words|
    ensures Bytes(TextOf(words)) == before + Bytes(words[i].text) + after && |before| == At(words, i)
  {
    before, after := Bytes(TextOf(words[..i])), Bytes(TextOf(words[i + 1..]));
    AtIsLength(words, i);
    BytesAround(words[..i], words[i], words[i + 1..]);
    SplitAt(words, i);
  }

  lemma EncodedLength(s: string)
    ensures Bytes(s) == [] <==> s == ""
  {
  }

  lemma SelectsMiddle(before: seq<Byte>, value: seq<Byte>, after: seq<Byte>, c: Cue)
    requires c.value == value && c.byteStart == |before| && c.byteEnd == Max(|before|, |before| + |value| - 1)
    ensures Selects(before + value + after, c) <==> value != []
  {
    if value != [] {
      var line := before + value + after;
      assert line[c.byteStart..c.byteEnd + 1] == value;
    }
  }

  /** A cue's range selects its value in the line exactly when the word has text. */
  lemma WordSelects(words: seq<Word>, agent: string, i: nat)
    requires i < |words|
    ensures Selects(Bytes(TextOf(words)), WordCues(words, agent)[i]) <==> words[i].text != ""
  {
    var before, after := Around(words, i);
    SelectsMiddle(before, Bytes(words[i].text), after, WordCues(words, agent)[i]);
    EncodedLength(words[i].text);
  }

  lemma {:induction false} WordStart(words: seq<Word>, agent: string, i: nat)
    requires i < |words|
    ensures WordCues(words, agent)[i].byteStart == At(words, i)
  {
  }

  lemma {:induction false} WordRange(words: seq<Word>, agent: string, i: nat)
    requires i < |words| && words[i].text != ""
    ensures Fits(WordCues(words, agent)[i], words, i)
  {
    EncodedLength(words[i].text);
  }

  /** The cue starts where its word does and the next word starts right behind it. */
  predicate Fits(c: Cue, words: seq<Word>, i: nat)
    requires i < |words|
  {
    c.byteStart == At(words, i) && c.byteEnd + 1 == At(words, i + 1) && c.byteStart <= c.byteEnd
  }

  /** When all words have text, the cues tile the line. */
  lemma {:induction false} WordsTile(words: seq<Word>, agent: string)
    requires words != [] && forall i :: 0 <= i < |words| ==> words[i].text != ""
    ensures Tiling(WordCues(words, agent), |Bytes(TextOf(words))|)
  {
    var cues := WordCues(words, agent);
    forall i | 0 <= i < |words| ensures Fits(cues[i], words, i) {
      WordRange(words, agent, i);
    }
    AtIsLength(words, |words|);
    assert words[..|words|] == words;
    TileFrom(words, cues, At(words, |words|));
  }

  lemma {:induction false} TileFrom(words: seq<Word>, cues: seq<Cue>, n: int)
    requires words != [] && |cues| == |words| && n == At(words, |words|)
    requires forall i :: 0 <= i < |words| ==> Fits(cues[i], words, i)
    ensures Tiling(cues, n)
  {
    assert Fits(cues[0], words, 0) && Fits(cues[|words| - 1], words, |words| - 1);
    forall k | 0 <= k < |cues| - 1 ensures cues[k + 1].byteStart == cues[k].byteEnd + 1 {
      assert Fits(cues[k], words, k) && Fits(cues[k + 1], words, k + 1);
    }
    AtMonotone(words, 0, |words| - 1);
  }

  lemma {:induction false} AtMonotone(words: seq<Word>, i: nat, j: nat)
    requires i <= j <= |words|
    ensures At(words, i) <= At(words, j)
    decreases j - i
  {
    if i < j {
      AtMonotone(words, i, j - 1);
    }
  }

  lemma {:induction false} Precede(words: seq<Word>, a: Cue, b: Cue, i: nat, j: nat)
    requires i < j < |words| && Fits(a, words, i) && b.byteStart == At(words, j)
    ensures a.byteEnd < b.byteStart
  {
    AtMonotone(words, i + 1, j);
  }

  /** Cues of words with text come in order without overlap, whatever empty words stand between them. */
  lemma {:induction false} WordsOrdered(words: seq<Word>, agent: string, i: nat, j: nat)
    requires i < j < |words| && words[i].text != ""
    ensures WordCues(words, agent)[i].byteEnd < WordCues(words, agent)[j].byteStart
  {
    WordRange(words, agent, i);
    WordStart(words, agent, j);
    Precede(words, WordCues(words, agent)[i], WordCues(words, agent)[j], i, j);
  }

  method ConcatWords(words: seq<Word>) returns (value: string)
    ensures value == TextOf(words)
  {
    value := "";
    for i := 0 to |words|
      invariant value == TextOf(words[..i])
    {
      assert words[..i + 1][..i] == words[..i];
      value := value + words[i].text;
    }
    assert words[..|words|] == words;
  }

  method PlaceWords(words: seq<Word>, agent: string) returns (cues: seq<Cue>)
    ensures |cues| == |words|
    ensures forall i {:trigger cues[i]} :: 0 <= i < |words| ==> cues[i] == CueOf(words[i], At(words, i), words[i].end, agent)
  {
    cues := [];
    var cursor := 0;
    for i := 0 to |words|
      invariant |cues| == i && cursor == At(words, i)
      invariant forall k {:trigger cues[k]} :: 0 <= k < i ==> cues[k] == CueOf(words[k], At(words, k), words[k].end, agent)
    {
      var valueBytes := |Bytes(words[i].text)|;
      var from, to := cursor, cursor;
      if valueBytes > 0 {
        to := from + valueBytes - 1;
        cursor := to + 1;
      }
      cues := cues + [Cue(Some(words[i].start), words[i].end, Bytes(words[i].text), from, to, agent)];
    }
  }

  method FillFromNext(cues: seq<Cue>) returns (r: seq<Cue>)
    ensures |r| == |cues|
    ensures forall i {:trigger r[i]} :: 0 <= i < |cues| ==> r[i] == cues[i].(end := FilledEnd(cues, i))
  {
    r := cues;
    var i := 0;
    while i < |cues| - 1
      invariant 0 <= i <= |cues| && |r| == |cues| && (cues != [] ==> i < |cues|)
      invariant forall k {:trigger r[k]} :: 0 <= k < i ==> r[k] == cues[k].(end := FilledEnd(cues, k))
      invariant forall k :: i <= k < |cues| ==> r[k] == cues[k]
    {
      if r[i].end.None? && r[i + 1].start.Some? {
        r := r[i := r[i].(end := r[i + 1].start)];
      }
      i := i + 1;
    }
  }

  function FilledEnd(cues: seq<Cue>, i: nat): Option<int>
    requires i < |cues|
  {
    if cues[i].end.None? && i + 1 < |cues| && cues[i + 1].start.Some? then cues[i + 1].start else cues[i].end
  }

  lemma {:induction false} FilledAreWordCues(words: seq<Word>, agent: string, cues: seq<Cue>, r: seq<Cue>)
    requires |cues| == |words| && |r| == |words|
    requires forall i {:trigger cues[i]} :: 0 <= i < |words| ==> cues[i] == CueOf(words[i], At(words, i), words[i].end, agent)
    requires forall i {:trigger r[i]} :: 0 <= i < |words| ==> r[i] == cues[i].(end := FilledEnd(cues, i))
    ensures r == WordCues(words, agent)
  {
    forall i | 0 <= i < |words| ensures r[i] == WordCues(words, agent)[i] {
      assert i + 1 < |words| ==> cues[i + 1].start == Some(words[i + 1].start);
      assert FilledEnd(cues, i) == WordEnd(words, i);
    }
  }

  /** wordsToLineCues. */
  method WordsToLineCues(entry: Entry, agent: string) returns (cues: seq<Cue>, value: string)
    ensures cues == WordCues(entry.words, agent) && value == ValueOf(entry)
  {
    if entry.words == [] {
      return [], entry.text;
    }
    value := ConcatWords(entry.words);
    var placed := PlaceWords(entry.words, agent);
    cues := FillFromNext(placed);
    FilledAreWordCues(entry.words, agent, placed, cues);
  }

  // ---------------------------------------------------------------- voice names

  function Digit(n: nat): char requires n < 10 { '0' + n as char }

  function Decimal(n: nat): (r: string)
    ensures r != ""
  {
    if n < 10 then [Digit(n)] else Decimal(n / 10) + [Digit(n % 10)]
  }

  function VoiceId(v: nat): string { "voice-" + Decimal(v) }

  lemma {:induction false} DecimalInjective(a: nat, b: nat)
    requires Decimal(a) == Decimal(b)
    ensures a == b
  {
    var s := Decimal(a);
    assert s[|s| - 1] == Digit(a % 10) == Digit(b % 10);
    if a >= 10 && b >= 10 {
      assert s[..|s| - 1] == Decimal(a / 10) == Decimal(b / 10);
      DecimalInjective(a / 10, b / 10);
    }
  }

  /** Different voices have different names. */
  lemma VoiceIdInjective(a: nat, b: nat)
    requires VoiceId(a) == VoiceId(b)
    ensures a == b
  {
    assert VoiceId(a)[6..] == Decimal(a) && VoiceId(b)[6..] == Decimal(b);
    DecimalInjective(a, b);
  }

  predicate AllDigits(s: string) { forall i :: 0 <= i < |s| ==> '0' <= s[i] <= '9' }

  /** The number a string of digits stands for. */
  function ReadDecimal(s: string): nat
    requires AllDigits(s)
  {
    if s == "" then 0 else 10 * ReadDecimal(s[..|s| - 1]) + (s[|s| - 1] - '0') as nat
  }

  /** Names are "voice-" and the number in decimal, without leading zeros. */
  lemma {:induction false} VoiceNames(v: nat)
    ensures VoiceId(v) == "voice-" + Decimal(v)
    ensures AllDigits(Decimal(v)) && ReadDecimal(Decimal(v)) == v && (v > 0 ==> Decimal(v)[0] != '0')
  {
    var s := Decimal(v);
    if v < 10 {
      assert s[..0] == "" && ReadDecimal("") == 0;
    } else {
      VoiceNames(v / 10);
      assert s[..|s| - 1] == Decimal(v / 10) && s[|s| - 1] == Digit(v % 10);
    }
  }

  // ---------------------------------------------------------------- lines and agents

  predicate AnyWords(entries: seq<Entry>) {
    exists i :: 0 <= i < |entries| && entries[i].words != []
  }

  /** Agents are shown only when there is more than one voice and some cue to carry one. */
  predicate Attributed(entries: seq<Entry>) {
    Top(Voices(Intervals(entries))) > 0 && AnyWords(entries)
  }

  function LineOf(entries: seq<Entry>, i: nat, agent: string): Line
    requires i < |entries|
  {
    Line(Some(entries[i].start), EndOf(entries, i), ValueOf(entries[i]), WordCues(entries[i].words, agent))
  }

  function AgentOf(entries: seq<Entry>, i: nat): string
    requires i < |entries|
  {
    if Attributed(entries) then VoiceId(Voices(Intervals(entries))[i]) else ""
  }

  function Agents(n: nat): (r: seq<Agent>)
    ensures |r| == n
    ensures forall v :: 0 <= v < n ==> r[v] == Agent(VoiceId(v), if v == 0 then "main" else "voice")
  {
    seq(n, v requires 0 <= v < n => Agent(VoiceId(v), if v == 0 then "main" else "voice"))
  }

  /** A line that has sounded through to a later one has another agent, when agents are shown at all. */
  lemma SoundingThroughKeepsAgent(entries: seq<Entry>, i: nat, j: nat)
    requires Attributed(entries) && i < j && SoundsThrough(Intervals(entries), i, j)
    ensures AgentOf(entries, i) != AgentOf(entries, j)
  {
    var voices := Voices(Intervals(entries));
    SoundingThroughKeepsVoice(Intervals(entries), i, j);
    if VoiceId(voices[i]) == VoiceId(voices[j]) {
      VoiceIdInjective(voices[i], voices[j]);
    }
  }

  /** Cues of overlapping attributed lines carry different agents, when entries are sorted by start. */
  lemma OverlapNeverSharesAgent(entries: seq<Entry>, i: nat, j: nat)
    requires Sorted(Intervals(entries)) && Attributed(entries)
    requires i < |entries| && j < |entries| && i != j && Overlap(Intervals(entries)[i], Intervals(entries)[j])
    ensures AgentOf(entries, i) != AgentOf(entries, j)
  {
    var a, b := Min(i, j), Max(i, j);
    SortedSoundsThrough(Intervals(entries), a, b);
    SoundingThroughKeepsAgent(entries, a, b);
  }

  method ResolveEnds(entries: seq<Entry>) returns (ends: seq<Option<int>>)
    ensures |ends| == |entries| && forall i {:trigger ends[i]} :: 0 <= i < |entries| ==> ends[i] == EndOf(entries, i)
  {
    ends := [];
    for i := 0 to |entries|
      invariant |ends| == i && forall k {:trigger ends[k]} :: 0 <= k < i ==> ends[k] == EndOf(entries, k)
    {
      var nextStart := None;
      if i + 1 < |entries| {
        nextStart := Some(entries[i + 1].start);
      }
      ends := ends + [LineEnd(entries[i], nextStart)];
    }
  }

  /** The first i lines, named after their voices. */
  ghost predicate Named(entries: seq<Entry>, lines: seq<Line>, voices: seq<nat>, i: nat) {
    && i <= |entries| && |lines| == i && |voices| == i
    && forall k {:trigger lines[k]} :: 0 <= k < i ==> lines[k] == LineOf(entries, k, VoiceId(voices[k]))
  }

  method TakeVoice(active: map<nat, int>, iv: Interval, ghost s: State) returns (voice: nat, active': map<nat, int>)
    requires s.active == active
    ensures Next(s, iv) == State(s.voices + [voice], active')
  {
    var busy := Prune(active, iv.start);
    voice := LowestFree(busy);
    active' := busy[voice := iv.until];
  }

  lemma AllocateNext(ivs: seq<Interval>, i: nat)
    requires i < |ivs|
    ensures Allocate(ivs[..i + 1]) == Next(Allocate(ivs[..i]), ivs[i])
  {
    assert ivs[..i + 1][..i] == ivs[..i];
  }

  lemma TopNext(voices: seq<nat>, v: nat)
    ensures Top(voices + [v]) == Max(Top(voices), v)
  {
    assert (voices + [v])[..|voices|] == voices;
  }

  /** What the main loop has computed after i entries. */
  ghost predicate Progress(entries: seq<Entry>, i: nat, active: map<nat, int>, voices: seq<nat>, lines: seq<Line>,
                           maxVoice: int) {
    && i <= |entries|
    && Allocate(Intervals(entries)[..i]) == State(voices, active)
    && maxVoice == Top(voices)
    && Named(entries, lines, voices, i)
  }

  lemma NamedGrows(entries: seq<Entry>, lines: seq<Line>, voices: seq<nat>, i: nat, line: Line, voice: nat)
    requires i < |entries| && Named(entries, lines, voices, i) && line == LineOf(entries, i, VoiceId(voice))
    ensures Named(entries, lines + [line], voices + [voice], i + 1)
  {
  }

  method NameLine(entries: seq<Entry>, i: nat, end: Option<int>, active: map<nat, int>, ghost voices: seq<nat>,
                  lines: seq<Line>, maxVoice: int)
    returns (active': map<nat, int>, ghost voices': seq<nat>, lines': seq<Line>, maxVoice': int, hasCues: bool)
    requires i < |entries| && end == EndOf(entries, i) && Progress(entries, i, active, voices, lines, maxVoice)
    ensures Progress(entries, i + 1, active', voices', lines', maxVoice') && hasCues == (entries[i].words != [])
  {
    ghost var ivs := Intervals(entries);
    AllocateNext(ivs, i);
    var voice;
    voice, active' := TakeVoice(active, IntervalOf(entries[i].start, end), Allocate(ivs[..i]));
    TopNext(voices, voice);
    maxVoice' := maxVoice;
    if voice > maxVoice {
      maxVoice' := voice;
    }
    var cues, value := WordsToLineCues(entries[i], VoiceId(voice));
    hasCues := |cues| > 0;
    var line := Line(Some(entries[i].start), end, value, cues);
    NamedGrows(entries, lines, voices, i, line, voice);
    lines', voices' := lines + [line], voices + [voice];
  }

  method NameLines(entries: seq<Entry>, ends: seq<Option<int>>)
    returns (lines: seq<Line>, maxVoice: int, anyCues: bool, ghost voices: seq<nat>)
    requires |ends| == |entries| && forall i {:trigger ends[i]} :: 0 <= i < |entries| ==> ends[i] == EndOf(entries, i)
    ensures voices == Voices(Intervals(entries)) && Named(entries, lines, voices, |entries|)
    ensures maxVoice == Top(voices) && anyCues == AnyWords(entries)
  {
    var active: map<nat, int> := map[];
    lines, maxVoice, anyCues, voices := [], -1, false, [];
    for i := 0 to |entries|
      invariant Progress(entries, i, active, voices, lines, maxVoice)
      invariant anyCues == AnyWords(entries[..i])
    {
      AnyWordsNext(entries, i);
      var hasCues;
      active, voices, lines, maxVoice, hasCues := NameLine(entries, i, ends[i], active, voices, lines, maxVoice);
      if hasCues {
        anyCues := true;
      }
    }
    assert Intervals(entries)[..|entries|] == Intervals(entries) && entries[..|entries|] == entries;
  }

  lemma AnyWordsNext(entries: seq<Entry>, i: nat)
    requires i < |entries|
    ensures AnyWords(entries[..i + 1]) <==> AnyWords(entries[..i]) || entries[i].words != []
  {
    var front, all := entries[..i], entries[..i + 1];
    assert all[i] == entries[i] && forall k :: 0 <= k < i ==> all[k] == front[k];
  }

  method StripCues(cues: seq<Cue>) returns (r: seq<Cue>)
    ensures |r| == |cues| && forall j :: 0 <= j < |cues| ==> r[j] == cues[j].(agent := "")
  {
    r := cues;
    for j := 0 to |cues|
      invariant |r| == |cues|
      invariant forall k :: 0 <= k < |cues| ==> r[k] == if k < j then cues[k].(agent := "") else cues[k]
    {
      r := r[j := r[j].(agent := "")];
    }
  }

  lemma {:induction false} StrippedCues(words: seq<Word>, agent: string, cues: seq<Cue>)
    requires |cues| == |words|
    requires forall j :: 0 <= j < |cues| ==> cues[j] == WordCues(words, agent)[j].(agent := "")
    ensures cues == WordCues(words, "")
  {
    forall j | 0 <= j < |cues| ensures cues[j] == WordCues(words, "")[j] {
      assert WordCues(words, agent)[j].agent == agent;
    }
  }

  method StripLine(line: Line, ghost entries: seq<Entry>, ghost i: nat, ghost agent: string) returns (r: Line)
    requires i < |entries| && line == LineOf(entries, i, agent)
    ensures r == LineOf(entries, i, "")
  {
    var cues := StripCues(line.cues);
    StrippedCues(entries[i].words, agent, cues);
    r := line.(cues := cues);
  }

  method StripAgents(entries: seq<Entry>, lines: seq<Line>, ghost voices: seq<nat>) returns (r: seq<Line>)
    requires Named(entries, lines, voices, |entries|)
    ensures |r| == |entries| && forall i {:trigger r[i]} :: 0 <= i < |entries| ==> r[i] == LineOf(entries, i, "")
  {
    r := [];
    ghost var want := seq(|entries|, k requires 0 <= k < |entries| => LineOf(entries, k, ""));
    for i := 0 to |lines|
      invariant |lines| == |entries| == |want| && r == want[..i]
    {
      var line := StripLine(lines[i], entries, i, VoiceId(voices[i]));
      r := r + [line];
    }
  }

  method ListAgents(maxVoice: int) returns (agents: seq<Agent>)
    requires maxVoice >= 0
    ensures agents == Agents(maxVoice + 1)
  {
    agents := [];
    for v := 0 to maxVoice + 1
      invariant agents == Agents(maxVoice + 1)[..v]
    {
      var role := "voice";
      if v == 0 {
        role := "main";
      }
      agents := agents + [Agent(VoiceId(v), role)];
    }
  }

  /** Every line is its entry's, with the given agents. */
  ghost predicate LinesAre(entries: seq<Entry>, lines: seq<Line>) {
    |lines| == |entries| && forall i {:trigger lines[i]} :: 0 <= i < |entries| ==> lines[i] == LineOf(entries, i, AgentOf(entries, i))
  }

  lemma NamedAreLines(entries: seq<Entry>, lines: seq<Line>, voices: seq<nat>)
    requires voices == Voices(Intervals(entries)) && Named(entries, lines, voices, |entries|) && Attributed(entries)
    ensures LinesAre(entries, lines)
  {
    forall i | 0 <= i < |entries| ensures lines[i] == LineOf(entries, i, AgentOf(entries, i)) {
      assert AgentOf(entries, i) == VoiceId(voices[i]);
    }
  }

  lemma StrippedAreLines(entries: seq<Entry>, lines: seq<Line>)
    requires |lines| == |entries| && forall i {:trigger lines[i]} :: 0 <= i < |entries| ==> lines[i] == LineOf(entries, i, "")
    requires !Attributed(entries)
    ensures LinesAre(entries, lines)
  {
    forall i | 0 <= i < |entries| ensures lines[i] == LineOf(entries, i, AgentOf(entries, i)) {
      assert AgentOf(entries, i) == "";
    }
  }

  // ---------------------------------------------------------------- the result in plain terms

  /** Where a line with this entry ends, the next entry starting at `next`. */
  predicate EndsAt(end: Option<int>, entry: Entry, next: Option<int>) {
    && (entry.end.Some? ==> end == entry.end)
    && (entry.end.None? && entry.words != [] && entry.words[|entry.words| - 1].end.Some? ==>
          end == entry.words[|entry.words| - 1].end)
    && (entry.end.None? && (entry.words == [] || entry.words[|entry.words| - 1].end.None?) ==> end == next)
  }

  /** One cue for every word, in order: its text and start, and its end or the next word's start. */
  predicate CuesForWords(cues: seq<Cue>, words: seq<Word>) {
    && |cues| == |words|
    && forall k :: 0 <= k < |words| ==>
         cues[k].start == Some(words[k].start) && cues[k].value == Bytes(words[k].text) &&
         cues[k].end == if words[k].end.Some? then words[k].end
                        else if k + 1 < |words| then Some(words[k + 1].start) else None
  }

  /** The line says what its entry says. */
  predicate LineFor(line: Line, entries: seq<Entry>, i: nat)
    requires i < |entries|
  {
    && line.start == Some(entries[i].start)
    && EndsAt(line.end, entries[i], if i + 1 < |entries| then Some(entries[i + 1].start) else None)
    && CuesForWords(line.cues, entries[i].words)
    && (entries[i].words == [] ==> line.value == entries[i].text)
    && (forall k :: 0 <= k < |line.cues| && line.cues[k].value != [] ==> Selects(Bytes(line.value), line.cues[k]))
  }

  predicate InterruptedAt(lines: seq<Line>, j: nat) {
    0 < j < |lines| && lines[j - 1].end.Some? && lines[j].start.Some? && lines[j - 1].end.value > lines[j].start.value
  }

  /** Some line starts before the one in front of it has ended. */
  ghost predicate Interrupted(lines: seq<Line>) {
    exists j: nat :: InterruptedAt(lines, j)
  }

  /** Line i is still going on at the start of every line after it up to j. */
  predicate GoesOn(entries: seq<Entry>, lines: seq<Line>, i: nat, j: nat) {
    i < j < |entries| && |lines| == |entries| && lines[i].end.Some? &&
    forall k :: i < k <= j ==> entries[k].start < lines[i].end.value
  }

  /** Cues of a line, and of one that starts while it is going on, name different agents. */
  predicate AgentsApart(entries: seq<Entry>, lines: seq<Line>) {
    forall i, j :: 0 <= i < j < |lines| && GoesOn(entries, lines, i, j) ==>
      forall a, b :: a in lines[i].cues && b in lines[j].cues ==> a.agent != b.agent
  }

  predicate AgentIs(cues: seq<Cue>, id: string) { forall a :: a in cues ==> a.agent == id }

  /** All cues of a line name one agent, which is listed; without a list they name none. */
  predicate AgentsListed(lines: seq<Line>, agents: seq<Agent>) {
    && (agents == [] ==> forall i :: 0 <= i < |lines| ==> AgentIs(lines[i].cues, ""))
    && (agents != [] ==> forall i :: 0 <= i < |lines| ==>
          exists v :: 0 <= v < |agents| && AgentIs(lines[i].cues, agents[v].id))
    && (forall u, v :: 0 <= u < v < |agents| ==> agents[u].id != agents[v].id)
    && (forall v :: 0 <= v < |agents| ==> agents[v].role == if v == 0 then "main" else "voice")
  }

  lemma LineIsFor(entries: seq<Entry>, i: nat, agent: string)
    requires i < |entries|
    ensures LineFor(LineOf(entries, i, agent), entries, i)
  {
    var line, words := LineOf(entries, i, agent), entries[i].words;
    forall k | 0 <= k < |line.cues| && line.cues[k].value != [] ensures Selects(Bytes(line.value), line.cues[k]) {
      EncodedLength(words[k].text);
      WordSelects(words, agent, k);
    }
  }

  lemma CuesCarryAgent(words: seq<Word>, agent: string)
    ensures AgentIs(WordCues(words, agent), agent)
  {
  }

  lemma LineTimes(entries: seq<Entry>, lines: seq<Line>, i: nat)
    requires LinesAre(entries, lines) && i < |lines|
    ensures lines[i].start == Some(entries[i].start) && lines[i].end == EndOf(entries, i)
    ensures lines[i].cues != [] <==> entries[i].words != []
  {
    assert lines[i] == LineOf(entries, i, AgentOf(entries, i));
  }

  lemma InterruptsWhen(entries: seq<Entry>, lines: seq<Line>, j: nat)
    requires LinesAre(entries, lines)
    ensures Interrupts(Intervals(entries), j) <==> InterruptedAt(lines, j)
  {
    if 0 < j < |lines| {
      LineTimes(entries, lines, j - 1);
      LineTimes(entries, lines, j);
    }
  }

  /** Agents are shown exactly when there is a cue and some line interrupts the one in front of it. */
  lemma AttributedWhen(entries: seq<Entry>, lines: seq<Line>)
    requires LinesAre(entries, lines)
    ensures Attributed(entries) <==> Interrupted(lines) && exists i :: 0 <= i < |lines| && lines[i].cues != []
  {
    SecondVoiceWhen(Intervals(entries));
    forall j: nat ensures Interrupts(Intervals(entries), j) <==> InterruptedAt(lines, j) {
      InterruptsWhen(entries, lines, j);
    }
    forall i | 0 <= i < |lines| ensures lines[i].cues != [] <==> entries[i].words != [] {
      LineTimes(entries, lines, i);
    }
  }

  lemma BuiltAgentsApart(entries: seq<Entry>, lines: seq<Line>)
    requires LinesAre(entries, lines) && Attributed(entries)
    ensures AgentsApart(entries, lines)
  {
    forall i, j | 0 <= i < j < |lines| && GoesOn(entries, lines, i, j)
      ensures forall a, b :: a in lines[i].cues && b in lines[j].cues ==> a.agent != b.agent
    {
      assert lines[i] == LineOf(entries, i, AgentOf(entries, i)) && lines[j] == LineOf(entries, j, AgentOf(entries, j));
      SoundingThroughKeepsAgent(entries, i, j);
      CuesCarryAgent(entries[i].words, AgentOf(entries, i));
      CuesCarryAgent(entries[j].words, AgentOf(entries, j));
    }
  }

  lemma BuiltAgentsListed(entries: seq<Entry>, lines: seq<Line>, agents: seq<Agent>)
    requires LinesAre(entries, lines)
    requires agents == if Attributed(entries) then Agents(Top(Voices(Intervals(entries))) + 1) else []
    ensures AgentsListed(lines, agents)
  {
    forall i | 0 <= i < |lines| ensures AgentIs(lines[i].cues, AgentOf(entries, i)) {
      assert lines[i] == LineOf(entries, i, AgentOf(entries, i));
      CuesCarryAgent(entries[i].words, AgentOf(entries, i));
    }
    if agents != [] {
      forall i | 0 <= i < |lines| ensures exists v :: 0 <= v < |agents| && AgentIs(lines[i].cues, agents[v].id) {
        var v := Voices(Intervals(entries))[i];
        assert v <= Top(Voices(Intervals(entries)));
        assert agents[v].id == VoiceId(v) == AgentOf(entries, i);
      }
    }
    forall u, v | 0 <= u < v < |agents| ensures agents[u].id != agents[v].id {
      if VoiceId(u) == VoiceId(v) {
        VoiceIdInjective(u, v);
      }
    }
  }

  lemma BuiltLinesFor(entries: seq<Entry>, lines: seq<Line>)
    requires LinesAre(entries, lines)
    ensures forall i :: 0 <= i < |lines| ==> LineFor(lines[i], entries, i)
  {
    forall i | 0 <= i < |lines| ensures LineFor(lines[i], entries, i) {
      LineIsFor(entries, i, AgentOf(entries, i));
      assert lines[i] == LineOf(entries, i, AgentOf(entries, i));
    }
  }

  /** The method's last step: what its specification says in plain terms. */
  lemma Built(entries: seq<Entry>, lines: seq<Line>, agents: seq<Agent>)
    requires LinesAre(entries, lines)
    requires agents == if Attributed(entries) then Agents(Top(Voices(Intervals(entries))) + 1) else []
    ensures |lines| == |entries| && forall i :: 0 <= i < |lines| ==> LineFor(lines[i], entries, i)
    ensures AgentsListed(lines, agents)
    ensures agents != [] ==> AgentsApart(entries, lines)
    ensures agents != [] <==> Interrupted(lines) && exists i :: 0 <= i < |lines| && lines[i].cues != []
  {
    BuiltLinesFor(entries, lines);
    BuiltAgentsListed(entries, lines, agents);
    AttributedWhen(entries, lines);
    if Attributed(entries) {
      BuiltAgentsApart(entries, lines);
    }
  }

  /** buildLyricsfileLines. */
  method BuildLines(entries: seq<Entry>) returns (lines: seq<Line>, agents: seq<Agent>)
    ensures LinesAre(entries, lines)
    ensures Attributed(entries) ==> agents == Agents(Top(Voices(Intervals(entries))) + 1)
    ensures !Attributed(entries) ==> agents == []
    ensures |lines| == |entries| && forall i :: 0 <= i < |lines| ==> LineFor(lines[i], entries, i)
    ensures AgentsListed(lines, agents)
    ensures agents != [] ==> AgentsApart(entries, lines)
    ensures agents != [] <==> Interrupted(lines) && exists i :: 0 <= i < |lines| && lines[i].cues != []
  {
    if entries == [] {
      Built([], [], []);
      return [], [];
    }
    var ends := ResolveEnds(entries);
    var maxVoice, anyCues;
    ghost var voices;
    lines, maxVoice, anyCues, voices := NameLines(entries, ends);
    if maxVoice <= 0 || !anyCues {
      lines := StripAgents(entries, lines, voices);
      StrippedAreLines(entries, lines);
      Built(entries, lines, []);
      return lines, [];
    }
    NamedAreLines(entries, lines, voices);
    agents := ListAgents(maxVoice);
    Built(entries, lines, agents);
  }
}
