/**
  TTML paragraphs: pieces of character data, timed or not, and line breaks become one
  lyric line. White space is collapsed piece by piece with a carried trailing-space flag.
 */
module TtmlLines {
  import opened Prelude
  import opened LyricsText

  // ---------------------------------------------------------------- collapsing

  /** Production S of XML 1.0. */
  predicate IsXmlSpace(c: char) { c == ' ' || c == '\t' || c == '\n' || c == '\r' }

  /** What one character contributes when the text before it ends in white space or not. */
  function Kept(c: char, space: bool): string {
    if !IsXmlSpace(c) then [c] else if space then "" else " "
  }

  /** White space collapsed to single blanks; a run continuing from before is dropped when `space`. */
  function Collapse(s: string, space: bool): string {
    if s == "" then "" else Kept(s[0], space) + Collapse(s[1..], IsXmlSpace(s[0]))
  }

  /** The trailing-space flag after `s`. */
  function Ends(s: string, space: bool): bool {
    if s == "" then space else IsXmlSpace(s[|s| - 1])
  }

  function DropBlank(s: string): string { if s != "" && s[0] == ' ' then s[1..] else s }

  lemma CollapseOne(c: char, space: bool)
    ensures Collapse([c], space) == Kept(c, space)
  {
    assert [c][1..] == "" && Collapse("", IsXmlSpace(c)) == "";
  }

  /** Collapsing is streamable: a text can be cut anywhere when the flag is carried over. */
  lemma {:induction false} CollapseConcat(a: string, b: string, space: bool)
    ensures Collapse(a + b, space) == Collapse(a, space) + Collapse(b, Ends(a, space))
  {
    if a == "" {
      assert a + b == b;
    } else {
      var next := IsXmlSpace(a[0]);
      assert Ends(a[1..], next) == Ends(a, space);
      CollapseConcat(a[1..], b, next);
      assert (a + b)[1..] == a[1..] + b;
      Regroup(Kept(a[0], space), Collapse(a[1..], next), Collapse(b, Ends(a, space)));
    }
  }

  lemma Regroup(a: string, b: string, c: string)
    ensures a + (b + c) == (a + b) + c
  {
  }

  lemma EndsConcat(a: string, b: string, space: bool)
    ensures Ends(a + b, space) == Ends(b, Ends(a, space))
  {
    if b == "" {
      assert a + b == a;
    }
  }

  /** Dropping the leading blank afterwards is the same as starting inside a run. */
  lemma DropsLeadingBlank(s: string)
    ensures DropBlank(Collapse(s, false)) == Collapse(s, true)
  {
    if s != "" && IsXmlSpace(s[0]) {
      assert (" " + Collapse(s[1..], true))[1..] == Collapse(s[1..], true);
    }
  }

  /** Blanks only as white space, never two in a row, and none first when `space`. */
  predicate Collapsed(s: string, space: bool) {
    && (forall i :: 0 <= i < |s| ==> s[i] != '\t' && s[i] != '\n' && s[i] != '\r')
    && (forall i :: 0 <= i < |s| - 1 && s[i] == ' ' ==> s[i + 1] != ' ')
    && (space && s != "" ==> s[0] != ' ')
  }

  lemma {:induction false} CollapseIsCollapsed(s: string, space: bool)
    ensures Collapsed(Collapse(s, space), space)
    ensures Collapse(s, space) != "" ==> Ends(Collapse(s, space), space) == Ends(s, space)
    ensures Collapse(s, space) == "" && s != "" ==> space && Ends(s, space)
  {
    if s != "" {
      CollapseIsCollapsed(s[1..], IsXmlSpace(s[0]));
      if s[1..] == "" {
        assert Collapse(s[1..], true) == "" && Collapse(s[1..], false) == "";
      }
    }
  }

  /** Everything but blanks, tabs, line feeds and carriage returns. */
  function Content(s: string): string {
    if s == "" then ""
    else if s[0] == ' ' || s[0] == '\t' || s[0] == '\n' || s[0] == '\r' then Content(s[1..])
    else [s[0]] + Content(s[1..])
  }

  lemma {:induction false} ContentConcat(a: string, b: string)
    ensures Content(a + b) == Content(a) + Content(b)
  {
    if a == "" {
      assert a + b == b;
    } else {
      assert (a + b)[1..] == a[1..] + b;
      ContentConcat(a[1..], b);
    }
  }

  /** Collapsing loses, adds and reorders no other character. */
  lemma {:induction false} CollapseKeepsContent(s: string, space: bool)
    ensures Content(Collapse(s, space)) == Content(s)
  {
    if s != "" {
      var kept := Kept(s[0], space);
      CollapseKeepsContent(s[1..], IsXmlSpace(s[0]));
      ContentConcat(kept, Collapse(s[1..], IsXmlSpace(s[0])));
      assert kept != "" ==> kept[1..] == "";
    }
  }

  lemma {:induction false} CollapsedIsFixed(s: string, space: bool)
    requires Collapsed(s, space)
    ensures Collapse(s, space) == s
  {
    if s != "" {
      assert Collapsed(s[1..], IsXmlSpace(s[0])) by {
        var t := s[1..];
        assert forall i :: 0 <= i < |t| ==> t[i] == s[i + 1];
      }
      CollapsedIsFixed(s[1..], IsXmlSpace(s[0]));
      assert s == [s[0]] + s[1..];
    }
  }

  /** A second collapse changes nothing. */
  lemma CollapseTwice(s: string, space: bool)
    ensures Collapse(Collapse(s, space), false) == Collapse(s, space)
  {
    CollapseIsCollapsed(s, space);
    CollapsedIsFixed(Collapse(s, space), false);
  }

  lemma CollapseNext(raw: string, i: nat)
    requires i < |raw|
    ensures Collapse(raw[..i + 1], false) ==
            Collapse(raw[..i], false) + Kept(raw[i], Ends(raw[..i], false))
    ensures Ends(raw[..i + 1], false) == IsXmlSpace(raw[i])
  {
    assert raw[..i + 1] == raw[..i] + [raw[i]];
    CollapseConcat(raw[..i], [raw[i]], false);
    CollapseOne(raw[i], Ends(raw[..i], false));
  }

  /** collapseTTMLWhitespace. */
  method CollapseWhitespace(raw: string) returns (r: string)
    ensures r == Collapse(raw, false) && Collapsed(r, false) && Content(r) == Content(raw)
  {
    r := "";
    var prevSpace := false;
    for i := 0 to |raw|
      invariant r == Collapse(raw[..i], false) && prevSpace == Ends(raw[..i], false)
    {
      CollapseNext(raw, i);
      if IsXmlSpace(raw[i]) {
        if !prevSpace {
          r := r + " ";
          prevSpace := true;
        }
      } else {
        r := r + [raw[i]];
        prevSpace := false;
      }
    }
    assert raw[..|raw|] == raw;
    CollapseIsCollapsed(raw, false);
    CollapseKeepsContent(raw, false);
  }

  // ---------------------------------------------------------------- splitting at breaks

  datatype Piece = Text(raw: string, timing: Option<Timing>) | Break

  /** A piece of a logical line: never a break. */
  datatype Part = Part(raw: string, timing: Option<Timing>)

  function PartsRaw(line: seq<Part>): string {
    if line == [] then "" else PartsRaw(line[..|line| - 1]) + line[|line| - 1].raw
  }

  /** A break starts a new line; text joins the last one. */
  function WithPiece(lines: seq<seq<Part>>, piece: Piece): (r: seq<seq<Part>>)
    requires lines != []
    ensures r != []
  {
    if piece.Break? then lines + [[]]
    else
      var n := |lines| - 1;
      lines[..n] + [lines[n] + [Part(piece.raw, piece.timing)]]
  }

  /** The logical lines before any collapsing: the pieces between breaks. */
  function RawLines(pieces: seq<Piece>): (r: seq<seq<Part>>)
    ensures r != []
  {
    if pieces == [] then [[]]
    else
      var n := |pieces| - 1;
      WithPiece(RawLines(pieces[..n]), pieces[n])
  }

  /** One logical line collapsed piece by piece; pieces left empty are skipped. */
  function Stream(line: seq<Part>): seq<Part> {
    if line == [] then []
    else
      var n := |line| - 1;
      var raw := Collapse(line[n].raw, Ends(PartsRaw(line[..n]), true));
      Stream(line[..n]) + (if raw == "" then [] else [Part(raw, line[n].timing)])
  }

  /**
    The streamed pieces of a logical line, put together, are the collapse of the whole
    line with its leading blank dropped.
   */
  lemma {:induction false} StreamCollapsesWhole(line: seq<Part>)
    ensures PartsRaw(Stream(line)) == Collapse(PartsRaw(line), true)
    ensures PartsRaw(Stream(line)) == DropBlank(Collapse(PartsRaw(line), false))
  {
    if line != [] {
      var n := |line| - 1;
      StreamCollapsesWhole(line[..n]);
      CollapseConcat(PartsRaw(line[..n]), line[n].raw, true);
      var raw := Collapse(line[n].raw, Ends(PartsRaw(line[..n]), true));
      if raw != "" {
        var front := Stream(line[..n]);
        assert (front + [Part(raw, line[n].timing)])[..|front|] == front;
      } else {
        assert Stream(line[..n]) + [] == Stream(line[..n]);
      }
    }
    DropsLeadingBlank(PartsRaw(line));
  }

  predicate AllCollapsed(line: seq<Part>) {
    forall k :: 0 <= k < |line| ==> line[k].raw != "" && Collapsed(line[k].raw, false)
  }

  lemma {:induction false} StreamIsCollapsed(line: seq<Part>)
    ensures AllCollapsed(Stream(line))
  {
    if line != [] {
      var n := |line| - 1;
      StreamIsCollapsed(line[..n]);
      CollapseIsCollapsed(line[n].raw, Ends(PartsRaw(line[..n]), true));
    }
  }

  function StreamAll(lines: seq<seq<Part>>): (r: seq<seq<Part>>)
    ensures |r| == |lines|
    ensures forall k :: 0 <= k < |lines| ==> r[k] == Stream(lines[k])
  {
    seq(|lines|, k requires 0 <= k < |lines| => Stream(lines[k]))
  }

  /** The flag the splitter carries: does the text emitted on this line end in a blank? */
  lemma EmittedFlag(line: seq<Part>)
    ensures Ends(PartsRaw(Stream(line)), true) == Ends(PartsRaw(line), true)
  {
    StreamCollapsesWhole(line);
    CollapseIsCollapsed(PartsRaw(line), true);
  }

  lemma PartsRawGrows(line: seq<Part>, p: Part)
    ensures PartsRaw(line + [p]) == PartsRaw(line) + p.raw
  {
    assert (line + [p])[..|line|] == line;
  }

  lemma StreamGrows(line: seq<Part>, p: Part)
    ensures var raw := Collapse(p.raw, Ends(PartsRaw(line), true));
            Stream(line + [p]) == Stream(line) + (if raw == "" then [] else [Part(raw, p.timing)])
  {
    assert (line + [p])[..|line|] == line;
  }

  /** One piece of the current line: its own collapse, minus a blank the line already ends in. */
  method SplitPiece(ghost line: seq<Part>, emitted: seq<Part>, p: Part, prevEndedWithSpace: bool)
    returns (grown: seq<Part>, ended: bool)
    requires emitted == Stream(line) && prevEndedWithSpace == Ends(PartsRaw(line), true)
    ensures grown == Stream(line + [p]) && ended == Ends(PartsRaw(line + [p]), true)
  {
    var raw := CollapseWhitespace(p.raw);
    if prevEndedWithSpace {
      DropsLeadingBlank(p.raw);
      raw := DropBlank(raw);
    }
    StreamGrows(line, p);
    PartsRawGrows(line, p);
    EndsConcat(PartsRaw(line), p.raw, true);
    CollapseIsCollapsed(p.raw, prevEndedWithSpace);
    if raw == "" {
      return emitted, prevEndedWithSpace;
    }
    return emitted + [Part(raw, p.timing)], raw[|raw| - 1] == ' ';
  }

  lemma RawLinesNext(pieces: seq<Piece>, i: nat)
    requires i < |pieces|
    ensures RawLines(pieces[..i + 1]) == WithPiece(RawLines(pieces[..i]), pieces[i])
  {
    assert pieces[..i + 1][..i] == pieces[..i];
  }

  function Last<T>(s: seq<T>): T requires s != [] { s[|s| - 1] }

  /** The splitter's state after the pieces whose raw lines are `raws`. */
  ghost predicate SplitAt(raws: seq<seq<Part>>, lines: seq<seq<Part>>, flag: bool) {
    raws != [] && lines == StreamAll(raws) && flag == Ends(PartsRaw(Last(raws)), true)
  }

  lemma StreamAllGrows(raws: seq<seq<Part>>, line: seq<Part>)
    ensures StreamAll(raws + [line]) == StreamAll(raws) + [Stream(line)]
  {
  }

  lemma StreamAllPrefix(raws: seq<seq<Part>>, n: nat)
    requires n <= |raws|
    ensures StreamAll(raws[..n]) == StreamAll(raws)[..n]
  {
  }

  method SplitStep(piece: Piece, ghost raws: seq<seq<Part>>, ghost next: seq<seq<Part>>,
                   lines: seq<seq<Part>>, flag: bool)
    returns (lines': seq<seq<Part>>, flag': bool)
    requires SplitAt(raws, lines, flag) && next == WithPiece(raws, piece)
    ensures SplitAt(next, lines', flag')
  {
    if piece.Break? {
      StreamAllGrows(raws, []);
      return lines + [[]], true;
    }
    var p := Part(piece.raw, piece.timing);
    var n := |lines| - 1;
    var grown, ended := SplitPiece(raws[n], lines[n], p, flag);
    StreamAllPrefix(raws, n);
    StreamAllGrows(raws[..n], raws[n] + [p]);
    return lines[..n] + [grown], ended;
  }

  /** splitTTMLPiecesByBreak. */
  method SplitByBreak(pieces: seq<Piece>) returns (lines: seq<seq<Part>>)
    ensures lines == StreamAll(RawLines(pieces))
  {
    lines := [[]];
    var prevEndedWithSpace := true;
    var i := 0;
    while i < |pieces|
      invariant i <= |pieces| && SplitAt(RawLines(pieces[..i]), lines, prevEndedWithSpace)
    {
      RawLinesNext(pieces, i);
      lines, prevEndedWithSpace :=
        SplitStep(pieces[i], RawLines(pieces[..i]), RawLines(pieces[..i + 1]), lines, prevEndedWithSpace);
      i := i + 1;
    }
    assert pieces[..|pieces|] == pieces;
  }

  // ---------------------------------------------------------------- one logical line

  /** A logical line as it is put into the result. */
  datatype Final = Final(text: string, cues: seq<Cue>)

  function PartSpans(line: seq<Part>): seq<Span> {
    seq(|line|, k requires 0 <= k < |line| => Span(|Bytes(line[k].raw)|, line[k].timing))
  }

  function Finalized(line: seq<Part>): Final {
    var raw := PartsRaw(line);
    TrimSpaceBytes(raw);
    Final(TrimSpace(raw), Clip(Bytes(raw), PartSpans(line), LeftTrimBytes(raw), TrimmedEnd(raw)))
  }

  /** Cues select their values in the line and follow one another. */
  predicate Good(f: Final) {
    AllSelect(Bytes(f.text), f.cues) && Ordered(f.cues) && EndBefore(f.cues, |Bytes(f.text)|)
  }

  lemma FinalizedIsGood(line: seq<Part>)
    ensures Good(Finalized(line))
  {
    var raw := PartsRaw(line);
    TrimSpaceBytes(raw);
    ClipSelects(Bytes(raw), PartSpans(line), LeftTrimBytes(raw), TrimmedEnd(raw));
  }

  lemma PartsRawNext(line: seq<Part>, k: nat)
    requires k < |line|
    ensures PartsRaw(line[..k + 1]) == PartsRaw(line[..k]) + line[k].raw
  {
    assert line[..k + 1][..k] == line[..k];
  }

  /** concatTTMLPieceRaw: normalising the pieces again leaves them as they are. */
  method ConcatRaw(line: seq<Part>) returns (raw: string)
    requires AllCollapsed(line)
    ensures raw == PartsRaw(line)
  {
    raw := "";
    for k := 0 to |line|
      invariant raw == PartsRaw(line[..k])
    {
      var piece := CollapseWhitespace(line[k].raw);
      CollapsedIsFixed(line[k].raw, false);
      PartsRawNext(line, k);
      raw := raw + piece;
    }
    assert line[..|line|] == line;
  }

  method ClipPart(bytes: seq<Byte>, part: Part, cursor: int, left: int, right: int) returns (cues: seq<Cue>)
    requires 0 <= left && right <= |bytes|
    ensures cues == ClipOne(bytes, Span(|Bytes(part.raw)|, part.timing), cursor, left, right)
  {
    cues := [];
    if part.timing.Some? {
      var from, to := Max(cursor, left), Min(cursor + |Bytes(part.raw)|, right);
      if from < to {
        var t := part.timing.value;
        cues := [Cue(t.start, t.end, bytes[from..to], from - left, to - left - 1, t.agent)];
      }
    }
  }

  method ClipParts(bytes: seq<Byte>, line: seq<Part>, left: int, right: int) returns (cues: seq<Cue>)
    requires 0 <= left && right <= |bytes|
    ensures cues == Clip(bytes, PartSpans(line), left, right)
  {
    ghost var spans := PartSpans(line);
    cues := [];
    var cursor, k := 0, 0;
    while k < |line|
      invariant k <= |line| && cursor == Total(spans[..k]) && cues == Clip(bytes, spans[..k], left, right)
    {
      var more := ClipPart(bytes, line[k], cursor, left, right);
      ClipNext(bytes, spans, k, left, right);
      cues := cues + more;
      cursor := cursor + |Bytes(line[k].raw)|;
      k := k + 1;
    }
    assert spans[..|line|] == spans;
  }

  lemma CuesNeedText(line: seq<Byte>, cues: seq<Cue>)
    requires AllSelect(line, cues)
    ensures cues != [] ==> line != []
  {
    if cues != [] {
      assert Selects(line, cues[0]);
    }
  }

  lemma EmptyLine(line: seq<Part>)
    requires PartsRaw(line) == ""
    ensures Finalized(line) == Final("", [])
  {
    FinalizedIsGood(line);
    assert Bytes("") == [];
    CuesNeedText([], Finalized(line).cues);
  }

  /** finalizeTTMLLogicalLine. */
  method FinalizeLogicalLine(line: seq<Part>) returns (f: Final)
    requires AllCollapsed(line)
    ensures f == Finalized(line)
  {
    var raw := ConcatRaw(line);
    if raw == "" {
      EmptyLine(line);
      return Final("", []);
    }
    TrimSpaceBytes(raw);
    var cues := ClipParts(Bytes(raw), line, LeftTrimBytes(raw), TrimmedEnd(raw));
    return Final(TrimSpace(raw), cues);
  }

  // ---------------------------------------------------------------- which pieces stand between which breaks

  predicate NoBreak(pieces: seq<Piece>) { forall i :: 0 <= i < |pieces| ==> pieces[i].Text? }

  function PartsOf(pieces: seq<Piece>): (r: seq<Part>)
    requires NoBreak(pieces)
    ensures |r| == |pieces| && forall i :: 0 <= i < |pieces| ==> r[i] == Part(pieces[i].raw, pieces[i].timing)
  {
    seq(|pieces|, i requires 0 <= i < |pieces| => Part(pieces[i].raw, pieces[i].timing))
  }

  /** Pieces without a break make one line, in their order. */
  lemma {:induction false} OneRawLine(pieces: seq<Piece>)
    requires NoBreak(pieces)
    ensures RawLines(pieces) == [PartsOf(pieces)]
  {
    if pieces != [] {
      var n := |pieces| - 1;
      OneRawLine(pieces[..n]);
      assert PartsOf(pieces) == PartsOf(pieces[..n]) + [Part(pieces[n].raw, pieces[n].timing)];
    }
  }

  lemma WithPieceBehind(a: seq<seq<Part>>, b: seq<seq<Part>>, piece: Piece)
    requires b != []
    ensures WithPiece(a + b, piece) == a + WithPiece(b, piece)
  {
    var n := |b| - 1;
    assert (a + b)[..|a + b| - 1] == a + b[..n];
  }

  lemma RawLinesGrow(pieces: seq<Piece>, piece: Piece)
    ensures RawLines(pieces + [piece]) == WithPiece(RawLines(pieces), piece)
  {
    assert (pieces + [piece])[..|pieces|] == pieces;
  }

  /** A break ends the lines before it and begins those after it. */
  lemma {:induction false} BreakSplits(a: seq<Piece>, b: seq<Piece>)
    ensures RawLines(a + [Break] + b) == RawLines(a) + RawLines(b)
  {
    if b == [] {
      assert a + [Break] + b == a + [Break];
      RawLinesGrow(a, Break);
    } else {
      var front, last := b[..|b| - 1], b[|b| - 1];
      BreakSplits(a, front);
      assert b == front + [last] && a + [Break] + b == (a + [Break] + front) + [last];
      RawLinesGrow(a + [Break] + front, last);
      RawLinesGrow(front, last);
      WithPieceBehind(RawLines(a), RawLines(front), last);
    }
  }

  // ---------------------------------------------------------------- which cues there are

  /** Bytes that the first n pieces make when the text of the line is collapsed as a whole. */
  function Edge(line: seq<Part>, n: nat): nat
    requires n <= |line|
  {
    |Bytes(Collapse(PartsRaw(line[..n]), true))|
  }

  function Edges(line: seq<Part>): (edges: seq<nat>)
    ensures |edges| == |line| + 1 && forall n :: 0 <= n <= |line| ==> edges[n] == Edge(line, n)
  {
    seq(|line| + 1, n requires 0 <= n <= |line| => Edge(line, n))
  }

  /** A stamp for every timed piece of which something is left after collapsing and trimming, in order. */
  function PieceStamps(line: seq<Part>, edges: seq<nat>, n: nat, left: int, right: int): seq<Stamp>
    requires n <= |line| < |edges|
  {
    if n == 0 then []
    else PieceStamps(line, edges, n - 1, left, right) +
         Surviving(line[n - 1].timing, edges[n - 1], edges[n], left, right)
  }

  function LineStamps(line: seq<Part>): seq<Stamp> {
    var whole := Collapse(PartsRaw(line), true);
    PieceStamps(line, Edges(line), |line|, LeftTrimBytes(whole), TrimmedEnd(whole))
  }

  lemma PartSpansNext(line: seq<Part>, p: Part)
    ensures PartSpans(line + [p]) == PartSpans(line) + [Span(|Bytes(p.raw)|, p.timing)]
  {
  }

  /** One more piece: what it adds to the collapsed line, and to the streamed pieces. */
  lemma EdgeNext(line: seq<Part>, n: nat)
    requires n < |line|
    ensures Edge(line, n + 1) == Edge(line, n) + |Bytes(Collapse(line[n].raw, Ends(PartsRaw(line[..n]), true)))|
  {
    PartsRawNext(line, n);
    CollapseConcat(PartsRaw(line[..n]), line[n].raw, true);
    BytesConcat(Collapse(PartsRaw(line[..n]), true), Collapse(line[n].raw, Ends(PartsRaw(line[..n]), true)));
  }

  lemma StreamedSpansNext(line: seq<Part>, n: nat)
    requires n < |line|
    ensures var raw := Collapse(line[n].raw, Ends(PartsRaw(line[..n]), true));
            PartSpans(Stream(line[..n + 1])) ==
            PartSpans(Stream(line[..n])) + if raw == "" then [] else [Span(|Bytes(raw)|, line[n].timing)]
  {
    var raw := Collapse(line[n].raw, Ends(PartsRaw(line[..n]), true));
    assert line[..n + 1] == line[..n] + [line[n]];
    StreamGrows(line[..n], line[n]);
    if raw != "" {
      PartSpansNext(Stream(line[..n]), Part(raw, line[n].timing));
    }
  }

  lemma NoBytes(s: string)
    ensures |Bytes(s)| == 0 <==> s == ""
  {
  }

  /** Piece n of the line adds the stretch between its edges to the stretches before it. */
  predicate AddsStretch(line: seq<Part>, edges: seq<nat>, spansAt: seq<seq<Span>>, n: nat)
    requires n < |line| < |edges| && |spansAt| == |edges|
  {
    && edges[n] <= edges[n + 1]
    && spansAt[n + 1] == if edges[n] == edges[n + 1] then spansAt[n]
                         else spansAt[n] + [Span(edges[n + 1] - edges[n], line[n].timing)]
  }

  /** The cues clipped from the first n stretches carry the stamps of the first n pieces. */
  predicate StampedUpTo(line: seq<Part>, edges: seq<nat>, spansAt: seq<seq<Span>>, bytes: seq<Byte>, n: nat, left: int, right: int)
    requires n <= |line| < |edges| && |spansAt| == |edges| && 0 <= left && right <= |bytes|
  {
    && Stamps(Clip(bytes, spansAt[n], left, right)) == PieceStamps(line, edges, n, left, right)
    && Total(spansAt[n]) == edges[n]
  }

  lemma StampedFirst(line: seq<Part>, edges: seq<nat>, spansAt: seq<seq<Span>>, bytes: seq<Byte>, left: int, right: int)
    requires |line| < |edges| && |spansAt| == |edges| && 0 <= left && right <= |bytes|
    requires edges[0] == 0 && spansAt[0] == []
    ensures StampedUpTo(line, edges, spansAt, bytes, 0, left, right)
  {
  }

  lemma StampedNext(line: seq<Part>, edges: seq<nat>, spansAt: seq<seq<Span>>, bytes: seq<Byte>, n: nat, left: int, right: int)
    requires 0 < n <= |line| < |edges| && |spansAt| == |edges| && 0 <= left && right <= |bytes|
    requires AddsStretch(line, edges, spansAt, n - 1) && StampedUpTo(line, edges, spansAt, bytes, n - 1, left, right)
    ensures StampedUpTo(line, edges, spansAt, bytes, n, left, right)
  {
    if edges[n - 1] < edges[n] {
      ClipStampsNext(bytes, spansAt[n - 1], Span(edges[n] - edges[n - 1], line[n - 1].timing), left, right);
    }
  }

  lemma {:induction false} StretchesAreStamped(line: seq<Part>, edges: seq<nat>, spansAt: seq<seq<Span>>,
                                               bytes: seq<Byte>, n: nat, left: int, right: int)
    requires n <= |line| < |edges| && |spansAt| == |edges| && 0 <= left && right <= |bytes|
    requires edges[0] == 0 && spansAt[0] == [] && forall k :: 0 <= k < |line| ==> AddsStretch(line, edges, spansAt, k)
    ensures StampedUpTo(line, edges, spansAt, bytes, n, left, right)
    decreases n
  {
    if n == 0 {
      StampedFirst(line, edges, spansAt, bytes, left, right);
    } else {
      StretchesAreStamped(line, edges, spansAt, bytes, n - 1, left, right);
      assert AddsStretch(line, edges, spansAt, n - 1);
      StampedNext(line, edges, spansAt, bytes, n, left, right);
    }
  }

  /** The stretches of the first n streamed pieces, for every n. */
  function StretchesAt(line: seq<Part>): (r: seq<seq<Span>>)
    ensures |r| == |line| + 1 && forall n :: 0 <= n <= |line| ==> r[n] == PartSpans(Stream(line[..n]))
  {
    seq(|line| + 1, n requires 0 <= n <= |line| => PartSpans(Stream(line[..n])))
  }

  lemma StreamAddsStretch(line: seq<Part>, edges: seq<nat>, spansAt: seq<seq<Span>>, n: nat)
    requires n < |line| < |edges| && |spansAt| == |edges|
    requires edges[n] == Edge(line, n) && edges[n + 1] == Edge(line, n + 1)
    requires spansAt[n] == PartSpans(Stream(line[..n])) && spansAt[n + 1] == PartSpans(Stream(line[..n + 1]))
    ensures AddsStretch(line, edges, spansAt, n)
  {
    var length := PieceNext(line, n);
  }

  lemma NothingYet(line: seq<Part>)
    ensures Edges(line)[0] == 0 && StretchesAt(line)[0] == []
  {
    assert line[..0] == [] && |Bytes("")| == 0 && PartsRaw([]) == "" && Collapse("", true) == "";
    assert Edge(line, 0) == 0;
  }

  /** How much line the next piece adds, and the stretch it becomes if that is anything. */
  lemma PieceNext(line: seq<Part>, n: nat) returns (length: nat)
    requires n < |line|
    ensures Edge(line, n + 1) == Edge(line, n) + length
    ensures PartSpans(Stream(line[..n + 1])) ==
            if length == 0 then PartSpans(Stream(line[..n]))
            else PartSpans(Stream(line[..n])) + [Span(length, line[n].timing)]
  {
    var raw := Collapse(line[n].raw, Ends(PartsRaw(line[..n]), true));
    length := |Bytes(raw)|;
    EdgeNext(line, n);
    StreamedSpansNext(line, n);
    NoBytes(raw);
  }

  lemma StreamIsStamped(line: seq<Part>, bytes: seq<Byte>, left: int, right: int)
    requires 0 <= left && right <= |bytes|
    ensures Stamps(Clip(bytes, PartSpans(Stream(line)), left, right)) == PieceStamps(line, Edges(line), |line|, left, right)
  {
    forall n | 0 <= n < |line| ensures AddsStretch(line, Edges(line), StretchesAt(line), n) {
      StreamAddsStretch(line, Edges(line), StretchesAt(line), n);
    }
    NothingYet(line);
    StretchesAreStamped(line, Edges(line), StretchesAt(line), bytes, |line|, left, right);
    assert line[..|line|] == line;
  }

  /** The cues of a logical line are those of its surviving timed pieces, with their times, agents and bytes. */
  lemma FinalizedStamps(line: seq<Part>)
    ensures Stamps(Finalized(Stream(line)).cues) == LineStamps(line)
  {
    var whole := PartsRaw(Stream(line));
    StreamCollapsesWhole(line);
    TrimSpaceBytes(whole);
    StreamIsStamped(line, Bytes(whole), LeftTrimBytes(whole), TrimmedEnd(whole));
  }

  function TimingsOf(stamps: seq<Stamp>): seq<Timing> {
    seq(|stamps|, k requires 0 <= k < |stamps| => stamps[k].timing)
  }

  /** The times of all surviving timed pieces, line by line. */
  function AllTimings(lines: seq<seq<Part>>): seq<Timing> {
    if lines == [] then []
    else AllTimings(lines[..|lines| - 1]) + TimingsOf(LineStamps(lines[|lines| - 1]))
  }

  lemma StampTimings(cues: seq<Cue>)
    ensures Timings(cues) == TimingsOf(Stamps(cues))
  {
    forall k: nat | k < |cues| ensures Stamps(cues)[k] == StampOf(cues[k]) {
      StampAt(cues, k);
    }
    assert |Stamps(cues)| == |cues|;
  }

  lemma FinalizedTimings(line: seq<Part>)
    ensures Timings(Finalized(Stream(line)).cues) == TimingsOf(LineStamps(line))
  {
    FinalizedStamps(line);
    StampTimings(Finalized(Stream(line)).cues);
  }

  // ---------------------------------------------------------------- joining the lines

  predicate EmptyFinal(f: Final) { f.text == "" && f.cues == [] }

  function DropFront(fs: seq<Final>): seq<Final> {
    if fs != [] && EmptyFinal(fs[0]) then DropFront(fs[1..]) else fs
  }

  function DropBack(fs: seq<Final>): seq<Final> {
    if fs != [] && EmptyFinal(fs[|fs| - 1]) then DropBack(fs[..|fs| - 1]) else fs
  }

  /** Exactly the blank lines at the two ends are dropped. */
  predicate CutsBlankEnds(fs: seq<Final>, a: nat, b: nat) {
    && a <= b <= |fs|
    && (forall k :: 0 <= k < |fs| && (k < a || b <= k) ==> EmptyFinal(fs[k]))
    && (a < b ==> !EmptyFinal(fs[a]) && !EmptyFinal(fs[b - 1]))
  }

  lemma {:induction false} DropFrontCuts(fs: seq<Final>) returns (a: nat)
    ensures a <= |fs| && DropFront(fs) == fs[a..]
    ensures forall k :: 0 <= k < a ==> EmptyFinal(fs[k])
    ensures a < |fs| ==> !EmptyFinal(fs[a])
  {
    a := 0;
    if fs != [] && EmptyFinal(fs[0]) {
      a := DropFrontCuts(fs[1..]);
      a := a + 1;
      assert forall k :: 1 <= k < a ==> fs[k] == fs[1..][k - 1];
    }
  }

  lemma {:induction false} DropBackCuts(fs: seq<Final>) returns (b: nat)
    ensures b <= |fs| && DropBack(fs) == fs[..b]
    ensures forall k :: b <= k < |fs| ==> EmptyFinal(fs[k])
    ensures 0 < b ==> !EmptyFinal(fs[b - 1])
  {
    b := |fs|;
    if fs != [] && EmptyFinal(fs[|fs| - 1]) {
      b := DropBackCuts(fs[..|fs| - 1]);
    }
  }

  lemma TrimmedLines(fs: seq<Final>) returns (a: nat, b: nat)
    ensures CutsBlankEnds(fs, a, b) && DropBack(DropFront(fs)) == fs[a..b]
  {
    a := DropFrontCuts(fs);
    var rest := DropFront(fs);
    b := DropBackCuts(rest);
    forall k | a + b <= k < |fs| ensures EmptyFinal(fs[k]) {
      assert rest[k - a] == fs[k];
    }
    if 0 < b {
      assert rest[b - 1] == fs[a + b - 1];
    }
    b := a + b;
  }

  function Lead(n: nat): string { if n == 0 then "" else "\n" }

  function JoinText(fs: seq<Final>): string {
    if fs == [] then "" else JoinText(fs[..|fs| - 1]) + Lead(|fs| - 1) + fs[|fs| - 1].text
  }

  function Moved(cues: seq<Cue>, offset: int): seq<Cue> {
    seq(|cues|, k requires 0 <= k < |cues| =>
      cues[k].(byteStart := cues[k].byteStart + offset, byteEnd := cues[k].byteEnd + offset))
  }

  /** Bytes of the joined text in front of line n. */
  function Before(fs: seq<Final>, n: nat): nat
    requires n <= |fs|
  {
    |Bytes(JoinText(fs[..n]) + Lead(n))|
  }

  function JoinCues(fs: seq<Final>): seq<Cue> {
    if fs == [] then []
    else JoinCues(fs[..|fs| - 1]) + Moved(fs[|fs| - 1].cues, Before(fs, |fs| - 1))
  }

  function Joined(fs: seq<Final>): Final { Final(JoinText(fs), JoinCues(fs)) }

  lemma MovedIsGood(pre: seq<Byte>, line: seq<Byte>, cues: seq<Cue>)
    requires AllSelect(line, cues)
    ensures AllSelect(pre + line, Moved(cues, |pre|))
  {
    forall k | 0 <= k < |cues| ensures Selects(pre + line, Moved(cues, |pre|)[k]) {
      assert Selects(line, cues[k]);
      assert (pre + line)[|pre| + cues[k].byteStart..|pre| + cues[k].byteEnd + 1] ==
             line[cues[k].byteStart..cues[k].byteEnd + 1];
    }
  }

  lemma LongerSelects(line: seq<Byte>, more: seq<Byte>, cues: seq<Cue>)
    requires AllSelect(line, cues)
    ensures AllSelect(line + more, cues)
  {
    forall k | 0 <= k < |cues| ensures Selects(line + more, cues[k]) {
      assert Selects(line, cues[k]);
      assert (line + more)[cues[k].byteStart..cues[k].byteEnd + 1] == line[cues[k].byteStart..cues[k].byteEnd + 1];
    }
  }

  lemma AppendSelects(line: seq<Byte>, a: seq<Cue>, b: seq<Cue>)
    requires AllSelect(line, a) && AllSelect(line, b)
    ensures AllSelect(line, a + b)
  {
  }

  /** Appending a line's cues, moved behind what is there, keeps them in order. */
  lemma AppendOrdered(a: seq<Cue>, b: seq<Cue>, line: seq<Byte>, at: nat, end: int)
    requires Ordered(a) && EndBefore(a, at) && AllSelect(line, b) && Ordered(b)
    requires EndBefore(b, |line|) && end == at + |line|
    ensures Ordered(a + Moved(b, at)) && EndBefore(a + Moved(b, at), end)
  {
    assert forall k :: 0 <= k < |b| ==> Selects(line, b[k]);
  }

  lemma AppendIsGood(a: Final, lead: string, f: Final)
    requires Good(a) && Good(f)
    ensures Good(Final(a.text + lead + f.text, a.cues + Moved(f.cues, |Bytes(a.text + lead)|)))
  {
    BytesConcat(a.text, lead);
    BytesConcat(a.text + lead, f.text);
    var front, line := Bytes(a.text + lead), Bytes(f.text);
    assert front + line == Bytes(a.text) + (Bytes(lead) + line);
    LongerSelects(Bytes(a.text), Bytes(lead) + line, a.cues);
    MovedIsGood(front, line, f.cues);
    AppendSelects(front + line, a.cues, Moved(f.cues, |front|));
    AppendOrdered(a.cues, f.cues, line, |front|, |front + line|);
  }

  /** Joining good lines gives a good line: ranges select their values, in order across line breaks. */
  lemma {:induction false} JoinedIsGood(fs: seq<Final>)
    requires AllGood(fs)
    ensures Good(Joined(fs))
  {
    if fs != [] {
      var n := |fs| - 1;
      JoinedIsGood(fs[..n]);
      AppendIsGood(Joined(fs[..n]), Lead(n), fs[n]);
    }
  }

  function MapLines(f: seq<Part> -> Final, lines: seq<seq<Part>>): (r: seq<Final>)
    ensures |r| == |lines|
    ensures forall k :: 0 <= k < |lines| ==> r[k] == f(lines[k])
  {
    seq(|lines|, k requires 0 <= k < |lines| => f(lines[k]))
  }

  lemma MapNext(f: seq<Part> -> Final, lines: seq<seq<Part>>, i: nat)
    requires i < |lines|
    ensures MapLines(f, lines[..i + 1]) == MapLines(f, lines[..i]) + [f(lines[i])]
  {
  }

  lemma MapAt(f: seq<Part> -> Final, lines: seq<seq<Part>>, k: nat)
    requires k < |lines|
    ensures MapLines(f, lines)[k] == f(lines[k])
  {
  }

  /** Each logical line's text is its raw text collapsed as a whole, then trimmed. */
  lemma LineTextIs(pieces: seq<Piece>, k: nat)
    requires k < |RawLines(pieces)|
    ensures MapLines(Finalized, StreamAll(RawLines(pieces)))[k].text ==
            TrimSpace(DropBlank(Collapse(PartsRaw(RawLines(pieces)[k]), false)))
  {
    MapAt(Finalized, StreamAll(RawLines(pieces)), k);
    StreamCollapsesWhole(RawLines(pieces)[k]);
  }

  function JoinTimings(fs: seq<Final>): seq<Timing> {
    if fs == [] then [] else JoinTimings(fs[..|fs| - 1]) + Timings(fs[|fs| - 1].cues)
  }

  lemma MovedTimings(cues: seq<Cue>, offset: int)
    ensures Timings(Moved(cues, offset)) == Timings(cues)
  {
  }

  lemma {:induction false} JoinedTimings(fs: seq<Final>)
    ensures Timings(JoinCues(fs)) == JoinTimings(fs)
  {
    if fs != [] {
      var n := |fs| - 1;
      JoinedTimings(fs[..n]);
      MovedTimings(fs[n].cues, Before(fs, n));
      StampsConcat(JoinCues(fs[..n]), Moved(fs[n].cues, Before(fs, n)));
    }
  }

  lemma {:induction false} FirstTimings(fs: seq<Final>)
    requires fs != []
    ensures JoinTimings(fs) == Timings(fs[0].cues) + JoinTimings(fs[1..])
  {
    if |fs| > 1 {
      var n := |fs| - 1;
      FirstTimings(fs[..n]);
      assert fs[..n][1..] == fs[1..][..n - 1];
    }
  }

  lemma {:induction false} DropFrontTimings(fs: seq<Final>)
    ensures JoinTimings(DropFront(fs)) == JoinTimings(fs)
  {
    if fs != [] && EmptyFinal(fs[0]) {
      DropFrontTimings(fs[1..]);
      FirstTimings(fs);
    }
  }

  lemma {:induction false} DropBackTimings(fs: seq<Final>)
    ensures JoinTimings(DropBack(fs)) == JoinTimings(fs)
  {
    if fs != [] && EmptyFinal(fs[|fs| - 1]) {
      DropBackTimings(fs[..|fs| - 1]);
    }
  }

  lemma JoinTimingsNext(fs: seq<Final>, f: Final)
    ensures JoinTimings(fs + [f]) == JoinTimings(fs) + Timings(f.cues)
  {
    assert (fs + [f])[..|fs|] == fs;
  }

  lemma LinesNext(f: seq<Part> -> Final, lines: seq<seq<Part>>)
    requires lines != []
    ensures var n := |lines| - 1;
            MapLines(f, StreamAll(lines)) == MapLines(f, StreamAll(lines[..n])) + [f(Stream(lines[n]))]
  {
    var n, all := |lines| - 1, StreamAll(lines);
    StreamAllPrefix(lines, n);
    MapNext(f, all, n);
    assert all[..n + 1] == all;
  }

  lemma {:induction false} FinalizedLinesTimings(lines: seq<seq<Part>>)
    ensures JoinTimings(MapLines(Finalized, StreamAll(lines))) == AllTimings(lines)
  {
    if lines != [] {
      var n := |lines| - 1;
      FinalizedLinesTimings(lines[..n]);
      FinalizedTimings(lines[n]);
      LinesNext(Finalized, lines);
      JoinTimingsNext(MapLines(Finalized, StreamAll(lines[..n])), Finalized(Stream(lines[n])));
    }
  }

  /** Over the whole result there is a cue for each surviving timed piece, in order, with its times and agent. */
  lemma BuiltTimings(lines: seq<seq<Part>>)
    ensures Timings(JoinCues(DropBack(DropFront(MapLines(Finalized, StreamAll(lines)))))) == AllTimings(lines)
  {
    var fs := MapLines(Finalized, StreamAll(lines));
    JoinedTimings(DropBack(DropFront(fs)));
    DropBackTimings(DropFront(fs));
    DropFrontTimings(fs);
    FinalizedLinesTimings(lines);
  }

  // ---------------------------------------------------------------- reading the lines back

  /** The text split at its line feeds. */
  function SplitLines(s: string): (r: seq<string>)
    ensures r != []
  {
    if s == "" then [""]
    else
      var front, last := SplitLines(s[..|s| - 1]), s[|s| - 1];
      if last == '\n' then front + [""] else front[..|front| - 1] + [front[|front| - 1] + [last]]
  }

  lemma {:induction false} SplitPlain(s: string)
    requires '\n' !in s
    ensures SplitLines(s) == [s]
  {
    if s != "" {
      SplitPlain(s[..|s| - 1]);
      assert s == s[..|s| - 1] + [s[|s| - 1]];
    }
  }

  lemma {:induction false} SplitBehind(a: string, b: string)
    requires '\n' !in b
    ensures SplitLines(a + "\n" + b) == SplitLines(a) + [b]
  {
    if b == "" {
      assert (a + "\n" + b)[..|a|] == a;
    } else {
      var n := |b| - 1;
      SplitBehind(a, b[..n]);
      var all := a + "\n" + b;
      assert all[..|all| - 1] == a + "\n" + b[..n] && all[|all| - 1] == b[n];
      assert b == b[..n] + [b[n]];
      assert b[n] in b;
    }
  }

  function Texts(fs: seq<Final>): seq<string> {
    seq(|fs|, k requires 0 <= k < |fs| => fs[k].text)
  }

  predicate NoFeeds(fs: seq<Final>) { forall k :: 0 <= k < |fs| ==> '\n' !in fs[k].text }

  lemma JoinTextNext(fs: seq<Final>, f: Final)
    ensures JoinText([f]) == f.text && Texts([f]) == [f.text]
    ensures fs != [] ==> JoinText(fs + [f]) == JoinText(fs) + "\n" + f.text
    ensures Texts(fs + [f]) == Texts(fs) + [f.text]
  {
    assert [f][..0] == [] && JoinText([]) == "";
    assert "" + "" + f.text == f.text;
    assert (fs + [f])[..|fs|] == fs;
  }

  /** Splitting the joined text at its line feeds gives the lines back. */
  lemma {:induction false} JoinedSplits(fs: seq<Final>)
    requires fs != [] && NoFeeds(fs)
    ensures SplitLines(JoinText(fs)) == Texts(fs)
  {
    var front, last := fs[..|fs| - 1], fs[|fs| - 1];
    assert fs == front + [last] && fs[|fs| - 1] in fs;
    JoinTextNext(front, last);
    if front == [] {
      assert fs == [last];
      SplitPlain(last.text);
    } else {
      JoinedSplits(front);
      SplitBehind(JoinText(front), last.text);
    }
  }

  lemma TrimKeepsOut(s: string, c: char)
    requires c !in s
    ensures c !in TrimSpace(s)
  {
    var t := TrimLeft(s);
    assert t == s[|s| - |t|..] && TrimRight(t) == t[..|TrimRight(t)|];
  }

  lemma CollapsedNoFeed(s: string)
    requires Collapsed(s, true)
    ensures '\n' !in s
  {
    assert IsXmlSpace('\n');
  }

  lemma FinalizedNoFeed(line: seq<Part>)
    ensures '\n' !in Finalized(Stream(line)).text
  {
    StreamCollapsesWhole(line);
    CollapseIsCollapsed(PartsRaw(line), true);
    CollapsedNoFeed(PartsRaw(Stream(line)));
    TrimKeepsOut(PartsRaw(Stream(line)), '\n');
  }

  lemma LinesNoFeeds(lines: seq<seq<Part>>)
    ensures NoFeeds(MapLines(Finalized, StreamAll(lines)))
  {
    forall k | 0 <= k < |lines| ensures '\n' !in MapLines(Finalized, StreamAll(lines))[k].text {
      MapAt(Finalized, StreamAll(lines), k);
      FinalizedNoFeed(lines[k]);
    }
  }

  lemma KeptNoFeeds(fs: seq<Final>)
    requires NoFeeds(fs)
    ensures NoFeeds(DropBack(DropFront(fs)))
  {
    var a, b := TrimmedLines(fs);
    assert forall k :: 0 <= k < b - a ==> fs[a..b][k] == fs[a + k];
  }

  method FinalizeNext(lines: seq<seq<Part>>, i: nat, fs: seq<Final>) returns (r: seq<Final>)
    requires i < |lines| && AllCollapsed(lines[i]) && fs == MapLines(Finalized, lines[..i])
    ensures r == MapLines(Finalized, lines[..i + 1])
  {
    var f := FinalizeLogicalLine(lines[i]);
    MapNext(Finalized, lines, i);
    r := fs + [f];
  }

  /** finalizeTTMLLines. */
  method FinalizeLines(lines: seq<seq<Part>>) returns (fs: seq<Final>)
    requires forall k :: 0 <= k < |lines| ==> AllCollapsed(lines[k])
    ensures fs == MapLines(Finalized, lines)
  {
    fs := [];
    for i := 0 to |lines|
      invariant fs == MapLines(Finalized, lines[..i])
    {
      fs := FinalizeNext(lines, i, fs);
    }
    assert lines[..|lines|] == lines;
  }

  predicate AllGood(fs: seq<Final>) { forall k :: 0 <= k < |fs| ==> Good(fs[k]) }

  lemma FinalizedAllGood(lines: seq<seq<Part>>)
    ensures AllGood(MapLines(Finalized, lines))
  {
    forall k | 0 <= k < |lines| ensures Good(MapLines(Finalized, lines)[k]) {
      MapAt(Finalized, lines, k);
      FinalizedIsGood(lines[k]);
    }
  }

  lemma KeptAreGood(fs: seq<Final>)
    requires AllGood(fs)
    ensures AllGood(DropBack(DropFront(fs)))
  {
    var a, b := TrimmedLines(fs);
    assert forall k :: 0 <= k < b - a ==> fs[a..b][k] == fs[a + k];
  }

  method DropBlankEnds(fs: seq<Final>) returns (r: seq<Final>)
    ensures r == DropBack(DropFront(fs))
  {
    r := fs;
    while r != [] && EmptyFinal(r[0])
      invariant DropFront(r) == DropFront(fs)
      decreases |r|
    {
      r := r[1..];
    }
    while r != [] && EmptyFinal(r[|r| - 1])
      invariant DropBack(r) == DropBack(DropFront(fs))
      decreases |r|
    {
      r := r[..|r| - 1];
    }
  }

  method MoveCues(cues: seq<Cue>, offset: int) returns (r: seq<Cue>)
    ensures r == Moved(cues, offset)
  {
    r := [];
    for k := 0 to |cues|
      invariant r == Moved(cues, offset)[..k]
    {
      r := r + [cues[k].(byteStart := cues[k].byteStart + offset, byteEnd := cues[k].byteEnd + offset)];
    }
  }

  lemma JoinNext(fs: seq<Final>, i: nat)
    requires i < |fs|
    ensures JoinText(fs[..i + 1]) == JoinText(fs[..i]) + Lead(i) + fs[i].text
    ensures JoinCues(fs[..i + 1]) == JoinCues(fs[..i]) + Moved(fs[i].cues, Before(fs, i))
    ensures |Bytes(JoinText(fs[..i + 1]))| == Before(fs, i) + |Bytes(fs[i].text)|
    ensures Before(fs, i) == |Bytes(JoinText(fs[..i]))| + |Lead(i)|
  {
    assert fs[..i + 1][..i] == fs[..i];
    BytesConcat(JoinText(fs[..i]), Lead(i));
    BytesConcat(JoinText(fs[..i]) + Lead(i), fs[i].text);
    assert "\n"[1..] == "" && Bytes("") == [];
    assert |Bytes(Lead(i))| == |Lead(i)|;
  }

  method AppendLine(i: nat, f: Final, value: string, cues: seq<Cue>, byteOffset: int)
    returns (value': string, cues': seq<Cue>, byteOffset': int)
    ensures value' == value + Lead(i) + f.text
    ensures cues' == cues + Moved(f.cues, byteOffset + |Lead(i)|)
    ensures byteOffset' == byteOffset + |Lead(i)| + |Bytes(f.text)|
  {
    value', byteOffset' := value, byteOffset;
    if i > 0 {
      value' := value' + "\n";
      byteOffset' := byteOffset' + 1;
    } else {
      assert value' == value' + "";
    }
    value' := value' + f.text;
    var moved := MoveCues(f.cues, byteOffset');
    cues' := cues + moved;
    byteOffset' := byteOffset' + |Bytes(f.text)|;
  }

  /** The first i lines are joined. */
  ghost predicate JoinedTo(fs: seq<Final>, i: nat, value: string, cues: seq<Cue>, byteOffset: int) {
    i <= |fs| && value == JoinText(fs[..i]) && cues == JoinCues(fs[..i]) && byteOffset == |Bytes(JoinText(fs[..i]))|
  }

  method JoinLine(fs: seq<Final>, i: nat, value: string, cues: seq<Cue>, byteOffset: int)
    returns (value': string, cues': seq<Cue>, byteOffset': int)
    requires i < |fs| && JoinedTo(fs, i, value, cues, byteOffset)
    ensures JoinedTo(fs, i + 1, value', cues', byteOffset')
  {
    value', cues', byteOffset' := AppendLine(i, fs[i], value, cues, byteOffset);
    JoinNext(fs, i);
  }

  method JoinLines(fs: seq<Final>) returns (value: string, cues: seq<Cue>)
    ensures Final(value, cues) == Joined(fs)
  {
    value, cues := "", [];
    var byteOffset, i := 0, 0;
    while i < |fs|
      invariant JoinedTo(fs, i, value, cues, byteOffset)
    {
      value, cues, byteOffset := JoinLine(fs, i, value, cues, byteOffset);
      i := i + 1;
    }
    assert fs[..|fs|] == fs;
  }

  /**
    buildTTMLLineFromPieces: the logical lines, collapsed and trimmed, joined by line feeds
    without the blank ones at either end; every cue's byte range selects its value.
   */
  method BuildLine(pieces: seq<Piece>) returns (value: string, cues: seq<Cue>)
    ensures Final(value, cues) == Joined(DropBack(DropFront(MapLines(Finalized, StreamAll(RawLines(pieces))))))
    ensures AllSelect(Bytes(value), cues) && Ordered(cues)
    ensures Timings(cues) == AllTimings(RawLines(pieces))
    ensures var kept := DropBack(DropFront(MapLines(Finalized, StreamAll(RawLines(pieces)))));
            if kept == [] then value == "" && cues == [] else SplitLines(value) == Texts(kept)
  {
    var lines := SplitByBreak(pieces);
    forall k | 0 <= k < |lines| ensures AllCollapsed(lines[k]) {
      StreamIsCollapsed(RawLines(pieces)[k]);
    }
    var fs := FinalizeLines(lines);
    var kept := DropBlankEnds(fs);
    FinalizedAllGood(lines);
    KeptAreGood(fs);
    JoinedIsGood(kept);
    BuiltTimings(RawLines(pieces));
    LinesNoFeeds(RawLines(pieces));
    KeptNoFeeds(fs);
    if kept != [] {
      JoinedSplits(kept);
    }
    value, cues := JoinLines(kept);
  }
}
