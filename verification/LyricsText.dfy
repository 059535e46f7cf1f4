/**
  Text of lyric lines as bytes: UTF-8 encoding, Unicode trimming, and the clipping of
  timed spans to the trimmed line that both the LRC and the TTML reader perform.
 */
module LyricsText {
  import opened Prelude

  newtype Byte = b: int | 0 <= b < 256

  /** A timed cue; ByteStart and ByteEnd are inclusive offsets into the line's UTF-8 bytes. */
  datatype Cue = Cue(start: Option<int>, end: Option<int>, value: seq<Byte>, byteStart: int, byteEnd: int, agent: string)

  /** A lyric line. */
  datatype Line = Line(start: Option<int>, end: Option<int>, value: string, cues: seq<Cue>)

  // ---------------------------------------------------------------- UTF-8

  function EncodeChar(c: char): (r: seq<Byte>)
    ensures 1 <= |r| <= 4
  {
    var n := c as int;
    if n < 0x80 then [n as Byte]
    else if n < 0x800 then [(0xC0 + n / 0x40) as Byte, (0x80 + n % 0x40) as Byte]
    else if n < 0x1_0000 then
      [(0xE0 + n / 0x1000) as Byte, (0x80 + n / 0x40 % 0x40) as Byte, (0x80 + n % 0x40) as Byte]
    else
      [(0xF0 + n / 0x4_0000) as Byte, (0x80 + n / 0x1000 % 0x40) as Byte,
       (0x80 + n / 0x40 % 0x40) as Byte, (0x80 + n % 0x40) as Byte]
  }

  function Bytes(s: string): seq<Byte> {
    if s == "" then [] else EncodeChar(s[0]) + Bytes(s[1..])
  }

  lemma {:induction false} BytesConcat(a: string, b: string)
    ensures Bytes(a + b) == Bytes(a) + Bytes(b)
  {
    if a == "" {
      assert a + b == b;
    } else {
      assert (a + b)[1..] == a[1..] + b;
      BytesConcat(a[1..], b);
    }
  }

  // ---------------------------------------------------------------- trimming

  /** unicode.IsSpace. */
  predicate IsSpace(c: char) {
    var n := c as int;
    || 9 <= n <= 13 || n == 0x20 || n == 0x85 || n == 0xA0 || n == 0x1680
    || 0x2000 <= n <= 0x200A || n == 0x2028 || n == 0x2029 || n == 0x202F || n == 0x205F || n == 0x3000
  }

  function TrimLeft(s: string): (r: string)
    ensures |r| <= |s| && s[|s| - |r|..] == r
  {
    if s != "" && IsSpace(s[0]) then TrimLeft(s[1..]) else s
  }

  function TrimRight(s: string): (r: string)
    ensures |r| <= |s| && s[..|r|] == r
  {
    if s != "" && IsSpace(s[|s| - 1]) then TrimRight(s[..|s| - 1]) else s
  }

  function TrimSpace(s: string): string { TrimRight(TrimLeft(s)) }

  function LeftTrimBytes(s: string): int { |Bytes(s)| - |Bytes(TrimLeft(s))| }

  /** End of the kept bytes, never before their beginning. */
  function TrimmedEnd(s: string): int {
    Max(|Bytes(TrimRight(s))|, LeftTrimBytes(s))
  }

  lemma {:induction false} TrimRightBytes(s: string)
    ensures |Bytes(TrimRight(s))| <= |Bytes(s)|
    ensures Bytes(s)[..|Bytes(TrimRight(s))|] == Bytes(TrimRight(s))
  {
    var n := |TrimRight(s)|;
    assert s == TrimRight(s) + s[n..];
    BytesConcat(TrimRight(s), s[n..]);
  }

  /** Trimming the right end of a suffix that still has a non-space is trimming the whole. */
  lemma {:induction false} TrimRightSuffix(a: string, b: string)
    requires b != "" && TrimRight(b) != ""
    ensures TrimRight(a + b) == a + TrimRight(b)
  {
    var s := a + b;
    assert s[|s| - 1] == b[|b| - 1] && s[..|s| - 1] == a + b[..|b| - 1];
    if IsSpace(b[|b| - 1]) {
      TrimRightSuffix(a, b[..|b| - 1]);
    }
  }

  lemma {:induction false} TrimLeftStartsSolid(s: string)
    ensures TrimLeft(s) != "" ==> !IsSpace(TrimLeft(s)[0])
  {
    if s != "" && IsSpace(s[0]) {
      TrimLeftStartsSolid(s[1..]);
    }
  }

  lemma {:induction false} TrimRightKeepsSolid(s: string)
    requires s != "" && !IsSpace(s[0])
    ensures TrimRight(s) != ""
  {
    if IsSpace(s[|s| - 1]) {
      TrimRightKeepsSolid(s[..|s| - 1]);
    }
  }

  predicate Blank(s: string) { forall i :: 0 <= i < |s| ==> IsSpace(s[i]) }

  lemma BlankFromTail(s: string)
    requires s != "" && IsSpace(s[0]) && Blank(s[1..])
    ensures Blank(s)
  {
    var tail := s[1..];
    forall i | 1 <= i < |s| ensures IsSpace(s[i]) {
      assert s[i] == tail[i - 1];
    }
  }

  lemma {:induction false} TrimmedAwayIsBlank(s: string)
    requires TrimLeft(s) == ""
    ensures Blank(s)
  {
    if s != "" {
      TrimmedAwayIsBlank(s[1..]);
      BlankFromTail(s);
    }
  }

  lemma {:induction false} SpacesTrimRight(s: string)
    requires Blank(s)
    ensures TrimRight(s) == ""
  {
    if s != "" {
      SpacesTrimRight(s[..|s| - 1]);
    }
  }

  lemma KeptRange(whole: seq<Byte>, cut: seq<Byte>, rest: seq<Byte>, kept: seq<Byte>, left: int, right: int)
    requires whole == cut + rest && |kept| <= |rest| && rest[..|kept|] == kept
    requires left == |cut| && right == |cut| + |kept|
    ensures 0 <= left <= right <= |whole| && whole[left..right] == kept
  {
  }

  lemma {:induction false} TrimSolidText(s: string) returns (a: string, b: string)
    requires TrimLeft(s) != ""
    ensures s == a + b && b == TrimLeft(s) && TrimRight(s) == a + TrimRight(b)
  {
    a, b := s[..|s| - |TrimLeft(s)|], TrimLeft(s);
    assert s == a + b;
    TrimLeftStartsSolid(s);
    TrimRightKeepsSolid(b);
    TrimRightSuffix(a, b);
  }

  /** Text with a non-space in it, as bytes: what is cut on the left, what follows, and what is kept. */
  lemma {:induction false} TrimSolid(s: string) returns (cut: seq<Byte>, rest: seq<Byte>, kept: seq<Byte>)
    requires TrimLeft(s) != ""
    ensures Bytes(s) == cut + rest && |cut| == LeftTrimBytes(s)
    ensures kept == Bytes(TrimSpace(s)) && |kept| <= |rest| && rest[..|kept|] == kept
    ensures TrimmedEnd(s) == |cut| + |kept|
  {
    var a, b := TrimSolidText(s);
    cut, rest, kept := Bytes(a), Bytes(b), Bytes(TrimRight(b));
    BytesConcat(a, b);
    BytesConcat(a, TrimRight(b));
    TrimRightBytes(b);
  }

  lemma {:induction false} TrimBlank(s: string)
    requires TrimLeft(s) == ""
    ensures LeftTrimBytes(s) == TrimmedEnd(s) == |Bytes(s)| && TrimSpace(s) == ""
  {
    TrimmedAwayIsBlank(s);
    SpacesTrimRight(s);
    assert Bytes("") == [];
  }

  lemma {:induction false} TrimSolidRange(s: string, left: int, right: int)
    requires TrimLeft(s) != "" && left == LeftTrimBytes(s) && right == TrimmedEnd(s)
    ensures 0 <= left <= right <= |Bytes(s)|
    ensures Bytes(s)[left..right] == Bytes(TrimSpace(s))
  {
    var cut, rest, kept := TrimSolid(s);
    KeptRange(Bytes(s), cut, rest, kept, left, right);
  }

  /** The kept byte range holds exactly the bytes of the trimmed text. */
  lemma {:induction false} TrimSpaceBytes(s: string)
    ensures 0 <= LeftTrimBytes(s) <= TrimmedEnd(s) <= |Bytes(s)|
    ensures Bytes(s)[LeftTrimBytes(s)..TrimmedEnd(s)] == Bytes(TrimSpace(s))
  {
    if TrimLeft(s) == "" {
      TrimBlank(s);
      assert Bytes("") == [];
    } else {
      TrimSolidRange(s, LeftTrimBytes(s), TrimmedEnd(s));
    }
  }

  // ---------------------------------------------------------------- clipping

  /** A stretch of the line, with the timing it carries if it is a cue. */
  datatype Span = Span(length: nat, timing: Option<Timing>)

  datatype Timing = Timing(start: Option<int>, end: Option<int>, agent: string)

  function Total(spans: seq<Span>): nat {
    if spans == [] then 0 else Total(spans[..|spans| - 1]) + spans[|spans| - 1].length
  }

  function ClipOne(bytes: seq<Byte>, span: Span, at: int, left: int, right: int): seq<Cue>
    requires 0 <= left && right <= |bytes|
  {
    var from, to := Max(at, left), Min(at + span.length, right);
    if span.timing.Some? && from < to then
      [Cue(span.timing.value.start, span.timing.value.end, bytes[from..to], from - left, to - left - 1,
           span.timing.value.agent)]
    else []
  }

  /** The cues of consecutive spans, clipped to the kept byte range and counted from its start. */
  function Clip(bytes: seq<Byte>, spans: seq<Span>, left: int, right: int): seq<Cue>
    requires 0 <= left && right <= |bytes|
  {
    if spans == [] then []
    else
      var n := |spans| - 1;
      Clip(bytes, spans[..n], left, right) + ClipOne(bytes, spans[n], Total(spans[..n]), left, right)
  }

  lemma ClipNext(bytes: seq<Byte>, spans: seq<Span>, k: nat, left: int, right: int)
    requires 0 <= left && right <= |bytes| && k < |spans|
    ensures Clip(bytes, spans[..k + 1], left, right) ==
            Clip(bytes, spans[..k], left, right) + ClipOne(bytes, spans[k], Total(spans[..k]), left, right)
    ensures Total(spans[..k + 1]) == Total(spans[..k]) + spans[k].length
  {
    assert spans[..k + 1][..k] == spans[..k];
  }

  /** The inclusive range selects exactly the value. */
  predicate Selects(line: seq<Byte>, c: Cue) {
    0 <= c.byteStart <= c.byteEnd < |line| && line[c.byteStart..c.byteEnd + 1] == c.value
  }

  predicate AllSelect(line: seq<Byte>, cues: seq<Cue>) {
    forall k :: 0 <= k < |cues| ==> Selects(line, cues[k])
  }

  /** Each cue ends before the next begins. */
  predicate Ordered(cues: seq<Cue>) {
    forall k, l :: 0 <= k < l < |cues| ==> cues[k].byteEnd < cues[l].byteStart
  }

  predicate EndBefore(cues: seq<Cue>, limit: int) {
    forall k :: 0 <= k < |cues| ==> cues[k].byteEnd < limit
  }

  lemma SliceOfSlice(bytes: seq<Byte>, left: int, from: int, to: int, right: int)
    requires 0 <= left <= from <= to <= right <= |bytes|
    ensures bytes[left..right][from - left..to - left] == bytes[from..to]
  {
    var kept := bytes[left..right];
    var part := kept[from - left..to - left];
    forall i | 0 <= i < to - from ensures part[i] == bytes[from..to][i] {
      assert part[i] == kept[from - left + i] == bytes[from + i];
    }
    assert |part| == to - from;
  }

  lemma ClipOneSelects(bytes: seq<Byte>, span: Span, at: int, left: int, right: int)
    requires 0 <= left <= right <= |bytes|
    ensures AllSelect(bytes[left..right], ClipOne(bytes, span, at, left, right))
  {
    var from, to := Max(at, left), Min(at + span.length, right);
    if from < to {
      SliceOfSlice(bytes, left, from, to, right);
    }
  }

  lemma ClipOneWithin(bytes: seq<Byte>, span: Span, at: int, left: int, right: int)
    requires 0 <= left <= right <= |bytes|
    ensures forall k :: 0 <= k < |ClipOne(bytes, span, at, left, right)| ==>
              var c := ClipOne(bytes, span, at, left, right)[k];
              at - left <= c.byteStart && c.byteEnd < at + span.length - left
  {
  }

  /** Every clipped cue selects its value in the kept range, and the cues come in order without overlap. */
  lemma {:induction false} ClipSelects(bytes: seq<Byte>, spans: seq<Span>, left: int, right: int)
    requires 0 <= left <= right <= |bytes|
    ensures AllSelect(bytes[left..right], Clip(bytes, spans, left, right))
    ensures Ordered(Clip(bytes, spans, left, right))
    ensures EndBefore(Clip(bytes, spans, left, right), Total(spans) - left)
  {
    if spans != [] {
      var n := |spans| - 1;
      ClipSelects(bytes, spans[..n], left, right);
      ClipOneSelects(bytes, spans[n], Total(spans[..n]), left, right);
      ClipOneWithin(bytes, spans[n], Total(spans[..n]), left, right);
    }
  }

  /** End of the part of the kept range that text up to `total` covers. */
  function Covered(total: int, left: int, right: int): int {
    Max(left, Min(total, right))
  }

  lemma CoverStep(total: int, length: nat, left: int, right: int)
    requires 0 <= left <= right && 0 <= total
    ensures var from, to := Max(total, left), Min(total + length, right);
            if from < to then Covered(total, left, right) == from && Covered(total + length, left, right) == to
            else Covered(total, left, right) == Covered(total + length, left, right)
  {
  }

  /** The cues cover bytes 0..n-1 one after the other, without gap or overlap. */
  predicate Tiling(cues: seq<Cue>, n: int) {
    && (cues == [] <==> n == 0)
    && (cues != [] ==> cues[0].byteStart == 0 && cues[|cues| - 1].byteEnd + 1 == n)
    && (forall k :: 0 <= k < |cues| - 1 ==> cues[k + 1].byteStart == cues[k].byteEnd + 1)
    && (forall k :: 0 <= k < |cues| ==> cues[k].byteStart <= cues[k].byteEnd)
  }

  lemma TilingGrows(cues: seq<Cue>, n: int, c: Cue)
    requires Tiling(cues, n) && 0 <= n && c.byteStart == n && n <= c.byteEnd
    ensures Tiling(cues + [c], c.byteEnd + 1)
  {
  }

  /** When every span is a cue, the cues tile the covered part of the kept range. */
  lemma {:induction false} ClipTiling(bytes: seq<Byte>, spans: seq<Span>, left: int, right: int)
    requires 0 <= left <= right <= |bytes|
    requires forall k :: 0 <= k < |spans| ==> spans[k].timing.Some?
    ensures Tiling(Clip(bytes, spans, left, right), Covered(Total(spans), left, right) - left)
  {
    if spans != [] {
      var n := |spans| - 1;
      var at := Total(spans[..n]);
      ClipTiling(bytes, spans[..n], left, right);
      CoverStep(at, spans[n].length, left, right);
      var front, last := Clip(bytes, spans[..n], left, right), ClipOne(bytes, spans[n], at, left, right);
      if last != [] {
        TilingGrows(front, Covered(at, left, right) - left, last[0]);
      } else {
        assert front + last == front;
      }
    }
  }

  // ---------------------------------------------------------------- which cues there are

  /** A cue without its text: when, by whom, and which bytes of the line (both inclusive). */
  datatype Stamp = Stamp(timing: Timing, first: int, last: int)

  function StampOf(c: Cue): Stamp { Stamp(Timing(c.start, c.end, c.agent), c.byteStart, c.byteEnd) }

  function Stamps(cues: seq<Cue>): seq<Stamp> {
    seq(|cues|, k requires 0 <= k < |cues| => StampOf(cues[k]))
  }

  function Timings(cues: seq<Cue>): seq<Timing> {
    seq(|cues|, k requires 0 <= k < |cues| => Timing(cues[k].start, cues[k].end, cues[k].agent))
  }

  /** Some of the bytes from a up to b are among those from left up to right. */
  predicate Survives(a: int, b: int, left: int, right: int) {
    a < b && left < right && a < right && left < b
  }

  /** The stamp of a stretch a..b of the line: none unless it is timed and some of it survives the trimming. */
  function Surviving(timing: Option<Timing>, a: int, b: int, left: int, right: int): seq<Stamp> {
    if timing.None? || !Survives(a, b, left, right) then []
    else [Stamp(timing.value, if a < left then 0 else a - left, (if right < b then right else b) - left - 1)]
  }

  lemma StampsConcat(a: seq<Cue>, b: seq<Cue>)
    ensures Stamps(a + b) == Stamps(a) + Stamps(b) && Timings(a + b) == Timings(a) + Timings(b)
  {
  }

  lemma ClipOneStamps(bytes: seq<Byte>, span: Span, at: int, left: int, right: int)
    requires 0 <= left && right <= |bytes|
    ensures Stamps(ClipOne(bytes, span, at, left, right)) == Surviving(span.timing, at, at + span.length, left, right)
  {
  }

  /** One more stretch of the line adds its stamp. */
  lemma ClipStampsNext(bytes: seq<Byte>, spans: seq<Span>, span: Span, left: int, right: int)
    requires 0 <= left && right <= |bytes|
    ensures Stamps(Clip(bytes, spans + [span], left, right)) ==
            Stamps(Clip(bytes, spans, left, right)) +
            Surviving(span.timing, Total(spans), Total(spans) + span.length, left, right)
    ensures Total(spans + [span]) == Total(spans) + span.length
  {
    assert (spans + [span])[..|spans|] == spans;
    ClipOneStamps(bytes, span, Total(spans), left, right);
    StampsConcat(Clip(bytes, spans, left, right), ClipOne(bytes, span, Total(spans), left, right));
  }

  lemma StampAt(cues: seq<Cue>, k: nat)
    requires k < |cues|
    ensures |Stamps(cues)| == |cues| && Stamps(cues)[k] == StampOf(cues[k])
  {
  }
}
