/**
 * Template span extraction, the virtual buffer, and the conversions between
 * absolute offsets and (line, column) positions (src/templateSpans.ts).
 */
module TemplateSpans {
  import opened Common

  /** A `{{ ... }}` region: absolute offsets (end exclusive) and its text, delimiters included. */
  datatype TemplateSpan = TemplateSpan(start: nat, end: nat, content: string)

  /** The two characters `a b` stand at index `i` of `text`. */
  predicate PairAt(text: string, i: int, a: char, b: char) {
    0 <= i && i + 1 < |text| && text[i] == a && text[i + 1] == b
  }

  predicate OpensAt(text: string, i: int) { PairAt(text, i, '{', '{') }

  predicate ClosesAt(text: string, i: int) { PairAt(text, i, '}', '}') }

  /** The first index at or after `from` where the pair `a b` stands. */
  function FindPair(text: string, from: nat, a: char, b: char): (r: Option<nat>)
    decreases |text| - from
    ensures r.Some? ==> from <= r.value && PairAt(text, r.value, a, b)
    ensures forall i :: from <= i && (r.None? || i < r.value) ==> !PairAt(text, i, a, b)
  {
    if from + 1 >= |text| then None
    else if PairAt(text, from, a, b) then Some(from)
    else FindPair(text, from + 1, a, b)
  }

  /**
   * One `exec` of the global regular expression `\{\{-?[\s\S]*?-?\}\}` started
   * at `lastIndex`. The leftmost match starts at the first `{{`; the lazy body
   * stops at the first `}}` that begins two or more characters later (the
   * optional `-` markers never change where that is). When the first `{{` has
   * no such `}}`, no later `{{` has one either, so there is no match at all.
   */
  function Exec(text: string, lastIndex: nat): (r: Option<TemplateSpan>)
    ensures r.Some? ==>
      && lastIndex <= r.value.start && r.value.start + 4 <= r.value.end <= |text|
      && r.value.content == text[r.value.start..r.value.end]
      && OpensAt(text, r.value.start) && ClosesAt(text, r.value.end - 2)
      && (forall i :: lastIndex <= i < r.value.start ==> !OpensAt(text, i))
      && (forall i :: r.value.start + 2 <= i < r.value.end - 2 ==> !ClosesAt(text, i))
    ensures r.None? ==>
      forall i, j :: lastIndex <= i && i + 2 <= j ==> !(OpensAt(text, i) && ClosesAt(text, j))
  {
    match FindPair(text, lastIndex, '{', '{')
    case None => None
    case Some(p) =>
      match FindPair(text, p + 2, '}', '}')
      case None => None
      case Some(e) => Some(TemplateSpan(p, e + 2, text[p..e + 2]))
  }

  /** Every match of the global regular expression from `from` onwards, in order. */
  function SpansFrom(text: string, from: nat): seq<TemplateSpan>
    decreases |text| - from
  {
    match Exec(text, from)
    case None => []
    case Some(span) => [span] + SpansFrom(text, span.end)
  }

  /** The spans `extractTemplateSpans(text)` returns. */
  function Spans(text: string): seq<TemplateSpan> {
    SpansFrom(text, 0)
  }

  /** One more match moves from the spans found so far to the spans after it. */
  lemma SpansFromStep(text: string, from: nat, found: seq<TemplateSpan>)
    requires Exec(text, from).Some?
    ensures found + SpansFrom(text, from)
      == (found + [Exec(text, from).value]) + SpansFrom(text, Exec(text, from).value.end)
  {
  }

  /** extractTemplateSpans: call `exec` until it finds nothing, pushing each match. */
  method ExtractTemplateSpans(text: string) returns (spans: seq<TemplateSpan>)
    ensures spans == Spans(text)
  {
    spans := [];
    var lastIndex: nat := 0;
    var match_ := Exec(text, lastIndex);
    while match_.Some?
      invariant lastIndex <= |text|
      invariant match_ == Exec(text, lastIndex)
      invariant spans + SpansFrom(text, lastIndex) == Spans(text)
      decreases |text| - lastIndex
    {
      var span := match_.value;
      SpansFromStep(text, lastIndex, spans);
      spans := spans + [span];
      lastIndex := span.end;
      match_ := Exec(text, lastIndex);
    }
  }

  /** `span` is a match of the span regular expression in `text`, ending at the first closer. */
  predicate IsTemplateMatch(text: string, span: TemplateSpan) {
    && span.start + 4 <= span.end <= |text|
    && span.content == text[span.start..span.end]
    && span.content[..2] == "{{" && span.content[|span.content| - 2..] == "}}"
    && (forall i :: span.start + 2 <= i < span.end - 2 ==> !ClosesAt(text, i))
  }

  /** Spans that come in order, without overlapping (they may abut). */
  predicate SortedDisjoint(spans: seq<TemplateSpan>) {
    forall k1, k2 :: 0 <= k1 < k2 < |spans| ==> spans[k1].end <= spans[k2].start
  }

  /** A match found by `exec` is a template match. */
  lemma ExecIsMatch(text: string, from: nat)
    requires Exec(text, from).Some?
    ensures IsTemplateMatch(text, Exec(text, from).value)
  {
    var span := Exec(text, from).value;
    assert span.content[..2] == text[span.start..span.start + 2];
    assert span.content[|span.content| - 2..] == text[span.end - 2..span.end];
  }

  lemma {:induction false} SpansFromAreMatches(text: string, from: nat)
    ensures forall k :: 0 <= k < |SpansFrom(text, from)| ==>
      IsTemplateMatch(text, SpansFrom(text, from)[k]) && from <= SpansFrom(text, from)[k].start
    decreases |text| - from
  {
    match Exec(text, from)
    case None =>
    case Some(span) =>
      SpansFromAreMatches(text, span.end);
      ExecIsMatch(text, from);
      var s := SpansFrom(text, from);
      var rest := SpansFrom(text, span.end);
      assert s == [span] + rest;
      assert forall k :: 1 <= k < |s| ==> s[k] == rest[k - 1];
  }

  lemma {:induction false} SpansFromSorted(text: string, from: nat)
    ensures SortedDisjoint(SpansFrom(text, from))
    decreases |text| - from
  {
    match Exec(text, from)
    case None =>
    case Some(span) =>
      SpansFromSorted(text, span.end);
      SpansFromAreMatches(text, span.end);
      var s := SpansFrom(text, from);
      var rest := SpansFrom(text, span.end);
      assert s == [span] + rest;
      forall k1, k2 | 0 <= k1 < k2 < |s| ensures s[k1].end <= s[k2].start {
        assert s[k2] == rest[k2 - 1];
        if k1 > 0 {
          assert s[k1] == rest[k1 - 1];
        }
      }
  }

  /** Every extracted span is a well-formed, non-greedy match, and the spans are sorted and disjoint. */
  lemma SpansAreSortedMatches(text: string)
    ensures forall k :: 0 <= k < |Spans(text)| ==> IsTemplateMatch(text, Spans(text)[k])
    ensures SortedDisjoint(Spans(text))
  {
    SpansFromAreMatches(text, 0);
    SpansFromSorted(text, 0);
  }

  /** Where the search for span `k` began: the start, or the end of the span before. */
  function SearchStart(from: nat, spans: seq<TemplateSpan>, k: nat): nat
    requires k <= |spans|
  {
    if k == 0 then from else spans[k - 1].end
  }

  /**
   * The matches are leftmost and exhaustive: no `{{` lies between one span and
   * the next, and after the last span no `{{` is followed by a `}}`.
   */
  lemma {:induction false} SpansAreLeftmostAndExhaustive(text: string, from: nat)
    ensures var s := SpansFrom(text, from);
      forall k, i :: 0 <= k < |s| && SearchStart(from, s, k) <= i < s[k].start ==> !OpensAt(text, i)
    ensures var s := SpansFrom(text, from);
      forall i, j :: SearchStart(from, s, |s|) <= i && i + 2 <= j ==> !(OpensAt(text, i) && ClosesAt(text, j))
    decreases |text| - from
  {
    match Exec(text, from)
    case None =>
    case Some(span) =>
      SpansAreLeftmostAndExhaustive(text, span.end);
      var s := SpansFrom(text, from);
      var rest := SpansFrom(text, span.end);
      assert s == [span] + rest;
      assert SearchStart(from, s, |s|) == SearchStart(span.end, rest, |rest|);
      forall k, i | 0 <= k < |s| && SearchStart(from, s, k) <= i < s[k].start ensures !OpensAt(text, i) {
        if k > 0 {
          assert SearchStart(from, s, k) == SearchStart(span.end, rest, k - 1);
          assert s[k] == rest[k - 1];
        }
      }
  }

  lemma NoOpenerNoSpans(text: string)
    requires forall i :: !OpensAt(text, i)
    ensures Spans(text) == []
  {
  }

  /** Spans a caller may pass to the virtual buffer builder: in bounds, sorted, disjoint. */
  predicate SpansFit(text: string, spans: seq<TemplateSpan>) {
    && (forall k :: 0 <= k < |spans| ==> spans[k].start <= spans[k].end <= |text|)
    && SortedDisjoint(spans)
  }

  lemma ExtractedSpansFit(text: string)
    ensures SpansFit(text, Spans(text))
  {
    SpansAreSortedMatches(text);
  }

  /** isInsideTemplateSpan: some span has `start <= offset < end`. */
  function IsInsideTemplateSpan(offset: int, spans: seq<TemplateSpan>): (r: bool)
    ensures r <==> exists k :: 0 <= k < |spans| && spans[k].start <= offset < spans[k].end
  {
    if spans == [] then false
    else if spans[0].start <= offset < spans[0].end then true
    else
      var r := IsInsideTemplateSpan(offset, spans[1..]);
      assert forall k :: 1 <= k < |spans| ==> spans[k] == spans[1..][k - 1];
      r
  }

  /** The index of the first span at or after `from` that contains `offset`. */
  function FirstContaining(offset: int, spans: seq<TemplateSpan>, from: nat): (r: Option<nat>)
    decreases |spans| - from
    ensures r.Some? ==> from <= r.value < |spans| && spans[r.value].start <= offset < spans[r.value].end
    ensures forall k :: from <= k < |spans| && (r.None? || k < r.value) ==> !(spans[k].start <= offset < spans[k].end)
  {
    if from >= |spans| then None
    else if spans[from].start <= offset < spans[from].end then Some(from)
    else FirstContaining(offset, spans, from + 1)
  }

  /** getSpanAtOffset: the first span containing `offset`, or none when no span contains it. */
  function GetSpanAtOffset(offset: int, spans: seq<TemplateSpan>): (r: Option<TemplateSpan>)
    ensures r.None? <==> !IsInsideTemplateSpan(offset, spans)
    ensures r.Some? ==> r.value in spans && r.value.start <= offset < r.value.end
    ensures r.Some? ==> FirstContaining(offset, spans, 0).Some? && r.value == spans[FirstContaining(offset, spans, 0).value]
  {
    match FirstContaining(offset, spans, 0)
    case None => None
    case Some(k) => Some(spans[k])
  }

  /** The virtual buffer, position by position: blank inside a span (newlines included), the original elsewhere. */
  function Masked(text: string, spans: seq<TemplateSpan>): (r: string)
    ensures |r| == |text|
  {
    seq(|text|, i requires 0 <= i < |text| => if IsInsideTemplateSpan(i, spans) then ' ' else text[i])
  }

  /** `' '.repeat(n)`. */
  function Spaces(n: nat): (r: string)
    ensures |r| == n && forall i :: 0 <= i < n ==> r[i] == ' '
  {
    seq(n, _ => ' ')
  }

  /** `pieces.join('')`. */
  function Join(pieces: seq<string>): string {
    if pieces == [] then [] else Join(pieces[..|pieces| - 1]) + pieces[|pieces| - 1]
  }

  lemma JoinAppend(pieces: seq<string>, p: string)
    ensures Join(pieces + [p]) == Join(pieces) + p
  {
    assert (pieces + [p])[..|pieces|] == pieces;
  }

  /** An offset between two consecutive sorted spans lies in no span. */
  lemma OutsideGap(spans: seq<TemplateSpan>, k: nat, i: int)
    requires SortedDisjoint(spans) && k <= |spans|
    requires forall j :: 0 <= j < |spans| ==> spans[j].start <= spans[j].end
    requires (if k == 0 then 0 else spans[k - 1].end) <= i
    requires k < |spans| ==> i < spans[k].start
    ensures !IsInsideTemplateSpan(i, spans)
  {
    forall j | 0 <= j < |spans| ensures !(spans[j].start <= i < spans[j].end) {
      if j < k - 1 {
        assert spans[j].end <= spans[k - 1].start;
      } else if j > k {
        assert spans[k].end <= spans[j].start;
      }
    }
  }

  /** Between the end of span `k - 1` (or the start) and the start of span `k`, the masked text is the text. */
  lemma MaskedGap(text: string, spans: seq<TemplateSpan>, k: nat, lastEnd: nat, upTo: nat)
    requires SpansFit(text, spans) && k <= |spans|
    requires lastEnd == (if k == 0 then 0 else spans[k - 1].end)
    requires lastEnd <= upTo <= |text| && (k < |spans| ==> upTo == spans[k].start)
    ensures Masked(text, spans)[..upTo] == Masked(text, spans)[..lastEnd] + text[lastEnd..upTo]
  {
    forall i | lastEnd <= i < upTo ensures Masked(text, spans)[i] == text[i] {
      OutsideGap(spans, k, i);
    }
  }

  /** Over span `k` the masked text is spaces. */
  lemma MaskedSpan(text: string, spans: seq<TemplateSpan>, k: nat)
    requires SpansFit(text, spans) && k < |spans|
    ensures Masked(text, spans)[..spans[k].end]
      == Masked(text, spans)[..spans[k].start] + Spaces(spans[k].end - spans[k].start)
  {
    forall i | spans[k].start <= i < spans[k].end ensures Masked(text, spans)[i] == ' ' {
      assert IsInsideTemplateSpan(i, spans) by { assert spans[k].start <= i < spans[k].end; }
    }
  }

  /**
   * buildVirtualBuffer: copy the text between spans and replace each span by
   * spaces of the same length, gathering pieces and joining them.
   */
  method BuildVirtualBuffer(text: string, spans: seq<TemplateSpan>) returns (v: string)
    requires SpansFit(text, spans)
    ensures v == Masked(text, spans)
  {
    if |spans| == 0 {
      return text;
    }
    var pieces: seq<string> := [];
    var lastEnd: nat := 0;
    for k := 0 to |spans|
      invariant lastEnd == (if k == 0 then 0 else spans[k - 1].end)
      invariant lastEnd <= |text|
      invariant Join(pieces) == Masked(text, spans)[..lastEnd]
    {
      var span := spans[k];
      MaskedGap(text, spans, k, lastEnd, span.start);
      if span.start > lastEnd {
        JoinAppend(pieces, text[lastEnd..span.start]);
        pieces := pieces + [text[lastEnd..span.start]];
      }
      MaskedSpan(text, spans, k);
      JoinAppend(pieces, Spaces(span.end - span.start));
      pieces := pieces + [Spaces(span.end - span.start)];
      lastEnd := span.end;
    }
    MaskedGap(text, spans, |spans|, lastEnd, |text|);
    if lastEnd < |text| {
      JoinAppend(pieces, text[lastEnd..]);
      pieces := pieces + [text[lastEnd..]];
    }
    v := Join(pieces);
  }

  /** validateBufferParity: the two buffers have the same offsets, so a position in one is a position in the other. */
  function ValidateBufferParity(original: string, virtual: string): (ok: bool)
    ensures ok <==> |original| == |virtual|
  {
    |original| == |virtual|
  }

  /** The virtual buffer of the extracted spans has the length of the text, and keeps every character outside them. */
  lemma VirtualBufferParity(text: string)
    ensures ValidateBufferParity(text, Masked(text, Spans(text)))
    ensures forall i :: 0 <= i < |text| && !IsInsideTemplateSpan(i, Spans(text)) ==> Masked(text, Spans(text))[i] == text[i]
  {
  }

  // ---------------------------------------------------------------------------
  // Offsets and (line, column) positions

  /** A 0-based line and column. */
  datatype Position = Position(line: nat, column: nat)

  /** The position just after the last character of `s`. */
  function LineColumnAt(s: string): (p: Position)
    ensures p.line == Count(s, '\n')
    ensures p.column <= |s|
    ensures forall k :: |s| - p.column <= k < |s| ==> s[k] != '\n'
    ensures p.column < |s| ==> s[|s| - p.column - 1] == '\n'
  {
    if s == [] then Position(0, 0)
    else
      var p := LineColumnAt(s[..|s| - 1]);
      if s[|s| - 1] == '\n' then Position(p.line + 1, 0) else Position(p.line, p.column + 1)
  }

  /** The line starts `i + 1` after every newline `s[i]`, in increasing order. */
  function NewlineStarts(s: string): (r: seq<nat>)
    ensures |r| == Count(s, '\n')
  {
    if s == [] then []
    else
      var r := NewlineStarts(s[..|s| - 1]);
      if s[|s| - 1] == '\n' then r + [|s|] else r
  }

  lemma {:induction false} NewlineStartsShape(s: string)
    ensures forall k :: 0 <= k < |NewlineStarts(s)| ==>
      0 < NewlineStarts(s)[k] <= |s| && s[NewlineStarts(s)[k] - 1] == '\n'
    ensures forall k1, k2 :: 0 <= k1 < k2 < |NewlineStarts(s)| ==> NewlineStarts(s)[k1] < NewlineStarts(s)[k2]
  {
    if s != [] {
      var init := s[..|s| - 1];
      NewlineStartsShape(init);
      var r0 := NewlineStarts(init);
      assert forall k :: 0 <= k < |r0| ==> s[r0[k] - 1] == init[r0[k] - 1];
      if s[|s| - 1] == '\n' {
        assert NewlineStarts(s) == r0 + [|s|];
      } else {
        assert NewlineStarts(s) == r0;
      }
    }
  }

  lemma {:induction false} NewlineStartsCover(s: string)
    ensures forall i :: 0 <= i < |s| && s[i] == '\n' ==> i + 1 in NewlineStarts(s)
  {
    if s != [] {
      var init := s[..|s| - 1];
      NewlineStartsCover(init);
      assert forall i :: 0 <= i < |init| ==> s[i] == init[i];
    }
  }

  /** The offsets `buildLineOffsets` computes: 0, then one past every newline. */
  function LineStarts(text: string): seq<nat> {
    [0] + NewlineStarts(text)
  }

  /**
   * buildLineOffsets gives one entry per line: the first line starts at 0,
   * every later line right after a newline, in increasing order.
   */
  lemma LineStartsShape(text: string)
    ensures |LineStarts(text)| == 1 + Count(text, '\n') && LineStarts(text)[0] == 0
    ensures forall k :: 0 < k < |LineStarts(text)| ==>
      0 < LineStarts(text)[k] <= |text| && text[LineStarts(text)[k] - 1] == '\n'
    ensures forall k1, k2 :: 0 <= k1 < k2 < |LineStarts(text)| ==> LineStarts(text)[k1] < LineStarts(text)[k2]
  {
    NewlineStartsShape(text);
    var ns := NewlineStarts(text);
    var r := LineStarts(text);
    assert forall k :: 0 < k < |r| ==> r[k] == ns[k - 1];
    forall k1, k2 | 0 <= k1 < k2 < |r| ensures r[k1] < r[k2] {
      if k1 > 0 {
        assert r[k1] == ns[k1 - 1] && r[k2] == ns[k2 - 1];
      } else {
        assert r[k2] == ns[k2 - 1];
      }
    }
  }

  /** Every newline starts a line. */
  lemma LineStartsCover(text: string)
    ensures forall i :: 0 <= i < |text| && text[i] == '\n' ==> i + 1 in LineStarts(text)
  {
    NewlineStartsCover(text);
  }

  /** buildLineOffsets: push `i + 1` for every newline at index `i`. */
  method BuildLineOffsets(text: string) returns (offsets: seq<nat>)
    ensures offsets == LineStarts(text)
  {
    offsets := [0];
    for i := 0 to |text|
      invariant offsets == [0] + NewlineStarts(text[..i])
    {
      assert text[..i + 1][..i] == text[..i];
      if text[i] == '\n' {
        offsets := offsets + [i + 1];
      }
    }
    assert text[..|text|] == text;
  }

  /** lineColumnToAbsolute: the start of `line` plus `column`; past the last line, the last line's start. */
  function LineColumnToAbsolute(lineOffsets: seq<int>, line: nat, column: int): (r: int)
    ensures line < |lineOffsets| ==> r - column == lineOffsets[line]
    ensures line >= |lineOffsets| ==> r == (if lineOffsets == [] then 0 else lineOffsets[|lineOffsets| - 1])
    ensures (forall k :: 0 <= k < |lineOffsets| ==> lineOffsets[k] >= 0) && column >= 0 ==> r >= 0
  {
    if line >= |lineOffsets| then (if |lineOffsets| == 0 then 0 else lineOffsets[|lineOffsets| - 1])
    else lineOffsets[line] + column
  }

  lemma {:induction false} NewlineStartsOfPrefix(text: string, n: nat)
    requires n <= |text|
    ensures var p := LineColumnAt(text[..n]);
      var starts := NewlineStarts(text[..n]);
      |starts| == p.line && (if p.line == 0 then 0 else starts[p.line - 1]) + p.column == n
  {
    if n > 0 {
      NewlineStartsOfPrefix(text, n - 1);
      var s, init := text[..n], text[..n - 1];
      assert s[..|s| - 1] == init;
      var q := LineColumnAt(init);
      if s[n - 1] == '\n' {
        assert LineColumnAt(s) == Position(q.line + 1, 0);
        assert NewlineStarts(s) == NewlineStarts(init) + [n];
      } else {
        assert LineColumnAt(s) == Position(q.line, q.column + 1);
        assert NewlineStarts(s) == NewlineStarts(init);
      }
    }
  }

  lemma {:induction false} LineStartsPrefix(text: string, n: nat)
    requires n <= |text|
    ensures NewlineStarts(text[..n]) <= NewlineStarts(text)
    decreases |text| - n
  {
    if n < |text| {
      LineStartsPrefix(text, n + 1);
      assert text[..n + 1][..n] == text[..n];
    } else {
      assert text[..n] == text;
    }
  }

  /** Round trip: the absolute offset of the position of offset `n` is `n`. */
  lemma AbsoluteOfLineColumn(text: string, n: nat)
    requires n <= |text|
    ensures var p := LineColumnAt(text[..n]);
      LineColumnToAbsolute(LineStarts(text), p.line, p.column) == n
  {
    NewlineStartsOfPrefix(text, n);
    LineStartsPrefix(text, n);
    var p := LineColumnAt(text[..n]);
    if p.line > 0 {
      assert LineStarts(text)[p.line] == NewlineStarts(text)[p.line - 1] == NewlineStarts(text[..n])[p.line - 1];
    }
  }

  /** `offset` clamped to the text, as the loop bound `i < offset && i < text.length` does. */
  function Clamp(text: string, offset: int): nat {
    if offset < 0 then 0 else if offset > |text| then |text| else offset
  }

  /** offsetToLineColumn: count lines and columns over the characters before `offset`. */
  method OffsetToLineColumn(text: string, offset: int) returns (p: Position)
    ensures p == LineColumnAt(text[..Clamp(text, offset)])
  {
    var line, column := 0, 0;
    var i := 0;
    while i < offset && i < |text|
      invariant 0 <= i <= Clamp(text, offset)
      invariant Position(line, column) == LineColumnAt(text[..i])
    {
      assert text[..i + 1][..i] == text[..i];
      if text[i] == '\n' {
        line := line + 1;
        column := 0;
      } else {
        column := column + 1;
      }
      i := i + 1;
    }
    p := Position(line, column);
  }

  /** getLineStart: one past the last newline before `offset`, or 0 when there is none. */
  method GetLineStart(text: string, offset: int) returns (r: nat)
    ensures r == 0 || (r <= offset && r - 1 < |text| && text[r - 1] == '\n')
    ensures forall j :: r <= j < offset && j < |text| ==> text[j] != '\n'
  {
    var i := offset - 1;
    while i >= 0
      invariant i < offset
      invariant forall j :: 0 <= j && i < j < offset && j < |text| ==> text[j] != '\n'
    {
      if i < |text| && text[i] == '\n' {
        return i + 1;
      }
      i := i - 1;
    }
    return 0;
  }

  /** The column of offset `i` is its distance from the start of its line. */
  lemma ColumnFromLineStart(text: string, i: nat, r: nat)
    requires i <= |text|
    requires r == 0 || (r <= i && text[r - 1] == '\n')
    requires forall j :: r <= j < i ==> text[j] != '\n'
    ensures LineColumnAt(text[..i]).column == i - r
  {
    var p := LineColumnAt(text[..i]);
    assert forall k :: 0 <= k < i ==> text[..i][k] == text[k];
  }

  /** Offset `j` of `text` stands at line `line`, column `column`. */
  predicate AtPosition(text: string, j: nat, line: int, column: int)
    requires j <= |text|
  {
    LineColumnAt(text[..j]).line == line && LineColumnAt(text[..j]).column == column
  }

  /** The first offset, at `i` or later and before the end, standing at `(line, column)`; else the text length. */
  function FirstOffsetFrom(text: string, line: int, column: int, i: nat): (r: nat)
    requires i <= |text|
    decreases |text| - i
    ensures i <= r <= |text|
    ensures r < |text| ==> AtPosition(text, r, line, column)
    ensures forall j :: i <= j < r ==> !AtPosition(text, j, line, column)
  {
    if i == |text| then |text|
    else if AtPosition(text, i, line, column) then i
    else FirstOffsetFrom(text, line, column, i + 1)
  }

  /**
   * lineColumnToOffset: walk the text keeping the current line and offset, and
   * stop at the first offset whose line and column (measured from getLineStart)
   * match; the text length when none does.
   */
  method LineColumnToOffset(text: string, line: int, column: int) returns (r: nat)
    ensures r == FirstOffsetFrom(text, line, column, 0)
  {
    var currentLine := 0;
    var offset := 0;
    for i := 0 to |text|
      invariant offset == i
      invariant currentLine == LineColumnAt(text[..i]).line
      invariant FirstOffsetFrom(text, line, column, i) == FirstOffsetFrom(text, line, column, 0)
    {
      var lineStart := GetLineStart(text, i);
      ColumnFromLineStart(text, i, lineStart);
      if currentLine == line && offset - lineStart == column {
        return offset;
      }
      assert text[..i + 1][..i] == text[..i];
      if text[i] == '\n' {
        currentLine := currentLine + 1;
      }
      offset := offset + 1;
    }
    return |text|;
  }

  /** Positions strictly increase (line first, then column) along the text. */
  predicate Before(p: Position, q: Position) {
    p.line < q.line || (p.line == q.line && p.column < q.column)
  }

  lemma {:induction false} PositionsIncrease(text: string, i: nat, j: nat)
    requires i < j <= |text|
    ensures Before(LineColumnAt(text[..i]), LineColumnAt(text[..j]))
    decreases j
  {
    assert text[..j][..j - 1] == text[..j - 1];
    if i < j - 1 {
      PositionsIncrease(text, i, j - 1);
    }
  }

  /**
   * Round trip: converting offset `o` to a position and back gives `o` clamped
   * to the text length.
   */
  lemma LineColumnRoundTrip(text: string, o: nat)
    ensures var n := Clamp(text, o);
      var p := LineColumnAt(text[..n]);
      FirstOffsetFrom(text, p.line, p.column, 0) == n
  {
    var n := Clamp(text, o);
    var p := LineColumnAt(text[..n]);
    var r := FirstOffsetFrom(text, p.line, p.column, 0);
    assert AtPosition(text, n, p.line, p.column);
    if r < n {
      PositionsIncrease(text, r, n);
    }
  }
}
