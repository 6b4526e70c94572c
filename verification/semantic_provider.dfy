/**
 * The merged provider: template tokens from the Go-template lexer, restricted
 * to the template spans, and base-language tokens from the grammar run over the
 * virtual buffer, merged in document order into one result, with a
 * per-document cache keyed by version and a template-only fallback.
 *
 * The Go-template lexer (`parseSource(text, eol)`) and the grammar loader are
 * parameters. The lexer returns `None` when it raises.
 */
module SemanticProvider {
  import opened Common
  import opened TokenTypes
  import opened TemplateSpans
  import opened DetectBase
  import opened ScopeMapper
  import opened SemanticTokens
  import opened TextmateTokenizer

  // ---------------------------------------------------------------------------
  // Legend

  /** Files longer than this many characters get template tokens only. */
  const MaxFileSize: nat := 1024 * 1024

  /** The legend's first part: the Go-template token types, in enum order. */
  const TemplateTokenTypes: seq<string> := [
    "goTemplate", "begin", "end", "comment", "rawString", "string", "variable", "assignment",
    "pipe", "property", "control", "builtin", "stringEscape", "unknownEscape", "placeholder", "number"
  ]

  /** The legend's second part: the standard types the base tokens use besides those already listed. */
  const ExtraTokenTypes: seq<string> := [
    "class", "type", "tag", "attribute", "function", "operator", "keyword", "punctuation", "text"
  ]

  const CombinedTokenTypes: seq<string> := TemplateTokenTypes + ExtraTokenTypes

  const CombinedTokenModifiers: seq<string> := ["template", "base"]

  /** createCombinedLegend: the template types in enum order, then the base types; modifiers `template` and `base`. */
  function CreateCombinedLegend(): (legend: Legend)
    ensures |legend.tokenTypes| == 25 && legend.tokenModifiers == ["template", "base"]
    ensures forall t: TokenType :: legend.tokenTypes[Ordinal(t)] == Name(t)
  {
    var legend := Legend(CombinedTokenTypes, CombinedTokenModifiers);
    assert forall t: TokenType :: legend.tokenTypes[Ordinal(t)] == Name(t) by {
      forall t: TokenType ensures legend.tokenTypes[Ordinal(t)] == Name(t) {
        EnumAtOrdinal(t);
      }
    }
    legend
  }

  lemma EnumAtOrdinal(t: TokenType)
    ensures CombinedTokenTypes[Ordinal(t)] == Name(t)
  {
    assert CombinedTokenTypes[Ordinal(t)] == TemplateTokenTypes[Ordinal(t)];
    match t
    case GoTemplate => case Begin => case End => case Comment =>
    case RawString => case String => case Variable => case Assignment =>
    case Pipe => case Property => case Control => case Builtin =>
    case StringEscape => case UnknownEscape => case Placeholder => case Number =>
  }

  /** No type name is listed twice, so a name's index is its position. */
  lemma LegendTypesDistinct()
    ensures forall i, j :: 0 <= i < j < |CombinedTokenTypes| ==> CombinedTokenTypes[i] != CombinedTokenTypes[j]
  {
  }

  /** Every type the scope classifier can give is in the legend. */
  lemma BaseTypesInLegend(name: string)
    requires name in BaseTypeNames
    ensures name in CreateCombinedLegend().tokenTypes
  {
  }

  /**
   * The bit `1 << indexOf(name)` as the result stores it: the modifier's legend
   * index modulo 32, the top bit when the name is missing (`1 << -1`).
   */
  function OriginBit(legend: Legend, name: string): nat {
    BitsValue(Shl1(match IndexOf(legend.tokenModifiers, name) case Some(i) => i case None => -1))
  }

  /** With the combined legend, template tokens carry the value 1 and base tokens the value 2. */
  lemma CombinedOriginBits()
    ensures OriginBit(CreateCombinedLegend(), "template") == 1
    ensures OriginBit(CreateCombinedLegend(), "base") == 2
  {
    var mods := CreateCombinedLegend().tokenModifiers;
    assert IndexOf(mods, "template") == Some(0) by {
      assert mods[0] == "template";
    }
    assert IndexOf(mods, "base") == Some(1) by {
      assert mods[0] != "base" && mods[1] == "base";
    }
    SingleBitValue(0, 32);
    SingleBitValue(1, 32);
  }

  // ---------------------------------------------------------------------------
  // Template tokens inside the spans

  /** A token of the Go-template lexer: 0-based line and start column, length and kind. */
  datatype ParsedToken = ParsedToken(line: nat, begin: int, length: int, tokenType: TokenType)

  /** The Go-template lexer `parseSource(text, eol)`: its tokens in document order, `None` when it raises. */
  type TemplateLexer = (string, string) -> Option<seq<ParsedToken>>

  /** The line break passed to the lexer during a build: `\r\n` when the text holds one anywhere. */
  function TextEol(text: string): (eol: string)
    ensures eol == "\r\n" <==> exists i :: 0 <= i && i + 1 < |text| && text[i] == '\r' && text[i + 1] == '\n'
    ensures eol == "\n" || eol == "\r\n"
  {
    CrlfOccurs(text);
    if Includes(text, "\r\n") then "\r\n" else "\n"
  }

  /** `text.includes('\r\n')` looks for a `\r` directly followed by a `\n`. */
  lemma CrlfOccurs(text: string)
    ensures Includes(text, "\r\n") <==> exists i :: 0 <= i && i + 1 < |text| && text[i] == '\r' && text[i + 1] == '\n'
  {
    forall i | 0 <= i && i + 1 < |text| && text[i] == '\r' && text[i + 1] == '\n'
      ensures OccursAt(text, "\r\n", i)
    {
      assert text[i..i + 2] == "\r\n";
    }
    if Includes(text, "\r\n") {
      var i :| OccursAt(text, "\r\n", i);
      assert text[i] == text[i..i + 2][0] && text[i + 1] == text[i..i + 2][1];
    }
  }

  /** The token's absolute start offset falls inside some span. */
  predicate InSomeSpan(t: ParsedToken, spans: seq<TemplateSpan>, lineOffsets: seq<int>) {
    IsInsideTemplateSpan(LineColumnToAbsolute(lineOffsets, t.line, t.begin), spans)
  }

  /** The tokens that start inside a span, in their order. */
  function KeptTokens(tokens: seq<ParsedToken>, spans: seq<TemplateSpan>, lineOffsets: seq<int>): seq<ParsedToken> {
    if tokens == [] then []
    else
      KeptTokens(tokens[..|tokens| - 1], spans, lineOffsets) +
      (if InSomeSpan(tokens[|tokens| - 1], spans, lineOffsets) then [tokens[|tokens| - 1]] else [])
  }

  /** A token is kept exactly when it is one of the lexer's and starts inside some span. */
  lemma {:induction false} KeptExactly(tokens: seq<ParsedToken>, spans: seq<TemplateSpan>, lineOffsets: seq<int>)
    ensures forall t :: t in KeptTokens(tokens, spans, lineOffsets) <==> t in tokens && InSomeSpan(t, spans, lineOffsets)
  {
    if tokens != [] {
      var init := tokens[..|tokens| - 1];
      KeptExactly(init, spans, lineOffsets);
      assert tokens == init + [tokens[|tokens| - 1]];
    }
  }

  /** Filtering keeps the order: the kept tokens of `a + b` are those of `a`, then those of `b`. */
  lemma {:induction false} KeptAppend(a: seq<ParsedToken>, b: seq<ParsedToken>, spans: seq<TemplateSpan>, lineOffsets: seq<int>)
    ensures KeptTokens(a + b, spans, lineOffsets) == KeptTokens(a, spans, lineOffsets) + KeptTokens(b, spans, lineOffsets)
  {
    if b != [] {
      var init := b[..|b| - 1];
      KeptAppend(a, init, spans, lineOffsets);
      assert (a + b)[..|a + b| - 1] == a + init;
    } else {
      assert a + b == a;
    }
  }

  /**
   * tokenizeTemplateSpans: the lexer's tokens for the text (with the line break
   * the text uses) whose absolute start lies in a span; `None` when the lexer raises.
   */
  method TokenizeTemplateSpans(parseSource: TemplateLexer, text: string, spans: seq<TemplateSpan>, lineOffsets: seq<nat>)
    returns (result: Option<seq<ParsedToken>>)
    ensures result.None? <==> parseSource(text, TextEol(text)).None?
    ensures result.Some? ==> result.value == KeptTokens(parseSource(text, TextEol(text)).value, spans, lineOffsets)
  {
    var eol := if Includes(text, "\r\n") then "\r\n" else "\n";
    var allTemplateTokens := parseSource(text, eol);
    if allTemplateTokens.None? {
      return None;
    }
    var all := allTemplateTokens.value;
    var kept: seq<ParsedToken> := [];
    for k := 0 to |all|
      invariant kept == KeptTokens(all[..k], spans, lineOffsets)
    {
      assert all[..k + 1][..k] == all[..k];
      var token := all[k];
      var absoluteOffset := LineColumnToAbsolute(lineOffsets, token.line, token.begin);
      if IsInsideTemplateSpan(absoluteOffset, spans) {
        kept := kept + [token];
      }
    }
    assert all[..|all|] == all;
    return Some(kept);
  }

  // ---------------------------------------------------------------------------
  // Merging

  /** The push for a template token: its enum value as type, and the template bit. */
  function TemplatePushed(t: ParsedToken, bit: nat): PushedToken {
    PushedToken(t.line, t.begin, t.length, Ordinal(t.tokenType), bit)
  }

  /** The push for a base token, with the base bit: none when the legend does not list its type. */
  function BasePushed(b: BaseToken, legend: Legend, bit: nat): seq<PushedToken> {
    match IndexOf(legend.tokenTypes, b.typeName)
    case None => []
    case Some(typeIndex) => [PushedToken(b.line, b.startChar, b.length, typeIndex, bit)]
  }

  /** The template token goes first: an earlier line, or the same line and a start no later. */
  predicate TemplateFirst(t: ParsedToken, b: BaseToken) {
    t.line < b.line || (t.line == b.line && t.begin <= b.startChar)
  }

  /**
   * The pushes of the two-pointer merge from template index `i` and base index
   * `j` on, with `tbit` and `bbit` the template and base modifier values.
   */
  function MergeFrom(legend: Legend, template: seq<ParsedToken>, base: seq<BaseToken>, tbit: nat, bbit: nat, i: nat, j: nat): seq<PushedToken>
    requires i <= |template| && j <= |base|
    decreases |template| - i + |base| - j
  {
    if i == |template| && j == |base| then []
    else if j == |base| || (i < |template| && TemplateFirst(template[i], base[j])) then
      [TemplatePushed(template[i], tbit)] + MergeFrom(legend, template, base, tbit, bbit, i + 1, j)
    else
      BasePushed(base[j], legend, bbit) + MergeFrom(legend, template, base, tbit, bbit, i, j + 1)
  }

  /** The pushes `mergeTokens` makes, with the modifier values the legend gives. */
  function Merge(legend: Legend, template: seq<ParsedToken>, base: seq<BaseToken>): seq<PushedToken> {
    MergeFrom(legend, template, base, OriginBit(legend, "template"), OriginBit(legend, "base"), 0, 0)
  }

  /** A template step of the merge: the template token's push, then the rest. */
  lemma MergeTemplateStep(legend: Legend, template: seq<ParsedToken>, base: seq<BaseToken>, tbit: nat, bbit: nat, i: nat, j: nat)
    requires i < |template| && j <= |base|
    requires j == |base| || TemplateFirst(template[i], base[j])
    ensures MergeFrom(legend, template, base, tbit, bbit, i, j) ==
      [TemplatePushed(template[i], tbit)] + MergeFrom(legend, template, base, tbit, bbit, i + 1, j)
  {
  }

  /** A base step of the merge: the base token's push, if any, then the rest. */
  lemma MergeBaseStep(legend: Legend, template: seq<ParsedToken>, base: seq<BaseToken>, tbit: nat, bbit: nat, i: nat, j: nat)
    requires i <= |template| && j < |base|
    requires i == |template| || !TemplateFirst(template[i], base[j])
    ensures MergeFrom(legend, template, base, tbit, bbit, i, j) ==
      BasePushed(base[j], legend, bbit) + MergeFrom(legend, template, base, tbit, bbit, i, j + 1)
  {
  }

  /** The pushes of the template tokens from index `i` on, in order. */
  function TemplatesFrom(template: seq<ParsedToken>, i: nat, bit: nat): seq<PushedToken>
    requires i <= |template|
    decreases |template| - i
  {
    if i == |template| then [] else [TemplatePushed(template[i], bit)] + TemplatesFrom(template, i + 1, bit)
  }

  /** The pushes of the base tokens from index `j` on, in order. */
  function BasesFrom(base: seq<BaseToken>, j: nat, legend: Legend, bit: nat): seq<PushedToken>
    requires j <= |base|
    decreases |base| - j
  {
    if j == |base| then [] else BasePushed(base[j], legend, bit) + BasesFrom(base, j + 1, legend, bit)
  }

  /** The pushes carrying modifier value `bit`, in order. */
  function WithBit(ts: seq<PushedToken>, bit: nat): seq<PushedToken> {
    if ts == [] then []
    else (if ts[0].tokenModifiers == bit then [ts[0]] else []) + WithBit(ts[1..], bit)
  }

  lemma {:induction false} WithBitAppend(a: seq<PushedToken>, b: seq<PushedToken>, bit: nat)
    ensures WithBit(a + b, bit) == WithBit(a, bit) + WithBit(b, bit)
  {
    if a != [] {
      WithBitAppend(a[1..], b, bit);
      assert (a + b)[1..] == a[1..] + b;
    } else {
      assert a + b == b;
    }
  }

  /** A list whose every push carries `bit` is its own selection. */
  lemma {:induction false} WithBitAll(ts: seq<PushedToken>, bit: nat)
    requires forall k :: 0 <= k < |ts| ==> ts[k].tokenModifiers == bit
    ensures WithBit(ts, bit) == ts
  {
    if ts != [] {
      WithBitAll(ts[1..], bit);
    }
  }

  /** A list none of whose pushes carries `bit` selects nothing. */
  lemma {:induction false} WithBitNone(ts: seq<PushedToken>, bit: nat)
    requires forall k :: 0 <= k < |ts| ==> ts[k].tokenModifiers != bit
    ensures WithBit(ts, bit) == []
  {
    if ts != [] {
      WithBitNone(ts[1..], bit);
    }
  }

  /** Base pushes carry the base bit. */
  lemma {:induction false} BasesCarryBit(base: seq<BaseToken>, j: nat, legend: Legend, bit: nat)
    requires j <= |base|
    ensures forall k :: 0 <= k < |BasesFrom(base, j, legend, bit)| ==> BasesFrom(base, j, legend, bit)[k].tokenModifiers == bit
    decreases |base| - j
  {
    if j < |base| {
      BasesCarryBit(base, j + 1, legend, bit);
    }
  }

  /**
   * Every template token is pushed exactly once and every base token of a
   * listed type exactly once, each list in its own order: selecting the pushes
   * by their bit gives back the two lists (the bits differ for any legend
   * listing both modifiers at distinct indices below 32).
   */
  lemma {:induction false} MergeProjections(legend: Legend, template: seq<ParsedToken>, base: seq<BaseToken>, tbit: nat, bbit: nat, i: nat, j: nat)
    requires i <= |template| && j <= |base|
    requires tbit != bbit
    ensures WithBit(MergeFrom(legend, template, base, tbit, bbit, i, j), tbit) ==
      TemplatesFrom(template, i, tbit)
    ensures WithBit(MergeFrom(legend, template, base, tbit, bbit, i, j), bbit) ==
      BasesFrom(base, j, legend, bbit)
    decreases |template| - i + |base| - j
  {
    if i == |template| && j == |base| {
    } else if j == |base| || (i < |template| && TemplateFirst(template[i], base[j])) {
      MergeProjections(legend, template, base, tbit, bbit, i + 1, j);
      var head := [TemplatePushed(template[i], tbit)];
      WithBitAppend(head, MergeFrom(legend, template, base, tbit, bbit, i + 1, j), tbit);
      WithBitAppend(head, MergeFrom(legend, template, base, tbit, bbit, i + 1, j), bbit);
    } else {
      MergeProjections(legend, template, base, tbit, bbit, i, j + 1);
      var head := BasePushed(base[j], legend, bbit);
      WithBitAppend(head, MergeFrom(legend, template, base, tbit, bbit, i, j + 1), tbit);
      WithBitAppend(head, MergeFrom(legend, template, base, tbit, bbit, i, j + 1), bbit);
      WithBitAll(head, bbit);
      WithBitNone(head, tbit);
    }
  }

  /** The merge pushes every template token and every base token of a listed type, and nothing else. */
  lemma {:induction false} MergeLength(legend: Legend, template: seq<ParsedToken>, base: seq<BaseToken>, tbit: nat, bbit: nat, i: nat, j: nat)
    requires i <= |template| && j <= |base|
    ensures |MergeFrom(legend, template, base, tbit, bbit, i, j)| == (|template| - i) + |BasesFrom(base, j, legend, bbit)|
    decreases |template| - i + |base| - j
  {
    if i == |template| && j == |base| {
    } else if j == |base| || (i < |template| && TemplateFirst(template[i], base[j])) {
      MergeLength(legend, template, base, tbit, bbit, i + 1, j);
    } else {
      MergeLength(legend, template, base, tbit, bbit, i, j + 1);
    }
  }

  /** When the legend lists every base type, no base token is dropped. */
  lemma {:induction false} BasesAllKnown(base: seq<BaseToken>, j: nat, legend: Legend, bit: nat)
    requires j <= |base|
    requires forall k :: 0 <= k < |base| ==> base[k].typeName in legend.tokenTypes
    ensures |BasesFrom(base, j, legend, bit)| == |base| - j
    decreases |base| - j
  {
    if j < |base| {
      BasesAllKnown(base, j + 1, legend, bit);
    }
  }

  // Document order with the origin breaking ties: a key (line, column, rank), rank 0 for template, 1 for base.

  predicate KeyLe(l1: int, c1: int, r1: int, l2: int, c2: int, r2: int) {
    l1 < l2 || (l1 == l2 && (c1 < c2 || (c1 == c2 && r1 <= r2)))
  }

  function Rank(p: PushedToken, templateBit: nat): int {
    if p.tokenModifiers == templateBit then 0 else 1
  }

  predicate PushedLe(p: PushedToken, q: PushedToken, templateBit: nat) {
    KeyLe(p.line, p.column, Rank(p, templateBit), q.line, q.column, Rank(q, templateBit))
  }

  /** Sorted by position, and at one position template pushes before base pushes. */
  predicate SortedWithTemplateFirst(ts: seq<PushedToken>, templateBit: nat) {
    forall k :: 0 < k < |ts| ==> PushedLe(ts[k - 1], ts[k], templateBit)
  }

  predicate TemplatesSorted(template: seq<ParsedToken>) {
    forall k :: 0 < k < |template| ==>
      template[k - 1].line < template[k].line || (template[k - 1].line == template[k].line && template[k - 1].begin <= template[k].begin)
  }

  predicate BasesSorted(base: seq<BaseToken>) {
    forall k :: 0 < k < |base| ==>
      base[k - 1].line < base[k].line || (base[k - 1].line == base[k].line && base[k - 1].startChar <= base[k].startChar)
  }

  /**
   * Merging inputs sorted by (line, column) gives pushes sorted by position,
   * with the template push first where a template and a base token start at
   * the same place; none comes before a key (l, c, r) that bounds both inputs.
   */
  lemma {:induction false} MergeSortedFrom(legend: Legend, template: seq<ParsedToken>, base: seq<BaseToken>, tbit: nat, bbit: nat, i: nat, j: nat,
                                           l: int, c: int, r: int)
    requires i <= |template| && j <= |base|
    requires tbit != bbit
    requires TemplatesSorted(template) && BasesSorted(base)
    requires i < |template| ==> KeyLe(l, c, r, template[i].line, template[i].begin, 0)
    requires j < |base| ==> KeyLe(l, c, r, base[j].line, base[j].startChar, 1)
    ensures SortedWithTemplateFirst(MergeFrom(legend, template, base, tbit, bbit, i, j), tbit)
    ensures var m := MergeFrom(legend, template, base, tbit, bbit, i, j);
      m != [] ==> KeyLe(l, c, r, m[0].line, m[0].column, Rank(m[0], tbit))
    decreases |template| - i + |base| - j
  {
    if i == |template| && j == |base| {
    } else if j == |base| || (i < |template| && TemplateFirst(template[i], base[j])) {
      var t := template[i];
      MergeSortedFrom(legend, template, base, tbit, bbit, i + 1, j, t.line, t.begin, 0);
      PrependSorted(TemplatePushed(t, tbit), MergeFrom(legend, template, base, tbit, bbit, i + 1, j), tbit);
    } else {
      var b := base[j];
      MergeSortedFrom(legend, template, base, tbit, bbit, i, j + 1, b.line, b.startChar, 1);
      var rest := MergeFrom(legend, template, base, tbit, bbit, i, j + 1);
      match IndexOf(legend.tokenTypes, b.typeName)
      case None =>
        assert MergeFrom(legend, template, base, tbit, bbit, i, j) == rest;
      case Some(typeIndex) =>
        PrependSorted(PushedToken(b.line, b.startChar, b.length, typeIndex, bbit), rest, tbit);
    }
  }

  lemma PrependSorted(p: PushedToken, rest: seq<PushedToken>, templateBit: nat)
    requires SortedWithTemplateFirst(rest, templateBit)
    requires rest != [] ==> PushedLe(p, rest[0], templateBit)
    ensures SortedWithTemplateFirst([p] + rest, templateBit)
  {
    var s := [p] + rest;
    assert forall k :: 0 <= k < |rest| ==> s[k + 1] == rest[k];
  }

  /** mergeTokens' ordering promise, for whole inputs sorted by (line, column). */
  lemma MergeSorted(legend: Legend, template: seq<ParsedToken>, base: seq<BaseToken>, tbit: nat, bbit: nat)
    requires tbit != bbit
    requires TemplatesSorted(template) && BasesSorted(base)
    ensures SortedWithTemplateFirst(MergeFrom(legend, template, base, tbit, bbit, 0, 0), tbit)
    ensures SortedByPosition(MergeFrom(legend, template, base, tbit, bbit, 0, 0))
  {
    var lo := if |template| > 0 then template[0].line else 0;
    var lo' := if |base| > 0 then base[0].line else 0;
    var l := if lo < lo' then lo else lo';
    MergeSortedFrom(legend, template, base, tbit, bbit, 0, 0, l, LowestColumn(template, base, l), 0);
    var m := MergeFrom(legend, template, base, tbit, bbit, 0, 0);
    assert forall k :: 0 < k < |m| ==> PushedLe(m[k - 1], m[k], tbit);
  }

  /** A column no later than the first tokens' columns on line `l`. */
  function LowestColumn(template: seq<ParsedToken>, base: seq<BaseToken>, l: int): (c: int)
    ensures |template| > 0 && template[0].line == l ==> c <= template[0].begin
    ensures |base| > 0 && base[0].line == l ==> c <= base[0].startChar
  {
    var a := if |template| > 0 && template[0].line == l then template[0].begin else 0;
    var b := if |base| > 0 && base[0].line == l then base[0].startChar else 0;
    if a < b then a else b
  }

  /**
   * With the combined legend: the template pushes, selected by the value 1,
   * are the template tokens in order; the base pushes, selected by the value
   * 2, are the base tokens in order; when the base tokens come from the
   * grammar none is dropped; and sorted inputs give sorted pushes, template
   * first at a shared position.
   */
  lemma CombinedMerge(template: seq<ParsedToken>, base: seq<BaseToken>)
    ensures WithBit(Merge(CreateCombinedLegend(), template, base), 1) == TemplatesFrom(template, 0, 1)
    ensures WithBit(Merge(CreateCombinedLegend(), template, base), 2) == BasesFrom(base, 0, CreateCombinedLegend(), 2)
    ensures (forall k :: 0 <= k < |base| ==> base[k].typeName in BaseTypeNames) ==>
      |Merge(CreateCombinedLegend(), template, base)| == |template| + |base|
    ensures TemplatesSorted(template) && BasesSorted(base) ==>
      SortedWithTemplateFirst(Merge(CreateCombinedLegend(), template, base), 1)
  {
    var legend := CreateCombinedLegend();
    CombinedOriginBits();
    MergeProjections(legend, template, base, 1, 2, 0, 0);
    MergeLength(legend, template, base, 1, 2, 0, 0);
    if forall k :: 0 <= k < |base| ==> base[k].typeName in BaseTypeNames {
      forall k | 0 <= k < |base| ensures base[k].typeName in legend.tokenTypes {
        BaseTypesInLegend(base[k].typeName);
      }
      BasesAllKnown(base, 0, legend, 2);
    }
    if TemplatesSorted(template) && BasesSorted(base) {
      MergeSorted(legend, template, base, 1, 2);
    }
  }

  /** The tokens the grammar gives are never dropped by the merge: every one has a listed type. */
  lemma GrammarTokensKept<S(!new)>(template: seq<ParsedToken>, tokenizeLine: Grammar<S>, text: string)
    ensures |Merge(CreateCombinedLegend(), template, Tokenized(tokenizeLine, text))| ==
      |template| + |Tokenized(tokenizeLine, text)|
  {
    var base := Tokenized(tokenizeLine, text);
    TokenizedShape(tokenizeLine, text);
    assert forall k :: 0 <= k < |base| ==> GoodLineToken(base[k].line, Lines(text)[base[k].line], base[k]);
    CombinedMerge(template, base);
  }

  /** The pushes of the two-pointer loop of `mergeTokens`, given the two modifier values. */
  method MergePushes(legend: Legend, templateTokens: seq<ParsedToken>, baseTokens: seq<BaseToken>, tbit: nat, bbit: nat)
    returns (pushed: seq<PushedToken>)
    ensures pushed == MergeFrom(legend, templateTokens, baseTokens, tbit, bbit, 0, 0)
  {
    ghost var total := MergeFrom(legend, templateTokens, baseTokens, tbit, bbit, 0, 0);
    pushed := [];
    var i, j := 0, 0;
    while i < |templateTokens| || j < |baseTokens|
      invariant i <= |templateTokens| && j <= |baseTokens|
      invariant pushed + MergeFrom(legend, templateTokens, baseTokens, tbit, bbit, i, j) == total
      decreases |templateTokens| - i + |baseTokens| - j
    {
      var useTemplate := j >= |baseTokens| || (i < |templateTokens| && TemplateFirst(templateTokens[i], baseTokens[j]));
      var step: seq<PushedToken>;
      if useTemplate {
        var token := templateTokens[i];
        MergeTemplateStep(legend, templateTokens, baseTokens, tbit, bbit, i, j);
        step := [PushedToken(token.line, token.begin, token.length, Ordinal(token.tokenType), tbit)];
        PushStep(pushed, step, MergeFrom(legend, templateTokens, baseTokens, tbit, bbit, i + 1, j), total);
        i := i + 1;
      } else {
        var token := baseTokens[j];
        MergeBaseStep(legend, templateTokens, baseTokens, tbit, bbit, i, j);
        var typeIndex := IndexOf(legend.tokenTypes, token.typeName);
        if typeIndex.Some? {
          step := [PushedToken(token.line, token.startChar, token.length, typeIndex.value, bbit)];
        } else {
          step := [];
        }
        PushStep(pushed, step, MergeFrom(legend, templateTokens, baseTokens, tbit, bbit, i, j + 1), total);
        j := j + 1;
      }
      pushed := pushed + step;
    }
  }

  /** Moving the next pushes from the pending part to the pushed part keeps the whole. */
  lemma PushStep(pushed: seq<PushedToken>, step: seq<PushedToken>, rest: seq<PushedToken>, total: seq<PushedToken>)
    requires pushed + (step + rest) == total
    ensures (pushed + step) + rest == total
  {
    assert pushed + (step + rest) == (pushed + step) + rest;
  }

  // ---------------------------------------------------------------------------
  // Documents, the cache and the provider

  /** A base-language grammar: its `tokenizeLine`. */
  type Grammar<!S> = (string, Option<S>) -> LineResult<S>

  datatype EndOfLine = LF | CRLF

  /** The line break a document reports. */
  function EolString(eol: EndOfLine): (s: string)
    ensures s == "\n" <==> eol == LF
    ensures s == "\n" || s == "\r\n"
  {
    match eol
    case LF => "\n"
    case CRLF => "\r\n"
  }

  /** An open document: its text, its version and its line-break setting, all of which edits change. */
  class TextDocument {
    var text: string
    var version: int
    var eol: EndOfLine

    constructor (text: string, version: int, eol: EndOfLine)
      ensures this.text == text && this.version == version && this.eol == eol
    {
      this.text := text;
      this.version := version;
      this.eol := eol;
    }
  }

  datatype CacheEntry = CacheEntry(version: int, tokens: SemanticTokensResult)

  /** The module-wide cache: the last merged result built for each document, with that document's version then. */
  class DocumentCache {
    var entries: map<TextDocument, CacheEntry>

    constructor ()
      ensures entries == map[]
    {
      entries := map[];
    }
  }

  /** The base tokens of a build: none for plaintext or a missing grammar, else the grammar's tokens over the virtual buffer. */
  function BaseTokensOf<S>(text: string, directiveEnabled: bool, loadGrammar: string -> Option<Grammar<S>>): seq<BaseToken> {
    var languageId := DetectBaseLanguage(text, directiveEnabled).languageId;
    if languageId == Plaintext then []
    else
      match loadGrammar(languageId)
      case None => []
      case Some(grammar) => Tokenized(grammar, Masked(text, Spans(text)))
  }

  /** The template tokens of a build: the lexer's tokens that start inside a span, `None` when the lexer raises. */
  function TemplateTokensOf(parseSource: TemplateLexer, text: string): Option<seq<ParsedToken>> {
    match parseSource(text, TextEol(text))
    case None => None
    case Some(all) => Some(KeptTokens(all, Spans(text), LineStarts(text)))
  }

  /** The pushes of a build, `None` when it raises. */
  function MergedOf<S>(legend: Legend, text: string, directiveEnabled: bool, parseSource: TemplateLexer,
                       loadGrammar: string -> Option<Grammar<S>>): Option<seq<PushedToken>> {
    match TemplateTokensOf(parseSource, text)
    case None => None
    case Some(template) => Some(Merge(legend, template, BaseTokensOf(text, directiveEnabled, loadGrammar)))
  }

  /** The pushes of the template-only fallback, with the document's own line break; `None` when the lexer raises. */
  function TemplateOnlyOf(legend: Legend, text: string, eol: EndOfLine, parseSource: TemplateLexer): Option<seq<PushedToken>> {
    match parseSource(text, EolString(eol))
    case None => None
    case Some(template) => Some(TemplatesFrom(template, 0, OriginBit(legend, "template")))
  }

  class MergedSemanticTokensProvider {
    const legend: Legend
    const directiveEnabled: bool
    const documentCache: DocumentCache

    /** The provider with the combined legend; `directiveEnabled` is the configured setting (true by default). */
    constructor (directiveEnabled: bool, documentCache: DocumentCache)
      ensures legend == CreateCombinedLegend() && this.directiveEnabled == directiveEnabled
      ensures this.documentCache == documentCache
    {
      legend := CreateCombinedLegend();
      this.directiveEnabled := directiveEnabled;
      this.documentCache := documentCache;
    }

    /**
     * provideDocumentSemanticTokens: a cached result for the document's
     * current version is returned as the same object and nothing changes.
     * Otherwise a text over the size limit gets the template-only result, not
     * cached; a build that completes is cached under the document's version
     * and returned; a build that raises falls back to the template-only
     * result, not cached. `None` stands for the fallback raising in turn.
     */
    method ProvideDocumentSemanticTokens<S>(document: TextDocument, parseSource: TemplateLexer,
                                            loadGrammar: string -> Option<Grammar<S>>)
      returns (r: Option<SemanticTokensResult>)
      modifies documentCache
      ensures document in old(documentCache.entries) && old(documentCache.entries)[document].version == document.version ==>
        r == Some(old(documentCache.entries)[document].tokens) && documentCache.entries == old(documentCache.entries)
      ensures !(document in old(documentCache.entries) && old(documentCache.entries)[document].version == document.version) ==>
        if |document.text| <= MaxFileSize && MergedOf(legend, document.text, directiveEnabled, parseSource, loadGrammar).Some? then
          && r.Some? && r.value.tokens == MergedOf(legend, document.text, directiveEnabled, parseSource, loadGrammar).value
          && documentCache.entries == old(documentCache.entries)[document := CacheEntry(document.version, r.value)]
        else
          && documentCache.entries == old(documentCache.entries)
          && (r.Some? <==> TemplateOnlyOf(legend, document.text, document.eol, parseSource).Some?)
          && (r.Some? ==> r.value.tokens == TemplateOnlyOf(legend, document.text, document.eol, parseSource).value)
    {
      if document in documentCache.entries {
        var cached := documentCache.entries[document];
        if cached.version == document.version {
          return Some(cached.tokens);
        }
      }
      if |document.text| > MaxFileSize {
        r := ProvideTemplateOnlyTokens(document, parseSource);
        return;
      }
      var tokens := BuildMergedTokens(document, parseSource, loadGrammar);
      if tokens.Some? {
        documentCache.entries := documentCache.entries[document := CacheEntry(document.version, tokens.value)];
        return tokens;
      }
      r := ProvideTemplateOnlyTokens(document, parseSource);
    }

    /**
     * buildMergedTokens: detect the base language, tokenize the virtual buffer
     * with its grammar unless it is plaintext or has none, keep the template
     * tokens inside spans, and merge; `None` when the lexer raises.
     */
    method BuildMergedTokens<S>(document: TextDocument, parseSource: TemplateLexer, loadGrammar: string -> Option<Grammar<S>>)
      returns (r: Option<SemanticTokensResult>)
      ensures r.None? <==> MergedOf(legend, document.text, directiveEnabled, parseSource, loadGrammar).None?
      ensures r.Some? ==> r.value.tokens == MergedOf(legend, document.text, directiveEnabled, parseSource, loadGrammar).value
    {
      var text := document.text;
      var detection := DetectBaseLanguage(text, directiveEnabled);
      var lineOffsets := BuildLineOffsets(text);
      var spans := ExtractTemplateSpans(text);
      ExtractedSpansFit(text);
      var virtualBuffer := BuildVirtualBuffer(text, spans);
      var baseTokens: seq<BaseToken> := [];
      if detection.languageId != Plaintext {
        var grammar := loadGrammar(detection.languageId);
        if grammar.Some? {
          baseTokens := TokenizeWithGrammar(virtualBuffer, grammar.value);
        }
      }
      assert baseTokens == BaseTokensOf(text, directiveEnabled, loadGrammar);
      var templateTokens := TokenizeTemplateSpans(parseSource, text, spans, lineOffsets);
      assert templateTokens == TemplateTokensOf(parseSource, text);
      if templateTokens.None? {
        return None;
      }
      var merged := MergeTokens(baseTokens, templateTokens.value);
      return Some(merged);
    }

    /**
     * mergeTokens: the two-pointer merge. The template token goes next when the
     * base list is exhausted or it starts no later than the base token; a base
     * token of a type the legend lacks is passed over.
     */
    method MergeTokens(baseTokens: seq<BaseToken>, templateTokens: seq<ParsedToken>) returns (r: SemanticTokensResult)
      ensures r.tokens == Merge(legend, templateTokens, baseTokens)
    {
      var templateModifierBit := OriginBit(legend, "template");
      var baseModifierBit := OriginBit(legend, "base");
      var pushed := MergePushes(legend, templateTokens, baseTokens, templateModifierBit, baseModifierBit);
      r := new SemanticTokensResult(pushed);
    }

    /** provideTemplateOnlyTokens: every lexer token, with the document's line break, in order and with the template bit. */
    method ProvideTemplateOnlyTokens(document: TextDocument, parseSource: TemplateLexer) returns (r: Option<SemanticTokensResult>)
      ensures r.None? <==> TemplateOnlyOf(legend, document.text, document.eol, parseSource).None?
      ensures r.Some? ==> r.value.tokens == TemplateOnlyOf(legend, document.text, document.eol, parseSource).value
    {
      var eol := if document.eol == LF then "\n" else "\r\n";
      var templateTokens := parseSource(document.text, eol);
      if templateTokens.None? {
        return None;
      }
      var all := templateTokens.value;
      var templateModifierBit := OriginBit(legend, "template");
      var pushed: seq<PushedToken> := [];
      for k := 0 to |all|
        invariant pushed + TemplatesFrom(all, k, templateModifierBit) == TemplatesFrom(all, 0, templateModifierBit)
      {
        var token := all[k];
        var p := PushedToken(token.line, token.begin, token.length, Ordinal(token.tokenType), templateModifierBit);
        PushStep(pushed, [p], TemplatesFrom(all, k + 1, templateModifierBit), TemplatesFrom(all, 0, templateModifierBit));
        pushed := pushed + [p];
      }
      var built := new SemanticTokensResult(pushed);
      return Some(built);
    }
  }

  /**
   * Asking twice for an unchanged document: when the first answer is a build
   * that completes (the text is within the size limit and the lexer does not
   * raise), the second answer is that same object, taken from the cache.
   */
  method RequestTwice<S>(provider: MergedSemanticTokensProvider, document: TextDocument, parseSource: TemplateLexer,
                         loadGrammar: string -> Option<Grammar<S>>)
    returns (first: Option<SemanticTokensResult>, second: Option<SemanticTokensResult>)
    modifies provider.documentCache
    ensures (|document.text| <= MaxFileSize &&
             MergedOf(provider.legend, document.text, provider.directiveEnabled, parseSource, loadGrammar).Some?) ==>
      first.Some? && second == first
  {
    first := provider.ProvideDocumentSemanticTokens(document, parseSource, loadGrammar);
    second := provider.ProvideDocumentSemanticTokens(document, parseSource, loadGrammar);
  }
}
