# Go Template Plus: merged semantic tokens, modelled in Dafny

This project models how the Go Template Plus editor extension gives colours to a file that mixes
Go-template actions (`{{ ... }}`) with a base language such as HTML or YAML. The extension:

- finds the template spans in the text with a lazy regular expression;
- blanks the spans out to form a "virtual buffer" the same length as the text;
- reads an optional `{{/*meta: base=html*/}}` directive from the first line (or from the second
  line, after a shebang) to pick the base language;
- tokenizes the virtual buffer line by line with that language's TextMate grammar;
- maps each token's innermost scope to a semantic type with an ordered list of substring rules;
- keeps only the Go-template lexer's tokens that fall inside a span;
- merges the template and base tokens with a two-pointer merge into one builder, each token tagged
  with a `template` or `base` modifier bit, and caches the result by document version.

Modules, one per source file:

| module | file | models |
|---|---|---|
| `Common` | `common.dfy` | JavaScript string helpers: `\s`, `includes`, `indexOf`, `split`, `join` |
| `TemplateSpans` | `template_spans.dfy` | `src/templateSpans.ts` |
| `MetaDirectives` | `meta_directive.dfy` | `src/metaDirective.ts` |
| `DetectBase` | `detect_base.dfy` | `src/detectBase.ts` |
| `ScopeMapper` | `scope_mapper.dfy` | `src/scopeMapper.ts` |
| `TokenTypes` | `token_type.dfy` | `src/tokenType.ts` |
| `SemanticTokens` | `semantic_tokens.dfy` | the editor's legend, builder and relative encoding, which the extension uses |
| `TextmateTokenizer` | `textmate_tokenizer.dfy` | `src/textmateTokenizer.ts` |
| `SemanticProvider` | `semantic_provider.dfy` | `src/semanticProvider.ts` |

The code that changes state step by step is written as imperative Dafny, each piece proved against a
specification function:

- the regular-expression `exec` loop, `buildVirtualBuffer`, `buildLineOffsets`, `offsetToLineColumn`,
  `getLineStart` and `lineColumnToOffset`;
- the key/value loop of `parseMetaDirective`;
- the line loop of `tokenizeWithGrammar` and the builder loops of `baseTokensToSemanticTokens`,
  `mergeTokens` and `provideTemplateOnlyTokens`.

The document cache and the provider are classes. The pure code (scope rules, directive matching,
language detection) is written as functions.

Modelling conventions:

- **Regular expressions** become deterministic scanners. Their lemmas show that what the scanners
  return is what the regular expression matches. For the span expression this means leftmost,
  non-greedy and exhaustive. For the directive expression it means the lazy content group between
  the optional whitespace, `-` markers and comment delimiters.
- **Collaborators** are parameters:
  - the TextMate grammar is its `tokenizeLine` function;
  - the language-to-grammar loader is a function that may give no grammar;
  - the Go-template lexer is a function that may give no tokens, which stands for an exception.
- **The builder** is the list of tokens pushed to it. A built result's data is the relative
  five-integer encoding of those pushes in push order, proved lossless. This is what the editor's
  `build()` gives when the pushes come in document order, which the merge guarantees for sorted inputs.
- **Modifier bits** follow JavaScript's `1 << n`, where `n` is taken modulo 32, so
  `1 << -1` sets the top bit.
- **The cache** is a map from documents to entries, held in a `DocumentCache` object that the
  provider shares. A built result is an object, so a cache hit hands back the very same result.

## Model

| member | source | states |
|---|---|---|
| `Common.IncludesFrom` | src/scopeMapper.ts:24 | `includes` from an index: true exactly when the pattern occurs at some index at or after it |
| `Common.Includes` | src/scopeMapper.ts:24-97 | `String.prototype.includes`: true exactly when the pattern occurs somewhere in the string |
| `Common.IndexOfFrom` | src/textmateTokenizer.ts:75 | `indexOf` from an index: the first position at or after it holding the element, none when no later position holds it |
| `Common.IndexOf` | src/semanticProvider.ts:197 | `Array.prototype.indexOf`: the first index holding the element; none exactly when the element is absent |
| `Common.Split` | src/metaDirective.ts:30 | `split` on one character: at least one piece, none holding the separator |
| `Common.SplitJoin` | src/metaDirective.ts:30 | joining the pieces of a split with the separator gives back the string, and there is one more piece than separators |
| `Common.JoinSplit` | src/metaDirective.ts:30 | splitting a join of separator-free pieces gives back the pieces |
| `TemplateSpans.FindPair` | src/templateSpans.ts:18 | the first index at or after the start where the two-character delimiter stands; none stands before it |
| `TemplateSpans.Exec` | src/templateSpans.ts:18-21 | one `exec` of `\{\{-?[\s\S]*?-?\}\}`: the match starts at the first `{{` after `lastIndex` and ends after the first `}}` two or more characters on. When there is no match, no `{{` at or after `lastIndex` is followed by a `}}` |
| `TemplateSpans.SpansFromStep` | src/templateSpans.ts:21-27 | one more match moves from the spans still to find to the spans found |
| `TemplateSpans.ExtractTemplateSpans` | src/templateSpans.ts:16-30 | the exec loop returns exactly the spans of the specification, each with its start, end and content |
| `TemplateSpans.ExecIsMatch` | src/templateSpans.ts:18 | a match found by `exec` is a well-formed, non-greedy template match |
| `TemplateSpans.SpansFromAreMatches` | src/templateSpans.ts:21-27 | every span found from an index on is a template match |
| `TemplateSpans.SpansFromSorted` | src/templateSpans.ts:21-27 | the spans found from an index on are in order and do not overlap |
| `TemplateSpans.SpansAreSortedMatches` | src/templateSpans.ts:16-30 | every extracted span is a non-greedy match with content equal to the text it covers, and the spans are sorted and disjoint |
| `TemplateSpans.SpansAreLeftmostAndExhaustive` | src/templateSpans.ts:16-30 | no `{{` lies between one span and the next; after the last span no `{{` is followed by a `}}` |
| `TemplateSpans.NoOpenerNoSpans` | src/templateSpans.ts:16-30 | a text with no `{{` has no spans |
| `TemplateSpans.ExtractedSpansFit` | src/templateSpans.ts:16-30 | the extracted spans are in bounds, sorted and disjoint, as `buildVirtualBuffer` needs |
| `TemplateSpans.IsInsideTemplateSpan` | src/templateSpans.ts:65-67 | true exactly when some span has `start <= offset < end` |
| `TemplateSpans.FirstContaining` | src/templateSpans.ts:73 | the index of the first span containing the offset; no earlier span contains it |
| `TemplateSpans.GetSpanAtOffset` | src/templateSpans.ts:72-74 | none exactly when the offset is in no span; otherwise the first span that contains it |
| `TemplateSpans.Masked` | src/templateSpans.ts:36-60 | the virtual buffer has the length of the text |
| `TemplateSpans.Spaces` | src/templateSpans.ts:50 | `' '.repeat(n)`: n spaces |
| `TemplateSpans.JoinAppend` | src/templateSpans.ts:59 | joining one more piece appends it |
| `TemplateSpans.OutsideGap` | src/templateSpans.ts:46-48 | an offset between consecutive sorted spans lies in no span |
| `TemplateSpans.MaskedGap` | src/templateSpans.ts:46-48 | between two spans the virtual buffer copies the text |
| `TemplateSpans.MaskedSpan` | src/templateSpans.ts:50-51 | over a span the virtual buffer is spaces |
| `TemplateSpans.BuildVirtualBuffer` | src/templateSpans.ts:36-60 | the pieces joined are the text with every span replaced by spaces of the same length, line breaks inside spans included |
| `TemplateSpans.ValidateBufferParity` | src/templateSpans.ts:162-164 | `validateBufferParity`: true exactly when the two buffers have the same length |
| `TemplateSpans.VirtualBufferParity` | src/templateSpans.ts:162-164 | the virtual buffer of the extracted spans passes `validateBufferParity` and keeps every character outside the spans |
| `TemplateSpans.LineColumnAt` | src/templateSpans.ts:109-123 | the position after a prefix: the line is its count of newlines, the column its distance from the last newline |
| `TemplateSpans.NewlineStarts` | src/templateSpans.ts:84-88 | one line start per newline |
| `TemplateSpans.NewlineStartsShape` | src/templateSpans.ts:84-88 | each start follows a newline, and the starts increase |
| `TemplateSpans.NewlineStartsCover` | src/templateSpans.ts:84-88 | every newline gives a line start |
| `TemplateSpans.LineStartsShape` | src/templateSpans.ts:76-90 | one entry per line: 0 first, then one past each newline, strictly increasing |
| `TemplateSpans.LineStartsCover` | src/templateSpans.ts:76-90 | every newline starts a line listed in the offsets |
| `TemplateSpans.BuildLineOffsets` | src/templateSpans.ts:82-90 | the loop returns exactly the line starts |
| `TemplateSpans.NewlineStartsOfPrefix` | src/templateSpans.ts:84-88 | the line starts of a prefix are those of the text that fall in it |
| `TemplateSpans.LineStartsPrefix` | src/templateSpans.ts:84-88 | the line starts of a prefix are a prefix of the text's line starts |
| `TemplateSpans.LineColumnToAbsolute` | src/templateSpans.ts:99-104 | within the lines, the line's start plus the column; past the last line, the last line's start (0 when there are no lines), whatever the column; never negative for non-negative offsets and column |
| `TemplateSpans.AbsoluteOfLineColumn` | src/templateSpans.ts:99-104 | `lineColumnToAbsolute` on the line offsets inverts `offsetToLineColumn` for every offset in the text |
| `TemplateSpans.OffsetToLineColumn` | src/templateSpans.ts:109-123 | the counting loop returns the position after the text up to the offset, clamped to the text |
| `TemplateSpans.GetLineStart` | src/templateSpans.ts:150-157 | one past the last newline before the offset, or 0 when there is none |
| `TemplateSpans.ColumnFromLineStart` | src/templateSpans.ts:133 | an offset's column is its distance from `getLineStart` |
| `TemplateSpans.FirstOffsetFrom` | src/templateSpans.ts:128-145 | the first offset at or after a start that stands at the line and column, or the text length when none does |
| `TemplateSpans.LineColumnToOffset` | src/templateSpans.ts:128-145 | the scan returns the first offset at that position, else the text length |
| `TemplateSpans.PositionsIncrease` | src/templateSpans.ts:109-123 | positions strictly increase along the text |
| `TemplateSpans.LineColumnRoundTrip` | src/templateSpans.ts:109-145 | `lineColumnToOffset(offsetToLineColumn(o))` is `o` clamped to the text length |
| `MetaDirectives.SkipWs` | src/metaDirective.ts:10 | `\s*`: a suffix that does not start with whitespace |
| `MetaDirectives.DropDash` | src/metaDirective.ts:10 | `-?`: drops one leading `-` |
| `MetaDirectives.LazyGroup` | src/metaDirective.ts:10 | `(.*?)` followed by the closing part: the shortest run without a line terminator after which the closing part matches to the end; none when no run does |
| `MetaDirectives.ClosingOfLayout` | src/metaDirective.ts:10 | every whitespace layout of `\s*\*\/\s*-?\}\}\s*$` matches the closing part |
| `MetaDirectives.ClosingParts` | src/metaDirective.ts:10 | every string matching the closing part has such a layout |
| `MetaDirectives.AfterBracesParts` | src/metaDirective.ts:10 | what `^\s*\{\{` consumes is whitespace and `{{` |
| `MetaDirectives.AfterMetaOpen` | src/metaDirective.ts:10 | every well-formed opening layout is consumed up to the content |
| `MetaDirectives.AfterMetaParts` | src/metaDirective.ts:10 | every line the opening part consumes has a well-formed opening layout |
| `MetaDirectives.MatchDirective` | src/metaDirective.ts:10-18 | `DIRECTIVE_REGEX.exec`: a capture follows the opening part, holds no line terminator and is followed by a closing part running to the end of the line, with no shorter such run; no capture exactly when no run free of line terminators is followed by such a closing part |
| `MetaDirectives.MatchRender` | src/metaDirective.ts:10 | the matcher recovers the content of every well-formed directive line with clean content |
| `MetaDirectives.MatchSound` | src/metaDirective.ts:10 | whatever the matcher captures is clean content, and the line is some well-formed layout around it |
| `MetaDirectives.NoMatchMeansNoShape` | src/metaDirective.ts:10 | when the matcher finds nothing, no well-formed layout with clean content renders to the line |
| `MetaDirectives.RunLength` | src/metaDirective.ts:27 | the length of the leading run of non-separators (`;`, `,`, whitespace) |
| `MetaDirectives.TokensShape` | src/metaDirective.ts:27 | every token of `split(/[;,\s]+/).filter(...)` is non-empty and free of separators |
| `MetaDirectives.TokensAround` | src/metaDirective.ts:27 | a separator splits the tokens: the tokens of `x + sep + y` are those of `x` then those of `y` |
| `MetaDirectives.WordIsOneToken` | src/metaDirective.ts:27 | a non-empty run of non-separators is a single token |
| `MetaDirectives.ParseMetaDirective` | src/metaDirective.ts:17-38 | the key/value loop returns no directive when the line does not match; otherwise a directive whose base is the last `base=<non-empty>` token's value |
| `MetaDirectives.LastBaseNone` | src/metaDirective.ts:29-35 | the base stays unset exactly when no token is a `base=<non-empty>` pair |
| `MetaDirectives.LastBaseWins` | src/metaDirective.ts:29-35 | a set base is the value of a base pair that no later base pair follows |
| `MetaDirectives.BaseValueShape` | src/metaDirective.ts:27-33 | a base value is non-empty and holds no separator and no `=` |
| `MetaDirectives.ShapeYieldsDirective` | src/metaDirective.ts:17-38 | a well-formed directive line gives the last base pair of its content |
| `MetaDirectives.TightRender` | src/metaDirective.ts:3 | the tight layout is `{{/*meta:` content `*/}}` |
| `MetaDirectives.SpacedDirective` | src/test/suite/metaDirective.test.ts:11-14 | `{{/*meta: C*/}}` with clean content C gives the last base pair of C |
| `MetaDirectives.PairToken` | src/metaDirective.ts:27-30 | `key=value` of words is one clean token that splits into key and value |
| `MetaDirectives.BasePairGivesBase` | src/test/suite/metaDirective.test.ts:6-10 | `{{/*meta: base=V*/}}` gives base V for every non-empty word V |
| `MetaDirectives.OtherKeyGivesNoBase` | src/test/suite/metaDirective.test.ts:37-41 | a pair with another key gives a directive without a base |
| `MetaDirectives.BareBaseGivesNoBase` | src/test/suite/metaDirective.test.ts:42-46 | `base` without `=value` gives a directive without a base |
| `MetaDirectives.TwoTokens` | src/metaDirective.ts:27 | two words joined by `;` or `,` and a space are two tokens |
| `MetaDirectives.CleanPairOfWords` | src/metaDirective.ts:10 | two words joined by a separator and a space are clean content |
| `MetaDirectives.LastBaseOfTwo` | src/metaDirective.ts:29-35 | a base pair followed by a pair with another key leaves the base pair's value |
| `MetaDirectives.SecondPairIgnored` | src/test/suite/metaDirective.test.ts:21-30 | `base=V; K=W` and `base=V, K=W` give base V |
| `MetaDirectives.PlainTextIsNoDirective` | src/test/suite/metaDirective.test.ts:31-35 | plain text is no directive |
| `MetaDirectives.SplitExample` | src/metaDirective.ts:30 | `key=value` without other `=` splits into key and value |
| `MetaDirectives.GetFirstLine` | src/metaDirective.ts:45-48 | the text up to its first `\n`, or the whole text when there is none |
| `MetaDirectives.FirstLine` | src/metaDirective.ts:57 | the first piece of `split(/\r?\n/)`: the whole text when it has no `\n`; otherwise the text before the first `\n`, less a `\r` right before it, with the rest after that `\n` |
| `MetaDirectives.FirstLineAgrees` | src/metaDirective.ts:45-58 | the first split piece is `getFirstLine` less its last character exactly when that is a `\r` before the first `\n`; otherwise the two are equal |
| `MetaDirectives.FirstLineOf` | src/metaDirective.ts:57 | a line without `\n`, then `\n` or `\r\n`, then the rest: the split's first piece is the line and the rest follows |
| `MetaDirectives.ParseDirectiveFromText` | src/metaDirective.ts:55-60 | a text without `\n` is its own line: a shebang gives no directive, any other line gives its own directive; after a shebang line, a second line that is the last decides |
| `MetaDirectives.OnlyFirstLineConsulted` | src/metaDirective.ts:55-60 | without a shebang, only the first line decides, whatever follows it after `\n` or `\r\n`, and also when it is the whole text |
| `MetaDirectives.SecondLineAfterShebang` | src/metaDirective.ts:55-60 | after a `#!` first line, the second line decides, whatever follows and with `\n` or `\r\n` breaks, and also when the second line is the last |
| `MetaDirectives.ShebangAloneGivesNone` | src/metaDirective.ts:58 | a lone shebang line gives no directive: the missing second line reads as empty |
| `DetectBase.DetectBaseLanguage` | src/detectBase.ts:14-30 | the directive's base exactly when the directive is enabled and has a base; otherwise plaintext from the fallback |
| `DetectBase.BaseNonEmpty` | src/detectBase.ts:18 | a directive's base is non-empty, so it is truthy |
| `DetectBase.DirectiveLanguageShape` | src/detectBase.ts:14-30 | a detected language is never empty and holds no separator or `=` |
| `DetectBase.DirectiveSelectsBase` | src/test/suite/detectBase.test.ts:6-14 | a `base=V` directive selects V, both as the whole text and as the first line of a longer text |
| `DetectBase.BaseLineIsFirstLine` | src/test/suite/detectBase.test.ts:6-14 | the directive line has no line break and no shebang |
| `DetectBase.LaterLineIgnored` | src/test/suite/detectBase.test.ts:40-47 | a directive after a first line that is none falls back to plaintext |
| `DetectBase.EmptyTextFallsBack` | src/test/suite/detectBase.test.ts:58-64 | empty text falls back to plaintext |
| `ScopeMapper.KindNamesAreBaseTypes` | src/scopeMapper.ts:24-102 | every kind's name is one of the twelve type names the mapper returns |
| `ScopeMapper.AnyIncludes` | src/scopeMapper.ts:32-36 | an `||` of `includes` tests: true exactly when some pattern occurs in the scope |
| `ScopeMapper.FirstMatch` | src/scopeMapper.ts:24-99 | the first rule that fires, in source order; none before it fires |
| `ScopeMapper.MapScopeToSemanticToken` | src/scopeMapper.ts:15-103 | null exactly for an empty scope stack; otherwise the modifiers are always `["base"]` |
| `ScopeMapper.MappedTypeIsBaseType` | src/scopeMapper.ts:15-103 | the type given is one of the twelve base type names |
| `ScopeMapper.SameInnerScopeSameInfo` | src/scopeMapper.ts:21 | only the innermost scope is consulted |
| `ScopeMapper.ClassifyByRule` | src/scopeMapper.ts:24-99 | the first rule that fires decides the type |
| `ScopeMapper.TagExactly` | src/scopeMapper.ts:24-26 | a scope is a tag exactly when it mentions `entity.name.tag` |
| `ScopeMapper.OnlyFirstRuleTags` | src/scopeMapper.ts:24-99 | only the first rule gives `tag` |
| `ScopeMapper.CommentOutranksKeywords` | src/scopeMapper.ts:41-43 | a scope mentioning `comment` is a tag, attribute, string or comment, never a later type |
| `ScopeMapper.EarlyRuleDecides` | src/scopeMapper.ts:24-99 | a rule that fires bounds the first one that fires |
| `ScopeMapper.SeparatorIsNeverPunctuation` | src/scopeMapper.ts:57-59 | a scope mentioning `punctuation.separator` is never punctuation: the separator test of the punctuation rule never decides |
| `ScopeMapper.EarlyKinds` | src/scopeMapper.ts:24-59 | the first eight rules give tag, attribute, string, comment, keyword or operator |
| `ScopeMapper.SeparatorIsOperator` | src/scopeMapper.ts:57-59 | `punctuation.separator` with no earlier pattern is an operator |
| `ScopeMapper.TextExactly` | src/scopeMapper.ts:101-102 | a scope is text exactly when no rule fires |
| `ScopeMapper.NoRuleGivesText` | src/scopeMapper.ts:24-99 | no rule gives text |
| `ScopeMapper.ShouldSkipToken` | src/scopeMapper.ts:110-112 | `shouldSkipToken`: true exactly when every character of the text is whitespace, the empty text included |
| `TokenTypes.Ordinal` | src/tokenType.ts:1-18 | each member's numeric value is below the member count |
| `TokenTypes.FromOrdinal` | src/tokenType.ts:1-18 | the member with a given numeric value |
| `TokenTypes.OrdinalRoundTrip` | src/tokenType.ts:1-18 | numbering then looking up gives the member back |
| `TokenTypes.Name` | src/tokenType.ts:2-17 | each member's identifier, a non-empty word starting in lower case |
| `TokenTypes.NameInjective` | src/tokenType.ts:2-17 | two members have the same name exactly when they are the same member |
| `SemanticTokens.Shl1` | src/textmateTokenizer.ts:85 | `1 << n` sets one bit, below 32, at `n` modulo 32 |
| `SemanticTokens.ModifierBitsExactly` | src/textmateTokenizer.ts:81-87 | bit i is set exactly when some modifier's legend index is i modulo 32 |
| `SemanticTokens.UnknownModifierAddsNothing` | src/textmateTokenizer.ts:84 | a modifier missing from the legend leaves the bits unchanged |
| `SemanticTokens.BitsValue` | src/textmateTokenizer.ts:81-87 | the stored bitset value is an unsigned 32-bit number |
| `SemanticTokens.SingleBitValue` | src/semanticProvider.ts:173-174 | a single bit i has value 2^i |
| `SemanticTokens.EncodeFrom` | src/textmateTokenizer.ts:92 | five integers per pushed token |
| `SemanticTokens.Encode` | src/semanticProvider.ts:205 | five integers per pushed token |
| `SemanticTokens.DecodeEncodeFrom` | src/textmateTokenizer.ts:92 | decoding the relative encoding from any start gives back the tokens |
| `SemanticTokens.DecodeEncode` | src/semanticProvider.ts:205 | `build()` loses nothing: decoding it gives back the pushes |
| `SemanticTokens.SortedEncodingIsNonNegative` | src/textmateTokenizer.ts:66-67 | tokens sorted by line then start, with non-negative fields, encode to non-negative integers |
| `SemanticTokens.SemanticTokensResult.constructor` | src/semanticProvider.ts:205 | a built result holds the pushes in order |
| `SemanticTokens.SemanticTokensResult.Data` | src/semanticProvider.ts:205 | the integers the editor receives are the encoding of the result's pushes, and decode back to them |
| `TextmateTokenizer.ClampIndex` | src/textmateTokenizer.ts:38 | an index clamped to the string, as `substring` clamps |
| `TextmateTokenizer.Substring` | src/textmateTokenizer.ts:38 | `substring(a, b)`: the slice between the bounds, in either order |
| `TextmateTokenizer.MapperGivesBaseTypes` | src/textmateTokenizer.ts:46-49 | the scope mapper gives a base type name and the single modifier `base` |
| `TextmateTokenizer.EmitShape` | src/textmateTokenizer.ts:38-57 | a raw token gives nothing exactly when its text is blank or its scope stack empty; otherwise one token on its line, with its start, its length, the type of its innermost scope and the modifier `base` |
| `TextmateTokenizer.LineTokensStep` | src/textmateTokenizer.ts:37-58 | one more raw token appends its base token, if any |
| `TextmateTokenizer.TokenizeWithGrammar` | src/textmateTokenizer.ts:23-62 | the line loop, threading each line's rule stack into the next and starting from null, returns exactly the specified tokens |
| `TextmateTokenizer.ProcessLineTokens` | src/textmateTokenizer.ts:37-58 | the inner loop returns the tokens of one line |
| `TextmateTokenizer.TokensUpToStep` | src/textmateTokenizer.ts:29-34 | the rule stack after a line is that line's result; the tokens grow by that line's tokens |
| `TextmateTokenizer.LineTokensShape` | src/textmateTokenizer.ts:37-58 | every token of a line is on that line, non-empty when the grammar's offsets are ordered, with a base type and `["base"]`; tokens within the line stay within it |
| `TextmateTokenizer.TokensUpToShape` | src/textmateTokenizer.ts:29-59 | the tokens lie on the lines tokenized so far, in line order; within their line when the grammar keeps its offsets in the line |
| `TextmateTokenizer.AppendLine` | src/textmateTokenizer.ts:51-57 | appending a line's tokens keeps line order |
| `TextmateTokenizer.AppendFit` | src/textmateTokenizer.ts:51-57 | appending a line's tokens keeps every token within its line |
| `TextmateTokenizer.TokenizedShape` | src/textmateTokenizer.ts:23-62 | the base tokens of a text are on its `\n` lines, in line order, and within their line when the grammar keeps its offsets in the line |
| `TextmateTokenizer.Converted` | src/textmateTokenizer.ts:74-90 | no more pushes than tokens |
| `TextmateTokenizer.BaseTokensToSemanticTokens` | src/textmateTokenizer.ts:68-93 | the builder receives, in order, each token whose type the legend lists, with its type index and modifier bits |
| `TextmateTokenizer.CollectModifierBits` | src/textmateTokenizer.ts:81-87 | the loop ORs the bit of every known modifier |
| `TextmateTokenizer.ConvertedAllKnown` | src/textmateTokenizer.ts:74-90 | when the legend lists every type, one push per token, each at the token's place with its type's legend index |
| `TextmateTokenizer.UnknownTypeSkipped` | src/textmateTokenizer.ts:75-78 | a token whose type the legend lacks adds no push |
| `SemanticProvider.CreateCombinedLegend` | src/semanticProvider.ts:32-64 | 25 types, modifiers `template` and `base`, and each template token type's name at its enum value |
| `SemanticProvider.EnumAtOrdinal` | src/semanticProvider.ts:33-49 | the legend's first sixteen names follow the enum's order |
| `SemanticProvider.LegendTypesDistinct` | src/semanticProvider.ts:33-59 | no type name is listed twice |
| `SemanticProvider.BaseTypesInLegend` | src/semanticProvider.ts:33-59 | every type the scope mapper can give is in the legend |
| `SemanticProvider.CombinedOriginBits` | src/semanticProvider.ts:173-174 | with the combined legend the template bit is 1 and the base bit 2 |
| `SemanticProvider.TextEol` | src/semanticProvider.ts:144 | `\r\n` exactly when the text holds a `\r` directly followed by a `\n`, else `\n` |
| `SemanticProvider.CrlfOccurs` | src/semanticProvider.ts:144 | `includes('\r\n')` is true exactly when a `\r` is directly followed by a `\n` |
| `SemanticProvider.EolString` | src/semanticProvider.ts:210 | `\n` exactly for a document whose line break is LF, `\r\n` otherwise |
| `SemanticProvider.KeptExactly` | src/semanticProvider.ts:148-161 | a lexer token is kept exactly when its absolute offset is inside some span |
| `SemanticProvider.KeptAppend` | src/semanticProvider.ts:148-161 | filtering distributes over concatenation |
| `SemanticProvider.TokenizeTemplateSpans` | src/semanticProvider.ts:139-164 | nothing exactly when the lexer raises on the text with its detected line break; otherwise the lexer's tokens whose offset is in a span, in order |
| `SemanticProvider.MergeTemplateStep` | src/semanticProvider.ts:182-193 | when the template token goes first, it is pushed with the template bit |
| `SemanticProvider.MergeBaseStep` | src/semanticProvider.ts:194-202 | otherwise the base token is pushed with the base bit when the legend lists its type |
| `SemanticProvider.WithBitAppend` | src/semanticProvider.ts:180-203 | picking out one bit's pushes distributes over concatenation |
| `SemanticProvider.WithBitAll` | src/semanticProvider.ts:192 | pushes that all carry a bit are all picked out |
| `SemanticProvider.WithBitNone` | src/semanticProvider.ts:199 | pushes that never carry a bit are none of them picked out |
| `SemanticProvider.BasesCarryBit` | src/semanticProvider.ts:199 | every base push carries the base bit |
| `SemanticProvider.MergeProjections` | src/semanticProvider.ts:166-206 | with distinct bits, the template-bit pushes are exactly the template tokens in order, and the base-bit pushes exactly the known base tokens in order: nothing is lost, duplicated or reordered |
| `SemanticProvider.MergeLength` | src/semanticProvider.ts:180-203 | every template token is pushed, plus one push per base token with a known type |
| `SemanticProvider.BasesAllKnown` | src/semanticProvider.ts:196-200 | when the legend lists every base type, each base token gives one push |
| `SemanticProvider.MergeSortedFrom` | src/semanticProvider.ts:176-203 | when both inputs are sorted, the merge is sorted by line, then start, with a template token before a base token at the same place |
| `SemanticProvider.PrependSorted` | src/semanticProvider.ts:180-203 | a push no later than the sorted rest keeps the whole sorted |
| `SemanticProvider.MergeSorted` | src/semanticProvider.ts:176-203 | sorted inputs give a merge in document order, template first on ties |
| `SemanticProvider.LowestColumn` | src/semanticProvider.ts:185-187 | a column no later than either input's first token on a line |
| `SemanticProvider.CombinedMerge` | src/semanticProvider.ts:166-206 | with the combined legend: template pushes carry bit 1, base pushes bit 2, every mapper type gives a push, and sorted inputs give sorted output |
| `SemanticProvider.GrammarTokensKept` | src/semanticProvider.ts:125-136 | every token the base grammar gives reaches the builder: the merge has one push per template token and per base token |
| `SemanticProvider.MergePushes` | src/semanticProvider.ts:176-203 | the two-pointer loop pushes exactly the specified merge |
| `SemanticProvider.PushStep` | src/semanticProvider.ts:192 | moving the next pushes from the pending part to the pushed part keeps the whole |
| `SemanticProvider.TextDocument.constructor` | src/semanticProvider.ts:83 | a document with its text, version and line break |
| `SemanticProvider.DocumentCache.constructor` | src/semanticProvider.ts:24 | an empty cache |
| `SemanticProvider.MergedSemanticTokensProvider.constructor` | src/semanticProvider.ts:72-80 | the combined legend, the directive setting and the shared cache |
| `SemanticProvider.MergedSemanticTokensProvider.ProvideDocumentSemanticTokens` | src/semanticProvider.ts:82-106 | a cached entry of the same version is returned as the same object, with the cache unchanged. Over 1 MiB, the template-only result. A build that completes is stored under the document's version and returned. A build that raises gives the template-only result and leaves the cache as it was |
| `SemanticProvider.MergedSemanticTokensProvider.BuildMergedTokens` | src/semanticProvider.ts:108-137 | the merge of the lexer's in-span tokens with the grammar's tokens of the virtual buffer. The grammar is used only when the detected language is not plaintext and a grammar loads. Nothing when the lexer raises |
| `SemanticProvider.MergedSemanticTokensProvider.MergeTokens` | src/semanticProvider.ts:166-206 | the builder receives exactly the specified merge with the legend's template and base bits |
| `SemanticProvider.MergedSemanticTokensProvider.ProvideTemplateOnlyTokens` | src/semanticProvider.ts:208-221 | every lexer token, in order, with the template bit, using the document's own line break; nothing when the lexer raises |
| `SemanticProvider.RequestTwice` | src/test/suite/semanticProvider.test.ts:65-75 | asking twice for an unchanged document whose build completes returns the same object both times |

## Left out

- `src/extension.ts` (activation and registration), the grammar loader's file and network I/O, and the
  Markdown provider are not part of this model.
- The grammar loader (`src/grammarLoader.ts`) is a parameter that may give no grammar, as the loader
  gives `null` for an unknown language or when it catches an error while loading.
- The Go-template lexer (`parseSource`) is a parameter. An exception it raises is modelled as the
  lexer giving no tokens. Its token stream is taken as given, and the modifiers its tokens carry are
  not modelled (the merge pushes only line, start, length and type).
- `src/test/suite/number.test.ts` and `src/test/suite/with.else.test.ts` exercise the lexer, which is
  not part of this model.
- An exception raised by a grammar's `tokenizeLine` is not modelled; the grammar is a total function.
- `TextmateTokenizer.TokenizeWithGrammar` and `TextmateTokenizer.BaseTokensToSemanticTokens`: the inner
  loops are separate methods (`ProcessLineTokens`, `CollectModifierBits`). The tokenizer loops take the
  scope classifier as a function parameter, which the specification instantiates with
  `MapScopeToSemanticToken`.
- `SemanticProvider.MergedSemanticTokensProvider.MergeTokens`: the two-pointer loop is the separate
  method `MergePushes`, which `MergeTokens` calls.
- `SemanticTokens.SemanticTokensResult.constructor`: the editor's `SemanticTokensBuilder` is host code
  outside the extension. When a push comes out of document order, it sorts the pushes before
  delta-encoding them. The model encodes in push order (`SemanticTokensResult.Data`), which equals
  `build()` only when the pushes are sorted by line and start. `MergeSorted` and `CombinedMerge` give
  sorted pushes for sorted inputs; the lexer and grammar are unconstrained parameters, so other
  inputs are not covered. The packing into a `Uint32Array` is not modelled either. The encoding is
  kept as unbounded integers, and `SortedEncodingIsNonNegative` states when the values fit.
- The cache is a `WeakMap` keyed by document object. It is modelled as a map from document objects
  held in one `DocumentCache` object; garbage collection of entries is not modelled.
- `async`/`await` and promises are not modelled: each call completes before the next begins.
- `console.error` logging in the error path is not modelled.
- Strings are sequences of characters. JavaScript's UTF-16 code units, surrogate pairs included, are
  taken as single characters.
- `null` and `undefined` arguments (an absent scope array, a missing text) are not modelled; the types
  rule them out.
- `TemplateSpans.BuildVirtualBuffer` requires spans that are in bounds, sorted and disjoint, as the
  extracted spans always are (`ExtractedSpansFit`). The source's behaviour on arbitrary caller-made
  spans is not modelled.
- `TemplateSpans.LineColumnToAbsolute` takes a non-negative line, as every lexer token has.
