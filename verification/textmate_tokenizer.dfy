/**
 * Tokenizing the virtual buffer with a base-language TextMate grammar, line by
 * line, and turning the resulting base tokens into pushed semantic tokens.
 *
 * The grammar is a parameter: `tokenizeLine(line, state)` returns the raw
 * tokens of one line and the state to hand to the next line. `None` stands for
 * the `null` state the first line gets.
 */
module TextmateTokenizer {
  import opened Common
  import opened ScopeMapper
  import opened SemanticTokens

  /** A token as the grammar reports it: a range of the line and its scope stack. */
  datatype RawToken = RawToken(startIndex: int, endIndex: int, scopes: seq<string>)

  datatype LineResult<S> = LineResult(tokens: seq<RawToken>, ruleStack: S)

  /** A classified base-language token, positioned by line and start column. */
  datatype BaseToken = BaseToken(line: nat, startChar: int, length: int, typeName: string, modifiers: seq<string>)

  /** A raw token lies within its line, as a grammar promises. */
  predicate WithinLine(t: RawToken, line: string) {
    0 <= t.startIndex <= t.endIndex <= |line|
  }

  /** The grammar keeps every token it reports within its line. */
  ghost predicate GrammarContract<S(!new)>(tokenizeLine: (string, Option<S>) -> LineResult<S>) {
    forall line, state, k :: 0 <= k < |tokenizeLine(line, state).tokens| ==>
      WithinLine(tokenizeLine(line, state).tokens[k], line)
  }

  function ClampIndex(i: int, n: nat): (r: nat)
    ensures r <= n
  {
    if i < 0 then 0 else if i > n then n else i
  }

  /** JavaScript's `s.substring(a, b)`: both ends clamped to the string, swapped when reversed. */
  function Substring(s: string, a: int, b: int): (r: string)
    ensures 0 <= a <= b <= |s| ==> r == s[a..b]
    ensures 0 <= b <= a <= |s| ==> r == s[b..a]
    ensures |r| <= |s|
  {
    var x := ClampIndex(a, |s|);
    var y := ClampIndex(b, |s|);
    if x <= y then s[x..y] else s[y..x]
  }

  /**
   * A scope classifier. The tokenizer's loops are stated for any classifier
   * and used with `MapScopeToSemanticToken`, the one the extension calls.
   */
  type ScopeMap = seq<string> -> Option<SemanticTokenInfo>

  /** Every token the classifier types gets a base type name and the single modifier `base`. */
  ghost predicate GivesBaseTypes(mapScope: ScopeMap) {
    forall scopes :: mapScope(scopes).Some? ==>
      mapScope(scopes).value.modifiers == ["base"] && mapScope(scopes).value.typeName in BaseTypeNames
  }

  lemma MapperGivesBaseTypes()
    ensures GivesBaseTypes(MapScopeToSemanticToken)
  {
    forall scopes: seq<string> | MapScopeToSemanticToken(scopes).Some?
      ensures MapScopeToSemanticToken(scopes).value.typeName in BaseTypeNames
    {
      MappedTypeIsBaseType(scopes);
    }
  }

  /** The token one raw token of line `lineNum` yields: none when its text is blank or the classifier gives nothing. */
  function Emit(mapScope: ScopeMap, lineNum: nat, line: string, t: RawToken): seq<BaseToken> {
    if ShouldSkipToken(Substring(line, t.startIndex, t.endIndex)) then []
    else
      match mapScope(t.scopes)
      case None => []
      case Some(info) => [BaseToken(lineNum, t.startIndex, t.endIndex - t.startIndex, info.typeName, info.modifiers)]
  }

  /**
   * With the extension's classifier, a raw token yields nothing exactly when
   * its text is blank or its scope stack empty; otherwise one token on its
   * line, over the same range, classified by its first scope, with the `base`
   * modifier.
   */
  lemma EmitShape(lineNum: nat, line: string, t: RawToken)
    ensures |Emit(MapScopeToSemanticToken, lineNum, line, t)| <= 1
    ensures Emit(MapScopeToSemanticToken, lineNum, line, t) == [] <==>
      ShouldSkipToken(Substring(line, t.startIndex, t.endIndex)) || t.scopes == []
    ensures Emit(MapScopeToSemanticToken, lineNum, line, t) != [] ==>
      && Emit(MapScopeToSemanticToken, lineNum, line, t)[0].line == lineNum
      && Emit(MapScopeToSemanticToken, lineNum, line, t)[0].startChar == t.startIndex
      && Emit(MapScopeToSemanticToken, lineNum, line, t)[0].length == t.endIndex - t.startIndex
      && Emit(MapScopeToSemanticToken, lineNum, line, t)[0].typeName == KindName(Classify(t.scopes[0]))
      && Emit(MapScopeToSemanticToken, lineNum, line, t)[0].typeName in BaseTypeNames
      && Emit(MapScopeToSemanticToken, lineNum, line, t)[0].modifiers == ["base"]
  {
    MappedTypeIsBaseType(t.scopes);
  }

  /** The tokens a line's raw tokens yield, in order. */
  function LineTokens(mapScope: ScopeMap, lineNum: nat, line: string, raw: seq<RawToken>): seq<BaseToken> {
    if raw == [] then []
    else LineTokens(mapScope, lineNum, line, raw[..|raw| - 1]) + Emit(mapScope, lineNum, line, raw[|raw| - 1])
  }

  lemma LineTokensStep(mapScope: ScopeMap, lineNum: nat, line: string, raw: seq<RawToken>, t: nat)
    requires t < |raw|
    ensures LineTokens(mapScope, lineNum, line, raw[..t + 1]) ==
      LineTokens(mapScope, lineNum, line, raw[..t]) + Emit(mapScope, lineNum, line, raw[t])
  {
    assert raw[..t + 1][..t] == raw[..t];
  }

  /** The state the grammar is given for line `k`: none for the first line, else what line `k - 1` returned. */
  function StateBefore<S>(tokenizeLine: (string, Option<S>) -> LineResult<S>, lines: seq<string>, k: nat): Option<S>
    requires k <= |lines|
  {
    if k == 0 then None
    else Some(tokenizeLine(lines[k - 1], StateBefore(tokenizeLine, lines, k - 1)).ruleStack)
  }

  /** What the grammar returns for line `k`, given the state threaded to it. */
  function LineResultAt<S>(tokenizeLine: (string, Option<S>) -> LineResult<S>, lines: seq<string>, k: nat): LineResult<S>
    requires k < |lines|
  {
    tokenizeLine(lines[k], StateBefore(tokenizeLine, lines, k))
  }

  /** The tokens of the first `n` lines. */
  function TokensUpTo<S>(mapScope: ScopeMap, tokenizeLine: (string, Option<S>) -> LineResult<S>, lines: seq<string>, n: nat): seq<BaseToken>
    requires n <= |lines|
  {
    if n == 0 then []
    else
      TokensUpTo(mapScope, tokenizeLine, lines, n - 1) +
      LineTokens(mapScope, n - 1, lines[n - 1], LineResultAt(tokenizeLine, lines, n - 1).tokens)
  }

  function Lines(text: string): seq<string> {
    Split(text, '\n')
  }

  /** The tokens `tokenizeWithGrammar` returns for `text`. */
  function Tokenized<S>(tokenizeLine: (string, Option<S>) -> LineResult<S>, text: string): seq<BaseToken> {
    TokensUpTo(MapScopeToSemanticToken, tokenizeLine, Lines(text), |Lines(text)|)
  }

  /**
   * tokenizeWithGrammar: each `\n`-separated line in turn is handed to the
   * grammar with the state the previous line returned, and its non-blank
   * tokens with a scope stack are kept, classified.
   */
  method TokenizeWithGrammar<S>(text: string, tokenizeLine: (string, Option<S>) -> LineResult<S>)
    returns (tokens: seq<BaseToken>)
    ensures tokens == Tokenized(tokenizeLine, text)
  {
    tokens := [];
    var lines := Split(text, '\n');
    var ruleStack: Option<S> := None;
    for lineNum := 0 to |lines|
      invariant ruleStack == StateBefore(tokenizeLine, lines, lineNum)
      invariant tokens == TokensUpTo(MapScopeToSemanticToken, tokenizeLine, lines, lineNum)
    {
      var line := lines[lineNum];
      var result := tokenizeLine(line, ruleStack);
      ruleStack := Some(result.ruleStack);
      var lineTokens := ProcessLineTokens(MapScopeToSemanticToken, lineNum, line, result.tokens);
      tokens := tokens + lineTokens;
      TokensUpToStep(MapScopeToSemanticToken, tokenizeLine, lines, lineNum);
    }
  }

  /** The inner loop of `tokenizeWithGrammar`: the tokens one line's raw tokens add, in order. */
  method ProcessLineTokens(mapScope: ScopeMap, lineNum: nat, line: string, raw: seq<RawToken>) returns (tokens: seq<BaseToken>)
    ensures tokens == LineTokens(mapScope, lineNum, line, raw)
  {
    tokens := [];
    for t := 0 to |raw|
      invariant tokens == LineTokens(mapScope, lineNum, line, raw[..t])
    {
      LineTokensStep(mapScope, lineNum, line, raw, t);
      var token := raw[t];
      var tokenText := Substring(line, token.startIndex, token.endIndex);
      if ShouldSkipToken(tokenText) {
        continue;
      }
      var semanticToken := mapScope(token.scopes);
      if semanticToken.None? {
        continue;
      }
      tokens := tokens + [BaseToken(lineNum, token.startIndex, token.endIndex - token.startIndex,
                                    semanticToken.value.typeName, semanticToken.value.modifiers)];
    }
    assert raw[..|raw|] == raw;
  }

  lemma TokensUpToStep<S>(mapScope: ScopeMap, tokenizeLine: (string, Option<S>) -> LineResult<S>, lines: seq<string>, n: nat)
    requires n < |lines|
    ensures StateBefore(tokenizeLine, lines, n + 1) == Some(LineResultAt(tokenizeLine, lines, n).ruleStack)
    ensures TokensUpTo(mapScope, tokenizeLine, lines, n + 1) ==
      TokensUpTo(mapScope, tokenizeLine, lines, n) + LineTokens(mapScope, n, lines[n], LineResultAt(tokenizeLine, lines, n).tokens)
  {
  }

  /** What every token of a line satisfies. */
  predicate GoodLineToken(lineNum: nat, line: string, t: BaseToken) {
    && t.line == lineNum
    && !ShouldSkipToken(Substring(line, t.startChar, t.startChar + t.length))
    && t.modifiers == ["base"] && t.typeName in BaseTypeNames
  }

  /** A line's tokens sit on that line, are not blank, and carry a base type with the `base` modifier. */
  lemma {:induction false} LineTokensShape(mapScope: ScopeMap, lineNum: nat, line: string, raw: seq<RawToken>)
    requires GivesBaseTypes(mapScope)
    ensures forall k :: 0 <= k < |LineTokens(mapScope, lineNum, line, raw)| ==>
      GoodLineToken(lineNum, line, LineTokens(mapScope, lineNum, line, raw)[k])
    ensures (forall k :: 0 <= k < |raw| ==> WithinLine(raw[k], line)) ==>
      forall k :: 0 <= k < |LineTokens(mapScope, lineNum, line, raw)| ==> FitsLine(LineTokens(mapScope, lineNum, line, raw)[k], line)
  {
    if raw != [] {
      var init := raw[..|raw| - 1];
      var last := raw[|raw| - 1];
      LineTokensShape(mapScope, lineNum, line, init);
      var e := Emit(mapScope, lineNum, line, last);
      if e != [] {
        assert last.startIndex + (last.endIndex - last.startIndex) == last.endIndex;
        assert !ShouldSkipToken(Substring(line, last.startIndex, last.endIndex));
        assert mapScope(last.scopes).Some?;
      }
      assert forall k :: 0 <= k < |init| ==> init[k] == raw[k];
    }
  }

  /** Every token is a good token of the line it names, one of the first `n` lines. */
  predicate OnFirstLines(ts: seq<BaseToken>, lines: seq<string>, n: nat)
    requires n <= |lines|
  {
    forall k :: 0 <= k < |ts| ==> ts[k].line < n && GoodLineToken(ts[k].line, lines[ts[k].line], ts[k])
  }

  /** Line numbers never decrease along the list. */
  predicate LinesInOrder(ts: seq<BaseToken>) {
    forall k1, k2 :: 0 <= k1 < k2 < |ts| ==> ts[k1].line <= ts[k2].line
  }

  /** A token is non-empty and lies within `line`. */
  predicate FitsLine(t: BaseToken, line: string) {
    0 <= t.startChar && 1 <= t.length && t.startChar + t.length <= |line|
  }

  predicate FitLines(ts: seq<BaseToken>, lines: seq<string>) {
    forall k :: 0 <= k < |ts| && ts[k].line < |lines| ==> FitsLine(ts[k], lines[ts[k].line])
  }

  /**
   * Over the first `n` lines: tokens come line by line (their line numbers
   * never decrease and stay below `n`), none is blank, each has a base type and
   * the `base` modifier; under the grammar's contract each is non-empty and
   * lies within its line.
   */
  lemma {:induction false} TokensUpToShape<S(!new)>(mapScope: ScopeMap, tokenizeLine: (string, Option<S>) -> LineResult<S>, lines: seq<string>, n: nat)
    requires n <= |lines| && GivesBaseTypes(mapScope)
    ensures OnFirstLines(TokensUpTo(mapScope, tokenizeLine, lines, n), lines, n)
    ensures LinesInOrder(TokensUpTo(mapScope, tokenizeLine, lines, n))
    ensures GrammarContract(tokenizeLine) ==> FitLines(TokensUpTo(mapScope, tokenizeLine, lines, n), lines)
  {
    if n > 0 {
      TokensUpToShape(mapScope, tokenizeLine, lines, n - 1);
      var raw := LineResultAt(tokenizeLine, lines, n - 1).tokens;
      LineTokensShape(mapScope, n - 1, lines[n - 1], raw);
      var prev := TokensUpTo(mapScope, tokenizeLine, lines, n - 1);
      var here := LineTokens(mapScope, n - 1, lines[n - 1], raw);
      AppendLine(prev, here, lines, n);
      if GrammarContract(tokenizeLine) {
        assert forall k :: 0 <= k < |raw| ==> WithinLine(raw[k], lines[n - 1]);
        AppendFit(prev, here, lines, n);
      }
    }
  }

  lemma AppendLine(prev: seq<BaseToken>, here: seq<BaseToken>, lines: seq<string>, n: nat)
    requires 0 < n <= |lines| && OnFirstLines(prev, lines, n - 1) && LinesInOrder(prev)
    requires forall k :: 0 <= k < |here| ==> GoodLineToken(n - 1, lines[n - 1], here[k])
    ensures OnFirstLines(prev + here, lines, n) && LinesInOrder(prev + here)
  {
    var all := prev + here;
    forall k | 0 <= k < |all| ensures all[k].line < n && GoodLineToken(all[k].line, lines[all[k].line], all[k]) {
      if k < |prev| {
        assert all[k] == prev[k];
      } else {
        assert all[k] == here[k - |prev|];
      }
    }
    forall k1, k2 | 0 <= k1 < k2 < |all| ensures all[k1].line <= all[k2].line {
      if k2 >= |prev| {
        assert all[k2] == here[k2 - |prev|];
        if k1 < |prev| { assert all[k1] == prev[k1]; } else { assert all[k1] == here[k1 - |prev|]; }
      } else {
        assert all[k1] == prev[k1] && all[k2] == prev[k2];
      }
    }
  }

  lemma AppendFit(prev: seq<BaseToken>, here: seq<BaseToken>, lines: seq<string>, n: nat)
    requires 0 < n <= |lines| && FitLines(prev, lines)
    requires forall k :: 0 <= k < |here| ==> here[k].line == n - 1 && FitsLine(here[k], lines[n - 1])
    ensures FitLines(prev + here, lines)
  {
    assert forall k :: |prev| <= k < |prev| + |here| ==> (prev + here)[k] == here[k - |prev|];
  }

  /** The shape of `TokensUpToShape`, for the whole text and the extension's classifier. */
  lemma TokenizedShape<S(!new)>(tokenizeLine: (string, Option<S>) -> LineResult<S>, text: string)
    ensures OnFirstLines(Tokenized(tokenizeLine, text), Lines(text), |Lines(text)|)
    ensures LinesInOrder(Tokenized(tokenizeLine, text))
    ensures GrammarContract(tokenizeLine) ==> FitLines(Tokenized(tokenizeLine, text), Lines(text))
  {
    MapperGivesBaseTypes();
    TokensUpToShape(MapScopeToSemanticToken, tokenizeLine, Lines(text), |Lines(text)|);
  }

  // ---------------------------------------------------------------------------
  // baseTokensToSemanticTokens

  /** The token pushed for a base token whose type sits at `typeIndex` of the legend. */
  function Pushed(t: BaseToken, typeIndex: nat, legend: Legend): PushedToken {
    PushedToken(t.line, t.startChar, t.length, typeIndex, BitsValue(ModifierBits(t.modifiers, legend.tokenModifiers)))
  }

  /** The tokens pushed for `tokens`: those of known type, in order. */
  function Converted(tokens: seq<BaseToken>, legend: Legend): (r: seq<PushedToken>)
    ensures |r| <= |tokens|
  {
    if tokens == [] then []
    else
      var t := tokens[|tokens| - 1];
      Converted(tokens[..|tokens| - 1], legend) +
        match IndexOf(legend.tokenTypes, t.typeName)
        case None => []
        case Some(typeIndex) => [Pushed(t, typeIndex, legend)]
  }

  /**
   * baseTokensToSemanticTokens: tokens of a type the legend lists are pushed
   * with that type's index and the bitset of their known modifiers; the others
   * are skipped.
   */
  method BaseTokensToSemanticTokens(tokens: seq<BaseToken>, legend: Legend) returns (r: SemanticTokensResult)
    ensures r.tokens == Converted(tokens, legend)
  {
    var pushed: seq<PushedToken> := [];
    for n := 0 to |tokens|
      invariant pushed == Converted(tokens[..n], legend)
    {
      assert tokens[..n + 1][..n] == tokens[..n];
      var token := tokens[n];
      var typeIndex := IndexOf(legend.tokenTypes, token.typeName);
      if typeIndex.None? {
        continue;
      }
      var modifierBits := CollectModifierBits(token.modifiers, legend.tokenModifiers);
      pushed := pushed + [PushedToken(token.line, token.startChar, token.length, typeIndex.value, BitsValue(modifierBits))];
    }
    assert tokens[..|tokens|] == tokens;
    r := new SemanticTokensResult(pushed);
  }

  /** The modifier loop of `baseTokensToSemanticTokens`: `bits |= 1 << idx` for each modifier the legend lists. */
  method CollectModifierBits(modifiers: seq<string>, legendModifiers: seq<string>) returns (bits: set<nat>)
    ensures bits == ModifierBits(modifiers, legendModifiers)
  {
    bits := {};
    for m := 0 to |modifiers|
      invariant bits == ModifierBits(modifiers[..m], legendModifiers)
    {
      assert modifiers[..m + 1][..m] == modifiers[..m];
      var modIndex := IndexOf(legendModifiers, modifiers[m]);
      if modIndex.Some? {
        bits := bits + Shl1(modIndex.value);
      }
    }
    assert modifiers[..|modifiers|] == modifiers;
  }

  /**
   * When every type is in the legend nothing is skipped: the `k`-th pushed
   * token is the `k`-th base token, at the legend index of its type.
   */
  lemma {:induction false} ConvertedAllKnown(tokens: seq<BaseToken>, legend: Legend)
    requires forall k :: 0 <= k < |tokens| ==> tokens[k].typeName in legend.tokenTypes
    ensures |Converted(tokens, legend)| == |tokens|
    ensures forall k :: 0 <= k < |tokens| ==>
      var p := Converted(tokens, legend)[k];
      && p.line == tokens[k].line && p.column == tokens[k].startChar && p.length == tokens[k].length
      && 0 <= p.tokenType < |legend.tokenTypes| && legend.tokenTypes[p.tokenType] == tokens[k].typeName
  {
    if tokens != [] {
      var init := tokens[..|tokens| - 1];
      assert forall k :: 0 <= k < |init| ==> init[k] == tokens[k];
      ConvertedAllKnown(init, legend);
    }
  }

  /** A token of a type the legend does not list adds nothing. */
  lemma UnknownTypeSkipped(tokens: seq<BaseToken>, t: BaseToken, legend: Legend)
    requires t.typeName !in legend.tokenTypes
    ensures Converted(tokens + [t], legend) == Converted(tokens, legend)
  {
    assert (tokens + [t])[..|tokens|] == tokens;
  }
}
