/**
 * Choosing the base language of a document: the `base` of a meta directive
 * found by `ParseDirectiveFromText`, or `plaintext`.
 */
module DetectBase {
  import opened Common
  import opened MetaDirectives

  /** Where the language choice came from. */
  datatype DetectionSource = Directive | Fallback

  datatype BaseLanguageDetection = BaseLanguageDetection(languageId: string, source: DetectionSource)

  const Plaintext: string := "plaintext"

  /** The answer when no directive decides. */
  const FallbackDetection := BaseLanguageDetection(Plaintext, Fallback)

  /**
   * detectBaseLanguage: the directive's `base` when directives are enabled and
   * the document declares a non-empty one; otherwise the plaintext fallback.
   * `directiveEnabled` defaults to true.
   */
  function DetectBaseLanguage(text: string, directiveEnabled: bool := true): (r: BaseLanguageDetection)
    ensures !directiveEnabled ==> r == FallbackDetection
    ensures r.source == Directive <==>
      && directiveEnabled
      && ParseDirectiveFromText(text).Some?
      && ParseDirectiveFromText(text).value.base.Some?
    ensures r.source == Directive ==> r.languageId == ParseDirectiveFromText(text).value.base.value
    ensures r.source == Fallback ==> r == FallbackDetection
  {
    if directiveEnabled then
      match ParseDirectiveFromText(text)
      case Some(MetaDirective(Some(base))) =>
        BaseNonEmpty(CandidateLine(text));
        if base != "" then BaseLanguageDetection(base, Directive) else FallbackDetection
      case _ => FallbackDetection
    else FallbackDetection
  }

  /** A parsed `base` is never empty, so the truthiness test on it never rejects one. */
  lemma BaseNonEmpty(line: string)
    ensures DirectiveOf(line).Some? && DirectiveOf(line).value.base.Some? ==>
      DirectiveOf(line).value.base.value != ""
  {
    if DirectiveOf(line).Some? && DirectiveOf(line).value.base.Some? {
      BaseValueShape(line);
    }
  }

  /** A language chosen by directive is a single base value: non-empty, without separators or `=`. */
  lemma DirectiveLanguageShape(text: string, directiveEnabled: bool)
    ensures var r := DetectBaseLanguage(text, directiveEnabled);
      r.source == Directive ==>
        r.languageId != "" && forall i :: 0 <= i < |r.languageId| ==>
          !IsSeparator(r.languageId[i]) && r.languageId[i] != '='
  {
    var r := DetectBaseLanguage(text, directiveEnabled);
    if r.source == Directive {
      BaseValueShape(CandidateLine(text));
    }
  }

  /**
   * A directive line `{{/*meta: base=<value>*/}}` selects `<value>`, whether it is the whole
   * text or the first line, whatever follows.
   */
  lemma DirectiveSelectsBase(value: string, rest: string)
    requires value != [] && IsWord(value)
    ensures DetectBaseLanguage("{{/*meta: base=" + value + "*/}}") == BaseLanguageDetection(value, Directive)
    ensures DetectBaseLanguage("{{/*meta: base=" + value + "*/}}" + "\n" + rest) ==
      BaseLanguageDetection(value, Directive)
  {
    var line0 := "{{/*meta: base=" + value + "*/}}";
    BaseLineIsFirstLine(value, line0);
    OnlyFirstLineConsulted(line0, "\n", rest);
    OnlyFirstLineConsulted(line0, "", "");
    assert line0 + "" + "" == line0;
    BasePairGivesBase(value);
  }

  /** The directive line holds no line break, does not end in `\r` and is no shebang. */
  lemma BaseLineIsFirstLine(value: string, line0: string)
    requires IsWord(value) && line0 == "{{/*meta: base=" + value + "*/}}"
    ensures '\n' !in line0 && line0 != [] && line0[|line0| - 1] != '\r' && !StartsWith(line0, "#!")
  {
    assert line0[0] == '{' && line0[|line0| - 1] == '}';
    assert forall i :: 15 <= i < 15 + |value| ==> line0[i] == value[i - 15];
  }

  /** A first line that is no directive and no shebang means fallback, whatever the later lines say. */
  lemma LaterLineIgnored(line0: string, rest: string)
    requires '\n' !in line0 && (line0 == [] || line0[|line0| - 1] != '\r')
    requires !StartsWith(line0, "#!") && DirectiveOf(line0) == None
    ensures DetectBaseLanguage(line0 + "\n" + rest) == FallbackDetection
  {
    OnlyFirstLineConsulted(line0, "\n", rest);
  }

  /** The empty document falls back to plaintext. */
  lemma EmptyTextFallsBack()
    ensures DetectBaseLanguage("") == FallbackDetection
  {
    assert CandidateLine("") == "";
    assert AfterMeta("") == None;
  }
}
