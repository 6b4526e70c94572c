/**
 * Classifying the innermost TextMate scope of a base-language token into one of
 * a closed set of semantic token types, by the first of an ordered list of
 * substring rules that fires.
 */
module ScopeMapper {
  import opened Common

  /** The types a base-language token can be given. */
  datatype BaseKind =
    | Tag | Attribute | String | Comment | Keyword | Operator
    | Number | Function | Variable | Property | Punctuation | Text

  /** The legend name of each kind. */
  function KindName(k: BaseKind): string {
    match k
    case Tag => "tag"
    case Attribute => "attribute"
    case String => "string"
    case Comment => "comment"
    case Keyword => "keyword"
    case Operator => "operator"
    case Number => "number"
    case Function => "function"
    case Variable => "variable"
    case Property => "property"
    case Punctuation => "punctuation"
    case Text => "text"
  }

  const BaseTypeNames: set<string> := {
    "tag", "attribute", "string", "comment", "keyword", "operator",
    "number", "function", "variable", "property", "punctuation", "text"
  }

  lemma KindNamesAreBaseTypes(k: BaseKind)
    ensures KindName(k) in BaseTypeNames
  {
  }

  /** One `if` of the classifier: the kind it returns when the scope includes any of its patterns. */
  datatype Rule = Rule(patterns: seq<string>, kind: BaseKind)

  /** The tests of `mapScopeToSemanticToken`, in the order they are made. */
  const Rules: seq<Rule> := [
    Rule(["entity.name.tag"], Tag),
    Rule(["entity.other.attribute-name"], Attribute),
    Rule(["string.quoted", "string.unquoted", "string.interpolated"], String),
    Rule(["comment"], Comment),
    Rule(["keyword.control", "keyword.other"], Keyword),
    Rule(["storage.type", "storage.modifier"], Keyword),
    Rule(["keyword.operator"], Operator),
    Rule(["punctuation.separator"], Operator),
    Rule(["constant.numeric"], Number),
    Rule(["entity.name.function", "support.function"], Function),
    Rule(["variable"], Variable),
    Rule(["support.type.property-name"], Property),
    Rule(["punctuation.definition", "punctuation.separator", "punctuation.terminator", "punctuation.section"], Punctuation),
    Rule(["meta.tag"], Punctuation),
    Rule(["constant.language"], Variable)
  ]

  /** `p1 || p2 || …` over `scope.includes(p)`. */
  function AnyIncludes(scope: string, patterns: seq<string>): (r: bool)
    ensures r <==> exists k :: 0 <= k < |patterns| && Includes(scope, patterns[k])
  {
    if patterns == [] then false
    else if Includes(scope, patterns[0]) then true
    else
      var r := AnyIncludes(scope, patterns[1..]);
      assert forall k :: 1 <= k < |patterns| ==> patterns[k] == patterns[1..][k - 1];
      r
  }

  predicate Fires(rule: Rule, scope: string) {
    AnyIncludes(scope, rule.patterns)
  }

  /** The index of the first rule at or after `from` that fires on `scope`. */
  function FirstMatch(rules: seq<Rule>, scope: string, from: nat): (r: Option<nat>)
    decreases |rules| - from
    ensures r.Some? ==> from <= r.value < |rules| && Fires(rules[r.value], scope)
    ensures forall j :: from <= j < |rules| && (r.None? || j < r.value) ==> !Fires(rules[j], scope)
  {
    if from >= |rules| then None
    else if Fires(rules[from], scope) then Some(from)
    else FirstMatch(rules, scope, from + 1)
  }

  /** The kind of the first rule that fires, `Text` when none does. */
  function Classify(scope: string): BaseKind {
    match FirstMatch(Rules, scope, 0)
    case Some(i) => Rules[i].kind
    case None => Text
  }

  datatype SemanticTokenInfo = SemanticTokenInfo(typeName: string, modifiers: seq<string>)

  /**
   * mapScopeToSemanticToken: nothing for an empty scope stack; otherwise the
   * class of the stack's first scope, always with the single modifier `base`.
   */
  function MapScopeToSemanticToken(scopes: seq<string>): (r: Option<SemanticTokenInfo>)
    ensures r.None? <==> scopes == []
    ensures r.Some? ==> r.value.modifiers == ["base"]
  {
    if scopes == [] then None
    else Some(SemanticTokenInfo(KindName(Classify(scopes[0])), ["base"]))
  }

  /** The type the mapper gives is one of the closed set of base type names. */
  lemma MappedTypeIsBaseType(scopes: seq<string>)
    ensures MapScopeToSemanticToken(scopes).Some? ==> MapScopeToSemanticToken(scopes).value.typeName in BaseTypeNames
  {
    if scopes != [] {
      KindNamesAreBaseTypes(Classify(scopes[0]));
    }
  }

  /** Only the first scope of the stack is consulted. */
  lemma SameInnerScopeSameInfo(a: seq<string>, b: seq<string>)
    requires a != [] && b != [] && a[0] == b[0]
    ensures MapScopeToSemanticToken(a) == MapScopeToSemanticToken(b)
  {
  }

  /** The first rule that fires decides: the kind of rule `i`, when no earlier rule fires. */
  lemma ClassifyByRule(scope: string, i: nat)
    requires i < |Rules| && Fires(Rules[i], scope)
    requires forall j :: 0 <= j < i ==> !Fires(Rules[j], scope)
    ensures Classify(scope) == Rules[i].kind
  {
  }

  /** A scope mentioning `entity.name.tag` is a tag, and only such a scope is. */
  lemma TagExactly(scope: string)
    ensures Classify(scope) == Tag <==> Includes(scope, "entity.name.tag")
  {
    if Includes(scope, "entity.name.tag") {
      assert Rules[0].patterns[0] == "entity.name.tag";
      ClassifyByRule(scope, 0);
    }
    if Classify(scope) == Tag {
      var i := FirstMatch(Rules, scope, 0).value;
      assert Rules[i].kind == Tag;
      OnlyFirstRuleTags(i);
      assert Rules[0].patterns == ["entity.name.tag"];
    }
  }

  lemma OnlyFirstRuleTags(i: nat)
    requires i < |Rules| && Rules[i].kind == Tag
    ensures i == 0
  {
  }

  /** `comment` outranks the keyword, operator and later rules: only the tag, attribute and string rules come before it. */
  lemma CommentOutranksKeywords(scope: string)
    requires Includes(scope, "comment")
    ensures Classify(scope) in {Tag, Attribute, String, Comment}
  {
    assert Rules[3].patterns == ["comment"];
    assert Fires(Rules[3], scope);
    EarlyRuleDecides(scope, 3);
  }

  /** A rule that fires bounds the first rule that fires. */
  lemma EarlyRuleDecides(scope: string, i: nat)
    requires i < |Rules| && Fires(Rules[i], scope)
    ensures FirstMatch(Rules, scope, 0).Some? && FirstMatch(Rules, scope, 0).value <= i
    ensures Classify(scope) == Rules[FirstMatch(Rules, scope, 0).value].kind
  {
  }

  /**
   * A scope mentioning `punctuation.separator` is never punctuation: the
   * operator rule for it comes first, so the later punctuation test for the
   * same pattern never decides.
   */
  lemma SeparatorIsNeverPunctuation(scope: string)
    requires Includes(scope, "punctuation.separator")
    ensures Classify(scope) in {Tag, Attribute, String, Comment, Keyword, Operator}
  {
    assert Rules[7].patterns == ["punctuation.separator"];
    assert Fires(Rules[7], scope);
    EarlyRuleDecides(scope, 7);
    EarlyKinds(FirstMatch(Rules, scope, 0).value);
  }

  lemma EarlyKinds(i: nat)
    requires i <= 7
    ensures Rules[i].kind in {Tag, Attribute, String, Comment, Keyword, Operator}
  {
  }

  /** `punctuation.separator` alone, with no earlier pattern, is an operator. */
  lemma SeparatorIsOperator(scope: string)
    requires Includes(scope, "punctuation.separator")
    requires forall j :: 0 <= j < 7 ==> !Fires(Rules[j], scope)
    ensures Classify(scope) == Operator
  {
    assert Rules[7].patterns == ["punctuation.separator"];
    ClassifyByRule(scope, 7);
  }

  /** A scope no rule fires on is plain text, and only such a scope is. */
  lemma TextExactly(scope: string)
    ensures Classify(scope) == Text <==> forall j :: 0 <= j < |Rules| ==> !Fires(Rules[j], scope)
  {
    var r := FirstMatch(Rules, scope, 0);
    if r.Some? {
      NoRuleGivesText(r.value);
    }
  }

  lemma NoRuleGivesText(i: nat)
    requires i < |Rules|
    ensures Rules[i].kind != Text
  {
  }

  /** shouldSkipToken: the token text is empty or whitespace only. */
  function ShouldSkipToken(text: string): (skip: bool)
    ensures skip <==> forall k :: 0 <= k < |text| ==> IsWhitespace(text[k])
  {
    AllWhitespaceAt(text);
    text == [] || AllWhitespace(text)
  }
}
