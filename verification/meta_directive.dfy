// The meta directive on the first line of a template (src/metaDirective.ts):
// the line shape `{{/* meta: key=value ... */}}`, its key/value list, and the
// choice of the line that is consulted.
module MetaDirectives {
  import opened Common

  // ---------------------------------------------------------------------------
  // The directive regular expression
  //
  //   ^\s*\{\{-?\s*\/\*\s*meta:\s*(.*?)\s*\*\/\s*-?\}\}\s*$
  //
  // is matched by the scanners below, each of which takes the rest of the line
  // and returns what is left after its piece. Each `\s*` is followed by a
  // character that is not whitespace (`{`, `/`, `m`, `*`), and each `-?` by a
  // character other than `-`, so backtracking into them never produces another
  // match: they take as much as they can. The lazy group is the shortest run
  // of characters other than line terminators after which the closing part
  // `\s*\*\/\s*-?\}\}\s*$` matches the rest of the line.

  /** What is left of `s` after its leading whitespace. */
  function SkipWs(s: string): (r: string)
    ensures |r| <= |s|
    ensures r != [] ==> !IsWhitespace(r[0])
  {
    if s != [] && IsWhitespace(s[0]) then SkipWs(s[1..]) else s
  }

  /** What is left of `s` after one `-`, if it starts with one. */
  function DropDash(s: string): (r: string)
    ensures |r| <= |s|
  {
    if s != [] && s[0] == '-' then s[1..] else s
  }

  /** `s` starts with the two characters `a b`. */
  predicate PairFirst(s: string, a: char, b: char) {
    |s| >= 2 && s[0] == a && s[1] == b
  }

  /** `s` matches `\s*\*\/\s*-?\}\}\s*$`. */
  predicate IsClosing(s: string) {
    var a := SkipWs(s);
    PairFirst(a, '*', '/') &&
    var b := DropDash(SkipWs(a[2..]));
    PairFirst(b, '}', '}') && SkipWs(b[2..]) == []
  }

  /** Where the lazy group `(.*?)` at the start of `r` ends, trying ends from `n` upwards. */
  function LazyGroup(r: string, n: nat): (e: Option<nat>)
    requires n <= |r|
    decreases |r| - n
    ensures e.Some? ==> n <= e.value <= |r| && IsClosing(r[e.value..])
    ensures e.Some? ==> forall k :: n <= k < e.value ==> !IsLineTerminator(r[k]) && !IsClosing(r[k..])
    ensures e.None? ==> forall m :: n <= m <= |r| && (forall k :: n <= k < m ==> !IsLineTerminator(r[k])) ==>
      !IsClosing(r[m..])
  {
    if IsClosing(r[n..]) then Some(n)
    else if n < |r| && !IsLineTerminator(r[n]) then LazyGroup(r, n + 1)
    else None
  }

  // The rest of a line after `\s*\{\{`, if it opens that way.
  function AfterBraces(line: string): Option<string> {
    var a := SkipWs(line);
    if PairFirst(a, '{', '{') then Some(a[2..]) else None
  }

  // The rest after `-?\s*\/\*`, if it continues that way.
  function AfterCommentOpen(x: string): Option<string> {
    var b := SkipWs(DropDash(x));
    if PairFirst(b, '/', '*') then Some(b[2..]) else None
  }

  // The rest after `\s*meta:\s*`, if it continues that way.
  function AfterMetaKey(y: string): Option<string> {
    var c := SkipWs(y);
    if StartsWith(c, "meta:") then Some(SkipWs(c[5..])) else None
  }

  // The rest of a directive line after `ws {{ [-] ws /* ws meta: ws`, if the line opens that way.
  function AfterMeta(line: string): Option<string> {
    match AfterBraces(line)
    case None => None
    case Some(x) =>
      match AfterCommentOpen(x)
      case None => None
      case Some(y) => AfterMetaKey(y)
  }

  /**
   * `DIRECTIVE_REGEX.exec(line)`: the captured content, or none when the line does not match.
   * The capture is the shortest run, free of line terminators, after the opening part that a
   * closing part running to the end of the line follows.
   */
  function MatchDirective(line: string): (r: Option<string>)
    ensures r.Some? ==> (AfterMeta(line).Some? &&
      var rest := AfterMeta(line).value;
      && |r.value| <= |rest| && rest[..|r.value|] == r.value && IsClosing(rest[|r.value|..])
      && forall k :: 0 <= k < |r.value| ==> !IsLineTerminator(r.value[k]) && !IsClosing(rest[k..]))
    ensures r.None? && AfterMeta(line).Some? ==>
      var rest := AfterMeta(line).value;
      forall m :: 0 <= m <= |rest| && (forall k :: 0 <= k < m ==> !IsLineTerminator(rest[k])) ==>
        !IsClosing(rest[m..])
  {
    match AfterMeta(line)
    case None => None
    case Some(r) =>
      match LazyGroup(r, 0)
      case None => None
      case Some(e) => Some(r[..e])
  }

  // ---------------------------------------------------------------------------
  // The line shape the regular expression accepts

  /** The whitespace runs and optional trim markers around the content of a directive line. */
  datatype DirectiveLayout = DirectiveLayout(
    lead: string, openDash: bool, beforeComment: string, beforeMeta: string, afterMeta: string,
    beforeClose: string, afterClose: string, closeDash: bool, trail: string)

  function Dash(present: bool): string {
    if present then "-" else ""
  }

  predicate WellFormed(d: DirectiveLayout) {
    && AllWhitespace(d.lead) && AllWhitespace(d.beforeComment) && AllWhitespace(d.beforeMeta)
    && AllWhitespace(d.afterMeta) && AllWhitespace(d.beforeClose) && AllWhitespace(d.afterClose)
    && AllWhitespace(d.trail)
  }

  // The closing part `*/ [-]}}` with its whitespace.
  function Closing(beforeClose: string, afterClose: string, closeDash: bool, trail: string): string {
    beforeClose + ("*/" + (afterClose + (Dash(closeDash) + ("}}" + trail))))
  }

  function ClosingOf(d: DirectiveLayout): string {
    Closing(d.beforeClose, d.afterClose, d.closeDash, d.trail)
  }

  // The opening part `{{ [-] /* meta:` with its whitespace, in front of `rest`.
  function OpenWith(d: DirectiveLayout, rest: string): string {
    d.lead + ("{{" + (Dash(d.openDash) + (d.beforeComment + ("/*" + (d.beforeMeta +
      ("meta:" + (d.afterMeta + rest)))))))
  }

  /** The directive line with layout `d` and content `c`. */
  function Render(d: DirectiveLayout, c: string): string {
    OpenWith(d, c + ClosingOf(d))
  }

  /** Content the lazy group can capture: no line terminator, no whitespace at either end. */
  predicate CleanContent(c: string) {
    c == [] || (
      && !IsWhitespace(c[0]) && !IsWhitespace(c[|c| - 1])
      && forall k :: 0 <= k < |c| ==> !IsLineTerminator(c[k]))
  }

  // ---------------------------------------------------------------------------
  // Scanning over the pieces of a line

  /** Leading whitespace is skipped whatever follows it. */
  lemma {:induction false} SkipWsCat(w: string, y: string)
    requires AllWhitespace(w)
    ensures SkipWs(w + y) == SkipWs(y)
  {
    if w != [] {
      assert (w + y)[1..] == w[1..] + y;
      SkipWsCat(w[1..], y);
    } else {
      assert w + y == y;
    }
  }

  /** A whitespace run followed by `y`, which does not start with whitespace, leaves `y`. */
  lemma SkipWsOver(w: string, y: string)
    requires AllWhitespace(w) && (y == [] || !IsWhitespace(y[0]))
    ensures SkipWs(w + y) == y
  {
    SkipWsCat(w, y);
  }

  /** The leading whitespace of `s`. */
  function WsPrefix(s: string): string {
    s[..|s| - |SkipWs(s)|]
  }

  lemma {:induction false} WsPrefixSplit(s: string)
    ensures AllWhitespace(WsPrefix(s)) && s == WsPrefix(s) + SkipWs(s)
  {
    if s != [] && IsWhitespace(s[0]) {
      WsPrefixSplit(s[1..]);
      assert WsPrefix(s) == [s[0]] + WsPrefix(s[1..]);
    }
  }

  lemma DropDashOver(present: bool, y: string)
    requires y == [] || y[0] != '-'
    ensures DropDash(Dash(present) + y) == y
  {
    if !present {
      assert Dash(present) + y == y;
    }
  }

  lemma DropDashSplit(s: string)
    ensures s == Dash(|DropDash(s)| < |s|) + DropDash(s)
  {
  }

  lemma PairSplit(s: string, a: char, b: char)
    requires PairFirst(s, a, b)
    ensures s == [a, b] + s[2..]
  {
  }

  /** The closing part with empty leading whitespace, and the whole of it, are recognised. */
  lemma ClosingOfLayout(beforeClose: string, afterClose: string, closeDash: bool, trail: string)
    requires AllWhitespace(beforeClose) && AllWhitespace(afterClose) && AllWhitespace(trail)
    ensures SkipWs(Closing(beforeClose, afterClose, closeDash, trail)) == Closing([], afterClose, closeDash, trail)
    ensures IsClosing(Closing(beforeClose, afterClose, closeDash, trail))
  {
    var t3 := "}}" + trail;
    var t2 := Dash(closeDash) + t3;
    var t1 := afterClose + t2;
    var a := "*/" + t1;
    SkipWsOver(beforeClose, a);
    assert [] + a == a;
    assert a[2..] == t1;
    SkipWsOver(afterClose, t2);
    DropDashOver(closeDash, t3);
    assert t3[2..] == trail;
    SkipWsOver(trail, []);
    assert trail + [] == trail;
  }

  /** A string that is recognised as a closing part is one, split into its whitespace runs. */
  lemma ClosingParts(t: string) returns (bc: string, ac: string, cd: bool, tr: string)
    requires IsClosing(t)
    ensures AllWhitespace(bc) && AllWhitespace(ac) && AllWhitespace(tr)
    ensures t == Closing(bc, ac, cd, tr)
  {
    var a := SkipWs(t);
    WsPrefixSplit(t);
    bc := WsPrefix(t);
    PairSplit(a, '*', '/');
    var a2 := SkipWs(a[2..]);
    WsPrefixSplit(a[2..]);
    ac := WsPrefix(a[2..]);
    var b := DropDash(a2);
    DropDashSplit(a2);
    cd := |b| < |a2|;
    PairSplit(b, '}', '}');
    WsPrefixSplit(b[2..]);
    tr := WsPrefix(b[2..]);
    assert b[2..] == tr + [] == tr;
  }

  /** The non-whitespace characters of `s`, in order. */
  function NonWs(s: string): string {
    if s == [] then [] else (if IsWhitespace(s[0]) then [] else [s[0]]) + NonWs(s[1..])
  }

  lemma {:induction false} NonWsAppend(a: string, b: string)
    ensures NonWs(a + b) == NonWs(a) + NonWs(b)
  {
    if a != [] {
      assert (a + b)[1..] == a[1..] + b;
      NonWsAppend(a[1..], b);
    } else {
      assert a + b == b;
    }
  }

  lemma {:induction false} NonWsOfWhitespace(w: string)
    requires AllWhitespace(w)
    ensures NonWs(w) == []
  {
    if w != [] {
      NonWsOfWhitespace(w[1..]);
    }
  }

  lemma {:induction false} NonWsOfEnd(u: string)
    requires u != [] && !IsWhitespace(u[|u| - 1])
    ensures NonWs(u) != []
  {
    if IsWhitespace(u[0]) {
      NonWsOfEnd(u[1..]);
    }
  }

  lemma {:induction false} NonWsSolid(x: string, y: string)
    requires forall k :: 0 <= k < |x| ==> !IsWhitespace(x[k])
    ensures NonWs(x + y) == x + NonWs(y)
  {
    if x != [] {
      assert (x + y)[1..] == x[1..] + y;
      NonWsSolid(x[1..], y);
    } else {
      assert x + y == y;
    }
  }

  lemma NonWsSkip(w: string, y: string)
    requires AllWhitespace(w)
    ensures NonWs(w + y) == NonWs(y)
  {
    NonWsAppend(w, y);
    NonWsOfWhitespace(w);
  }

  lemma NonWsClosingTail(cd: bool, tr: string)
    requires AllWhitespace(tr)
    ensures NonWs(Dash(cd) + ("}}" + tr)) == Dash(cd) + "}}"
  {
    NonWsOfWhitespace(tr);
    NonWsSolid("}}", tr);
    assert "}}" + NonWs(tr) == "}}";
    NonWsSolid(Dash(cd), "}}" + tr);
  }

  lemma NonWsClosing(bc: string, ac: string, cd: bool, tr: string)
    requires AllWhitespace(bc) && AllWhitespace(ac) && AllWhitespace(tr)
    ensures NonWs(Closing(bc, ac, cd, tr)) == "*/" + Dash(cd) + "}}"
  {
    var t1 := ac + (Dash(cd) + ("}}" + tr));
    NonWsClosingTail(cd, tr);
    NonWsSkip(ac, Dash(cd) + ("}}" + tr));
    NonWsSolid("*/", t1);
    NonWsSkip(bc, "*/" + t1);
  }

  // The non-whitespace characters of a closing part are exactly `*/}}` or `*/-}}`.
  lemma ClosingNonWs(t: string)
    ensures IsClosing(t) ==> NonWs(t) == "*/}}" || NonWs(t) == "*/-}}"
  {
    if IsClosing(t) {
      var bc, ac, cd, tr := ClosingParts(t);
      NonWsClosing(bc, ac, cd, tr);
    }
  }

  /** No closing part starts at a run ending in a character other than whitespace, in front of a closing part. */
  lemma NotClosingBefore(u: string, t: string)
    requires u != [] && !IsWhitespace(u[|u| - 1])
    requires IsClosing(t)
    ensures !IsClosing(u + t)
  {
    NonWsAppend(u, t);
    NonWsOfEnd(u);
    ClosingNonWs(t);
    ClosingNonWs(u + t);
    var n := NonWs(u);
    assert NonWs(u + t)[|n|] == '*';
  }

  lemma AfterBracesOver(lead: string, x: string)
    requires AllWhitespace(lead)
    ensures AfterBraces(lead + ("{{" + x)) == Some(x)
  {
    SkipWsOver(lead, "{{" + x);
    assert ("{{" + x)[2..] == x;
  }

  lemma AfterCommentOpenOver(dash: bool, ws: string, y: string)
    requires AllWhitespace(ws)
    ensures AfterCommentOpen(Dash(dash) + (ws + ("/*" + y))) == Some(y)
  {
    var x2 := "/*" + y;
    assert ws != [] ==> IsWhitespace(ws[0]);
    assert (ws + x2)[0] != '-';
    DropDashOver(dash, ws + x2);
    SkipWsOver(ws, x2);
    assert x2[2..] == y;
  }

  lemma AfterMetaKeyOver(ws: string, ws': string, rest: string)
    requires AllWhitespace(ws) && AllWhitespace(ws')
    ensures AfterMetaKey(ws + ("meta:" + (ws' + rest))) == Some(SkipWs(rest))
  {
    var x3 := "meta:" + (ws' + rest);
    SkipWsOver(ws, x3);
    assert x3[..5] == "meta:" && x3[5..] == ws' + rest;
    SkipWsCat(ws', rest);
  }

  /** The opening part of a well-formed layout is recognised, leaving `rest` without its leading whitespace. */
  lemma AfterMetaOpen(d: DirectiveLayout, rest: string)
    requires WellFormed(d)
    ensures AfterMeta(OpenWith(d, rest)) == Some(SkipWs(rest))
  {
    var y := d.beforeMeta + ("meta:" + (d.afterMeta + rest));
    var x := Dash(d.openDash) + (d.beforeComment + ("/*" + y));
    AfterBracesOver(d.lead, x);
    AfterCommentOpenOver(d.openDash, d.beforeComment, y);
    AfterMetaKeyOver(d.beforeMeta, d.afterMeta, rest);
  }

  lemma AfterBracesParts(line: string)
    requires AfterBraces(line).Some?
    ensures AllWhitespace(WsPrefix(line)) && line == WsPrefix(line) + ("{{" + AfterBraces(line).value)
  {
    WsPrefixSplit(line);
    PairSplit(SkipWs(line), '{', '{');
  }

  lemma AfterCommentOpenParts(x: string)
    requires AfterCommentOpen(x).Some?
    ensures var x1 := DropDash(x);
      AllWhitespace(WsPrefix(x1)) && x == Dash(|x1| < |x|) + (WsPrefix(x1) + ("/*" + AfterCommentOpen(x).value))
  {
    var x1 := DropDash(x);
    DropDashSplit(x);
    WsPrefixSplit(x1);
    PairSplit(SkipWs(x1), '/', '*');
  }

  lemma AfterMetaKeyParts(y: string)
    requires AfterMetaKey(y).Some?
    ensures var z := SkipWs(y)[5..];
      && AllWhitespace(WsPrefix(y)) && AllWhitespace(WsPrefix(z))
      && y == WsPrefix(y) + ("meta:" + (WsPrefix(z) + AfterMetaKey(y).value))
  {
    var c := SkipWs(y);
    WsPrefixSplit(y);
    assert c == "meta:" + c[5..];
    WsPrefixSplit(c[5..]);
  }

  /** A line whose opening part is recognised is that opening part in front of what is left. */
  lemma AfterMetaParts(line: string) returns (d: DirectiveLayout)
    requires AfterMeta(line).Some?
    ensures WellFormed(d) && line == OpenWith(d, AfterMeta(line).value)
  {
    var x := AfterBraces(line).value;
    var y := AfterCommentOpen(x).value;
    AfterBracesParts(line);
    AfterCommentOpenParts(x);
    AfterMetaKeyParts(y);
    var x1 := DropDash(x);
    d := DirectiveLayout(WsPrefix(line), |x1| < |x|, WsPrefix(x1), WsPrefix(y),
      WsPrefix(SkipWs(y)[5..]), [], [], false, []);
  }

  /** The lazy group stops right after clean, non-empty content that a closing part follows. */
  lemma LazyGroupOfContent(c: string, cl: string)
    requires c != [] && CleanContent(c) && IsClosing(cl)
    ensures LazyGroup(c + cl, 0) == Some(|c|)
  {
    var r := c + cl;
    assert r[|c|..] == cl;
    forall k | 0 <= k < |c| ensures !IsLineTerminator(r[k]) && !IsClosing(r[k..]) {
      assert r[k..] == c[k..] + cl;
      NotClosingBefore(c[k..], cl);
    }
  }

  /** Completeness: every line of the directive shape matches, capturing its content. */
  lemma MatchRender(d: DirectiveLayout, c: string)
    requires WellFormed(d) && CleanContent(c)
    ensures MatchDirective(Render(d, c)) == Some(c)
  {
    AfterMetaOpen(d, c + ClosingOf(d));
    GroupOfRendered(d, c);
  }

  /** After the opening part, the lazy group stops exactly where the content ends. */
  lemma GroupOfRendered(d: DirectiveLayout, c: string)
    requires WellFormed(d) && CleanContent(c)
    ensures LazyGroup(SkipWs(c + ClosingOf(d)), 0) == Some(|c|)
    ensures |c| <= |SkipWs(c + ClosingOf(d))| && SkipWs(c + ClosingOf(d))[..|c|] == c
  {
    var cl := ClosingOf(d);
    ClosingOfLayout(d.beforeClose, d.afterClose, d.closeDash, d.trail);
    if c == [] {
      assert c + cl == cl;
      ClosingOfLayout([], d.afterClose, d.closeDash, d.trail);
      assert SkipWs(cl)[0..] == SkipWs(cl);
    } else {
      assert SkipWs(c + cl) == c + cl;
      LazyGroupOfContent(c, cl);
      assert (c + cl)[..|c|] == c;
    }
  }

  /** What the lazy group captures after the opening part is clean content. */
  lemma LazyGroupClean(r: string)
    requires r == [] || !IsWhitespace(r[0])
    requires LazyGroup(r, 0).Some?
    ensures CleanContent(r[..LazyGroup(r, 0).value])
  {
    var e := LazyGroup(r, 0).value;
    if e > 0 {
      NotWsBeforeClosing(r, e);
      CleanPrefix(r, e);
    }
  }

  lemma CleanPrefix(r: string, e: nat)
    requires 0 < e <= |r| && !IsWhitespace(r[0]) && !IsWhitespace(r[e - 1])
    requires forall k :: 0 <= k < e ==> !IsLineTerminator(r[k])
    ensures CleanContent(r[..e])
  {
    var c := r[..e];
    assert c[0] == r[0] && c[e - 1] == r[e - 1];
    assert forall k :: 0 <= k < e ==> c[k] == r[k];
  }

  /** The character right before the first closing part is not whitespace. */
  lemma NotWsBeforeClosing(r: string, e: nat)
    requires 0 < e <= |r| && IsClosing(r[e..]) && !IsClosing(r[e - 1..])
    ensures !IsWhitespace(r[e - 1])
  {
    assert r[e - 1..][1..] == r[e..];
    ClosingAfterWs(r[e - 1..]);
  }

  /** Whitespace in front of a closing part belongs to it. */
  lemma ClosingAfterWs(s: string)
    requires s != [] && IsClosing(s[1..])
    ensures IsWhitespace(s[0]) ==> IsClosing(s)
  {
  }

  /** Content followed by a closing part, behind a recognised opening part, is a rendered line. */
  lemma ShapeOfParts(d0: DirectiveLayout, r: string, e: nat) returns (d: DirectiveLayout)
    requires WellFormed(d0) && e <= |r| && IsClosing(r[e..])
    ensures WellFormed(d) && Render(d, r[..e]) == OpenWith(d0, r)
  {
    var bc, ac, cd, tr := ClosingParts(r[e..]);
    assert r == r[..e] + Closing(bc, ac, cd, tr);
    d := DirectiveLayout(d0.lead, d0.openDash, d0.beforeComment, d0.beforeMeta, d0.afterMeta, bc, ac, cd, tr);
  }

  /** Soundness: a line that matches has the directive shape, with clean content. */
  lemma MatchSound(line: string)
    requires MatchDirective(line).Some?
    ensures CleanContent(MatchDirective(line).value)
    ensures exists d :: WellFormed(d) && Render(d, MatchDirective(line).value) == line
  {
    var r := AfterMeta(line).value;
    var d0 := AfterMetaParts(line);
    LazyGroupClean(r);
    var d := ShapeOfParts(d0, r, LazyGroup(r, 0).value);
  }

  /** A line that does not match has no layout that renders it with clean content. */
  lemma NoMatchMeansNoShape(line: string)
    requires MatchDirective(line).None?
    ensures forall d, c :: WellFormed(d) && CleanContent(c) ==> Render(d, c) != line
  {
    forall d, c | WellFormed(d) && CleanContent(c) ensures Render(d, c) != line {
      MatchRender(d, c);
    }
  }

  // The key/value list

  /** The directive; `base` is absent when no `base=<value>` pair with a non-empty value is given. */
  datatype MetaDirective = MetaDirective(base: Option<string>)

  /** The characters of the split pattern `[;,\s]+`. */
  predicate IsSeparator(c: char) {
    c == ';' || c == ',' || IsWhitespace(c)
  }

  /** The length of the run of non-separators that starts `s`. */
  function RunLength(s: string): (n: nat)
    ensures n <= |s|
    ensures forall k :: 0 <= k < n ==> !IsSeparator(s[k])
    ensures n < |s| ==> IsSeparator(s[n])
  {
    if s == [] || IsSeparator(s[0]) then 0 else 1 + RunLength(s[1..])
  }

  /** `content.split(/[;,\s]+/).filter((t) => t.length > 0)`: the maximal runs of non-separators. */
  function Tokens(s: string): (tokens: seq<string>)
    decreases |s|
  {
    if s == [] then []
    else if IsSeparator(s[0]) then Tokens(s[1..])
    else
      var n := RunLength(s);
      [s[..n]] + Tokens(s[n..])
  }

  /** Every token is non-empty and free of separators. */
  lemma {:induction false} TokensShape(s: string)
    ensures forall k :: 0 <= k < |Tokens(s)| ==>
      Tokens(s)[k] != [] && forall i :: 0 <= i < |Tokens(s)[k]| ==> !IsSeparator(Tokens(s)[k][i])
    decreases |s|
  {
    if s != [] {
      if IsSeparator(s[0]) {
        TokensShape(s[1..]);
      } else {
        TokensShape(s[RunLength(s)..]);
      }
    }
  }

  /** Any separator splits the token list in two: separators may be mixed freely. */
  lemma {:induction false} TokensAround(x: string, c: char, y: string)
    requires IsSeparator(c)
    ensures Tokens(x + [c] + y) == Tokens(x) + Tokens(y)
    decreases |x|
  {
    var s := x + [c] + y;
    if x == [] {
      assert s[1..] == y;
    } else if IsSeparator(x[0]) {
      assert s[1..] == x[1..] + [c] + y;
      TokensAround(x[1..], c, y);
    } else {
      var n := RunLength(s);
      assert RunLength(x) == n by {
        RunLengthPrefix(x, [c] + y);
        assert s == x + ([c] + y);
      }
      assert s[..n] == x[..n];
      assert s[n..] == x[n..] + [c] + y;
      TokensAround(x[n..], c, y);
    }
  }

  lemma {:induction false} RunLengthPrefix(x: string, rest: string)
    requires rest != [] && IsSeparator(rest[0])
    ensures RunLength(x + rest) == RunLength(x)
    decreases |x|
  {
    if x != [] && !IsSeparator(x[0]) {
      assert (x + rest)[1..] == x[1..] + rest;
      RunLengthPrefix(x[1..], rest);
    } else if x == [] {
      assert x + rest == rest;
    }
  }

  lemma {:induction false} RunLengthOfWord(w: string)
    requires forall i :: 0 <= i < |w| ==> !IsSeparator(w[i])
    ensures RunLength(w) == |w|
  {
    if w != [] {
      RunLengthOfWord(w[1..]);
    }
  }

  /** A word without separators is one token. */
  lemma WordIsOneToken(w: string)
    requires w != [] && forall i :: 0 <= i < |w| ==> !IsSeparator(w[i])
    ensures Tokens(w) == [w]
  {
    RunLengthOfWord(w);
    assert w[..|w|] == w;
    assert w[|w|..] == [];
  }

  /** The key of `token.split('=')`: the text before the first `=`. */
  function Key(token: string): string {
    Split(token, '=')[0]
  }

  /** `token` is a `base=<value>` pair with a non-empty value. */
  predicate IsBasePair(token: string) {
    var parts := Split(token, '=');
    parts[0] == "base" && |parts| > 1 && parts[1] != ""
  }

  /** The value of a pair: the text between the first and the second `=`. */
  function Value(token: string): string
    requires IsBasePair(token)
  {
    Split(token, '=')[1]
  }

  /** The base the key/value loop leaves set: the value of the last base pair, if any. */
  function LastBase(tokens: seq<string>): Option<string> {
    if tokens == [] then None
    else if IsBasePair(tokens[|tokens| - 1]) then Some(Value(tokens[|tokens| - 1]))
    else LastBase(tokens[..|tokens| - 1])
  }

  /** The directive `parseMetaDirective` returns for `line`. */
  function DirectiveOf(line: string): Option<MetaDirective> {
    match MatchDirective(line)
    case None => None
    case Some(content) => Some(MetaDirective(LastBase(Tokens(content))))
  }

  /**
   * parseMetaDirective: match the line, split the content into tokens and
   * let every `base=<non-empty>` token overwrite `directive.base`. The tokens
   * hold no whitespace, so trimming the key and the value changes nothing.
   */
  method ParseMetaDirective(line: string) returns (r: Option<MetaDirective>)
    ensures r == DirectiveOf(line)
  {
    var match_ := MatchDirective(line);
    if match_.None? {
      return None;
    }
    var content := match_.value;
    var base: Option<string> := None;
    var tokens := Tokens(content);
    for i := 0 to |tokens|
      invariant base == LastBase(tokens[..i])
    {
      var token := tokens[i];
      var parts := Split(token, '=');
      var key := parts[0];
      var value := if |parts| > 1 then parts[1] else "";
      assert tokens[..i + 1][..i] == tokens[..i];
      if key == "base" && value != "" {
        base := Some(value);
      }
    }
    assert tokens[..|tokens|] == tokens;
    return Some(MetaDirective(base));
  }

  /** The base stays unset exactly when no token is a base pair. */
  lemma {:induction false} LastBaseNone(tokens: seq<string>)
    ensures LastBase(tokens).None? <==> forall j :: 0 <= j < |tokens| ==> !IsBasePair(tokens[j])
  {
    if tokens != [] {
      var init := tokens[..|tokens| - 1];
      LastBaseNone(init);
      assert forall j :: 0 <= j < |init| ==> init[j] == tokens[j];
    }
  }

  /** The last base pair wins: the base is the value of a base pair that no later base pair follows. */
  lemma {:induction false} LastBaseWins(tokens: seq<string>)
    ensures LastBase(tokens).Some? ==>
      exists k :: 0 <= k < |tokens| && IsBasePair(tokens[k]) && LastBase(tokens).value == Value(tokens[k])
        && forall j :: k < j < |tokens| ==> !IsBasePair(tokens[j])
  {
    if tokens != [] && IsBasePair(tokens[|tokens| - 1]) {
      assert IsBasePair(tokens[|tokens| - 1]) && LastBase(tokens).value == Value(tokens[|tokens| - 1]);
    } else if tokens != [] {
      var init := tokens[..|tokens| - 1];
      LastBaseWins(init);
      if LastBase(init).Some? {
        var k :| 0 <= k < |init| && IsBasePair(init[k]) && LastBase(init).value == Value(init[k])
          && forall j :: k < j < |init| ==> !IsBasePair(init[j]);
        NoBasePairAfter(tokens, init, k);
      }
    }
  }

  /** A base pair at `k` of the tokens but the last stays the last one when the last token is no base pair. */
  lemma NoBasePairAfter(tokens: seq<string>, init: seq<string>, k: nat)
    requires tokens != [] && init == tokens[..|tokens| - 1] && k < |init|
    requires !IsBasePair(tokens[|tokens| - 1])
    requires forall j :: k < j < |init| ==> !IsBasePair(init[j])
    ensures init[k] == tokens[k]
    ensures forall j :: k < j < |tokens| ==> !IsBasePair(tokens[j])
  {
    assert forall j :: k < j < |init| ==> init[j] == tokens[j];
  }

  /** A stored base is non-empty and holds no separator and no `=`. */
  lemma BaseValueShape(line: string)
    requires DirectiveOf(line).Some? && DirectiveOf(line).value.base.Some?
    ensures var v := DirectiveOf(line).value.base.value;
      v != "" && forall i :: 0 <= i < |v| ==> !IsSeparator(v[i]) && v[i] != '='
  {
    var tokens := Tokens(MatchDirective(line).value);
    TokensShape(MatchDirective(line).value);
    LastBaseWins(tokens);
    var k :| 0 <= k < |tokens| && IsBasePair(tokens[k]) && LastBase(tokens).value == Value(tokens[k]);
    var token := tokens[k];
    assert forall i :: 0 <= i < |token| ==> !IsSeparator(token[i]);
    var v := Split(token, '=')[1];
    SplitPartsFrom(token, '=');
    forall i | 0 <= i < |v| ensures !IsSeparator(v[i]) {
      assert v[i] in Split(token, '=')[1];
      assert v[i] in token;
      var j :| 0 <= j < |token| && token[j] == v[i];
    }
  }

  /** A line of the directive shape always yields a directive. */
  lemma ShapeYieldsDirective(d: DirectiveLayout, c: string)
    requires WellFormed(d) && CleanContent(c)
    ensures DirectiveOf(Render(d, c)) == Some(MetaDirective(LastBase(Tokens(c))))
  {
    MatchRender(d, c);
  }

  // The layout without any whitespace or trim marker: `{{/*meta:` + content + `*/}}`.
  const Tight := DirectiveLayout("", false, "", "", "", "", "", false, "")

  lemma TightRender(c: string)
    ensures Render(Tight, c) == "{{/*meta:" + c + "*/}}"
  {
  }

  // The layout of the examples below: one space after `meta:`.
  const Spaced := Tight.(afterMeta := " ")

  /** A word: no separator and no `=`. */
  predicate IsWord(w: string) {
    forall i :: 0 <= i < |w| ==> !IsSeparator(w[i]) && w[i] != '='
  }

  /** `{{/*meta: c*/}}` yields the directive read from `c`. */
  lemma SpacedDirective(c: string, line: string)
    requires CleanContent(c) && line == "{{/*meta: " + c + "*/}}"
    ensures DirectiveOf(line) == Some(MetaDirective(LastBase(Tokens(c))))
  {
    assert Render(Spaced, c) == line;
    ShapeYieldsDirective(Spaced, c);
  }

  /** `key=value` made of words is one clean token, split into `key` and `value`. */
  lemma PairToken(key: string, value: string)
    requires key != [] && IsWord(key) && IsWord(value)
    ensures var c := key + "=" + value;
      && (forall i :: 0 <= i < |c| ==> !IsSeparator(c[i]))
      && CleanContent(c) && Tokens(c) == [c] && Split(c, '=') == [key, value]
  {
    var c := key + "=" + value;
    assert forall i :: 0 <= i < |c| ==> !IsSeparator(c[i]);
    WordIsOneToken(c);
    SplitExample(key, value);
  }

  /** `{{/*meta: base=V*/}}` gives base `V`, for any non-empty word `V`. */
  lemma BasePairGivesBase(value: string)
    requires value != [] && IsWord(value)
    ensures DirectiveOf("{{/*meta: base=" + value + "*/}}") == Some(MetaDirective(Some(value)))
  {
    var c := "base" + "=" + value;
    PairToken("base", value);
    assert [c][..0] == [];
    assert LastBase([c]) == Some(value);
    assert "{{/*meta: base=" + value + "*/}}" == "{{/*meta: " + c + "*/}}";
    SpacedDirective(c, "{{/*meta: base=" + value + "*/}}");
  }

  /** A pair with another key, such as `{{/*meta: other=value*/}}`, gives a directive without a base. */
  lemma OtherKeyGivesNoBase(key: string, value: string)
    requires key != [] && key != "base" && IsWord(key) && IsWord(value)
    ensures DirectiveOf("{{/*meta: " + key + "=" + value + "*/}}") == Some(MetaDirective(None))
  {
    var c := key + "=" + value;
    PairToken(key, value);
    assert [c][..0] == [];
    assert LastBase([c]) == None;
    assert "{{/*meta: " + key + "=" + value + "*/}}" == "{{/*meta: " + c + "*/}}";
    SpacedDirective(c, "{{/*meta: " + key + "=" + value + "*/}}");
  }

  /** `base` without `=` gives a directive without a base. */
  lemma BareBaseGivesNoBase()
    ensures DirectiveOf("{{/*meta: base*/}}") == Some(MetaDirective(None))
  {
    WordIsOneToken("base");
    assert IndexOf("base", '=') == None;
    assert ["base"][..0] == [];
    assert LastBase(["base"]) == None;
    SpacedDirective("base", "{{/*meta: base*/}}");
  }

  /** Two words separated by `;` or `,` and a space are two tokens. */
  lemma TwoTokens(first: string, sep: char, second: string)
    requires first != [] && second != []
    requires forall i :: 0 <= i < |first| ==> !IsSeparator(first[i])
    requires forall i :: 0 <= i < |second| ==> !IsSeparator(second[i])
    requires sep == ';' || sep == ','
    ensures Tokens(first + [sep] + " " + second) == [first, second]
  {
    WordIsOneToken(first);
    WordIsOneToken(second);
    TokensAround(first, sep, "");
    assert Tokens("") == [];
    assert first + [sep] + "" == first + [sep];
    TokensAround(first + [sep], ' ', second);
    assert first + [sep] + [' '] + second == first + [sep] + " " + second;
  }

  lemma TwoPairsLine(value: string, sep: char, key: string, v2: string)
    ensures "{{/*meta: base=" + value + [sep] + " " + key + "=" + v2 + "*/}}"
      == "{{/*meta: " + (("base" + "=" + value) + [sep] + " " + (key + "=" + v2)) + "*/}}"
  {
  }

  /** Two words joined by a separator and a space are clean content. */
  lemma CleanPairOfWords(first: string, sep: char, second: string)
    requires first != [] && second != []
    requires forall i :: 0 <= i < |first| ==> !IsSeparator(first[i])
    requires forall i :: 0 <= i < |second| ==> !IsSeparator(second[i])
    requires sep == ';' || sep == ','
    ensures CleanContent(first + [sep] + " " + second)
  {
    var c := first + [sep] + " " + second;
    forall i | 0 <= i < |c| ensures !IsLineTerminator(c[i]) {
      if i < |first| {
        assert c[i] == first[i];
      } else if i >= |first| + 2 {
        assert c[i] == second[i - |first| - 2];
      }
    }
    assert c[|c| - 1] == second[|second| - 1];
  }

  /** A base pair followed by a pair with another key leaves the first pair's value. */
  lemma LastBaseOfTwo(first: string, second: string)
    requires IsBasePair(first) && !IsBasePair(second)
    ensures LastBase([first, second]) == Some(Value(first))
  {
    assert [first, second][..1] == [first];
    assert [first][..0] == [];
  }

  /** `{{/*meta: base=V; K=W*/}}` (or with `,`) gives base `V`: other pairs are ignored. */
  lemma SecondPairIgnored(value: string, sep: char, key: string, v2: string)
    requires value != [] && IsWord(value) && key != [] && key != "base" && IsWord(key) && IsWord(v2)
    requires sep == ';' || sep == ','
    ensures DirectiveOf("{{/*meta: base=" + value + [sep] + " " + key + "=" + v2 + "*/}}")
      == Some(MetaDirective(Some(value)))
  {
    var first := "base" + "=" + value;
    var second := key + "=" + v2;
    var c := first + [sep] + " " + second;
    PairToken("base", value);
    PairToken(key, v2);
    TwoTokens(first, sep, second);
    LastBaseOfTwo(first, second);
    CleanPairOfWords(first, sep, second);
    TwoPairsLine(value, sep, key, v2);
    SpacedDirective(c, "{{/*meta: " + c + "*/}}");
  }

  /** Plain text is not a directive. */
  lemma PlainTextIsNoDirective()
    ensures DirectiveOf("not a directive") == None
  {
    assert SkipWs("not a directive") == "not a directive";
  }

  lemma SplitExample(key: string, value: string)
    requires '=' !in key && '=' !in value
    ensures Split(key + "=" + value, '=') == [key, value]
  {
    JoinSplit([key, value], '=');
    assert JoinWith([key, value], '=') == key + ['='] + JoinWith([value], '=');
  }

  // ---------------------------------------------------------------------------
  // Choosing the line

  /** getFirstLine: the text before the first `\n`, or the whole text. */
  function GetFirstLine(text: string): (r: string)
    ensures StartsWith(text, r) && '\n' !in r
    ensures |r| < |text| ==> text[|r|] == '\n'
  {
    match IndexOf(text, '\n')
    case None => text
    case Some(i) => text[..i]
  }

  /**
   * The first piece of `text.split(/\r?\n/)`, and the text after its line
   * break when there is one. The leftmost match of `\r?\n` starts at the `\r`
   * right before the first `\n`, if there is one.
   */
  function FirstLine(text: string): (r: (string, Option<string>))
    ensures r.1.None? ==> r.0 == text
    ensures r.1.Some? ==> exists eol :: (eol == "\n" || eol == "\r\n") && text == r.0 + eol + r.1.value
    ensures '\n' !in r.0
    ensures r.1.Some? ==>
      var i := |text| - |r.1.value| - 1;
      && 0 <= i < |text| && text[i] == '\n' && '\n' !in text[..i]
      && r.0 == (if i > 0 && text[i - 1] == '\r' then text[..i - 1] else text[..i])
  {
    match IndexOf(text, '\n')
    case None => (text, None)
    case Some(i) =>
      var lineEnd := if i > 0 && text[i - 1] == '\r' then i - 1 else i;
      var r := (text[..lineEnd], Some(text[i + 1..]));
      assert text == r.0 + (if lineEnd < i then "\r\n" else "\n") + r.1.value;
      r
  }

  /** The line the directive is read from: line 0, or line 1 (empty if missing) when line 0 is a shebang. */
  function CandidateLine(text: string): string {
    var (line0, rest) := FirstLine(text);
    if StartsWith(line0, "#!") then
      (match rest case None => "" case Some(after) => FirstLine(after).0)
    else line0
  }

  /**
   * parseDirectiveFromText: the directive of line 0, or of line 1 when line 0 is a shebang.
   * A text without a line break is its own line 0, a trailing `\r` included.
   */
  function ParseDirectiveFromText(text: string): (r: Option<MetaDirective>)
    ensures '\n' !in text ==> r == (if StartsWith(text, "#!") then None else DirectiveOf(text))
    ensures var (line0, rest) := FirstLine(text);
      StartsWith(line0, "#!") && rest.Some? && '\n' !in rest.value ==> r == DirectiveOf(rest.value)
  {
    assert AfterMeta("") == None;
    DirectiveOf(CandidateLine(text))
  }

  /** getFirstLine and the first piece of the split agree, but for the `\r` of a `\r\n` break, which the split drops. */
  lemma FirstLineAgrees(text: string)
    ensures var g := GetFirstLine(text);
      FirstLine(text).0 == (if g != [] && g[|g| - 1] == '\r' && |g| < |text| then g[..|g| - 1] else g)
  {
  }

  /** A line, one of the two line breaks and the rest: the split cuts at that break. */
  lemma FirstLineOf(line: string, eol: string, rest: string)
    requires '\n' !in line && (eol == "\n" || eol == "\r\n")
    requires eol == "\n" ==> line == [] || line[|line| - 1] != '\r'
    ensures FirstLine(line + eol + rest) == (line, Some(rest))
  {
    var text := line + eol + rest;
    if eol == "\n" {
      IndexOfFirst(line, '\n', rest);
      assert text[..|line|] == line;
    } else {
      var x := line + ['\r'];
      assert text == x + ['\n'] + rest;
      IndexOfFirst(x, '\n', rest);
      assert text[|line|] == '\r';
      assert text[..|line|] == line;
    }
    assert text[|line| + |eol|..] == rest;
  }

  /**
   * Without a shebang, only the first line is consulted, whatever follows it. The line may
   * also be the whole text (`eol` and `rest` empty).
   */
  lemma OnlyFirstLineConsulted(line0: string, eol: string, rest: string)
    requires '\n' !in line0 && (eol == "\n" || eol == "\r\n" || eol == "")
    requires eol == "\n" ==> line0 == [] || line0[|line0| - 1] != '\r'
    requires eol == "" ==> rest == ""
    requires !StartsWith(line0, "#!")
    ensures ParseDirectiveFromText(line0 + eol + rest) == DirectiveOf(line0)
  {
    if eol == "" {
      assert line0 + eol + rest == line0;
    } else {
      FirstLineOf(line0, eol, rest);
    }
  }

  /**
   * After a shebang, only the second line is consulted, whatever follows it, with either line
   * break. The second line may also be the last (`eol1` and `rest` empty).
   */
  lemma SecondLineAfterShebang(line0: string, eol0: string, line1: string, eol1: string, rest: string)
    requires '\n' !in line0 && (eol0 == "\n" || eol0 == "\r\n")
    requires eol0 == "\n" ==> line0 == [] || line0[|line0| - 1] != '\r'
    requires '\n' !in line1 && (eol1 == "\n" || eol1 == "\r\n" || eol1 == "")
    requires eol1 == "\n" ==> line1 == [] || line1[|line1| - 1] != '\r'
    requires eol1 == "" ==> rest == ""
    requires StartsWith(line0, "#!")
    ensures ParseDirectiveFromText(line0 + eol0 + line1 + eol1 + rest) == DirectiveOf(line1)
  {
    var after := line1 + eol1 + rest;
    assert line0 + eol0 + line1 + eol1 + rest == line0 + eol0 + after;
    FirstLineOf(line0, eol0, after);
    if eol1 == "" {
      assert after == line1;
    } else {
      FirstLineOf(line1, eol1, rest);
    }
  }

  /** A shebang line with nothing after it gives no directive. */
  lemma ShebangAloneGivesNone(line0: string)
    requires '\n' !in line0 && StartsWith(line0, "#!")
    ensures ParseDirectiveFromText(line0) == None
  {
    assert AfterMeta("") == None;
  }
}
