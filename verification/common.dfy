/**
 * Helpers shared by the modules of the model: an optional value, the character
 * classes that JavaScript regular expressions use, and searches in sequences.
 */
module Common {

  datatype Option<+T> = None | Some(value: T)

  /** The characters JavaScript's `\s` class (and `String.prototype.trim`) accepts. */
  predicate IsWhitespace(c: char) {
    || c == '\t' || c == '\n' || c == '\U{000B}' || c == '\U{000C}' || c == '\r' || c == ' '
    || c == '\U{00A0}' || c == '\U{1680}' || ('\U{2000}' <= c <= '\U{200A}')
    || c == '\U{2028}' || c == '\U{2029}' || c == '\U{202F}' || c == '\U{205F}'
    || c == '\U{3000}' || c == '\U{FEFF}'
  }

  /** The characters JavaScript's `.` does not match (without the `s` flag). */
  predicate IsLineTerminator(c: char) {
    c == '\n' || c == '\r' || c == '\U{2028}' || c == '\U{2029}'
  }

  /** Every character of `s` is whitespace (stated recursively, see `AllWhitespaceAt`). */
  predicate AllWhitespace(s: string) {
    s == [] || (IsWhitespace(s[0]) && AllWhitespace(s[1..]))
  }

  lemma {:induction false} AllWhitespaceAt(s: string)
    ensures AllWhitespace(s) <==> forall k :: 0 <= k < |s| ==> IsWhitespace(s[k])
  {
    if s != [] {
      AllWhitespaceAt(s[1..]);
      assert forall k :: 1 <= k < |s| ==> s[k] == s[1..][k - 1];
    }
  }

  predicate StartsWith<T(==)>(s: seq<T>, prefix: seq<T>) {
    |prefix| <= |s| && s[..|prefix|] == prefix
  }

  /** `pat` occurs in `s` starting at index `i`. */
  predicate OccursAt<T(==)>(s: seq<T>, pat: seq<T>, i: int) {
    0 <= i && i + |pat| <= |s| && s[i..i + |pat|] == pat
  }

  /** Whether `pat` occurs in `s` at some index `from` or later. */
  function IncludesFrom<T(==)>(s: seq<T>, pat: seq<T>, from: nat): (r: bool)
    decreases |s| - from
    ensures r <==> exists i :: from <= i && OccursAt(s, pat, i)
  {
    if OccursAt(s, pat, from) then true
    else if from + |pat| >= |s| then false
    else IncludesFrom(s, pat, from + 1)
  }

  /** JavaScript's `s.includes(pat)`. */
  function Includes<T(==)>(s: seq<T>, pat: seq<T>): (r: bool)
    ensures r <==> exists i :: OccursAt(s, pat, i)
  {
    IncludesFrom(s, pat, 0)
  }

  /** The first index at or after `from` holding `x`. */
  function IndexOfFrom<T(==)>(s: seq<T>, x: T, from: nat): (r: Option<nat>)
    decreases |s| - from
    ensures r.Some? ==> from <= r.value < |s| && s[r.value] == x
    ensures forall k :: from <= k < |s| && (r.None? || k < r.value) ==> s[k] != x
  {
    if from >= |s| then None
    else if s[from] == x then Some(from)
    else IndexOfFrom(s, x, from + 1)
  }

  /** JavaScript's `indexOf` on arrays and strings, with `None` for -1. */
  function IndexOf<T(==)>(s: seq<T>, x: T): (r: Option<nat>)
    ensures r.Some? ==> r.value < |s| && s[r.value] == x
    ensures r.None? <==> x !in s
    ensures forall k :: 0 <= k < |s| && (r.None? || k < r.value) ==> s[k] != x
  {
    IndexOfFrom(s, x, 0)
  }

  /** The number of occurrences of `c` in `s`. */
  function Count<T(==)>(s: seq<T>, x: T): nat
  {
    if s == [] then 0 else Count(s[..|s| - 1], x) + (if s[|s| - 1] == x then 1 else 0)
  }

  lemma {:induction false} CountAppend<T>(a: seq<T>, b: seq<T>, x: T)
    ensures Count(a + b, x) == Count(a, x) + Count(b, x)
  {
    if b != [] {
      CountAppend(a, b[..|b| - 1], x);
      assert (a + b)[..|a + b| - 1] == a + b[..|b| - 1];
    } else {
      assert a + b == a;
    }
  }

  /** JavaScript's `s.split(sep)` for a one-element separator: the pieces between separators. */
  function Split<T(==)>(s: seq<T>, sep: T): (parts: seq<seq<T>>)
    decreases |s|
    ensures |parts| >= 1
    ensures forall k :: 0 <= k < |parts| ==> sep !in parts[k]
  {
    match IndexOf(s, sep)
    case None => [s]
    case Some(i) => [s[..i]] + Split(s[i + 1..], sep)
  }

  /** `parts.join(sep)`. */
  function JoinWith<T>(parts: seq<seq<T>>, sep: T): seq<T>
    requires |parts| >= 1
  {
    if |parts| == 1 then parts[0] else parts[0] + [sep] + JoinWith(parts[1..], sep)
  }

  /** Splitting and joining again gives back the sequence, and there is one more piece than separators. */
  lemma {:induction false} SplitJoin<T>(s: seq<T>, sep: T)
    ensures JoinWith(Split(s, sep), sep) == s
    ensures |Split(s, sep)| == Count(s, sep) + 1
    decreases |s|
  {
    match IndexOf(s, sep)
    case None =>
      CountNone(s, sep);
    case Some(i) =>
      SplitJoin(s[i + 1..], sep);
      var parts := Split(s, sep);
      assert parts[1..] == Split(s[i + 1..], sep);
      assert s == s[..i] + [sep] + s[i + 1..];
      CountAppend(s[..i] + [sep], s[i + 1..], sep);
      CountAppend(s[..i], [sep], sep);
      CountNone(s[..i], sep);
      assert Count([sep], sep) == 1;
  }

  lemma {:induction false} CountNone<T>(s: seq<T>, x: T)
    requires x !in s
    ensures Count(s, x) == 0
  {
    if s != [] {
      CountNone(s[..|s| - 1], x);
    }
  }

  /** Splitting a piece free of the separator, the separator and the rest: the piece, then the pieces of the rest. */
  lemma SplitCons<T>(p: seq<T>, sep: T, rest: seq<T>)
    requires sep !in p
    ensures Split(p + [sep] + rest, sep) == [p] + Split(rest, sep)
  {
    var s := p + [sep] + rest;
    IndexOfFirst(p, sep, rest);
    assert s[..|p|] == p;
    assert s[|p| + 1..] == rest;
  }

  /** Joining pieces free of the separator and splitting again gives back the pieces. */
  lemma {:induction false} JoinSplit<T>(parts: seq<seq<T>>, sep: T)
    requires |parts| >= 1
    requires forall k :: 0 <= k < |parts| ==> sep !in parts[k]
    ensures Split(JoinWith(parts, sep), sep) == parts
    decreases |parts|
  {
    if |parts| > 1 {
      JoinSplit(parts[1..], sep);
      SplitCons(parts[0], sep, JoinWith(parts[1..], sep));
      assert parts == [parts[0]] + parts[1..];
    } else {
      assert IndexOf(parts[0], sep).None?;
    }
  }

  /** The first `x` in `a + [x] + b`, when `a` holds none, is right after `a`. */
  lemma IndexOfFirst<T>(a: seq<T>, x: T, b: seq<T>)
    requires x !in a
    ensures IndexOf(a + [x] + b, x) == Some(|a|)
  {
    var s := a + [x] + b;
    assert s[|a|] == x;
    assert forall k :: 0 <= k < |a| ==> s[k] == a[k];
  }

  /** Every element of every piece of `Split(s, sep)` is an element of `s`. */
  lemma {:induction false} SplitPartsFrom<T>(s: seq<T>, sep: T)
    ensures forall k, y :: 0 <= k < |Split(s, sep)| && y in Split(s, sep)[k] ==> y in s
    decreases |s|
  {
    match IndexOf(s, sep)
    case None =>
    case Some(i) =>
      SplitPartsFrom(s[i + 1..], sep);
      var parts := Split(s, sep);
      assert parts == [s[..i]] + Split(s[i + 1..], sep);
      forall k, y | 0 <= k < |parts| && y in parts[k] ensures y in s {
        if k == 0 {
          assert y in s[..i];
        } else {
          assert parts[k] == Split(s[i + 1..], sep)[k - 1];
          assert y in s[i + 1..];
        }
      }
  }
}
