/** The kinds of Go-template tokens, in the order that gives each its numeric value. */
module TokenTypes {

  datatype TokenType =
    | GoTemplate | Begin | End | Comment | RawString | String | Variable | Assignment
    | Pipe | Property | Control | Builtin | StringEscape | UnknownEscape | Placeholder | Number

  /** The number of enum members. */
  const TokenTypeCount: nat := 16

  /** The numeric value TypeScript gives the member: its position in the declaration. */
  function Ordinal(t: TokenType): (n: nat)
    ensures n < TokenTypeCount
  {
    match t
    case GoTemplate => 0
    case Begin => 1
    case End => 2
    case Comment => 3
    case RawString => 4
    case String => 5
    case Variable => 6
    case Assignment => 7
    case Pipe => 8
    case Property => 9
    case Control => 10
    case Builtin => 11
    case StringEscape => 12
    case UnknownEscape => 13
    case Placeholder => 14
    case Number => 15
  }

  /** The member with a given numeric value (the enum's reverse mapping). */
  function FromOrdinal(n: nat): (t: TokenType)
    requires n < TokenTypeCount
    ensures Ordinal(t) == n
  {
    [GoTemplate, Begin, End, Comment, RawString, String, Variable, Assignment,
     Pipe, Property, Control, Builtin, StringEscape, UnknownEscape, Placeholder, Number][n]
  }

  /** Distinct members have distinct values, so the values name the members. */
  lemma OrdinalRoundTrip(t: TokenType)
    ensures FromOrdinal(Ordinal(t)) == t
  {
  }

  /** The member's identifier, the name the legend lists it under: a non-empty word starting in lower case. */
  function Name(t: TokenType): (r: string)
    ensures r != [] && 'a' <= r[0] <= 'z'
  {
    match t
    case GoTemplate => "goTemplate"
    case Begin => "begin"
    case End => "end"
    case Comment => "comment"
    case RawString => "rawString"
    case String => "string"
    case Variable => "variable"
    case Assignment => "assignment"
    case Pipe => "pipe"
    case Property => "property"
    case Control => "control"
    case Builtin => "builtin"
    case StringEscape => "stringEscape"
    case UnknownEscape => "unknownEscape"
    case Placeholder => "placeholder"
    case Number => "number"
  }

  /** No two members share a name. */
  lemma NameInjective(t: TokenType, u: TokenType)
    ensures Name(t) == Name(u) <==> t == u
  {
  }
}
