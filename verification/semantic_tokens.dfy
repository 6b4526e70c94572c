/**
 * The editor's semantic-token vocabulary as the extension uses it: a legend of
 * type and modifier names, modifier bitsets, the list of tokens a builder has
 * been given, and the relative integer encoding a built result carries (the
 * Semantic Tokens section of the Language Server Protocol 3.16).
 */
module SemanticTokens {
  import opened Common

  datatype Legend = Legend(tokenTypes: seq<string>, tokenModifiers: seq<string>)

  /** One `builder.push(line, char, length, tokenType, tokenModifiers)`, with `char` as `column`. */
  datatype PushedToken = PushedToken(line: int, column: int, length: int, tokenType: int, tokenModifiers: int)

  // ---------------------------------------------------------------------------
  // Modifier bitsets
  //
  // A bitset is held as the set of its bit positions (all below 32); its value
  // is the unsigned 32-bit number those bits make.

  /** JavaScript's `1 << n`: the shift count is taken modulo 32, so `1 << -1` is the top bit. */
  function Shl1(n: int): (bits: set<nat>)
    ensures |bits| == 1 && forall i :: i in bits ==> i < 32
  {
    {n % 32}
  }

  /** The bit a modifier name contributes: the bit of its legend index, none when it is not in the legend. */
  function ModifierBit(m: string, legendModifiers: seq<string>): set<nat> {
    match IndexOf(legendModifiers, m)
    case Some(idx) => Shl1(idx)
    case None => {}
  }

  /** `bits |= 1 << indexOf(mod)` over the known modifiers, in order. */
  function ModifierBits(mods: seq<string>, legendModifiers: seq<string>): set<nat> {
    if mods == [] then {}
    else ModifierBits(mods[..|mods| - 1], legendModifiers) + ModifierBit(mods[|mods| - 1], legendModifiers)
  }

  /** Bit `i` is set exactly when some modifier sits at a legend index congruent to `i` modulo 32. */
  lemma {:induction false} ModifierBitsExactly(mods: seq<string>, legendModifiers: seq<string>, i: nat)
    ensures i in ModifierBits(mods, legendModifiers) <==>
      exists k :: 0 <= k < |mods| && IndexOf(legendModifiers, mods[k]).Some?
        && IndexOf(legendModifiers, mods[k]).value % 32 == i
    decreases |mods|
  {
    if mods != [] {
      var init := mods[..|mods| - 1];
      ModifierBitsExactly(init, legendModifiers, i);
      assert forall k :: 0 <= k < |init| ==> init[k] == mods[k];
      if i in ModifierBits(mods, legendModifiers) && i !in ModifierBits(init, legendModifiers) {
        assert IndexOf(legendModifiers, mods[|mods| - 1]).Some?;
      }
    }
  }

  /** A modifier the legend does not know leaves the bitset as it is. */
  lemma UnknownModifierAddsNothing(mods: seq<string>, m: string, legendModifiers: seq<string>)
    requires m !in legendModifiers
    ensures ModifierBits(mods + [m], legendModifiers) == ModifierBits(mods, legendModifiers)
  {
    assert (mods + [m])[..|mods|] == mods;
  }

  function Pow2(n: nat): (p: nat)
    ensures p >= 1
  {
    if n == 0 then 1 else 2 * Pow2(n - 1)
  }

  /** The number the bits below `n` make. */
  function ValueBelow(bits: set<nat>, n: nat): (v: nat)
    ensures v < Pow2(n)
  {
    if n == 0 then 0 else ValueBelow(bits, n - 1) + (if n - 1 in bits then Pow2(n - 1) else 0)
  }

  /** The unsigned 32-bit value of a bitset, as it is stored. */
  function BitsValue(bits: set<nat>): (v: nat)
    ensures v < 0x1_0000_0000
  {
    Pow2Of32();
    ValueBelow(bits, 32)
  }

  lemma {:induction false} Pow2Add(a: nat, b: nat)
    ensures Pow2(a + b) == Pow2(a) * Pow2(b)
  {
    if b > 0 {
      Pow2Add(a, b - 1);
    }
  }

  lemma Pow2Of32()
    ensures Pow2(32) == 0x1_0000_0000
  {
    assert Pow2(2) == 4;
    Pow2Add(2, 2);
    assert Pow2(4) == 16;
    Pow2Add(4, 4);
    assert Pow2(8) == 256;
    Pow2Add(8, 8);
    assert Pow2(16) == 65536;
    Pow2Add(16, 16);
  }

  /** A single bit `i` has the value 2^i. */
  lemma {:induction false} SingleBitValue(i: nat, n: nat)
    requires i < n
    ensures ValueBelow({i}, n) == Pow2(i)
  {
    if n - 1 > i {
      SingleBitValue(i, n - 1);
    } else {
      NoBitsBelow({i}, i);
    }
  }

  lemma {:induction false} NoBitsBelow(bits: set<nat>, n: nat)
    requires forall j :: j in bits ==> j >= n
    ensures ValueBelow(bits, n) == 0
  {
    if n > 0 {
      NoBitsBelow(bits, n - 1);
    }
  }

  // ---------------------------------------------------------------------------
  // Relative encoding

  /**
   * Five integers per token: line delta, start delta (relative to the previous
   * token's start on the same line, absolute after a line change), length,
   * type index and modifier bits; the first token is relative to (0, 0).
   */
  function EncodeFrom(ts: seq<PushedToken>, prevLine: int, prevColumn: int): (data: seq<int>)
    ensures |data| == 5 * |ts|
  {
    if ts == [] then []
    else
      var t := ts[0];
      var deltaLine := t.line - prevLine;
      var deltaColumn := if deltaLine == 0 then t.column - prevColumn else t.column;
      [deltaLine, deltaColumn, t.length, t.tokenType, t.tokenModifiers] + EncodeFrom(ts[1..], t.line, t.column)
  }

  function Encode(ts: seq<PushedToken>): (data: seq<int>)
    ensures |data| == 5 * |ts|
  {
    EncodeFrom(ts, 0, 0)
  }

  /** Reading the tokens back from the encoding, five integers at a time. */
  function DecodeFrom(data: seq<int>, prevLine: int, prevColumn: int): seq<PushedToken>
    decreases |data|
  {
    if |data| < 5 then []
    else
      var line := prevLine + data[0];
      var column := if data[0] == 0 then prevColumn + data[1] else data[1];
      [PushedToken(line, column, data[2], data[3], data[4])] + DecodeFrom(data[5..], line, column)
  }

  function Decode(data: seq<int>): seq<PushedToken> {
    DecodeFrom(data, 0, 0)
  }

  lemma {:induction false} DecodeEncodeFrom(ts: seq<PushedToken>, prevLine: int, prevColumn: int)
    ensures DecodeFrom(EncodeFrom(ts, prevLine, prevColumn), prevLine, prevColumn) == ts
  {
    if ts != [] {
      DecodeEncodeFrom(ts[1..], ts[0].line, ts[0].column);
      var data := EncodeFrom(ts, prevLine, prevColumn);
      assert data[5..] == EncodeFrom(ts[1..], ts[0].line, ts[0].column);
    }
  }

  /** The encoding loses nothing: decoding it gives back the pushed tokens. */
  lemma DecodeEncode(ts: seq<PushedToken>)
    ensures Decode(Encode(ts)) == ts
  {
    DecodeEncodeFrom(ts, 0, 0);
  }

  /** `p` comes no later than `q` in document order. */
  predicate NotAfter(p: PushedToken, q: PushedToken) {
    p.line < q.line || (p.line == q.line && p.column <= q.column)
  }

  predicate SortedByPosition(ts: seq<PushedToken>) {
    forall k :: 0 < k < |ts| ==> NotAfter(ts[k - 1], ts[k])
  }

  predicate NonNegative(t: PushedToken) {
    t.line >= 0 && t.column >= 0 && t.length >= 0 && t.tokenType >= 0 && t.tokenModifiers >= 0
  }

  /**
   * Tokens in document order, with non-negative fields, encode to non-negative
   * integers only, so the unsigned 32-bit storage holds them unchanged
   * (provided they are below 2^32).
   */
  lemma {:induction false} SortedEncodingIsNonNegative(ts: seq<PushedToken>, prevLine: int, prevColumn: int)
    requires SortedByPosition(ts) && forall k :: 0 <= k < |ts| ==> NonNegative(ts[k])
    requires ts != [] ==> prevLine < ts[0].line || (prevLine == ts[0].line && prevColumn <= ts[0].column)
    ensures forall k :: 0 <= k < |EncodeFrom(ts, prevLine, prevColumn)| ==> EncodeFrom(ts, prevLine, prevColumn)[k] >= 0
  {
    if ts != [] {
      var rest := ts[1..];
      assert SortedByPosition(rest) by {
        assert forall k :: 0 < k < |rest| ==> rest[k - 1] == ts[k] && rest[k] == ts[k + 1];
      }
      assert forall k :: 0 <= k < |rest| ==> rest[k] == ts[k + 1];
      assert rest != [] ==> NotAfter(ts[0], ts[1]);
      SortedEncodingIsNonNegative(rest, ts[0].line, ts[0].column);
    }
  }

  // ---------------------------------------------------------------------------
  // Results

  /**
   * A built result: the tokens pushed, in push order, and their encoding. It is
   * an object, so that a cached result can be handed out again as the very
   * same one.
   */
  class SemanticTokensResult {
    const tokens: seq<PushedToken>

    constructor (pushed: seq<PushedToken>)
      ensures tokens == pushed
    {
      tokens := pushed;
    }

    /** The integers the editor receives: the encoding of the pushes, from which they read back unchanged. */
    function Data(): (data: seq<int>)
      ensures data == Encode(tokens)
      ensures Decode(data) == tokens
    {
      DecodeEncode(tokens);
      Encode(tokens)
    }
  }
}
