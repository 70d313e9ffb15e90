/**
 * JavaScript strings as the page script sees them: sequences of UTF-16 code
 * units. A regular expression without the `u` flag and `String.prototype.trim`
 * both work over these units.
 */
module JsString {

  /** One UTF-16 code unit. */
  type CodeUnit = u: int | 0 <= u < 0x1_0000

  /** A JavaScript string value. */
  type JsStr = seq<CodeUnit>

  /** True for the two halves of a surrogate pair (U+D800 to U+DFFF). */
  predicate IsSurrogate(u: CodeUnit) {
    0xD800 <= u < 0xE000
  }

  /**
   * The UTF-16 encoding of one Unicode scalar value: one unit below U+10000,
   * otherwise a high surrogate followed by a low surrogate.
   */
  function EncodeChar(c: char): (r: JsStr)
    ensures |r| == if c as int < 0x1_0000 then 1 else 2
    ensures |r| == 1 ==> r[0] == c as int && !IsSurrogate(r[0])
    ensures |r| == 2 ==> 0xD800 <= r[0] < 0xDC00 && 0xDC00 <= r[1] < 0xE000
  {
    var v := c as int;
    if v < 0x1_0000 then [v]
    else
      var w := v - 0x1_0000;
      [0xD800 + w / 0x400, 0xDC00 + w % 0x400]
  }

  /**
   * The UTF-16 encoding of a string whose characters all lie in the Basic
   * Multilingual Plane: one unit per character, the literals of this model.
   */
  function BmpUnits(s: string): (r: JsStr)
    requires forall i :: 0 <= i < |s| ==> s[i] as int < 0x1_0000
    ensures |r| == |s| && forall i :: 0 <= i < |s| ==> [r[i]] == EncodeChar(s[i])
  {
    seq(|s|, i requires 0 <= i < |s| => s[i] as int)
  }

  /**
   * ECMAScript WhiteSpace and LineTerminator: TAB, VT, FF, ZWNBSP, every
   * code point of Unicode category Zs, and LF, CR, LS, PS. All of them are
   * single code units outside the surrogate range.
   */
  predicate IsWhitespace(u: CodeUnit) {
    u == 0x09 || u == 0x0B || u == 0x0C || u == 0xFEFF                  // TAB VT FF ZWNBSP
    || u == 0x20 || u == 0xA0 || u == 0x1680 || 0x2000 <= u <= 0x200A    // Zs
    || u == 0x202F || u == 0x205F || u == 0x3000                          // Zs
    || u == 0x0A || u == 0x0D || u == 0x2028 || u == 0x2029              // LF CR LS PS
  }

  /** True when every unit of `s` is white space (so also for the empty string). */
  predicate AllWhitespace(s: JsStr) {
    forall i :: 0 <= i < |s| ==> IsWhitespace(s[i])
  }

  /** Leading white space removed: the result is the suffix of `s` that starts at its first other unit. */
  function TrimStart(s: JsStr): (r: JsStr)
    ensures |r| <= |s| && r == s[|s| - |r|..]
    ensures AllWhitespace(s[..|s| - |r|])
    ensures r == [] || !IsWhitespace(r[0])
  {
    if s == [] || !IsWhitespace(s[0]) then s
    else
      var t := TrimStart(s[1..]);
      assert s[..|s| - |t|] == [s[0]] + s[1..][..|s[1..]| - |t|];
      t
  }

  /** Trailing white space removed: the result is the prefix of `s` that ends at its last other unit. */
  function TrimEnd(s: JsStr): (r: JsStr)
    ensures |r| <= |s| && r == s[..|r|]
    ensures AllWhitespace(s[|r|..])
    ensures r == [] || !IsWhitespace(r[|r| - 1])
  {
    if s == [] || !IsWhitespace(s[|s| - 1]) then s
    else
      var t := TrimEnd(s[..|s| - 1]);
      assert s[|t|..] == s[..|s| - 1][|t|..] + [s[|s| - 1]];
      t
  }

  /**
   * `String.prototype.trim`: white space removed from both ends. The result
   * is empty, so falsy, exactly when every unit of `s` is white space.
   */
  function Trim(s: JsStr): (r: JsStr)
    ensures r == [] <==> AllWhitespace(s)
  {
    TrimEnd(TrimStart(s))
  }

  /** Trimming twice is trimming once. */
  lemma TrimIdempotent(s: JsStr)
    ensures Trim(Trim(s)) == Trim(s)
  {
  }
}
