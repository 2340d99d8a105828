/** The draft guard of the chat page tests `input.trim()` for emptiness.
    ECMAScript's `String.prototype.trim` strips, from both ends, every
    character of the WhiteSpace and LineTerminator productions. */
module Whitespace {

  /** WhiteSpace (TAB, VT, FF, SPACE, NO-BREAK SPACE, ZERO WIDTH NO-BREAK SPACE
      and the Unicode space separators) or LineTerminator (LF, CR, LINE
      SEPARATOR, PARAGRAPH SEPARATOR). Each of them is a single UTF-16 code
      unit, so the set is the same whether a string is read as code units or
      as scalar values. */
  predicate IsWhitespace(c: char): (r: bool)
    ensures r ==> c as int < 0x10000
  {
    var n := c as int;
    n == 0x09 || n == 0x0A || n == 0x0B || n == 0x0C || n == 0x0D ||
    n == 0x20 || n == 0xA0 || n == 0x1680 ||
    (0x2000 <= n <= 0x200A) ||
    n == 0x2028 || n == 0x2029 || n == 0x202F || n == 0x205F ||
    n == 0x3000 || n == 0xFEFF
  }

  /** Every character of `s` is whitespace (the empty string included). */
  predicate IsBlank(s: seq<char>)
  {
    forall i :: 0 <= i < |s| ==> IsWhitespace(s[i])
  }

  /** Leading whitespace removed: the result is the suffix of `s` that starts
      at its first non-whitespace character. */
  function TrimStart(s: seq<char>): (r: seq<char>)
    ensures |r| <= |s| && r == s[|s| - |r|..]
    ensures IsBlank(s[..|s| - |r|])
    ensures r != [] ==> !IsWhitespace(r[0])
  {
    if s != [] && IsWhitespace(s[0]) then TrimStart(s[1..]) else s
  }

  /** Trailing whitespace removed: the result is the prefix of `s` that ends
      at its last non-whitespace character. */
  function TrimEnd(s: seq<char>): (r: seq<char>)
    ensures |r| <= |s| && r == s[..|r|]
    ensures IsBlank(s[|r|..])
    ensures r != [] ==> !IsWhitespace(r[|r| - 1])
  {
    if s != [] && IsWhitespace(s[|s| - 1]) then TrimEnd(s[..|s| - 1]) else s
  }

  /** `s.trim()`: the piece of `s` left after its maximal all-whitespace
      prefix and suffix are cut off. */
  function Trim(s: seq<char>): (r: seq<char>)
    ensures |r| <= |s|
    ensures exists k :: (0 <= k <= |s| - |r| && r == s[k..k + |r|] &&
                         IsBlank(s[..k]) && IsBlank(s[k + |r|..]))
    ensures r != [] ==> !IsWhitespace(r[0]) && !IsWhitespace(r[|r| - 1])
  {
    var t := TrimStart(s);
    var r := TrimEnd(t);
    var k := |s| - |t|;
    assert t == s[k..];
    assert r == s[k..k + |r|];
    assert t[|r|..] == s[k + |r|..];
    assert IsBlank(s[..k]) && IsBlank(s[k + |r|..]);
    r
  }

  /** `s.trim()` is empty exactly when `s` is empty or all whitespace. */
  lemma TrimEmptyIff(s: seq<char>)
    ensures Trim(s) == [] <==> IsBlank(s)
  {
    var t := TrimStart(s);
    var k := |s| - |t|;
    if t == [] {
      assert s[..k] == s;
    } else {
      assert s[k] == t[0];
      assert t[0..] == t;
    }
  }
}
