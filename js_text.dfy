/**
 * The character classes of ECMAScript that the modelled code relies on:
 * `String.prototype.trim` strips WhiteSpace and LineTerminator code points
 * (sections 12.2, 12.3 and 22.1.3.32 of ECMA-262), and the regular-expression
 * atom `.`, without the `u` flag, matches one UTF-16 code unit that is not a
 * LineTerminator (section 22.2.2.7 of ECMA-262). A `char` here stands for one
 * code unit wherever that distinction matters.
 */
module JsText {

  /** LineTerminator: LF, CR, LINE SEPARATOR, PARAGRAPH SEPARATOR. */
  predicate IsLineTerminator(c: char)
  {
    c == '\n' || c == '\r' || c as int == 0x2028 || c as int == 0x2029
  }

  /** WhiteSpace: TAB, VT, FF, SPACE, NBSP, ZWNBSP and the Zs category. */
  predicate IsWhiteSpace(c: char)
  {
    c == '\t' || c as int == 0x0B || c as int == 0x0C || c == ' '
    || c as int == 0xA0 || c as int == 0xFEFF
    // Unicode category Zs beyond SPACE and NBSP
    || c as int == 0x1680 || (0x2000 <= c as int <= 0x200A)
    || c as int == 0x202F || c as int == 0x205F || c as int == 0x3000
  }

  /** The code points `trim` removes. */
  predicate IsTrimmable(c: char)
  {
    IsWhiteSpace(c) || IsLineTerminator(c)
  }

  predicate AllTrimmable(s: string)
  {
    forall i :: 0 <= i < |s| ==> IsTrimmable(s[i])
  }

  /** `s.trimStart()`: drops the leading trimmable code points. */
  function TrimStart(s: string): (r: string)
    ensures |r| <= |s| && r == s[|s| - |r|..]
    ensures AllTrimmable(s[..|s| - |r|])
    ensures r != [] ==> !IsTrimmable(r[0])
  {
    if s != [] && IsTrimmable(s[0]) then TrimStart(s[1..]) else s
  }

  /** `s.trimEnd()`: drops the trailing trimmable code points. */
  function TrimEnd(s: string): (r: string)
    ensures |r| <= |s| && r == s[..|r|]
    ensures AllTrimmable(s[|r|..])
    ensures r != [] ==> !IsTrimmable(r[|r| - 1])
  {
    if s != [] && IsTrimmable(s[|s| - 1]) then TrimEnd(s[..|s| - 1]) else s
  }

  /**
   * `s.trim()`: the contiguous part of `s` left once leading and trailing
   * whitespace and line terminators are removed. It is empty exactly when
   * every code point of `s` is trimmable; otherwise it starts and ends with
   * a code point that is not.
   */
  function Trim(s: string): (r: string)
    ensures |r| <= |s|
    ensures r == [] <==> AllTrimmable(s)
    ensures r != [] ==> !IsTrimmable(r[0]) && !IsTrimmable(r[|r| - 1])
  {
    var t := TrimStart(s);
    var r := TrimEnd(t);
    assert r == [] ==> AllTrimmable(s) by {
      if r == [] {
        assert s == s[..|s| - |t|] + t;
        assert t == t[0..];
      }
    }
    assert AllTrimmable(s) ==> t == [] by {
      if t != [] {
        assert t[0] == s[|s| - |t|];
      }
    }
    r
  }
}
