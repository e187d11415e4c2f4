/**
 * `JSON.stringify` of a string, as ECMAScript's QuoteJSONString defines it: the
 * quote and the backslash are escaped, the five usual control characters get
 * their short escapes, the other control characters below U+0020 are written as
 * `\u00xx` in lower-case hexadecimal, and every other character stands for itself.
 */
module Json {

  /** A lower-case hexadecimal digit. */
  function HexDigit(n: nat): (r: char)
    requires n < 16
    ensures n < 10 ==> r == ('0' as int + n) as char
    ensures n >= 10 ==> r == ('a' as int + n - 10) as char
  {
    if n < 10 then ('0' as int + n) as char else ('a' as int + n - 10) as char
  }

  /** The short escape letter of a control character or of the quote and backslash, if it has one. */
  function ShortEscape(c: char): (r: char)
    requires c in {'\U{0008}', '\t', '\n', '\U{000C}', '\r', '"', '\\'}
  {
    match c
    case '\U{0008}' => 'b'
    case '\t' => 't'
    case '\n' => 'n'
    case '\U{000C}' => 'f'
    case '\r' => 'r'
    case '"' => '"'
    case '\\' => '\\'
  }

  /** How one character is written inside a JSON string. */
  function EscapeChar(c: char): (r: string)
    ensures |r| in {1, 2, 6}
    ensures |r| == 1 <==> r == [c]
    ensures |r| == 1 ==> c != '\\' && c != '"' && c as int >= 0x20
    ensures |r| > 1 ==> r[0] == '\\'
    ensures |r| == 2 ==> r[1] in "\"\\bfnrt"
    ensures |r| == 6 ==> r[1] == 'u'
  {
    if c in {'\U{0008}', '\t', '\n', '\U{000C}', '\r', '"', '\\'} then ['\\', ShortEscape(c)]
    else if (c as int) < 0x20 then ['\\', 'u', '0', '0', HexDigit(c as int / 16), HexDigit(c as int % 16)]
    else [c]
  }

  /** The body of a JSON string literal: every character escaped in turn. */
  function Escape(s: string): (r: string)
    ensures |r| >= |s|
    decreases |s|
  {
    if |s| == 0 then "" else EscapeChar(s[0]) + Escape(s[1..])
  }

  /** `JSON.stringify(s)` for a string `s`. */
  function Quote(s: string): (r: string)
    ensures |r| >= 2 && r[0] == '"' && r[|r| - 1] == '"'
  {
    "\"" + Escape(s) + "\""
  }

  /** Two characters with the same escape are the same character. */
  lemma EscapeCharInjective(a: char, b: char)
    requires EscapeChar(a) == EscapeChar(b)
    ensures a == b
  {
    var e := EscapeChar(a);
    if |e| == 6 {
      assert e[4] == HexDigit(a as int / 16) == HexDigit(b as int / 16);
      assert e[5] == HexDigit(a as int % 16) == HexDigit(b as int % 16);
    }
  }

  /** No character's escape is a proper prefix of another's. */
  lemma EscapeCharPrefixFree(a: char, b: char, x: string, y: string)
    requires EscapeChar(a) + x == EscapeChar(b) + y
    ensures a == b && x == y
  {
    var ea, eb := EscapeChar(a), EscapeChar(b);
    var w := ea + x;
    assert ea == w[..|ea|] && eb == w[..|eb|];
    if |ea| != |eb| {
      assert false;
    }
    assert ea == eb;
    EscapeCharInjective(a, b);
    assert x == w[|ea|..] == y;
  }

  /** Distinct strings have distinct escapes. */
  lemma {:induction false} EscapeInjective(s: string, t: string)
    requires Escape(s) == Escape(t)
    ensures s == t
    decreases |s|
  {
    if |s| > 0 && |t| > 0 {
      EscapeCharPrefixFree(s[0], t[0], Escape(s[1..]), Escape(t[1..]));
      EscapeInjective(s[1..], t[1..]);
      assert s == [s[0]] + s[1..] && t == [t[0]] + t[1..];
    }
  }

  /** `JSON.stringify` is injective on strings. */
  lemma QuoteInjective(s: string, t: string)
    requires Quote(s) == Quote(t)
    ensures s == t
  {
    var q := Quote(s);
    assert Escape(s) == q[1..|q| - 1];
    assert Escape(t) == Quote(t)[1..|Quote(t)| - 1];
    EscapeInjective(s, t);
  }

  /** A string of ordinary characters is written as itself between quotes. */
  lemma {:induction false} EscapePlain(s: string)
    requires forall i :: 0 <= i < |s| ==> s[i] != '"' && s[i] != '\\' && s[i] as int >= 0x20
    ensures Escape(s) == s
    decreases |s|
  {
    if |s| > 0 {
      EscapePlain(s[1..]);
      assert s == [s[0]] + s[1..];
    }
  }
}
