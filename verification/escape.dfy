/** The string escaper of `Writer::String` in hjson/Writer.h, and a decoder for
    the escaped body that inverts it. The switch runs on the unsigned value of
    each character: the quote, the backslash and the five control characters
    with a short escape get two characters, any other character below 0x20 gets
    a six-character `\u00XX` escape in upper-case hex, and everything else is
    copied. */
module Escape {
  import opened Maybe

  /** A character the escaper must not let through raw: below 0x20. */
  predicate IsControl(c: char)
  {
    c < ' '
  }

  predicate NoControl(s: string)
  {
    forall i :: 0 <= i < |s| ==> !IsControl(s[i])
  }

  /** Characters copied unchanged by the escaper. */
  predicate Verbatim(c: char)
  {
    !IsControl(c) && c != '"' && c != '\\'
  }

  predicate IsHexDigit(c: char)
  {
    '0' <= c <= '9' || 'A' <= c <= 'F' || 'a' <= c <= 'f'
  }

  function HexDigitValue(c: char): (k: nat)
    requires IsHexDigit(c)
    ensures k < 16
  {
    if c <= '9' then c as int - 48
    else if c <= 'F' then c as int - 55
    else c as int - 87
  }

  /** The upper-case hex digit `%X` prints for k. */
  function HexUpper(k: nat): (c: char)
    requires k < 16
    ensures IsHexDigit(c) && HexDigitValue(c) == k
    ensures '0' <= c <= '9' || 'A' <= c <= 'F'
    ensures !IsControl(c) && c != '"' && c != '\\'
  {
    if k < 10 then (48 + k) as char else (55 + k) as char
  }

  /** What `String` writes for one character. */
  function EscapeChar(c: char): (r: string)
    ensures |r| == 1 || |r| == 2 || |r| == 6
    ensures |r| == 1 <==> Verbatim(c)
    ensures |r| == 1 ==> r == [c]
    ensures |r| == 6 <==> IsControl(c) && c !in {8 as char, 9 as char, 10 as char, 12 as char, 13 as char}
    ensures |r| > 1 ==> r[0] == '\\'
    ensures |r| == 6 ==> r[..4] == "\\u00" && forall i :: 4 <= i < 6 ==> '0' <= r[i] <= '9' || 'A' <= r[i] <= 'F'
    ensures NoControl(r)
  {
    if c == '"' then "\\\""
    else if c == 8 as char then "\\b"
    else if c == 12 as char then "\\f"
    else if c == '\n' then "\\n"
    else if c == '\r' then "\\r"
    else if c == '\t' then "\\t"
    else if c == '\\' then "\\\\"
    else if c < ' ' then "\\u00" + [HexUpper(c as int / 16), HexUpper(c as int % 16)]
    else [c]
  }

  /** The characters `String` writes between the quotes. */
  function EscapeBody(s: string): (r: string)
    ensures |s| <= |r| <= 6 * |s|
    ensures NoControl(r)
  {
    if |s| == 0 then [] else EscapeChar(s[0]) + EscapeBody(s[1..])
  }

  /** The full text `String` writes after the separator. */
  function Quote(s: string): string
  {
    "\"" + EscapeBody(s) + "\""
  }

  /** The character a two-character escape `\x` stands for. */
  function ShortEscape(x: char): Option<char>
  {
    if x == '"' then Some('"')
    else if x == '\\' then Some('\\')
    else if x == '/' then Some('/')
    else if x == 'b' then Some(8 as char)
    else if x == 'f' then Some(12 as char)
    else if x == 'n' then Some('\n')
    else if x == 'r' then Some('\r')
    else if x == 't' then Some('\t')
    else None
  }

  predicate AllHex(s: string)
  {
    forall i :: 0 <= i < |s| ==> IsHexDigit(s[i])
  }

  /** The number four hex digits denote. */
  function HexValue(s: string): (v: nat)
    requires |s| == 4 && AllHex(s)
    ensures v < 0x1_0000
  {
    4096 * HexDigitValue(s[0]) + 256 * HexDigitValue(s[1]) + 16 * HexDigitValue(s[2]) + HexDigitValue(s[3])
  }

  predicate IsSurrogate(v: nat)
  {
    0xD800 <= v < 0xE000
  }

  function Prepend(c: char, rest: Option<string>): Option<string>
  {
    if rest.Some? then Some([c] + rest.value) else None
  }

  /** Decodes the text between the quotes of a JSON string: escapes are
      resolved, and a raw quote or control character is malformed. A `\u`
      escape naming a lone surrogate is rejected, as pairs are not decoded. */
  function Unescape(t: string): Option<string>
    decreases |t|
  {
    if |t| == 0 then Some([])
    else if t[0] == '\\' then
      if |t| >= 2 && ShortEscape(t[1]).Some? then Prepend(ShortEscape(t[1]).value, Unescape(t[2..]))
      else if |t| >= 6 && t[1] == 'u' && AllHex(t[2..6]) && !IsSurrogate(HexValue(t[2..6])) then
        Prepend(HexValue(t[2..6]) as char, Unescape(t[6..]))
      else None
    else if IsControl(t[0]) || t[0] == '"' then None
    else Prepend(t[0], Unescape(t[1..]))
  }

  /** Decoding undoes the escape of one character, whatever follows it. */
  lemma UnescapeChar(c: char, rest: string)
    ensures Unescape(EscapeChar(c) + rest) == Prepend(c, Unescape(rest))
  {
    var e := EscapeChar(c);
    if |e| == 1 {
      assert (e + rest)[1..] == rest;
    } else if |e| == 2 {
      UnescapeShort(c, rest);
    } else {
      UnescapeHex(c, rest);
    }
  }

  /** A two-character escape `\x` is read back through ShortEscape. */
  lemma UnescapeShort(c: char, rest: string)
    requires |EscapeChar(c)| == 2
    ensures Unescape(EscapeChar(c) + rest) == Prepend(c, Unescape(rest))
  {
    var t := EscapeChar(c) + rest;
    assert t[0] == '\\' && ShortEscape(t[1]) == Some(c);
    assert t[2..] == rest;
  }

  /** A six-character escape `\u00XX` is read back through its hex value. */
  lemma UnescapeHex(c: char, rest: string)
    requires |EscapeChar(c)| == 6
    ensures Unescape(EscapeChar(c) + rest) == Prepend(c, Unescape(rest))
  {
    var t := EscapeChar(c) + rest;
    var h := t[2..6];
    assert h == ['0', '0', HexUpper(c as int / 16), HexUpper(c as int % 16)];
    assert HexValue(h) == c as int;
    assert t[6..] == rest;
  }

  /** Round trip: the escaped body decodes to the original string. */
  lemma {:induction false} EscapeRoundTrip(s: string)
    ensures Unescape(EscapeBody(s)) == Some(s)
  {
    if |s| > 0 {
      EscapeRoundTrip(s[1..]);
      UnescapeChar(s[0], EscapeBody(s[1..]));
      assert [s[0]] + s[1..] == s;
    }
  }

  /** Escaping changes the string exactly when some character is not copied verbatim. */
  lemma {:induction false} EscapeIdentity(s: string)
    ensures EscapeBody(s) == s <==> forall i :: 0 <= i < |s| ==> Verbatim(s[i])
  {
    if |s| > 0 {
      EscapeIdentity(s[1..]);
      var r := EscapeBody(s);
      if !Verbatim(s[0]) {
        assert |r| > |s|;
      } else if EscapeBody(s[1..]) != s[1..] {
        assert r[1..] == EscapeBody(s[1..]);
        assert r != s;
      } else {
        assert r == [s[0]] + s[1..] == s;
      }
      if forall i :: 0 <= i < |s| ==> Verbatim(s[i]) {
        forall i | 0 <= i < |s[1..]|
          ensures Verbatim(s[1..][i])
        {
          assert s[1..][i] == s[i + 1];
        }
      } else {
        var k :| 0 <= k < |s| && !Verbatim(s[k]);
        if k > 0 {
          assert s[1..][k - 1] == s[k];
        }
      }
    }
  }
}
