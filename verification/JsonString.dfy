/** How json.Marshal writes a string (Go's encoding/json, with its escaping of HTML), and how RFC 8259 reads one:
    the redactor registers the written form of every secret (internal/feedback/redact.go). */
module JsonString {

  import opened Wrappers

  // ---------------------------------------------------------------- writing

  const HEX_DIGITS := "0123456789abcdef"

  /** How json.Marshal writes a character inside a string. */
  function EscapedChar(c: char): string {
    var n := c as int;
    if c == '"' || c == '\\' then ['\\', c]
    else if n == 8 then "\\b"
    else if n == 9 then "\\t"
    else if n == 10 then "\\n"
    else if n == 12 then "\\f"
    else if n == 13 then "\\r"
    else if n < 0x20 || c == '<' || c == '>' || c == '&' then "\\u00" + [HEX_DIGITS[n / 16]] + [HEX_DIGITS[n % 16]]
    else if n == 0x2028 || n == 0x2029 then "\\u202" + [HEX_DIGITS[n % 16]]
    else [c]
  }

  /** The JSON encoding of a string without its quotes. */
  function Escape(s: string): string {
    if s == "" then "" else EscapedChar(s[0]) + Escape(s[1..])
  }

  // ---------------------------------------------------------------- reading

  function HexValue(c: char): Option<nat> {
    if '0' <= c <= '9' then Some(c as nat - '0' as nat)
    else if 'a' <= c <= 'f' then Some(c as nat - 'a' as nat + 10)
    else if 'A' <= c <= 'F' then Some(c as nat - 'A' as nat + 10)
    else None
  }

  /** The value of the digits. */
  function HexNumber(digits: string): Option<nat> {
    if digits == "" then Some(0)
    else
      var high, low := HexNumber(digits[..|digits| - 1]), HexValue(digits[|digits| - 1]);
      if high.Some? && low.Some? then Some(16 * high.value + low.value) else None
  }

  /** The code unit of a \uXXXX at the head of a text. */
  function CodeUnit(t: string): Option<nat> {
    if |t| >= 6 && t[..2] == "\\u" then HexNumber(t[2..6]) else None
  }

  /** A character read, and how much of the text it took. */
  datatype Piece = Piece(c: char, length: nat)

  /** A surrogate pair is one character; half of one is none. */
  function ReadUnicode(t: string): (p: Option<Piece>)
    ensures p.Some? ==> 0 < p.value.length <= |t|
  {
    var unit := CodeUnit(t);
    if unit.None? then None
    else if unit.value < 0xD800 || 0xE000 <= unit.value < 0x1_0000 then Some(Piece(unit.value as char, 6))
    else
      var second := CodeUnit(t[6..]);
      if unit.value < 0xDC00 && second.Some? && 0xDC00 <= second.value < 0xE000 then
        Some(Piece((0x1_0000 + (unit.value - 0xD800) * 0x400 + (second.value - 0xDC00)) as char, 12))
      else None
  }

  /** One character inside a string, by section 7 of RFC 8259. */
  function ReadChar(t: string): (p: Option<Piece>)
    ensures p.Some? ==> 0 < p.value.length <= |t|
  {
    if t == "" || t[0] == '"' || t[0] as int < 0x20 then None
    else if t[0] != '\\' then Some(Piece(t[0], 1))
    else if |t| == 1 then None
    else
      match t[1]
      case '"' => Some(Piece('"', 2))
      case '\\' => Some(Piece('\\', 2))
      case '/' => Some(Piece('/', 2))
      case 'b' => Some(Piece(8 as char, 2))
      case 'f' => Some(Piece(12 as char, 2))
      case 'n' => Some(Piece(10 as char, 2))
      case 'r' => Some(Piece(13 as char, 2))
      case 't' => Some(Piece(9 as char, 2))
      case _ => ReadUnicode(t)
  }

  /** The string that starts here, up to its closing quotation mark, and what follows it. */
  function ReadString(t: string): Option<(string, string)> {
    if t != "" && t[0] == '"' then Some(("", t[1..]))
    else
      var p := ReadChar(t);
      if p.None? then None
      else
        var rest := ReadString(t[p.value.length..]);
        if rest.None? then None else Some(([p.value.c] + rest.value.0, rest.value.1))
  }

  // ---------------------------------------------------------------- what is written is read

  lemma HexDigitRead(n: nat)
    requires n < 16
    ensures HexValue(HEX_DIGITS[n]) == Some(n)
  {
  }

  lemma FourDigits(a: char, b: char, c: char, d: char)
    requires HexValue(a).Some? && HexValue(b).Some? && HexValue(c).Some? && HexValue(d).Some?
    ensures HexNumber([a, b, c, d])
         == Some(((HexValue(a).value * 16 + HexValue(b).value) * 16 + HexValue(c).value) * 16 + HexValue(d).value)
  {
    assert [a][..0] == "" && [a, b][..1] == [a] && [a, b, c][..2] == [a, b] && [a, b, c, d][..3] == [a, b, c];
    assert HexNumber([a]) == HexValue(a);
    assert HexNumber([a, b]) == Some(HexValue(a).value * 16 + HexValue(b).value);
    assert HexNumber([a, b, c]) == Some((HexValue(a).value * 16 + HexValue(b).value) * 16 + HexValue(c).value);
  }

  lemma UnicodeRead(a: char, b: char, c: char, d: char, rest: string)
    requires HexValue(a).Some? && HexValue(b).Some? && HexValue(c).Some? && HexValue(d).Some?
    requires HexValue(a).value < 8
    ensures var n := ((HexValue(a).value * 16 + HexValue(b).value) * 16 + HexValue(c).value) * 16 + HexValue(d).value;
            n < 0x8000 && ReadChar("\\u" + [a, b, c, d] + rest) == Some(Piece(n as char, 6))
  {
    var t := "\\u" + [a, b, c, d] + rest;
    FourDigits(a, b, c, d);
    assert t[..2] == "\\u" && t[2..6] == [a, b, c, d] && t[0] == '\\' && t[1] == 'u';
  }

  /** The written form of one character, whatever comes after it, is read as that character. */
  lemma CharRead(c: char, rest: string)
    ensures ReadChar(EscapedChar(c) + rest) == Some(Piece(c, |EscapedChar(c)|))
    ensures EscapedChar(c)[0] != '"'
  {
    var n, e := c as int, EscapedChar(c);
    if |e| == 6 {
      var h, l := HEX_DIGITS[n / 16 % 16], HEX_DIGITS[n % 16];
      HexDigitRead(n / 16 % 16);
      HexDigitRead(n % 16);
      HexDigitRead(0);
      HexDigitRead(2);
      if n < 0x80 {
        assert e == "\\u" + ['0', '0', h, l];
        UnicodeRead('0', '0', h, l, rest);
      } else {
        assert e == "\\u" + ['2', '0', '2', l];
        UnicodeRead('2', '0', '2', l, rest);
      }
    } else if |e| == 2 {
      assert (e + rest)[0] == '\\' && (e + rest)[1] == e[1];
    } else {
      assert (e + rest)[0] == c;
    }
  }

  /** Reading undoes writing: between quotation marks, the written form of a text is one string, the text. */
  lemma {:induction false} EscapeIsRead(s: string, rest: string)
    ensures ReadString(Escape(s) + "\"" + rest) == Some((s, rest))
  {
    hide EscapedChar;
    hide ReadChar;
    var t := Escape(s) + "\"" + rest;
    if s == "" {
      assert t[0] == '"' && t[1..] == rest;
    } else {
      var e, tail := EscapedChar(s[0]), Escape(s[1..]) + "\"" + rest;
      assert t == e + tail;
      CharRead(s[0], tail);
      assert t[0] == e[0] && t[|e|..] == tail;
      EscapeIsRead(s[1..], rest);
      assert s == [s[0]] + s[1..];
    }
  }

  /** The characters that are never written as they are. */
  predicate Special(c: char) {
    c as int < 0x20 || c in {'"', '\\', '<', '>', '&'} || c as int in {0x2028, 0x2029}
  }

  /** Each special character is written in one way: a short escape where there is one among the seven that are
      used, else four lower-case digits; the others are written as they are. */
  lemma WhatIsEscaped(c: char)
    ensures var e := EscapedChar(c);
            if !Special(c) then e == [c]
            else if c == '"' || c == '\\' || c as int in {8, 9, 10, 12, 13} then |e| == 2 && e[0] == '\\'
            else |e| == 6 && e[..2] == "\\u" && forall k | 2 <= k < 6 :: '0' <= e[k] <= '9' || 'a' <= e[k] <= 'f'
    ensures forall x | x in EscapedChar(c) :: Special(x) ==> x == '"' || x == '\\'
  {
  }

  /** Nothing that HTML or JavaScript could take for its own, and no control character, is left. */
  lemma {:induction false} EscapeIsHarmless(s: string)
    ensures forall x | x in Escape(s) :: Special(x) ==> x == '"' || x == '\\'
  {
    if s != "" {
      WhatIsEscaped(s[0]);
      EscapeIsHarmless(s[1..]);
    }
  }
}
