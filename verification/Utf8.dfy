/** Four ways in which the repository shortens UTF-8 text to a byte limit, and why they agree:
    internal/agent/approval.go and internal/tools/read.go scan backwards for a rune start,
    internal/feedback/compress.go decodes forwards, internal/executor/local.go chops until valid. */
module Utf8 {

  import opened Wrappers

  // ---------------------------------------------------------------- well-formed text

  predicate Tail(b: Byte) { 0x80 <= b <= 0xBF }

  /** utf8.RuneStart */
  predicate RuneStart(b: Byte) { !Tail(b) }

  /** The number of bytes of the encoded character at the head of "s", by the table in section 4 of
      RFC 3629; zero if there is none. */
  function HeadLength(s: Bytes): (n: nat)
    ensures n <= 4 && n <= |s|
    ensures n > 0 ==> RuneStart(s[0]) && forall i | 1 <= i < n :: Tail(s[i])
  {
    if s == [] then 0
    else if s[0] <= 0x7F then 1
    else if 0xC2 <= s[0] <= 0xDF then
      if |s| >= 2 && Tail(s[1]) then 2 else 0
    else if 0xE0 <= s[0] <= 0xEF then
      if |s| >= 3 && SecondOfThree(s[0], s[1]) && Tail(s[2]) then 3 else 0
    else if 0xF0 <= s[0] <= 0xF4 then
      if |s| >= 4 && SecondOfFour(s[0], s[1]) && Tail(s[2]) && Tail(s[3]) then 4 else 0
    else 0
  }

  predicate SecondOfThree(first: Byte, second: Byte) {
    && Tail(second) && (first == 0xE0 ==> 0xA0 <= second) && (first == 0xED ==> second <= 0x9F)
  }

  predicate SecondOfFour(first: Byte, second: Byte) {
    && Tail(second) && (first == 0xF0 ==> 0x90 <= second) && (first == 0xF4 ==> second <= 0x8F)
  }

  /** utf8.Valid: a sequence of encoded characters. */
  predicate Valid(s: Bytes) {
    s == [] || (HeadLength(s) > 0 && Valid(s[HeadLength(s)..]))
  }

  // ---------------------------------------------------------------- what text means

  /** A Unicode scalar value. */
  type Scalar = n: nat | n < 0xD800 || 0xE000 <= n < 0x11_0000

  /** The encoding of a scalar value, by section 3 of RFC 3629: its bits, six to a byte but for the first. */
  function Encode(n: Scalar): Bytes {
    if n < 0x80 then [n]
    else if n < 0x800 then [0xC0 + n / 0x40, 0x80 + n % 0x40]
    else if n < 0x1_0000 then [0xE0 + n / 0x1000, 0x80 + n / 0x40 % 0x40, 0x80 + n % 0x40]
    else [0xF0 + n / 0x4_0000, 0x80 + n / 0x1000 % 0x40, 0x80 + n / 0x40 % 0x40, 0x80 + n % 0x40]
  }

  function EncodeAll(text: seq<Scalar>): Bytes {
    if text == [] then [] else Encode(text[0]) + EncodeAll(text[1..])
  }

  /** The head of an encoding is that encoding, whatever follows it. */
  lemma HeadOfEncoding(n: Scalar, rest: Bytes)
    ensures HeadLength(Encode(n) + rest) == |Encode(n)| > 0
  {
    var e, s := Encode(n), Encode(n) + rest;
    assert s[0] == e[0] && (|e| > 1 ==> s[1] == e[1]) && (|e| > 2 ==> s[2] == e[2]) && (|e| > 3 ==> s[3] == e[3]);
  }

  /** Another byte: six bits more. */
  function More(n: nat, tail: int): nat
    requires 0x80 <= tail <= 0xBF
  {
    n * 0x40 + (tail - 0x80)
  }

  lemma SixBits(n: nat, tail: int)
    requires 0x80 <= tail <= 0xBF
    ensures More(n, tail) / 0x40 == n && 0x80 + More(n, tail) % 0x40 == tail
    ensures More(n, tail) / 0x1000 == n / 0x40 && More(n, tail) / 0x4_0000 == n / 0x1000
  {
  }

  /** The scalar value at the head of a text. */
  function Decode(s: Bytes): nat
    requires HeadLength(s) > 0
  {
    match HeadLength(s)
    case 1 => s[0]
    case 2 => More(s[0] as int - 0xC0, s[1])
    case 3 => More(More(s[0] as int - 0xE0, s[1]), s[2])
    case _ => More(More(More(s[0] as int - 0xF0, s[1]), s[2]), s[3])
  }

  lemma HeadIsEncoding(s: Bytes)
    requires HeadLength(s) > 0
    ensures var n := Decode(s); (n < 0xD800 || 0xE000 <= n < 0x11_0000) && Encode(n) == s[..HeadLength(s)]
  {
    match HeadLength(s)
    case 1 =>
    case 2 => SixBits(s[0] as int - 0xC0, s[1]);
    case 3 =>
      var two := More(s[0] as int - 0xE0, s[1]);
      SixBits(s[0] as int - 0xE0, s[1]);
      SixBits(two, s[2]);
    case _ =>
      var two := More(s[0] as int - 0xF0, s[1]);
      SixBits(s[0] as int - 0xF0, s[1]);
      SixBits(two, s[2]);
      SixBits(More(two, s[2]), s[3]);
  }

  lemma {:induction false} EncodedIsValid(text: seq<Scalar>)
    ensures Valid(EncodeAll(text))
  {
    if text != [] {
      HeadOfEncoding(text[0], EncodeAll(text[1..]));
      EncodedIsValid(text[1..]);
      assert EncodeAll(text)[|Encode(text[0])|..] == EncodeAll(text[1..]);
    }
  }

  lemma {:induction false} ValidIsEncoded(s: Bytes) returns (text: seq<Scalar>)
    requires Valid(s)
    ensures EncodeAll(text) == s
  {
    hide HeadLength;
    hide Encode;
    hide Decode;
    if s == [] {
      text := [];
    } else {
      var h := HeadLength(s);
      var rest := ValidIsEncoded(s[h..]);
      HeadIsEncoding(s);
      text := [Decode(s)] + rest;
      assert text[1..] == rest && s == s[..h] + s[h..];
    }
  }

  /** The valid byte sequences are exactly the encodings of sequences of scalar values. */
  lemma ValidIffEncoded(s: Bytes)
    ensures Valid(s) <==> exists text :: EncodeAll(text) == s
  {
    if Valid(s) { var text := ValidIsEncoded(s); }
    forall text | EncodeAll(text) == s ensures Valid(s) { EncodedIsValid(text); }
  }

  // ---------------------------------------------------------------- the specification

  /** "n" is the length of the longest prefix within the limit that is well-formed text. */
  ghost predicate LongestValid(s: Bytes, limit: nat, n: nat) {
    && n <= limit && n <= |s| && Valid(s[..n])
    && forall m: nat | n < m <= limit && m <= |s| :: !Valid(s[..m])
  }

  lemma LongestValidIsUnique(s: Bytes, limit: nat, n: nat, m: nat)
    requires LongestValid(s, limit, n) && LongestValid(s, limit, m)
    ensures n == m
  {
  }

  /** The head of a prefix is the head of the text, if the prefix has all of it. */
  lemma HeadOfPrefix(s: Bytes, n: nat)
    requires n <= |s|
    ensures HeadLength(s[..n]) == (if HeadLength(s) <= n then HeadLength(s) else 0)
  {
  }

  lemma {:induction false} ValidConcat(a: Bytes, b: Bytes)
    requires Valid(a)
    ensures Valid(a + b) <==> Valid(b)
  {
    if a == [] {
      assert a + b == b;
    } else {
      var h := HeadLength(a);
      HeadOfPrefix(a + b, |a|);
      assert (a + b)[..|a|] == a;
      ValidConcat(a[h..], b);
      assert (a + b)[h..] == a[h..] + b;
    }
  }

  /** In well-formed text, the positions between characters are those of the starting bytes. */
  lemma {:induction false} BoundaryIsRuneStart(s: Bytes, i: nat)
    requires Valid(s) && i < |s|
    ensures Valid(s[..i]) <==> RuneStart(s[i])
    decreases |s|
  {
    var h := HeadLength(s);
    HeadOfPrefix(s, i);
    if i >= h {
      BoundaryIsRuneStart(s[h..], i - h);
      assert s[..i][h..] == s[h..][..i - h];
    }
  }

  // ---------------------------------------------------------------- backward scan

  /** The loop shared by bounded and truncateUTF8. */
  method ScanBack(value: Bytes, limit: nat) returns (n: nat)
    requires limit < |value|
    ensures n <= limit && (n == 0 || RuneStart(value[n]))
    ensures forall m: nat | n < m <= limit :: !RuneStart(value[m])
    ensures Valid(value) ==> LongestValid(value, limit, n) && n > limit - 4
  {
    n := limit;
    while n > 0 && !RuneStart(value[n])
      invariant n <= limit
      invariant forall m: nat | n < m <= limit :: !RuneStart(value[m])
    {
      n := n - 1;
    }
    if Valid(value) {
      BackwardIsLongest(value, limit, n);
    }
  }

  lemma BackwardIsLongest(value: Bytes, limit: nat, n: nat)
    requires Valid(value) && n <= limit < |value|
    requires n == 0 || RuneStart(value[n])
    requires forall m: nat | n < m <= limit :: !RuneStart(value[m])
    ensures LongestValid(value, limit, n) && n > limit - 4
  {
    assert Valid(value[..n]) by {
      if n > 0 { BoundaryIsRuneStart(value, n); }
    }
    forall m: nat | n < m <= limit ensures !Valid(value[..m]) {
      BoundaryIsRuneStart(value, m);
    }
    if n + 4 <= limit {
      NoLongTail(value, n);
      assert false;
    }
  }

  /** Well-formed text has no run of four continuation bytes after a boundary. */
  lemma NoLongTail(value: Bytes, n: nat)
    requires Valid(value) && n + 4 < |value| && Valid(value[..n])
    ensures exists m: nat | n < m <= n + 4 :: RuneStart(value[m])
  {
    assert value == value[..n] + value[n..];
    ValidConcat(value[..n], value[n..]);
    var h := HeadLength(value[n..]);
    assert Valid(value[n..][h..]);
    assert RuneStart(value[n + h]) by {
      assert value[n..][h..][0] == value[n + h];
      assert HeadLength(value[n..][h..]) > 0;
    }
  }

  /** bounded */
  method Bounded(value: Bytes, limit: nat) returns (r: Bytes)
    ensures |value| <= limit ==> r == value
    ensures |value| > limit ==> r <= value && |r| <= limit && (Valid(value) ==> LongestValid(value, limit, |r|))
    ensures Valid(value) && |value| > limit ==> |r| > limit - 4
  {
    if |value| <= limit {
      return value;
    }
    var n := ScanBack(value, limit);
    return value[..n];
  }

  /** truncateUTF8; read.go calls it only on longer content that has passed utf8.Valid. */
  method TruncateUtf8(content: Bytes, limit: nat) returns (r: Bytes)
    requires limit < |content|
    ensures r <= content && |r| <= limit && (Valid(content) ==> LongestValid(content, limit, |r|))
  {
    var n := ScanBack(content, limit);
    return content[..n];
  }

  // ---------------------------------------------------------------- forward decode

  /** Decoding stops at the first byte that starts no character: the longest valid prefix of any bytes. */
  lemma ForwardIsLongest(prefix: Bytes, offset: nat)
    requires offset <= |prefix| && Valid(prefix[..offset])
    requires offset < |prefix| ==> HeadLength(prefix[offset..]) == 0
    ensures LongestValid(prefix, |prefix|, offset)
  {
    forall m: nat | offset < m <= |prefix| ensures !Valid(prefix[..m]) {
      assert prefix[..m] == prefix[..offset] + prefix[offset..m];
      ValidConcat(prefix[..offset], prefix[offset..m]);
      HeadOfPrefix(prefix[offset..], m - offset);
      assert prefix[offset..][..m - offset] == prefix[offset..m];
    }
  }

  /** The end of summarize: the clipped summary and whether anything was left out. */
  method Clip(summary: Bytes, maxBytes: int) returns (r: Bytes, truncated: bool)
    ensures maxBytes <= 0 ==> r == [] && truncated
    ensures maxBytes > 0 ==> r <= summary && LongestValid(summary, maxBytes, |r|)
    ensures maxBytes > 0 ==> (truncated <==> r != summary)
  {
    if maxBytes <= 0 {
      return [], true;
    }
    var limit := if |summary| > maxBytes then maxBytes else |summary|;
    var prefix := summary[..limit];
    var offset := 0;
    while offset < |prefix|
      invariant offset <= |prefix| && Valid(prefix[..offset])
    {
      var size := HeadLength(prefix[offset..]);
      if size == 0 {
        ForwardIsLongest(prefix, offset);
        LongestWithin(summary, limit, offset);
        return prefix[..offset], true;
      }
      assert prefix[..offset + size] == prefix[..offset] + prefix[offset..][..size];
      HeadOfPrefix(prefix[offset..], size);
      assert prefix[offset..][..size][size..] == [];
      ValidConcat(prefix[..offset], prefix[offset..][..size]);
      offset := offset + size;
    }
    assert prefix[..offset] == prefix;
    ForwardIsLongest(prefix, offset);
    LongestWithin(summary, limit, offset);
    return prefix, limit < |summary|;
  }

  /** Looking only at the first "limit" bytes loses nothing. */
  lemma LongestWithin(s: Bytes, limit: nat, n: nat)
    requires limit <= |s| && LongestValid(s[..limit], limit, n)
    ensures LongestValid(s, limit, n)
    ensures forall max: nat | max >= limit && (max == limit || limit == |s|) :: LongestValid(s, max, n)
  {
    assert s[..limit][..n] == s[..n];
    forall m: nat | n < m <= limit ensures !Valid(s[..m]) {
      assert s[..limit][..m] == s[..m];
    }
  }

  // ---------------------------------------------------------------- chop until valid

  const MAX_EXECUTOR_DIAGNOSTIC_BYTES := 768

  /** The loop of executorDiagnostic, for any limit. */
  method ChopUntilValid(text: Bytes, limit: nat) returns (message: Bytes)
    requires limit < |text|
    ensures message <= text && LongestValid(text, limit, |message|)
  {
    message := text[..limit];
    while |message| > 0 && !Valid(message)
      invariant message <= text && |message| <= limit
      invariant forall m: nat | |message| < m <= limit :: !Valid(text[..m])
    {
      assert message == text[..|message|];
      message := message[..|message| - 1];
    }
    assert message == text[..|message|];
  }

  /** The message part of executorDiagnostic, after ToValidUTF8. */
  method DiagnosticMessage(text: Bytes) returns (message: Bytes, truncated: bool)
    ensures truncated <==> |text| > MAX_EXECUTOR_DIAGNOSTIC_BYTES
    ensures message <= text && |message| <= MAX_EXECUTOR_DIAGNOSTIC_BYTES
    ensures if truncated then LongestValid(text, MAX_EXECUTOR_DIAGNOSTIC_BYTES, |message|) else message == text
  {
    message := text;
    truncated := |message| > MAX_EXECUTOR_DIAGNOSTIC_BYTES;
    if truncated {
      message := ChopUntilValid(text, MAX_EXECUTOR_DIAGNOSTIC_BYTES);
    }
  }

  // ---------------------------------------------------------------- agreement

  /** On well-formed text longer than a positive limit, every truncation that meets its contract returns
      the same bytes: the longest well-formed prefix within the limit, more than limit - 4 bytes. */
  lemma TruncationsAgree(text: Bytes, limit: nat, backward: Bytes, forward: Bytes)
    requires Valid(text) && 0 < limit < |text|
    requires backward <= text && LongestValid(text, limit, |backward|)
    requires forward <= text && LongestValid(text, limit, |forward|)
    ensures backward == forward && |forward| > limit - 4
  {
    LongestValidIsUnique(text, limit, |backward|, |forward|);
    assert backward == text[..|backward|] == forward;
    LongestIsLong(text, limit, |forward|);
  }

  lemma LongestIsLong(text: Bytes, limit: nat, n: nat)
    requires Valid(text) && limit < |text| && LongestValid(text, limit, n)
    ensures n > limit - 4
  {
    if n + 4 <= limit {
      NoLongTail(text, n);
      var m: nat :| n < m <= n + 4 && RuneStart(text[m]);
      BoundaryIsRuneStart(text, m);
    }
  }

  /** The four truncations side by side. */
  method TruncateFourWays(text: Bytes, limit: nat)
    returns (a: Bytes, b: Bytes, c: Bytes, d: Bytes)
    requires Valid(text) && 0 < limit < |text|
    ensures a == b == c == d && a <= text && Valid(a) && limit - 4 < |a| <= limit
  {
    a := Bounded(text, limit);
    b := TruncateUtf8(text, limit);
    var truncated;
    c, truncated := Clip(text, limit);
    d := ChopUntilValid(text, limit);
    TruncationsAgree(text, limit, a, b);
    TruncationsAgree(text, limit, a, c);
    TruncationsAgree(text, limit, a, d);
    assert a == text[..|a|];
  }
}
