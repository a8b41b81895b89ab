/** The operations of Go's strings package that the modelled code relies on, over sequences of
    Unicode scalar values. */
module Text {

  /** strings.HasPrefix */
  predicate HasPrefix(s: string, prefix: string) {
    |prefix| <= |s| && s[..|prefix|] == prefix
  }

  /** strings.TrimPrefix */
  function TrimPrefix(s: string, prefix: string): string {
    if HasPrefix(s, prefix) then s[|prefix|..] else s
  }

  /** Whether "part" occurs in "s" starting at position "at". */
  predicate OccursAt(part: string, s: string, at: int) {
    0 <= at && at + |part| <= |s| && s[at..at + |part|] == part
  }

  /** strings.Contains */
  predicate Contains(s: string, part: string) {
    exists at | 0 <= at <= |s| :: OccursAt(part, s, at)
  }

  lemma Associative<T>(a: seq<T>, b: seq<T>, c: seq<T>)
    ensures a + (b + c) == a + b + c
  {
  }

  // ---------------------------------------------------------------- Split and Join

  /** strings.Split with a one-character separator. */
  function Split(s: string, sep: char): (parts: seq<string>)
    ensures |parts| >= 1
  {
    if s == "" then [""]
    else
      var rest := Split(s[1..], sep);
      if s[0] == sep then [""] + rest else [[s[0]] + rest[0]] + rest[1..]
  }

  /** strings.Join with a one-character separator. */
  function Join(parts: seq<string>, sep: char): string {
    if parts == [] then ""
    else if |parts| == 1 then parts[0]
    else parts[0] + [sep] + Join(parts[1..], sep)
  }

  lemma JoinStep(parts: seq<string>, c: char, sep: char)
    requires parts != []
    ensures Join([""] + parts, sep) == [sep] + Join(parts, sep)
    ensures Join([[c] + parts[0]] + parts[1..], sep) == [c] + Join(parts, sep)
  {
    assert ([""] + parts)[1..] == parts;
    var longer := [[c] + parts[0]] + parts[1..];
    assert longer[1..] == parts[1..];
    if |parts| > 1 {
      assert Join(longer, sep) == [c] + parts[0] + [sep] + Join(parts[1..], sep);
    }
  }

  lemma {:induction false} JoinOfSplit(s: string, sep: char)
    ensures Join(Split(s, sep), sep) == s
  {
    if s != "" {
      JoinOfSplit(s[1..], sep);
      JoinStep(Split(s[1..], sep), s[0], sep);
      assert s == [s[0]] + s[1..];
    }
  }

  lemma HeadOfConcat<T>(x: seq<T>, y: seq<T>)
    requires x != []
    ensures (x + y)[0] == x[0] && (x + y)[1..] == x[1..] + y
  {
  }

  /** A separator between two texts splits them independently. */
  lemma {:induction false} SplitAtSeparator(a: string, b: string, sep: char)
    ensures Split(a + [sep] + b, sep) == Split(a, sep) + Split(b, sep)
  {
    var whole := a + [sep] + b;
    if a == "" {
      assert whole[1..] == b;
    } else {
      assert whole[1..] == a[1..] + [sep] + b;
      SplitAtSeparator(a[1..], b, sep);
      HeadOfConcat(Split(a[1..], sep), Split(b, sep));
    }
  }

  lemma {:induction false} SplitWithoutSeparator(s: string, sep: char)
    requires sep !in s
    ensures Split(s, sep) == [s]
  {
    if s != "" {
      assert s[0] in s;
      SplitWithoutSeparator(s[1..], sep);
      assert [s[0]] + s[1..] == s;
    }
  }

  lemma {:induction false} SplitOfJoin(parts: seq<string>, sep: char)
    requires parts != []
    requires forall k | 0 <= k < |parts| :: sep !in parts[k]
    ensures Split(Join(parts, sep), sep) == parts
  {
    SplitWithoutSeparator(parts[0], sep);
    if |parts| > 1 {
      SplitOfJoin(parts[1..], sep);
      SplitAtSeparator(parts[0], Join(parts[1..], sep), sep);
    }
  }

  lemma {:induction false} SplitPartsAreFree(s: string, sep: char)
    ensures forall k | 0 <= k < |Split(s, sep)| :: sep !in Split(s, sep)[k]
  {
    if s != "" {
      SplitPartsAreFree(s[1..], sep);
    }
  }

  // ---------------------------------------------------------------- white space and fields

  /** unicode.IsSpace */
  predicate IsSpace(c: char) {
    var n := c as int;
    || 0x09 <= n <= 0x0D || n == 0x20 || n == 0x85 || n == 0xA0 || n == 0x1680
    || 0x2000 <= n <= 0x200A || n == 0x2028 || n == 0x2029 || n == 0x202F || n == 0x205F || n == 0x3000
  }

  function SkipSpace(s: string): (r: string)
    ensures |r| <= |s|
  {
    if s != "" && IsSpace(s[0]) then SkipSpace(s[1..]) else s
  }

  /** The length of the leading run of characters that are not white space. */
  function WordLength(s: string): (n: nat)
    ensures n <= |s|
  {
    if s == "" || IsSpace(s[0]) then 0 else 1 + WordLength(s[1..])
  }

  /** strings.Fields */
  function Fields(s: string): seq<string>
    decreases |s|
  {
    var t := SkipSpace(s);
    var n := WordLength(t);
    if n == 0 then [] else [t[..n]] + Fields(t[n..])
  }

  predicate AllSpace(s: string) { forall c | c in s :: IsSpace(c) }

  /** "s" consists of these words, each followed by white space or the end. */
  ghost predicate Spells(s: string, words: seq<string>)
    decreases |words|
  {
    if words == [] then AllSpace(s)
    else
      exists space, rest ::
        && s == space + words[0] + rest && AllSpace(space) && words[0] != "" && NoSpace(words[0])
        && (rest == "" || IsSpace(rest[0])) && Spells(rest, words[1..])
  }

  lemma {:induction false} SkipIsSpace(s: string) returns (space: string)
    ensures s == space + SkipSpace(s) && AllSpace(space)
    ensures SkipSpace(s) == "" || !IsSpace(SkipSpace(s)[0])
  {
    if s != "" && IsSpace(s[0]) {
      var more := SkipIsSpace(s[1..]);
      space := [s[0]] + more;
      hide SkipSpace;
      Associative([s[0]], more, SkipSpace(s[1..]));
      assert s == [s[0]] + s[1..] && SkipSpace(s) == SkipSpace(s[1..]) by { LeadingSpace(s); }
    } else {
      space := "";
    }
  }

  lemma {:induction false} WordIsWord(s: string)
    ensures NoSpace(s[..WordLength(s)]) && (WordLength(s) < |s| ==> IsSpace(s[WordLength(s)]))
  {
    if s != "" && !IsSpace(s[0]) {
      WordIsWord(s[1..]);
      assert s[..WordLength(s)] == [s[0]] + s[1..][..WordLength(s[1..])];
    }
  }

  lemma {:induction false} FieldsSpell(s: string)
    ensures Spells(s, Fields(s))
    decreases |s|
  {
    var t, n := SkipSpace(s), WordLength(SkipSpace(s));
    var space := SkipIsSpace(s);
    WordIsWord(t);
    if n == 0 {
      assert t == "" && s == space;
    } else {
      FieldsSpell(t[n..]);
      assert s == space + t[..n] + t[n..] && Fields(s)[1..] == Fields(t[n..]);
    }
  }

  lemma {:induction false} SpelledAreFields(s: string, words: seq<string>)
    requires Spells(s, words)
    ensures Fields(s) == words
    decreases |words|
  {
    if words == [] {
      SpaceHasNoFields(s);
    } else {
      var space, rest :|
        && s == space + words[0] + rest && AllSpace(space) && words[0] != "" && NoSpace(words[0])
        && (rest == "" || IsSpace(rest[0])) && Spells(rest, words[1..]);
      SpaceBefore(space, words[0] + rest);
      Associative(space, words[0], rest);
      FirstField(words[0], rest);
      SpelledAreFields(rest, words[1..]);
    }
  }

  lemma {:induction false} SpaceBefore(space: string, s: string)
    requires AllSpace(space)
    ensures Fields(space + s) == Fields(s)
  {
    if space == "" {
      assert "" + s == s;
    } else {
      assert space[0] in space && (space + s)[1..] == space[1..] + s;
      LeadingSpace(space + s);
      SpaceBefore(space[1..], s);
    }
  }

  lemma SpaceHasNoFields(s: string)
    requires AllSpace(s)
    ensures Fields(s) == []
  {
    SpaceBefore(s, "");
    assert s + "" == s;
  }

  /** The fields of a text are the words that it spells. */
  lemma FieldsExactly(s: string, words: seq<string>)
    ensures Fields(s) == words <==> Spells(s, words)
  {
    FieldsSpell(s);
    if Spells(s, words) { SpelledAreFields(s, words); }
  }

  predicate NoSpace(s: string) {
    forall c | c in s :: !IsSpace(c)
  }

  lemma {:induction false} WordThenSpace(word: string, rest: string)
    requires NoSpace(word)
    requires rest == "" || IsSpace(rest[0])
    ensures WordLength(word + rest) == |word|
  {
    var s := word + rest;
    if word != "" {
      assert word[0] in word && s[0] == word[0] && s[1..] == word[1..] + rest;
      WordThenSpace(word[1..], rest);
    } else {
      assert s == rest;
    }
  }

  /** The first field of a text that begins with a word followed by white space or nothing. */
  lemma FirstField(word: string, rest: string)
    requires word != "" && NoSpace(word)
    requires rest == "" || IsSpace(rest[0])
    ensures Fields(word + rest) == [word] + Fields(rest)
  {
    var s := word + rest;
    assert word[0] in word && s[0] == word[0];
    WordThenSpace(word, rest);
    assert s[..|word|] == word && s[|word|..] == rest;
  }

  lemma LeadingSpace(s: string)
    requires s != "" && IsSpace(s[0])
    ensures SkipSpace(s) == SkipSpace(s[1..]) && Fields(s) == Fields(s[1..])
  {
  }

  /** Any character can rule a prefix out. */
  lemma NotPrefixAt(s: string, prefix: string, k: nat)
    requires k < |s| && k < |prefix| && s[k] != prefix[k]
    ensures !HasPrefix(s, prefix)
  {
    if |prefix| <= |s| { assert s[..|prefix|][k] == s[k]; }
  }

  lemma NotPrefix(s: string, prefix: string)
    requires s != "" && prefix != "" && s[0] != prefix[0]
    ensures !HasPrefix(s, prefix)
  {
    NotPrefixAt(s, prefix, 0);
  }

  // ---------------------------------------------------------------- decimal numerals

  predicate IsDigit(c: char) { '0' <= c <= '9' }

  predicate AllDigits(s: string) {
    s != "" && forall c | c in s :: IsDigit(c)
  }

  function DigitValue(s: string): nat
    requires forall c | c in s :: IsDigit(c)
  {
    if s == "" then 0
    else
      var last := s[|s| - 1];
      assert last in s && IsDigit(last);
      10 * DigitValue(s[..|s| - 1]) + ((last as int) - ('0' as int))
  }

  /** The decimal numeral of a natural number, as fmt's %d and JavaScript's String print it. */
  function Decimal(n: nat): string {
    var digit := [('0' as int + n % 10) as char];
    if n < 10 then digit else Decimal(n / 10) + digit
  }

  lemma {:induction false} DecimalIsFaithful(n: nat)
    ensures AllDigits(Decimal(n)) && DigitValue(Decimal(n)) == n
  {
    var digit := ('0' as int + n % 10) as char;
    if n < 10 {
      assert Decimal(n) == [digit];
      assert Decimal(n)[..0] == "";
    } else {
      DecimalIsFaithful(n / 10);
      var front := Decimal(n / 10);
      assert Decimal(n) == front + [digit];
      assert (front + [digit])[..|front|] == front;
    }
  }

  function Zeros(n: nat): (r: string)
    ensures |r| == n && forall c | c in r :: c == '0'
  {
    seq(n, _ => '0')
  }

  lemma ZerosStep(n: nat)
    ensures Zeros(n) + "0" == Zeros(n + 1)
  {
  }

  lemma {:induction false} ZerosAreNothing(zeros: nat)
    ensures DigitValue(Zeros(zeros)) == 0
  {
    if zeros > 0 {
      ZerosAreNothing(zeros - 1);
      assert Zeros(zeros)[..zeros - 1] == Zeros(zeros - 1) && Zeros(zeros)[zeros - 1] in Zeros(zeros);
    }
  }

  lemma {:induction false} PaddedValue(zeros: nat, n: nat)
    ensures AllDigits(Zeros(zeros) + Decimal(n)) && DigitValue(Zeros(zeros) + Decimal(n)) == n
    decreases n
  {
    var digit := ('0' as int + n % 10) as char;
    var front := if n < 10 then Zeros(zeros) else Zeros(zeros) + Decimal(n / 10);
    var s := Zeros(zeros) + Decimal(n);
    assert s == front + [digit] && s[..|s| - 1] == front && s[|s| - 1] == digit;
    if n < 10 { ZerosAreNothing(zeros); } else { PaddedValue(zeros, n / 10); }
  }

  lemma DecimalStep(m: nat, digit: char)
    requires IsDigit(digit)
    ensures var d := digit as int - '0' as int; Decimal(10 * m + d) == (if m == 0 then "" else Decimal(m)) + [digit]
  {
    var d := digit as int - '0' as int;
    assert (10 * m + d) % 10 == d && (10 * m + d) / 10 == m;
  }

  lemma {:induction false} PaddingOf(s: string) returns (zeros: nat)
    requires AllDigits(s)
    ensures s == Zeros(zeros) + Decimal(DigitValue(s))
    decreases |s|
  {
    hide Decimal;
    hide Zeros;
    var k := |s| - 1;
    var front, digit := s[..k], s[k];
    assert digit in s && IsDigit(digit) && s == front + [digit];
    DecimalStep(DigitValue(front), digit);
    if front == "" {
      zeros := 0;
    } else {
      var before := PaddingOf(front);
      if DigitValue(front) == 0 {
        zeros := before + 1;
        DecimalStep(0, '0');
        ZerosStep(before);
      } else {
        zeros := before;
        Associative(Zeros(before), Decimal(DigitValue(front)), [digit]);
      }
    }
  }

  /** A text of digits is the numeral of its value behind some zeros. */
  lemma NumeralExactly(s: string, n: nat)
    ensures AllDigits(s) && DigitValue(s) == n <==> exists zeros :: s == Zeros(zeros) + Decimal(n)
  {
    if AllDigits(s) { var zeros := PaddingOf(s); }
    forall zeros | s == Zeros(zeros) + Decimal(n) ensures AllDigits(s) && DigitValue(s) == n { PaddedValue(zeros, n); }
  }
}
