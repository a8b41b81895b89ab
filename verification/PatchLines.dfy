/** What the reader of internal/tools/patch_headers.go makes of a single line, and of the texts and limits it
    starts from, written out for every input. */
module PatchLines {
  import opened Text
  import opened PatchHeaders

  // ---------------------------------------------------------------- before the first line

  /** No empty, binary or NUL-bearing patch is accepted. */
  lemma NothingBinary(patch: string, limits: Limits)
    ensures || patch == "" || Contains(patch, [0 as char]) || Contains(patch, "GIT binary patch") || Contains(patch, "Binary files ")
            ==> Parsed(patch, limits) == Err(InvalidPatch)
    ensures !(patch == "" || Contains(patch, [0 as char]) || Contains(patch, "GIT binary patch") || Contains(patch, "Binary files "))
            ==> !Refused(patch)
  {
    assert "\0" == [0 as char];
  }

  /** A limit that is not positive, or above the maximum, becomes the maximum: five files and 500 lines. */
  lemma LimitsExactly(limits: Limits)
    ensures Bounded(limits).maxFiles == if 1 <= limits.maxFiles <= 5 then limits.maxFiles else 5
    ensures Bounded(limits).maxChangedLines == if 1 <= limits.maxChangedLines <= 500 then limits.maxChangedLines else 500
  {
  }

  // ---------------------------------------------------------------- lines outside hunks

  /** Renames, copies by similarity and changes of mode. */
  predicate BeginsForbidden(line: string) {
    exists k | 0 <= k < 7 ::
      HasPrefix(line, ["rename from ", "rename to ", "similarity index ", "old mode ", "new mode ",
                       "new file mode ", "deleted file mode "][k])
  }

  predicate BeginsHeader(line: string) {
    HasPrefix(line, "--- ") || HasPrefix(line, "+++ ") || HasPrefix(line, "@@ ")
  }

  lemma BeginsForbiddenMeans(line: string)
    ensures BeginsForbidden(line) <==> ForbiddenLine(line)
  {
    var starts := ["rename from ", "rename to ", "similarity index ", "old mode ", "new mode ",
                   "new file mode ", "deleted file mode "];
    assert forall k | 0 <= k < 7 :: HasPrefix(line, starts[k]) ==> ForbiddenLine(line);
    if ForbiddenLine(line) {
      assert || HasPrefix(line, starts[0]) || HasPrefix(line, starts[1]) || HasPrefix(line, starts[2]) || HasPrefix(line, starts[3])
             || HasPrefix(line, starts[4]) || HasPrefix(line, starts[5]) || HasPrefix(line, starts[6]);
    }
  }

  /** Where the lines before it leave no hunk open, a line with a forbidden beginning is the end of the patch,
      and a line that begins no header can be dropped. */
  lemma LineOutsideHunks(before: seq<string>, line: string, after: seq<string>, limits: Limits)
    requires var s := Scanned(before, START, Bounded(limits)); s.Ok? && !s.value.InHunk()
    ensures BeginsForbidden(line) ==> Scanned(before + [line] + after, START, Bounded(limits)) == Err(InvalidPatch)
    ensures !BeginsForbidden(line) && !BeginsHeader(line) ==>
              Scanned(before + [line] + after, START, Bounded(limits)) == Scanned(before + after, START, Bounded(limits))
  {
    var bound := Bounded(limits);
    var s := Scanned(before, START, bound).value;
    BeginsForbiddenMeans(line);
    Associative(before, [line], after);
    ScannedConcat(before, [line] + after, START, bound);
    ScannedConcat(before, after, START, bound);
    assert ([line] + after)[1..] == after && s.(paths := s.paths) == s;
  }

  /** No accepted patch has a line with a forbidden beginning outside its hunks. */
  lemma NothingForbidden(patch: string, limits: Limits, k: nat)
    requires Parsed(patch, limits).Ok? && k < |Split(patch, '\n')|
    ensures var lines := Split(patch, '\n'); var s := Scanned(lines[..k], START, Bounded(limits));
            s.Ok? && (!s.value.InHunk() ==> !BeginsForbidden(lines[k]))
  {
    var lines := Split(patch, '\n');
    assert lines == lines[..k] + lines[k..] && lines[k..] == [lines[k]] + lines[k + 1..];
    ScannedConcat(lines[..k], lines[k..], START, Bounded(limits));
    if !Scanned(lines[..k], START, Bounded(limits)).value.InHunk() {
      LineOutsideHunks(lines[..k], lines[k], lines[k + 1..], limits);
      Associative(lines[..k], [lines[k]], lines[k + 1..]);
    }
  }

  // ---------------------------------------------------------------- lines inside hunks

  /** The first character of a line in a hunk decides; the marker for a missing newline counts for nothing. */
  lemma LineInHunk(line: string, olds: nat, news: nat)
    ensures HunkLine(line, olds, news) ==
            if line != "" && line[0] == '+' && news > 0 then Ok((olds, (news - 1) as nat, 1))
            else if line != "" && line[0] == '-' && olds > 0 then Ok(((olds - 1) as nat, news, 1))
            else if line != "" && line[0] == ' ' && olds > 0 && news > 0 then Ok(((olds - 1) as nat, (news - 1) as nat, 0))
            else if "\\ No newline at end of file" <= line then Ok((olds, news, 0))
            else Err(InvalidPatch)
  {
    if line != "" { assert line[..1] == [line[0]]; }
    if HasPrefix(line, NO_NEWLINE) { assert line[0] == line[..|NO_NEWLINE|][0] == '\\'; }
  }

  // ---------------------------------------------------------------- header fields

  /** The first word of the text, if there is one. */
  ghost predicate FirstWord(s: string, word: string) {
    exists words :: Spells(s, words) && words != [] && words[0] == word
  }

  /** A file header names the path that its first word has after the prefix. */
  lemma PathExactly(header: string, side: string, path: string)
    requires side in {"a/", "b/"}
    ensures PatchPath(header, side) == Ok(path) <==> path != "" && FirstWord(header, side + path)
    ensures PatchPath(header, side).Err? ==> PatchPath(header, side) == Err(InvalidPatch)
  {
    var fields := Fields(header);
    FieldsExactly(header, fields);
    forall words | Spells(header, words) ensures words == fields { FieldsExactly(header, words); }
    assert (side + path)[..2] == side && (side + path)[2..] == path;
    assert side[0] != '/' && "/dev/null"[0] == '/';
    if fields != [] && HasPrefix(fields[0], side) { assert fields[0] == side + fields[0][2..]; }
  }

  /** A decimal number as Atoi reads it: leading zeros and a plus sign do not matter; minus zero is zero. */
  ghost predicate ReadsAs(number: string, n: nat) {
    exists sign, zeros ::
      && number == sign + (Zeros(zeros) + Decimal(n)) && n <= 0x7FFF_FFFF_FFFF_FFFF
      && (sign == "" || sign == "+" || (sign == "-" && n == 0))
  }

  lemma AtoiExactly(number: string, n: nat)
    ensures Atoi(number) == Ok(n) <==> ReadsAs(number, n)
  {
    hide Zeros;
    hide Decimal;
    if Atoi(number) == Ok(n) { AtoiReads(number, n); }
    hide Atoi;
    forall sign, zeros |
      && number == sign + (Zeros(zeros) + Decimal(n)) && n <= 0x7FFF_FFFF_FFFF_FFFF
      && (sign == "" || sign == "+" || (sign == "-" && n == 0))
      ensures Atoi(number) == Ok(n)
    {
      AtoiOfNumeral(sign, zeros, n);
    }
  }

  lemma AtoiReads(number: string, n: nat)
    requires Atoi(number) == Ok(n)
    ensures ReadsAs(number, n)
  {
    hide Zeros;
    hide Decimal;
    hide DigitValue;
    var signed := number[0] == '-' || number[0] == '+';
    var sign, digits := if signed then number[..1] else "", if signed then number[1..] else number;
    NumeralExactly(digits, n);
    var zeros :| digits == Zeros(zeros) + Decimal(n);
    assert number == sign + digits;
    assert signed ==> sign == [number[0]];
  }

  lemma AtoiOfDigits(sign: string, digits: string)
    requires AllDigits(digits) && DigitValue(digits) <= MAX_INT
    requires sign == "" || sign == "+" || (sign == "-" && DigitValue(digits) == 0)
    ensures Atoi(sign + digits) == Ok(DigitValue(digits))
  {
    assert digits[0] in digits && IsDigit(digits[0]);
    if sign == "" { assert sign + digits == digits; } else { assert (sign + digits)[1..] == digits; }
  }

  lemma AtoiOfNumeral(sign: string, zeros: nat, n: nat)
    requires n <= MAX_INT && (sign == "" || sign == "+" || (sign == "-" && n == 0))
    ensures Atoi(sign + (Zeros(zeros) + Decimal(n))) == Ok(n)
  {
    hide Zeros;
    hide Decimal;
    hide DigitValue;
    var digits := Zeros(zeros) + Decimal(n);
    PaddedValue(zeros, n);
    AtoiOfDigits(sign, digits);
  }

  /** The range of one side of a hunk: where it starts, and how many lines it has, one if that is left out. */
  ghost predicate Ranges(word: string, side: string, n: nat) {
    || (n == 1 && exists start :: start != "" && ',' !in start && word == side + start)
    || exists start, count :: start != "" && ',' !in start && ',' !in count && word == side + (start + "," + count) && ReadsAs(count, n)
  }

  lemma CountExactly(word: string, side: string, n: nat)
    ensures HunkCount(word, side) == Ok(n) <==> Ranges(word, side, n)
  {
    if HunkCount(word, side) == Ok(n) { CountRanges(word, side, n); }
    forall start | start != "" && ',' !in start && word == side + start && n == 1 ensures HunkCount(word, side) == Ok(n) {
      assert word[..|side|] == side && word[|side|..] == start;
      SplitWithoutSeparator(start, ',');
    }
    forall start, count |
      start != "" && ',' !in start && ',' !in count && word == side + (start + "," + count) && ReadsAs(count, n)
      ensures HunkCount(word, side) == Ok(n)
    {
      assert word[..|side|] == side && word[|side|..] == start + [','] + count;
      SplitAtSeparator(start, count, ',');
      SplitWithoutSeparator(start, ',');
      SplitWithoutSeparator(count, ',');
      AtoiExactly(count, n);
    }
  }

  lemma CountRanges(word: string, side: string, n: nat)
    requires HunkCount(word, side) == Ok(n)
    ensures Ranges(word, side, n)
  {
    var range := word[|side|..];
    var parts := Split(range, ',');
    SplitPartsAreFree(range, ',');
    JoinOfSplit(range, ',');
    assert word == side + range;
    if |parts| == 2 {
      AtoiExactly(parts[1], n);
      assert parts[1..] == [parts[1]] && range == parts[0] + "," + parts[1];
    }
  }

  /** A hunk header declares these numbers of lines exactly if it spells at least four words, the first and the
      fourth two signs each, and the second and third the ranges. Whatever follows does not matter. */
  lemma HunkHeaderExactly(line: string, olds: nat, news: nat)
    ensures HunkHeader(line) == Ok((olds, news)) <==>
              exists words ::
                && Spells(line, words) && |words| >= 4 && words[0] == "@@" && words[3] == "@@"
                && Ranges(words[1], "-", olds) && Ranges(words[2], "+", news)
  {
    hide Ranges;
    var fields := Fields(line);
    FieldsExactly(line, fields);
    forall words | Spells(line, words) ensures words == fields { FieldsExactly(line, words); }
    if |fields| >= 4 {
      CountExactly(fields[1], "-", olds);
      CountExactly(fields[2], "+", news);
    }
  }
}
