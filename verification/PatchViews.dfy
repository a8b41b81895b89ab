/** What the policy's reader and the approval display make of any text, patch or not, line by line
    (internal/policy/risk.go and internal/agent/approval.go). */
module PatchViews {
  import opened Text
  import opened PatchHeaders
  import opened PatchGrammar
  import opened PatchReaders
  import opened PatchLines

  predicate IsOld(line: string) { HasPrefix(line, "--- ") }
  predicate IsNew(line: string) { HasPrefix(line, "+++ ") }

  /** The header names this path: it is the first word, without the prefix of its side if that is there. */
  ghost predicate Names(line: string, side: string, path: string) {
    |line| >= 4 && exists word ::
      FirstWord(line[4..], word) && path != "" && (word == side + path || (word == path && !HasPrefix(word, side)))
  }

  lemma NamesExactly(line: string, side: string, path: string)
    requires |line| >= 4 && side in {"a/", "b/"}
    ensures Names(line, side, path) <==> path != "" && DiffPath(line[4..], side) == path
  {
    var fields := Fields(line[4..]);
    FieldsExactly(line[4..], fields);
    forall words | Spells(line[4..], words) ensures words == fields { FieldsExactly(line[4..], words); }
    assert (side + path)[..2] == side && (side + path)[2..] == path;
    if fields != [] {
      assert FirstWord(line[4..], fields[0]);
      if HasPrefix(fields[0], side) { assert fields[0] == side + fields[0][2..]; }
    }
  }

  /** The display leaves /dev/null out. */
  ghost predicate Shows(line: string, side: string, path: string) {
    Names(line, side, path) && !FirstWord(line[4..], "/dev/null")
  }

  lemma ShowsExactly(line: string, side: string, path: string)
    requires |line| >= 4 && side in {"a/", "b/"}
    ensures Shows(line, side, path) <==> path != "" && PatchHeaderPath(line[4..], side) == path
  {
    var fields := Fields(line[4..]);
    FieldsExactly(line[4..], fields);
    forall words | Spells(line[4..], words) ensures words == fields { FieldsExactly(line[4..], words); }
    if fields != [] { assert FirstWord(line[4..], fields[0]); }
    NamesExactly(line, side, path);
  }

  predicate NoHeaders(lines: seq<string>, from: int, end: int) {
    forall i | from <= i < end && 0 <= i < |lines| :: !IsOld(lines[i]) && !IsNew(lines[i])
  }

  /** The last header before the line k is the old header j. */
  ghost predicate Pairs(lines: seq<string>, j: int, k: int) {
    0 <= j < k <= |lines| && IsOld(lines[j]) && NoHeaders(lines, j + 1, k)
  }

  lemma OldIsNotNew(line: string)
    ensures !(IsOld(line) && IsNew(line))
  {
    if IsOld(line) {
      assert line[..4][0] == '-';
      NotPrefix(line, "+++ ");
    }
  }

  lemma PairsStep(lines: seq<string>, j: int, n: nat)
    requires n < |lines|
    ensures Pairs(lines, j, n + 1) <==> if IsOld(lines[n]) then j == n else !IsNew(lines[n]) && Pairs(lines, j, n)
  {
    OldIsNotNew(lines[n]);
    if Pairs(lines, j, n + 1) && j < n { assert !IsOld(lines[n]) && !IsNew(lines[n]); }
  }

  // ---------------------------------------------------------------- the display

  /** The old header that is the last header before the line n puts this path on display if nothing else does. */
  ghost predicate OldShown(lines: seq<string>, n: int, path: string) {
    exists j :: Pairs(lines, j, n) && Shows(lines[j], "a/", path)
  }

  /** The new header in line k, or else the old header before it, puts this path on display. */
  ghost predicate Displays(lines: seq<string>, k: int, path: string) {
    && 0 <= k < |lines| && IsNew(lines[k])
    && (Shows(lines[k], "b/", path) || ((forall other :: !Shows(lines[k], "b/", other)) && OldShown(lines, k, path)))
  }

  /** A header before the line n puts this path on display. */
  ghost predicate ShownBefore(lines: seq<string>, n: int, path: string) {
    exists k :: k < n && Displays(lines, k, path)
  }

  ghost predicate OnDisplay(lines: seq<string>, path: string) { exists k :: Displays(lines, k, path) }

  lemma ShownBeforeStep(lines: seq<string>, n: nat, path: string)
    ensures ShownBefore(lines, n + 1, path) <==> ShownBefore(lines, n, path) || Displays(lines, n, path)
    ensures !ShownBefore(lines, 0, path) && !OldShown(lines, 0, path)
  {
  }

  lemma NothingShown(line: string)
    requires |line| >= 4
    ensures (forall other :: !Shows(line, "b/", other)) <==> PatchHeaderPath(line[4..], "b/") == ""
  {
    ShowsExactly(line, "b/", PatchHeaderPath(line[4..], "b/"));
    forall other ensures Shows(line, "b/", other) <==> other != "" && PatchHeaderPath(line[4..], "b/") == other {
      ShowsExactly(line, "b/", other);
    }
  }

  lemma OldShownStep(lines: seq<string>, n: nat, path: string)
    requires n < |lines|
    ensures OldShown(lines, n + 1, path) <==>
              if IsOld(lines[n]) then Shows(lines[n], "a/", path) else !IsNew(lines[n]) && OldShown(lines, n, path)
  {
    hide Shows;
    PairsStep(lines, n, n);
    if j :| Pairs(lines, j, n + 1) && Shows(lines[j], "a/", path) { PairsStep(lines, j, n); }
    if j :| Pairs(lines, j, n) && Shows(lines[j], "a/", path) { PairsStep(lines, j, n); }
  }

  lemma DisplayOne(line: string, s: Display)
    ensures DisplayLines([line], s) == DisplayLine(line, s)
  {
    assert [line][1..] == [];
  }

  lemma {:induction false} DisplayUpTo(lines: seq<string>, n: nat, path: string)
    requires n <= |lines|
    ensures var s := DisplayLines(lines[..n], Display({}, ""));
            && (path in s.files <==> ShownBefore(lines, n, path))
            && (path != "" ==> (path == s.oldPath <==> OldShown(lines, n, path)))
            && !OldShown(lines, n, "")
  {
    hide Shows;
    hide ShownBefore;
    hide OldShown;
    hide PatchHeaderPath;
    hide DisplayLines;
    if n > 0 {
      var line, before := lines[n - 1], DisplayLines(lines[..n - 1], Display({}, ""));
      DisplayUpTo(lines, n - 1, path);
      assert lines[..n] == lines[..n - 1] + [line];
      DisplayConcat(lines[..n - 1], [line], Display({}, ""));
      DisplayOne(line, before);
      OldIsNotNew(line);
      ShownBeforeStep(lines, n - 1, path);
      OldShownStep(lines, n - 1, path);
      OldShownStep(lines, n - 1, "");
      if IsNew(line) {
        NothingShown(line);
        ShowsExactly(line, "b/", path);
      } else if IsOld(line) {
        ShowsExactly(line, "a/", path);
        ShowsExactly(line, "a/", "");
      }
    } else {
      ShownBeforeStep(lines, 0, path);
      ShownBeforeStep(lines, 0, "");
      NoLines();
    }
  }

  lemma NoLines()
    ensures DisplayLines([], Display({}, "")) == Display({}, "")
  {
  }

  /** For every text: the display shows the paths of the new headers, and where a new header has none, that of
      the old header before it. */
  lemma DisplayExactly(patch: string, path: string)
    ensures path in DisplayView(patch) <==> OnDisplay(Split(patch, '\n'), path)
  {
    hide ShownBefore;
    hide OnDisplay;
    var lines := Split(patch, '\n');
    DisplayUpTo(lines, |lines|, path);
    assert lines[..|lines|] == lines;
    InRange(lines, path);
  }

  lemma InRange(lines: seq<string>, path: string)
    ensures ShownBefore(lines, |lines|, path) <==> OnDisplay(lines, path)
  {
  }

  // ---------------------------------------------------------------- the policy's reader

  ghost predicate Named(line: string, side: string) { exists path :: Names(line, side, path) }
  ghost predicate Paired(lines: seq<string>, k: int) { exists j :: Pairs(lines, j, k) }

  /** The header in this line, if it is one, names a path, and a new one has an old one before it. */
  ghost predicate InOrder(lines: seq<string>, k: nat)
    requires k < |lines|
  {
    && (IsOld(lines[k]) ==> Named(lines[k], "a/"))
    && (IsNew(lines[k]) ==> Named(lines[k], "b/") && Paired(lines, k))
  }

  ghost predicate AllInOrder(lines: seq<string>, n: int) {
    forall k | 0 <= k < n && k < |lines| :: InOrder(lines, k)
  }

  ghost predicate OldNamed(lines: seq<string>, n: int, path: string) {
    exists j :: Pairs(lines, j, n) && Names(lines[j], "a/", path)
  }

  /** The new header in line k, or the old header before it, names this path, which is not /dev/null. */
  ghost predicate Mentions(lines: seq<string>, k: int, path: string) {
    0 <= k < |lines| && IsNew(lines[k]) && path != "/dev/null" && (Names(lines[k], "b/", path) || OldNamed(lines, k, path))
  }

  ghost predicate MentionedBefore(lines: seq<string>, n: int, path: string) {
    exists k :: k < n && Mentions(lines, k, path)
  }

  /** A line that counts as changed: it begins with a sign and is no header. */
  predicate Changes(line: string) {
    line != "" && (line[0] == '+' || line[0] == '-') && !IsOld(line) && !IsNew(line)
  }

  lemma NamedExactly(line: string, side: string)
    requires |line| >= 4 && side in {"a/", "b/"}
    ensures Named(line, side) <==> DiffPath(line[4..], side) != ""
  {
    hide Names;
    NamesExactly(line, side, DiffPath(line[4..], side));
    if path :| Names(line, side, path) { NamesExactly(line, side, path); }
  }

  lemma OldNamedStep(lines: seq<string>, n: nat, path: string)
    requires n < |lines|
    ensures OldNamed(lines, n + 1, path) <==>
              if IsOld(lines[n]) then Names(lines[n], "a/", path) else !IsNew(lines[n]) && OldNamed(lines, n, path)
    ensures Paired(lines, n + 1) <==> IsOld(lines[n]) || (!IsNew(lines[n]) && Paired(lines, n))
  {
    hide Names;
    PairsStep(lines, n, n);
    if j :| Pairs(lines, j, n + 1) && Names(lines[j], "a/", path) { PairsStep(lines, j, n); }
    if j :| Pairs(lines, j, n) && Names(lines[j], "a/", path) { PairsStep(lines, j, n); }
    var m := n + 1;
    if j :| Pairs(lines, j, m) { PairsStep(lines, j, n); }
    if j :| Pairs(lines, j, n) { PairsStep(lines, j, n); }
  }

  lemma MentionedStep(lines: seq<string>, n: nat, path: string)
    ensures MentionedBefore(lines, n + 1, path) <==> MentionedBefore(lines, n, path) || Mentions(lines, n, path)
    ensures AllInOrder(lines, n + 1) <==> AllInOrder(lines, n) && (n < |lines| ==> InOrder(lines, n))
  {
  }

  lemma NothingYet(lines: seq<string>, path: string)
    ensures !MentionedBefore(lines, 0, path) && !OldNamed(lines, 0, path) && !Paired(lines, 0) && AllInOrder(lines, 0)
    ensures SurveyLines([], EMPTY_SURVEY) == Surveyed(EMPTY_SURVEY)
  {
  }

  lemma ChangesExactly(line: string)
    ensures Changes(line) <==> Signed(line) && !IsOld(line) && !IsNew(line)
  {
    BodyLineKinds(line);
  }

  lemma SurveyOne(line: string, s: Survey)
    ensures SurveyLines([line], s) == SurveyLine(line, s)
  {
    assert [line][1..] == [];
  }

  /** What the reader has learnt from the first n lines. */
  ghost predicate Learnt(lines: seq<string>, n: nat, s: Survey, path: string)
    requires n <= |lines|
  {
    && (path in s.files <==> MentionedBefore(lines, n, path))
    && (path != "" ==> (path == s.oldPath <==> OldNamed(lines, n, path))) && !OldNamed(lines, n, "")
    && (s.oldPath != "" <==> Paired(lines, n))
    && s.changed == Count(Changes, lines[..n])
  }

  lemma LineLearnt(lines: seq<string>, n: nat, s: Survey, path: string)
    requires n < |lines| && Learnt(lines, n, s, path) && AllInOrder(lines, n)
    ensures var r := SurveyLine(lines[n], s);
            && (r.Surveyed? <==> AllInOrder(lines, n + 1))
            && (r.Surveyed? ==> Learnt(lines, n + 1, r.survey, path))
  {
    hide Names;
    hide Named;
    hide OldNamed;
    hide Paired;
    hide AllInOrder;
    hide MentionedBefore;
    hide DiffPath;
    var line := lines[n];
    MentionedStep(lines, n, path);
    OldNamedStep(lines, n, path);
    OldNamedStep(lines, n, "");
    OldIsNotNew(line);
    ChangesExactly(line);
    assert lines[..n + 1] == lines[..n] + [line];
    CountConcat(Changes, lines[..n], [line]);
    assert Count(Changes, [line]) == if Changes(line) then 1 else 0 by { assert [line][1..] == []; }
    if IsOld(line) {
      NamedExactly(line, "a/");
      NamesExactly(line, "a/", path);
      NamesExactly(line, "a/", "");
    } else if IsNew(line) {
      NamedExactly(line, "b/");
      NamesExactly(line, "b/", path);
    }
  }

  lemma {:induction false} SurveyUpTo(lines: seq<string>, n: nat, path: string)
    requires n <= |lines|
    ensures var r := SurveyLines(lines[..n], EMPTY_SURVEY);
            && (r.Surveyed? <==> AllInOrder(lines, n)) && (r.Surveyed? ==> Learnt(lines, n, r.survey, path))
  {
    hide SurveyLines;
    hide SurveyLine;
    hide Learnt;
    if n > 0 {
      var line, before := lines[n - 1], SurveyLines(lines[..n - 1], EMPTY_SURVEY);
      SurveyUpTo(lines, n - 1, path);
      assert lines[..n] == lines[..n - 1] + [line];
      SurveyConcat(lines[..n - 1], [line], EMPTY_SURVEY);
      if before.Surveyed? {
        SurveyOne(line, before.survey);
        LineLearnt(lines, n - 1, before.survey, path);
      }
    } else {
      NothingYet(lines, path);
      LearntNothing(lines, path);
    }
  }

  lemma LearntNothing(lines: seq<string>, path: string)
    ensures Learnt(lines, 0, EMPTY_SURVEY, path)
  {
    NothingYet(lines, path);
    NothingYet(lines, "");
  }

  /** For every text: the policy refuses it exactly if some header names no path, or some new header has no old
      one right before it, or the last header is an old one, or no path but /dev/null is named. Otherwise its
      files are the paths named by the new headers and the old ones before them, and it counts the lines that
      begin with a sign and are no headers. */
  lemma PolicyExactly(patch: string, path: string)
    ensures var lines, r := Split(patch, '\n'), PolicyView(patch);
            && (r.Surveyed? <==> AllInOrder(lines, |lines|) && !Paired(lines, |lines|)
                                 && exists p :: MentionedBefore(lines, |lines|, p))
            && (r.Surveyed? ==>
                  && (path in r.survey.files <==> MentionedBefore(lines, |lines|, path))
                  && r.survey.changed == Count(Changes, lines))
  {
    hide MentionedBefore;
    hide AllInOrder;
    hide Paired;
    var lines := Split(patch, '\n');
    var r := SurveyLines(lines, EMPTY_SURVEY);
    assert lines[..|lines|] == lines;
    forall p: string ensures (r.Surveyed? <==> AllInOrder(lines, |lines|)) && (r.Surveyed? ==> Learnt(lines, |lines|, r.survey, p)) {
      SurveyUpTo(lines, |lines|, p);
    }
    SurveyUpTo(lines, |lines|, path);
    if r.Surveyed? {
      PairsOfFiles(lines, EMPTY_SURVEY);
      if r.survey.files != {} { var p :| p in r.survey.files; assert Learnt(lines, |lines|, r.survey, p); }
      if p :| MentionedBefore(lines, |lines|, p) { assert Learnt(lines, |lines|, r.survey, p); }
    }
  }

  /** Without a pair there are no files. */
  lemma {:induction false} PairsOfFiles(lines: seq<string>, s: Survey)
    requires s.pairs == 0 ==> s.files == {}
    ensures var r := SurveyLines(lines, s); r.Surveyed? ==> (r.survey.pairs == 0 ==> r.survey.files == {})
  {
    if lines != [] {
      var r := SurveyLine(lines[0], s);
      if r.Surveyed? { PairsOfFiles(lines[1..], r.survey); }
    }
  }
}
