/** The two other places that scan a patch for file headers: the policy's risk classification
    (internal/policy/risk.go) and the approval display (internal/agent/approval.go). Neither tracks
    hunks, so a line of a hunk body that looks like a file header is one to them. */
module PatchReaders {
  import opened Text
  import opened PatchHeaders
  import opened PatchGrammar

  const DEV_NULL := "/dev/null"

  // ---------------------------------------------------------------- validatePatch

  /** diffPath */
  function DiffPath(header: string, prefix: string): string {
    var fields := Fields(header);
    if fields == [] then "" else TrimPrefix(fields[0], prefix)
  }

  datatype Survey = Survey(files: set<string>, changed: nat, oldPath: string, pairs: nat)
  datatype SurveyResult = Surveyed(survey: Survey) | InvalidSchema

  predicate Signed(line: string) { HasPrefix(line, "+") || HasPrefix(line, "-") }

  function SurveyLine(line: string, s: Survey): SurveyResult {
    if HasPrefix(line, "--- ") then
      var path := DiffPath(line[4..], "a/");
      if path == "" then InvalidSchema else Surveyed(s.(oldPath := path))
    else if HasPrefix(line, "+++ ") then
      var path := DiffPath(line[4..], "b/");
      if s.oldPath == "" || path == "" then InvalidSchema
      else Surveyed(s.(files := s.files + ({s.oldPath, path} - {DEV_NULL}), oldPath := "", pairs := s.pairs + 1))
    else if Signed(line) then Surveyed(s.(changed := s.changed + 1))
    else Surveyed(s)
  }

  function SurveyLines(lines: seq<string>, s: Survey): SurveyResult {
    if lines == [] then Surveyed(s)
    else
      match SurveyLine(lines[0], s)
      case InvalidSchema => InvalidSchema
      case Surveyed(next) => SurveyLines(lines[1..], next)
  }

  const EMPTY_SURVEY := Survey({}, 0, "", 0)

  /** What validatePatch learns about a patch that is a non-empty JSON string. */
  function PolicyView(patch: string): SurveyResult {
    match SurveyLines(Split(patch, '\n'), EMPTY_SURVEY)
    case InvalidSchema => InvalidSchema
    case Surveyed(s) => if s.pairs == 0 || s.oldPath != "" || s.files == {} then InvalidSchema else Surveyed(s)
  }

  /** validatePatch, up to the classification of each path. */
  method ValidatePatch(patch: string) returns (r: SurveyResult)
    ensures r == PolicyView(patch)
  {
    var files: set<string> := {};
    var changedLines: nat := 0;
    var oldPath := "";
    var pairs: nat := 0;
    var lines := Split(patch, '\n');
    for i := 0 to |lines|
      invariant SurveyLines(lines, EMPTY_SURVEY) == SurveyLines(lines[i..], Survey(files, changedLines, oldPath, pairs))
    {
      var line := lines[i];
      assert lines[i..][0] == line && lines[i..][1..] == lines[i + 1..];
      if HasPrefix(line, "--- ") {
        oldPath := DiffPath(line[4..], "a/");
        if oldPath == "" {
          return InvalidSchema;
        }
        continue;
      }
      if HasPrefix(line, "+++ ") {
        var newPath := DiffPath(line[4..], "b/");
        if oldPath == "" || newPath == "" {
          return InvalidSchema;
        }
        ghost var before := files;
        if oldPath != DEV_NULL {
          files := files + {oldPath};
        }
        if newPath != DEV_NULL {
          files := files + {newPath};
        }
        assert files == before + ({oldPath, newPath} - {DEV_NULL});
        pairs := pairs + 1;
        oldPath := "";
        continue;
      }
      if Signed(line) {
        changedLines := changedLines + 1;
      }
    }
    assert lines[|lines|..] == [];
    if pairs == 0 || oldPath != "" || files == {} {
      return InvalidSchema;
    }
    return Surveyed(Survey(files, changedLines, oldPath, pairs));
  }

  // ---------------------------------------------------------------- affectedFiles

  /** patchHeaderPath */
  function PatchHeaderPath(header: string, prefix: string): string {
    var fields := Fields(header);
    if fields == [] || fields[0] == DEV_NULL then "" else TrimPrefix(fields[0], prefix)
  }

  datatype Display = Display(files: set<string>, oldPath: string)

  function DisplayLine(line: string, s: Display): Display {
    if HasPrefix(line, "--- ") then s.(oldPath := PatchHeaderPath(line[4..], "a/"))
    else if HasPrefix(line, "+++ ") then
      var newPath := PatchHeaderPath(line[4..], "b/");
      Display(s.files + (if newPath != "" then {newPath} else if s.oldPath != "" then {s.oldPath} else {}), "")
    else s
  }

  function DisplayLines(lines: seq<string>, s: Display): Display {
    if lines == [] then s else DisplayLines(lines[1..], DisplayLine(lines[0], s))
  }

  function DisplayView(patch: string): set<string> {
    DisplayLines(Split(patch, '\n'), Display({}, "")).files
  }

  /** The header scan of affectedFiles for an apply_patch action; sorting the set is left to the caller. */
  method AffectedFiles(patch: string) returns (files: set<string>)
    ensures files == DisplayView(patch)
  {
    files := {};
    var oldPath := "";
    var lines := Split(patch, '\n');
    for i := 0 to |lines|
      invariant DisplayLines(lines, Display({}, "")) == DisplayLines(lines[i..], Display(files, oldPath))
    {
      var line := lines[i];
      assert lines[i..][0] == line && lines[i..][1..] == lines[i + 1..];
      ghost var before := Display(files, oldPath);
      if HasPrefix(line, "--- ") {
        oldPath := PatchHeaderPath(line[4..], "a/");
      } else if HasPrefix(line, "+++ ") {
        var newPath := PatchHeaderPath(line[4..], "b/");
        if newPath != "" {
          files := files + {newPath};
        } else if oldPath != "" {
          files := files + {oldPath};
        }
        oldPath := "";
        assert files == before.files + (if newPath != "" then {newPath}
                                        else if before.oldPath != "" then {before.oldPath} else {});
      }
    }
    assert lines[|lines|..] == [];
  }

  // ---------------------------------------------------------------- reading documents

  lemma {:induction false} SurveyConcat(a: seq<string>, b: seq<string>, s: Survey)
    ensures SurveyLines(a + b, s) ==
            match SurveyLines(a, s) case Surveyed(mid) => SurveyLines(b, mid) case InvalidSchema => InvalidSchema
  {
    if a == [] {
      assert a + b == b;
    } else {
      assert (a + b)[1..] == a[1..] + b;
      match SurveyLine(a[0], s)
      case Surveyed(next) => SurveyConcat(a[1..], b, next);
      case InvalidSchema =>
    }
  }

  lemma {:induction false} DisplayConcat(a: seq<string>, b: seq<string>, s: Display)
    ensures DisplayLines(a + b, s) == DisplayLines(b, DisplayLines(a, s))
  {
    if a == [] {
      assert a + b == b;
    } else {
      assert (a + b)[1..] == a[1..] + b;
      DisplayConcat(a[1..], b, DisplayLine(a[0], s));
    }
  }

  /** A line that neither reader takes for a file header. */
  predicate Quiet(line: string) { !HasPrefix(line, "--- ") && !HasPrefix(line, "+++ ") }
  predicate AllQuiet(lines: seq<string>) { forall line | line in lines :: Quiet(line) }

  lemma {:induction false} QuietLines(lines: seq<string>, s: Survey, t: Display)
    requires AllQuiet(lines)
    ensures SurveyLines(lines, s) == Surveyed(s.(changed := s.changed + Count(Signed, lines)))
    ensures DisplayLines(lines, t) == t
  {
    if lines != [] {
      assert lines[0] in lines;
      QuietLines(lines[1..], s.(changed := s.changed + (if Signed(lines[0]) then 1 else 0)), t);
    }
  }

  lemma {:induction false} SignedIsChanged(body: seq<string>)
    ensures Count(Signed, body) == ChangedLines(body)
  {
    if body != [] {
      BodyLineKinds(body[0]);
      SignedIsChanged(body[1..]);
    }
  }

  /** No line of a hunk body looks like a file header. */
  predicate HeaderFree(hunks: seq<Hunk>) { forall h | h in hunks :: AllQuiet(h.body) }
  predicate HeaderFreeFiles(files: seq<FilePatch>) { forall f | f in files :: HeaderFree(f.hunks) }

  /** Lines outside hunks and headers that start with a sign. */
  function StrayInHunks(hunks: seq<Hunk>): nat {
    if hunks == [] then 0 else Count(Signed, hunks[0].trail) + StrayInHunks(hunks[1..])
  }

  function StrayInFiles(files: seq<FilePatch>): nat {
    if files == [] then 0
    else
      Count(Signed, files[0].between) + Count(Signed, files[0].lead) + StrayInHunks(files[0].hunks)
      + StrayInFiles(files[1..])
  }

  function Stray(d: Document): nat { Count(Signed, d.preamble) + StrayInFiles(d.files) }

  lemma {:induction false} CountConcat(p: string -> bool, a: seq<string>, b: seq<string>)
    ensures Count(p, a + b) == Count(p, a) + Count(p, b)
  {
    if a == [] {
      assert a + b == b;
    } else {
      assert (a + b)[1..] == a[1..] + b;
      CountConcat(p, a[1..], b);
    }
  }

  lemma NotAFileHeader(line: string)
    requires line != "" && line[0] != '-' && line[0] != '+'
    ensures Quiet(line)
  {
    if |line| >= 4 {
      assert line[0] == line[..4][0];
    }
  }

  lemma SignedHunk(h: Hunk)
    requires IsHunk(h)
    ensures Count(Signed, [h.header] + h.body + h.trail) == ChangedLines(h.body) + Count(Signed, h.trail)
    ensures Quiet(h.header)
  {
    assert h.header[0] == h.header[..3][0] == '@';
    NotAFileHeader(h.header);
    BodyLineKinds(h.header);
    assert [h.header][1..] == [];
    assert Count(Signed, [h.header]) == 0;
    SignedIsChanged(h.body);
    CountConcat(Signed, [h.header], h.body);
    CountConcat(Signed, [h.header] + h.body, h.trail);
  }

  lemma {:induction false} SignedHunks(hunks: seq<Hunk>)
    requires AllHunks(hunks)
    ensures Count(Signed, HunkLines(hunks)) == HunksChanged(hunks) + StrayInHunks(hunks)
    ensures HeaderFree(hunks) ==> AllQuiet(HunkLines(hunks))
  {
    if hunks != [] {
      var h := hunks[0];
      assert h in hunks;
      SignedHunk(h);
      SignedHunks(hunks[1..]);
      CountConcat(Signed, [h.header] + h.body + h.trail, HunkLines(hunks[1..]));
    }
  }

  // ---------------------------------------------------------------- lines that look like file headers

  /** The lines that both readers take for file headers. Of the lines of a file's hunks these can only be
      lines of a body. */
  function Loud(lines: seq<string>): seq<string> {
    if lines == [] then []
    else if Quiet(lines[0]) then Loud(lines[1..])
    else [lines[0]] + Loud(lines[1..])
  }

  predicate Tallied(line: string) { Signed(line) && Quiet(line) }

  lemma {:induction false} LoudIsSigned(lines: seq<string>)
    ensures Count(Signed, lines) == Count(Tallied, lines) + |Loud(lines)|
    ensures AllQuiet(lines) ==> Loud(lines) == []
  {
    if lines != [] {
      LoudLineIsSigned(lines[0]);
      LoudIsSigned(lines[1..]);
      assert AllQuiet(lines) ==> lines[0] in lines && AllQuiet(lines[1..]);
    }
  }

  lemma LoudLineIsSigned(line: string)
    ensures !Quiet(line) ==> Signed(line)
  {
    if HasPrefix(line, "--- ") {
      assert line[..1] == [line[..4][0]] == "-";
    } else if HasPrefix(line, "+++ ") {
      assert line[..1] == [line[..4][0]] == "+";
    }
  }

  function Plus(r: SurveyResult, changed: nat): SurveyResult {
    match r
    case InvalidSchema => InvalidSchema
    case Surveyed(t) => Surveyed(t.(changed := t.changed + changed))
  }

  /** A survey of later lines, joined to the survey of earlier ones. */
  function Joined(s: Survey, r: SurveyResult): SurveyResult {
    match r
    case InvalidSchema => InvalidSchema
    case Surveyed(t) => Surveyed(Survey(s.files + t.files, s.changed + t.changed, t.oldPath, s.pairs + t.pairs))
  }

  lemma {:induction false} SurveyFrame(lines: seq<string>, s: Survey)
    ensures SurveyLines(lines, s) == Joined(s, SurveyLines(lines, Survey({}, 0, s.oldPath, 0)))
  {
    if lines == [] {
      assert s.files + {} == s.files;
    } else {
      var first := SurveyLine(lines[0], Survey({}, 0, s.oldPath, 0));
      if first.Surveyed? {
        var next := SurveyLine(lines[0], s).survey;
        SurveyFrame(lines[1..], next);
        SurveyFrame(lines[1..], first.survey);
        JoinedTwice(s, first.survey, next, SurveyLines(lines[1..], Survey({}, 0, next.oldPath, 0)));
      }
    }
  }

  lemma JoinedTwice(s: Survey, first: Survey, next: Survey, r: SurveyResult)
    requires Surveyed(next) == Joined(s, Surveyed(first))
    ensures Joined(next, r) == Joined(s, Joined(first, r))
  {
    if r.Surveyed? { assert s.files + first.files + r.survey.files == s.files + (first.files + r.survey.files); }
  }

  lemma {:induction false} PlusFirst(lines: seq<string>, s: Survey, changed: nat)
    ensures SurveyLines(lines, s.(changed := s.changed + changed)) == Plus(SurveyLines(lines, s), changed)
  {
    if lines != [] {
      var first := SurveyLine(lines[0], s);
      if first.Surveyed? { PlusFirst(lines[1..], first.survey, changed); }
    }
  }

  /** Only the header-like lines decide what files the policy finds and whether it goes on; the other signed
      lines are counted. */
  lemma {:induction false} LoudSurvey(lines: seq<string>, s: Survey)
    ensures SurveyLines(lines, s) == Plus(SurveyLines(Loud(lines), s), Count(Tallied, lines))
  {
    if lines != [] {
      var first := SurveyLine(lines[0], s);
      if Quiet(lines[0]) {
        LoudSurvey(lines[1..], first.survey);
        PlusFirst(Loud(lines[1..]), s, if Signed(lines[0]) then 1 else 0);
      } else {
        assert Loud(lines)[1..] == Loud(lines[1..]);
        if first.Surveyed? { LoudSurvey(lines[1..], first.survey); }
      }
    }
  }

  lemma {:induction false} LoudCountsNothing(lines: seq<string>, s: Survey)
    ensures var r := SurveyLines(Loud(lines), s); r.Surveyed? ==> r.survey.changed == s.changed
  {
    if lines != [] {
      var first := SurveyLine(lines[0], s);
      if Quiet(lines[0]) {
        LoudCountsNothing(lines[1..], s);
      } else {
        assert Loud(lines)[1..] == Loud(lines[1..]);
        if first.Surveyed? { LoudCountsNothing(lines[1..], first.survey); }
      }
    }
  }

  lemma {:induction false} LoudDisplay(lines: seq<string>, t: Display)
    ensures DisplayLines(lines, t) == DisplayLines(Loud(lines), t)
  {
    if lines != [] {
      LoudDisplay(lines[1..], DisplayLine(lines[0], t));
      if !Quiet(lines[0]) { assert Loud(lines)[1..] == Loud(lines[1..]); }
    }
  }

  lemma {:induction false} DisplayFrame(lines: seq<string>, t: Display)
    ensures DisplayLines(lines, t).files == t.files + DisplayLines(lines, Display({}, t.oldPath)).files
    ensures DisplayLines(lines, t).oldPath == DisplayLines(lines, Display({}, t.oldPath)).oldPath
  {
    if lines == [] {
      assert t.files + {} == t.files;
    } else {
      var first, next := DisplayLine(lines[0], Display({}, t.oldPath)), DisplayLine(lines[0], t);
      DisplayFrame(lines[1..], next);
      DisplayFrame(lines[1..], first);
      var later := DisplayLines(lines[1..], Display({}, next.oldPath)).files;
      assert t.files + first.files == next.files;
      assert t.files + first.files + later == t.files + (first.files + later);
    }
  }

  // ---------------------------------------------------------------- what the readers find in hunks

  /** The header-like lines of a file's hunks. */
  function LoudHunks(f: FilePatch): seq<string> { Loud(HunkLines(f.hunks)) }

  /** The number of header-like lines in hunks. */
  function LoudLines(files: seq<FilePatch>): nat {
    if files == [] then 0 else |LoudHunks(files[0])| + LoudLines(files[1..])
  }

  /** The names that the display finds in the header-like lines of each file's hunks alone. */
  function ShownInHunks(files: seq<FilePatch>): set<string> {
    if files == [] then {} else DisplayLines(LoudHunks(files[0]), Display({}, "")).files + ShownInHunks(files[1..])
  }

  /** What the policy makes of the header-like lines of each file's hunks alone: invalid if one of them is,
      else all the names, the pairs, and the old path left open by the last file. */
  function SurveyedInHunks(files: seq<FilePatch>): SurveyResult {
    if files == [] then Surveyed(EMPTY_SURVEY)
    else
      match SurveyLines(LoudHunks(files[0]), EMPTY_SURVEY)
      case InvalidSchema => InvalidSchema
      case Surveyed(a) =>
        match SurveyedInHunks(files[1..])
        case InvalidSchema => InvalidSchema
        case Surveyed(b) =>
          Surveyed(Survey(a.files + b.files, 0, if |files| == 1 then a.oldPath else b.oldPath, a.pairs + b.pairs))
  }

  lemma SurveyOne(line: string, s: Survey)
    ensures SurveyLines([line], s) == SurveyLine(line, s)
  {
    assert [line][1..] == [];
  }

  lemma DisplayOne(line: string, s: Display)
    ensures DisplayLines([line], s) == DisplayLine(line, s)
  {
    assert [line][1..] == [];
  }

  lemma PolicyOldHeader(f: FilePatch, s: Survey)
    requires IsFile(f)
    ensures SurveyLines([f.oldHeader], s) == Surveyed(s.(oldPath := PathOf(f)))
  {
    assert f.oldHeader[..4] == "--- ";
    SurveyOne(f.oldHeader, s);
  }

  lemma PolicyNewHeader(f: FilePatch, s: Survey)
    requires IsFile(f) && s.oldPath == PathOf(f)
    ensures SurveyLines([f.newHeader], s) ==
            Surveyed(s.(files := s.files + ({PathOf(f)} - {DEV_NULL}), oldPath := "", pairs := s.pairs + 1))
  {
    assert f.newHeader[..4] == "+++ ";
    SurveyOne(f.newHeader, s);
    assert {PathOf(f), PathOf(f)} == {PathOf(f)};
  }

  lemma PolicyHeaders(f: FilePatch, s: Survey)
    requires IsFile(f)
    ensures SurveyLines(HeaderLines(f), s) ==
            Surveyed(Survey(s.files + ({PathOf(f)} - {DEV_NULL}),
                            s.changed + Count(Signed, f.between) + Count(Signed, f.lead), "", s.pairs + 1))
  {
    var s1 := s.(oldPath := PathOf(f));
    var s2 := s1.(changed := s.changed + Count(Signed, f.between));
    var s3 := s2.(files := s.files + ({PathOf(f)} - {DEV_NULL}), oldPath := "", pairs := s.pairs + 1);
    PolicyOldHeader(f, s);
    QuietLines(f.between, s1, Display({}, ""));
    PolicyNewHeader(f, s2);
    QuietLines(f.lead, s3, Display({}, ""));
    SurveyConcat([f.oldHeader], f.between, s);
    SurveyConcat([f.oldHeader] + f.between, [f.newHeader], s);
    SurveyConcat([f.oldHeader] + f.between + [f.newHeader], f.lead, s);
  }

  lemma DisplayOldHeader(f: FilePatch, t: Display)
    requires IsFile(f)
    ensures DisplayLines([f.oldHeader], t) == t.(oldPath := PathOf(f))
  {
    assert f.oldHeader[..4] == "--- ";
    DisplayOne(f.oldHeader, t);
  }

  lemma DisplayNewHeader(f: FilePatch, t: Display)
    requires IsFile(f)
    ensures DisplayLines([f.newHeader], t) == Display(t.files + {PathOf(f)}, "")
  {
    assert f.newHeader[..4] == "+++ ";
    DisplayOne(f.newHeader, t);
  }

  lemma DisplayHeaders(f: FilePatch, t: Display)
    requires IsFile(f)
    ensures DisplayLines(HeaderLines(f), t) == Display(t.files + {PathOf(f)}, "")
  {
    var t1 := t.(oldPath := PathOf(f));
    DisplayOldHeader(f, t);
    QuietLines(f.between, EMPTY_SURVEY, t1);
    DisplayNewHeader(f, t1);
    QuietLines(f.lead, EMPTY_SURVEY, Display(t.files + {PathOf(f)}, ""));
    DisplayConcat([f.oldHeader], f.between, t);
    DisplayConcat([f.oldHeader] + f.between, [f.newHeader], t);
    DisplayConcat([f.oldHeader] + f.between + [f.newHeader], f.lead, t);
  }

  function PathSet(files: seq<FilePatch>): set<string>
    requires AllFiles(files)
  {
    set p | p in Paths(files)
  }

  lemma FirstFileLines(files: seq<FilePatch>)
    requires files != [] && AllFiles(files)
    ensures IsFile(files[0]) && AllFiles(files[1..])
    ensures FileLines(files) == HeaderLines(files[0]) + HunkLines(files[0].hunks) + FileLines(files[1..])
    ensures FilesChanged(files) == HunksChanged(files[0].hunks) + FilesChanged(files[1..])
    ensures StrayInFiles(files) == StrayInFiles([files[0]]) + StrayInFiles(files[1..])
  {
    assert files[0] in files;
    assert [files[0]][1..] == [];
  }

  lemma FirstFilePath(files: seq<FilePatch>)
    requires files != [] && AllFiles(files) && IsFile(files[0]) && AllFiles(files[1..])
    ensures PathSet(files) == {PathOf(files[0])} + PathSet(files[1..])
  {
    assert Paths(files) == [PathOf(files[0])] + Paths(files[1..]);
  }

  /** The display finds the file's path and what is shown in its hunks, whatever it was in the middle of. */
  lemma DisplayBlock(f: FilePatch, t: Display)
    requires IsFile(f)
    ensures DisplayLines(HeaderLines(f) + HunkLines(f.hunks), t).files
         == t.files + {PathOf(f)} + DisplayLines(LoudHunks(f), Display({}, "")).files
  {
    DisplayHeaders(f, t);
    DisplayConcat(HeaderLines(f), HunkLines(f.hunks), t);
    LoudDisplay(HunkLines(f.hunks), Display(t.files + {PathOf(f)}, ""));
    DisplayFrame(LoudHunks(f), Display(t.files + {PathOf(f)}, ""));
  }

  lemma {:induction false} DisplayReadsFiles(files: seq<FilePatch>, t: Display)
    requires AllFiles(files)
    ensures DisplayLines(FileLines(files), t).files == t.files + PathSet(files) + ShownInHunks(files)
  {
    if files == [] {
      assert t.files + PathSet(files) + {} == t.files;
    } else {
      FirstFileLines(files);
      FirstFilePath(files);
      DisplayBlock(files[0], t);
      var lines := HeaderLines(files[0]) + HunkLines(files[0].hunks);
      DisplayConcat(lines, FileLines(files[1..]), t);
      DisplayReadsFiles(files[1..], DisplayLines(lines, t));
      Unions(t.files, PathOf(files[0]), DisplayLines(LoudHunks(files[0]), Display({}, "")).files, PathSet(files[1..]),
             ShownInHunks(files[1..]));
    }
  }

  lemma Unions(a: set<string>, p: string, b: set<string>, c: set<string>, d: set<string>)
    ensures a + {p} + b + c + d == a + ({p} + c) + (b + d)
  {
  }

  /** The policy's reading of one file, whatever it was in the middle of: the file's path, what it makes of
      the header-like lines of the hunks, and all other signed lines. */
  lemma PolicyBlock(f: FilePatch, s: Survey)
    requires IsFile(f)
    ensures SurveyLines(HeaderLines(f) + HunkLines(f.hunks), s) ==
            match SurveyLines(LoudHunks(f), EMPTY_SURVEY)
            case InvalidSchema => InvalidSchema
            case Surveyed(h) =>
              Surveyed(Survey(s.files + ({PathOf(f)} - {DEV_NULL}) + h.files, s.changed + TalliedIn(f), h.oldPath,
                              s.pairs + 1 + h.pairs))
  {
    PolicyHeaders(f, s);
    SurveyConcat(HeaderLines(f), HunkLines(f.hunks), s);
    var mid := SurveyLines(HeaderLines(f), s).survey;
    LoudSurvey(HunkLines(f.hunks), mid);
    SurveyFrame(LoudHunks(f), mid);
    LoudCountsNothing(HunkLines(f.hunks), EMPTY_SURVEY);
  }

  /** The lines of a file that the policy counts. */
  function TalliedIn(f: FilePatch): nat {
    Count(Signed, f.between) + Count(Signed, f.lead) + Count(Tallied, HunkLines(f.hunks))
  }

  function TalliedInFiles(files: seq<FilePatch>): nat {
    if files == [] then 0 else TalliedIn(files[0]) + TalliedInFiles(files[1..])
  }

  /** The lines the policy counts are the changed lines and the stray ones, but for the header-like ones. */
  lemma {:induction false} TallyLaw(files: seq<FilePatch>)
    requires AllFiles(files)
    ensures TalliedInFiles(files) + LoudLines(files) == FilesChanged(files) + StrayInFiles(files)
  {
    if files != [] {
      assert files[0] in files;
      SignedHunks(files[0].hunks);
      LoudIsSigned(HunkLines(files[0].hunks));
      TallyLaw(files[1..]);
    }
  }

  lemma {:induction false} PolicyReadsFiles(files: seq<FilePatch>, s: Survey)
    requires AllFiles(files)
    ensures SurveyLines(FileLines(files), s) ==
            match SurveyedInHunks(files)
            case InvalidSchema => InvalidSchema
            case Surveyed(h) =>
              Surveyed(Survey(s.files + (PathSet(files) - {DEV_NULL}) + h.files, s.changed + TalliedInFiles(files),
                              if files == [] then s.oldPath else h.oldPath, s.pairs + |files| + h.pairs))
  {
    hide SurveyLine;
    hide DiffPath;
    hide Loud;
    hide IsFile;
    if files == [] {
      assert s.files + (PathSet(files) - {DEV_NULL}) + {} == s.files;
    } else {
      FirstFileLines(files);
      FirstFilePath(files);
      PolicyBlock(files[0], s);
      var lines := HeaderLines(files[0]) + HunkLines(files[0].hunks);
      SurveyConcat(lines, FileLines(files[1..]), s);
      var a := SurveyLines(LoudHunks(files[0]), EMPTY_SURVEY);
      if a.Surveyed? {
        PolicyReadsFiles(files[1..], SurveyLines(lines, s).survey);
        var b := SurveyedInHunks(files[1..]);
        if b.Surveyed? {
          PolicyUnions(s.files, PathOf(files[0]), a.survey.files, PathSet(files[1..]), b.survey.files);
        }
      }
    }
  }

  lemma PolicyUnions(a: set<string>, p: string, b: set<string>, c: set<string>, d: set<string>)
    ensures a + ({p} - {DEV_NULL}) + b + (c - {DEV_NULL}) + d == a + ({p} + c - {DEV_NULL}) + (b + d)
  {
  }

  // ---------------------------------------------------------------- the readers on every document

  /** The display finds the paths of the document and what it is shown in hunks, no more and no less. */
  lemma DisplayOnDocument(d: Document)
    requires IsDocument(d) && OneLineEach(Lines(d))
    ensures DisplayView(Printed(d)) == PathSet(d.files) + ShownInHunks(d.files)
  {
    SplitOfJoin(Lines(d), '\n');
    DisplayConcat(d.preamble, FileLines(d.files), Display({}, ""));
    PlainIsQuiet(d.preamble);
    QuietLines(d.preamble, EMPTY_SURVEY, Display({}, ""));
    DisplayReadsFiles(d.files, Display({}, ""));
    assert {} + PathSet(d.files) == PathSet(d.files);
  }

  lemma PlainIsQuiet(lines: seq<string>)
    requires AllPlain(lines)
    ensures AllQuiet(lines)
  {
  }

  lemma PolicyLines(d: Document)
    requires IsDocument(d)
    ensures SurveyLines(Lines(d), EMPTY_SURVEY) ==
            match SurveyedInHunks(d.files)
            case InvalidSchema => InvalidSchema
            case Surveyed(h) =>
              Surveyed(Survey(PathSet(d.files) - {DEV_NULL} + h.files, Count(Signed, d.preamble) + TalliedInFiles(d.files),
                              h.oldPath, |d.files| + h.pairs))
  {
    var s := EMPTY_SURVEY.(changed := Count(Signed, d.preamble));
    SurveyConcat(d.preamble, FileLines(d.files), EMPTY_SURVEY);
    PlainIsQuiet(d.preamble);
    QuietLines(d.preamble, EMPTY_SURVEY, Display({}, ""));
    PolicyReadsFiles(d.files, s);
    assert s.files + (PathSet(d.files) - {DEV_NULL}) == PathSet(d.files) - {DEV_NULL};
  }

  /** The policy refuses the document exactly when it cannot make sense of the header-like lines of a file's
      hunks, when these leave an old path open at the end, or when it finds no file. Otherwise it finds the
      paths, without /dev/null, and the names in hunks; and it counts the changed and the stray lines, but
      for the header-like ones. */
  lemma PolicyOnDocument(d: Document)
    requires IsDocument(d) && OneLineEach(Lines(d))
    ensures var h, policy := SurveyedInHunks(d.files), PolicyView(Printed(d));
            && (policy.Surveyed? <==>
                  h.Surveyed? && h.survey.oldPath == "" && PathSet(d.files) - {DEV_NULL} + h.survey.files != {})
            && (policy.Surveyed? ==>
                  && policy.survey.files == PathSet(d.files) - {DEV_NULL} + h.survey.files
                  && policy.survey.changed + LoudLines(d.files) == FilesChanged(d.files) + Stray(d)
                  && policy.survey.pairs == |d.files| + h.survey.pairs && policy.survey.oldPath == "")
  {
    hide SurveyLines;
    SplitOfJoin(Lines(d), '\n');
    PolicyLines(d);
    TallyLaw(d.files);
    SomePath(d);
  }

  lemma {:induction false} QuietHunksSayNothing(files: seq<FilePatch>)
    requires AllFiles(files) && HeaderFreeFiles(files)
    ensures ShownInHunks(files) == {} && SurveyedInHunks(files) == Surveyed(EMPTY_SURVEY) && LoudLines(files) == 0
  {
    if files != [] {
      assert files[0] in files;
      SignedHunks(files[0].hunks);
      LoudIsSigned(HunkLines(files[0].hunks));
      QuietHunksSayNothing(files[1..]);
    }
  }

  /** On a document whose hunk bodies look like no file header, the display finds exactly the paths of the
      patch reader, the policy finds them without /dev/null, and the policy counts exactly the changed
      lines and the stray signed lines. */
  lemma ReadersOnDocument(d: Document)
    requires IsDocument(d) && OneLineEach(Lines(d)) && HeaderFreeFiles(d.files)
    ensures DisplayView(Printed(d)) == PathSet(d.files)
    ensures PolicyView(Printed(d)) ==
            if PathSet(d.files) == {DEV_NULL} then InvalidSchema
            else Surveyed(Survey(PathSet(d.files) - {DEV_NULL}, FilesChanged(d.files) + Stray(d), "", |d.files|))
  {
    QuietHunksSayNothing(d.files);
    DisplayOnDocument(d);
    PolicyOnDocument(d);
    SomePath(d);
    OnlyDevNull(PathSet(d.files));
    assert PathSet(d.files) - {DEV_NULL} + {} == PathSet(d.files) - {DEV_NULL};
  }

  lemma SomePath(d: Document)
    requires IsDocument(d)
    ensures PathSet(d.files) != {} && |d.files| > 0
  {
    assert Paths(d.files)[0] in PathSet(d.files);
  }

  lemma OnlyDevNull(paths: set<string>)
    requires paths != {}
    ensures paths == {DEV_NULL} <==> paths - {DEV_NULL} == {}
  {
  }

  /** Neither reader hides a file that the patch changes, whatever the hunks contain: the display shows every
      path of every accepted patch, and the policy, unless it refuses the patch, finds each but /dev/null. */
  lemma NoFileIsHidden(patch: string, limits: Limits)
    requires Parsed(patch, limits).Ok?
    ensures var paths, policy := Parsed(patch, limits).value.paths, PolicyView(patch);
            forall p | p in paths ::
              p in DisplayView(patch) && (policy.Surveyed? && p != DEV_NULL ==> p in policy.survey.files)
  {
    var d := AcceptedIsPrinted(patch, limits);
    DisplayOnDocument(d);
    PolicyOnDocument(d);
    assert forall p | p in Paths(d.files) :: p in PathSet(d.files);
  }

  /** Three readers, one patch. For every accepted patch: the display agrees with the patch reader on the files
      exactly when the header-like lines in hunks show it only paths of the patch. The policy does exactly
      when /dev/null is no path, the header-like lines make sense to it, leave no old path open and name only
      paths of the patch. And where the policy does not refuse the patch, its count falls short of the reader's
      exactly when the header-like lines outnumber the signed lines outside hunks, and is the same exactly when
      they are as many. */
  lemma ThreeReadersAgree(patch: string, limits: Limits) returns (d: Document)
    requires Parsed(patch, limits).Ok?
    ensures IsDocument(d) && Printed(d) == patch && Paths(d.files) == Parsed(patch, limits).value.paths
    ensures DisplayView(patch) == PathSet(d.files) <==> ShownInHunks(d.files) <= PathSet(d.files)
    ensures var policy, h := PolicyView(patch), SurveyedInHunks(d.files);
            policy.Surveyed? && policy.survey.files == PathSet(d.files) <==>
              DEV_NULL !in PathSet(d.files) && h.Surveyed? && h.survey.oldPath == "" && h.survey.files <= PathSet(d.files)
    ensures var policy, changed := PolicyView(patch), Parsed(patch, limits).value.changedLines;
            policy.Surveyed? ==>
              && (policy.survey.changed < changed <==> LoudLines(d.files) > Stray(d))
              && (policy.survey.changed == changed <==> LoudLines(d.files) == Stray(d))
    ensures HeaderFreeFiles(d.files) ==>
              var paths := PathSet(d.files);
              var policy := PolicyView(patch);
              && DisplayView(patch) == paths
              && ((policy.Surveyed? && policy.survey.files == paths) <==> DEV_NULL !in paths)
              && (policy.Surveyed? ==>
                    && policy.survey.changed >= Parsed(patch, limits).value.changedLines
                    && (policy.survey.changed == Parsed(patch, limits).value.changedLines <==> Stray(d) == 0))
  {
    d := AcceptedIsPrinted(patch, limits);
    DisplayOnDocument(d);
    PolicyOnDocument(d);
    SomePath(d);
    NoDevNullInHunks(d.files);
    if HeaderFreeFiles(d.files) { QuietHunksSayNothing(d.files); }
    var paths, h := PathSet(d.files), SurveyedInHunks(d.files);
    if h.Surveyed? { SameFiles(paths, h.survey.files); }
  }

  lemma SameFiles(paths: set<string>, named: set<string>)
    requires DEV_NULL !in named
    ensures paths - {DEV_NULL} + named == paths <==> DEV_NULL !in paths && named <= paths
  {
    if DEV_NULL !in paths { assert paths - {DEV_NULL} == paths; }
  }

  lemma {:induction false} NoDevNullInLines(lines: seq<string>, s: Survey)
    requires DEV_NULL !in s.files
    ensures var r := SurveyLines(lines, s); r.Surveyed? ==> DEV_NULL !in r.survey.files
  {
    if lines != [] {
      var first := SurveyLine(lines[0], s);
      if first.Surveyed? { NoDevNullInLines(lines[1..], first.survey); }
    }
  }

  lemma {:induction false} NoDevNullInHunks(files: seq<FilePatch>)
    ensures var h := SurveyedInHunks(files); h.Surveyed? ==> DEV_NULL !in h.survey.files
  {
    if files != [] {
      NoDevNullInLines(LoudHunks(files[0]), EMPTY_SURVEY);
      NoDevNullInHunks(files[1..]);
    }
  }

  lemma EndsWithOldHeader(front: seq<string>, last: string)
    requires HasPrefix(last, "--- ")
    ensures var r := SurveyLines(front + [last], EMPTY_SURVEY); r.Surveyed? ==> r.survey.oldPath != ""
  {
    SurveyConcat(front, [last], EMPTY_SURVEY);
    match SurveyLines(front, EMPTY_SURVEY) {
      case Surveyed(mid) => SurveyOne(last, mid);
      case InvalidSchema =>
    }
  }

  /** The hypothesis on hunk bodies is needed: a document whose text ends, inside a hunk, by removing a
      line that starts with two dashes and a space is accepted by the patch reader, and the policy
      always refuses it. */
  lemma HeaderLikeBodyIsMisread(d: Document, limits: Limits)
    requires IsDocument(d) && OneLineEach(Lines(d)) && !Refused(Printed(d)) && WithinLimits(d, limits)
    requires HasPrefix(Lines(d)[|Lines(d)| - 1], "--- ")
    ensures Parsed(Printed(d), limits).Ok? && PolicyView(Printed(d)) == InvalidSchema
  {
    PrintedIsRead(d, limits);
    SplitOfJoin(Lines(d), '\n');
    EndsWithOldHeader(Lines(d)[..|Lines(d)| - 1], Lines(d)[|Lines(d)| - 1]);
    assert Lines(d) == Lines(d)[..|Lines(d)| - 1] + [Lines(d)[|Lines(d)| - 1]];
  }
}
