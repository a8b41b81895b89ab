/** A family of patches that the patch reader accepts and the two other readers misread, for every pair of
    file names. */
module PatchMisread {
  import opened Text
  import opened PatchHeaders
  import opened PatchGrammar
  import opened PatchReaders

  /** A document of one file with one hunk, which replaces the line "olds" by the line "news"; both are given
      with their signs. */
  function OneHunk(header: string, olds: string, news: string): Hunk { Hunk(header, [olds, news], []) }

  function OneFile(oldHeader: string, newHeader: string, h: Hunk): FilePatch {
    FilePatch(oldHeader, [], newHeader, [], [h])
  }

  function OneFileDocument(f: FilePatch): Document { Document([], [f]) }

  lemma CountTwo(p: string -> bool, a: string, b: string)
    ensures Count(p, [a, b]) == (if p(a) then 1 else 0) + (if p(b) then 1 else 0)
  {
    var two: seq<string> := [a, b];
    assert two[1..] == [b] && two[1..][1..] == [];
    assert Count(p, two[1..][1..]) == 0;
    assert Count(p, two[1..]) == if p(b) then 1 else 0;
  }

  lemma TwoLineCount(olds: string, news: string)
    requires HasPrefix(olds, "--- ") && HasPrefix(news, "+++ ")
    ensures OldLines([olds, news]) == 1 && NewLines([olds, news]) == 1 && ChangedLines([olds, news]) == 2
    ensures Counted(olds) && Counted(news)
  {
    assert olds[..4][0] == olds[0] && news[..4][0] == news[0];
    BodyLineKinds(olds);
    BodyLineKinds(news);
    CountTwo(Added, olds, news);
    CountTwo(Removed, olds, news);
    CountTwo(Context, olds, news);
  }

  lemma TwoLineHunk(header: string, olds: string, news: string)
    requires HasPrefix(header, "@@ ") && HunkHeader(header) == Ok((1, 1))
    requires HasPrefix(olds, "--- ") && HasPrefix(news, "+++ ")
    ensures IsHunk(OneHunk(header, olds, news))
  {
    hide HunkHeader;
    TwoLineCount(olds, news);
  }

  lemma TwoLoudLines(h: Hunk, olds: string, news: string)
    requires h == OneHunk(h.header, olds, news) && IsHunk(h)
    requires HasPrefix(olds, "--- ") && HasPrefix(news, "+++ ")
    ensures HunkLines([h]) == [h.header, olds, news] && Loud(HunkLines([h])) == [olds, news]
  {
    SignedHunk(h);
    assert [h][1..] == [];
    var lines := [h.header, olds, news];
    assert HunkLines([h]) == lines;
    assert lines[1..] == [olds, news] && lines[1..][1..] == [news];
    assert Loud([news]) == [news] && Loud([olds, news]) == [olds] + Loud([news]);
  }

  lemma OneFileIsDocument(f: FilePatch, h: Hunk, path: string)
    requires f == OneFile(f.oldHeader, f.newHeader, h) && IsHunk(h)
    requires HasPrefix(f.oldHeader, "--- ") && PatchPath(f.oldHeader[4..], "a/") == Ok(path)
    requires HasPrefix(f.newHeader, "+++ ") && PatchPath(f.newHeader[4..], "b/") == Ok(path)
    ensures var d := OneFileDocument(f);
            && IsDocument(d) && Paths(d.files) == [path] && PathSet(d.files) == {path}
            && FilesChanged(d.files) == ChangedLines(h.body)
  {
    hide IsHunk;
    var hunks, files := [h], [f];
    assert hunks[1..] == [] && files[1..] == [] && IsFile(f);
    assert HunksChanged(hunks) == ChangedLines(h.body) && FilesChanged(files) == HunksChanged(f.hunks);
    assert Paths(files) == [path];
  }

  lemma OneFileLines(f: FilePatch, h: Hunk, olds: string, news: string)
    requires f == OneFile(f.oldHeader, f.newHeader, h) && h == OneHunk(h.header, olds, news)
    ensures Lines(OneFileDocument(f)) == [f.oldHeader, f.newHeader, h.header, olds, news]
    ensures Stray(OneFileDocument(f)) == 0
  {
    var hunks, files := [h], [f];
    assert hunks[1..] == [] && files[1..] == [];
    assert HunkLines(hunks) == [h.header, olds, news];
    assert HeaderLines(f) == [f.oldHeader, f.newHeader];
    assert FileLines(files) == Block(f) + FileLines([]);
    assert StrayInHunks(hunks) == 0 && StrayInFiles(files) == 0;
  }

  lemma OneName(name: string)
    requires name != "" && NoSpace(name)
    ensures DiffPath("a/" + name, "a/") == name == DiffPath("b/" + name, "b/")
    ensures PatchHeaderPath("a/" + name, "a/") == name == PatchHeaderPath("b/" + name, "b/")
  {
    HeaderRoundTrip(name);
  }

  /** What the two readers make of two header-like lines that name one file. */
  lemma LoudPair(olds: string, news: string, name: string)
    requires name != "" && NoSpace(name) && name != DEV_NULL
    requires olds == "--- " + ("a/" + name) && news == "+++ " + ("b/" + name)
    ensures DisplayLines([olds, news], Display({}, "")) == Display({name}, "")
    ensures SurveyLines([olds, news], EMPTY_SURVEY) == Surveyed(Survey({name}, 0, "", 1))
  {
    OneName(name);
    assert olds[..4] == "--- " && olds[4..] == "a/" + name && news[..4] == "+++ " && news[4..] == "b/" + name;
    assert [olds, news] == [olds] + [news];
    SurveyOne(olds, EMPTY_SURVEY);
    SurveyConcat([olds], [news], EMPTY_SURVEY);
    SurveyOne(news, EMPTY_SURVEY.(oldPath := name));
    DisplayConcat([olds], [news], Display({}, ""));
    DisplayOne(olds, Display({}, ""));
    DisplayOne(news, Display({}, name));
    assert {} + ({name, name} - {DEV_NULL}) == {name} == {} + {name};
  }

  /** What they find in the hunk of such a document. */
  lemma NamesInHunk(f: FilePatch, olds: string, news: string, name: string)
    requires LoudHunks(f) == [olds, news] && name != "" && NoSpace(name) && name != DEV_NULL
    requires olds == "--- " + ("a/" + name) && news == "+++ " + ("b/" + name)
    ensures ShownInHunks([f]) == {name} && LoudLines([f]) == 2
    ensures SurveyedInHunks([f]) == Surveyed(Survey({name}, 0, "", 1))
  {
    LoudPair(olds, news, name);
    assert [f][1..] == [] && {name} + {} == {name};
  }

  /** Whatever file a hunk seems to name, the display shows it and the policy finds it, beside the file that is
      patched; and the policy does not count the two changed lines. */
  lemma TwoFilesSeen(f: FilePatch, h: Hunk, path: string, name: string)
    requires f == OneFile("--- " + ("a/" + path), "+++ " + ("b/" + path), h) && IsHunk(h)
    requires h == OneHunk(h.header, "--- " + ("a/" + name), "+++ " + ("b/" + name))
    requires path != "" && NoSpace(path) && path != DEV_NULL && name != "" && NoSpace(name) && name != DEV_NULL
    requires OneLineEach(Lines(OneFileDocument(f)))
    ensures var patch := Printed(OneFileDocument(f));
            && DisplayView(patch) == {path, name} && PolicyView(patch) == Surveyed(Survey({path, name}, 0, "", 2))
  {
    hide Lines;
    hide Printed;
    var d, olds, news := OneFileDocument(f), h.body[0], h.body[1];
    assert olds[..4] == "--- " && news[..4] == "+++ ";
    TwoLoudLines(h, olds, news);
    FilePath(f, h, path);
    TwoLineCount(olds, news);
    OneFileLines(f, h, olds, news);
    NamesInHunk(f, olds, news, name);
    DisplayOnDocument(d);
    PolicyOnDocument(d);
    assert {path} - {DEV_NULL} + {name} == {path, name} == {path} + {name};
  }

  lemma FilePath(f: FilePatch, h: Hunk, path: string)
    requires f == OneFile("--- " + ("a/" + path), "+++ " + ("b/" + path), h) && IsHunk(h)
    requires path != "" && NoSpace(path)
    ensures var d := OneFileDocument(f);
            && IsDocument(d) && Paths(d.files) == [path] && PathSet(d.files) == {path}
            && FilesChanged(d.files) == ChangedLines(h.body)
  {
    HeaderRoundTrip(path);
    assert f.oldHeader[..4] == "--- " && f.oldHeader[4..] == "a/" + path;
    assert f.newHeader[..4] == "+++ " && f.newHeader[4..] == "b/" + path;
    OneFileIsDocument(f, h, path);
  }

  const HUNK_HEADER := "@@ -1,1 +1,1 @@"

  lemma MisreadHunkHeader()
    ensures HasPrefix(HUNK_HEADER, "@@ ") && HunkHeader(HUNK_HEADER) == Ok((1, 1))
  {
    assert Decimal(1) == "1";
    var olds, news := "-1,1", "+1,1";
    assert olds == "-" + Decimal(1) + "," + Decimal(1) && news == "+" + Decimal(1) + "," + Decimal(1);
    assert HUNK_HEADER == "@@" + (" " + olds + (" " + news + " @@"));
    HunkHeaderRoundTrip(1, 1, 1, 1, olds, news);
  }

  lemma JoinMore(line: string, lines: seq<string>)
    requires lines != []
    ensures Join([line] + lines, '\n') == line + "\n" + Join(lines, '\n')
  {
    assert ([line] + lines)[1..] == lines;
  }

  lemma JoinFive(a: string, b: string, c: string, d: string, e: string)
    ensures Join([a, b, c, d, e], '\n') == a + "\n" + (b + "\n" + (c + "\n" + (d + "\n" + e)))
  {
    assert [a, b, c, d, e] == [a] + ([b] + ([c] + ([d] + [e])));
    JoinMore(a, [b] + ([c] + ([d] + [e])));
    JoinMore(b, [c] + ([d] + [e]));
    JoinMore(c, [d] + [e]);
    JoinMore(d, [e]);
  }

  lemma Absent(s: string, part: string)
    requires part != "" && part[0] !in s
    ensures !Contains(s, part)
  {
    forall at | 0 <= at <= |s| ensures !OccursAt(part, s, at) {
      if at + |part| <= |s| { assert s[at..at + |part|][0] == s[at]; }
    }
  }

  lemma AbsentInFive(a: string, b: string, c: string, d: string, e: string, x: char)
    requires x !in a && x !in b && x !in c && x !in d && x !in e && x != '\n'
    ensures x !in a + "\n" + (b + "\n" + (c + "\n" + (d + "\n" + e)))
  {
  }

  /** Five lines without a line feed or a capital letter make a patch that is not refused. */
  lemma NotRefused(a: string, b: string, c: string, d: string, e: string)
    requires forall x | x in {'\0', 'G', 'B'} :: x !in a && x !in b && x !in c && x !in d && x !in e
    ensures !Refused(Join([a, b, c, d, e], '\n'))
  {
    var text := Join([a, b, c, d, e], '\n');
    JoinFive(a, b, c, d, e);
    AbsentInFive(a, b, c, d, e, '\0');
    AbsentInFive(a, b, c, d, e, 'G');
    AbsentInFive(a, b, c, d, e, 'B');
    Absent(text, "\0");
    Absent(text, "GIT binary patch");
    Absent(text, "Binary files ");
    assert |text| > 0;
  }

  /** A name without line feeds and capital letters. */
  predicate PlainName(name: string) {
    name != "" && NoSpace(name) && name != DEV_NULL && '\0' !in name && '\n' !in name && 'G' !in name && 'B' !in name
  }

  predicate PlainLine(line: string) {
    '\0' !in line && '\n' !in line && 'G' !in line && 'B' !in line
  }

  lemma NameLines(name: string)
    requires PlainName(name)
    ensures PlainLine("--- " + ("a/" + name)) && PlainLine("+++ " + ("b/" + name))
  {
  }

  lemma FivePlainLines(a: string, b: string, c: string, d: string, e: string)
    requires PlainLine(a) && PlainLine(b) && PlainLine(c) && PlainLine(d) && PlainLine(e)
    ensures OneLineEach([a, b, c, d, e]) && !Refused(Join([a, b, c, d, e], '\n'))
  {
    hide Refused;
    NotRefused(a, b, c, d, e);
  }

  lemma MisreadText(f: FilePatch, h: Hunk, path: string, name: string)
    requires PlainName(path) && PlainName(name)
    requires h == OneHunk(HUNK_HEADER, "--- " + ("a/" + name), "+++ " + ("b/" + name))
    requires f == OneFile("--- " + ("a/" + path), "+++ " + ("b/" + path), h)
    ensures var d := OneFileDocument(f);
            && Lines(d) == [f.oldHeader, f.newHeader, HUNK_HEADER, h.body[0], h.body[1]]
            && OneLineEach(Lines(d)) && !Refused(Printed(d))
  {
    hide Refused;
    hide PlainLine;
    NameLines(path);
    NameLines(name);
    HunkHeaderIsPlain();
    OneFileLines(f, h, h.body[0], h.body[1]);
    FivePlainLines(f.oldHeader, f.newHeader, HUNK_HEADER, h.body[0], h.body[1]);
  }

  lemma HunkHeaderIsPlain()
    ensures PlainLine(HUNK_HEADER)
  {
  }

  /** The patch of "path" whose one hunk replaces the line "-- a/name" by "++ b/name". */
  function Misread(path: string, name: string): string {
    ("--- " + ("a/" + path)) + "\n" + (("+++ " + ("b/" + path)) + "\n" + (HUNK_HEADER + "\n"
      + (("--- " + ("a/" + name)) + "\n" + ("+++ " + ("b/" + name)))))
  }

  /** The patch reader takes it for two changed lines of the one file. The display and the policy take it for a
      patch of both, and the policy counts no changed line at all. */
  lemma MisreadPatch(path: string, name: string, limits: Limits)
    requires PlainName(path) && PlainName(name) && Bounded(limits).maxChangedLines >= 2
    ensures var patch := Misread(path, name);
            && Parsed(patch, limits) == Ok(Headers([path], 2))
            && DisplayView(patch) == {path, name} && PolicyView(patch) == Surveyed(Survey({path, name}, 0, "", 2))
  {
    hide Lines;
    hide IsHunk;
    var olds, news := "--- " + ("a/" + name), "+++ " + ("b/" + name);
    var h := OneHunk(HUNK_HEADER, olds, news);
    var f := OneFile("--- " + ("a/" + path), "+++ " + ("b/" + path), h);
    assert olds[..4] == "--- " && news[..4] == "+++ ";
    MisreadText(f, h, path, name);
    JoinFive(f.oldHeader, f.newHeader, HUNK_HEADER, olds, news);
    MisreadHunkHeader();
    TwoLineHunk(HUNK_HEADER, olds, news);
    TwoLineCount(olds, news);
    FilePath(f, h, path);
    PrintedIsRead(OneFileDocument(f), limits);
    TwoFilesSeen(f, h, path, name);
  }

  /** At one literal patch. */
  lemma MisreadFAndG(limits: Limits)
    requires Bounded(limits).maxChangedLines >= 2
    ensures var patch := Misread("f", "g");
            && Parsed(patch, limits) == Ok(Headers(["f"], 2))
            && DisplayView(patch) == {"f", "g"} && PolicyView(patch) == Surveyed(Survey({"f", "g"}, 0, "", 2))
  {
    MisreadPatch("f", "g", limits);
  }
}
