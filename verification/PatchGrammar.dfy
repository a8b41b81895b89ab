/** The language the patch reader accepts, as documents: plain lines, then files, each a matching pair
    of headers with at least one hunk whose body has exactly the declared numbers of lines. */
module PatchGrammar {
  import opened Text
  import opened PatchHeaders

  datatype Hunk = Hunk(header: string, body: seq<string>, trail: seq<string>)
  datatype FilePatch =
    FilePatch(oldHeader: string, between: seq<string>, newHeader: string, lead: seq<string>, hunks: seq<Hunk>)
  datatype Document = Document(preamble: seq<string>, files: seq<FilePatch>)

  // ---------------------------------------------------------------- well-formed documents

  /** A line that is skipped outside hunks. */
  predicate Plain(line: string) {
    !ForbiddenLine(line) && !HasPrefix(line, "--- ") && !HasPrefix(line, "+++ ") && !HasPrefix(line, "@@ ")
  }

  predicate AllPlain(lines: seq<string>) { forall line | line in lines :: Plain(line) }

  predicate Added(line: string) { HasPrefix(line, "+") }
  predicate Removed(line: string) { HasPrefix(line, "-") }
  predicate Context(line: string) { HasPrefix(line, " ") }
  predicate Counted(line: string) { Added(line) || Removed(line) || Context(line) }

  function Count(p: string -> bool, lines: seq<string>): nat {
    if lines == [] then 0 else (if p(lines[0]) then 1 else 0) + Count(p, lines[1..])
  }

  function OldLines(body: seq<string>): nat { Count(Removed, body) + Count(Context, body) }
  function NewLines(body: seq<string>): nat { Count(Added, body) + Count(Context, body) }
  function ChangedLines(body: seq<string>): nat { Count(Added, body) + Count(Removed, body) }

  /** Counted lines and no-newline markers, ending with a counted line. */
  predicate IsBody(body: seq<string>) {
    && (forall line | line in body :: Counted(line) || HasPrefix(line, NO_NEWLINE))
    && (body != [] ==> Counted(body[|body| - 1]))
  }

  predicate IsHunk(h: Hunk) {
    && HasPrefix(h.header, "@@ ") && HunkHeader(h.header) == Ok((OldLines(h.body), NewLines(h.body)))
    && IsBody(h.body) && AllPlain(h.trail)
  }

  function PathOf(f: FilePatch): string
    requires IsFile(f)
  {
    PatchPath(f.oldHeader[4..], "a/").value
  }

  predicate IsFile(f: FilePatch) {
    && HasPrefix(f.oldHeader, "--- ") && HasPrefix(f.newHeader, "+++ ")
    && PatchPath(f.oldHeader[4..], "a/").Ok?
    && PatchPath(f.newHeader[4..], "b/") == PatchPath(f.oldHeader[4..], "a/")
    && AllPlain(f.between) && AllPlain(f.lead)
    && f.hunks != [] && AllHunks(f.hunks)
  }

  predicate AllHunks(hunks: seq<Hunk>) { forall h | h in hunks :: IsHunk(h) }
  predicate AllFiles(files: seq<FilePatch>) { forall f | f in files :: IsFile(f) }

  function Paths(files: seq<FilePatch>): (r: seq<string>)
    requires AllFiles(files)
    ensures |r| == |files|
  {
    if files == [] then [] else [PathOf(files[0])] + Paths(files[1..])
  }

  predicate Distinct(paths: seq<string>) {
    forall i, j | 0 <= i < j < |paths| :: paths[i] != paths[j]
  }

  predicate IsDocument(d: Document) {
    AllPlain(d.preamble) && d.files != [] && AllFiles(d.files) && Distinct(Paths(d.files))
  }

  function HunksChanged(hunks: seq<Hunk>): nat {
    if hunks == [] then 0 else ChangedLines(hunks[0].body) + HunksChanged(hunks[1..])
  }

  function FilesChanged(files: seq<FilePatch>): nat {
    if files == [] then 0 else HunksChanged(files[0].hunks) + FilesChanged(files[1..])
  }

  // ---------------------------------------------------------------- printing

  function HunkLines(hunks: seq<Hunk>): seq<string> {
    if hunks == [] then []
    else [hunks[0].header] + hunks[0].body + hunks[0].trail + HunkLines(hunks[1..])
  }

  function HeaderLines(f: FilePatch): seq<string> { [f.oldHeader] + f.between + [f.newHeader] + f.lead }

  function Block(f: FilePatch): seq<string> { HeaderLines(f) + HunkLines(f.hunks) }

  function FileLines(files: seq<FilePatch>): seq<string> {
    if files == [] then [] else Block(files[0]) + FileLines(files[1..])
  }

  function Lines(d: Document): seq<string> { d.preamble + FileLines(d.files) }

  predicate OneLineEach(lines: seq<string>) {
    forall k | 0 <= k < |lines| :: '\n' !in lines[k]
  }

  function Printed(d: Document): string { Join(Lines(d), '\n') }

  predicate WithinLimits(d: Document, limits: Limits) {
    |d.files| <= Bounded(limits).maxFiles && FilesChanged(d.files) <= Bounded(limits).maxChangedLines
  }

  // ---------------------------------------------------------------- every printed document is read back

  lemma {:induction false} ScanPlain(lines: seq<string>, s: Scan, limits: Limits)
    requires AllPlain(lines) && !s.InHunk()
    ensures Scanned(lines, s, limits) == Ok(s)
  {
    if lines != [] {
      assert lines[0] in lines;
      ScanPlain(lines[1..], s, limits);
    }
  }

  lemma BodyLineKinds(line: string)
    ensures HasPrefix(line, NO_NEWLINE) ==> line[0] == '\\'
    ensures Added(line) <==> line != "" && line[0] == '+'
    ensures Removed(line) <==> line != "" && line[0] == '-'
    ensures Context(line) <==> line != "" && line[0] == ' '
  {
    if HasPrefix(line, NO_NEWLINE) {
      assert line[0] == line[..|NO_NEWLINE|][0];
    }
    if line != "" {
      assert line[..1] == [line[0]];
    }
  }

  lemma {:induction false} CountedLast(body: seq<string>)
    requires IsBody(body) && body != []
    ensures OldLines(body) != 0 || NewLines(body) != 0
  {
    if |body| > 1 {
      assert body[1..][|body| - 2] == body[|body| - 1];
      CountedLast(body[1..]);
    }
  }

  /** A body with the declared counts is consumed exactly, unless the limit is passed on the way. */
  lemma {:induction false} ScanBody(body: seq<string>, s: Scan, limits: Limits)
    requires IsBody(body) && s.changed <= limits.maxChangedLines
    requires s.olds == OldLines(body) && s.news == NewLines(body)
    ensures Scanned(body, s, limits) ==
            if s.changed + ChangedLines(body) <= limits.maxChangedLines
            then Ok(s.(changed := s.changed + ChangedLines(body), olds := 0, news := 0))
            else Err(PatchLimit)
  {
    if body != [] {
      CountedLast(body);
      var line := body[0];
      assert line in body;
      BodyLineKinds(line);
      var step := Step(line, s, limits);
      var rest := body[1..];
      assert IsBody(rest) by {
        if rest != [] { assert rest[|rest| - 1] == body[|body| - 1]; }
      }
      if step.Ok? {
        ScanBody(rest, step.value, limits);
      }
    }
  }

  lemma ScanOne(line: string, s: Scan, limits: Limits)
    ensures Scanned([line], s, limits) == Step(line, s, limits)
  {
    assert [line][1..] == [];
  }

  lemma HeaderIsNotForbidden(line: string)
    requires line != "" && (line[0] == '-' || line[0] == '+' || line[0] == '@')
    ensures !ForbiddenLine(line)
  {
    NotPrefix(line, "rename from ");
    NotPrefix(line, "rename to ");
    NotPrefix(line, "similarity index ");
    NotPrefix(line, "old mode ");
    NotPrefix(line, "new mode ");
    NotPrefix(line, "new file mode ");
    NotPrefix(line, "deleted file mode ");
  }

  lemma StepHunkHeader(h: Hunk, s: Scan, limits: Limits)
    requires IsHunk(h) && s.paths != [] && s.oldPath == "" && !s.InHunk()
    ensures Scanned([h.header], s, limits) ==
            Ok(s.(hasHunk := true, olds := OldLines(h.body), news := NewLines(h.body)))
  {
    assert h.header[..3][0] == h.header[0] == '@';
    HeaderIsNotForbidden(h.header);
    NotPrefix(h.header, "--- ");
    NotPrefix(h.header, "+++ ");
    ScanOne(h.header, s, limits);
  }

  lemma ScanHunk(h: Hunk, s: Scan, limits: Limits)
    requires IsHunk(h) && s.changed <= limits.maxChangedLines
    requires s.paths != [] && s.oldPath == "" && !s.InHunk()
    ensures Scanned([h.header] + h.body + h.trail, s, limits) ==
            if s.changed + ChangedLines(h.body) <= limits.maxChangedLines
            then Ok(s.(changed := s.changed + ChangedLines(h.body), hasHunk := true))
            else Err(PatchLimit)
  {
    hide Step;
    StepHunkHeader(h, s, limits);
    ScanBody(h.body, s.(hasHunk := true, olds := OldLines(h.body), news := NewLines(h.body)), limits);
    ScannedConcat([h.header], h.body, s, limits);
    ScannedConcat([h.header] + h.body, h.trail, s, limits);
    ScanPlain(h.trail, s.(hasHunk := true, changed := s.changed + ChangedLines(h.body)), limits);
  }

  lemma {:induction false} ScanHunks(hunks: seq<Hunk>, s: Scan, limits: Limits)
    requires AllHunks(hunks) && s.changed <= limits.maxChangedLines
    requires s.paths != [] && s.oldPath == "" && !s.InHunk()
    ensures Scanned(HunkLines(hunks), s, limits) ==
            if s.changed + HunksChanged(hunks) <= limits.maxChangedLines
            then Ok(s.(changed := s.changed + HunksChanged(hunks), hasHunk := s.hasHunk || hunks != []))
            else Err(PatchLimit)
  {
    hide Step;
    if hunks != [] {
      var h := hunks[0];
      assert h in hunks;
      ScanHunk(h, s, limits);
      ScannedConcat([h.header] + h.body + h.trail, HunkLines(hunks[1..]), s, limits);
      if s.changed + ChangedLines(h.body) <= limits.maxChangedLines {
        ScanHunks(hunks[1..], s.(hasHunk := true, changed := s.changed + ChangedLines(h.body)), limits);
      }
    }
  }

  lemma StepOldHeader(f: FilePatch, s: Scan, limits: Limits)
    requires IsFile(f) && s.oldPath == "" && !s.InHunk() && (s.paths != [] ==> s.hasHunk)
    ensures Scanned([f.oldHeader], s, limits) == Ok(s.(oldPath := PathOf(f)))
  {
    assert f.oldHeader[..4][0] == f.oldHeader[0] == '-';
    HeaderIsNotForbidden(f.oldHeader);
    ScanOne(f.oldHeader, s, limits);
  }

  lemma StepNewHeader(f: FilePatch, s: Scan, limits: Limits)
    requires IsFile(f) && s.oldPath == PathOf(f) && PathOf(f) !in s.paths && !s.InHunk()
    ensures Scanned([f.newHeader], s, limits) ==
            if |s.paths| + 1 <= limits.maxFiles
            then Ok(s.(paths := s.paths + [PathOf(f)], oldPath := "", hasHunk := false))
            else Err(PatchLimit)
  {
    assert f.newHeader[..4][0] == f.newHeader[0] == '+';
    HeaderIsNotForbidden(f.newHeader);
    NotPrefix(f.newHeader, "--- ");
    ScanOne(f.newHeader, s, limits);
  }

  /** The two headers of a file, with plain lines around them. */
  lemma ScanHeaders(f: FilePatch, s: Scan, limits: Limits)
    requires IsFile(f) && PathOf(f) !in s.paths
    requires s.oldPath == "" && !s.InHunk() && (s.paths != [] ==> s.hasHunk)
    ensures Scanned(HeaderLines(f), s, limits) ==
            if |s.paths| + 1 <= limits.maxFiles
            then Ok(s.(paths := s.paths + [PathOf(f)], hasHunk := false))
            else Err(PatchLimit)
  {
    hide Step;
    var named := s.(oldPath := PathOf(f));
    StepOldHeader(f, s, limits);
    ScanPlain(f.between, named, limits);
    StepNewHeader(f, named, limits);
    ScannedConcat([f.oldHeader], f.between, s, limits);
    ScannedConcat([f.oldHeader] + f.between, [f.newHeader], s, limits);
    ScannedConcat([f.oldHeader] + f.between + [f.newHeader], f.lead, s, limits);
    if |s.paths| + 1 <= limits.maxFiles {
      ScanPlain(f.lead, s.(paths := s.paths + [PathOf(f)], hasHunk := false), limits);
    }
  }

  lemma ScanFile(f: FilePatch, s: Scan, limits: Limits)
    requires IsFile(f) && PathOf(f) !in s.paths && s.changed <= limits.maxChangedLines
    requires s.oldPath == "" && !s.InHunk() && (s.paths != [] ==> s.hasHunk)
    ensures Scanned(Block(f), s, limits) ==
            if |s.paths| + 1 <= limits.maxFiles && s.changed + HunksChanged(f.hunks) <= limits.maxChangedLines
            then Ok(s.(paths := s.paths + [PathOf(f)], changed := s.changed + HunksChanged(f.hunks), hasHunk := true))
            else Err(PatchLimit)
  {
    hide Step;
    ScanHeaders(f, s, limits);
    if |s.paths| + 1 <= limits.maxFiles {
      var mid := s.(paths := s.paths + [PathOf(f)], hasHunk := false);
      ScanHunks(f.hunks, mid, limits);
      ThenScanned(HeaderLines(f), HunkLines(f.hunks), s, mid, limits);
    } else {
      ThenRefused(HeaderLines(f), HunkLines(f.hunks), s, limits);
    }
  }

  lemma ThenScanned(a: seq<string>, b: seq<string>, s: Scan, mid: Scan, limits: Limits)
    requires Scanned(a, s, limits) == Ok(mid)
    ensures Scanned(a + b, s, limits) == Scanned(b, mid, limits)
  {
    ScannedConcat(a, b, s, limits);
  }

  lemma ThenRefused(a: seq<string>, b: seq<string>, s: Scan, limits: Limits)
    requires Scanned(a, s, limits) == Err(PatchLimit)
    ensures Scanned(a + b, s, limits) == Err(PatchLimit)
  {
    ScannedConcat(a, b, s, limits);
  }

  predicate Fresh(paths: seq<string>, more: seq<string>) {
    Distinct(more) && forall p | p in more :: p !in paths
  }

  lemma FreshTail(paths: seq<string>, first: string, rest: seq<string>)
    requires Fresh(paths, [first] + rest)
    ensures first !in paths && Fresh(paths + [first], rest)
  {
    var more := [first] + rest;
    assert more[0] == first;
    forall i | 0 <= i < |rest| ensures rest[i] != first && rest[i] !in paths {
      assert more[i + 1] == rest[i] && more[0] != more[i + 1];
    }
    forall i, j | 0 <= i < j < |rest| ensures rest[i] != rest[j] {
      assert more[i + 1] != more[j + 1];
    }
  }

  /** The scanner after some complete files, or the limit error. */
  function AfterFiles(s: Scan, paths: seq<string>, changed: nat, limits: Limits): Result<Scan> {
    if |s.paths| + |paths| <= limits.maxFiles && s.changed + changed <= limits.maxChangedLines
    then Ok(s.(paths := s.paths + paths, changed := s.changed + changed, hasHunk := s.hasHunk || paths != []))
    else Err(PatchLimit)
  }

  lemma AfterFilesStep(s: Scan, path: string, changed: nat, paths: seq<string>, more: nat, limits: Limits)
    ensures AfterFiles(s, [path] + paths, changed + more, limits) ==
            match AfterFiles(s, [path], changed, limits)
            case Ok(next) => AfterFiles(next, paths, more, limits)
            case Err(e) => Err(e)
  {
    assert s.paths + ([path] + paths) == s.paths + [path] + paths;
  }

  lemma ScanBlock(f: FilePatch, s: Scan, limits: Limits)
    requires IsFile(f) && PathOf(f) !in s.paths && s.changed <= limits.maxChangedLines
    requires s.oldPath == "" && !s.InHunk() && (s.paths != [] ==> s.hasHunk)
    ensures Scanned(Block(f), s, limits) == AfterFiles(s, [PathOf(f)], HunksChanged(f.hunks), limits)
  {
    hide Step;
    ScanFile(f, s, limits);
  }

  lemma AfterNoFile(s: Scan, limits: Limits)
    requires |s.paths| <= limits.maxFiles && s.changed <= limits.maxChangedLines
    ensures AfterFiles(s, [], 0, limits) == Ok(s)
  {
    assert s.paths + [] == s.paths;
  }

  lemma SplitFiles(files: seq<FilePatch>)
    requires files != [] && AllFiles(files)
    ensures IsFile(files[0]) && AllFiles(files[1..])
    ensures FileLines(files) == Block(files[0]) + FileLines(files[1..])
    ensures Paths(files) == [PathOf(files[0])] + Paths(files[1..])
    ensures FilesChanged(files) == HunksChanged(files[0].hunks) + FilesChanged(files[1..])
  {
    assert files[0] in files;
  }

  lemma {:induction false} ScanFiles(files: seq<FilePatch>, s: Scan, limits: Limits)
    requires AllFiles(files) && Fresh(s.paths, Paths(files))
    requires s.oldPath == "" && !s.InHunk() && (s.paths != [] ==> s.hasHunk)
    requires |s.paths| <= limits.maxFiles && s.changed <= limits.maxChangedLines
    ensures Scanned(FileLines(files), s, limits) == AfterFiles(s, Paths(files), FilesChanged(files), limits)
  {
    hide Step;
    hide IsFile;
    hide Block;
    if files == [] {
      AfterNoFile(s, limits);
    } else {
      SplitFiles(files);
      var path, changed := PathOf(files[0]), HunksChanged(files[0].hunks);
      FreshTail(s.paths, path, Paths(files[1..]));
      ScanBlock(files[0], s, limits);
      AfterFilesStep(s, path, changed, Paths(files[1..]), FilesChanged(files[1..]), limits);
      var after := AfterFiles(s, [path], changed, limits);
      if after.Ok? {
        ScanFiles(files[1..], after.value, limits);
        ThenScanned(Block(files[0]), FileLines(files[1..]), s, after.value, limits);
      } else {
        ThenRefused(Block(files[0]), FileLines(files[1..]), s, limits);
      }
    }
  }

  /** Printing any document and reading it gives back its paths and its number of changed lines, or the
      limit error if it is too large. */
  lemma PrintedIsRead(d: Document, limits: Limits)
    requires IsDocument(d) && OneLineEach(Lines(d)) && !Refused(Printed(d))
    ensures Parsed(Printed(d), limits) ==
            if WithinLimits(d, limits) then Ok(Headers(Paths(d.files), FilesChanged(d.files))) else Err(PatchLimit)
  {
    SplitOfJoin(Lines(d), '\n');
    var bound := Bounded(limits);
    ScanPlain(d.preamble, START, bound);
    ScannedConcat(d.preamble, FileLines(d.files), START, bound);
    ScanFiles(d.files, START, bound);
    assert [] + Paths(d.files) == Paths(d.files);
  }

  // ---------------------------------------------------------------- everything accepted is a document

  lemma StepInHunk(line: string, s: Scan, limits: Limits)
    requires s.InHunk()
    ensures Step(line, s, limits) ==
            match HunkLine(line, s.olds, s.news)
            case Err(e) => Err(e)
            case Ok((olds, news, changed)) =>
              if s.changed + changed > limits.maxChangedLines then Err(PatchLimit)
              else Ok(s.(changed := s.changed + changed, olds := olds, news := news))
  {
  }

  lemma {:induction false} BodyOf(lines: seq<string>, s: Scan, limits: Limits)
    returns (body: seq<string>, rest: seq<string>)
    requires Scanned(lines, s, limits).Ok? && !Scanned(lines, s, limits).value.InHunk()
    requires s.changed <= limits.maxChangedLines
    ensures lines == body + rest && IsBody(body)
    ensures OldLines(body) == s.olds && NewLines(body) == s.news
    ensures s.changed + ChangedLines(body) <= limits.maxChangedLines
    ensures Scanned(rest, s.(changed := s.changed + ChangedLines(body), olds := 0, news := 0), limits)
         == Scanned(lines, s, limits)
  {
    hide Step;
    if !s.InHunk() {
      body, rest := [], lines;
    } else {
      StepInHunk(lines[0], s, limits);
      var next := Step(lines[0], s, limits).value;
      BodyLineKinds(lines[0]);
      var tail;
      tail, rest := BodyOf(lines[1..], next, limits);
      body := [lines[0]] + tail;
      assert body[1..] == tail;
      assert lines == [lines[0]] + lines[1..];
      if tail != [] {
        assert body[|body| - 1] == tail[|tail| - 1];
      }
    }
  }

  lemma {:induction false} NewHeaderOf(lines: seq<string>, s: Scan, limits: Limits)
    returns (between: seq<string>, newHeader: string, rest: seq<string>)
    requires Scanned(lines, s, limits).Ok? && Complete(Scanned(lines, s, limits).value)
    requires s.oldPath != "" && !s.InHunk()
    ensures lines == between + [newHeader] + rest && AllPlain(between)
    ensures HasPrefix(newHeader, "+++ ") && PatchPath(newHeader[4..], "b/") == Ok(s.oldPath)
    ensures s.oldPath !in s.paths && |s.paths| + 1 <= limits.maxFiles
    ensures Scanned(rest, s.(paths := s.paths + [s.oldPath], oldPath := "", hasHunk := false), limits)
         == Scanned(lines, s, limits)
  {
    if HasPrefix(lines[0], "+++ ") {
      assert lines[0][..4] == "+++ ";
      between, newHeader, rest := [], lines[0], lines[1..];
    } else {
      between, newHeader, rest := NewHeaderOf(lines[1..], s, limits);
      assert lines == [lines[0]] + lines[1..];
      between := [lines[0]] + between;
    }
  }

  lemma StepBetweenHunks(lines: seq<string>, s: Scan, limits: Limits) returns (next: Scan)
    requires lines != [] && Scanned(lines, s, limits).Ok? && s.oldPath == "" && !s.InHunk()
    ensures Scanned(lines[1..], next, limits) == Scanned(lines, s, limits)
    ensures var line := lines[0];
            if HasPrefix(line, "--- ") then
              && PatchPath(line[4..], "a/") == Ok(next.oldPath) && next.oldPath != ""
              && next == s.(oldPath := next.oldPath) && (s.paths != [] ==> s.hasHunk)
            else if HasPrefix(line, "@@ ") then
              && HunkHeader(line) == Ok((next.olds, next.news))
              && next == s.(hasHunk := true, olds := next.olds, news := next.news) && s.paths != []
            else Plain(line) && next == s
  {
    next := Step(lines[0], s, limits).value;
  }

  /** Reading on between two hunks: the plain lines that come next, the remaining hunks of the current
      file, and the remaining files. */
  lemma {:induction false} DocumentOf(lines: seq<string>, s: Scan, end: Scan, limits: Limits)
    returns (lead: seq<string>, hunks: seq<Hunk>, files: seq<FilePatch>)
    requires Scanned(lines, s, limits) == Ok(end) && Complete(end)
    requires s.oldPath == "" && !s.InHunk()
    requires |s.paths| <= limits.maxFiles && s.changed <= limits.maxChangedLines
    ensures lines == lead + HunkLines(hunks) + FileLines(files)
    ensures AllPlain(lead) && AllHunks(hunks) && AllFiles(files) && Fresh(s.paths, Paths(files))
    ensures s.paths == [] ==> hunks == [] && files != []
    ensures s.paths != [] && !s.hasHunk ==> hunks != []
    ensures end.paths == s.paths + Paths(files)
    ensures end.changed == s.changed + HunksChanged(hunks) + FilesChanged(files)
    ensures |end.paths| <= limits.maxFiles && end.changed <= limits.maxChangedLines
    decreases |lines|, 1
  {
    hide Step;
    if lines == [] {
      lead, hunks, files := [], [], [];
      assert s.paths + Paths(files) == s.paths;
    } else if HasPrefix(lines[0], "--- ") {
      lead, hunks, files := FileOf(lines, s, end, limits);
    } else if HasPrefix(lines[0], "@@ ") {
      lead, hunks, files := HunkOf(lines, s, end, limits);
    } else {
      var next := StepBetweenHunks(lines, s, limits);
      var plain;
      plain, hunks, files := DocumentOf(lines[1..], s, end, limits);
      assert lines == [lines[0]] + lines[1..];
      lead := [lines[0]] + plain;
      Prepend(lines[0], plain, HunkLines(hunks), FileLines(files));
      PlainFirst(lines[0], plain);
    }
  }

  lemma Prepend<T>(x: T, a: seq<T>, b: seq<T>, c: seq<T>)
    ensures [x] + (a + b + c) == ([x] + a) + b + c
  {
  }

  lemma PlainFirst(line: string, lines: seq<string>)
    requires Plain(line) && AllPlain(lines)
    ensures AllPlain([line] + lines)
  {
  }

  lemma HeadersOf(lines: seq<string>, s: Scan, end: Scan, limits: Limits)
    returns (path: string, between: seq<string>, newHeader: string, rest: seq<string>)
    requires lines != [] && HasPrefix(lines[0], "--- ")
    requires Scanned(lines, s, limits) == Ok(end) && Complete(end)
    requires s.oldPath == "" && !s.InHunk()
    ensures lines == [lines[0]] + (between + [newHeader] + rest) && AllPlain(between)
    ensures PatchPath(lines[0][4..], "a/") == Ok(path) && path !in s.paths && |s.paths| + 1 <= limits.maxFiles
    ensures HasPrefix(newHeader, "+++ ") && PatchPath(newHeader[4..], "b/") == Ok(path)
    ensures s.paths != [] ==> s.hasHunk
    ensures Scanned(rest, s.(paths := s.paths + [path], hasHunk := false), limits) == Ok(end)
  {
    hide Step;
    var next := StepBetweenHunks(lines, s, limits);
    assert lines[0][..4] == "--- ";
    assert lines == [lines[0]] + lines[1..];
    path := next.oldPath;
    between, newHeader, rest := NewHeaderOf(lines[1..], next, limits);
    assert next.(paths := next.paths + [path], oldPath := "", hasHunk := false)
        == s.(paths := s.paths + [path], hasHunk := false);
  }

  lemma {:induction false} FileOf(lines: seq<string>, s: Scan, end: Scan, limits: Limits)
    returns (lead: seq<string>, hunks: seq<Hunk>, files: seq<FilePatch>)
    requires lines != [] && HasPrefix(lines[0], "--- ")
    requires Scanned(lines, s, limits) == Ok(end) && Complete(end)
    requires s.oldPath == "" && !s.InHunk()
    requires |s.paths| <= limits.maxFiles && s.changed <= limits.maxChangedLines
    ensures lines == lead + HunkLines(hunks) + FileLines(files)
    ensures AllPlain(lead) && AllHunks(hunks) && AllFiles(files) && Fresh(s.paths, Paths(files))
    ensures s.paths == [] ==> hunks == [] && files != []
    ensures s.paths != [] && !s.hasHunk ==> hunks != []
    ensures end.paths == s.paths + Paths(files)
    ensures end.changed == s.changed + HunksChanged(hunks) + FilesChanged(files)
    ensures |end.paths| <= limits.maxFiles && end.changed <= limits.maxChangedLines
    decreases |lines|, 0
  {
    hide Step;
    var path, between, newHeader, rest := HeadersOf(lines, s, end, limits);
    var named := s.(paths := s.paths + [path], hasHunk := false);
    var lead', hunks', files' := DocumentOf(rest, named, end, limits);
    var f := FilePatch(lines[0], between, newHeader, lead', hunks');
    FirstFile(f, files', s.paths);
    Nest(lines[0], between, newHeader, lead', HunkLines(hunks'), FileLines(files'));
    lead, hunks, files := [], [], [f] + files';
  }

  lemma {:induction false} HunkOf(lines: seq<string>, s: Scan, end: Scan, limits: Limits)
    returns (lead: seq<string>, hunks: seq<Hunk>, files: seq<FilePatch>)
    requires lines != [] && !HasPrefix(lines[0], "--- ") && HasPrefix(lines[0], "@@ ")
    requires Scanned(lines, s, limits) == Ok(end) && Complete(end)
    requires s.oldPath == "" && !s.InHunk()
    requires |s.paths| <= limits.maxFiles && s.changed <= limits.maxChangedLines
    ensures lines == lead + HunkLines(hunks) + FileLines(files)
    ensures AllPlain(lead) && AllHunks(hunks) && AllFiles(files) && Fresh(s.paths, Paths(files))
    ensures s.paths == [] ==> hunks == [] && files != []
    ensures s.paths != [] && !s.hasHunk ==> hunks != []
    ensures end.paths == s.paths + Paths(files)
    ensures end.changed == s.changed + HunksChanged(hunks) + FilesChanged(files)
    ensures |end.paths| <= limits.maxFiles && end.changed <= limits.maxChangedLines
    decreases |lines|, 0
  {
    hide Step;
    var next := StepBetweenHunks(lines, s, limits);
    assert lines == [lines[0]] + lines[1..];
    var body, rest := BodyOf(lines[1..], next, limits);
    var after := next.(changed := next.changed + ChangedLines(body), olds := 0, news := 0);
    var lead', hunks', files' := DocumentOf(rest, after, end, limits);
    var h := Hunk(lines[0], body, lead');
    FirstHunk(h, hunks', FileLines(files'));
    lead, hunks, files := [], [h] + hunks', files';
  }

  /** One more hunk in front of the hunks that follow it. */
  lemma FirstHunk(h: Hunk, more: seq<Hunk>, rest: seq<string>)
    requires IsHunk(h) && AllHunks(more)
    ensures [h.header] + (h.body + (h.trail + HunkLines(more) + rest)) == [] + HunkLines([h] + more) + rest
    ensures AllHunks([h] + more) && HunksChanged([h] + more) == ChangedLines(h.body) + HunksChanged(more)
  {
    assert ([h] + more)[1..] == more;
    assert HunkLines([h] + more) == [h.header] + h.body + h.trail + HunkLines(more);
    NestHunk(h.header, h.body, h.trail, HunkLines(more), rest);
  }

  lemma NestHunk<T>(a: T, b: seq<T>, c: seq<T>, d: seq<T>, e: seq<T>)
    ensures [a] + (b + (c + d + e)) == [] + ([a] + b + c + d) + e
  {
  }

  /** One more file in front of the files that follow it. */
  lemma FirstFile(f: FilePatch, following: seq<FilePatch>, paths: seq<string>)
    requires IsFile(f) && AllFiles(following) && PathOf(f) !in paths && Fresh(paths + [PathOf(f)], Paths(following))
    ensures AllFiles([f] + following) && FileLines([f] + following) == Block(f) + FileLines(following)
    ensures paths + Paths([f] + following) == paths + [PathOf(f)] + Paths(following)
    ensures Fresh(paths, Paths([f] + following))
    ensures FilesChanged([f] + following) == HunksChanged(f.hunks) + FilesChanged(following)
  {
    var files := [f] + following;
    assert files[1..] == following && files[0] == f;
    FreshFirst(paths, PathOf(f), Paths(following));
    Associative(paths, [PathOf(f)], Paths(following));
  }

  lemma Nest<T>(a: T, b: seq<T>, c: T, d: seq<T>, e: seq<T>, f: seq<T>)
    ensures [a] + (b + [c] + (d + e + f)) == [] + [] + ([a] + b + [c] + d + e + f)
  {
  }

  lemma FreshFirst(paths: seq<string>, path: string, rest: seq<string>)
    requires path !in paths && Fresh(paths + [path], rest)
    ensures Fresh(paths, [path] + rest)
  {
    forall p | p in rest ensures p != path && p !in paths {
      assert path in paths + [path];
    }
  }

  lemma WholeDocument(lines: seq<string>, end: Scan, limits: Limits) returns (d: Document)
    requires Scanned(lines, START, Bounded(limits)) == Ok(end) && Complete(end)
    ensures IsDocument(d) && Lines(d) == lines && WithinLimits(d, limits)
    ensures end.paths == Paths(d.files) && end.changed == FilesChanged(d.files)
  {
    hide Step;
    var preamble, hunks, files := DocumentOf(lines, START, end, Bounded(limits));
    d := Document(preamble, files);
    NoHunks(preamble, FileLines(files));
    assert [] + Paths(files) == Paths(files);
  }

  lemma NoHunks(a: seq<string>, b: seq<string>)
    ensures a + HunkLines([]) + b == a + b
  {
  }

  /** Everything the reader accepts is the text of a document within the limits. */
  lemma AcceptedIsPrinted(patch: string, limits: Limits) returns (d: Document)
    requires Parsed(patch, limits).Ok?
    ensures IsDocument(d) && OneLineEach(Lines(d)) && Printed(d) == patch && WithinLimits(d, limits)
    ensures Parsed(patch, limits) == Ok(Headers(Paths(d.files), FilesChanged(d.files)))
  {
    var lines := Split(patch, '\n');
    SplitPartsAreFree(patch, '\n');
    JoinOfSplit(patch, '\n');
    d := WholeDocument(lines, Scanned(lines, START, Bounded(limits)).value, limits);
  }

  /** The reader accepts a patch, with these paths and this many changed lines, exactly when the patch is
      the text of a document with these paths and changed lines that is within the limits. */
  lemma AcceptsExactlyTheDocuments(patch: string, limits: Limits, paths: seq<string>, changed: nat)
    ensures Parsed(patch, limits) == Ok(Headers(paths, changed)) <==>
            && !Refused(patch)
            && exists d: Document ::
                 && IsDocument(d) && OneLineEach(Lines(d)) && Printed(d) == patch && WithinLimits(d, limits)
                 && Paths(d.files) == paths && FilesChanged(d.files) == changed
  {
    if Parsed(patch, limits) == Ok(Headers(paths, changed)) {
      var d := AcceptedIsPrinted(patch, limits);
    }
    if !Refused(patch) {
      forall d: Document |
        && IsDocument(d) && OneLineEach(Lines(d)) && Printed(d) == patch && WithinLimits(d, limits)
        && Paths(d.files) == paths && FilesChanged(d.files) == changed
        ensures Parsed(patch, limits) == Ok(Headers(paths, changed))
      {
        PrintedIsRead(d, limits);
      }
    }
  }

  // ---------------------------------------------------------------- the headers a diff tool writes

  lemma HeaderRoundTrip(path: string)
    requires path != "" && NoSpace(path)
    ensures PatchPath("a/" + path, "a/") == Ok(path) && PatchPath("b/" + path, "b/") == Ok(path)
  {
    FirstField("a/" + path, "");
    FirstField("b/" + path, "");
    assert ("a/" + path) + "" == "a/" + path && ("b/" + path) + "" == "b/" + path;
    assert ("a/" + path)[0] == 'a' && ("b/" + path)[0] == 'b' && "/dev/null"[0] == '/';
  }

  lemma DigitsAreOneField(digits: string)
    requires AllDigits(digits)
    ensures NoSpace(digits) && ',' !in digits
  {
  }

  lemma TwoParts(first: string, second: string, prefix: string)
    requires ',' !in first && ',' !in second
    ensures var value := prefix + first + "," + second;
            HasPrefix(value, prefix) && Split(TrimPrefix(value, prefix), ',') == [first, second]
  {
    var value := prefix + first + "," + second;
    assert value[..|prefix|] == prefix;
    assert TrimPrefix(value, prefix) == first + [','] + second;
    SplitAtSeparator(first, second, ',');
    SplitWithoutSeparator(first, ',');
    SplitWithoutSeparator(second, ',');
  }

  lemma AtoiOfDigits(digits: string)
    requires AllDigits(digits) && DigitValue(digits) <= MAX_INT
    ensures Atoi(digits) == Ok(DigitValue(digits))
  {
    assert digits[0] in digits;
  }

  lemma CountRoundTrip(start: nat, count: nat, prefix: string)
    requires count <= MAX_INT
    ensures HunkCount(prefix + Decimal(start) + "," + Decimal(count), prefix) == Ok(count)
  {
    DecimalIsFaithful(start);
    DecimalIsFaithful(count);
    DigitsAreOneField(Decimal(start));
    DigitsAreOneField(Decimal(count));
    TwoParts(Decimal(start), Decimal(count), prefix);
    AtoiOfDigits(Decimal(count));
  }

  lemma SpaceThenWord(word: string, rest: string)
    requires word != "" && NoSpace(word) && (rest == "" || IsSpace(rest[0]))
    ensures Fields(" " + word + rest) == [word] + Fields(rest)
  {
    hide Fields;
    var s := " " + word + rest;
    assert s[0] == ' ' && s[1..] == word + rest;
    LeadingSpace(s);
    FirstField(word, rest);
  }

  lemma FourFields(olds: string, news: string)
    requires olds != "" && news != "" && NoSpace(olds) && NoSpace(news)
    ensures Fields("@@" + (" " + olds + (" " + news + " @@"))) == ["@@", olds, news, "@@"]
  {
    SpaceThenWord("@@", "");
    assert " " + "@@" + "" == " @@";
    SpaceThenWord(news, " @@");
    SpaceThenWord(olds, " " + news + " @@");
    FirstField("@@", " " + olds + (" " + news + " @@"));
  }

  lemma CountIsOneField(start: nat, count: nat, prefix: string)
    requires NoSpace(prefix)
    ensures NoSpace(prefix + Decimal(start) + "," + Decimal(count))
  {
    DecimalIsFaithful(start);
    DecimalIsFaithful(count);
  }

  /** The header "@@ -i,n +j,m @@" declares n old and m new lines. */
  lemma HunkHeaderRoundTrip(i: nat, n: nat, j: nat, m: nat, olds: string, news: string)
    requires n <= MAX_INT && m <= MAX_INT
    requires olds == "-" + Decimal(i) + "," + Decimal(n)
    requires news == "+" + Decimal(j) + "," + Decimal(m)
    ensures HunkHeader("@@" + (" " + olds + (" " + news + " @@"))) == Ok((n, m))
  {
    CountRoundTrip(i, n, "-");
    CountRoundTrip(j, m, "+");
    CountIsOneField(i, n, "-");
    CountIsOneField(j, m, "+");
    FourFields(olds, news);
  }
}
