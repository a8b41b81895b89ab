/** The unified-diff reader of internal/tools/patch_headers.go: a line-driven scanner with hunk
    counters, proved against a grammar of patch documents that knows nothing of the scanner. */
module PatchHeaders {
  import opened Text

  datatype Error = InvalidPatch | PatchLimit
  datatype Result<T> = Ok(value: T) | Err(error: Error)

  datatype Limits = Limits(maxFiles: int, maxChangedLines: int)
  datatype Headers = Headers(paths: seq<string>, changedLines: nat)

  const MAXIMUM_PATCH_FILES := 5
  const MAXIMUM_PATCH_LINES := 500

  /** boundedPatchLimits */
  function Bounded(limits: Limits): (r: Limits)
    ensures 0 < r.maxFiles <= MAXIMUM_PATCH_FILES && 0 < r.maxChangedLines <= MAXIMUM_PATCH_LINES
  {
    Limits(
      if limits.maxFiles <= 0 || limits.maxFiles > MAXIMUM_PATCH_FILES then MAXIMUM_PATCH_FILES else limits.maxFiles,
      if limits.maxChangedLines <= 0 || limits.maxChangedLines > MAXIMUM_PATCH_LINES then MAXIMUM_PATCH_LINES
      else limits.maxChangedLines)
  }

  // ---------------------------------------------------------------- header fields

  /** patchPath: the path named by a file header. */
  function PatchPath(header: string, prefix: string): (r: Result<string>)
    ensures r.Ok? ==> r.value != ""
  {
    var fields := Fields(header);
    if fields == [] || fields[0] == "/dev/null" || !HasPrefix(fields[0], prefix) then Err(InvalidPatch)
    else
      var value := TrimPrefix(fields[0], prefix);
      if value == "" then Err(InvalidPatch) else Ok(value)
  }

  const MAX_INT := 0x7FFF_FFFF_FFFF_FFFF

  /** strconv.Atoi on a 64-bit platform. */
  function Atoi(s: string): Result<int> {
    var digits := if s != "" && (s[0] == '-' || s[0] == '+') then s[1..] else s;
    if !AllDigits(digits) then Err(InvalidPatch)
    else
      var magnitude: int := DigitValue(digits);
      if s[0] == '-' then (if magnitude <= MAX_INT + 1 then Ok(-magnitude) else Err(InvalidPatch))
      else if magnitude <= MAX_INT then Ok(magnitude)
      else Err(InvalidPatch)
  }

  /** hunkCount: a missing count means one line. */
  function HunkCount(value: string, prefix: string): Result<nat> {
    if !HasPrefix(value, prefix) then Err(InvalidPatch)
    else
      var parts := Split(TrimPrefix(value, prefix), ',');
      if |parts| > 2 || parts[0] == "" then Err(InvalidPatch)
      else if |parts| == 1 then Ok(1)
      else
        match Atoi(parts[1])
        case Ok(count) => if count < 0 then Err(InvalidPatch) else Ok(count)
        case Err(e) => Err(e)
  }

  /** parseHunkHeader: the number of old and of new lines that follow. */
  function HunkHeader(line: string): Result<(nat, nat)> {
    var fields := Fields(line);
    if |fields| < 4 || fields[0] != "@@" || fields[3] != "@@" then Err(InvalidPatch)
    else
      match HunkCount(fields[1], "-")
      case Err(e) => Err(e)
      case Ok(olds) =>
        match HunkCount(fields[2], "+")
        case Err(e) => Err(e)
        case Ok(news) => Ok((olds, news))
  }

  // ---------------------------------------------------------------- the scanner

  predicate ForbiddenLine(line: string) {
    || HasPrefix(line, "rename from ") || HasPrefix(line, "rename to ") || HasPrefix(line, "similarity index ")
    || HasPrefix(line, "old mode ") || HasPrefix(line, "new mode ")
    || HasPrefix(line, "new file mode ") || HasPrefix(line, "deleted file mode ")
  }

  const NO_NEWLINE := "\\ No newline at end of file"

  /** The variables of parsePatchHeaders between two lines; "oldPath" is empty between file headers. */
  datatype Scan = Scan(paths: seq<string>, changed: nat, oldPath: string, hasHunk: bool, olds: nat, news: nat) {
    predicate InHunk() { olds != 0 || news != 0 }
  }

  const START := Scan([], 0, "", false, 0, 0)

  /** consumeHunkLine: how a body line lowers the two counters, and whether it is a changed line. */
  function HunkLine(line: string, olds: nat, news: nat): Result<(nat, nat, nat)> {
    if HasPrefix(line, NO_NEWLINE) then Ok((olds, news, 0))
    else if HasPrefix(line, "+") then if news == 0 then Err(InvalidPatch) else Ok((olds, news - 1, 1))
    else if HasPrefix(line, "-") then if olds == 0 then Err(InvalidPatch) else Ok((olds - 1, news, 1))
    else if HasPrefix(line, " ") then
      if olds == 0 || news == 0 then Err(InvalidPatch) else Ok((olds - 1, news - 1, 0))
    else Err(InvalidPatch)
  }

  /** One line of input. */
  function Step(line: string, s: Scan, limits: Limits): Result<Scan> {
    if s.InHunk() then
      match HunkLine(line, s.olds, s.news)
      case Err(e) => Err(e)
      case Ok((olds, news, changed)) =>
        if s.changed + changed > limits.maxChangedLines then Err(PatchLimit)
        else Ok(s.(changed := s.changed + changed, olds := olds, news := news))
    else if ForbiddenLine(line) then Err(InvalidPatch)
    else if HasPrefix(line, "--- ") then
      if s.oldPath != "" || (|s.paths| > 0 && !s.hasHunk) then Err(InvalidPatch)
      else
        match PatchPath(line[4..], "a/")
        case Err(e) => Err(e)
        case Ok(path) => Ok(s.(oldPath := path))
    else if HasPrefix(line, "+++ ") then
      if s.oldPath == "" || PatchPath(line[4..], "b/") != Ok(s.oldPath) || s.oldPath in s.paths then Err(InvalidPatch)
      else if |s.paths| + 1 > limits.maxFiles then Err(PatchLimit)
      else Ok(s.(paths := s.paths + [s.oldPath], oldPath := "", hasHunk := false))
    else if HasPrefix(line, "@@ ") then
      if |s.paths| == 0 || s.oldPath != "" then Err(InvalidPatch)
      else
        match HunkHeader(line)
        case Err(e) => Err(e)
        case Ok((olds, news)) => Ok(s.(hasHunk := true, olds := olds, news := news))
    else Ok(s)
  }

  function Scanned(lines: seq<string>, s: Scan, limits: Limits): Result<Scan>
  {
    if lines == [] then Ok(s)
    else
      match Step(lines[0], s, limits)
      case Err(e) => Err(e)
      case Ok(next) => Scanned(lines[1..], next, limits)
  }

  /** The test after the last line. */
  predicate Complete(s: Scan) {
    s.paths != [] && s.oldPath == "" && s.hasHunk && !s.InHunk()
  }

  predicate Refused(patch: string) {
    patch == "" || Contains(patch, "\0") || Contains(patch, "GIT binary patch") || Contains(patch, "Binary files ")
  }

  /** What parsePatchHeaders returns. */
  function Parsed(patch: string, limits: Limits): Result<Headers> {
    if Refused(patch) then Err(InvalidPatch)
    else
      match Scanned(Split(patch, '\n'), START, Bounded(limits))
      case Err(e) => Err(e)
      case Ok(s) => if Complete(s) then Ok(Headers(s.paths, s.changed)) else Err(InvalidPatch)
  }

  lemma {:induction false} ScannedConcat(a: seq<string>, b: seq<string>, s: Scan, limits: Limits)
    ensures Scanned(a + b, s, limits) ==
            match Scanned(a, s, limits) case Ok(mid) => Scanned(b, mid, limits) case Err(e) => Err(e)
  {
    if a == [] {
      assert a + b == b;
    } else {
      assert (a + b)[1..] == a[1..] + b;
      match Step(a[0], s, limits)
      case Ok(next) => ScannedConcat(a[1..], b, next, limits);
      case Err(_) =>
    }
  }

  /** parsePatchHeaders */
  method ParsePatchHeaders(patch: string, limits: Limits) returns (r: Result<Headers>)
    ensures r == Parsed(patch, limits)
  {
    if Refused(patch) {
      return Err(InvalidPatch);
    }
    var bound := Bounded(limits);
    var seen: set<string> := {};
    var paths: seq<string> := [];
    var changedLines: nat := 0;
    var oldPath := "";
    var currentHasHunk, inHunk := false, false;
    var oldRemaining: nat, newRemaining: nat := 0, 0;
    var lines := Split(patch, '\n');
    for i := 0 to |lines|
      invariant seen == set p | p in paths
      invariant inHunk == (oldRemaining != 0 || newRemaining != 0)
      invariant Scanned(lines, START, bound) ==
                Scanned(lines[i..], Scan(paths, changedLines, oldPath, currentHasHunk, oldRemaining, newRemaining), bound)
    {
      var line := lines[i];
      assert lines[i..][0] == line && lines[i..][1..] == lines[i + 1..];
      if inHunk {
        var consumed := HunkLine(line, oldRemaining, newRemaining);
        if consumed.Err? {
          return Err(consumed.error);
        }
        oldRemaining, newRemaining := consumed.value.0, consumed.value.1;
        changedLines := changedLines + consumed.value.2;
        if changedLines > bound.maxChangedLines {
          return Err(PatchLimit);
        }
        inHunk := oldRemaining != 0 || newRemaining != 0;
        continue;
      }
      if ForbiddenLine(line) {
        return Err(InvalidPatch);
      } else if HasPrefix(line, "--- ") {
        if oldPath != "" || (|paths| > 0 && !currentHasHunk) {
          return Err(InvalidPatch);
        }
        var path := PatchPath(line[4..], "a/");
        if path.Err? {
          return Err(path.error);
        }
        oldPath := path.value;
      } else if HasPrefix(line, "+++ ") {
        if oldPath == "" {
          return Err(InvalidPatch);
        }
        var path := PatchPath(line[4..], "b/");
        if path.Err? || path.value != oldPath {
          return Err(InvalidPatch);
        }
        if path.value in seen {
          return Err(InvalidPatch);
        }
        seen := seen + {path.value};
        paths := paths + [path.value];
        if |paths| > bound.maxFiles {
          return Err(PatchLimit);
        }
        oldPath, currentHasHunk := "", false;
      } else if HasPrefix(line, "@@ ") {
        if |paths| == 0 || oldPath != "" {
          return Err(InvalidPatch);
        }
        var counts := HunkHeader(line);
        if counts.Err? {
          return Err(counts.error);
        }
        oldRemaining, newRemaining := counts.value.0, counts.value.1;
        currentHasHunk := true;
        inHunk := oldRemaining != 0 || newRemaining != 0;
      }
    }
    assert lines[|lines|..] == [];
    if |paths| == 0 || oldPath != "" || !currentHasHunk || inHunk {
      return Err(InvalidPatch);
    }
    return Ok(Headers(paths, changedLines));
  }
}
