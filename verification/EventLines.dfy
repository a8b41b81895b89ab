/** What the client of web/src/api/client.ts makes of any text at all: where it cuts frames and lines, which of
    a frame's lines count, and which frames it ignores. */
module EventLines {
  import opened Text
  import opened EventFrames
  import opened Wrappers

  // ---------------------------------------------------------------- line ends and blank lines

  lemma LineEndMeans(s: string)
    ensures LineEnd(s) == if "\n" <= s then 1 else if "\r\n" <= s then 2 else 0
    ensures LineEnd(s) > 0 ==> s[..LineEnd(s)] == "\n" || s[..LineEnd(s)] == "\r\n"
  {
    if s != "" && s[0] == '\n' { assert s[..1] == "\n"; }
    if |s| >= 2 && s[0] == '\r' && s[1] == '\n' { assert s[..2] == "\r\n"; }
  }

  /** A text is cut into lines at the first line feed and after it; a carriage return before the line feed is
      part of the line end. */
  lemma {:induction false} LinesExactly(line: string, rest: string)
    requires '\n' !in line
    ensures SplitLines(line) == [line]
    ensures SplitLines(line + "\r\n" + rest) == [line] + SplitLines(rest)
    ensures line == "" || line[|line| - 1] != '\r' ==> SplitLines(line + "\n" + rest) == [line] + SplitLines(rest)
  {
    if line == "" {
      assert ("" + "\r\n" + rest)[2..] == rest && ("" + "\n" + rest)[1..] == rest;
    } else {
      var c, tail := line[0], line[1..];
      assert c in line && line == [c] + tail;
      LinesExactly(tail, rest);
      NoEndHere(c, tail, "");
      NoEndHere(c, tail, "\r\n" + rest);
      assert tail + "" == tail && line + "" == line;
      Associative(tail, "\r\n", rest);
      Associative(line, "\r\n", rest);
      if line[|line| - 1] != '\r' {
        NoEndHere(c, tail, "\n" + rest);
        Associative(tail, "\n", rest);
        Associative(line, "\n", rest);
      }
    }
  }

  lemma NoEndHere(c: char, tail: string, after: string)
    requires c != '\n' && '\n' !in tail && (c == '\r' && tail == "" ==> after == "" || after[0] != '\n')
    ensures SplitLines([c] + tail + after) == Cons(c, SplitLines(tail + after))
  {
    var s := [c] + tail + after;
    assert s[0] == c && s[1..] == tail + after;
    if tail != "" { assert s[1] == tail[0] && tail[0] in tail; } else if after != "" { assert s[1] == after[0]; }
  }

  /** The four texts that end a frame. */
  predicate IsBlank(blank: string) { blank in {"\n\n", "\r\n\n", "\n\r\n", "\r\n\r\n"} }

  lemma BlankLineMeans(s: string)
    ensures BlankLine(s) > 0 ==> IsBlank(s[..BlankLine(s)])
    ensures forall blank | IsBlank(blank) && blank <= s :: BlankLine(s) == |blank|
  {
    var n := LineEnd(s);
    var m := LineEnd(s[n..]);
    LineEndMeans(s);
    LineEndMeans(s[n..]);
    if n > 0 && m > 0 {
      var first, second := s[..n], s[n..][..m];
      assert s[..n + m] == first + second;
      assert "\n" + "\n" == "\n\n" && "\r\n" + "\n" == "\r\n\n" && "\n" + "\r\n" == "\n\r\n" && "\r\n" + "\r\n" == "\r\n\r\n";
      assert first == "\n" || first == "\r\n";
      assert second == "\n" || second == "\r\n";
    }
    forall blank | IsBlank(blank) && blank <= s ensures BlankLine(s) == |blank| {
      forall i | 0 <= i < |blank| ensures s[i] == blank[i] {}
    }
  }

  /** One of the four begins here. */
  ghost predicate BlankAt(s: string, i: nat)
    requires i <= |s|
  {
    exists blank | IsBlank(blank) :: blank <= s[i..]
  }

  lemma BlankAtMeans(s: string, i: nat)
    requires i <= |s|
    ensures BlankAt(s, i) <==> BlankLine(s[i..]) > 0
  {
    BlankLineMeans(s[i..]);
    if BlankLine(s[i..]) > 0 { assert s[i..][..BlankLine(s[i..])] <= s[i..]; }
  }

  lemma SplitFramesStep(s: string)
    requires s != ""
    ensures var n := BlankLine(s);
            SplitFrames(s) == if n > 0 then [""] + SplitFrames(s[n..]) else Cons(s[0], SplitFrames(s[1..]))
    ensures BlankLine("") == 0 && SplitFrames("") == [""]
  {
  }

  lemma ConsFirst(c: char, first: string, rest: seq<string>)
    ensures Cons(c, [first] + rest) == [[c] + first] + rest
  {
  }

  lemma {:induction false} FirstFrame(s: string, p: nat)
    requires p <= |s| && forall i | 0 <= i < p :: BlankLine(s[i..]) == 0
    ensures BlankLine(s[p..]) > 0 ==> SplitFrames(s) == [s[..p]] + SplitFrames(s[p..][BlankLine(s[p..])..])
    ensures p == |s| ==> SplitFrames(s) == [s]
    decreases p
  {
    hide SplitFrames;
    hide BlankLine;
    assert s[0..] == s && s[..0] == "";
    SplitFramesStep(if s == "" then "." else s);
    if p > 0 {
      var c, tail := s[0], s[1..];
      forall i | 0 <= i < p - 1 ensures BlankLine(tail[i..]) == 0 { assert tail[i..] == s[i + 1..]; }
      FirstFrame(tail, p - 1);
      assert tail[p - 1..] == s[p..] && s[..p] == [c] + tail[..p - 1];
      if BlankLine(s[p..]) > 0 { ConsFirst(c, tail[..p - 1], SplitFrames(s[p..][BlankLine(s[p..])..])); }
      if p == |s| {
        ConsFirst(c, tail, []);
        assert [c] + tail == s;
        assert [tail] + [] == [tail] && [s] + [] == [s];
      }
    }
  }

  /** Where no frame ends there is one frame; else the first frame ends at the first such place, whichever of the
      four it is. */
  lemma FramesExactly(s: string, p: nat, blank: string)
    requires p <= |s| && forall i | 0 <= i < p :: !BlankAt(s, i)
    ensures IsBlank(blank) && blank <= s[p..] ==> SplitFrames(s) == [s[..p]] + SplitFrames(s[p + |blank|..])
    ensures p == |s| ==> SplitFrames(s) == [s]
  {
    hide SplitFrames;
    hide BlankLine;
    hide BlankAt;
    forall i | 0 <= i < p ensures BlankLine(s[i..]) == 0 { BlankAtMeans(s, i); }
    FirstFrame(s, p);
    BlankLineMeans(s[p..]);
    if IsBlank(blank) && blank <= s[p..] { assert s[p..][|blank|..] == s[p + |blank|..]; }
  }

  // ---------------------------------------------------------------- white space

  predicate AllJsSpace(s: string) { forall c | c in s :: IsJsSpace(c) }

  /** Trimming takes away white space at both ends, and all of it. */
  lemma TrimExactly(s: string) returns (before: string, after: string)
    ensures s == before + Trim(s) + after && AllJsSpace(before) && AllJsSpace(after)
    ensures Trim(s) != "" ==> !IsJsSpace(Trim(s)[0]) && !IsJsSpace(Trim(s)[|Trim(s)| - 1])
  {
    before := StartTrimmed(s);
    after := EndTrimmed(TrimStart(s));
    Associative(before, Trim(s), after);
  }

  lemma {:induction false} StartTrimmed(s: string) returns (before: string)
    ensures s == before + TrimStart(s) && AllJsSpace(before)
    ensures TrimStart(s) != "" ==> !IsJsSpace(TrimStart(s)[0])
  {
    before := "";
    if s != "" && IsJsSpace(s[0]) {
      var more := StartTrimmed(s[1..]);
      before := [s[0]] + more;
      Associative([s[0]], more, TrimStart(s[1..]));
      assert s == [s[0]] + s[1..];
    }
  }

  lemma {:induction false} EndTrimmed(s: string) returns (after: string)
    ensures s == TrimEnd(s) + after && AllJsSpace(after)
    ensures TrimEnd(s) != "" ==> TrimEnd(s)[0] == s[0] && !IsJsSpace(TrimEnd(s)[|TrimEnd(s)| - 1])
    decreases |s|
  {
    after := "";
    if s != "" && IsJsSpace(s[|s| - 1]) {
      var n := |s| - 1;
      var more := EndTrimmed(s[..n]);
      after := more + [s[n]];
      Associative(TrimEnd(s[..n]), more, [s[n]]);
      assert s == s[..n] + [s[n]];
    }
  }

  // ---------------------------------------------------------------- the fields of a frame

  /** The line with this index is the last one that begins with this mark. */
  predicate LastWith(lines: seq<string>, mark: string, i: int) {
    0 <= i < |lines| && HasPrefix(lines[i], mark) && forall j | i < j < |lines| :: !HasPrefix(lines[j], mark)
  }

  predicate NoneWith(lines: seq<string>, mark: string) { forall i | 0 <= i < |lines| :: !HasPrefix(lines[i], mark) }

  /** The values of all lines that begin with "data:". */
  function DataOf(lines: seq<string>): seq<string> {
    if lines == [] then []
    else
      var n := |lines| - 1;
      DataOf(lines[..n]) + if HasPrefix(lines[n], "data:") then [TrimStart(lines[n][5..])] else []
  }

  lemma {:induction false} ReadOneMore<P>(lines: seq<string>, last: string, f: Fields, platform: Platform<P>)
    ensures ReadLines(lines + [last], f, platform) == ReadLine(last, ReadLines(lines, f, platform), platform)
  {
    if lines == [] {
      assert [] + [last] == [last] && ReadLines([last][1..], ReadLine(last, f, platform), platform) == ReadLine(last, f, platform);
    } else {
      assert (lines + [last])[1..] == lines[1..] + [last];
      ReadOneMore(lines[1..], last, ReadLine(lines[0], f, platform), platform);
    }
  }

  /** How the last line with a mark changes with one line more. */
  lemma LastOrBefore(front: seq<string>, last: string, mark: string)
    ensures var lines := front + [last];
            && (NoneWith(lines, mark) ==> NoneWith(front, mark) && !HasPrefix(last, mark))
            && (forall i | LastWith(lines, mark, i) ::
                  if i == |front| then HasPrefix(last, mark) && lines[i] == last
                  else LastWith(front, mark, i) && !HasPrefix(last, mark) && lines[i] == front[i])
  {
    var lines := front + [last];
    assert lines[|front|] == last;
    assert forall i | 0 <= i < |front| :: lines[i] == front[i];
  }

  lemma OneMark(line: string)
    ensures HasPrefix(line, "id:") ==> !HasPrefix(line, "event:") && !HasPrefix(line, "data:")
    ensures HasPrefix(line, "event:") ==> !HasPrefix(line, "data:")
  {
    if HasPrefix(line, "id:") {
      assert line[..3][0] == 'i';
      NotPrefix(line, "event:");
      NotPrefix(line, "data:");
    }
    if HasPrefix(line, "event:") {
      assert line[..6][0] == 'e';
      NotPrefix(line, "data:");
    }
  }

  /** The last identifier and the last type count; the type is RunEvent if there is none; all data counts, in
      order. */
  lemma {:induction false} FieldsOfLines<P>(lines: seq<string>, platform: Platform<P>)
    ensures var f := ReadLines(lines, NO_FIELDS, platform);
            && (NoneWith(lines, "id:") ==> f.id == None)
            && (forall i | LastWith(lines, "id:", i) :: f.id == platform.number(Trim(lines[i][3..])))
            && (NoneWith(lines, "event:") ==> f.kind == "RunEvent")
            && (forall i | LastWith(lines, "event:", i) :: f.kind == Trim(lines[i][6..]))
            && f.data == DataOf(lines)
  {
    hide LastWith;
    hide NoneWith;
    hide HasPrefix;
    if lines != [] {
      var n := |lines| - 1;
      var front, last := lines[..n], lines[n];
      assert lines == front + [last];
      FieldsOfLines(front, platform);
      ReadOneMore(front, last, NO_FIELDS, platform);
      OneMark(last);
      LastOrBefore(front, last, "id:");
      LastOrBefore(front, last, "event:");
    } else {
      NoLast("id:");
      NoLast("event:");
    }
  }

  lemma NoLast(mark: string)
    ensures forall i :: !LastWith([], mark, i)
  {
  }

  /** The frame carries this event: it is no comment, its last identifier is a safe positive integer, and its data
      lines together are JSON. */
  ghost predicate Carries<P>(frame: string, e: Event<P>, platform: Platform<P>) {
    var lines := SplitLines(frame);
    && Trim(frame) != "" && !HasPrefix(frame, ":")
    && (exists i :: LastWith(lines, "id:", i) && platform.number(Trim(lines[i][3..])) == Some(e.sequence))
    && 1 <= e.sequence <= 9007199254740991
    && (|| (NoneWith(lines, "event:") && e.kind == "RunEvent")
        || exists i :: LastWith(lines, "event:", i) && e.kind == Trim(lines[i][6..]))
    && DataOf(lines) != [] && platform.parse(Join(DataOf(lines), '\n')) == Some(e.payload)
  }

  /** A frame hands over exactly the event that it carries, and the highest sequence so far is remembered; a
      frame that carries none changes nothing. */
  lemma FrameExactly<P>(frame: string, c: Client<P>, platform: Platform<P>)
    ensures var r := ConsumeFrame(frame, c, platform);
            && (forall e | Carries(frame, e, platform) ::
                  && r.delivered == c.delivered + [e]
                  && r.latest == Some(if c.latest.Some? && c.latest.value > e.sequence then c.latest.value else e.sequence))
            && ((forall e :: !Carries(frame, e, platform)) ==> r == c)
  {
    var lines := SplitLines(frame);
    var f := ReadLines(lines, NO_FIELDS, platform);
    FieldsOfLines(lines, platform);
    SomeLast(lines, "id:");
    SomeLast(lines, "event:");
    if ConsumeFrame(frame, c, platform) != c {
      var payload := platform.parse(Join(f.data, '\n'));
      assert Carries(frame, Event(f.id.value, f.kind, payload.value), platform);
    }
  }

  lemma {:induction false} SomeLast(lines: seq<string>, mark: string)
    ensures NoneWith(lines, mark) || exists i :: LastWith(lines, mark, i)
  {
    if lines != [] {
      var n := |lines| - 1;
      if HasPrefix(lines[n], mark) {
        assert LastWith(lines, mark, n);
      } else {
        SomeLast(lines[..n], mark);
        if i :| LastWith(lines[..n], mark, i) { assert LastWith(lines, mark, i); }
        if NoneWith(lines[..n], mark) {
          forall i | 0 <= i < |lines| ensures !HasPrefix(lines[i], mark) { if i < n { assert lines[..n][i] == lines[i]; } }
        }
      }
    }
  }
}
