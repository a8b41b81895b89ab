/** Resumable delivery of run events: a server that polls the store from a cursor
    (internal/httpapi/events.go), a connection that may break at any character, and a client that resumes
    after the last sequence it has seen (web/src/api/client.ts). */
module EventStream {
  import opened Text
  import opened EventFrames
  import opened Wrappers

  // ---------------------------------------------------------------- what the server writes

  /** safeEventType */
  function SafeEventType(value: string): (r: string)
    ensures r != "" && forall c | c in r :: !IsControl(c)
    ensures (forall c | c in value :: IsControl(c)) ==> r == "RunEvent"
    ensures value != "" && (forall c | c in value :: !IsControl(c)) ==> r == value
  {
    var kept := WithoutControls(value);
    assert kept != "" ==> kept[0] in kept;
    if kept == "" then "RunEvent" else kept
  }

  predicate IsControl(c: char) { (c as int) < 0x20 || c as int == 0x7F }

  function WithoutControls(value: string): (r: string)
    ensures forall c | c in r :: c in value && !IsControl(c)
    ensures (forall c | c in value :: !IsControl(c)) ==> r == value
  {
    if value == "" then ""
    else
      assert value == [value[0]] + value[1..];
      if IsControl(value[0]) then WithoutControls(value[1..]) else [value[0]] + WithoutControls(value[1..])
  }

  /** A control character changes nothing wherever it stands; so what remains is the text without them. */
  lemma ControlsAreDropped(before: string, c: char, after: string)
    requires IsControl(c)
    ensures SafeEventType(before + [c] + after) == SafeEventType(before + after)
  {
    OneControl(before, c, after);
    hide WithoutControls;
  }

  lemma {:induction false} OneControl(before: string, c: char, after: string)
    requires IsControl(c)
    ensures WithoutControls(before + [c] + after) == WithoutControls(before + after)
  {
    if before == "" {
      assert ("" + [c] + after)[1..] == after && "" + after == after;
    } else {
      OneControl(before[1..], c, after);
      assert (before + [c] + after)[1..] == before[1..] + [c] + after && (before + after)[1..] == before[1..] + after;
    }
  }

  const MAX_UINT64 := 0xFFFF_FFFF_FFFF_FFFF

  /** lastEventSequence: the first sequence to send, or None for a malformed header. */
  function LastEventSequence(value: string): Option<nat> {
    if AllSpace(value) then Some(1)
    else if !AllDigits(value) || DigitValue(value) >= MAX_UINT64 then None
    else Some(DigitValue(value) + 1)
  }

  lemma NumeralIsNotBlank(zeros: nat, n: nat)
    ensures !AllSpace(Zeros(zeros) + Decimal(n))
  {
    var s := Zeros(zeros) + Decimal(n);
    PaddedValue(zeros, n);
    assert s[0] in s;
  }

  /** The header asks for the event after a decimal numeral below the largest 64-bit number, leading zeros or
      not; a blank one asks for the first event; and every other text is malformed. */
  lemma HeaderExactly(value: string, sequence: nat)
    ensures LastEventSequence(value) == Some(sequence) <==>
              || (sequence == 1 && AllSpace(value))
              || (1 <= sequence <= 0xFFFF_FFFF_FFFF_FFFF
                  && exists zeros :: value == Zeros(zeros) + Decimal(sequence - 1))
  {
    if sequence > 0 {
      NumeralExactly(value, sequence - 1);
      forall zeros | value == Zeros(zeros) + Decimal(sequence - 1) ensures !AllSpace(value) {
        NumeralIsNotBlank(zeros, sequence - 1);
      }
    }
  }

  /** The cursor survives the round trip through the request header. */
  lemma CursorRoundTrip(latest: nat)
    requires latest < MAX_UINT64
    ensures LastEventSequence(Decimal(latest)) == Some(latest + 1) && LastEventSequence("") == Some(1)
  {
    DecimalIsFaithful(latest);
    assert Decimal(latest)[0] in Decimal(latest);
  }

  /** An event as it reaches the wire: its redacted and cleaned type and its one-line JSON text. */
  datatype Wire = Wire(kind: string, data: string)

  function Numbered(n: nat): string { "id: " + Decimal(n) }
  function Named(kind: string): string { "event: " + kind }
  function Dated(data: string): string { "data: " + data }

  function Frame(n: nat, e: Wire): string { Numbered(n) + "\n" + (Named(e.kind) + "\n" + Dated(e.data)) }

  const BLANK := "\n\n"
  const HEARTBEAT := ": heartbeat"

  /** The frames of a list of events numbered from "first". */
  function FramesFrom(first: nat, events: seq<Wire>): string
    decreases |events|
  {
    if events == [] then "" else Frame(first, events[0]) + BLANK + FramesFrom(first + 1, events[1..])
  }

  /** writeEvents, for events that the store has numbered from "next" on. "accepted" is the number of
      frames the connection takes before a write fails. */
  method WriteEvents(events: seq<Wire>, next: nat, accepted: nat) returns (ok: bool, cursor: nat, sent: string)
    requires next + |events| <= MAX_UINT64 + 1
    ensures ok <==> accepted >= |events| && (events == [] || next + |events| <= MAX_UINT64)
    ensures cursor == if ok then next + |events| else if accepted < |events| then next + accepted else MAX_UINT64
    ensures sent == FramesFrom(next, events[..if accepted < |events| then accepted else |events|])
  {
    cursor, sent := next, "";
    var i := 0;
    while i < |events|
      invariant i <= |events| && cursor == next + i && i <= accepted && (i == 0 || cursor <= MAX_UINT64)
      invariant sent == FramesFrom(next, events[..i])
    {
      if i == accepted {
        return false, cursor, sent;
      }
      FramesFromOneMore(next, events, i);
      sent := sent + (Frame(next + i, events[i]) + BLANK);
      i := i + 1;
      if cursor == MAX_UINT64 {
        assert i == |events|;
        return false, cursor, sent;
      }
      cursor := cursor + 1;
    }
    return true, cursor, sent;
  }

  lemma {:induction false} FramesFromOneMore(first: nat, events: seq<Wire>, i: nat)
    requires i < |events|
    ensures FramesFrom(first, events[..i + 1]) == FramesFrom(first, events[..i]) + (Frame(first + i, events[i]) + BLANK)
    decreases |events|
  {
    if i == 0 {
      assert events[..1][1..] == [] && events[..0] == [];
    } else {
      assert events[..i + 1][1..] == events[1..][..i] && events[..i][1..] == events[1..][..i - 1];
      FramesFromOneMore(first + 1, events[1..], i - 1);
    }
  }

  // ---------------------------------------------------------------- what the client makes of one frame

  /** The assumptions on stored events: the type has no surrounding white space, and the data is one line
      of JSON no proper prefix of which, even with a replacement character after it, is valid. */
  ghost predicate Clean<P>(e: Wire, platform: Platform<P>) {
    && e.kind != "" && Trim(e.kind) == e.kind && OneLine(e.kind)
    && e.data != "" && !IsJsSpace(e.data[0]) && OneLine(e.data)
    && platform.parse(e.data).Some?
    && (forall k: nat | k < |e.data| ::
          platform.parse(e.data[..k]).None? && platform.parse(e.data[..k] + "\U{FFFD}").None?)
  }

  predicate OneLine(s: string) { forall i | 0 <= i < |s| :: s[i] != '\n' && s[i] != '\r' }

  lemma {:induction false} SplitOneLine(line: string)
    requires OneLine(line)
    ensures SplitLines(line) == [line]
  {
    if line != "" {
      SplitOneLine(line[1..]);
      assert [line[0]] + line[1..] == line;
    }
  }

  lemma {:induction false} SplitFirstLine(line: string, rest: string)
    requires OneLine(line)
    ensures SplitLines(line + "\n" + rest) == [line] + SplitLines(rest)
  {
    var s := line + "\n" + rest;
    if line == "" {
      assert s[1..] == rest;
    } else {
      assert s[0] == line[0] && s[1..] == line[1..] + "\n" + rest;
      SplitFirstLine(line[1..], rest);
      assert [line[0]] + line[1..] == line;
    }
  }

  // ---------------------------------------------------------------- blank lines and frames

  /** No carriage return here, and a line feed only if something else than a line feed follows. */
  predicate NoBreakAt(s: string, i: nat)
    requires i < |s|
  {
    s[i] != '\r' && (s[i] == '\n' ==> i + 1 < |s| && s[i + 1] != '\n')
  }

  predicate NoBreak(s: string) {
    forall i: nat | i < |s| :: NoBreakAt(s, i)
  }

  lemma NoBreakLines(line: string, rest: string)
    requires OneLine(line) && NoBreak(rest) && rest != "" && rest[0] != '\n'
    ensures NoBreak(line + "\n" + rest)
  {
    var s := line + "\n" + rest;
    forall i: nat | i < |s| ensures NoBreakAt(s, i) {
      if i < |line| {
        assert s[i] == line[i];
      } else if i == |line| {
        assert s[i] == '\n' && s[i + 1] == rest[0];
      } else {
        assert NoBreakAt(rest, i - |line| - 1);
      }
    }
  }

  lemma OneLineHasNoBreak(s: string)
    requires OneLine(s)
    ensures NoBreak(s)
  {
  }

  lemma NumberedIsOneLine(n: nat)
    ensures OneLine(Numbered(n))
  {
    DecimalIsFaithful(n);
    forall i | 0 <= i < |Decimal(n)| ensures IsDigit(Decimal(n)[i]) {
      assert Decimal(n)[i] in Decimal(n);
    }
  }

  lemma FrameHasNoBreak<P>(n: nat, e: Wire, platform: Platform<P>)
    requires Clean(e, platform)
    ensures NoBreak(Frame(n, e)) && OneLine(Named(e.kind)) && OneLine(Dated(e.data))
  {
    NumberedIsOneLine(n);
    NoBreakLines(Named(e.kind), Dated(e.data));
    NoBreakLines(Numbered(n), Named(e.kind) + "\n" + Dated(e.data));
    Associative(Numbered(n), "\n", Named(e.kind) + "\n" + Dated(e.data));
  }

  /** A blank line after a text without one ends the first frame. */
  lemma {:induction false} SplitBody(body: string, rest: string)
    requires NoBreak(body)
    ensures SplitFrames(body + BLANK + rest) == [body] + SplitFrames(rest)
    decreases |body|
  {
    var s := body + BLANK + rest;
    if body == "" {
      assert s[1..][0] == '\n' && s[2..] == rest;
    } else {
      assert s[0] == body[0] && s[1..] == body[1..] + BLANK + rest;
      assert NoBreak(body[1..]) by {
        forall i: nat | i < |body[1..]| ensures NoBreakAt(body[1..], i) {
          assert NoBreakAt(body, i + 1);
        }
      }
      assert NoBreakAt(body, 0);
      if s[0] == '\n' {
        assert s[1..][0] == body[1] && NoBreakAt(body, 1);
      }
      assert BlankLine(s) == 0;
      SplitBody(body[1..], rest);
      assert [body[0]] + body[1..] == body;
    }
  }

  /** Before the blank line is complete there is no frame to hand over. */
  lemma SplitPartial(body: string, t: string)
    requires NoBreak(body) && |t| < |body| + 2 && t <= body + BLANK
    ensures SplitFrames(t) == [t]
  {
    var whole := body + BLANK;
    forall i | 0 <= i < |t| ensures BlankLine(t[i..]) == 0 {
      assert t[i..][0] == t[i] == whole[i];
      assert t[i..][1..] == t[i + 1..];
      if i < |body| {
        assert whole[i] == body[i] && NoBreakAt(body, i);
      }
      if i + 1 < |t| {
        assert t[i + 1..][0] == t[i + 1] == whole[i + 1];
        if i + 1 < |body| { assert whole[i + 1] == body[i + 1] && NoBreakAt(body, i + 1); }
      }
    }
    OnePart(t);
  }

  // ---------------------------------------------------------------- consuming frames

  lemma {:induction false} TrimEndKeeps(s: string)
    ensures s != "" && !IsJsSpace(s[|s| - 1]) ==> TrimEnd(s) == s
    ensures s != "" && !IsJsSpace(s[0]) ==> TrimEnd(s) != ""
  {
    if s != "" && IsJsSpace(s[|s| - 1]) && !IsJsSpace(s[0]) {
      TrimEndKeeps(s[..|s| - 1]);
    }
  }

  lemma TrimNumber(n: nat)
    ensures Trim(" " + Decimal(n)) == Decimal(n)
  {
    DecimalIsFaithful(n);
    var d := Decimal(n);
    assert d[0] in d && d[|d| - 1] in d && IsDigit(d[0]) && IsDigit(d[|d| - 1]);
    assert (" " + d)[1..] == d && TrimStart(d) == d;
    TrimEndKeeps(d);
  }

  lemma TrimKind(kind: string)
    requires Trim(kind) == kind
    ensures Trim(" " + kind) == kind
  {
    assert (" " + kind)[1..] == kind;
  }

  function Delivery<P>(n: nat, e: Wire, platform: Platform<P>): Event<P>
    requires platform.parse(e.data).Some?
  {
    Event(n, e.kind, platform.parse(e.data).value)
  }

  lemma ReadThree<P>(a: string, b: string, c: string, f: Fields, platform: Platform<P>)
    ensures ReadLines([a, b, c], f, platform) ==
            ReadLine(c, ReadLine(b, ReadLine(a, f, platform), platform), platform)
  {
    assert [a, b, c][1..] == [b, c] && [b, c][1..] == [c] && [c][1..] == [];
    var f1 := ReadLine(a, f, platform);
    var f2 := ReadLine(b, f1, platform);
    assert ReadLines([c], f2, platform) == ReadLine(c, f2, platform);
    assert ReadLines([b, c], f1, platform) == ReadLines([c], f2, platform);
  }

  lemma ReadHeaderLines<P>(n: nat, kind: string, f: Fields, platform: Platform<P>)
    requires ReadsNumerals(platform) && Trim(kind) == kind
    ensures ReadLine(Numbered(n), f, platform) == f.(id := Some(n))
    ensures ReadLine(Named(kind), f, platform) == f.(kind := kind)
  {
    TrimNumber(n);
    TrimKind(kind);
    var a, b := Numbered(n), Named(kind);
    assert a[..3] == "id:" && a[3..] == " " + Decimal(n);
    assert b[0] == 'e' && b[..6] == "event:" && b[6..] == " " + kind;
  }

  lemma ReadDataLine<P>(data: string, f: Fields, platform: Platform<P>)
    requires data == "" || !IsJsSpace(data[0])
    ensures ReadLine(Dated(data), f, platform) == f.(data := f.data + [data])
    ensures ReadLine("data:" + data, f, platform) == f.(data := f.data + [data])
  {
    var a, b := Dated(data), "data:" + data;
    assert a[0] == 'd' && a[..5] == "data:" && a[5..] == " " + data;
    assert (" " + data)[1..] == data && TrimStart(data) == data;
    assert b[0] == 'd' && b[..5] == "data:" && b[5..] == data;
  }

  lemma FrameLines<P>(n: nat, e: Wire, platform: Platform<P>, last: string)
    requires Clean(e, platform) && OneLine(last)
    ensures SplitLines(Numbered(n) + "\n" + (Named(e.kind) + "\n" + last)) == [Numbered(n), Named(e.kind), last]
  {
    FrameHasNoBreak(n, e, platform);
    NumberedIsOneLine(n);
    SplitOneLine(last);
    SplitFirstLine(Named(e.kind), last);
    SplitFirstLine(Numbered(n), Named(e.kind) + "\n" + last);
  }

  lemma StartsWithId(n: nat, rest: string)
    ensures Trim(Numbered(n) + rest) != "" && !HasPrefix(Numbered(n) + rest, ":")
  {
    var t := Numbered(n) + rest;
    assert t[0] == 'i' && t[..1] == "i";
    TrimEndKeeps(t);
  }

  lemma FrameFields<P>(n: nat, e: Wire, platform: Platform<P>)
    requires Clean(e, platform) && ReadsNumerals(platform)
    ensures ReadLines(SplitLines(Frame(n, e)), NO_FIELDS, platform) == Fields(Some(n), e.kind, [e.data])
  {
    FrameHasNoBreak(n, e, platform);
    FrameLines(n, e, platform, Dated(e.data));
    ReadThree(Numbered(n), Named(e.kind), Dated(e.data), NO_FIELDS, platform);
    ReadHeaderLines(n, e.kind, NO_FIELDS, platform);
    ReadHeaderLines(n, e.kind, NO_FIELDS.(id := Some(n)), platform);
    ReadDataLine(e.data, Fields(Some(n), e.kind, []), platform);
    assert [] + [e.data] == [e.data];
  }

  /** A whole frame delivers its event, once. */
  lemma ConsumeWhole<P>(n: nat, e: Wire, c: Client<P>, platform: Platform<P>)
    requires Clean(e, platform) && ReadsNumerals(platform) && 1 <= n <= MAX_SAFE_INTEGER
    requires c.latest.Some? ==> c.latest.value <= n
    ensures ConsumeFrame(Frame(n, e), c, platform) == Client(Some(n), c.delivered + [Delivery(n, e, platform)])
  {
    var rest := "\n" + (Named(e.kind) + "\n" + Dated(e.data));
    StartsWithId(n, rest);
    assert Numbered(n) + rest == Frame(n, e);
    FrameFields(n, e, platform);
    assert Join([e.data], '\n') == e.data;
  }

  /** What the decoder appends when the connection ends inside a character. */
  const REPLACEMENT := "\U{FFFD}"

  lemma {:induction false} NoDataLines<P>(lines: seq<string>, f: Fields, platform: Platform<P>)
    requires forall i | 0 <= i < |lines| :: !HasPrefix(lines[i], "data:")
    ensures ReadLines(lines, f, platform).data == f.data
  {
    if lines != [] {
      NoDataLines(lines[1..], ReadLine(lines[0], f, platform), platform);
    }
  }

  lemma NoDataNoEvent<P>(t: string, c: Client<P>, platform: Platform<P>)
    requires forall i | 0 <= i < |SplitLines(t)| :: !HasPrefix(SplitLines(t)[i], "data:")
    ensures ConsumeFrame(t, c, platform) == c
  {
    NoDataLines(SplitLines(t), NO_FIELDS, platform);
  }

  lemma NotData(line: string)
    requires line == "" || line[0] != 'd'
    ensures !HasPrefix(line, "data:")
  {
    if |line| >= 5 {
      assert line[..5][0] == line[0];
    }
  }

  predicate Torn(x: string) { x == "" || x == REPLACEMENT }

  lemma TornLine(line: string, j: nat, x: string)
    requires OneLine(line) && j <= |line| && Torn(x)
    ensures OneLine(line[..j] + x)
  {
  }

  /** A frame cut inside its first two lines has no data, and delivers nothing. */
  lemma CutBeforeData<P>(n: nat, kind: string, j: nat, x: string, c: Client<P>, platform: Platform<P>)
    requires OneLine(Named(kind)) && Torn(x)
    ensures j <= |Numbered(n)| ==> ConsumeFrame(Numbered(n)[..j] + x, c, platform) == c
    ensures j <= |Named(kind)| ==> ConsumeFrame(Numbered(n) + "\n" + (Named(kind)[..j] + x), c, platform) == c
  {
    var a, b := Numbered(n), Named(kind);
    NumberedIsOneLine(n);
    if j <= |a| {
      TornLine(a, j, x);
      var t := a[..j] + x;
      SplitOneLine(t);
      NotData(t) by { if j > 0 { assert t[0] == a[0]; } }
      NoDataNoEvent(t, c, platform);
    }
    if j <= |b| {
      TornLine(b, j, x);
      var t := b[..j] + x;
      SplitOneLine(t);
      SplitFirstLine(a, t);
      NotData(a);
      NotData(t) by { if j > 0 { assert t[0] == b[0]; } }
      NoDataNoEvent(a + "\n" + t, c, platform);
    }
  }

  /** A frame cut inside its data does not parse, and delivers nothing. */
  lemma CutInData<P>(n: nat, e: Wire, j: nat, x: string, c: Client<P>, platform: Platform<P>)
    requires Clean(e, platform) && j < |Dated(e.data)| && Torn(x)
    ensures ConsumeFrame(Numbered(n) + "\n" + (Named(e.kind) + "\n" + (Dated(e.data)[..j] + x)), c, platform) == c
  {
    var a, b, last := Numbered(n), Named(e.kind), Dated(e.data)[..j] + x;
    var t := a + "\n" + (b + "\n" + last);
    FrameHasNoBreak(n, e, platform);
    TornLine(Dated(e.data), j, x);
    FrameLines(n, e, platform, last);
    NotData(a);
    NotData(b);
    if j < 5 {
      assert !HasPrefix(last, "data:") by {
        if |last| >= 5 {
          assert last[4] == REPLACEMENT[0] && last[..5][4] == last[4];
        }
      }
      NoDataNoEvent(t, c, platform);
    } else {
      var y := CutDatum(e, j, x, platform);
      var f := ReadLine(b, ReadLine(a, NO_FIELDS, platform), platform);
      ReadThree(a, b, last, NO_FIELDS, platform);
      NoDataLines([a, b], NO_FIELDS, platform);
      assert [a, b][1..] == [b] && [b][1..] == [];
      assert f.data == [];
      ReadCutLine(last, y, f, platform);
      assert Join([y], '\n') == y;
    }
  }

  lemma ReadCutLine<P>(last: string, y: string, f: Fields, platform: Platform<P>)
    requires f.data == [] && HasPrefix(last, "data:") && TrimStart(last[5..]) == y
    ensures ReadLine(last, f, platform).data == [y]
  {
    assert last[0] == last[..5][0] == 'd';
    NotIdNotEvent(last);
  }

  lemma NotIdNotEvent(line: string)
    requires line != "" && line[0] == 'd'
    ensures !HasPrefix(line, "id:") && !HasPrefix(line, "event:")
  {
    if |line| >= 3 { assert line[..3][0] == line[0]; }
    if |line| >= 6 { assert line[..6][0] == line[0]; }
  }

  /** The data of a frame cut inside its data line, torn inside a character or not. */
  lemma CutDatum<P>(e: Wire, j: nat, x: string, platform: Platform<P>) returns (y: string)
    requires Clean(e, platform) && 5 <= j < |Dated(e.data)| && Torn(x)
    ensures HasPrefix(Dated(e.data)[..j] + x, "data:") && TrimStart((Dated(e.data)[..j] + x)[5..]) == y
    ensures platform.parse(y).None?
  {
    var i := if j == 5 then 0 else j - 6;
    y := e.data[..i] + x;
    CleanPrefix(e, i, x, platform);
    DatedCut(e.data, j, x);
    TrimCut(e.data, i, x, if j == 5 then "" else " ");
  }

  lemma CleanPrefix<P>(e: Wire, i: nat, x: string, platform: Platform<P>)
    requires Clean(e, platform) && i < |e.data| && Torn(x)
    ensures platform.parse(e.data[..i] + x).None?
  {
    if x == "" {
      assert e.data[..i] + x == e.data[..i];
    }
  }

  lemma DatedCut(data: string, j: nat, x: string)
    requires 5 <= j < |Dated(data)|
    ensures HasPrefix(Dated(data)[..j] + x, "data:")
    ensures (Dated(data)[..j] + x)[5..] == (if j == 5 then "" else " ") + (data[..if j == 5 then 0 else j - 6] + x)
  {
    var rest := (if j == 5 then "" else " ") + (data[..if j == 5 then 0 else j - 6] + x);
    if j == 5 {
      assert Dated(data)[..j] == "data:";
      assert rest == x;
    } else {
      TakeOfConcat("data: ", data, j);
      assert ("data: " + data[..j - 6]) + x == "data:" + rest;
    }
    TwoHalves("data:", rest);
  }

  lemma TakeOfConcat<T>(a: seq<T>, b: seq<T>, n: nat)
    requires |a| <= n <= |a| + |b|
    ensures (a + b)[..n] == a + b[..n - |a|]
  {
  }

  lemma TwoHalves<T>(a: seq<T>, b: seq<T>)
    ensures (a + b)[..|a|] == a && (a + b)[|a|..] == b
  {
  }

  lemma TrimCut(data: string, i: nat, x: string, space: string)
    requires i < |data| && !IsJsSpace(data[0]) && Torn(x) && (space == "" || space == " ")
    ensures TrimStart(space + (data[..i] + x)) == data[..i] + x
  {
    var y := data[..i] + x;
    if i > 0 { assert y[0] == data[0]; }
    assert "" + y == y && (" " + y)[1..] == y;
  }

  /** No proper prefix of a frame delivers anything, torn inside a character or not. */
  lemma PartialIsIgnored<P>(n: nat, e: Wire, k: nat, x: string, c: Client<P>, platform: Platform<P>)
    requires Clean(e, platform) && k < |Frame(n, e)| && Torn(x)
    ensures ConsumeFrame(Frame(n, e)[..k] + x, c, platform) == c
  {
    var a, b, d := Numbered(n), Named(e.kind), Dated(e.data);
    var t := Frame(n, e)[..k] + x;
    FrameHasNoBreak(n, e, platform);
    if k <= |a| {
      assert t == a[..k] + x;
      CutBeforeData(n, e.kind, k, x, c, platform);
    } else if k <= |a| + 1 + |b| {
      var j := k - |a| - 1;
      assert t == a + "\n" + (b[..j] + x);
      CutBeforeData(n, e.kind, j, x, c, platform);
    } else {
      var j := k - |a| - |b| - 2;
      assert t == a + "\n" + (b + "\n" + (d[..j] + x));
      CutInData(n, e, j, x, c, platform);
    }
  }

  lemma SameFields<P>(t: string, u: string, c: Client<P>, platform: Platform<P>)
    requires Trim(t) != "" && Trim(u) != "" && !HasPrefix(t, ":") && !HasPrefix(u, ":")
    requires ReadLines(SplitLines(t), NO_FIELDS, platform) == ReadLines(SplitLines(u), NO_FIELDS, platform)
    ensures ConsumeFrame(t, c, platform) == ConsumeFrame(u, c, platform)
  {
  }

  lemma LineFeedLast(d: string)
    requires OneLine(d)
    ensures SplitLines(d) == [d] && SplitLines(d + "\n") == [d, ""]
  {
    SplitOneLine(d);
    SplitFirstLine(d, "");
    assert d + "\n" + "" == d + "\n";
  }

  lemma Regroup<T>(a: seq<T>, n: seq<T>, b: seq<T>, d: seq<T>)
    ensures a + n + (b + n + d) + n == a + n + (b + n + (d + n))
  {
  }

  lemma TrailingLineFeed(a: string, b: string, d: string)
    requires OneLine(a) && OneLine(b) && OneLine(d)
    ensures SplitLines(a + "\n" + (b + "\n" + d) + "\n") == SplitLines(a + "\n" + (b + "\n" + d)) + [""]
  {
    LineFeedLast(d);
    TwoLinesBefore(a, b, d);
    TwoLinesBefore(a, b, d + "\n");
    Regroup(a, "\n", b, d);
  }

  lemma TwoLinesBefore(a: string, b: string, rest: string)
    requires OneLine(a) && OneLine(b)
    ensures SplitLines(a + "\n" + (b + "\n" + rest)) == [a, b] + SplitLines(rest)
  {
    SplitFirstLine(b, rest);
    SplitFirstLine(a, b + "\n" + rest);
    assert [a] + ([b] + SplitLines(rest)) == [a, b] + SplitLines(rest);
  }

  /** A frame with the first line feed of its blank line is as good as the frame. */
  lemma OneLineFeedMore<P>(n: nat, e: Wire, c: Client<P>, platform: Platform<P>)
    requires Clean(e, platform)
    ensures ConsumeFrame(Frame(n, e) + "\n", c, platform) == ConsumeFrame(Frame(n, e), c, platform)
  {
    var a, rest := Numbered(n), Named(e.kind) + "\n" + Dated(e.data);
    FrameHasNoBreak(n, e, platform);
    NumberedIsOneLine(n);
    StartsWithId(n, "\n" + rest + "\n");
    StartsWithId(n, "\n" + rest);
    assert a + ("\n" + rest + "\n") == Frame(n, e) + "\n" && a + ("\n" + rest) == Frame(n, e);
    TrailingLineFeed(a, Named(e.kind), Dated(e.data));
    ReadTrailingLine(SplitLines(Frame(n, e)), NO_FIELDS, platform);
    SameFields(Frame(n, e) + "\n", Frame(n, e), c, platform);
  }

  lemma {:induction false} ReadTrailingLine<P>(lines: seq<string>, f: Fields, platform: Platform<P>)
    ensures ReadLines(lines + [""], f, platform) == ReadLines(lines, f, platform)
  {
    if lines == [] {
      assert [""][1..] == [] && lines + [""] == [""];
    } else {
      assert (lines + [""])[1..] == lines[1..] + [""];
      ReadTrailingLine(lines[1..], ReadLine(lines[0], f, platform), platform);
    }
  }

  /** Comments, whole or cut, are ignored. */
  lemma BeatIsIgnored<P>(k: nat, c: Client<P>, platform: Platform<P>)
    requires k <= |HEARTBEAT|
    ensures ConsumeFrame(HEARTBEAT[..k], c, platform) == c
    ensures ConsumeFrame(HEARTBEAT + "\n", c, platform) == c
  {
    if k > 0 {
      assert HEARTBEAT[..k][..1] == ":";
    }
    assert (HEARTBEAT + "\n")[..1] == ":";
  }

  // ---------------------------------------------------------------- the system

  /** Up: the server's cursor, what it has written and the client has not received, and the client's
      buffer. */
  datatype Link = Down | Up(next: nat, wire: string, buffer: string)

  datatype System<P> = System(events: seq<Wire>, client: Client<P>, link: Link)

  /** One step of any participant. "End" is a normal end of the response, possibly inside a character;
      "Fail" is a read error or a write error. Both can come after any number of received characters. */
  datatype Step = Append(event: Wire) | Connect | Write | Heartbeat | Receive(count: nat) | End(torn: bool) | Fail

  /** defaultConnect: the request header carries the latest sequence, if any. */
  function LastEventId<P>(c: Client<P>): string {
    if c.latest.None? then "" else Decimal(c.latest.value)
  }

  /** A step that is not possible changes nothing. */
  function After<P>(s: System<P>, step: Step, platform: Platform<P>): System<P> {
    match step
    case Append(e) => s.(events := s.events + [e])
    case Connect =>
      var from := LastEventSequence(LastEventId(s.client));
      if s.link.Down? && from.Some? then s.(link := Up(from.value, "", "")) else s
    case Write =>
      if s.link.Up? && 1 <= s.link.next <= |s.events| then
        var frame := Frame(s.link.next, s.events[s.link.next - 1]) + BLANK;
        s.(link := s.link.(next := s.link.next + 1, wire := s.link.wire + frame))
      else s
    case Heartbeat =>
      if s.link.Up? then s.(link := s.link.(wire := s.link.wire + (HEARTBEAT + BLANK))) else s
    case Receive(count) =>
      if s.link.Up? && count <= |s.link.wire| then
        var frames := SplitFrames(s.link.buffer + s.link.wire[..count]);
        s.(client := ConsumeFrames(Front(frames), s.client, platform),
           link := s.link.(wire := s.link.wire[count..], buffer := Last(frames)))
      else s
    case End(torn) =>
      if s.link.Up? then
        var inside := torn && s.link.wire != "" && s.link.wire[0] as int >= 0x80;
        var rest := s.link.buffer + (if inside then REPLACEMENT else "");
        s.(client := if Trim(rest) == "" then s.client else ConsumeFrame(rest, s.client, platform), link := Down)
      else s
    case Fail => s.(link := Down)
  }

  const START: Link := Down

  function Initial<P>(): System<P> { System([], Client(None, []), START) }

  function Run<P>(steps: seq<Step>, platform: Platform<P>): System<P> {
    if steps == [] then Initial() else After(Run(Front(steps), platform), Last(steps), platform)
  }

  /** What the first "k" events look like to onEvent. */
  function Deliveries<P>(events: seq<Wire>, k: nat, platform: Platform<P>): seq<Event<P>>
    requires k <= |events| && forall i | 0 <= i < k :: platform.parse(events[i].data).Some?
  {
    if k == 0 then [] else Deliveries(events, k - 1, platform) + [Delivery(k, events[k - 1], platform)]
  }

  // ---------------------------------------------------------------- the invariant

  datatype Block = Beat | Sent(sequence: nat)

  function Body(b: Block, events: seq<Wire>): string {
    if b.Sent? && 1 <= b.sequence <= |events| then Frame(b.sequence, events[b.sequence - 1]) else HEARTBEAT
  }

  function Written(blocks: seq<Block>, events: seq<Wire>): string {
    if blocks == [] then "" else Body(blocks[0], events) + BLANK + Written(blocks[1..], events)
  }

  function Bodies(blocks: seq<Block>, events: seq<Wire>): seq<string> {
    if blocks == [] then [] else [Body(blocks[0], events)] + Bodies(blocks[1..], events)
  }

  /** The blocks carry the events after "k" in order, up to but not including "next". */
  predicate InOrder(blocks: seq<Block>, k: nat, next: nat) {
    if blocks == [] then next == k + 1
    else
      match blocks[0]
      case Beat => InOrder(blocks[1..], k, next)
      case Sent(n) => n == k + 1 && InOrder(blocks[1..], n, next)
  }

  ghost predicate AllClean<P>(events: seq<Wire>, platform: Platform<P>) {
    |events| <= MAX_SAFE_INTEGER && forall i | 0 <= i < |events| :: Clean(events[i], platform)
  }

  ghost predicate AtCount<P>(c: Client<P>, k: nat, events: seq<Wire>, platform: Platform<P>)
    requires AllClean(events, platform)
  {
    && k <= |events| && |c.delivered| == k && c.delivered == Deliveries(events, k, platform)
    && c.latest == if k == 0 then None else Some(k)
  }

  /** The buffer and the wire hold the blocks that follow the first "k" events, and the buffer holds no
      complete one. */
  predicate Carries(blocks: seq<Block>, k: nat, link: Link, events: seq<Wire>)
    requires link.Up?
  {
    && InOrder(blocks, k, link.next) && link.next <= |events| + 1
    && link.buffer + link.wire == Written(blocks, events)
    && Partial(link.buffer, blocks, events)
  }

  /** The client has exactly the first "k" events, and the link carries what follows. */
  ghost predicate Inv<P>(s: System<P>, blocks: seq<Block>, platform: Platform<P>) {
    && AllClean(s.events, platform)
    && AtCount(s.client, |s.client.delivered|, s.events, platform)
    && (s.link.Up? ==> Carries(blocks, |s.client.delivered|, s.link, s.events))
  }

  lemma {:induction false} InOrderGrows(blocks: seq<Block>, k: nat, next: nat)
    requires InOrder(blocks, k, next)
    ensures k < next
    ensures InOrder(blocks + [Sent(next)], k, next + 1) && InOrder(blocks + [Beat], k, next)
  {
    if blocks == [] {
      assert [Sent(next)][1..] == [] && [Beat][1..] == [];
      assert blocks + [Sent(next)] == [Sent(next)] && blocks + [Beat] == [Beat];
    } else {
      InOrderGrows(blocks[1..], if blocks[0].Beat? then k else blocks[0].sequence, next);
      assert (blocks + [Sent(next)])[1..] == blocks[1..] + [Sent(next)];
      assert (blocks + [Beat])[1..] == blocks[1..] + [Beat];
    }
  }

  lemma {:induction false} WrittenGrows(blocks: seq<Block>, b: Block, events: seq<Wire>)
    ensures Written(blocks + [b], events) == Written(blocks, events) + (Body(b, events) + BLANK)
  {
    if blocks == [] {
      assert [b][1..] == [] && blocks + [b] == [b];
    } else {
      assert (blocks + [b])[1..] == blocks[1..] + [b];
      WrittenGrows(blocks[1..], b, events);
    }
  }

  /** Appending events does not change what was written before. */
  lemma {:induction false} WrittenStable(blocks: seq<Block>, k: nat, next: nat, events: seq<Wire>, e: Wire)
    requires InOrder(blocks, k, next) && next <= |events| + 1
    ensures Written(blocks, events + [e]) == Written(blocks, events)
    ensures blocks != [] ==> Body(blocks[0], events + [e]) == Body(blocks[0], events)
  {
    if blocks != [] {
      var k' := if blocks[0].Beat? then k else blocks[0].sequence;
      InOrderGrows(blocks[1..], k', next);
      WrittenStable(blocks[1..], k', next, events, e);
    }
  }

  lemma {:induction false} DeliveriesStable<P>(events: seq<Wire>, e: Wire, k: nat, platform: Platform<P>)
    requires k <= |events| && forall i | 0 <= i < k :: platform.parse(events[i].data).Some?
    ensures Deliveries(events + [e], k, platform) == Deliveries(events, k, platform)
  {
    if k > 0 {
      DeliveriesStable(events, e, k - 1, platform);
    }
  }

  lemma BodyHasNoBreak<P>(b: Block, events: seq<Wire>, platform: Platform<P>)
    requires AllClean(events, platform)
    ensures NoBreak(Body(b, events))
  {
    if b.Sent? && 1 <= b.sequence <= |events| {
      FrameHasNoBreak(b.sequence, events[b.sequence - 1], platform);
    } else {
      OneLineHasNoBreak(HEARTBEAT);
    }
  }

  /** The complete block at the head of the stream, consumed. */
  lemma ConsumeBlock<P>(b: Block, k: nat, c: Client<P>, events: seq<Wire>, platform: Platform<P>) returns (k': nat)
    requires AllClean(events, platform) && ReadsNumerals(platform) && AtCount(c, k, events, platform)
    requires b.Sent? ==> b.sequence == k + 1 <= |events|
    ensures k' == if b.Beat? then k else k + 1
    ensures AtCount(ConsumeFrame(Body(b, events), c, platform), k', events, platform)
    ensures ConsumeFrame(Body(b, events) + "\n", c, platform) == ConsumeFrame(Body(b, events), c, platform)
  {
    if b.Beat? {
      BeatIsIgnored(|HEARTBEAT|, c, platform);
      assert HEARTBEAT[..|HEARTBEAT|] == HEARTBEAT;
      k' := k;
    } else {
      ConsumeWhole(k + 1, events[k], c, platform);
      OneLineFeedMore(k + 1, events[k], c, platform);
      k' := k + 1;
    }
  }

  lemma CutWritten(b: string, rest: string, t: string, w: string)
    requires t + w == b + BLANK + rest
    ensures |t| < |b| + 2 ==> t <= b + BLANK
    ensures |t| >= |b| + 2 ==> t == b + BLANK + t[|b| + 2..] && t[|b| + 2..] + w == rest
  {
    var whole := b + BLANK + rest;
    if |t| < |b| + 2 {
      assert t == whole[..|t|] == (b + BLANK)[..|t|];
    } else {
      assert t[..|b| + 2] == whole[..|b| + 2] == b + BLANK;
      assert whole[|b| + 2..] == rest;
      assert (t + w)[|b| + 2..] == t[|b| + 2..] + w;
    }
  }

  /** Receiving any number of characters delivers exactly the complete blocks among them. */
  lemma {:induction false} Received<P>(t: string, w: string, blocks: seq<Block>, k: nat, next: nat, c: Client<P>,
                                       events: seq<Wire>, platform: Platform<P>)
    returns (rest: seq<Block>, k': nat)
    requires AllClean(events, platform) && ReadsNumerals(platform) && AtCount(c, k, events, platform)
    requires InOrder(blocks, k, next) && next <= |events| + 1 && t + w == Written(blocks, events)
    ensures AtCount(ConsumeFrames(Front(SplitFrames(t)), c, platform), k', events, platform)
    ensures InOrder(rest, k', next) && Last(SplitFrames(t)) + w == Written(rest, events)
    ensures if rest == [] then Last(SplitFrames(t)) == "" else |Last(SplitFrames(t))| < |Body(rest[0], events)| + 2
  {
    if blocks == [] {
      rest, k' := [], k;
    } else {
      var b := blocks[0];
      var body := Body(b, events);
      BodyHasNoBreak(b, events, platform);
      CutWritten(body, Written(blocks[1..], events), t, w);
      if |t| < |body| + 2 {
        SplitPartial(body, t);
        rest, k' := blocks, k;
      } else {
        var tail := t[|body| + 2..];
        SplitBody(body, tail);
        InOrderGrows(blocks[1..], if b.Beat? then k else b.sequence, next);
        var k1 := ConsumeBlock(b, k, c, events, platform);
        rest, k' := Received(tail, w, blocks[1..], k1, next, ConsumeFrame(body, c, platform), events, platform);
        FrontOfConcat([body], SplitFrames(tail));
        assert ([body] + Front(SplitFrames(tail)))[1..] == Front(SplitFrames(tail));
      }
    }
  }

  lemma ConsumeCutBeat<P>(p: string, c: Client<P>, platform: Platform<P>)
    requires |p| < |HEARTBEAT| + 2 && p <= HEARTBEAT + BLANK
    ensures ConsumeFrame(p, c, platform) == c && (HEARTBEAT + BLANK)[|p|] as int < 0x80
  {
    HeartbeatIsAscii(|p|);
    BeatIsIgnored(if |p| <= |HEARTBEAT| then |p| else 0, c, platform);
  }

  lemma ConsumeCutFrame<P>(p: string, x: string, k: nat, c: Client<P>, events: seq<Wire>, platform: Platform<P>)
    returns (k': nat)
    requires AllClean(events, platform) && ReadsNumerals(platform) && AtCount(c, k, events, platform) && k < |events|
    requires var frame := Frame(k + 1, events[k]);
             && |p| < |frame| + 2 && p <= frame + BLANK && Torn(x) && (|p| >= |frame| ==> x == "")
    ensures AtCount(ConsumeFrame(p + x, c, platform), k', events, platform)
  {
    var frame := Frame(k + 1, events[k]);
    if |p| < |frame| {
      assert p == frame[..|p|];
      PartialIsIgnored(k + 1, events[k], |p|, x, c, platform);
      k' := k;
    } else {
      k' := ConsumeBlock(Sent(k + 1), k, c, events, platform);
      assert p + x == p;
      if |p| == |frame| {
        assert p == frame;
      } else {
        assert p == frame + "\n";
      }
    }
  }

  lemma BlankIsSkipped<P>(rest: string, c: Client<P>, platform: Platform<P>)
    ensures (if Trim(rest) == "" then c else ConsumeFrame(rest, c, platform)) == ConsumeFrame(rest, c, platform)
  {
  }

  lemma TailConsumed<P>(p: string, w: string, x: string, blocks: seq<Block>, k: nat, next: nat, c: Client<P>,
                        events: seq<Wire>, platform: Platform<P>) returns (k': nat)
    requires AllClean(events, platform) && ReadsNumerals(platform) && AtCount(c, k, events, platform)
    requires InOrder(blocks, k, next) && next <= |events| + 1 && p + w == Written(blocks, events)
    requires if blocks == [] then p == "" else |p| < |Body(blocks[0], events)| + 2
    requires Torn(x) && (x != "" ==> w != "" && w[0] as int >= 0x80)
    ensures AtCount(ConsumeFrame(p + x, c, platform), k', events, platform)
  {
    hide ReadLines;
    hide AtCount;
    k' := k;
    if blocks == [] {
      assert p + x == "";
    } else {
      var body, rest := Body(blocks[0], events), Written(blocks[1..], events);
      CutWritten(body, rest, p, w);
      FirstOfWire(p, w, body, rest);
      if blocks[0].Beat? {
        ConsumeCutBeat(p, c, platform);
        assert p + x == p;
      } else {
        InOrderGrows(blocks[1..], blocks[0].sequence, next);
        AsciiAfterFrame(p, w, body, x);
        k' := ConsumeCutFrame(p, x, k, c, events, platform);
      }
    }
  }

  /** What follows a whole frame is no torn character. */
  lemma AsciiAfterFrame(p: string, w: string, body: string, x: string)
    requires |p| < |body| + 2 && w != "" && w[0] == (body + BLANK)[|p|] && (x != "" ==> w[0] as int >= 0x80)
    ensures |p| >= |body| ==> x == ""
  {
    if |p| >= |body| { assert w[0] == BLANK[|p| - |body|]; }
  }

  lemma AfterEnd<P>(s: System<P>, torn: bool, x: string, platform: Platform<P>)
    requires s.link.Up? && x == if torn && s.link.wire != "" && s.link.wire[0] as int >= 0x80 then REPLACEMENT else ""
    ensures After(s, End(torn), platform) == System(s.events, ConsumeFrame(s.link.buffer + x, s.client, platform), Down)
  {
    BlankIsSkipped(s.link.buffer + x, s.client, platform);
  }

  /** A normal end delivers the buffered block if only its blank line is missing, and nothing otherwise. */
  lemma Ended<P>(s: System<P>, blocks: seq<Block>, torn: bool, platform: Platform<P>)
    requires Inv(s, blocks, platform) && ReadsNumerals(platform) && s.link.Up?
    ensures Inv(After(s, End(torn), platform), [], platform)
  {
    var w := s.link.wire;
    var x := if torn && w != "" && w[0] as int >= 0x80 then REPLACEMENT else "";
    AfterEnd(s, torn, x, platform);
    var k' := TailConsumed(s.link.buffer, w, x, blocks, |s.client.delivered|, s.link.next, s.client, s.events, platform);
  }

  lemma FirstOfWire(p: string, w: string, body: string, rest: string)
    requires p + w == body + BLANK + rest && |p| < |body| + 2
    ensures w != "" && w[0] == (body + BLANK)[|p|]
  {
    assert (p + w)[|p|] == w[0];
  }

  lemma HeartbeatIsAscii(i: nat)
    ensures i < |HEARTBEAT + BLANK| ==> ((HEARTBEAT + BLANK)[i] as int) < 0x80
    ensures i == |HEARTBEAT| + 1 ==> (HEARTBEAT + BLANK)[..i] == HEARTBEAT + "\n"
    ensures i <= |HEARTBEAT| ==> (HEARTBEAT + BLANK)[..i] == HEARTBEAT[..i]
  {
  }

  lemma AppendKeepsInv<P>(s: System<P>, blocks: seq<Block>, e: Wire, platform: Platform<P>)
    requires Inv(s, blocks, platform) && AllClean(s.events + [e], platform)
    ensures Inv(After(s, Append(e), platform), blocks, platform)
  {
    DeliveriesStable(s.events, e, |s.client.delivered|, platform);
    if s.link.Up? {
      WrittenStable(blocks, |s.client.delivered|, s.link.next, s.events, e);
    }
  }

  /** What makes a system with a link keep the invariant. */
  lemma InvUp<P>(events: seq<Wire>, client: Client<P>, link: Link, blocks: seq<Block>, k: nat, platform: Platform<P>)
    requires AllClean(events, platform) && AtCount(client, k, events, platform)
    requires link.Up? && Carries(blocks, k, link, events)
    ensures Inv(System(events, client, link), blocks, platform)
  {
  }

  lemma AfterReceive<P>(s: System<P>, count: nat, platform: Platform<P>)
    requires s.link.Up? && count <= |s.link.wire|
    ensures var frames := SplitFrames(s.link.buffer + s.link.wire[..count]);
            After(s, Receive(count), platform) ==
            System(s.events, ConsumeFrames(Front(frames), s.client, platform),
                   Up(s.link.next, s.link.wire[count..], Last(frames)))
  {
  }

  lemma ReceiveKeepsInv<P>(s: System<P>, blocks: seq<Block>, count: nat, platform: Platform<P>) returns (after: seq<Block>)
    requires Inv(s, blocks, platform) && ReadsNumerals(platform) && s.link.Up? && count <= |s.link.wire|
    ensures Inv(After(s, Receive(count), platform), after, platform)
  {
    AfterReceive(s, count, platform);
    var link, events := s.link, s.events;
    after := ReceiveCarries(events, s.client, link, blocks, |s.client.delivered|, count, platform);
  }

  lemma ReceiveCarries<P>(events: seq<Wire>, client: Client<P>, link: Link, blocks: seq<Block>, k: nat, count: nat,
                          platform: Platform<P>) returns (after: seq<Block>)
    requires AllClean(events, platform) && ReadsNumerals(platform) && AtCount(client, k, events, platform)
    requires link.Up? && Carries(blocks, k, link, events) && count <= |link.wire|
    ensures var frames := SplitFrames(link.buffer + link.wire[..count]);
            Inv(System(events, ConsumeFrames(Front(frames), client, platform), Up(link.next, link.wire[count..], Last(frames))),
                after, platform)
  {
    var t, w := link.buffer + link.wire[..count], link.wire[count..];
    assert t + w == link.buffer + link.wire;
    var k';
    after, k' := Received(t, w, blocks, k, link.next, client, events, platform);
    var frames := SplitFrames(t);
    InvUp(events, ConsumeFrames(Front(frames), client, platform), Up(link.next, w, Last(frames)), after, k', platform);
  }

  lemma WriteKeepsInv<P>(s: System<P>, blocks: seq<Block>, platform: Platform<P>)
    requires Inv(s, blocks, platform) && s.link.Up? && 1 <= s.link.next <= |s.events|
    ensures Inv(After(s, Write, platform), blocks + [Sent(s.link.next)], platform)
  {
    var k, b := |s.client.delivered|, Sent(s.link.next);
    Grow(blocks, k, s.link, s.events, b);
    var link := Up(s.link.next + 1, s.link.wire + (Body(b, s.events) + BLANK), s.link.buffer);
    InvUp(s.events, s.client, link, blocks + [b], k, platform);
    assert After(s, Write, platform) == System(s.events, s.client, link);
  }

  lemma HeartbeatKeepsInv<P>(s: System<P>, blocks: seq<Block>, platform: Platform<P>)
    requires Inv(s, blocks, platform) && s.link.Up?
    ensures Inv(After(s, Heartbeat, platform), blocks + [Beat], platform)
  {
    var k := |s.client.delivered|;
    Grow(blocks, k, s.link, s.events, Beat);
    var link := Up(s.link.next, s.link.wire + (HEARTBEAT + BLANK), s.link.buffer);
    InvUp(s.events, s.client, link, blocks + [Beat], k, platform);
    assert After(s, Heartbeat, platform) == System(s.events, s.client, link);
  }

  lemma ReconnectKeepsInv<P>(s: System<P>, blocks: seq<Block>, platform: Platform<P>)
    requires Inv(s, blocks, platform) && s.link.Down?
    ensures Inv(After(s, Connect, platform), [], platform)
  {
    ConnectResumes(s, platform);
  }

  /** Every step of every participant keeps the invariant. */
  lemma StepKeepsInv<P>(s: System<P>, blocks: seq<Block>, step: Step, platform: Platform<P>) returns (after: seq<Block>)
    requires Inv(s, blocks, platform) && ReadsNumerals(platform)
    requires AllClean(After(s, step, platform).events, platform)
    ensures Inv(After(s, step, platform), after, platform)
  {
    after := blocks;
    match step
    case Append(e) => AppendKeepsInv(s, blocks, e, platform);
    case Connect =>
      if s.link.Down? {
        ReconnectKeepsInv(s, blocks, platform);
        after := [];
      }
    case Write =>
      if s.link.Up? && 1 <= s.link.next <= |s.events| {
        WriteKeepsInv(s, blocks, platform);
        after := blocks + [Sent(s.link.next)];
      }
    case Heartbeat =>
      if s.link.Up? {
        HeartbeatKeepsInv(s, blocks, platform);
        after := blocks + [Beat];
      }
    case Receive(count) =>
      if s.link.Up? && count <= |s.link.wire| {
        after := ReceiveKeepsInv(s, blocks, count, platform);
      }
    case End(torn) =>
      if s.link.Up? {
        Ended(s, blocks, torn, platform);
        after := [];
      }
    case Fail =>
  }

  /** The buffer holds no complete block. */
  predicate Partial(buffer: string, blocks: seq<Block>, events: seq<Wire>) {
    if blocks == [] then buffer == "" else |buffer| < |Body(blocks[0], events)| + 2
  }

  lemma PartialGrows(buffer: string, blocks: seq<Block>, events: seq<Wire>, b: Block)
    requires Partial(buffer, blocks, events)
    ensures Partial(buffer, blocks + [b], events)
  {
    assert (blocks + [b])[0] == if blocks == [] then b else blocks[0];
  }

  /** Writing one more block. */
  lemma Grow(blocks: seq<Block>, k: nat, link: Link, events: seq<Wire>, b: Block)
    requires link.Up? && Carries(blocks, k, link, events)
    requires b.Sent? ==> b.sequence == link.next <= |events|
    ensures var next := if b.Sent? then link.next + 1 else link.next;
            Carries(blocks + [b], k, Up(next, link.wire + (Body(b, events) + BLANK), link.buffer), events)
  {
    InOrderGrows(blocks, k, link.next);
    WrittenGrows(blocks, b, events);
    Associative(link.buffer, link.wire, Body(b, events) + BLANK);
    PartialGrows(link.buffer, blocks, events, b);
  }

  // ---------------------------------------------------------------- exactly once, in order

  lemma {:induction false} RunKeepsInv<P>(steps: seq<Step>, platform: Platform<P>) returns (blocks: seq<Block>)
    requires ReadsNumerals(platform) && AllClean(Run(steps, platform).events, platform)
    ensures Inv(Run(steps, platform), blocks, platform)
  {
    if steps == [] {
      blocks := [];
    } else {
      var before := Run(Front(steps), platform);
      EventsOnlyGrow(before, Last(steps), platform);
      var earlier := RunKeepsInv(Front(steps), platform);
      blocks := StepKeepsInv(before, earlier, Last(steps), platform);
    }
  }

  lemma EventsOnlyGrow<P>(s: System<P>, step: Step, platform: Platform<P>)
    ensures s.events <= After(s, step, platform).events
    ensures AllClean(After(s, step, platform).events, platform) ==> AllClean(s.events, platform)
  {
    var later := After(s, step, platform).events;
    assert forall i | 0 <= i < |s.events| :: s.events[i] == later[i];
  }

  lemma {:induction false} DeliveriesAt<P>(events: seq<Wire>, k: nat, i: nat, platform: Platform<P>)
    requires i < k <= |events| && forall j | 0 <= j < k :: platform.parse(events[j].data).Some?
    ensures |Deliveries(events, k, platform)| == k
    ensures Deliveries(events, k, platform)[i] == Delivery(i + 1, events[i], platform)
  {
    if i < k - 1 {
      DeliveriesAt(events, k - 1, i, platform);
    } else if k > 1 {
      DeliveriesAt(events, k - 1, 0, platform);
    }
  }

  /** Over every interleaving of appends, polls, heartbeats, reads of any size, ends and failures at any
      character, and reconnections: onEvent has been called for the events 1, 2, ..., k, once each, in
      order, each with the stored event. */
  lemma ExactlyOnceInOrder<P>(steps: seq<Step>, platform: Platform<P>)
    requires ReadsNumerals(platform) && AllClean(Run(steps, platform).events, platform)
    ensures var s := Run(steps, platform);
            && |s.client.delivered| <= |s.events|
            && forall i | 0 <= i < |s.client.delivered| ::
                 s.client.delivered[i] == Event(i + 1, s.events[i].kind, platform.parse(s.events[i].data).value)
  {
    var s := Run(steps, platform);
    var blocks := RunKeepsInv(steps, platform);
    forall i | 0 <= i < |s.client.delivered|
      ensures s.client.delivered[i] == Event(i + 1, s.events[i].kind, platform.parse(s.events[i].data).value)
    {
      DeliveriesAt(s.events, |s.client.delivered|, i, platform);
    }
  }

  /** Nothing is lost: when everything the server wrote has been received, the client has every event
      below the server's cursor. */
  lemma NothingLost<P>(steps: seq<Step>, platform: Platform<P>)
    requires ReadsNumerals(platform) && AllClean(Run(steps, platform).events, platform)
    requires var s := Run(steps, platform); s.link.Up? && s.link.wire == ""
    ensures var s := Run(steps, platform); |s.client.delivered| == s.link.next - 1
  {
    var s := Run(steps, platform);
    var blocks := RunKeepsInv(steps, platform);
    WrittenIsLong(blocks, s.events);
    assert |s.link.buffer + ""| == |s.link.buffer|;
  }

  lemma WrittenIsLong(blocks: seq<Block>, events: seq<Wire>)
    ensures blocks != [] ==> |Written(blocks, events)| >= |Body(blocks[0], events)| + 2
  {
  }

  lemma {:induction false} Writes<P>(steps: seq<Step>, m: nat, platform: Platform<P>) returns (more: seq<Step>)
    requires var s := Run(steps, platform); s.link.Up? && 1 <= s.link.next && s.link.next + m == |s.events| + 1
    ensures var s, t := Run(steps, platform), Run(steps + more, platform);
            && t.events == s.events && t.client == s.client && t.link.Up? && t.link.next == |s.events| + 1
    decreases m
  {
    hide Run;
    if m == 0 {
      more := [];
      assert steps + more == steps;
    } else {
      RunOneMore(steps, Write, platform);
      var later := Writes(steps + [Write], m - 1, platform);
      more := [Write] + later;
      assert steps + more == steps + [Write] + later;
    }
  }

  lemma RunOneMore<P>(steps: seq<Step>, step: Step, platform: Platform<P>)
    ensures Run(steps + [step], platform) == After(Run(steps, platform), step, platform)
  {
    assert Front(steps + [step]) == steps;
  }

  lemma ConnectResumes<P>(s: System<P>, platform: Platform<P>)
    requires AllClean(s.events, platform) && AtCount(s.client, |s.client.delivered|, s.events, platform) && s.link.Down?
    ensures After(s, Connect, platform) == s.(link := Up(|s.client.delivered| + 1, "", ""))
  {
    CursorRoundTrip(|s.client.delivered|);
  }

  lemma Reconnect<P>(steps: seq<Step>, platform: Platform<P>) returns (resumed: seq<Step>)
    requires ReadsNumerals(platform) && AllClean(Run(steps, platform).events, platform)
    ensures resumed == steps + [Fail] + [Connect]
    ensures var s := Run(steps, platform);
            Run(resumed, platform) == s.(link := Up(|s.client.delivered| + 1, "", ""))
  {
    var s := Run(steps, platform);
    var blocks := RunKeepsInv(steps, platform);
    resumed := steps + [Fail] + [Connect];
    RunOneMore(steps, Fail, platform);
    RunOneMore(steps + [Fail], Connect, platform);
    ConnectResumes(s.(link := Down), platform);
  }

  lemma ReceiveAll<P>(steps: seq<Step>, platform: Platform<P>) returns (all: seq<Step>)
    requires ReadsNumerals(platform) && AllClean(Run(steps, platform).events, platform)
    requires Run(steps, platform).link.Up?
    ensures all == steps + [Receive(|Run(steps, platform).link.wire|)]
    ensures var s, t := Run(steps, platform), Run(all, platform);
            t.events == s.events && |t.client.delivered| == s.link.next - 1
  {
    var wire := Run(steps, platform).link.wire;
    all := steps + [Receive(|wire|)];
    assert Front(all) == steps && wire[|wire|..] == "";
    NothingLost(all, platform);
  }

  /** From every reachable state the client can still get everything: break the connection, reconnect,
      let the server write what is stored, and read it. */
  lemma CanCatchUp<P>(steps: seq<Step>, platform: Platform<P>) returns (more: seq<Step>)
    requires ReadsNumerals(platform) && AllClean(Run(steps, platform).events, platform)
    ensures var s, t := Run(steps, platform), Run(steps + more, platform);
            t.events == s.events && |t.client.delivered| == |s.events|
  {
    ExactlyOnceInOrder(steps, platform);
    var s := Run(steps, platform);
    var resumed := Reconnect(steps, platform);
    var writes := Writes(resumed, |s.events| - |s.client.delivered|, platform);
    var all := ReceiveAll(resumed + writes, platform);
    more := all[|steps|..];
    assert steps + more == all;
  }
}
