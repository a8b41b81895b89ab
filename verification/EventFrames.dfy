/** The text format of the event stream: what internal/httpapi/events.go writes and how
    web/src/api/client.ts reads it. The format is the event stream of section 9.2 of the WHATWG HTML
    standard, restricted to the fields both sides use. */
module EventFrames {
  import opened Text
  import opened Wrappers

  // ---------------------------------------------------------------- splitting at line ends and blank lines

  /** The length of the match of /\r?\n/ at the head, or zero. */
  function LineEnd(s: string): (n: nat)
    ensures n <= |s|
  {
    if |s| >= 1 && s[0] == '\n' then 1
    else if |s| >= 2 && s[0] == '\r' && s[1] == '\n' then 2
    else 0
  }

  /** The length of the match of /\r?\n\r?\n/ at the head, or zero. */
  function BlankLine(s: string): (n: nat)
    ensures n <= |s|
  {
    var first := LineEnd(s);
    var second := LineEnd(s[first..]);
    if first == 0 || second == 0 then 0 else first + second
  }

  function Cons(c: char, parts: seq<string>): seq<string>
    requires parts != []
  {
    [[c] + parts[0]] + parts[1..]
  }

  /** text.split(/\r?\n\r?\n/) */
  function SplitFrames(s: string): (parts: seq<string>)
    ensures parts != []
    decreases |s|
  {
    if s == "" then [""]
    else if BlankLine(s) > 0 then [""] + SplitFrames(s[BlankLine(s)..])
    else Cons(s[0], SplitFrames(s[1..]))
  }

  /** text.split(/\r?\n/) */
  function SplitLines(s: string): (parts: seq<string>)
    ensures parts != []
    decreases |s|
  {
    if s == "" then [""]
    else if LineEnd(s) > 0 then [""] + SplitLines(s[LineEnd(s)..])
    else Cons(s[0], SplitLines(s[1..]))
  }

  function Front<T>(s: seq<T>): seq<T>
    requires s != []
  {
    s[..|s| - 1]
  }

  function Last<T>(s: seq<T>): T
    requires s != []
  {
    s[|s| - 1]
  }

  /** A text without a blank line is one frame. */
  lemma {:induction false} OnePart(s: string)
    requires forall i | 0 <= i < |s| :: BlankLine(s[i..]) == 0
    ensures SplitFrames(s) == [s]
    decreases |s|
  {
    if s != "" {
      assert s[0..] == s;
      forall i | 0 <= i < |s[1..]| ensures BlankLine(s[1..][i..]) == 0 {
        assert s[1..][i..] == s[i + 1..];
      }
      OnePart(s[1..]);
      assert [s[0]] + s[1..] == s;
    }
  }

  lemma {:induction false} SinglePartIsWhole(s: string)
    requires |SplitFrames(s)| == 1
    ensures SplitFrames(s) == [s]
    decreases |s|
  {
    if s != "" && BlankLine(s) == 0 {
      SinglePartIsWhole(s[1..]);
      assert [s[0]] + s[1..] == s;
    }
  }

  /** A match at the head is not changed by what follows; no match becomes one only if the text is short. */
  lemma BlankLineStable(a: string, b: string)
    ensures BlankLine(a) > 0 ==> BlankLine(a + b) == BlankLine(a)
    ensures a != "" && BlankLine(a) == 0 && BlankLine(a + b) > 0 ==> forall i | 0 <= i < |a| :: BlankLine(a[i..]) == 0
  {
    var s := a + b;
    forall i | 0 <= i < |a| ensures s[i] == a[i] {}
    var first := LineEnd(a);
    if first > 0 {
      assert LineEnd(s) == first;
      assert s[first..] == a[first..] + b;
    }
  }

  /** Splitting a text that arrives in two pieces: the complete frames of the first piece, then the
      splitting of what was left over together with the second piece. */
  lemma {:induction false} SplitFramesConcat(a: string, b: string)
    ensures SplitFrames(a + b) == Front(SplitFrames(a)) + SplitFrames(Last(SplitFrames(a)) + b)
    decreases |a|
  {
    if a == "" {
      assert a + b == b;
    } else {
      var s := a + b;
      BlankLineStable(a, b);
      if BlankLine(a) > 0 {
        var n := BlankLine(a);
        DropOfConcat(a, b, n);
        SplitFramesConcat(a[n..], b);
        ConcatAfterFirst("", SplitFrames(a[n..]), SplitFrames(Last(SplitFrames(a[n..])) + b));
      } else if BlankLine(s) > 0 {
        OnePart(a);
      } else {
        DropOfConcat(a, b, 1);
        assert s[0] == a[0];
        SplitFramesConcat(a[1..], b);
        var r := SplitFrames(a[1..]);
        if |r| == 1 {
          SinglePartIsWhole(a[1..]);
          assert a == [a[0]] + a[1..];
          assert SplitFrames(a) == [a];
        } else {
          ConsOfConcat(a[0], r, SplitFrames(Last(r) + b));
        }
      }
    }
  }

  lemma DropOfConcat<T>(a: seq<T>, b: seq<T>, n: nat)
    requires n <= |a|
    ensures (a + b)[n..] == a[n..] + b
  {
  }

  lemma ConcatAfterFirst(first: string, r: seq<string>, more: seq<string>)
    requires r != []
    ensures [first] + (Front(r) + more) == Front([first] + r) + more && Last([first] + r) == Last(r)
  {
  }

  lemma ConsOfConcat(c: char, r: seq<string>, more: seq<string>)
    requires |r| > 1
    ensures Cons(c, Front(r) + more) == Front(Cons(c, r)) + more && Last(Cons(c, r)) == Last(r)
  {
  }

  // ---------------------------------------------------------------- white space as JavaScript sees it

  predicate IsJsSpace(c: char) {
    var n := c as int;
    || 0x09 <= n <= 0x0D || n == 0x20 || n == 0xA0 || n == 0x1680 || 0x2000 <= n <= 0x200A
    || n == 0x2028 || n == 0x2029 || n == 0x202F || n == 0x205F || n == 0x3000 || n == 0xFEFF
  }

  function TrimStart(s: string): string {
    if s != "" && IsJsSpace(s[0]) then TrimStart(s[1..]) else s
  }

  function TrimEnd(s: string): string {
    if s != "" && IsJsSpace(s[|s| - 1]) then TrimEnd(s[..|s| - 1]) else s
  }

  function Trim(s: string): string { TrimEnd(TrimStart(s)) }

  // ---------------------------------------------------------------- the client reads one frame

  /** The two platform functions the client relies on. "number" is Number restricted to integers; "parse"
      is JSON.parse followed by the choice of payload and time. */
  datatype Platform<!P> = Platform(number: string -> Option<int>, parse: string -> Option<P>)

  /** Number reads a decimal numeral as its value. */
  ghost predicate ReadsNumerals<P>(platform: Platform<P>) {
    forall n: nat :: platform.number(Decimal(n)) == Some(n)
  }

  const MAX_SAFE_INTEGER := 0x1F_FFFF_FFFF_FFFF

  datatype Event<P> = Event(sequence: nat, kind: string, payload: P)

  /** What one RunEventStream has seen: its "latest" and the events given to onEvent, in order. */
  datatype Client<P> = Client(latest: Option<nat>, delivered: seq<Event<P>>)

  datatype Fields = Fields(id: Option<int>, kind: string, data: seq<string>)

  function ReadLine<P>(line: string, f: Fields, platform: Platform<P>): Fields {
    if HasPrefix(line, "id:") then f.(id := platform.number(Trim(line[3..])))
    else if HasPrefix(line, "event:") then f.(kind := Trim(line[6..]))
    else if HasPrefix(line, "data:") then f.(data := f.data + [TrimStart(line[5..])])
    else f
  }

  function ReadLines<P>(lines: seq<string>, f: Fields, platform: Platform<P>): Fields {
    if lines == [] then f else ReadLines(lines[1..], ReadLine(lines[0], f, platform), platform)
  }

  const NO_FIELDS := Fields(None, "RunEvent", [])

  /** consumeFrame */
  function ConsumeFrame<P>(frame: string, c: Client<P>, platform: Platform<P>): Client<P> {
    if Trim(frame) == "" || HasPrefix(frame, ":") then c
    else
      var f := ReadLines(SplitLines(frame), NO_FIELDS, platform);
      if f.id.None? || f.id.value <= 0 || f.id.value > MAX_SAFE_INTEGER || f.data == [] then c
      else
        match platform.parse(Join(f.data, '\n'))
        case None => c
        case Some(payload) =>
          var latest := if c.latest.Some? && c.latest.value > f.id.value then c.latest.value else f.id.value;
          Client(Some(latest), c.delivered + [Event(f.id.value, f.kind, payload)])
  }

  function ConsumeFrames<P>(frames: seq<string>, c: Client<P>, platform: Platform<P>): Client<P> {
    if frames == [] then c else ConsumeFrames(frames[1..], ConsumeFrame(frames[0], c, platform), platform)
  }

  lemma {:induction false} ConsumeFramesConcat<P>(a: seq<string>, b: seq<string>, c: Client<P>, platform: Platform<P>)
    ensures ConsumeFrames(a + b, c, platform) == ConsumeFrames(b, ConsumeFrames(a, c, platform), platform)
  {
    if a == [] {
      assert a + b == b;
    } else {
      assert (a + b)[1..] == a[1..] + b;
      ConsumeFramesConcat(a[1..], b, ConsumeFrame(a[0], c, platform), platform);
    }
  }

  // ---------------------------------------------------------------- the client reads a response

  function Concat(chunks: seq<string>): string {
    if chunks == [] then "" else chunks[0] + Concat(chunks[1..])
  }

  /** A whole response at once: every frame, and the unterminated rest if the response ended normally. */
  function ConsumeText<P>(text: string, ended: bool, c: Client<P>, platform: Platform<P>): Client<P> {
    var frames := SplitFrames(text);
    var complete := ConsumeFrames(Front(frames), c, platform);
    if ended && Trim(Last(frames)) != "" then ConsumeFrame(Last(frames), complete, platform) else complete
  }

  /** What the client has made of the text seen so far, and what it has kept of it. */
  ghost predicate ReadSoFar<P>(seen: string, buffered: string, start: Client<P>, now: Client<P>, platform: Platform<P>) {
    && buffered == Last(SplitFrames(seen))
    && now == ConsumeFrames(Front(SplitFrames(seen)), start, platform)
  }

  lemma ReadChunk<P>(seen: string, chunk: string, buffered: string, start: Client<P>, now: Client<P>, platform: Platform<P>)
    requires ReadSoFar(seen, buffered, start, now, platform)
    ensures var frames := SplitFrames(buffered + chunk);
            ReadSoFar(seen + chunk, Last(frames), start, ConsumeFrames(Front(frames), now, platform), platform)
  {
    SplitFramesConcat(seen, chunk);
    var frames := SplitFrames(buffered + chunk);
    FrontOfConcat(Front(SplitFrames(seen)), frames);
    ConsumeFramesConcat(Front(SplitFrames(seen)), Front(frames), start, platform);
  }

  lemma NextChunk(chunks: seq<string>, i: nat, seen: string)
    requires i < |chunks|
    ensures seen + Concat(chunks[i..]) == (seen + chunks[i]) + Concat(chunks[i + 1..])
  {
    assert chunks[i..][0] == chunks[i] && chunks[i..][1..] == chunks[i + 1..];
    Associative(seen, chunks[i], Concat(chunks[i + 1..]));
  }

  lemma FrontOfConcat<T>(a: seq<T>, b: seq<T>)
    requires b != []
    ensures Front(a + b) == a + Front(b) && Last(a + b) == Last(b)
  {
  }

  /** consumeResponse: however the text is cut into chunks, the client handles the frames of the whole
      text. "ended" tells a normal end from an error or a stop. */
  method ConsumeResponse<P>(chunks: seq<string>, ended: bool, client: Client<P>, platform: Platform<P>)
    returns (r: Client<P>)
    ensures r == ConsumeText(Concat(chunks), ended, client, platform)
  {
    r := client;
    var buffered := "";
    ghost var seen := "";
    assert ReadSoFar(seen, buffered, client, r, platform);
    assert chunks[0..] == chunks && "" + Concat(chunks) == Concat(chunks);
    for i := 0 to |chunks|
      invariant Concat(chunks) == seen + Concat(chunks[i..])
      invariant ReadSoFar(seen, buffered, client, r, platform)
    {
      NextChunk(chunks, i, seen);
      ReadChunk(seen, chunks[i], buffered, client, r, platform);
      var frames := SplitFrames(buffered + chunks[i]);
      buffered := Last(frames);
      r := ConsumeFrames(Front(frames), r, platform);
      seen := seen + chunks[i];
    }
    assert chunks[|chunks|..] == [] && seen + "" == seen;
    if ended && Trim(buffered) != "" {
      r := ConsumeFrame(buffered, r, platform);
    }
  }

  /** The frames handed to consumeFrame chunk by chunk, followed by what stays buffered. */
  function Fed(chunks: seq<string>, buffered: string): (parts: seq<string>)
    ensures parts != []
  {
    if chunks == [] then [buffered]
    else
      var parts := SplitFrames(buffered + chunks[0]);
      Front(parts) + Fed(chunks[1..], Last(parts))
  }

  lemma {:induction false} FedAfter(seen: string, chunks: seq<string>)
    ensures Front(SplitFrames(seen)) + Fed(chunks, Last(SplitFrames(seen))) == SplitFrames(seen + Concat(chunks))
    decreases |chunks|
  {
    hide SplitFrames;
    hide Fed;
    if chunks == [] {
      FedNone(seen);
    } else {
      var rest := chunks[1..];
      assert [chunks[0]] + rest == chunks;
      FedAfter(seen + chunks[0], rest);
      FedOne(seen, chunks[0], rest);
      Associative(seen, chunks[0], Concat(rest));
    }
  }

  lemma FedNone(seen: string)
    ensures Front(SplitFrames(seen)) + Fed([], Last(SplitFrames(seen))) == SplitFrames(seen)
    ensures seen + Concat([]) == seen
  {
  }

  lemma FedOne(seen: string, chunk: string, rest: seq<string>)
    ensures Front(SplitFrames(seen)) + Fed([chunk] + rest, Last(SplitFrames(seen)))
         == Front(SplitFrames(seen + chunk)) + Fed(rest, Last(SplitFrames(seen + chunk)))
  {
    var before, more := SplitFrames(seen), SplitFrames(Last(SplitFrames(seen)) + chunk);
    SplitFramesConcat(seen, chunk);
    FrontOfConcat(Front(before), more);
    assert ([chunk] + rest)[1..] == rest;
    Associative(Front(before), Front(more), Fed(rest, Last(more)));
  }

  /** However a text is cut into chunks, the splitter hands over the frames of the whole text and keeps
      its unterminated rest. */
  lemma ChunkingIsIrrelevant(chunks: seq<string>)
    ensures Fed(chunks, "") == SplitFrames(Concat(chunks))
  {
    FedAfter("", chunks);
    assert "" + Concat(chunks) == Concat(chunks);
  }
}
