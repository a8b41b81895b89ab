/** The two ends of the event stream together: the reconnecting client of module EventClient over connections
    whose texts come from a server that resumes at the cursor it is asked for, as module EventStream has it. */
module EventDelivery {

  import opened Wrappers
  import opened EventFrames
  import opened EventStream
  import opened EventClient

  /** How a response is cut from the blocks that the server writes: what has arrived, what has not, and what
      the decoder makes of a character torn by the end. */
  datatype Cut = Cut(blocks: seq<Block>, arrived: string, missing: string, torn: string)

  /** The blocks follow the first "k" events; and a character is torn only by a normal end. */
  ghost predicate CutFrom(cut: Cut, events: seq<Wire>, k: nat, next: nat, ended: bool) {
    && InOrder(cut.blocks, k, next) && next <= |events| + 1
    && cut.arrived + cut.missing == Written(cut.blocks, events) && Torn(cut.torn)
    && (cut.torn != "" ==> ended && cut.missing != "" && cut.missing[0] as int >= 0x80)
  }

  /** What a response can hand over to a client that has the first "k" events. "all" says that nothing the
      server has written is missing. */
  ghost predicate Follows(events: seq<Wire>, k: nat, next: nat, text: string, ended: bool, all: bool) {
    exists cut :: CutFrom(cut, events, k, next, ended) && text == cut.arrived + cut.torn && (all ==> cut.missing == "")
  }

  lemma NoLineEndMore(a: string, c: char)
    requires c != '\n'
    ensures LineEnd(a + [c]) == LineEnd(a)
  {
    forall i | 0 <= i < |a| ensures (a + [c])[i] == a[i] {}
  }

  lemma NoBlankLineMore(a: string, c: char)
    requires c != '\n'
    ensures BlankLine(a + [c]) == BlankLine(a)
  {
    var first := LineEnd(a);
    NoLineEndMore(a, c);
    NoLineEndMore(a[first..], c);
    DropOfConcat(a, [c], first);
  }

  /** A character that ends no line makes no new frame. */
  lemma {:induction false} OneCharMore(a: string, c: char)
    requires |SplitFrames(a)| == 1 && c != '\n'
    ensures SplitFrames(a + [c]) == [a + [c]]
    decreases |a|
  {
    NoBlankLineMore(a, c);
    if a == "" {
      assert a + [c] == [c] && [c][1..] == "" && [c] + "" == [c];
      assert SplitFrames([c]) == Cons(c, SplitFrames(""));
    } else {
      assert (a + [c])[0] == a[0] && (a + [c])[1..] == a[1..] + [c];
      OneCharMore(a[1..], c);
      assert [a[0]] + (a[1..] + [c]) == a + [c];
    }
  }

  lemma {:induction false} LastIsOneFrame(s: string)
    ensures SplitFrames(Last(SplitFrames(s))) == [Last(SplitFrames(s))]
  {
    SplitFramesConcat(s, "");
    assert s + "" == s && Last(SplitFrames(s)) + "" == Last(SplitFrames(s));
    assert |SplitFrames(Last(SplitFrames(s)))| == 1;
    SinglePartIsWhole(Last(SplitFrames(s)));
  }

  /** What a torn character at the end does to the frames. */
  lemma TornLast(p: string, x: string)
    requires Torn(x)
    ensures Front(SplitFrames(p + x)) == Front(SplitFrames(p)) && Last(SplitFrames(p + x)) == Last(SplitFrames(p)) + x
  {
    var last := Last(SplitFrames(p));
    SplitFramesConcat(p, x);
    LastIsOneFrame(p);
    if x == "" {
      assert last + x == last;
    } else {
      OneCharMore(last, x[0]);
      assert [x[0]] == x;
    }
  }

  /** The client after a response that is cut like this. */
  lemma OneCut<P>(cut: Cut, events: seq<Wire>, k: nat, next: nat, ended: bool, c: Client<P>, platform: Platform<P>)
    returns (k': nat)
    requires AllClean(events, platform) && ReadsNumerals(platform) && AtCount(c, k, events, platform)
    requires CutFrom(cut, events, k, next, ended)
    ensures AtCount(ConsumeText(cut.arrived + cut.torn, ended, c, platform), k', events, platform)
    ensures cut.missing == "" ==> k' + 1 == next
  {
    hide AtCount;
    hide AllClean;
    hide ConsumeFrames;
    hide ConsumeFrame;
    hide SplitFrames;
    hide Written;
    var p, w, x := cut.arrived, cut.missing, cut.torn;
    TornLast(p, x);
    var last := Last(SplitFrames(p));
    var complete := ConsumeFrames(Front(SplitFrames(p)), c, platform);
    var rest, k1 := Received(p, w, cut.blocks, k, next, c, events, platform);
    k' := k1;
    if w == "" { NothingLeft(last, w, rest, k1, next, events); }
    if ended && Trim(last + x) != "" {
      k' := TailConsumed(last, w, x, rest, k1, next, complete, events, platform);
      if w == "" { TailIsEmpty(last, x); }
    }
  }

  /** One response: the client goes on with the events in order, and has everything the server has written
      when nothing is missing. */
  lemma OneResponse<P>(events: seq<Wire>, k: nat, next: nat, text: string, ended: bool, all: bool,
                       c: Client<P>, platform: Platform<P>) returns (k': nat)
    requires AllClean(events, platform) && ReadsNumerals(platform) && AtCount(c, k, events, platform)
    requires Follows(events, k, next, text, ended, all)
    ensures AtCount(ConsumeText(text, ended, c, platform), k', events, platform)
    ensures all ==> k' + 1 == next
  {
    hide AtCount;
    hide AllClean;
    hide ConsumeText;
    hide CutFrom;
    var cut :| CutFrom(cut, events, k, next, ended) && text == cut.arrived + cut.torn && (all ==> cut.missing == "");
    k' := OneCut(cut, events, k, next, ended, c, platform);
  }

  lemma NothingLeft(last: string, w: string, rest: seq<Block>, k: nat, next: nat, events: seq<Wire>)
    requires w == "" && last + w == Written(rest, events) && InOrder(rest, k, next)
    requires if rest == [] then last == "" else |last| < |Body(rest[0], events)| + 2
    ensures k + 1 == next && last == ""
  {
    assert last + w == last;
  }

  lemma TailIsEmpty(last: string, x: string)
    requires last == "" && x == ""
    ensures Trim(last + x) == ""
  {
    assert last + x == "";
  }

  // ---------------------------------------------------------------- what writeEvents writes

  function SentFrom(k: nat, m: nat): seq<Block>
    requires k <= m
    decreases m - k
  {
    if k == m then [] else [Sent(k + 1)] + SentFrom(k + 1, m)
  }

  /** The frames of the events after "k" up to "m" are such blocks. */
  lemma {:induction false} FramesAreBlocks(events: seq<Wire>, k: nat, m: nat)
    requires k <= m <= |events|
    ensures InOrder(SentFrom(k, m), k, m + 1) && Written(SentFrom(k, m), events) == FramesFrom(k + 1, events[k..m])
    decreases m - k
  {
    if k < m {
      FramesAreBlocks(events, k + 1, m);
      assert SentFrom(k, m)[1..] == SentFrom(k + 1, m) && events[k..m][1..] == events[k + 1..m];
    }
  }

  /** Any prefix of what the server writes for the events after "k" up to "m" follows, and all of it follows
      with nothing missing. */
  lemma PrefixFollows(events: seq<Wire>, k: nat, m: nat, text: string, ended: bool)
    requires k <= m <= |events| && text <= FramesFrom(k + 1, events[k..m])
    ensures Follows(events, k, m + 1, text, ended, text == FramesFrom(k + 1, events[k..m]))
  {
    hide FramesFrom;
    hide Follows;
    FramesAreBlocks(events, k, m);
    CutOff(events, SentFrom(k, m), k, m + 1, text, ended);
  }

  lemma CutOff(events: seq<Wire>, blocks: seq<Block>, k: nat, next: nat, text: string, ended: bool)
    requires InOrder(blocks, k, next) && next <= |events| + 1 && text <= Written(blocks, events)
    ensures Follows(events, k, next, text, ended, text == Written(blocks, events))
  {
    hide Written;
    hide InOrder;
    var cut := Cut(blocks, text, Written(blocks, events)[|text|..], "");
    assert CutFrom(cut, events, k, next, ended) && text == cut.arrived + cut.torn;
  }

  // ---------------------------------------------------------------- the client over its connections

  /** The cursor that a server takes from the client's request. */
  function Asked<P>(c: Client<P>): Option<nat> { LastEventSequence(LastEventId(c)) }

  ghost predicate SomeFollow(events: seq<Wire>, k: nat, text: string, ended: bool) {
    exists next :: Follows(events, k, next, text, ended, false)
  }

  /** What the connection hands over comes from a server that resumes where the client asks it to. */
  ghost predicate FromServer<P>(events: seq<Wire>, c: Client<P>, connection: Connection) {
    Reads(connection) ==>
      && Asked(c).Some? && Asked(c).value > 0
      && SomeFollow(events, Asked(c).value - 1, Concat(connection.chunks), EndsNormally(connection))
  }

  /** The connection hands over all events that are left. */
  ghost predicate HandsOverAll<P>(events: seq<Wire>, c: Client<P>, connection: Connection) {
    && Reads(connection) && Asked(c).Some? && Asked(c).value > 0
    && Follows(events, Asked(c).value - 1, |events| + 1, Concat(connection.chunks), EndsNormally(connection), true)
  }

  lemma AsksForTheNext<P>(c: Client<P>, k: nat, events: seq<Wire>, platform: Platform<P>)
    requires AllClean(events, platform) && AtCount(c, k, events, platform)
    ensures Asked(c) == Some(k + 1)
  {
    CursorRoundTrip(k);
  }

  lemma OneConnection<P>(events: seq<Wire>, c: Client<P>, k: nat, connection: Connection, platform: Platform<P>) returns (k': nat)
    requires AllClean(events, platform) && ReadsNumerals(platform) && AtCount(c, k, events, platform)
    requires FromServer(events, c, connection)
    ensures AtCount(Served(connection, c, platform), k', events, platform)
    ensures HandsOverAll(events, c, connection) ==> k' == |events|
  {
    hide AtCount;
    hide AllClean;
    hide Follows;
    hide ConsumeText;
    AsksForTheNext(c, k, events, platform);
    k' := k;
    if HandsOverAll(events, c, connection) {
      k' := OneResponse(events, k, |events| + 1, Concat(connection.chunks), EndsNormally(connection), true, c, platform);
    } else if Reads(connection) {
      var next :| Follows(events, k, next, Concat(connection.chunks), EndsNormally(connection), false);
      k' := OneResponse(events, k, next, Concat(connection.chunks), EndsNormally(connection), false, c, platform);
    }
  }

  /** A client that has seen nothing. */
  function New<P>(): Client<P> { Client(None, []) }

  /** Every connection comes from the server, given what the client has seen before it. */
  ghost predicate AllFromServer<P>(events: seq<Wire>, connections: nat -> Connection, platform: Platform<P>) {
    forall i: nat :: FromServer(events, ServedBy(connections, i, New(), platform), connections(i))
  }

  /** However often the connection breaks or ends, and wherever, the client has been handed the first events,
      once and in order; and all of them after a connection that hands over all that are left. */
  lemma {:induction false} ServedInOrder<P>(events: seq<Wire>, connections: nat -> Connection, n: nat, platform: Platform<P>)
    returns (k: nat)
    requires AllClean(events, platform) && ReadsNumerals(platform) && AllFromServer(events, connections, platform)
    ensures AtCount(ServedBy(connections, n, New(), platform), k, events, platform)
    ensures n > 0 && HandsOverAll(events, ServedBy(connections, n - 1, New(), platform), connections(n - 1)) ==>
              k == |events|
  {
    hide HandsOverAll;
    hide FromServer;
    hide ReadsNumerals;
    if n == 0 {
      k := 0;
    } else {
      var before := ServedInOrder(events, connections, n - 1, platform);
      k := OneConnection(events, ServedBy(connections, n - 1, New(), platform), before, connections(n - 1), platform);
    }
  }

  /** The client's run loop, from the start. */
  method FollowRun<P>(ghost events: seq<Wire>, connections: nat -> Connection, pauses: nat -> bool, maxConnections: int,
                      platform: Platform<P>)
    returns (stream: RunEventStream<P>, cursors: seq<Option<nat>>, ghost k: nat)
    requires AllClean(events, platform) && ReadsNumerals(platform) && AllFromServer(events, connections, platform)
    ensures fresh(stream) && AtCount(stream.client, k, events, platform)
    ensures var n := |cursors|;
            n > 0 && HandsOverAll(events, ServedBy(connections, n - 1, New(), platform), connections(n - 1)) ==> k == |events|
  {
    stream := new RunEventStream(platform);
    var notices;
    cursors, notices := stream.Run(connections, pauses, maxConnections);
    k := ServedInOrder(events, connections, |cursors|, platform);
  }
}
