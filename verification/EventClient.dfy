/** The reconnecting event stream of web/src/api/client.ts, over what its connections turn out to be. */
module EventClient {

  import opened EventFrames
  import opened Wrappers

  /** What becomes of one connection. The chunks are what the reader yields before the response ends, breaks
      off, or stop() is called. A stop that ends a pending read is a normal end of the response; "Aborted" is
      an AbortError without a stop. */
  datatype Connection =
    | Refused
    | BadStatus
    | NoBody
    | Ended(chunks: seq<string>)
    | BrokeOff(chunks: seq<string>)
    | Aborted(chunks: seq<string>)
    | StoppedIn(chunks: seq<string>, done: bool)

  datatype Notice = Connected | Reconnected | Disconnected | Reconnecting | Failed

  predicate Reads(connection: Connection) {
    connection.Ended? || connection.BrokeOff? || connection.Aborted? || connection.StoppedIn?
  }

  predicate EndsNormally(connection: Connection) {
    connection.Ended? || (connection.StoppedIn? && connection.done)
  }

  /** Whether a read has returned something, be it the end. */
  predicate Heard(connection: Connection) {
    Reads(connection) && (EndsNormally(connection) || connection.chunks != [])
  }

  /** Nothing is announced after these, and there is no further connection. */
  predicate Silent(connection: Connection) { connection.StoppedIn? || connection.Aborted? }

  /** What the client has seen after one more connection. */
  function Served<P>(connection: Connection, c: Client<P>, platform: Platform<P>): Client<P> {
    if Reads(connection) then ConsumeText(Concat(connection.chunks), EndsNormally(connection), c, platform) else c
  }

  /** What it has seen after the first n connections. */
  function ServedBy<P>(connections: nat -> Connection, n: nat, c: Client<P>, platform: Platform<P>): Client<P> {
    if n == 0 then c else Served(connections(n - 1), ServedBy(connections, n - 1, c, platform), platform)
  }

  /** Each connection asks for what follows the last event seen before it. */
  predicate Resume<P>(connections: nat -> Connection, cursors: seq<Option<nat>>, c: Client<P>, platform: Platform<P>) {
    forall i | 0 <= i < |cursors| :: cursors[i] == ServedBy(connections, i, c, platform).latest
  }

  lemma ResumeOnce<P>(connections: nat -> Connection, cursors: seq<Option<nat>>, c: Client<P>, platform: Platform<P>)
    requires Resume(connections, cursors, c, platform)
    ensures Resume(connections, cursors + [ServedBy(connections, |cursors|, c, platform).latest], c, platform)
  {
  }

  /** The first n connections and the pauses after them went on; "pauses" says whether stop() is called
      while the client waits to reconnect. */
  predicate WentOn(connections: nat -> Connection, pauses: nat -> bool, n: nat) {
    forall i | 0 <= i < n :: !Silent(connections(i)) && !pauses(i)
  }

  lemma WentOnce(connections: nat -> Connection, pauses: nat -> bool, n: nat)
    requires n > 0 ==> WentOn(connections, pauses, n - 1) && !Silent(connections(n - 1)) && !pauses(n - 1)
    ensures WentOn(connections, pauses, n)
  {
  }

  /** What the connection with this index announces itself: that it is there, once something has been read. */
  function Opening<P>(connections: nat -> Connection, i: nat, c: Client<P>, platform: Platform<P>): seq<Notice> {
    if !Heard(connections(i)) then []
    else if i > 0 || ServedBy(connections, i, c, platform).latest.Some? then [Reconnected]
    else [Connected]
  }

  /** What is announced by the first n connections, after each of which there is another one. */
  function Lasting<P>(connections: nat -> Connection, n: nat, c: Client<P>, platform: Platform<P>): seq<Notice> {
    if n == 0 then []
    else
      Lasting(connections, n - 1, c, platform) + Opening(connections, n - 1, c, platform) + [Disconnected, Reconnecting]
  }

  /** What is announced at the end of the last connection: nothing if it was stopped or aborted; failure if
      there is none left. */
  function Closing(connection: Connection, last: bool): seq<Notice> {
    if Silent(connection) then [] else if last then [Disconnected, Failed] else [Disconnected, Reconnecting]
  }

  /** Everything that is announced in a run of n connections out of "most". */
  function Story<P>(connections: nat -> Connection, n: nat, most: int, c: Client<P>, platform: Platform<P>): seq<Notice> {
    if n == 0 then []
    else
      Lasting(connections, n - 1, c, platform) + Opening(connections, n - 1, c, platform)
      + Closing(connections(n - 1), n == most)
  }

  lemma OneMore<P>(connections: nat -> Connection, n: nat, most: int, c: Client<P>, platform: Platform<P>)
    ensures var so := Lasting(connections, n, c, platform) + Opening(connections, n, c, platform);
            && Lasting(connections, n + 1, c, platform) == so + [Disconnected, Reconnecting]
            && Story(connections, n + 1, most, c, platform) == so + Closing(connections(n), n + 1 == most)
    ensures n + 1 != most && !Silent(connections(n)) ==>
              Story(connections, n + 1, most, c, platform) == Lasting(connections, n + 1, c, platform)
    ensures Lasting(connections, 0, c, platform) == Story(connections, 0, most, c, platform) == []
  {
  }

  class RunEventStream<P> {
    const platform: Platform<P>
    var client: Client<P>
    var running: bool
    var stopped: bool

    constructor (platform: Platform<P>)
      ensures this.platform == platform && client == Client(None, []) && !running && !stopped
    {
      this.platform := platform;
      client, running, stopped := Client(None, []), false, false;
    }

    /** One connection: what it announces, if anything. */
    method Serve(connection: Connection, attempt: nat) returns (announced: seq<Notice>)
      requires !stopped
      modifies this`client, this`stopped
      ensures client == Served(connection, old(client), platform) && (stopped <==> connection.StoppedIn?)
      ensures announced ==
              if !Heard(connection) then []
              else [if old(client).latest.Some? || attempt > 0 then Reconnected else Connected]
    {
      announced := [];
      var resuming := client.latest.Some? || attempt > 0;
      if Reads(connection) {
        if EndsNormally(connection) || connection.chunks != [] {
          announced := [if resuming then Reconnected else Connected];
        }
        client := ConsumeResponse(connection.chunks, EndsNormally(connection), client, platform);
      }
      stopped := connection.StoppedIn?;
    }

    /** Returns the cursor each connection asked for and the states announced. Connections follow one another
        until one is stopped or aborted, stop() is called in the pause after one, or the allowance is used up;
        each resumes where the ones before it left off; and every announcement is the one due, failure last
        and exactly when the allowance is used up by a connection that is neither stopped nor aborted. */
    method Run(connections: nat -> Connection, pauses: nat -> bool, maxConnections: int)
      returns (cursors: seq<Option<nat>>, notices: seq<Notice>)
      modifies this
      ensures old(running) || old(stopped) ==>
                cursors == [] && notices == [] && client == old(client) && running == old(running) && stopped == old(stopped)
      ensures !old(running) && !old(stopped) ==>
                var n := |cursors|;
                && client == ServedBy(connections, n, old(client), platform) && !running
                && Resume(connections, cursors, old(client), platform)
                && n <= (if maxConnections < 0 then 0 else maxConnections)
                && (n > 0 ==> WentOn(connections, pauses, n - 1))
                && (n < maxConnections ==> n > 0 && (Silent(connections(n - 1)) || pauses(n - 1)))
                && (stopped <==> n > 0 && (connections(n - 1).StoppedIn?
                                           || (n < maxConnections && !connections(n - 1).Aborted?)))
                && notices == Story(connections, n, maxConnections, old(client), platform)
    {
      cursors, notices := [], [];
      if running || stopped { return; }
      running := true;
      cursors, notices := Follow(connections, pauses, maxConnections);
      running := false;
    }

    /** The loop of run. */
    method Follow(connections: nat -> Connection, pauses: nat -> bool, maxConnections: int)
      returns (cursors: seq<Option<nat>>, notices: seq<Notice>)
      requires !stopped
      modifies this`client, this`stopped
      ensures client == ServedBy(connections, |cursors|, old(client), platform)
      ensures Resume(connections, cursors, old(client), platform)
      ensures |cursors| <= if maxConnections < 0 then 0 else maxConnections
      ensures |cursors| > 0 ==> WentOn(connections, pauses, |cursors| - 1)
      ensures |cursors| < maxConnections ==>
                |cursors| > 0 && (Silent(connections(|cursors| - 1)) || pauses(|cursors| - 1))
      ensures stopped <==> |cursors| > 0 && (connections(|cursors| - 1).StoppedIn?
                                             || (|cursors| < maxConnections && !connections(|cursors| - 1).Aborted?))
      ensures notices == Story(connections, |cursors|, maxConnections, old(client), platform)
    {
      hide ConsumeText;
      hide Concat;
      hide Lasting;
      hide Story;
      hide WentOn;
      cursors, notices := [], [];
      OneMore(connections, 0, maxConnections, client, platform);
      while !stopped && |cursors| < maxConnections
        invariant client == ServedBy(connections, |cursors|, old(client), platform)
        invariant Resume(connections, cursors, old(client), platform)
        invariant |cursors| > 0 ==> WentOn(connections, pauses, |cursors| - 1) && !connections(|cursors| - 1).StoppedIn?
        invariant |cursors| > 0 ==> |cursors| < maxConnections && !Silent(connections(|cursors| - 1))
        invariant stopped <==> |cursors| > 0 && pauses(|cursors| - 1)
        invariant notices == Story(connections, |cursors|, maxConnections, old(client), platform)
        invariant notices == Lasting(connections, |cursors|, old(client), platform)
        decreases maxConnections - |cursors|, !stopped
      {
        var connection := connections(|cursors|);
        OneMore(connections, |cursors|, maxConnections, old(client), platform);
        WentOnce(connections, pauses, |cursors|);
        ResumeOnce(connections, cursors, old(client), platform);
        cursors := cursors + [client.latest];
        var announced := Serve(connection, |cursors| - 1);
        notices := notices + announced;
        if stopped || connection.Aborted? {
          return;
        }
        notices := notices + [Disconnected];
        if |cursors| >= maxConnections {
          notices := notices + [Failed];
          return;
        }
        notices := notices + [Reconnecting];
        stopped := pauses(|cursors| - 1);
      }
    }
  }
}
