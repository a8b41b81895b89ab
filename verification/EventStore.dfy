/** The in-memory run store (internal/store/memory.go) and its hash chain (internal/store/store.go). */
module EventStore {
  import opened RunState
  import opened Wrappers
  import Text

  type Hash = Bytes -> Bytes

  const WORD := 0x1_0000_0000_0000_0000
  const WORD_BYTES: nat := 8

  /** An event as it is hashed. "at" is the number of nanoseconds since the epoch, a 64-bit integer. */
  datatype Event = Event(runId: Bytes, sequence: nat, kind: Bytes, at: int, payload: Bytes,
                         previousHash: Bytes, hash: Bytes)

  // ---------------------------------------------------------------- the encoding

  /** binary.BigEndian.PutUint64 of the low 64 bits, least significant byte last. */
  function BigEndian(n: int, width: nat): (r: Bytes)
    ensures |r| == width
    decreases width
  {
    if width == 0 then [] else BigEndian(n / 0x100, width - 1) + [n % 0x100]
  }

  /** A 64-bit word, most significant byte first. */
  function Word(n: int): (r: Bytes)
    ensures |r| == WORD_BYTES
  {
    BigEndian(n, WORD_BYTES)
  }

  lemma WordInjective(a: int, b: int)
    requires Word(a) == Word(b)
    ensures a % WORD == b % WORD
  {
    BigEndianInjective(a, b, WORD_BYTES);
    EightBytes();
  }

  /** writeField: the length in eight bytes, then the bytes. */
  function Field(value: Bytes): Bytes { Word(|value|) + value }

  /** The six hashed fields, in order. */
  function Parts(e: Event): seq<Bytes> {
    [e.runId, Word(e.sequence), e.kind, Word(e.at), e.payload, e.previousHash]
  }

  function Encoding(e: Event): Bytes { Fields(Parts(e)) }

  /** What is hashed, written out. */
  lemma EncodingIs(e: Event)
    ensures Encoding(e) == Field(e.runId) + (Field(Word(e.sequence)) + (Field(e.kind) + (Field(Word(e.at))
                           + (Field(e.payload) + Field(e.previousHash)))))
  {
    hide Field;
    hide Word;
    var p := Parts(e);
    FieldsStep(p[0], p[1..]);
    FieldsStep(p[1], p[2..]);
    FieldsStep(p[2], p[3..]);
    FieldsStep(p[3], p[4..]);
    FieldsStep(p[4], p[5..]);
    FieldsStep(p[5], []);
    assert Field(p[5]) + [] == Field(p[5]);
    assert p == [p[0]] + p[1..] && p[1..] == [p[1]] + p[2..] && p[2..] == [p[2]] + p[3..];
    assert p[3..] == [p[3]] + p[4..] && p[4..] == [p[4]] + p[5..] && p[5..] == [p[5]] + [];
  }

  lemma FieldsStep(first: Bytes, rest: seq<Bytes>)
    ensures Fields([first] + rest) == Field(first) + Fields(rest)
  {
    assert ([first] + rest)[1..] == rest;
  }

  /** The number that bytes stand for, the most significant one first. */
  function Value(bytes: Bytes): nat {
    if bytes == [] then 0 else 0x100 * Value(bytes[..|bytes| - 1]) + bytes[|bytes| - 1]
  }

  lemma {:induction false} BigEndianValue(n: int, width: nat)
    ensures Value(BigEndian(n, width)) == n % Power(width)
    decreases width
  {
    if width > 0 {
      var bytes := BigEndian(n, width);
      assert bytes[..width - 1] == BigEndian(n / 0x100, width - 1);
      BigEndianValue(n / 0x100, width - 1);
      ModOfProduct(n, Power(width - 1));
    } else {
      assert n % 1 == 0;
    }
  }

  /** A word stands for the number modulo 2^64. */
  lemma WordValue(n: int)
    ensures Value(Word(n)) == n % 0x1_0000_0000_0000_0000
  {
    BigEndianValue(n, WORD_BYTES);
    EightBytes();
  }

  function Power(width: nat): (r: nat)
    ensures r > 0
  {
     if width == 0 then 1 else 0x100 * Power(width - 1)
  }

  lemma {:induction false} BigEndianInjective(a: int, b: int, width: nat)
    requires BigEndian(a, width) == BigEndian(b, width)
    ensures a % Power(width) == b % Power(width)
    decreases width
  {
    if width == 0 {
      assert a % 1 == 0 == b % 1;
    } else {
      var x, y := BigEndian(a, width), BigEndian(b, width);
      assert x[..width - 1] == BigEndian(a / 0x100, width - 1) && y[..width - 1] == BigEndian(b / 0x100, width - 1);
      assert a % 0x100 == x[width - 1] == y[width - 1] == b % 0x100;
      BigEndianInjective(a / 0x100, b / 0x100, width - 1);
      ModOfProduct(a, Power(width - 1));
      ModOfProduct(b, Power(width - 1));
    }
  }

  lemma ModOfProduct(a: int, m: nat)
    requires m > 0
    ensures a % (0x100 * m) == 0x100 * ((a / 0x100) % m) + a % 0x100
  {
    var q, r := a / 0x100, a % 0x100;
    var h, l := q / m, q % m;
    assert a == 0x100 * (h * m + l) + r;
    var small := 0x100 * l + r;
    assert a == (0x100 * m) * h + small;
    assert 0 <= small < 0x100 * m;
    Remainder(a, 0x100 * m, h, small);
  }

  lemma Remainder(a: int, d: nat, q: int, r: int)
    requires d > 0 && a == d * q + r && 0 <= r < d
    ensures a % d == r
  {
    var k := a / d;
    assert d * (k - q) == r - a % d;
    AtLeastOnce(d, k - q);
    AtLeastOnce(d, q - k);
    assert d * (q - k) == -(d * (k - q));
  }

  lemma AtLeastOnce(d: nat, m: int)
    ensures m >= 1 ==> d * m >= d
  {
    if m >= 1 {
      assert d * m == d + d * (m - 1);
    }
  }

  lemma EightBytes()
    ensures Power(WORD_BYTES) == WORD
  {
    assert Power(2) == 0x1_0000;
    assert Power(4) == 0x1_0000_0000;
    assert Power(6) == 0x1_0000_0000_0000;
  }

  /** A field can be cut off the front of an encoding in one way only. */
  lemma FieldIsPrefixFree(a: Bytes, x: Bytes, b: Bytes, y: Bytes)
    requires |a| < WORD && |b| < WORD
    requires Field(a) + x == Field(b) + y
    ensures a == b && x == y
  {
    Text.Associative(Word(|a|), a, x);
    Text.Associative(Word(|b|), b, y);
    SameCut(Word(|a|), a + x, Word(|b|), b + y);
    UnsignedWord(|a|, |b|);
    SameCut(a, x, b, y);
  }

  lemma SameCut<T>(a: seq<T>, x: seq<T>, b: seq<T>, y: seq<T>)
    requires |a| == |b| && a + x == b + y
    ensures a == b && x == y
  {
    assert (a + x)[..|a|] == a && (b + y)[..|b|] == b;
    assert (a + x)[|a|..] == x && (b + y)[|b|..] == y;
  }

  /** The widths in which the program keeps lengths, sequences and times. */
  predicate WithinWidths(e: Event) {
    && |e.runId| < WORD && |e.kind| < WORD && |e.payload| < WORD && |e.previousHash| < WORD
    && e.sequence < WORD && -WORD / 2 <= e.at < WORD / 2
  }

  function Fields(parts: seq<Bytes>): Bytes {
    if parts == [] then [] else Field(parts[0]) + Fields(parts[1..])
  }

  /** A sequence of fields can be read back. */
  lemma {:induction false} FieldsInjective(a: seq<Bytes>, b: seq<Bytes>)
    requires |a| == |b| && Fields(a) == Fields(b)
    requires forall i | 0 <= i < |a| :: |a[i]| < WORD && |b[i]| < WORD
    ensures a == b
  {
    if a != [] {
      FieldIsPrefixFree(a[0], Fields(a[1..]), b[0], Fields(b[1..]));
      FieldsInjective(a[1..], b[1..]);
      assert a == [a[0]] + a[1..] && b == [b[0]] + b[1..];
    }
  }

  /** Two events with the same encoding agree in all six hashed fields. */
  lemma EncodingInjective(a: Event, b: Event)
    requires WithinWidths(a) && WithinWidths(b) && Encoding(a) == Encoding(b)
    ensures a == b.(hash := a.hash)
  {
    PartsWithinWidths(a);
    PartsWithinWidths(b);
    FieldsInjective(Parts(a), Parts(b));
    PartsInjective(a, b);
  }

  lemma PartsWithinWidths(e: Event)
    requires WithinWidths(e)
    ensures |Parts(e)| == 6 && forall i | 0 <= i < 6 :: |Parts(e)[i]| < WORD
  {
  }

  lemma PartsInjective(a: Event, b: Event)
    requires WithinWidths(a) && WithinWidths(b) && Parts(a) == Parts(b)
    ensures a == b.(hash := a.hash)
  {
    var x, y := Parts(a), Parts(b);
    assert x[0] == y[0] && x[1] == y[1] && x[2] == y[2] && x[3] == y[3] && x[4] == y[4] && x[5] == y[5];
    UnsignedWord(a.sequence, b.sequence);
    SignedWord(a.at, b.at);
  }

  lemma UnsignedWord(a: nat, b: nat)
    requires a < WORD && b < WORD && Word(a) == Word(b)
    ensures a == b
  {
    WordInjective(a, b);
    TwosComplement(a);
    TwosComplement(b);
  }

  lemma SignedWord(a: int, b: int)
    requires -WORD / 2 <= a < WORD / 2 && -WORD / 2 <= b < WORD / 2 && Word(a) == Word(b)
    ensures a == b
  {
    WordInjective(a, b);
    TwosComplement(a);
    TwosComplement(b);
  }

  lemma TwosComplement(a: int)
    requires -WORD <= a < WORD
    ensures a % WORD == if a < 0 then a + WORD else a
  {
    if a < 0 {
      Remainder(a, WORD, -1, a + WORD);
    } else {
      Remainder(a, WORD, 0, a);
    }
  }

  // ---------------------------------------------------------------- chains

  function LastHash(chain: seq<Event>): Bytes {
    if chain == [] then [] else chain[|chain| - 1].hash
  }

  /** A digest of events that depends on everything but the hash field itself. */
  type Digest = d: Event -> Bytes | forall e: Event, h: Bytes :: d(e.(hash := h)) == d(e) witness (e: Event) => []

  /** hashEvent, for any hash function on bytes. */
  function HashEvent(hash: Hash): (d: Digest)
    ensures forall e: Event :: d(e) == hash(Encoding(e))
  {
    var d := (e: Event) => hash(Encoding(e));
    assert forall e: Event, h: Bytes :: d(e.(hash := h)) == d(e) by {
      forall e: Event, h: Bytes ensures d(e.(hash := h)) == d(e) {
        assert Encoding(e.(hash := h)) == Encoding(e);
        assert d(e.(hash := h)) == hash(Encoding(e.(hash := h)));
      }
    }
    d
  }

  /** newEvent */
  function NewEvent(runId: Bytes, sequence: nat, kind: Bytes, at: int, payload: Bytes, previousHash: Bytes,
                    digest: Digest): Event {
    var e := Event(runId, sequence, kind, at, payload, previousHash, []);
    e.(hash := digest(e))
  }

  /** The stored events of a run: numbered from one, each linked to the one before and hashed. */
  predicate Chain(runId: Bytes, events: seq<Event>, digest: Digest) {
    forall i | 0 <= i < |events| :: Linked(runId, events[i], i, LastHash(events[..i]), digest)
  }

  predicate Linked(runId: Bytes, e: Event, i: nat, previous: Bytes, digest: Digest) {
    && e.runId == runId && e.sequence == i + 1
    && e.previousHash == previous && e.hash == digest(e)
  }

  lemma AppendKeepsChain(runId: Bytes, events: seq<Event>, kind: Bytes, at: int, payload: Bytes, digest: Digest)
    requires Chain(runId, events, digest)
    ensures Chain(runId, events + [NewEvent(runId, |events| + 1, kind, at, payload, LastHash(events), digest)], digest)
  {
    var e := NewEvent(runId, |events| + 1, kind, at, payload, LastHash(events), digest);
    var longer := events + [e];
    forall i | 0 <= i < |longer|
      ensures Linked(runId, longer[i], i, LastHash(longer[..i]), digest)
    {
      assert longer[..i] == events[..i];
      if i == |events| {
        assert events[..i] == events;
        assert e == e.(hash := []).(hash := e.hash);
      }
    }
  }

  /** Two different texts with the same hash. */
  datatype Collision = Collision(a: Bytes, b: Bytes)

  predicate IsCollision(c: Collision, hash: Hash) { c.a != c.b && hash(c.a) == hash(c.b) }

  datatype Comparison = Same | Clash(collision: Collision)

  /** Walks two chains back from their ends until the encodings differ. */
  function Compare(a: seq<Event>, b: seq<Event>): Comparison {
    if a == [] || b == [] then Same
    else
      var x, y := Encoding(a[|a| - 1]), Encoding(b[|b| - 1]);
      if x != y then Clash(Collision(x, y)) else Compare(a[..|a| - 1], b[..|b| - 1])
  }

  predicate AllWithinWidths(events: seq<Event>) { forall e | e in events :: WithinWidths(e) }

  lemma ChainPrefix(runId: Bytes, events: seq<Event>, n: nat, digest: Digest)
    requires Chain(runId, events, digest) && n <= |events|
    ensures Chain(runId, events[..n], digest)
  {
    forall i | 0 <= i < n ensures Linked(runId, events[..n][i], i, LastHash(events[..n][..i]), digest) {
      assert events[..n][..i] == events[..i];
    }
  }

  lemma LastLink(runId: Bytes, events: seq<Event>, digest: Digest)
    requires Chain(runId, events, digest) && events != []
    ensures var last, front := events[|events| - 1], events[..|events| - 1];
            && Chain(runId, front, digest) && events == front + [last]
            && Linked(runId, last, |events| - 1, LastHash(front), digest)
  {
    ChainPrefix(runId, events, |events| - 1, digest);
  }

  lemma LastHashIsHash(runId: Bytes, events: seq<Event>, hash: Hash)
    requires Chain(runId, events, HashEvent(hash)) && events != []
    ensures LastHash(events) == hash(Encoding(events[|events| - 1]))
  {
    LastLink(runId, events, HashEvent(hash));
  }

  /** Equal last events have equal last hashes before them. */
  lemma SameLinkBefore(runA: Bytes, a: seq<Event>, runB: Bytes, b: seq<Event>, digest: Digest)
    requires Chain(runA, a, digest) && Chain(runB, b, digest) && a != [] && b != []
    requires a[|a| - 1] == b[|b| - 1]
    ensures var front, back := a[..|a| - 1], b[..|b| - 1];
            && Chain(runA, front, digest) && Chain(runB, back, digest) && |a| == |b| && runA == runB
            && LastHash(front) == LastHash(back) && (front == back ==> a == b)
  {
    LastLink(runA, a, digest);
    LastLink(runB, b, digest);
  }

  /** The last hash binds the whole chain: two non-empty chains with the same last hash are the same
      chain, or the comparison exhibits a hash collision. */
  lemma {:induction false} ChainBinding(runA: Bytes, a: seq<Event>, runB: Bytes, b: seq<Event>, hash: Hash)
    requires Chain(runA, a, HashEvent(hash)) && Chain(runB, b, HashEvent(hash))
    requires AllWithinWidths(a) && AllWithinWidths(b)
    requires a != [] && b != [] && LastHash(a) == LastHash(b)
    ensures match Compare(a, b) case Same => a == b && runA == runB case Clash(c) => IsCollision(c, hash)
    decreases |a|
  {
    LastHashIsHash(runA, a, hash);
    LastHashIsHash(runB, b, hash);
    if Encoding(a[|a| - 1]) == Encoding(b[|b| - 1]) {
      SameLastEvent(a, b);
      SameLinkBefore(runA, a, runB, b, HashEvent(hash));
      var front, back := a[..|a| - 1], b[..|b| - 1];
      if front != [] {
        ChainBinding(runA, front, runB, back, hash);
      }
    }
  }

  lemma SameLastEvent(a: seq<Event>, b: seq<Event>)
    requires a != [] && b != [] && AllWithinWidths(a) && AllWithinWidths(b) && LastHash(a) == LastHash(b)
    requires Encoding(a[|a| - 1]) == Encoding(b[|b| - 1])
    ensures a[|a| - 1] == b[|b| - 1]
  {
    EncodingInjective(a[|a| - 1], b[|b| - 1]);
  }

  /** Changing, dropping or adding anything earlier while keeping the last hash needs a collision. */
  lemma TamperingNeedsCollision(runId: Bytes, original: seq<Event>, altered: seq<Event>, hash: Hash)
    requires Chain(runId, original, HashEvent(hash)) && Chain(runId, altered, HashEvent(hash))
    requires AllWithinWidths(original) && AllWithinWidths(altered)
    requires original != [] && altered != [] && original != altered && LastHash(original) == LastHash(altered)
    ensures exists c: Collision :: IsCollision(c, hash)
  {
    ChainBinding(runId, original, runId, altered, hash);
    assert IsCollision(Compare(original, altered).collision, hash);
  }

  // ---------------------------------------------------------------- the store

  datatype Run = Run(id: Bytes, state: RunState, details: Bytes)

  datatype StoreError = EmptyRunId | EmptyEventType | ContextDone | RunAlreadyExists | RunNotFound | RunStateChanged
  datatype Result<T> = Ok(value: T) | Err(error: StoreError)

  class MemoryStore {
    /** hashEvent */
    const digest: Digest
    var runs: map<Bytes, Run>
    var events: map<Bytes, seq<Event>>

    ghost predicate Valid()
      reads this
    {
      && events.Keys <= runs.Keys
      && (forall id | id in runs :: runs[id].id == id)
      && (forall id | id in events :: Chain(id, events[id], digest))
    }

    /** The stored events of a run; a run created without one has none. */
    function EventsOf(id: Bytes): seq<Event>
      reads this
    {
      if id in events then events[id] else []
    }

    constructor (digest: Digest)
      ensures Valid() && runs == map[] && events == map[] && this.digest == digest
    {
      this.digest := digest;
      runs, events := map[], map[];
    }

    /** validateEvent and checkContext, in the order of every method. */
    static function Admission(id: Bytes, kind: Bytes, done: bool): Result<()> {
      if id == [] then Err(EmptyRunId)
      else if kind == [] then Err(EmptyEventType)
      else if done then Err(ContextDone)
      else Ok(())
    }

    method AppendLocked(id: Bytes, kind: Bytes, payload: Bytes, now: int) returns (e: Event)
      requires Valid() && id in runs
      modifies this`events
      ensures Valid()
      ensures e == NewEvent(id, |old(EventsOf(id))| + 1, kind, now, payload, LastHash(old(EventsOf(id))), digest)
      ensures events == old(events)[id := old(EventsOf(id)) + [e]]
    {
      var stored := EventsOf(id);
      e := NewEvent(id, |stored| + 1, kind, now, payload, LastHash(stored), digest);
      AppendKeepsChain(id, stored, kind, now, payload, digest);
      events := events[id := stored + [e]];
    }

    method CreateRun(run: Run, done: bool) returns (r: Result<()>)
      requires Valid()
      modifies this
      ensures Valid() && events == old(events)
      ensures r == (if run.id == [] then Err(EmptyRunId) else if done then Err(ContextDone)
                    else if run.id in old(runs) then Err(RunAlreadyExists) else Ok(()))
      ensures runs == if r.Ok? then old(runs)[run.id := run] else old(runs)
    {
      if run.id == [] {
        return Err(EmptyRunId);
      }
      if done {
        return Err(ContextDone);
      }
      if run.id in runs {
        return Err(RunAlreadyExists);
      }
      runs := runs[run.id := run];
      return Ok(());
    }

    method CreateRunWithEvent(run: Run, kind: Bytes, payload: Bytes, now: int, done: bool) returns (r: Result<Event>)
      requires Valid()
      modifies this
      ensures Valid()
      ensures r.Err? ==>
                && runs == old(runs) && events == old(events)
                && r.error == (match Admission(run.id, kind, done) case Err(e) => e case Ok(_) => RunAlreadyExists)
      ensures r.Ok? <==> Admission(run.id, kind, done).Ok? && run.id !in old(runs)
      ensures r.Ok? ==>
                && r.value == NewEvent(run.id, 1, kind, now, payload, [], digest)
                && r.value.runId == run.id && r.value.sequence == 1
                && r.value.kind == kind && r.value.payload == payload && r.value.at == now
                && runs == old(runs)[run.id := run] && events == old(events)[run.id := [r.value]]
    {
      var admitted := Admission(run.id, kind, done);
      if admitted.Err? {
        return Err(admitted.error);
      }
      if run.id in runs {
        return Err(RunAlreadyExists);
      }
      runs := runs[run.id := run];
      assert EventsOf(run.id) == [];
      var e := AppendLocked(run.id, kind, payload, now);
      assert [] + [e] == [e];
      return Ok(e);
    }

    /** UpdateRunIfState: the snapshot changes and one event is appended, together, exactly when the stored
        state is the expected one. */
    method UpdateRunIfState(run: Run, expected: RunState, kind: Bytes, payload: Bytes, now: int, done: bool)
      returns (r: Result<Event>)
      requires Valid()
      modifies this
      ensures Valid()
      ensures r.Ok? <==> Admission(run.id, kind, done).Ok? && run.id in old(runs) && old(runs)[run.id].state == expected
      ensures r.Err? ==>
                && runs == old(runs) && events == old(events)
                && r.error == (match Admission(run.id, kind, done)
                               case Err(e) => e
                               case Ok(_) => if run.id !in old(runs) then RunNotFound else RunStateChanged)
      ensures r.Ok? ==>
                && runs == old(runs)[run.id := run]
                && EventsOf(run.id) == old(EventsOf(run.id)) + [r.value]
                && (forall id | id != run.id :: EventsOf(id) == old(EventsOf(id)))
                && r.value == NewEvent(run.id, |old(EventsOf(run.id))| + 1, kind, now, payload, LastHash(old(EventsOf(run.id))), digest)
                && r.value.runId == run.id && r.value.sequence == |EventsOf(run.id)|
                && r.value.kind == kind && r.value.payload == payload && r.value.at == now
    {
      var admitted := Admission(run.id, kind, done);
      if admitted.Err? {
        return Err(admitted.error);
      }
      if run.id !in runs {
        return Err(RunNotFound);
      }
      if runs[run.id].state != expected {
        return Err(RunStateChanged);
      }
      var e := AppendLocked(run.id, kind, payload, now);
      runs := runs[run.id := run];
      return Ok(e);
    }

    method AppendEvent(id: Bytes, kind: Bytes, payload: Bytes, now: int, done: bool) returns (r: Result<Event>)
      requires Valid()
      modifies this`events
      ensures Valid()
      ensures r.Ok? <==> Admission(id, kind, done).Ok? && id in runs
      ensures r.Err? ==>
                && events == old(events)
                && r.error == (match Admission(id, kind, done) case Err(e) => e case Ok(_) => RunNotFound)
      ensures r.Ok? ==>
                && EventsOf(id) == old(EventsOf(id)) + [r.value]
                && (forall other | other != id :: EventsOf(other) == old(EventsOf(other)))
                && r.value == NewEvent(id, |old(EventsOf(id))| + 1, kind, now, payload, LastHash(old(EventsOf(id))), digest)
                && r.value.runId == id && r.value.sequence == |EventsOf(id)|
                && r.value.kind == kind && r.value.payload == payload && r.value.at == now
    {
      var admitted := Admission(id, kind, done);
      if admitted.Err? {
        return Err(admitted.error);
      }
      if id !in runs {
        return Err(RunNotFound);
      }
      var e := AppendLocked(id, kind, payload, now);
      return Ok(e);
    }

    /** ListEvents: filtering by sequence gives exactly the end of the chain from that sequence on. */
    method ListEvents(id: Bytes, fromSequence: nat, done: bool) returns (r: Result<seq<Event>>)
      requires Valid()
      ensures r == (if id == [] then Err(EmptyRunId) else if done then Err(ContextDone)
                    else if id !in runs then Err(RunNotFound)
                    else Ok(From(EventsOf(id), fromSequence)))
    {
      if id == [] {
        return Err(EmptyRunId);
      }
      if done {
        return Err(ContextDone);
      }
      if id !in runs {
        return Err(RunNotFound);
      }
      var stored := EventsOf(id);
      var listed: seq<Event> := [];
      for i := 0 to |stored|
        invariant listed == From(stored[..i], fromSequence)
      {
        assert stored[i].sequence == i + 1;
        FromOneMore(stored, i, fromSequence);
        if stored[i].sequence >= fromSequence {
          listed := listed + [stored[i]];
        }
      }
      assert stored[..|stored|] == stored;
      return Ok(listed);
    }
  }

  lemma FromOneMore(stored: seq<Event>, i: nat, sequence: nat)
    requires i < |stored|
    ensures From(stored[..i + 1], sequence) == From(stored[..i], sequence) + (if i + 1 >= sequence then [stored[i]] else [])
  {
  }

  /** The events numbered "sequence" and above. */
  function From(events: seq<Event>, sequence: nat): seq<Event> {
    if sequence == 0 then events else if sequence - 1 <= |events| then events[sequence - 1..] else []
  }
}
