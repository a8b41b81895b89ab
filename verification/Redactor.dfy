/** The secret redactor of internal/feedback/redact.go: literal replacement of registered secrets, then
    regular-expression passes, which are modelled as replacing arbitrary disjoint spans. */
module Redactor {
  import opened Text
  import opened JsonString
  import Utf8

  const MARKER := "[REDACTED]"

  // ---------------------------------------------------------------- touching the marker

  /** "s", laid over the marker at this offset, agrees with it wherever the two overlap. */
  predicate AlignedAt(s: string, offset: int) {
    forall x: nat | x < |MARKER| && offset <= x < offset + |s| :: MARKER[x] == s[x - offset]
  }

  /** "s" can overlap the marker: a piece of it could be found again once the marker is in the text. */
  predicate Touches(s: string) {
    exists offset: int | -|s| < offset < |MARKER| :: AlignedAt(s, offset)
  }

  /** A secret with no bracket in it that is no part of the word REDACTED does not touch the marker. */
  lemma PlainSecretsDoNotTouch(s: string)
    requires s != "" && '[' !in s && ']' !in s && !Contains("REDACTED", s)
    ensures !Touches(s)
  {
    if Touches(s) { WhatTouches(s); }
  }

  lemma WhatTouches(s: string)
    requires s != "" && Touches(s)
    ensures '[' in s || ']' in s || Contains("REDACTED", s)
  {
    var offset: int :| -|s| < offset < |MARKER| && AlignedAt(s, offset);
    if offset <= 0 {
      assert MARKER[0] == s[0 - offset] == '[';
    } else if offset + |s| >= |MARKER| {
      assert MARKER[|MARKER| - 1] == s[|MARKER| - 1 - offset] == ']';
    } else {
      InsideMarker(s, offset);
    }
  }

  lemma InsideMarker(s: string, offset: nat)
    requires 0 < offset && offset + |s| < |MARKER| && AlignedAt(s, offset)
    ensures Contains("REDACTED", s)
  {
    forall i | 0 <= i < |s| ensures s[i] == "REDACTED"[offset - 1 + i] {
      assert MARKER[offset + i] == s[offset + i - offset];
      assert MARKER[1..9] == "REDACTED" && MARKER[offset + i] == MARKER[1..9][offset + i - 1];
    }
    assert "REDACTED"[offset - 1..offset - 1 + |s|] == s;
    assert OccursAt(s, "REDACTED", offset - 1);
  }

  // ---------------------------------------------------------------- replacing one span

  function Cut(t: string, i: nat, j: nat): string
    requires i <= j <= |t|
  {
    t[..i] + MARKER + t[j..]
  }

  lemma PartOccurs(s: string, t: string, i: nat, j: nat)
    requires i <= j <= |t| && Contains(t[i..j], s)
    ensures Contains(t, s)
  {
    var at :| 0 <= at <= |t[i..j]| && OccursAt(s, t[i..j], at);
    forall k | 0 <= k < |s| ensures t[i + at + k] == s[k] { OccursElement(s, t[i..j], at, k); }
    FoundAt(t, s, i + at);
  }

  /** An occurrence in a text around the marker is in what stands before, in what stands after, or touches
      the marker. */
  lemma AroundMarker(s: string, before: string, after: string)
    requires s != "" && Contains(before + MARKER + after, s)
    ensures Contains(before, s) || Contains(after, s) || Touches(s)
  {
    var u := before + MARKER + after;
    var at :| 0 <= at <= |u| && OccursAt(s, u, at);
    if at + |s| <= |before| {
      forall k | 0 <= k < |s| ensures before[at + k] == s[k] { OccursElement(s, u, at, k); }
      FoundAt(before, s, at);
    } else if |before| + |MARKER| <= at {
      var back := at - |before| - |MARKER|;
      forall k | 0 <= k < |s| ensures after[back + k] == s[k] { OccursElement(s, u, at, k); }
      FoundAt(after, s, back);
    } else {
      OccurrenceOverMarker(s, before, after, at);
    }
  }

  lemma OccursElement(part: string, s: string, at: nat, k: nat)
    requires OccursAt(part, s, at) && k < |part|
    ensures s[at + k] == part[k]
  {
    assert s[at..at + |part|][k] == s[at + k];
  }

  /** Replacing any span by the marker makes no new occurrence of a text that does not touch it. */
  lemma CutKeepsAbsence(s: string, t: string, i: nat, j: nat)
    requires s != "" && !Touches(s) && i <= j <= |t| && !Contains(t, s)
    ensures !Contains(Cut(t, i, j), s)
  {
    if Contains(Cut(t, i, j), s) {
      AroundMarker(s, t[..i], t[j..]);
      WhereAround(s, t, i, j);
    }
  }

  lemma WhereAround(s: string, t: string, i: nat, j: nat)
    requires i <= j <= |t| && (Contains(t[..i], s) || Contains(t[j..], s))
    ensures Contains(t, s)
  {
    assert t[0..i] == t[..i] && t[j..|t|] == t[j..];
    if Contains(t[..i], s) {
      PartOccurs(s, t, 0, i);
    } else {
      PartOccurs(s, t, j, |t|);
    }
  }

  lemma OccurrenceOverMarker(s: string, before: string, after: string, at: nat)
    requires OccursAt(s, before + MARKER + after, at)
    requires |before| < at + |s| && at < |before| + |MARKER|
    ensures Touches(s)
  {
    var u, offset := before + MARKER + after, at - |before|;
    forall x: nat | x < |MARKER| && offset <= x < offset + |s| ensures MARKER[x] == s[x - offset] {
      assert u[|before| + x] == MARKER[x];
      assert u[at..at + |s|][x - offset] == u[at + (x - offset)];
    }
    assert AlignedAt(s, offset);
  }

  /** The condition is exact: a text is safe under every replacement of a span, of any text that lacks
      it, if and only if it does not touch the marker. */
  lemma SafeUnderCutsIffNoTouch(s: string)
    requires s != ""
    ensures (forall t: string, i: nat, j: nat | i <= j <= |t| && !Contains(t, s) :: !Contains(Cut(t, i, j), s))
            <==> !Touches(s)
  {
    if !Touches(s) {
      forall t: string, i: nat, j: nat | i <= j <= |t| && !Contains(t, s) ensures !Contains(Cut(t, i, j), s) {
        CutKeepsAbsence(s, t, i, j);
      }
    } else {
      var t, i := TouchingReappears(s);
    }
  }

  /** What of "s" stands before and after a marker that it overlaps at this offset. */
  function Before(s: string, offset: int): string
    requires -|s| < offset < |MARKER|
  {
    if offset < 0 then s[..-offset] else ""
  }

  function Behind(s: string, offset: int): string
    requires -|s| < offset < |MARKER|
  {
    if offset + |s| > |MARKER| then s[|MARKER| - offset..] else ""
  }

  lemma FoundAt(t: string, s: string, at: nat)
    requires at + |s| <= |t| && forall k | 0 <= k < |s| :: t[at + k] == s[k]
    ensures Contains(t, s)
  {
    assert t[at..at + |s|] == s;
    assert OccursAt(s, t, at);
  }

  lemma AlignedInside(s: string, offset: int, x: nat)
    requires AlignedAt(s, offset) && x < |MARKER| && offset <= x < offset + |s|
    ensures MARKER[x] == s[x - offset]
  {
  }

  lemma SpelledOut(s: string, offset: int)
    requires -|s| < offset < |MARKER| && AlignedAt(s, offset)
    ensures Contains(Before(s, offset) + MARKER + Behind(s, offset), s)
  {
    var u := Before(s, offset) + MARKER + Behind(s, offset);
    var at := if offset < 0 then 0 else offset;
    forall k | 0 <= k < |s| ensures u[at + k] == s[k] {
      if 0 <= offset + k < |MARKER| { AlignedInside(s, offset, offset + k); }
    }
    FoundAt(u, s, at);
  }

  /** A text that touches the marker appears when the marker is put into a shorter one. */
  lemma TouchingReappears(s: string) returns (t: string, i: nat)
    requires s != "" && Touches(s)
    ensures i <= |t| && !Contains(t, s) && Contains(Cut(t, i, i), s)
  {
    var offset: int :| -|s| < offset < |MARKER| && AlignedAt(s, offset);
    t, i := Before(s, offset) + Behind(s, offset), |Before(s, offset)|;
    assert Cut(t, i, i) == Before(s, offset) + MARKER + Behind(s, offset);
    SpelledOut(s, offset);
  }

  // ---------------------------------------------------------------- strings.ReplaceAll

  /** strings.ReplaceAll(t, secret, MARKER): leftmost occurrences, not overlapping. */
  function ReplaceAll(t: string, secret: string): string
    requires secret != ""
  {
    if t == "" then ""
    else if HasPrefix(t, secret) then MARKER + ReplaceAll(t[|secret|..], secret)
    else [t[0]] + ReplaceAll(t[1..], secret)
  }

  lemma ReplaceHead(secret: string, rest: string)
    requires secret != ""
    ensures ReplaceAll(secret + rest, secret) == MARKER + ReplaceAll(rest, secret)
  {
    var t := secret + rest;
    assert t[..|secret|] == secret && t[|secret|..] == rest;
  }

  lemma KeepHead(c: char, rest: string, secret: string)
    requires secret != "" && !HasPrefix([c] + rest, secret)
    ensures ReplaceAll([c] + rest, secret) == [c] + ReplaceAll(rest, secret)
  {
    assert ([c] + rest)[1..] == rest;
  }

  lemma ConsTake<T>(x: T, s: seq<T>, n: nat)
    requires n <= |s|
    ensures ([x] + s)[..n + 1] == [x] + s[..n]
  {
  }

  lemma ConsOccursAt(c: char, part: string, s: string, at: nat)
    requires OccursAt(part, s, at)
    ensures OccursAt(part, [c] + s, at + 1)
  {
    assert ([c] + s)[at + 1..at + 1 + |part|] == s[at..at + |part|];
  }

  lemma OccursFirst(part: string, rest: string)
    ensures OccursAt(part, part + rest, 0)
  {
    assert (part + rest)[0..|part|] == part;
  }

  /** The first n characters of the result are those of the text, up to a marker among them. */
  lemma {:induction false} UntilFirstMarker(t: string, secret: string, n: nat) returns (e: nat)
    requires secret != "" && n <= |ReplaceAll(t, secret)|
    ensures e <= n && e <= |t| && ReplaceAll(t, secret)[..e] == t[..e]
    ensures e == n || OccursAt(MARKER, ReplaceAll(t, secret), e)
  {
    if n == 0 {
      e := 0;
    } else if HasPrefix(t, secret) {
      e := 0;
      OccursFirst(MARKER, ReplaceAll(t[|secret|..], secret));
    } else {
      var c, rest := t[0], t[1..];
      var tail := ReplaceAll(rest, secret);
      assert t == [c] + rest && ReplaceAll(t, secret) == [c] + tail;
      var before := UntilFirstMarker(rest, secret, n - 1);
      e := before + 1;
      ConsTake(c, tail, before);
      ConsTake(c, rest, before);
      if before < n - 1 { ConsOccursAt(c, MARKER, tail, before); }
    }
  }

  /** An occurrence at the very start of the result is one at the start of the text, or touches. */
  lemma OccurrenceAtStart(s: string, t: string, secret: string)
    requires s != "" && secret != "" && HasPrefix(ReplaceAll(t, secret), s)
    ensures HasPrefix(t, s) || Touches(s)
  {
    var r := ReplaceAll(t, secret);
    var e := UntilFirstMarker(t, secret, |s|);
    if e < |s| {
      assert r == r[..e] + MARKER + r[e + |MARKER|..];
      assert OccursAt(s, r, 0);
      OccurrenceOverMarker(s, r[..e], r[e + |MARKER|..], 0);
    }
  }

  lemma OccursInTail(s: string, first: char, tail: string)
    requires Contains([first] + tail, s) && !HasPrefix([first] + tail, s)
    ensures Contains(tail, s)
  {
    var u := [first] + tail;
    var at :| 0 <= at <= |u| && OccursAt(s, u, at);
    assert at > 0;
    assert tail[at - 1..at - 1 + |s|] == u[at..at + |s|];
    assert OccursAt(s, tail, at - 1);
  }

  /** Whatever occurs after a replacement touches the marker or was there before, and is not the secret. */
  lemma {:induction false} NothingComesBack(s: string, t: string, secret: string)
    requires s != "" && secret != "" && Contains(ReplaceAll(t, secret), s)
    ensures Touches(s) || (s != secret && Contains(t, s))
    decreases |t|
  {
    if HasPrefix(t, secret) {
      var rest := t[|secret|..];
      var tail := ReplaceAll(rest, secret);
      assert "" + MARKER + tail == MARKER + tail;
      AroundMarker(s, "", tail);
      if Contains(tail, s) {
        NothingComesBack(s, rest, secret);
        if Contains(rest, s) { WhereAround(s, t, |secret|, |secret|); }
      }
    } else if t != "" {
      var tail := ReplaceAll(t[1..], secret);
      if HasPrefix([t[0]] + tail, s) {
        OccurrenceAtStart(s, t, secret);
        assert HasPrefix(t, s) ==> OccursAt(s, t, 0);
      } else {
        OccursInTail(s, t[0], tail);
        NothingComesBack(s, t[1..], secret);
        if Contains(t[1..], s) { WhereAround(s, t, 1, 1); }
      }
    }
  }

  /** The key step: replacing one secret removes it, and brings back nothing that was already gone. */
  lemma ReplaceAllRedacts(s: string, t: string, secret: string)
    requires s != "" && secret != "" && !Touches(s)
    requires s == secret || !Contains(t, s)
    ensures !Contains(ReplaceAll(t, secret), s)
  {
    if Contains(ReplaceAll(t, secret), s) { NothingComesBack(s, t, secret); }
  }

  // ---------------------------------------------------------------- one regular-expression pass

  datatype Span = Span(from: nat, to: nat)

  /** The spans a pass replaces: in order, disjoint, inside the text. Pattern 0 keeps the key and the
      equals sign and replaces the value, so its span is the value. */
  predicate Spans(spans: seq<Span>, start: nat, length: nat) {
    if spans == [] then start <= length
    else start <= spans[0].from <= spans[0].to <= length && Spans(spans[1..], spans[0].to, length)
  }

  /** A regular expression, as the spans it would replace in each text. */
  type Pattern = find: string -> seq<Span> | forall t: string :: Spans(find(t), 0, |t|) witness (t: string) => []

  function ReplaceSpans(t: string, spans: seq<Span>, start: nat): string
    requires Spans(spans, start, |t|)
  {
    if spans == [] then t[start..]
    else t[start..spans[0].from] + MARKER + ReplaceSpans(t, spans[1..], spans[0].to)
  }

  /** The same for a whole pass over disjoint spans. */
  lemma {:induction false} NothingComesBackInSpans(s: string, t: string, spans: seq<Span>, start: nat)
    requires s != "" && Spans(spans, start, |t|) && start <= |t| && Contains(ReplaceSpans(t, spans, start), s)
    ensures Touches(s) || Contains(t[start..], s)
  {
    if spans != [] {
      var i, j := spans[0].from, spans[0].to;
      SpansWithin(spans[1..], j, |t|);
      AroundMarker(s, t[start..i], ReplaceSpans(t, spans[1..], j));
      if Contains(ReplaceSpans(t, spans[1..], j), s) { NothingComesBackInSpans(s, t, spans[1..], j); }
      assert t[start..][..i - start] == t[start..i] && t[start..][j - start..] == t[j..];
      if Contains(t[start..i], s) || Contains(t[j..], s) { WhereAround(s, t[start..], i - start, j - start); }
    }
  }

  /** The same one span at a time, from the last to the first. */
  function CutAll(t: string, spans: seq<Span>): string
    requires Spans(spans, 0, |t|)
    decreases |spans|
  {
    if spans == [] then t
    else
      var n := |spans| - 1;
      SpansButLast(spans, 0, |t|);
      CutAll(Cut(t, spans[n].from, spans[n].to), spans[..n])
  }

  lemma {:induction false} SpansButLast(spans: seq<Span>, start: nat, length: nat)
    requires spans != [] && Spans(spans, start, length)
    ensures var n := |spans| - 1;
            && start <= spans[n].from <= spans[n].to <= length
            && forall end: nat | end >= spans[n].from :: Spans(spans[..n], start, end)
  {
    var n := |spans| - 1;
    if n > 0 {
      SpansButLast(spans[1..], spans[0].to, length);
      assert spans[1..][..n - 1] == spans[..n][1..];
      assert spans[..n][0] == spans[0];
    } else {
      assert spans[..n] == [];
    }
  }

  lemma SamePrefix(t: string, i: nat, j: nat, from: nat, end: nat)
    requires from <= end <= i <= j <= |t|
    ensures Cut(t, i, j)[from..end] == t[from..end]
  {
  }

  lemma {:induction false} LastSpan(t: string, spans: seq<Span>, start: nat)
    requires spans != [] && Spans(spans, start, |t|)
    ensures var last := spans[|spans| - 1];
            && start <= last.from <= last.to <= |t|
            && Spans(spans[..|spans| - 1], start, |Cut(t, last.from, last.to)|)
            && ReplaceSpans(t, spans, start) == ReplaceSpans(Cut(t, last.from, last.to), spans[..|spans| - 1], start)
  {
    var n := |spans| - 1;
    var last := spans[n];
    SpansButLast(spans, start, |t|);
    var cut := Cut(t, last.from, last.to);
    if n > 0 {
      LastSpan(t, spans[1..], spans[0].to);
      assert spans[1..][..n - 1] == spans[..n][1..] && spans[..n][0] == spans[0];
      SpansButLast(spans[1..], spans[0].to, |t|);
      SamePrefix(t, last.from, last.to, start, spans[0].from);
    } else {
      assert spans[..n] == [] && spans[1..] == [];
      assert cut[start..] == t[start..last.from] + MARKER + t[last.to..];
    }
  }

  /** A pass puts the marker in the place of each of its spans and leaves the rest as it was. */
  lemma {:induction false} PassCutsEachSpan(t: string, spans: seq<Span>)
    requires Spans(spans, 0, |t|)
    ensures ReplaceSpans(t, spans, 0) == CutAll(t, spans)
    decreases |spans|
  {
    if spans != [] {
      var n := |spans| - 1;
      SpansButLast(spans, 0, |t|);
      LastSpan(t, spans, 0);
      PassCutsEachSpan(Cut(t, spans[n].from, spans[n].to), spans[..n]);
    }
  }

  lemma ReplaceSpansKeepsAbsence(s: string, t: string, spans: seq<Span>, start: nat)
    requires s != "" && !Touches(s) && Spans(spans, start, |t|) && start <= |t|
    requires !Contains(t[start..], s)
    ensures !Contains(ReplaceSpans(t, spans, start), s)
  {
    if Contains(ReplaceSpans(t, spans, start), s) { NothingComesBackInSpans(s, t, spans, start); }
  }

  lemma SpansWithin(spans: seq<Span>, start: nat, length: nat)
    requires Spans(spans, start, length)
    ensures start <= length
  {
  }

  /** What Redact computes: all secrets in registry order, then all patterns. */
  function ReplaceSecrets(t: string, secrets: seq<string>): string
    requires forall k | 0 <= k < |secrets| :: secrets[k] != ""
    decreases |secrets|
  {
    if secrets == [] then t else ReplaceSecrets(ReplaceAll(t, secrets[0]), secrets[1..])
  }

  function ReplacePatterns(t: string, patterns: seq<Pattern>): string
    decreases |patterns|
  {
    if patterns == [] then t else ReplacePatterns(ReplaceSpans(t, patterns[0](t), 0), patterns[1..])
  }

  /** Every secret has its turn, in order. */
  lemma {:induction false} SecretsInTurn(t: string, secrets: seq<string>, last: string)
    requires last != "" && forall k | 0 <= k < |secrets| :: secrets[k] != ""
    ensures ReplaceSecrets(t, []) == t
    ensures ReplaceSecrets(t, secrets + [last]) == ReplaceAll(ReplaceSecrets(t, secrets), last)
    decreases |secrets|
  {
    if secrets == [] {
      assert [] + [last] == [last] && [last][1..] == [];
    } else {
      assert (secrets + [last])[1..] == secrets[1..] + [last];
      SecretsInTurn(ReplaceAll(t, secrets[0]), secrets[1..], last);
    }
  }

  /** Every pattern has its turn, in order, on what is left of the text then. */
  lemma {:induction false} PatternsInTurn(t: string, patterns: seq<Pattern>, last: Pattern)
    ensures ReplacePatterns(t, []) == t
    ensures var before := ReplacePatterns(t, patterns);
            ReplacePatterns(t, patterns + [last]) == ReplaceSpans(before, last(before), 0)
    decreases |patterns|
  {
    hide ReplaceSpans;
    if patterns == [] {
      assert [] + [last] == [last] && [last][1..] == [];
    } else {
      assert (patterns + [last])[1..] == patterns[1..] + [last];
      PatternsInTurn(ReplaceSpans(t, patterns[0](t), 0), patterns[1..], last);
    }
  }

  // ---------------------------------------------------------------- the registry

  /** The length of a text in UTF-8, which is what the registry is sorted by. */
  function ByteLength(s: string): nat {
    if s == "" then 0 else CharSize(s[0]) + ByteLength(s[1..])
  }

  function CharSize(c: char): nat {
    if c as int < 0x80 then 1 else if c as int < 0x800 then 2 else if c as int < 0x1_0000 then 3 else 4
  }

  /** The text as scalar values. */
  function Scalars(s: string): (r: seq<Utf8.Scalar>)
    ensures |r| == |s| && forall i | 0 <= i < |s| :: r[i] == s[i] as nat
  {
    if s == "" then [] else [s[0] as nat] + Scalars(s[1..])
  }

  lemma {:induction false} ByteLengthIsOfBytes(s: string)
    ensures ByteLength(s) == |Utf8.EncodeAll(Scalars(s))|
  {
    if s != "" {
      ByteLengthIsOfBytes(s[1..]);
      assert Scalars(s)[1..] == Scalars(s[1..]);
    }
  }

  predicate LongestFirst(secrets: seq<string>) {
    forall i, j | 0 <= i < j < |secrets| :: ByteLength(secrets[i]) >= ByteLength(secrets[j])
  }

  /** What Register keeps: no empty secret and no repetition, the longest first. */
  predicate IsRegistry(secrets: seq<string>) {
    && LongestFirst(secrets)
    && (forall k | 0 <= k < |secrets| :: secrets[k] != "")
    && (forall i, j | 0 <= i < j < |secrets| :: secrets[i] != secrets[j])
  }

  predicate IsFormOf(s: string, registered: seq<string>) {
    exists r | r in registered :: s == r || s == Escape(r)
  }

  /** What registering these secrets adds up to: they and their escaped forms, sorted. Secrets of the same
      length may stand in any order. */
  ghost predicate IsRegistryOf(secrets: seq<string>, registered: seq<string>) {
    && IsRegistry(secrets)
    && forall s :: s in secrets <==> s != "" && IsFormOf(s, registered)
  }

  /** sort.Slice by decreasing length, as insertion. */
  function InsertByLength(s: string, secrets: seq<string>): (r: seq<string>)
    requires LongestFirst(secrets)
    ensures |r| > 0 && (ByteLength(r[0]) == ByteLength(s) || (secrets != [] && ByteLength(r[0]) == ByteLength(secrets[0])))
    ensures LongestFirst(r)
  {
    if secrets == [] then [s]
    else if ByteLength(s) >= ByteLength(secrets[0]) then [s] + secrets
    else [secrets[0]] + InsertByLength(s, secrets[1..])
  }

  lemma {:induction false} InsertKeepsAll(s: string, secrets: seq<string>)
    requires LongestFirst(secrets)
    ensures multiset(InsertByLength(s, secrets)) == multiset(secrets) + multiset{s}
  {
    if secrets != [] && ByteLength(s) < ByteLength(secrets[0]) {
      InsertKeepsAll(s, secrets[1..]);
      assert secrets == [secrets[0]] + secrets[1..];
    }
  }

  class Redactor {
    var secrets: seq<string>
    const patterns: seq<Pattern>
    ghost var registered: seq<string>

    ghost predicate Valid()
      reads this
    {
      IsRegistryOf(secrets, registered)
    }

    constructor (patterns: seq<Pattern>)
      ensures Valid() && secrets == [] && registered == [] && this.patterns == patterns
    {
      secrets, registered := [], [];
      this.patterns := patterns;
    }

    method Add(secret: string)
      requires IsRegistry(secrets)
      modifies this`secrets
      ensures IsRegistry(secrets)
      ensures forall s :: s in secrets <==> s in old(secrets) || (s == secret && s != "")
    {
      if secret == "" || secret in secrets {
        return;
      }
      ghost var before := secrets;
      InsertKeepsAll(secret, secrets);
      secrets := InsertByLength(secret, secrets);
      InsertIsSet(before, secret, secrets);
      forall k | 0 <= k < |secrets| ensures secrets[k] != "" {
        assert secrets[k] in secrets;
      }
    }

    /** Register: the secret and its JSON-escaped form join the registry, longest first. */
    method Register(secret: string)
      requires Valid()
      modifies this
      ensures Valid() && registered == old(registered) + [secret]
    {
      ghost var before := registered;
      registered := registered + [secret];
      RegisteredOneMore(before, secret);
      if secret == "" {
        return;
      }
      Add(secret);
      Add(Escape(secret));
    }

    /** Redact: no registered secret that does not touch the marker occurs in the result, whatever spans
        the regular expressions replace and whatever else is registered. */
    method Redact(text: string) returns (r: string)
      requires Valid()
      ensures r == ReplacePatterns(ReplaceSecrets(text, secrets), patterns)
      ensures forall s | s in secrets && !Touches(s) :: !Contains(r, s)
    {
      r := text;
      for k := 0 to |secrets|
        invariant ReplaceSecrets(text, secrets) == ReplaceSecrets(r, secrets[k..])
        invariant forall s | s in secrets[..k] && !Touches(s) :: !Contains(r, s)
      {
        assert secrets[k] in secrets;
        forall s | s in secrets[..k + 1] && !Touches(s) ensures !Contains(ReplaceAll(r, secrets[k]), s) {
          assert s in secrets;
          assert s == secrets[k] || s in secrets[..k];
          ReplaceAllRedacts(s, r, secrets[k]);
        }
        r := ReplaceAll(r, secrets[k]);
        assert secrets[k..][1..] == secrets[k + 1..];
      }
      assert secrets[..|secrets|] == secrets && secrets[|secrets|..] == [];
      ghost var literal := r;
      for k := 0 to |patterns|
        invariant ReplacePatterns(literal, patterns) == ReplacePatterns(r, patterns[k..])
        invariant forall s | s in secrets && !Touches(s) :: !Contains(r, s)
      {
        assert r[0..] == r;
        forall s | s in secrets && !Touches(s) ensures !Contains(ReplaceSpans(r, patterns[k](r), 0), s) {
          ReplaceSpansKeepsAbsence(s, r, patterns[k](r), 0);
        }
        r := ReplaceSpans(r, patterns[k](r), 0);
        assert patterns[k..][1..] == patterns[k + 1..];
      }
      assert patterns[|patterns|..] == [];
    }
  }

  lemma RegisteredOneMore(registered: seq<string>, secret: string)
    ensures forall s :: IsFormOf(s, registered + [secret]) <==> IsFormOf(s, registered) || s == secret || s == Escape(secret)
  {
    forall s ensures IsFormOf(s, registered + [secret]) <==> IsFormOf(s, registered) || s == secret || s == Escape(secret) {
      if IsFormOf(s, registered) {
        var r :| r in registered && (s == r || s == Escape(r));
        assert r in registered + [secret];
      }
      if s == secret || s == Escape(secret) { assert secret in registered + [secret]; }
    }
  }

  lemma InsertIsSet(before: seq<string>, s: string, after: seq<string>)
    requires multiset(after) == multiset(before) + multiset{s}
    requires s !in before && forall i, j | 0 <= i < j < |before| :: before[i] != before[j]
    ensures forall x :: x in after <==> x in before || x == s
    ensures forall i, j | 0 <= i < j < |after| :: after[i] != after[j]
  {
    forall x ensures x in after <==> x in before || x == s {
      assert x in after <==> x in multiset(after);
      assert x in before <==> x in multiset(before);
    }
    forall i, j | 0 <= i < j < |after| ensures after[i] != after[j] {
      if after[i] == after[j] {
        TwiceInSeq(after, i, j);
        OnceInDistinct(before, after[i]);
        assert false;
      }
    }
  }

  lemma TwiceInSeq(s: seq<string>, i: nat, j: nat)
    requires i < j < |s| && s[i] == s[j]
    ensures multiset(s)[s[i]] >= 2
  {
    assert s == s[..i] + [s[i]] + s[i + 1..j] + [s[j]] + s[j + 1..];
  }

  lemma {:induction false} OnceInDistinct(s: seq<string>, x: string)
    requires forall i, j | 0 <= i < j < |s| :: s[i] != s[j]
    ensures multiset(s)[x] <= 1
  {
    if s != [] {
      assert s == [s[0]] + s[1..];
      OnceInDistinct(s[1..], x);
      if x == s[0] {
        assert x !in s[1..];
      }
    }
  }

  /** A secret that is part of the marker can never be redacted: wherever it stood, it stands again. */
  lemma PartOfMarkerSurvives(secret: string, t: string)
    requires secret != "" && Contains(MARKER, secret) && Contains(t, secret)
    ensures Contains(ReplaceAll(t, secret), secret)
  {
    var r := ReplaceAll(t, secret);
    var at := MarkerAppears(t, secret);
    var k :| 0 <= k <= |MARKER| && OccursAt(secret, MARKER, k);
    OccursWithin(secret, MARKER, r, k, at);
  }

  lemma OccursWithin(inner: string, outer: string, t: string, k: nat, at: nat)
    requires OccursAt(inner, outer, k) && OccursAt(outer, t, at)
    ensures OccursAt(inner, t, at + k)
  {
    forall i | 0 <= i < |inner| ensures t[at + k + i] == inner[i] {
      assert t[at..at + |outer|][k + i] == t[at + k + i];
      assert outer[k..k + |inner|][i] == outer[k + i];
    }
    assert t[at + k..at + k + |inner|] == inner;
  }

  lemma {:induction false} MarkerAppears(t: string, secret: string) returns (at: nat)
    requires secret != "" && Contains(t, secret)
    ensures OccursAt(MARKER, ReplaceAll(t, secret), at)
    decreases |t|
  {
    if HasPrefix(t, secret) {
      at := 0;
    } else {
      assert t == [t[0]] + t[1..];
      OccursInTail(secret, t[0], t[1..]);
      at := MarkerAppears(t[1..], secret);
      var tail := ReplaceAll(t[1..], secret);
      assert ([t[0]] + tail)[at + 1..at + 1 + |MARKER|] == tail[at..at + |MARKER|];
      at := at + 1;
    }
  }

  // ---------------------------------------------------------------- exactly which secrets are safe

  lemma OneSecret(t: string, a: string)
    requires a != ""
    ensures ReplaceSecrets(t, [a]) == ReplaceAll(t, a)
  {
    assert [a][1..] == [];
  }

  lemma TwoSecrets(t: string, a: string, b: string)
    requires a != "" && b != ""
    ensures ReplaceSecrets(t, [a, b]) == ReplaceAll(ReplaceAll(t, a), b)
  {
    assert [a, b][1..] == [b];
    OneSecret(ReplaceAll(t, a), b);
  }

  lemma {:induction false} NothingToReplace(t: string, secret: string)
    requires secret != "" && !Contains(t, secret)
    ensures ReplaceAll(t, secret) == t
  {
    if t != "" {
      assert HasPrefix(t, secret) ==> OccursAt(secret, t, 0);
      if Contains(t[1..], secret) { WhereAround(secret, t, 1, 1); }
      NothingToReplace(t[1..], secret);
    }
  }

  function Filled(d: char, n: nat): (r: string)
    ensures |r| == n && forall k | 0 <= k < n :: r[k] == d
  {
    seq(n, i => d)
  }

  function Other(a: char, b: char, c: char): (d: char)
    ensures IsFiller(d) && d != a && d != b && d != c
  {
    if 'w' !in {a, b, c} then 'w' else if 'x' !in {a, b, c} then 'x' else if 'y' !in {a, b, c} then 'y' else 'z'
  }

  /** Nothing is replaced before the first place where the secret starts. */
  lemma {:induction false} KeepBefore(before: string, t: string, secret: string)
    requires secret != "" && forall i | 0 <= i < |before| :: !HasPrefix(before[i..] + t, secret)
    ensures ReplaceAll(before + t, secret) == before + ReplaceAll(t, secret)
  {
    if before == "" {
      assert "" + t == t;
    } else {
      var c, rest := before[0], before[1..];
      assert before[0..] == before == [c] + rest;
      Associative([c], rest, t);
      KeepHead(c, rest + t, secret);
      forall i | 0 <= i < |rest| ensures !HasPrefix(rest[i..] + t, secret) { assert rest[i..] == before[i + 1..]; }
      KeepBefore(rest, t, secret);
      Associative([c], rest, ReplaceAll(t, secret));
    }
  }

  /** Nothing is replaced in front of the first run of "d", if what stands there is no longer than the run
      and does not end in "d". */
  lemma FirstRun(before: string, d: char, n: nat, behind: string)
    requires n > 0 && |before| <= n && (before != "" ==> before[|before| - 1] != d)
    ensures ReplaceAll(before + Filled(d, n) + behind, Filled(d, n))
         == before + MARKER + ReplaceAll(behind, Filled(d, n))
  {
    var run := Filled(d, n);
    forall i | 0 <= i < |before| ensures !HasPrefix(before[i..] + (run + behind), run) {
      NotPrefixAt(before[i..] + (run + behind), run, |before| - 1 - i);
    }
    KeepBefore(before, run + behind, run);
    ReplaceHead(run, behind);
    Associative(before, run, behind);
    Associative(before, MARKER, ReplaceAll(behind, run));
  }

  // What escaping does to the filler, which is one of the letters w, x, y and z.

  predicate IsFiller(d: char) { d in {'w', 'x', 'y', 'z'} }

  lemma EscapedCharFacts(c: char)
    ensures var e := EscapedChar(c);
            e == [c] || (|e| >= 2 && |e| > CharSize(c) && e[0] == '\\' && forall x | x in e :: !IsFiller(x) && CharSize(x) == 1)
    ensures IsFiller(c) || c in MARKER ==> EscapedChar(c) == [c]
  {
    HexDigitFacts(c as int / 16);
    HexDigitFacts(c as int % 16);
  }

  lemma HexDigitFacts(n: nat)
    ensures n < 16 ==> !IsFiller(HEX_DIGITS[n]) && CharSize(HEX_DIGITS[n]) == 1
  {
  }

  lemma {:induction false} ByteLengthOf(a: string, b: string)
    ensures ByteLength(a + b) == ByteLength(a) + ByteLength(b)
  {
    if a == "" {
      assert a + b == b;
    } else {
      ByteLengthOf(a[1..], b);
      assert (a + b)[1..] == a[1..] + b;
    }
  }

  lemma {:induction false} AsciiLength(a: string)
    requires forall x | x in a :: CharSize(x) == 1
    ensures ByteLength(a) == |a|
  {
    if a != "" { AsciiLength(a[1..]); }
  }

  /** The escaped form is longer, or it is the secret. */
  lemma {:induction false} EscapeGrows(s: string)
    ensures Escape(s) == s || ByteLength(Escape(s)) > ByteLength(s)
    ensures |Escape(s)| >= |s|
  {
    if s != "" {
      var e, rest := EscapedChar(s[0]), Escape(s[1..]);
      EscapedCharFacts(s[0]);
      EscapeGrows(s[1..]);
      ByteLengthOf(e, rest);
      if e == [s[0]] {
        assert s == [s[0]] + s[1..];
        assert ByteLength(e) == CharSize(s[0]) by { assert e[1..] == ""; }
      } else {
        AsciiLength(e);
      }
    }
  }

  /** How often "d" occurs. */
  function Occurrences(s: string, d: char): (n: nat)
    ensures n <= |s|
  {
    if s == "" then 0 else Occurrences(s[1..], d) + if s[0] == d then 1 else 0
  }

  lemma {:induction false} OccurrencesOf(a: string, b: string, d: char)
    ensures Occurrences(a + b, d) == Occurrences(a, d) + Occurrences(b, d)
  {
    if a == "" {
      assert a + b == b;
    } else {
      OccurrencesOf(a[1..], b, d);
      assert (a + b)[1..] == a[1..] + b;
    }
  }

  lemma {:induction false} NoneOf(d: char, t: string)
    requires d !in t
    ensures Occurrences(t, d) == 0
  {
    if t != "" { NoneOf(d, t[1..]); }
  }

  /** The filler occurs in the escaped form as often as in the secret, and at its ends only if there. */
  lemma {:induction false} EscapeKeepsFiller(s: string, d: char)
    requires IsFiller(d)
    ensures Occurrences(Escape(s), d) == Occurrences(s, d)
  {
    if s != "" {
      var e, rest := EscapedChar(s[0]), Escape(s[1..]);
      EscapedCharFacts(s[0]);
      EscapeKeepsFiller(s[1..], d);
      hide EscapedChar;
      OccurrencesOf(e, rest, d);
      if e != [s[0]] {
        NoneOf(d, e);
      } else {
        assert e[1..] == "";
      }
    }
  }

  lemma {:induction false} EscapeKeepsEnds(s: string, d: char)
    requires IsFiller(d) && s != "" && s[0] != d && s[|s| - 1] != d
    ensures Escape(s) != "" && Escape(s)[0] != d && Escape(s)[|Escape(s)| - 1] != d
  {
    var e, rest := EscapedChar(s[0]), Escape(s[1..]);
    EscapedCharFacts(s[0]);
    EscapeGrows(s[1..]);
    hide EscapedChar;
    assert e[0] in e && e[|e| - 1] in e && Escape(s) == e + rest;
    if |s| > 1 { EscapeKeepsEnd(s[1..], d); }
  }

  lemma {:induction false} EscapeKeepsEnd(s: string, d: char)
    requires IsFiller(d) && s != "" && s[|s| - 1] != d
    ensures Escape(s) != "" && Escape(s)[|Escape(s)| - 1] != d
  {
    var e, rest := EscapedChar(s[0]), Escape(s[1..]);
    EscapedCharFacts(s[0]);
    EscapeGrows(s[1..]);
    hide EscapedChar;
    assert e[|e| - 1] in e && Escape(s) == e + rest;
    if |s| > 1 { EscapeKeepsEnd(s[1..], d); }
  }

  lemma {:induction false} EscapeOfPlain(s: string)
    requires forall c | c in s :: EscapedChar(c) == [c]
    ensures Escape(s) == s
  {
    if s != "" {
      EscapeOfPlain(s[1..]);
      assert s == [s[0]] + s[1..];
    }
  }

  lemma FillerInside(s: string, d: char)
    requires |s| >= 2 && s[0] != d && s[|s| - 1] != d
    ensures Occurrences(s, d) < |s| - 1
  {
    var n := |s| - 1;
    assert s == s[..n] + [s[n]] && s[..n] == [s[0]] + s[1..n];
    OccurrencesOf(s[..n], [s[n]], d);
    OccurrencesOf([s[0]], s[1..n], d);
    NoneOf(d, [s[0]]);
    NoneOf(d, [s[n]]);
  }

  lemma RunIsFilled(t: string, d: char, n: nat, k: nat)
    requires k + n <= |t| && forall i | k <= i < k + n :: t[i] == d
    ensures Occurrences(t, d) >= n
  {
    var run := t[k..k + n];
    assert t == t[..k] + run + t[k + n..];
    OccurrencesOf(t[..k] + run, t[k + n..], d);
    OccurrencesOf(t[..k], run, d);
    AllFilled(run, d);
  }

  lemma {:induction false} AllFilled(run: string, d: char)
    requires forall i | 0 <= i < |run| :: run[i] == d
    ensures Occurrences(run, d) == |run|
  {
    if run != "" { AllFilled(run[1..], d); }
  }

  /** A text with fewer than n fillers, none at an end, does not occur in shorter texts around n fillers. */
  lemma RunKeepsApart(s: string, before: string, d: char, n: nat, behind: string)
    requires |s| > n > 0 && |before| < |s| && |behind| < |s| && s[0] != d && s[|s| - 1] != d && Occurrences(s, d) < n
    ensures !Contains(before + Filled(d, n) + behind, s)
  {
    var t := before + Filled(d, n) + behind;
    forall p | 0 <= p <= |t| ensures !OccursAt(s, t, p) {
      if OccursAt(s, t, p) {
        OccursElement(s, t, p, 0);
        OccursElement(s, t, p, |s| - 1);
        assert !(|before| <= p < |before| + n) && !(|before| <= p + |s| - 1 < |before| + n);
        forall i | |before| - p <= i < |before| - p + n ensures s[i] == d { OccursElement(s, t, p, i); }
        RunIsFilled(s, d, n, |before| - p);
        assert false;
      }
    }
  }

  /** "s" is in the result although it has been registered. */
  ghost predicate Leaks(s: string, registered: seq<string>, secrets: seq<string>, text: string) {
    IsRegistryOf(secrets, registered) && s in registered && Contains(ReplaceSecrets(text, secrets), s)
  }

  /** The registry of a secret and a run of fillers that is one shorter. */
  function WithRun(s: string, run: string): seq<string> {
    if Escape(s) == s then [s, run] else [Escape(s), s, run]
  }

  lemma WithRunIsRegistry(s: string, d: char)
    requires |s| >= 2 && IsFiller(d)
    ensures IsRegistryOf(WithRun(s, Filled(d, |s| - 1)), [s, Filled(d, |s| - 1)])
  {
    var run := Filled(d, |s| - 1);
    forall c | c in run ensures EscapedChar(c) == [c] { EscapedCharFacts(c); }
    EscapeOfPlain(run);
    EscapeGrows(s);
    AsciiLength(run);
    ByteLengthIsLong(s);
    assert s in [s, run] && run in [s, run];
  }

  lemma {:induction false} ByteLengthIsLong(s: string)
    ensures ByteLength(s) >= |s|
  {
    if s != "" { ByteLengthIsLong(s[1..]); }
  }

  /** Replacing a shorter secret can put a longer one back together, however far outside the marker it
      reaches: the longer one, escaped or not, has had its turn. */
  lemma ShorterSecretRestores(s: string, offset: int) returns (registered: seq<string>, secrets: seq<string>, text: string)
    requires -|s| < offset < |MARKER| && AlignedAt(s, offset)
    requires offset < 0 || offset + |s| > |MARKER|
    ensures Leaks(s, registered, secrets, text)
  {
    var before, behind, n := Before(s, offset), Behind(s, offset), |s| - 1;
    var d := Other(s[0], s[n], if before == "" then s[0] else before[|before| - 1]);
    var run := Filled(d, n);
    registered, secrets, text := [s, run], WithRun(s, run), before + run + behind;
    WithRunIsRegistry(s, d);
    RestoredAround(s, before, d, behind);
    SpelledOut(s, offset);
  }

  lemma RestoredAround(s: string, before: string, d: char, behind: string)
    requires |s| >= 2 && |before| < |s| && |behind| < |s| && IsFiller(d) && d != s[0] && d != s[|s| - 1]
    requires before != "" ==> before[|before| - 1] != d
    requires behind != "" ==> behind[|behind| - 1] != d
    ensures var run := Filled(d, |s| - 1);
            ReplaceSecrets(before + run + behind, WithRun(s, run)) == before + MARKER + behind
  {
    var n := |s| - 1;
    var run := Filled(d, n);
    var text := before + run + behind;
    hide Escape;
    hide ReplaceSecrets;
    hide ReplaceAll;
    hide Contains;
    hide Filled;
    FormsKeptApart(s, before, d, behind);
    RunReplaced(before, d, n, behind);
    NothingToReplace(text, s);
    NothingToReplace(text, Escape(s));
    TwoSecrets(text, s, run);
    ThreeSecrets(text, Escape(s), s, run);
  }

  lemma RunReplaced(before: string, d: char, n: nat, behind: string)
    requires n > 0 && |before| <= n && |behind| <= n
    requires (before != "" ==> before[|before| - 1] != d) && (behind != "" ==> behind[|behind| - 1] != d)
    ensures ReplaceAll(before + Filled(d, n) + behind, Filled(d, n)) == before + MARKER + behind
  {
    hide ReplaceAll;
    hide Contains;
    FirstRun(before, d, n, behind);
    RunNotBehind(behind, d, n);
    NothingToReplace(behind, Filled(d, n));
  }

  lemma FormsKeptApart(s: string, before: string, d: char, behind: string)
    requires |s| >= 2 && |before| < |s| && |behind| < |s| && IsFiller(d) && d != s[0] && d != s[|s| - 1]
    ensures var text := before + Filled(d, |s| - 1) + behind; Escape(s) != "" && !Contains(text, s) && !Contains(text, Escape(s))
  {
    hide Escape;
    hide Contains;
    hide Filled;
    var n := |s| - 1;
    FillerInside(s, d);
    EscapeKeepsFiller(s, d);
    EscapeKeepsEnds(s, d);
    EscapeGrows(s);
    RunKeepsApart(s, before, d, n, behind);
    RunKeepsApart(Escape(s), before, d, n, behind);
  }

  lemma ThreeSecrets(t: string, a: string, b: string, c: string)
    requires a != "" && b != "" && c != ""
    ensures ReplaceSecrets(t, [a, b, c]) == ReplaceSecrets(ReplaceAll(t, a), [b, c])
  {
    assert [a, b, c][1..] == [b, c];
  }

  lemma RunNotBehind(behind: string, d: char, n: nat)
    requires n > 0 && |behind| <= n && (behind != "" ==> behind[|behind| - 1] != d)
    ensures !Contains(behind, Filled(d, n))
  {
    forall p | 0 <= p <= |behind| ensures !OccursAt(Filled(d, n), behind, p) {
      if p + n <= |behind| { assert behind[p..p + n][n - 1] == behind[|behind| - 1]; }
    }
  }

  lemma TouchingSurvives(s: string) returns (registered: seq<string>, secrets: seq<string>, text: string)
    requires s != "" && Touches(s)
    ensures Leaks(s, registered, secrets, text)
  {
    var offset: int :| -|s| < offset < |MARKER| && AlignedAt(s, offset);
    if offset < 0 || offset + |s| > |MARKER| {
      registered, secrets, text := ShorterSecretRestores(s, offset);
    } else {
      registered, secrets, text := [s], [s], s;
      PartOfMarker(s, offset);
      MarkerIsPlain(s);
      PartOfMarkerSurvivesAlone(s, offset);
      OneSecret(s, s);
    }
  }

  lemma MarkerIsPlain(s: string)
    requires Contains(MARKER, s)
    ensures Escape(s) == s
  {
    var at :| 0 <= at <= |MARKER| && OccursAt(s, MARKER, at);
    forall c | c in s ensures EscapedChar(c) == [c] {
      var k :| 0 <= k < |s| && s[k] == c;
      OccursElement(s, MARKER, at, k);
      EscapedCharFacts(c);
    }
    EscapeOfPlain(s);
  }

  /** Exactly the secrets that cannot overlap the marker are safe: whatever else is registered and whatever
      the text, the replacement of all secrets leaves none of them. For every other secret some secrets
      registered with it, and some text, bring it back. */
  lemma SafeIffNoTouch(s: string)
    requires s != ""
    ensures (forall registered, secrets, text :: !Leaks(s, registered, secrets, text)) <==> !Touches(s)
  {
    if Touches(s) {
      var registered, secrets, text := TouchingSurvives(s);
    } else {
      forall registered, secrets, text ensures !Leaks(s, registered, secrets, text) {
        if IsRegistryOf(secrets, registered) && s in registered { SecretsStayGone(s, text, secrets); }
      }
    }
  }

  lemma PartOfMarkerSurvivesAlone(s: string, offset: nat)
    requires s != "" && offset + |s| <= |MARKER| && AlignedAt(s, offset)
    ensures Contains(ReplaceAll(s, s), s)
  {
    hide ReplaceAll;
    hide AlignedAt;
    PartOfMarker(s, offset);
    FoundAt(s, s, 0);
    PartOfMarkerSurvives(s, s);
  }

  lemma PartOfMarker(s: string, offset: nat)
    requires offset + |s| <= |MARKER| && AlignedAt(s, offset)
    ensures Contains(MARKER, s)
  {
    forall k | 0 <= k < |s| ensures MARKER[offset + k] == s[k] { AlignedInside(s, offset, offset + k); }
    FoundAt(MARKER, s, offset);
  }

  lemma {:induction false} SecretsStayGone(s: string, text: string, secrets: seq<string>)
    requires s != "" && !Touches(s) && (forall k | 0 <= k < |secrets| :: secrets[k] != "")
    requires s in secrets || !Contains(text, s)
    ensures !Contains(ReplaceSecrets(text, secrets), s)
    decreases |secrets|
  {
    if secrets != [] {
      var next := ReplaceAll(text, secrets[0]);
      if s == secrets[0] || !Contains(text, s) { ReplaceAllRedacts(s, text, secrets[0]); }
      SecretsStayGone(s, next, secrets[1..]);
    }
  }
}
