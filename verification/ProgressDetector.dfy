/** The progress detector of internal/budget/progress.go: three fields that stand for the whole history
    of observations. */
module ProgressDetector {

  datatype Outcome = Continue | Warning | Stop
  datatype Observation = Observation(fingerprint: string, diffDigest: string) {
    predicate Empty() { fingerprint == "" || diffDigest == "" }
  }

  // ---------------------------------------------------------------- the meaning, on the whole history

  /** The number of trailing observations that equal the last one; zero after an empty observation. */
  function TrailingRun(history: seq<Observation>): nat {
    if history == [] || history[|history| - 1].Empty() then 0
    else if |history| >= 2 && history[|history| - 2] == history[|history| - 1]
    then 1 + TrailingRun(history[..|history| - 1])
    else 1
  }

  /** The last observation repeats the failure of the one just before it, with another diff. */
  predicate SameFailureOtherDiff(history: seq<Observation>) {
    && |history| >= 2
    && var last, previous := history[|history| - 1], history[|history| - 2];
    && !last.Empty() && !previous.Empty()
    && last.fingerprint == previous.fingerprint && last.diffDigest != previous.diffDigest
  }

  /** The trailing run, said without recursion: the last "n" observations are equal and not empty, and no
      longer block is. */
  lemma {:induction false} TrailingRunIsLongestBlock(history: seq<Observation>)
    ensures var n := TrailingRun(history);
            && n <= |history|
            && (forall i | |history| - n <= i < |history| ::
                  !history[i].Empty() && history[i] == history[|history| - 1])
            && (n < |history| ==> history[|history| - 1].Empty() || history[|history| - n - 1] != history[|history| - 1])
  {
    if history != [] && !history[|history| - 1].Empty() && |history| >= 2
       && history[|history| - 2] == history[|history| - 1] {
      TrailingRunIsLongestBlock(history[..|history| - 1]);
    }
  }

  // ---------------------------------------------------------------- the detector

  class ProgressDetector {
    const threshold: int
    var lastFingerprint: string
    var lastDiffDigest: string
    var consecutive: nat
    ghost var history: seq<Observation>

    /** The fields summarise the history. */
    ghost predicate Valid()
      reads this
    {
      && threshold >= 1
      && consecutive == TrailingRun(history)
      && (if consecutive == 0 then lastFingerprint == "" && lastDiffDigest == ""
          else history != [] && history[|history| - 1] == Observation(lastFingerprint, lastDiffDigest))
    }

    constructor (threshold: int)
      ensures Valid() && history == [] && this.threshold == if threshold <= 1 then 1 else threshold
    {
      this.threshold := if threshold <= 1 then 1 else threshold;
      lastFingerprint, lastDiffDigest, consecutive := "", "", 0;
      history := [];
    }

    /** Observe: stop exactly when the trailing block of equal observations reaches the threshold, warn
        exactly when not stopping and the failure just repeated with another diff. */
    method Observe(fingerprint: string, diffDigest: string) returns (outcome: Outcome)
      requires Valid()
      modifies this
      ensures Valid() && history == old(history) + [Observation(fingerprint, diffDigest)]
      ensures outcome == Stop <==> TrailingRun(history) >= threshold
      ensures outcome == Warning <==> outcome != Stop && SameFailureOtherDiff(history)
    {
      ghost var before := history;
      history := history + [Observation(fingerprint, diffDigest)];
      assert history[..|history| - 1] == before;
      if fingerprint == "" || diffDigest == "" {
        lastFingerprint, lastDiffDigest, consecutive := "", "", 0;
        return Continue;
      }
      if fingerprint == lastFingerprint && diffDigest == lastDiffDigest {
        consecutive := consecutive + 1;
        return if consecutive >= threshold then Stop else Continue;
      }
      outcome := Continue;
      if fingerprint == lastFingerprint && lastDiffDigest != "" {
        outcome := Warning;
      }
      lastFingerprint, lastDiffDigest, consecutive := fingerprint, diffDigest, 1;
      if consecutive >= threshold {
        return Stop;
      }
    }
  }
}
