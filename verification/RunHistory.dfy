/** What every legal history of a run guarantees, and so every sequence of invocations of the agent loop. */
module RunHistory {

  import opened RunState
  import opened Policy
  import opened RunProtocol
  import opened Wrappers
  import opened Pipeline

  /** The states stored for the run during the first k entries. */
  function Trail(c: Config, log: seq<Entry>, k: nat): (trail: seq<RunState>)
    requires k <= |log|
    ensures trail != []
  {
    if k == 0 then [c.initial]
    else
      Trail(c, log, k - 1) +
      match log[k - 1]
      case Write(_, to, _, true) => [to]
      case External(to) => [to]
      case _ => []
  }

  lemma StoredStep(c: Config, m: Monitor, e: Entry)
    requires Permitted(c, m, e)
    ensures e.Write? ==> Allowed(e.from, e.to)
    ensures if (e.Write? && e.ok) || e.External? then Next(c, m, e).stored == e.to && Allowed(m.stored, e.to)
            else Next(c, m, e).stored == m.stored
  {
    hide LoopVerdict;
    hide Passes;
  }

  /** The stored states are a path of the transition graph, and the loop never even attempts an update along
      an edge that the graph does not have. */
  lemma {:induction false} StoredStatesArePath(c: Config, log: seq<Entry>, k: nat)
    requires Legal(c, log) && k <= |log|
    ensures IsPath(Trail(c, log, k)) && Trail(c, log, k)[|Trail(c, log, k)| - 1] == Replay(c, log, k).stored
    ensures forall i | 0 <= i < k && log[i].Write? :: Allowed(log[i].from, log[i].to)
  {
    hide Permitted;
    hide Next;
    if k > 0 {
      StoredStatesArePath(c, log, k - 1);
      assert PermittedAt(c, log, k - 1);
      StoredStep(c, Replay(c, log, k - 1), log[k - 1]);
    }
  }

  // ---------------------------------------------------------------- success is earned

  predicate IsCheck(e: Entry, check: Check) { e.Checked? && e.check == check }

  predicate NoExecution(log: seq<Entry>, from: nat, to: nat)
    requires to <= |log|
  {
    forall n | from < n < to :: !log[n].Executed?
  }

  ghost predicate Reproduced(log: seq<Entry>, k: nat)
    requires k <= |log|
  {
    exists i | 0 <= i < k :: IsCheck(log[i], Baseline(false))
  }

  ghost predicate Earned(log: seq<Entry>, k: nat)
    requires k <= |log|
  {
    exists j | 0 <= j < k ::
      IsCheck(log[j], Final(true)) && Reproduced(log, j) && NoExecution(log, j, k)
  }

  lemma ReproducedStays(log: seq<Entry>, k: nat)
    requires 0 < k <= |log| && (Reproduced(log, k - 1) || IsCheck(log[k - 1], Baseline(false)))
    ensures Reproduced(log, k)
  {
    if Reproduced(log, k - 1) {
      var i :| 0 <= i < k - 1 && IsCheck(log[i], Baseline(false));
    }
  }

  lemma EarnedStays(log: seq<Entry>, k: nat)
    requires 0 < k <= |log| && !log[k - 1].Executed?
    requires Earned(log, k - 1) || (IsCheck(log[k - 1], Final(true)) && Reproduced(log, k - 1))
    ensures Earned(log, k)
  {
    if Earned(log, k - 1) {
      var j :| 0 <= j < k - 1 && IsCheck(log[j], Final(true)) && Reproduced(log, j) && NoExecution(log, j, k - 1);
    }
  }

  predicate PastBaseline(s: RunState) { s in {Deciding, Executing, Validating, FinalValidating} }

  /** Where a run that is not a review can be, and what it must have been through. */
  ghost predicate SuccessFacts(c: Config, log: seq<Entry>, k: nat)
    requires k <= |log|
  {
    var m := Replay(c, log, k);
    && (c.profile != Review && (PastBaseline(m.stored) || m.stored == AwaitingApproval) ==> Reproduced(log, k))
    && (c.profile != Review && m.copy.Some? && PastBaseline(m.copy.value) ==> Reproduced(log, k))
    && (m.checked == Some(Baseline(false)) ==> Reproduced(log, k))
    && (m.copy.Some? && m.copy.value in {Validating, FinalValidating} ==> c.profile != Review)
    && (m.checked == Some(Final(true)) && m.copy.Some? ==> m.copy == Some(Validating) && Earned(log, k))
    && (m.copy == Some(FinalValidating) ==> Earned(log, k))
  }

  lemma {:induction false} SuccessFactsHold(c: Config, log: seq<Entry>, k: nat)
    requires Legal(c, log) && k <= |log|
    ensures SuccessFacts(c, log, k)
  {
    if k > 0 {
      SuccessFactsHold(c, log, k - 1);
      assert PermittedAt(c, log, k - 1);
      if Reproduced(log, k - 1) || IsCheck(log[k - 1], Baseline(false)) { ReproducedStays(log, k); }
      if !log[k - 1].Executed? && (Earned(log, k - 1) || (IsCheck(log[k - 1], Final(true)) && Reproduced(log, k - 1))) {
        EarnedStays(log, k);
      }
    }
  }

  /** A run succeeds only after its baseline validation failed, a final validation passed later, with some
      stage required and every required stage exiting normally with status zero, and no action was executed
      between that validation and the success; and reviews never succeed. */
  lemma SuccessIsEarned(c: Config, log: seq<Entry>, k: nat)
    requires Legal(c, log) && k < |log| && log[k].Write? && log[k].to == Succeeded
    ensures c.profile != Review
    ensures exists i, j | 0 <= i < j < k ::
              && IsCheck(log[i], Baseline(false)) && !Passes(c.stages, log[i].executor, true)
              && IsCheck(log[j], Final(true)) && Passes(c.stages, log[j].executor, true) && NoExecution(log, j, k)
  {
    SuccessFactsHold(c, log, k);
    assert PermittedAt(c, log, k);
    var j :| 0 <= j < k && IsCheck(log[j], Final(true)) && Reproduced(log, j) && NoExecution(log, j, k);
    var i :| 0 <= i < j && IsCheck(log[i], Baseline(false));
    assert PermittedAt(c, log, i) && PermittedAt(c, log, j);
  }

  // ---------------------------------------------------------------- approved actions run at most once

  predicate IsAsk(e: Entry) { e.Write? && e.ok && e.why.Asking? }

  /** The last entry at which the run began to wait for approval, or -1. */
  function LastAsk(log: seq<Entry>, k: nat): int
    requires k <= |log|
    ensures -1 <= LastAsk(log, k) < k
    ensures LastAsk(log, k) >= 0 ==> IsAsk(log[LastAsk(log, k)])
  {
    if k == 0 then -1 else if IsAsk(log[k - 1]) then k - 1 else LastAsk(log, k - 1)
  }

  /** Nothing is executed in between, and the loop moves the stored run no further, except by resuming that
      action. */
  predicate Quiet(log: seq<Entry>, from: nat, to: nat, action: Action, digest: Digest)
    requires to <= |log|
  {
    forall n | from < n < to ::
      !log[n].Executed? && (log[n].Write? && log[n].ok ==> log[n].why == Resuming(action, digest))
  }

  predicate Asked(c: Config, log: seq<Entry>, k: nat, action: Action, digest: Digest)
    requires k <= |log|
  {
    var w := LastAsk(log, k);
    && w >= 0 && log[w] == Write(Deciding, AwaitingApproval, Asking(action, digest), true)
    && digest == c.digest(action) && LoopVerdict(c.profile, action) == RequireApproval
    && Quiet(log, w, k, action, digest)
  }

  ghost predicate GrantedSince(log: seq<Entry>, k: nat, digest: Digest)
    requires k <= |log|
  {
    exists g | LastAsk(log, k) < g < k :: log[g] == RunProtocol.Grant(digest)
  }

  ghost predicate ConsumedSince(log: seq<Entry>, k: nat, digest: Digest)
    requires k <= |log|
  {
    exists g, x | LastAsk(log, k) < g < x < k ::
      log[g] == RunProtocol.Grant(digest) && log[x] == RunProtocol.Consume(digest)
  }

  lemma GrantStays(log: seq<Entry>, k: nat, digest: Digest)
    requires 0 < k <= |log| && !IsAsk(log[k - 1])
    ensures GrantedSince(log, k - 1, digest) || log[k - 1] == RunProtocol.Grant(digest) ==> GrantedSince(log, k, digest)
    ensures (ConsumedSince(log, k - 1, digest)
             || (GrantedSince(log, k - 1, digest) && log[k - 1] == RunProtocol.Consume(digest)))
            ==> ConsumedSince(log, k, digest)
  {
    assert LastAsk(log, k) == LastAsk(log, k - 1);
    if GrantedSince(log, k - 1, digest) {
      var g :| LastAsk(log, k - 1) < g < k - 1 && log[g] == RunProtocol.Grant(digest);
    }
    if ConsumedSince(log, k - 1, digest) {
      var g, x :| LastAsk(log, k - 1) < g < x < k - 1
                  && log[g] == RunProtocol.Grant(digest) && log[x] == RunProtocol.Consume(digest);
    }
  }

  ghost predicate GrantFacts(c: Config, log: seq<Entry>, k: nat)
    requires k <= |log|
  {
    var m := Replay(c, log, k);
    && (forall d | d in m.grants :: GrantedSince(log, k, d))
    && (m.consumed.Some? ==> ConsumedSince(log, k, m.consumed.value))
  }

  ghost predicate AskFacts(c: Config, log: seq<Entry>, k: nat)
    requires k <= |log|
  {
    var m := Replay(c, log, k);
    && (m.copy.Some? ==> m.started)
    && (m.asked.Some? ==> m.started && (m.copy.None? || m.copy.value == AwaitingApproval)
                          && Asked(c, log, k, m.asked.value.0, m.asked.value.1))
  }

  ghost predicate DoingFacts(c: Config, log: seq<Entry>, k: nat)
    requires k <= |log|
  {
    var doing := Replay(c, log, k).doing;
    doing.Some? ==>
      var action := doing.value.action;
      if doing.value.approved then
        Asked(c, log, k, action, c.digest(action)) && ConsumedSince(log, k, c.digest(action))
      else LoopVerdict(c.profile, action) == Allow
  }

  lemma GrantFactsStep(c: Config, log: seq<Entry>, k: nat)
    requires Legal(c, log) && 0 < k <= |log| && GrantFacts(c, log, k - 1)
    ensures GrantFacts(c, log, k)
  {
    assert PermittedAt(c, log, k - 1);
    var before, after := Replay(c, log, k - 1), Replay(c, log, k);
    if !IsAsk(log[k - 1]) {
      forall d | d in after.grants ensures GrantedSince(log, k, d) {
        assert d in before.grants || log[k - 1] == RunProtocol.Grant(d);
        GrantStays(log, k, d);
      }
      if after.consumed.Some? { GrantStays(log, k, after.consumed.value); }
    }
  }

  lemma AskFactsStep(c: Config, log: seq<Entry>, k: nat)
    requires Legal(c, log) && 0 < k <= |log| && AskFacts(c, log, k - 1)
    ensures AskFacts(c, log, k)
  {
    assert PermittedAt(c, log, k - 1);
    if !IsAsk(log[k - 1]) {
      assert LastAsk(log, k) == LastAsk(log, k - 1);
    }
  }

  /** Where the action to execute comes from: it was there, or a write that resumes it or moves on to it. */
  lemma DoingAfter(c: Config, m: Monitor, e: Entry)
    requires Permitted(c, m, e) && Next(c, m, e).doing.Some?
    ensures var doing := Next(c, m, e).doing.value;
            || (m.doing == Some(doing) && !e.Executed? && !(e.Write? && e.ok))
            || (doing.approved && e.Write? && e.why == Resuming(doing.action, e.why.digest)
                && m.asked == Some((doing.action, e.why.digest)) && m.consumed == Some(e.why.digest))
            || (!doing.approved && LoopVerdict(c.profile, doing.action) == Allow)
  {
  }

  lemma DoingFactsStep(c: Config, log: seq<Entry>, k: nat)
    requires Legal(c, log) && 0 < k <= |log|
    requires DoingFacts(c, log, k - 1) && AskFacts(c, log, k - 1) && GrantFacts(c, log, k - 1)
    ensures DoingFacts(c, log, k)
  {
    hide LoopVerdict;
    hide Passes;
    assert PermittedAt(c, log, k - 1);
    var before, doing := Replay(c, log, k - 1), Replay(c, log, k).doing;
    if doing.Some? {
      DoingAfter(c, before, log[k - 1]);
      AskIsNotDoing(c, before, log[k - 1]);
      GrantStays(log, k, c.digest(doing.value.action));
    }
  }

  lemma AskIsNotDoing(c: Config, m: Monitor, e: Entry)
    requires Permitted(c, m, e) && Next(c, m, e).doing.Some?
    ensures !IsAsk(e)
  {
  }

  lemma {:induction false} ApprovalFactsHold(c: Config, log: seq<Entry>, k: nat)
    requires Legal(c, log) && k <= |log|
    ensures GrantFacts(c, log, k) && AskFacts(c, log, k) && DoingFacts(c, log, k)
  {
    if k > 0 {
      ApprovalFactsHold(c, log, k - 1);
      GrantFactsStep(c, log, k);
      AskFactsStep(c, log, k);
      DoingFactsStep(c, log, k);
    }
  }

  /** An approved execution follows the run's waiting for exactly that action, then a grant of its digest by
      the user, then the consumption of a grant of that digest; and since the run began to wait nothing else
      has been executed, and no rejection has moved the stored run. Whether a rejection may have been noted is
      what WaitIsOpen decides below. */
  lemma ApprovedExecution(c: Config, log: seq<Entry>, k: nat)
    requires Legal(c, log) && k < |log| && log[k].Executed? && log[k].approved
    ensures var action := log[k].action; var d := c.digest(action);
            exists w, g, x | 0 <= w < g < x < k ::
              && log[w] == Write(Deciding, AwaitingApproval, Asking(action, d), true)
              && log[g] == RunProtocol.Grant(d) && log[x] == RunProtocol.Consume(d) && Quiet(log, w, k, action, d)
  {
    ApprovalFactsHold(c, log, k);
    assert PermittedAt(c, log, k);
    var action := log[k].action;
    var d := c.digest(action);
    assert Asked(c, log, k, action, d) && ConsumedSince(log, k, d);
    var w := LastAsk(log, k);
    var g, x :| w < g < x < k && log[g] == RunProtocol.Grant(d) && log[x] == RunProtocol.Consume(d);
  }

  /** So each wait for approval, and each grant, accounts for at most one execution, whatever was retried or
      left pending. */
  lemma ApprovedOnce(c: Config, log: seq<Entry>, i: nat, k: nat)
    requires Legal(c, log) && i < k < |log| && log[i].Executed? && log[k].Executed? && log[k].approved
    ensures var d := c.digest(log[k].action);
            exists w, g | i < w < g < k ::
              && log[w] == Write(Deciding, AwaitingApproval, Asking(log[k].action, d), true)
              && log[g] == RunProtocol.Grant(d)
  {
    ApprovedExecution(c, log, k);
    var d := c.digest(log[k].action);
    var w, g, x :| 0 <= w < g < x < k
                   && log[w] == Write(Deciding, AwaitingApproval, Asking(log[k].action, d), true)
                   && log[g] == RunProtocol.Grant(d) && log[x] == RunProtocol.Consume(d) && Quiet(log, w, k, log[k].action, d);
    assert i < w;
  }

  // ---------------------------------------------------------------- what a rejection is worth

  predicate AskedFacts(c: Config, m: Monitor) {
    && (m.stored == AwaitingApproval ==> m.asked.Some?)
    && (m.asked.Some? ==>
          && m.started && (m.copy.None? || m.copy.value == AwaitingApproval)
          && m.due == Nothing && LoopVerdict(c.profile, m.asked.value.0) == RequireApproval)
  }

  predicate BegunFacts(m: Monitor) {
    (m.copy.Some? ==> m.started && !m.closed) && (m.copy == Some(AwaitingApproval) && !m.rejected ==> m.owed == [])
  }

  predicate GrantedFacts(m: Monitor) { "" !in m.grants && m.consumed != Some("") }

  predicate TakenFacts(c: Config, m: Monitor) {
    FreeToTake(m) && (m.doing.Some? && m.doing.value.approved ==>
                        LoopVerdict(c.profile, m.doing.value.action) == RequireApproval)
  }

  predicate WaitFacts(c: Config, m: Monitor) { BegunFacts(m) && AskedFacts(c, m) && GrantedFacts(m) && TakenFacts(c, m) }

  lemma BegunFactsStep(c: Config, m: Monitor, e: Entry)
    requires BegunFacts(m) && Permitted(c, m, e)
    ensures BegunFacts(Next(c, m, e))
  {
    hide Passes;
    hide OwedAfter;
    hide Granted;
    hide LoopVerdict;
    hide InTurn;
  }

  lemma AskedFactsWrite(c: Config, m: Monitor, from: RunState, to: RunState, why: Reason)
    requires BegunFacts(m) && AskedFacts(c, m) && m.copy == Some(from) && m.stored == from
    requires Transition(c, m, from, to, why, true) && InTurn(m, from, to, why, true)
    ensures AskedFacts(c, Written(m, from, to, why))
  {
    hide LoopVerdict;
  }

  lemma AskedFactsStep(c: Config, m: Monitor, e: Entry)
    requires BegunFacts(m) && AskedFacts(c, m) && Permitted(c, m, e)
    ensures AskedFacts(c, Next(c, m, e))
  {
    if e.Write? && e.ok { AskedFactsWrite(c, m, e.from, e.to, e.why); }
    hide Passes;
    hide OwedAfter;
    hide MayCheck;
    hide Granted;
    hide LoopVerdict;
    hide Transition;
    hide InTurn;
    hide Written;
  }

  lemma GrantedFactsStep(c: Config, m: Monitor, e: Entry)
    requires GrantedFacts(m) && Permitted(c, m, e)
    ensures GrantedFacts(Next(c, m, e))
  {
    hide LoopVerdict;
    hide Transition;
    hide InTurn;
  }

  predicate FreeToTake(m: Monitor) {
    m.doing.Some? ==> (m.copy.None? || m.copy.value == Executing) && m.due == Nothing && m.owed == []
  }

  lemma FreeToTakeStep(c: Config, m: Monitor, e: Entry)
    requires FreeToTake(m) && Permitted(c, m, e)
    ensures FreeToTake(Next(c, m, e))
  {
    hide Passes;
    hide OwedAfter;
    hide Granted;
    hide LoopVerdict;
  }

  lemma TakenFactsStep(c: Config, m: Monitor, e: Entry)
    requires AskedFacts(c, m) && TakenFacts(c, m) && Permitted(c, m, e)
    ensures TakenFacts(c, Next(c, m, e))
  {
    FreeToTakeStep(c, m, e);
    hide Permitted;
    hide Next;
    hide LoopVerdict;
    if Next(c, m, e).doing.Some? { DoingAfter(c, m, e); }
  }

  lemma WaitFactsStep(c: Config, m: Monitor, e: Entry)
    requires WaitFacts(c, m) && Permitted(c, m, e)
    ensures WaitFacts(c, Next(c, m, e))
  {
    hide Permitted;
    hide Next;
    BegunFactsStep(c, m, e);
    AskedFactsStep(c, m, e);
    GrantedFactsStep(c, m, e);
    TakenFactsStep(c, m, e);
  }

  lemma {:induction false} WaitFactsHold(c: Config, log: seq<Entry>, k: nat)
    requires Legal(c, log) && k <= |log|
    ensures WaitFacts(c, Replay(c, log, k))
  {
    hide Next;
    hide Permitted;
    if k > 0 {
      WaitFactsHold(c, log, k - 1);
      assert PermittedAt(c, log, k - 1);
      WaitFactsStep(c, Replay(c, log, k - 1), log[k - 1]);
    }
  }

  /** The action that the run last waited for can still be executed: the stored run waits for it, under a
      digest that can be granted, in an open session; or it is about to be executed. */
  predicate WaitIsOpen(m: Monitor) { CanBeTakenUp(m) || (m.copy == Some(Executing) && m.doing.Some? && m.doing.value.approved) }

  predicate CanBeTakenUp(m: Monitor) {
    m.stored == AwaitingApproval && m.asked.Some? && m.asked.value.1 != "" && !m.closed
  }

  /** The history can go on with an approved execution before the run waits again. */
  ghost predicate ExecutesTheWait(c: Config, log: seq<Entry>, more: seq<Entry>) {
    && Legal(c, log + more)
    && exists n | 0 <= n < |more| :: more[n].Executed? && more[n].approved && forall i | 0 <= i < n :: !IsAsk(more[i])
  }

  lemma NotTakenUp(c: Config, m: Monitor, e: Entry)
    requires BegunFacts(m) && AskedFacts(c, m) && GrantedFacts(m) && Permitted(c, m, e) && !CanBeTakenUp(m) && !IsAsk(e)
    ensures !CanBeTakenUp(Next(c, m, e)) && !(e.Write? && e.ok && e.why.Resuming?)
  {
    hide Passes;
    hide OwedAfter;
    hide MayCheck;
    hide Granted;
    hide LoopVerdict;
  }

  lemma ShutWaitStaysShut(c: Config, m: Monitor, e: Entry)
    requires WaitFacts(c, m) && Permitted(c, m, e) && !WaitIsOpen(m) && !IsAsk(e)
    ensures !WaitIsOpen(Next(c, m, e)) && !(e.Executed? && e.approved)
  {
    hide LoopVerdict;
    hide CanBeTakenUp;
    hide Transition;
    NotTakenUp(c, m, e);
  }

  lemma {:induction false} ShutWaitNeverExecutes(c: Config, log: seq<Entry>, k: nat, n: nat)
    requires Legal(c, log) && k <= n < |log| && !WaitIsOpen(Replay(c, log, k))
    requires forall i | k <= i < n :: !IsAsk(log[i])
    ensures !WaitIsOpen(Replay(c, log, n)) && !(log[n].Executed? && log[n].approved)
    decreases n
  {
    hide Permitted;
    hide Next;
    hide WaitIsOpen;
    WaitFactsHold(c, log, n);
    assert PermittedAt(c, log, n);
    if k < n {
      ShutWaitNeverExecutes(c, log, k, n - 1);
      WaitFactsHold(c, log, n - 1);
      assert PermittedAt(c, log, n - 1);
      ShutWaitStaysShut(c, Replay(c, log, n - 1), log[n - 1]);
    }
    if !IsAsk(log[n]) { ShutWaitStaysShut(c, Replay(c, log, n), log[n]); }
  }

  /** One permitted entry more. */
  lemma AndThen(c: Config, log: seq<Entry>, more: seq<Entry>, m: Monitor, e: Entry) returns (longer: seq<Entry>, next: Monitor)
    requires Legal(c, log + more) && Replay(c, log + more, |log + more|) == m && Permitted(c, m, e)
    ensures longer == more + [e] && next == Next(c, m, e)
    ensures Legal(c, log + longer) && Replay(c, log + longer, |log + longer|) == next
  {
    hide Permitted;
    hide Next;
    longer, next := more + [e], Next(c, m, e);
    assert log + longer == log + more + [e];
    Extend(c, log + more, e);
  }

  /** An invocation that takes up the wait, from the grant on. */
  lemma TakenUp(c: Config, log: seq<Entry>, begun: seq<Entry>, m: Monitor) returns (more: seq<Entry>)
    requires Legal(c, log + begun) && Replay(c, log + begun, |log + begun|) == m && WaitFacts(c, m)
    requires m.stored == AwaitingApproval && m.asked.Some? && m.asked.value.1 != "" && m.copy.Some? && !m.rejected
    requires forall i | 0 <= i < |begun| :: !IsAsk(begun[i])
    ensures ExecutesTheWait(c, log, more)
  {
    var (action, digest) := m.asked.value;
    var last: Monitor := m;
    more, last := Resumed(c, log, begun, m, action, digest);
    WhatNeedsApproval(c.profile, action);
    hide LoopVerdict;
    hide Legal;
    var before := |more|;
    more, last := AndThen(c, log, more, last, Executed(action, true, true));
    assert more[before].Executed? && more[before].approved;
  }

  lemma Consumed(c: Config, log: seq<Entry>, begun: seq<Entry>, m: Monitor, digest: Digest)
    returns (more: seq<Entry>, last: Monitor)
    requires Legal(c, log + begun) && Replay(c, log + begun, |log + begun|) == m && digest != ""
    requires forall i | 0 <= i < |begun| :: !IsAsk(begun[i])
    ensures Legal(c, log + more) && Replay(c, log + more, |log + more|) == last
    ensures last == m.(consumed := Some(digest), grants := last.grants, issued := m.issued + 1)
    ensures forall i | 0 <= i < |more| :: !IsAsk(more[i])
  {
    hide LoopVerdict;
    hide Legal;
    more, last := AndThen(c, log, begun, m, RunProtocol.Grant(digest));
    more, last := AndThen(c, log, more, last, RunProtocol.Consume(digest));
  }

  lemma Resumed(c: Config, log: seq<Entry>, begun: seq<Entry>, m: Monitor, action: Action, digest: Digest)
    returns (more: seq<Entry>, last: Monitor)
    requires Legal(c, log + begun) && Replay(c, log + begun, |log + begun|) == m && WaitFacts(c, m)
    requires m.stored == AwaitingApproval && m.asked == Some((action, digest)) && digest != "" && m.copy.Some? && !m.rejected
    requires forall i | 0 <= i < |begun| :: !IsAsk(begun[i])
    ensures Legal(c, log + more) && Replay(c, log + more, |log + more|) == last
    ensures last.copy == Some(Executing) && last.doing == Some(Doing(action, true)) && last.due == Nothing && last.owed == []
    ensures forall i | 0 <= i < |more| :: !IsAsk(more[i])
  {
    hide LoopVerdict;
    hide Legal;
    var before: Monitor := m;
    more, before := Consumed(c, log, begun, m, digest);
    assert Permitted(c, before, Write(AwaitingApproval, Executing, Resuming(action, digest), true));
    more, last := AndThen(c, log, more, before, Write(AwaitingApproval, Executing, Resuming(action, digest), true));
  }

  lemma OpenWaitExecutes(c: Config, log: seq<Entry>) returns (more: seq<Entry>)
    requires Legal(c, log) && WaitIsOpen(Replay(c, log, |log|))
    ensures ExecutesTheWait(c, log, more)
  {
    var m := Replay(c, log, |log|);
    WaitFactsHold(c, log, |log|);
    assert log + [] == log;
    more := [];
    if m.copy == Some(Executing) {
      var action := m.doing.value.action;
      WhatNeedsApproval(c.profile, action);
      var last: Monitor;
      more, last := AndThen(c, log, more, m, Executed(action, true, true));
      assert more[0].Executed? && more[0].approved;
    } else if m.copy.Some? && !m.rejected {
      more := TakenUp(c, log, more, m);
    } else {
      if m.copy.Some? {
        more, m := AndThen(c, log, more, m, Write(AwaitingApproval, Stopped, Stopping(ApprovalRejected), false));
      }
      more, m := AndThen(c, log, more, m, Began(AwaitingApproval));
      WaitFactsHold(c, log + more, |log + more|);
      more := TakenUp(c, log, more, m);
    }
  }

  /** At every point of every history, an approved execution of the last wait can follow exactly when that wait
      is open. That a rejection of it has been noted changes nothing: only what moves the stored run, or closes
      the session, does. */
  lemma WaitCanExecute(c: Config, log: seq<Entry>)
    requires Legal(c, log)
    ensures (exists more :: ExecutesTheWait(c, log, more)) <==> WaitIsOpen(Replay(c, log, |log|))
  {
    if WaitIsOpen(Replay(c, log, |log|)) {
      var more := OpenWaitExecutes(c, log);
    } else {
      forall more: seq<Entry> ensures !ExecutesTheWait(c, log, more) {
        if ExecutesTheWait(c, log, more) {
          var n :| 0 <= n < |more| && more[n].Executed? && more[n].approved && forall i | 0 <= i < n :: !IsAsk(more[i]);
          assert (log + more)[..|log|] == log;
          ReplayPrefix(c, log, log + more, |log|);
          ShutWaitNeverExecutes(c, log + more, |log|, |log| + n);
        }
      }
    }
  }

  /** The entries that move the stored run. */
  predicate Moves(e: Entry) { (e.Write? && e.ok) || e.External? }

  lemma {:induction false} WaitsUntilMoved(c: Config, log: seq<Entry>, w: nat, k: nat)
    requires Legal(c, log) && w < k <= |log| && IsAsk(log[w]) && forall n | w < n < k :: !IsAsk(log[n])
    ensures var m := Replay(c, log, k);
            && (m.stored == AwaitingApproval <==> forall n | w < n < k :: !Moves(log[n]))
            && (m.stored == AwaitingApproval ==> m.asked == Some((log[w].why.action, log[w].why.digest)))
    decreases k
  {
    assert PermittedAt(c, log, k - 1);
    if k > w + 1 {
      WaitsUntilMoved(c, log, w, k - 1);
      assert (forall n | w < n < k :: !Moves(log[n])) <==> (forall n | w < n < k - 1 :: !Moves(log[n])) && !Moves(log[k - 1]);
    }
  }

  lemma {:induction false} RejectedStays(c: Config, log: seq<Entry>, r: nat, k: nat)
    requires r < k <= |log| && log[r] == Noted(RejectedByUser, true) && forall n | r < n < k :: !log[n].Began?
    ensures Replay(c, log, k).rejected
    decreases k
  {
    if k > r + 1 { RejectedStays(c, log, r, k - 1); }
  }

  /** When the invocation that noted a rejection has ended, the rejected action can still be executed exactly
      if the session has not been closed and nothing, neither the rejection nor another writer, has moved the
      stored run since it began to wait. */
  lemma RejectedCanExecute(c: Config, log: seq<Entry>, w: nat, r: nat)
    requires Legal(c, log) && w < r < |log| && IsAsk(log[w]) && (forall n | w < n < |log| :: !IsAsk(log[n]))
    requires log[r] == Noted(RejectedByUser, true) && Replay(c, log, |log|).copy.None? && forall n | r < n < |log| :: !log[n].Began?
    ensures (exists more :: ExecutesTheWait(c, log, more)) <==>
              && !Replay(c, log, |log|).closed && log[w].why.digest != ""
              && forall n | w < n < |log| :: !Moves(log[n])
  {
    hide Permitted;
    hide Next;
    hide ExecutesTheWait;
    WaitCanExecute(c, log);
    WaitsUntilMoved(c, log, w, |log|);
    RejectedStays(c, log, r, |log|);
  }

  /** What each profile lets the loop execute: a review no mutation; a supervised run no mutation without
      approval; workspace-auto without approval only mutations that are not guarded; an unknown profile
      nothing; and no profile a check, or the finish action. */
  lemma ProfileLimitsExecution(c: Config, log: seq<Entry>, k: nat)
    requires Legal(c, log) && k < |log| && log[k].Executed?
    ensures var action := log[k].action;
            && !c.profile.Unrecognized? && !action.kind.RunCheck? && action.kind != Finish
            && (IsMutation(action.kind) ==> !c.profile.Review?)
            && (IsMutation(action.kind) && c.profile.Supervised? ==> log[k].approved)
            && (IsMutation(action.kind) && !log[k].approved ==> !action.args.guardFact && !action.args.payloadGuarded)
            && (log[k].approved ==> IsMutation(action.kind))
  {
    ApprovalFactsHold(c, log, k);
    assert PermittedAt(c, log, k);
    WhatNeedsApproval(c.profile, log[k].action);
    WhatMutatesUnasked(c.profile, log[k].action);
  }

  // ---------------------------------------------------------------- budgets

  function Calls(log: seq<Entry>, k: nat): nat
    requires k <= |log|
  {
    if k == 0 then 0 else Calls(log, k - 1) + if log[k - 1].Called? then 1 else 0
  }

  /** The mutations that have been executed successfully. */
  function Mutations(log: seq<Entry>, k: nat): nat
    requires k <= |log|
  {
    if k == 0 then 0
    else
      Mutations(log, k - 1)
      + OneIf(Landed(log[k - 1]))
  }

  function AtLeastZero(limit: int): nat { if limit < 0 then 0 else limit }

  function OneIf(b: bool): nat { if b then 1 else 0 }

  /** A mutation that has been executed successfully. */
  predicate Landed(e: Entry) { e.Executed? && e.ok && IsMutation(e.action.kind) }

  predicate WithinLimits(c: Config, m: Monitor) {
    && m.usage.decisions <= AtLeastZero(c.limits.decisions)
    && m.usage.protocolRepairs <= AtLeastZero(c.limits.protocolRepairs)
    && m.usage.mutations <= AtLeastZero(c.limits.mutations)
  }

  /** What the calls of the provider so far are paid from, for "r" repairs a decision. */
  function Paid(m: Monitor, r: nat): nat {
    m.usage.decisions * (r + 1) + m.usage.protocolRepairs + OneIf(m.due == AnAnswer)
  }

  lemma BudgetStep(c: Config, m: Monitor, e: Entry)
    requires Permitted(c, m, e) && WithinLimits(c, m)
    ensures var after := Next(c, m, e); var r := AtLeastZero(c.limits.protocolRepairs);
            && WithinLimits(c, after) && Paid(m, r) + OneIf(e.Called?) <= Paid(after, r)
            && after.usage.mutations + OneIf(after.due == AMutation)
               == m.usage.mutations + OneIf(m.due == AMutation) + OneIf(Landed(e))
  {
    var r := AtLeastZero(c.limits.protocolRepairs);
    if e.Decision? && e.ok {
      assert (m.usage.decisions + 1) * (r + 1) == m.usage.decisions * (r + 1) + (r + 1);
    }
  }

  lemma {:induction false} BudgetFacts(c: Config, log: seq<Entry>, k: nat)
    requires Legal(c, log) && k <= |log|
    ensures var m := Replay(c, log, k);
            && WithinLimits(c, m) && Calls(log, k) <= Paid(m, AtLeastZero(c.limits.protocolRepairs))
            && Mutations(log, k) == m.usage.mutations + OneIf(m.due == AMutation)
  {
    if k > 0 {
      BudgetFacts(c, log, k - 1);
      assert PermittedAt(c, log, k - 1);
      BudgetStep(c, Replay(c, log, k - 1), log[k - 1]);
    }
  }

  lemma Product(a: nat, d: nat, r: nat)
    requires a <= d
    ensures a * (r + 1) + r + 1 <= (d + 1) * (r + 1)
  {
    assert (d + 1) * (r + 1) == d * (r + 1) + (r + 1);
    assert (d - a) * (r + 1) == d * (r + 1) - a * (r + 1) && (d - a) * (r + 1) >= 0;
  }

  /** Over all invocations of one loop the provider is called at most (D + 1) * (R + 1) times for D decisions and
      R protocol repairs, since each decision renews the repairs; and at most one successful mutation goes
      over the budget of mutations. */
  lemma BudgetBounds(c: Config, log: seq<Entry>)
    requires Legal(c, log)
    ensures Calls(log, |log|) <= (AtLeastZero(c.limits.decisions) + 1) * (AtLeastZero(c.limits.protocolRepairs) + 1)
    ensures Mutations(log, |log|) <= AtLeastZero(c.limits.mutations) + 1
  {
    hide Legal;
    hide Calls;
    BudgetFacts(c, log, |log|);
    Product(Replay(c, log, |log|).usage.decisions, AtLeastZero(c.limits.decisions), AtLeastZero(c.limits.protocolRepairs));
  }

  lemma LandedInTurn(c: Config, log: seq<Entry>, n: nat)
    requires Legal(c, log) && n < |log| && Landed(log[n])
    ensures Replay(c, log, n).due == Nothing
  {
    assert PermittedAt(c, log, n);
  }

  /** The budget of mutations itself is kept exactly when no successful mutation was executed with that budget
      already used up: execution comes first, and the budget is asked only afterwards. */
  lemma {:induction false} MutationLimitKept(c: Config, log: seq<Entry>, k: nat)
    requires Legal(c, log) && k <= |log|
    ensures Mutations(log, k) <= AtLeastZero(c.limits.mutations) <==>
              forall n | 0 <= n < k && Landed(log[n]) :: Replay(c, log, n).usage.mutations < AtLeastZero(c.limits.mutations)
  {
    hide Permitted;
    hide Next;
    if k > 0 {
      MutationLimitKept(c, log, k - 1);
      BudgetFacts(c, log, k - 1);
      if Landed(log[k - 1]) { LandedInTurn(c, log, k - 1); }
      assert Mutations(log, k) == Mutations(log, k - 1) + OneIf(Landed(log[k - 1]));
    }
  }

  function Executions(log: seq<Entry>, k: nat): nat
    requires k <= |log|
  {
    if k == 0 then 0 else Executions(log, k - 1) + if log[k - 1].Executed? then 1 else 0
  }

  lemma NobodyExecutesWhileWaiting(c: Config, log: seq<Entry>, k: nat)
    requires Legal(c, log) && k <= |log|
    ensures var m := Replay(c, log, k); m.asked.Some? && m.copy.Some? ==> m.copy.value == AwaitingApproval
  {
    ApprovalFactsHold(c, log, k);
  }

  /** The decisions that are used up but not yet executed. */
  function Open(m: Monitor): nat {
    OneIf(m.doing.Some?) + OneIf(m.asked.Some?) + OneIf(m.proposal.Some? && m.due != AnAnswer)
  }

  lemma ExecutionStep(c: Config, m: Monitor, e: Entry)
    requires Permitted(c, m, e) && (m.asked.Some? && m.copy.Some? ==> m.copy.value == AwaitingApproval)
    ensures var after := Next(c, m, e);
            OneIf(e.Executed?) + Open(after) - after.usage.decisions <= Open(m) - m.usage.decisions
  {
  }

  lemma {:induction false} ExecutionFacts(c: Config, log: seq<Entry>, k: nat)
    requires Legal(c, log) && k <= |log|
    ensures Executions(log, k) + Open(Replay(c, log, k)) <= Replay(c, log, k).usage.decisions
  {
    if k > 0 {
      ExecutionFacts(c, log, k - 1);
      NobodyExecutesWhileWaiting(c, log, k - 1);
      assert PermittedAt(c, log, k - 1);
      ExecutionStep(c, Replay(c, log, k - 1), log[k - 1]);
    }
  }

  /** Each execution, approved or not, has used up a decision of its own. */
  lemma ExecutionsAreDecided(c: Config, log: seq<Entry>)
    requires Legal(c, log)
    ensures Executions(log, |log|) <= AtLeastZero(c.limits.decisions)
  {
    ExecutionFacts(c, log, |log|);
    BudgetFacts(c, log, |log|);
  }

  predicate OverBudget(e: Entry) { (e.Mutation? || e.Decision? || e.Repair?) && !e.ok }

  lemma ExhaustedStep(c: Config, m: Monitor, e: Entry)
    requires Permitted(c, m, e) && (Exhausted(c, m) || OverBudget(e))
    ensures Exhausted(c, m)
    ensures var after := Next(c, m, e); after.due == m.due && after.usage == m.usage && after.proposal == m.proposal
  {
    hide LoopVerdict;
    hide Passes;
    hide Granted;
  }

  lemma {:induction false} StaysOverBudget(c: Config, log: seq<Entry>, k: nat, n: nat)
    requires Legal(c, log) && k < n <= |log| && OverBudget(log[k])
    ensures Replay(c, log, n).due == (if log[k].Mutation? then AMutation else AnAnswer)
    ensures Replay(c, log, n).usage == Replay(c, log, k).usage
    ensures Replay(c, log, n).proposal == Replay(c, log, k).proposal
    decreases n
  {
    assert PermittedAt(c, log, k) && PermittedAt(c, log, n - 1);
    assert Replay(c, log, k).due == if log[k].Mutation? then AMutation else AnAnswer;
    hide Permitted;
    hide Next;
    ExhaustedStep(c, Replay(c, log, k), log[k]);
    if n > k + 1 {
      StaysOverBudget(c, log, k, n - 1);
      ExhaustedStep(c, Replay(c, log, n - 1), log[n - 1]);
    }
  }

  /** Once a budget is exceeded, in this invocation or any later one, the provider is not called, nothing is
      validated or executed, and the run's stored state changes only by being stopped for that budget or by
      another writer. Resuming or rejecting a pending entry left behind is refused by the store. */
  lemma NothingFollowsOverBudget(c: Config, log: seq<Entry>, k: nat, n: nat)
    requires Legal(c, log) && k < n < |log| && OverBudget(log[k])
    ensures !log[n].Called? && !log[n].Checked? && !log[n].Executed?
    ensures log[n].Write? ==>
              || (log[n].why.Stopping? && log[n].why.code in {BudgetExhausted, ProtocolExhausted}
                  && (log[k].Mutation? ==> log[n].why.code == BudgetExhausted))
              || (log[n].from == AwaitingApproval && !log[n].ok)
  {
    StaysOverBudget(c, log, k, n);
    assert PermittedAt(c, log, n);
  }

  // ---------------------------------------------------------------- nothing is skipped

  /** A copy past preflight that is not waiting for approval is the stored state, unless the run has been
      stopped. */
  lemma {:induction false} CopyIsStored(c: Config, log: seq<Entry>, k: nat)
    requires Legal(c, log) && k <= |log|
    ensures var m := Replay(c, log, k);
            m.copy.Some? && m.copy.value !in {Created, Preflight, AwaitingApproval} ==> m.stored in {m.copy.value, Stopped}
  {
    if k > 0 {
      CopyIsStored(c, log, k - 1);
      assert PermittedAt(c, log, k - 1);
    }
  }

  /** The baseline has passed, and the run is stored where it was validated, or stopped. */
  predicate Stuck(m: Monitor) {
    && m.stored in {BaselineValidating, Stopped} && m.due == Nothing && m.started
    && (m.copy.Some? ==>
          || (m.copy.value == BaselineValidating && m.checked == Some(Baseline(true)) && m.owed == [])
          || m.copy.value in {AwaitingApproval, Stopped})
  }

  lemma StuckStep(c: Config, m: Monitor, e: Entry)
    requires Permitted(c, m, e) && Stuck(m)
    ensures Stuck(Next(c, m, e))
  {
    hide LoopVerdict;
    hide Passes;
    hide Granted;
  }

  lemma {:induction false} StuckAtBaseline(c: Config, log: seq<Entry>, i: nat, k: nat)
    requires Legal(c, log) && i < k <= |log| && IsCheck(log[i], Baseline(true))
    ensures Stuck(Replay(c, log, k))
    decreases k
  {
    assert PermittedAt(c, log, k - 1);
    if k == i + 1 {
      CopyIsStored(c, log, i);
      StartedWithCopy(c, log, i);
    } else {
      hide Permitted;
      hide Next;
      StuckAtBaseline(c, log, i, k - 1);
      StuckStep(c, Replay(c, log, k - 1), log[k - 1]);
    }
  }

  lemma {:induction false} StartedWithCopy(c: Config, log: seq<Entry>, k: nat)
    requires Legal(c, log) && k <= |log|
    ensures Replay(c, log, k).copy.Some? ==> Replay(c, log, k).started
  {
    if k > 0 {
      StartedWithCopy(c, log, k - 1);
      assert PermittedAt(c, log, k - 1);
    }
  }

  /** A run whose baseline validation passes is not worked on: no provider call and no execution follows, and
      the only update of the stored run that succeeds stops it for want of a reproduction. */
  lemma NoReproductionEndsRun(c: Config, log: seq<Entry>, i: nat, n: nat)
    requires Legal(c, log) && i < n < |log| && IsCheck(log[i], Baseline(true))
    ensures !log[n].Called? && !log[n].Executed? && !log[n].Checked?
    ensures log[n].Write? && log[n].ok ==> log[n].why == Stopping(NoReproduction)
  {
    StuckAtBaseline(c, log, i, n);
    assert PermittedAt(c, log, n);
  }

  ghost predicate Validated(log: seq<Entry>, i: nat, k: nat)
    requires k <= |log|
  {
    exists j | i < j < k :: log[j].Checked? && log[j].check.Current?
  }

  lemma {:induction false} ValidationDue(c: Config, log: seq<Entry>, i: nat, k: nat)
    requires Legal(c, log) && i < k <= |log|
    requires log[i].Executed? && log[i].ok && IsMutation(log[i].action.kind)
    ensures Validated(log, i, k) || Replay(c, log, k).due in {AMutation, AValidation}
    decreases k
  {
    if k > i + 1 {
      ValidationDue(c, log, i, k - 1);
      assert PermittedAt(c, log, k - 1);
      if Validated(log, i, k - 1) {
        var j :| i < j < k - 1 && log[j].Checked? && log[j].check.Current?;
      } else if log[k - 1].Checked? {
        assert log[k - 1].check.Current?;
      }
    }
  }

  /** Every successful mutation is validated before the provider is asked again, before anything else is
      executed, and before any final validation. */
  lemma MutationsAreValidated(c: Config, log: seq<Entry>, i: nat, n: nat)
    requires Legal(c, log) && i < n < |log|
    requires log[i].Executed? && log[i].ok && IsMutation(log[i].action.kind)
    requires log[n].Called? || log[n].Executed? || (log[n].Checked? && log[n].check.Final?)
    ensures exists j | i < j < n :: log[j].Checked? && log[j].check.Current?
  {
    ValidationDue(c, log, i, n);
    assert PermittedAt(c, log, n);
  }

  /** The events appended from entry i up to entry k. */
  function Notes(log: seq<Entry>, i: nat, k: nat): seq<Note>
    requires i <= k <= |log|
    decreases k
  {
    if i == k then []
    else Notes(log, i, k - 1) + match log[k - 1] case Noted(note, true) => [note] case _ => []
  }

  lemma {:induction false} OwedIsPaid(c: Config, log: seq<Entry>, i: nat, k: nat)
    requires Legal(c, log) && i <= k <= |log|
    requires forall n | i <= n < k :: !log[n].Began?
    ensures Replay(c, log, i).owed <= Notes(log, i, k) + Replay(c, log, k).owed
    decreases k
  {
    if i < k {
      OwedIsPaid(c, log, i, k - 1);
      assert PermittedAt(c, log, k - 1);
      OwedStep(c, log, i, k);
    }
  }

  lemma OwedAfterEntry(c: Config, m: Monitor, e: Entry)
    requires Permitted(c, m, e) && !e.Began? && m.owed != []
    ensures var after := Next(c, m, e).owed;
            if e.Noted? && e.ok then m.owed == [e.note] + after else after == m.owed
  {
    hide LoopVerdict;
    hide Passes;
    hide Granted;
  }

  lemma OwedStep(c: Config, log: seq<Entry>, i: nat, k: nat)
    requires Legal(c, log) && i < k <= |log| && PermittedAt(c, log, k - 1) && !log[k - 1].Began?
    ensures Notes(log, i, k - 1) + Replay(c, log, k - 1).owed <= Notes(log, i, k) + Replay(c, log, k).owed
  {
    hide Permitted;
    hide Next;
    hide Legal;
    var before, after := Replay(c, log, k - 1).owed, Replay(c, log, k).owed;
    var said, saying := Notes(log, i, k - 1), Notes(log, i, k);
    if before == [] {
      assert said + before == said <= saying <= saying + after;
    } else {
      OwedAfterEntry(c, Replay(c, log, k - 1), log[k - 1]);
      if log[k - 1].Noted? && log[k - 1].ok { assert saying + after == said + before; }
    }
  }

  lemma OwedIsSaid(c: Config, log: seq<Entry>, i: nat, n: nat)
    requires Legal(c, log) && i <= n < |log| && (forall j | i <= j <= n :: !log[j].Began?)
    requires log[n].Called? || (log[n].Write? && log[n].to != Stopped)
    ensures Replay(c, log, i).owed <= Notes(log, i, n)
  {
    assert PermittedAt(c, log, n);
    OwedIsPaid(c, log, i, n);
    assert Notes(log, i, n) + [] == Notes(log, i, n);
  }

  /** The events that an entry makes the loop owe: why a validation failed and what was fed back, that an
      action failed or was denied, that an answer was invalid. */
  function Owes(c: Config, log: seq<Entry>, i: nat): seq<Note>
    requires i < |log|
  {
    match log[i]
    case Checked(check, _) => OwedAfter(check)
    case Repair(true) => [ProtocolError]
    case Executed(_, false, false) => [ActionFailed]
    case Decision(true) =>
      var proposal := Replay(c, log, i).proposal;
      if proposal.Some? && LoopVerdict(c.profile, proposal.value) == Deny then [PolicyDenied, FeedbackProduced] else []
    case _ => []
  }

  lemma OwedByEntry(c: Config, log: seq<Entry>, i: nat)
    requires i < |log| && Owes(c, log, i) != []
    ensures Replay(c, log, i + 1).owed == Owes(c, log, i)
  {
  }

  /** Whatever an entry makes the loop owe the event log has been appended, in order, before the same
      invocation calls the provider again or moves the run on. */
  lemma AuditIsComplete(c: Config, log: seq<Entry>, i: nat, n: nat)
    requires Legal(c, log) && i < n < |log| && (forall j | i < j <= n :: !log[j].Began?)
    requires log[n].Called? || (log[n].Write? && log[n].to != Stopped)
    ensures Owes(c, log, i) <= Notes(log, i + 1, n)
  {
    if Owes(c, log, i) != [] {
      OwedByEntry(c, log, i);
      OwedIsSaid(c, log, i + 1, n);
    }
  }

  // ---------------------------------------------------------------- what a stop from outside leaves

  lemma OverStep(c: Config, m: Monitor, e: Entry)
    requires Permitted(c, m, e) && Terminal(m.stored)
    ensures Next(c, m, e).stored == m.stored && (m.doing.None? ==> Next(c, m, e).doing.None?)
  {
    hide LoopVerdict;
    hide Passes;
  }

  lemma {:induction false} StaysOver(c: Config, log: seq<Entry>, k: nat, n: nat)
    requires Legal(c, log) && k <= n <= |log| && Terminal(Replay(c, log, k).stored)
    ensures Replay(c, log, n).stored == Replay(c, log, k).stored
    ensures Replay(c, log, k).doing.None? ==> Replay(c, log, n).doing.None?
    decreases n
  {
    hide Permitted;
    hide Next;
    if n > k {
      StaysOver(c, log, k, n - 1);
      assert PermittedAt(c, log, n - 1);
      OverStep(c, Replay(c, log, n - 1), log[n - 1]);
    }
  }

  lemma ExecutionEndsDoing(c: Config, log: seq<Entry>, k: nat)
    requires Legal(c, log) && k < |log| && log[k].Executed?
    ensures Replay(c, log, k).doing.Some? && Replay(c, log, k + 1).doing.None?
  {
    assert PermittedAt(c, log, k);
  }

  /** Once the stored run is over, at most one more action is executed: the one already under way when
      another writer stopped the run. */
  lemma OverEndsExecution(c: Config, log: seq<Entry>, k: nat, i: nat, j: nat)
    requires Legal(c, log) && k <= i <= j < |log| && Terminal(Replay(c, log, k).stored)
    requires log[i].Executed? && log[j].Executed?
    ensures i == j
  {
    ExecutionEndsDoing(c, log, i);
    ExecutionEndsDoing(c, log, j);
    if i < j {
      StaysOver(c, log, k, i + 1);
      StaysOver(c, log, i + 1, j);
    }
  }

  /** The action that can still be executed after the stored run is over. */
  predicate UnderWay(m: Monitor) { m.copy == Some(Executing) && m.doing.Some? && m.doing.value.action.kind != Finish }

  lemma IdleStep(c: Config, m: Monitor, e: Entry)
    requires Permitted(c, m, e) && Terminal(m.stored) && !UnderWay(m) && TakenFacts(c, m)
    ensures !UnderWay(Next(c, m, e))
  {
    hide Passes;
    hide OwedAfter;
    hide MayCheck;
    hide Granted;
    hide LoopVerdict;
  }

  lemma {:induction false} StaysOverAndIdle(c: Config, log: seq<Entry>, k: nat, n: nat)
    requires Legal(c, log) && k <= n <= |log|
    requires Terminal(Replay(c, log, k).stored) && !UnderWay(Replay(c, log, k))
    ensures !UnderWay(Replay(c, log, n))
    decreases n
  {
    hide Permitted;
    hide Next;
    if n > k {
      StaysOverAndIdle(c, log, k, n - 1);
      StaysOver(c, log, k, n - 1);
      WaitFactsHold(c, log, n - 1);
      assert PermittedAt(c, log, n - 1);
      IdleStep(c, Replay(c, log, n - 1), log[n - 1]);
    }
  }

  ghost predicate ExecutesLater(c: Config, log: seq<Entry>, more: seq<Entry>) {
    Legal(c, log + more) && exists n | |log| <= n < |log + more| :: (log + more)[n].Executed?
  }

  /** After the stored run is over an execution can follow exactly when one was under way. */
  lemma ExecutionAfterTheEnd(c: Config, log: seq<Entry>)
    requires Legal(c, log) && Terminal(Replay(c, log, |log|).stored)
    ensures (exists more :: ExecutesLater(c, log, more)) <==> UnderWay(Replay(c, log, |log|))
  {
    var m := Replay(c, log, |log|);
    if UnderWay(m) {
      var e := Executed(m.doing.value.action, m.doing.value.approved, true);
      WaitFactsHold(c, log, |log|);
      Extend(c, log, e);
      assert (log + [e])[|log|].Executed?;
      assert ExecutesLater(c, log, [e]);
    }
    forall more | ExecutesLater(c, log, more) ensures UnderWay(m) {
      var longer := log + more;
      assert longer[..|log|] == log;
      ReplayPrefix(c, log, longer, |log|);
      var n :| |log| <= n < |longer| && longer[n].Executed?;
      assert PermittedAt(c, longer, n);
      if !UnderWay(m) { StaysOverAndIdle(c, longer, |log|, n); }
    }
  }
}
