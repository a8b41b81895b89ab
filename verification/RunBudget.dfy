/** Which configurations allow a run to go over its budget of mutations: a condition on the limits, the profile
    and the digests alone. */
module RunBudget {

  import opened RunState
  import opened Wrappers
  import opened Policy
  import opened Budget
  import opened Pipeline
  import opened RunProtocol
  import opened RunHistory
  import W = RunWorld
  import RunWitness

  ghost predicate GoesOver(c: Config, log: seq<Entry>) {
    Legal(c, log) && Mutations(log, |log|) > AtLeastZero(c.limits.mutations)
  }

  /** A mutation that the policy lets through, or lets the user approve under a digest that can be granted. */
  ghost predicate Possible(c: Config, action: Action) {
    && IsMutation(action.kind)
    && (LoopVerdict(c.profile, action) == Allow
        || (LoopVerdict(c.profile, action) == RequireApproval && c.digest(action) != ""))
  }

  // ---------------------------------------------------------------- the condition is necessary

  lemma {:induction false} SomeLanded(log: seq<Entry>, k: nat)
    requires k <= |log| && Mutations(log, k) > 0
    ensures exists n | 0 <= n < k :: Landed(log[n])
  {
    if !Landed(log[k - 1]) {
      SomeLanded(log, k - 1);
      var n :| 0 <= n < k - 1 && Landed(log[n]);
    }
  }

  lemma {:induction false} MutationsAreExecutions(log: seq<Entry>, k: nat)
    requires k <= |log|
    ensures Mutations(log, k) <= Executions(log, k)
  {
    if k > 0 { MutationsAreExecutions(log, k - 1); }
  }

  lemma LandedIsPossible(c: Config, log: seq<Entry>, n: nat)
    requires Legal(c, log) && n < |log| && Landed(log[n])
    ensures Possible(c, log[n].action)
  {
    hide LoopVerdict;
    ApprovalFactsHold(c, log, n);
    assert PermittedAt(c, log, n);
    if log[n].approved {
      var d := c.digest(log[n].action);
      var x: nat :| x < n && log[x] == RunProtocol.Consume(d);
      assert PermittedAt(c, log, x);
      WaitFactsHold(c, log, x);
    }
  }

  lemma Needed(c: Config, log: seq<Entry>)
    requires GoesOver(c, log)
    ensures AtLeastZero(c.limits.mutations) < c.limits.decisions && exists action :: Possible(c, action)
  {
    hide Possible;
    ExecutionsAreDecided(c, log);
    MutationsAreExecutions(log, |log|);
    SomeLanded(log, |log|);
    var n :| 0 <= n < |log| && Landed(log[n]);
    LandedIsPossible(c, log, n);
  }

  // ---------------------------------------------------------------- and sufficient

  /** A legal history and what it amounts to. */
  ghost predicate Reaches(c: Config, log: seq<Entry>, m: Monitor) {
    Legal(c, log) && Replay(c, log, |log|) == m
  }

  lemma {:induction false} MutationsOfPrefix(log: seq<Entry>, e: Entry, k: nat)
    requires k <= |log|
    ensures Mutations(log + [e], k) == Mutations(log, k)
  {
    if k > 0 { MutationsOfPrefix(log, e, k - 1); }
  }

  /** A permitted entry more. */
  lemma Then(c: Config, log: seq<Entry>, m: Monitor, e: Entry) returns (longer: seq<Entry>, next: Monitor)
    requires Reaches(c, log, m) && Permitted(c, m, e)
    ensures longer == log + [e] && next == Next(c, m, e) && Reaches(c, longer, next)
    ensures Mutations(longer, |longer|) == Mutations(log, |log|) + OneIf(Landed(e))
  {
    Extend(c, log, e);
    MutationsOfPrefix(log, e, |log|);
    longer, next := log + [e], Next(c, m, e);
  }

  /** Nothing is due, owed or in hand. */
  predicate Free(m: Monitor) {
    && m.started && !m.closed && m.due == Nothing && m.owed == [] && m.proposal.None? && m.asked.None? && m.grants == {}
  }

  /** About to ask the provider, after "n" decisions that were all mutations within their budget. */
  predicate Poised(m: Monitor, n: nat) {
    Free(m) && m.stored == Deciding && m.copy == Some(Deciding) && m.doing.None? && m.usage == Usage(n, n, 0)
  }

  /** About to execute the action of one decision more. */
  predicate Armed(m: Monitor, n: nat, action: Action) {
    && Free(m) && m.stored == Executing && m.copy == Some(Executing) && m.usage == Usage(n + 1, n, 0)
    && m.doing.Some? && m.doing.value.action == action
  }

  /** In preflight, with nothing done yet. */
  predicate Fresh(m: Monitor) {
    Free(m) && m.stored == Preflight && m.copy == Some(Preflight) && m.doing.None? && m.usage == Usage(0, 0, 0)
  }

  lemma Begun(c: Config) returns (log: seq<Entry>, m: Monitor)
    requires ValidConfig(c)
    ensures Reaches(c, log, m) && Fresh(m) && Mutations(log, |log|) == 0
  {
    log, m := [], Initial(c);
    log, m := Then(c, log, m, Began(c.initial));
    if c.initial == Created {
      log, m := Then(c, log, m, Write(Created, Preflight, Simple, true));
    }
  }

  /** The baseline fails. */
  lemma BaselineFails(c: Config, log: seq<Entry>, m: Monitor) returns (longer: seq<Entry>, next: Monitor)
    requires Reaches(c, log, m) && Fresh(m) && c.profile != Review
    ensures Reaches(c, longer, next) && Mutations(longer, |longer|) == Mutations(log, |log|)
    ensures Free(next.(owed := [])) && next.owed == [BaselineFailed] && next.checked == Some(Baseline(false))
    ensures next.stored == BaselineValidating && next.copy == Some(BaselineValidating)
    ensures next.doing.None? && next.usage == Usage(0, 0, 0)
  {
    hide Reaches;
    hide Passes;
    W.FailingFails(c.stages);
    longer, next := Then(c, log, m, Write(Preflight, BaselineValidating, Simple, true));
    longer, next := Then(c, longer, next, Checked(Baseline(false), W.FAILING));
  }

  lemma Prepared(c: Config) returns (log: seq<Entry>, m: Monitor)
    requires ValidConfig(c) && c.profile != Review
    ensures Reaches(c, log, m) && Poised(m, 0) && Mutations(log, |log|) == 0
  {
    hide Reaches;
    log, m := Begun(c);
    log, m := BaselineFails(c, log, m);
    log, m := Then(c, log, m, Noted(BaselineFailed, true));
    log, m := Then(c, log, m, Write(BaselineValidating, Deciding, Simple, true));
  }

  /** The provider decides on the action, and the budget admits it. */
  lemma Proposed(c: Config, log: seq<Entry>, m: Monitor, n: nat, action: Action) returns (longer: seq<Entry>, next: Monitor)
    requires Reaches(c, log, m) && Poised(m, n) && n < c.limits.decisions && LoopVerdict(c.profile, action) != Deny
    ensures Reaches(c, longer, next) && Mutations(longer, |longer|) == Mutations(log, |log|)
    ensures next == m.(proposal := Some(action), usage := Usage(n + 1, n, 0))
  {
    hide LoopVerdict;
    hide Reaches;
    longer, next := Then(c, log, m, Called(Some(action)));
    longer, next := Then(c, longer, next, Decision(true));
  }

  /** The run waits for the action. */
  lemma Waits(c: Config, log: seq<Entry>, m: Monitor, action: Action) returns (longer: seq<Entry>, next: Monitor)
    requires Reaches(c, log, m) && Free(m.(proposal := None)) && m.stored == Deciding && m.copy == Some(Deciding)
    requires m.proposal == Some(action) && LoopVerdict(c.profile, action) == RequireApproval
    ensures Reaches(c, longer, next) && Mutations(longer, |longer|) == Mutations(log, |log|)
    ensures Free(next.(asked := None)) && next.asked == Some((action, c.digest(action)))
    ensures next.stored == AwaitingApproval && next.copy.None? && next.usage == m.usage
  {
    hide LoopVerdict;
    hide Reaches;
    longer, next := Then(c, log, m, Write(Deciding, AwaitingApproval, Asking(action, c.digest(action)), true));
    longer, next := Then(c, longer, next, Returned);
  }

  /** The user grants it, and an invocation consumes the grant. */
  lemma GrantTaken(c: Config, log: seq<Entry>, m: Monitor, d: Digest) returns (longer: seq<Entry>, next: Monitor)
    requires Reaches(c, log, m) && Free(m.(asked := None)) && m.stored == AwaitingApproval && m.copy.None? && d != ""
    ensures Reaches(c, longer, next) && Mutations(longer, |longer|) == Mutations(log, |log|)
    ensures Free(next.(asked := None)) && next.asked == m.asked && next.stored == AwaitingApproval && next.usage == m.usage
    ensures next.copy == Some(AwaitingApproval) && next.consumed == Some(d) && !next.rejected
  {
    hide LoopVerdict;
    hide Reaches;
    longer, next := Then(c, log, m, RunProtocol.Grant(d));
    longer, next := Then(c, longer, next, Began(AwaitingApproval));
    longer, next := Then(c, longer, next, RunProtocol.Consume(d));
  }

  /** The user approves the action. */
  lemma Approved(c: Config, log: seq<Entry>, m: Monitor, action: Action) returns (longer: seq<Entry>, next: Monitor)
    requires Reaches(c, log, m) && Free(m.(proposal := None)) && m.stored == Deciding && m.copy == Some(Deciding)
    requires m.proposal == Some(action) && LoopVerdict(c.profile, action) == RequireApproval && c.digest(action) != ""
    ensures Reaches(c, longer, next) && Mutations(longer, |longer|) == Mutations(log, |log|)
    ensures Free(next) && next.stored == Executing && next.copy == Some(Executing) && next.usage == m.usage
    ensures next.doing == Some(Doing(action, true))
  {
    hide LoopVerdict;
    hide Reaches;
    var d := c.digest(action);
    longer, next := Waits(c, log, m, action);
    longer, next := GrantTaken(c, longer, next, d);
    longer, next := Then(c, longer, next, Write(AwaitingApproval, Executing, Resuming(action, d), true));
  }

  lemma Arms(c: Config, log: seq<Entry>, m: Monitor, n: nat, action: Action) returns (longer: seq<Entry>, next: Monitor)
    requires Reaches(c, log, m) && Poised(m, n) && n < c.limits.decisions && Possible(c, action)
    ensures Reaches(c, longer, next) && Armed(next, n, action) && Mutations(longer, |longer|) == Mutations(log, |log|)
  {
    hide LoopVerdict;
    hide Reaches;
    longer, next := Proposed(c, log, m, n, action);
    if LoopVerdict(c.profile, action) == Allow {
      longer, next := Then(c, longer, next, Write(Deciding, Executing, Simple, true));
    } else {
      longer, next := Approved(c, longer, next, action);
    }
  }

  /** The mutation lands. */
  lemma Lands(c: Config, log: seq<Entry>, m: Monitor, n: nat, action: Action) returns (longer: seq<Entry>, next: Monitor)
    requires Reaches(c, log, m) && Armed(m, n, action) && IsMutation(action.kind)
    ensures Reaches(c, longer, next) && Mutations(longer, |longer|) == Mutations(log, |log|) + 1
    ensures next == m.(doing := None, due := AMutation)
  {
    hide LoopVerdict;
    hide Reaches;
    longer, next := Then(c, log, m, Executed(action, m.doing.value.approved, true));
  }

  /** A mutation within the budget is validated, whatever comes of it. */
  lemma Checks(c: Config, log: seq<Entry>, m: Monitor, n: nat) returns (longer: seq<Entry>, next: Monitor)
    requires Reaches(c, log, m) && Free(m.(due := Nothing)) && m.due == AMutation && m.doing.None?
    requires m.stored == Executing && m.copy == Some(Executing) && m.usage == Usage(n + 1, n, 0)
    requires n < c.limits.mutations && c.profile != Review
    ensures Reaches(c, longer, next) && Mutations(longer, |longer|) == Mutations(log, |log|)
    ensures Free(next.(owed := [])) && next.checked.Some? && next.checked.value.Current?
    ensures next.owed == OwedAfter(next.checked.value) && next.stored == Validating && next.copy == Some(Validating)
    ensures next.doing.None? && next.usage == Usage(n + 1, n + 1, 0)
  {
    hide LoopVerdict;
    hide Reaches;
    hide Passes;
    longer, next := Then(c, log, m, Mutation(true));
    longer, next := Then(c, longer, next, Write(Executing, Validating, Simple, true));
    longer, next := Then(c, longer, next, Checked(Current(Passes(c.stages, W.PASSING, false)), W.PASSING));
  }

  /** The events are appended, and the provider can be asked again. */
  lemma Returns(c: Config, log: seq<Entry>, m: Monitor, n: nat) returns (longer: seq<Entry>, next: Monitor)
    requires Reaches(c, log, m) && Free(m.(owed := [])) && m.checked.Some? && m.checked.value.Current?
    requires m.owed == OwedAfter(m.checked.value) && m.stored == Validating && m.copy == Some(Validating)
    requires m.doing.None? && m.usage == Usage(n, n, 0)
    ensures Reaches(c, longer, next) && Poised(next, n) && Mutations(longer, |longer|) == Mutations(log, |log|)
  {
    hide LoopVerdict;
    hide Reaches;
    if m.checked.value.passed {
      longer, next := Then(c, log, m, Noted(ValidationPassed, true));
    } else {
      longer, next := Then(c, log, m, Noted(ValidationFailed, true));
      longer, next := Then(c, longer, next, Noted(FeedbackProduced, true));
    }
    longer, next := Then(c, longer, next, Write(Validating, Deciding, Simple, true));
  }

  lemma {:induction false} Rounds(c: Config, n: nat, action: Action) returns (log: seq<Entry>, m: Monitor)
    requires ValidConfig(c) && c.profile != Review && Possible(c, action)
    requires n <= c.limits.decisions && n <= AtLeastZero(c.limits.mutations)
    ensures Reaches(c, log, m) && Poised(m, n) && Mutations(log, |log|) == n
  {
    hide Reaches;
    if n == 0 {
      log, m := Prepared(c);
    } else {
      log, m := Rounds(c, n - 1, action);
      log, m := Arms(c, log, m, n - 1, action);
      log, m := Lands(c, log, m, n - 1, action);
      log, m := Checks(c, log, m, n - 1);
      log, m := Returns(c, log, m, n);
    }
  }

  lemma NoReview(c: Config, action: Action)
    requires Possible(c, action)
    ensures c.profile != Review
  {
    WhatNeedsApproval(c.profile, action);
    WhatMutatesUnasked(c.profile, action);
  }

  lemma Enough(c: Config, action: Action) returns (log: seq<Entry>)
    requires ValidConfig(c) && AtLeastZero(c.limits.mutations) < c.limits.decisions && Possible(c, action)
    ensures GoesOver(c, log)
  {
    NoReview(c, action);
    var n, m := AtLeastZero(c.limits.mutations), Initial(c);
    log, m := Rounds(c, n, action);
    log, m := Arms(c, log, m, n, action);
    log, m := Lands(c, log, m, n, action);
  }

  /** Some history goes over the budget of mutations exactly if the decisions exceed it and some mutation is
      possible at all. */
  lemma OverBudgetExactly(c: Config)
    requires ValidConfig(c)
    ensures (exists log :: GoesOver(c, log)) <==>
              AtLeastZero(c.limits.mutations) < c.limits.decisions && exists action :: Possible(c, action)
  {
    hide GoesOver;
    hide Possible;
    forall log | GoesOver(c, log)
      ensures AtLeastZero(c.limits.mutations) < c.limits.decisions && exists action :: Possible(c, action)
    {
      Needed(c, log);
    }
    if AtLeastZero(c.limits.mutations) < c.limits.decisions && exists action :: Possible(c, action) {
      var action :| Possible(c, action);
      var log := Enough(c, action);
    }
  }
}
