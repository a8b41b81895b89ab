/** What the loop does in a steady world: a run that is left alone comes to the end expected of it; and the loop
    reaches what module RunHistory leaves open: one mutation over the budget, an execution after a stop, and the
    execution of a rejected action, for every configuration of a shape. */
module RunWitness {

  import opened RunState
  import opened Wrappers
  import opened Policy
  import opened Budget
  import opened Pipeline
  import opened RunProtocol
  import opened RunWorld
  import opened RunOutcome
  import opened RunHistory
  import L = RunLoop

  /** In this world the loop can work on the run: it is no review, and the provider decides on a mutation. */
  ghost predicate Shape(c: Config, w: World) {
    && ValidConfig(c) && c.profile != Review && c.stages != []
    && w.Steady? && w == Fair(w.action, w.stops, w.refuses)
    && IsMutation(w.action.kind) && LoopVerdict(c.profile, w.action) != Deny
  }

  lemma ShapeDecides(c: Config, w: World)
    requires Shape(c, w)
    ensures Decided(w.action) == Some(w.action) && w.action.kind != Finish
  {
    WhatNeedsApproval(c.profile, w.action);
    WhatMutatesUnasked(c.profile, w.action);
  }

  /** Where the loop can be while it works on the run and nobody interferes: every mutation so far has used up
      one decision, but for the one in hand. */
  predicate Phase(action: Action, m: Monitor, copy: RunState) {
    var d, n := m.usage.decisions, m.usage.mutations;
    match copy
    case Created => m.due == Nothing && m.owed == [] && m.doing.None? && m.proposal.None? && m.checked.None? && d == n == 0
    case Preflight => m.due == Nothing && m.owed == [] && m.doing.None? && m.proposal.None? && m.checked.None? && d == n == 0
    case BaselineValidating =>
      && m.due == Nothing && m.doing.None? && m.proposal.None? && d == n == 0
      && ((m.checked.None? && m.owed == []) || m.checked == Some(Baseline(false)))
    case Deciding =>
      && m.owed == [] && m.doing.None?
      && (|| (m.due == Nothing && m.proposal.None? && d == n)
          || (m.due == Nothing && m.proposal == Some(action) && d == n + 1)
          || (m.due == AnAnswer && m.proposal == Some(action) && d == n))
    case Executing =>
      && m.owed == [] && m.proposal.None?
      && (|| (m.due == Nothing && m.doing == Some(Doing(action, false)) && d == n + 1)
          || (m.due == AMutation && m.doing.None? && d == n + 1)
          || (m.due == AValidation && m.doing.None? && d == n))
    case Validating =>
      && m.doing.None? && m.proposal.None? && d == n
      && if m.checked.None? then m.due == AValidation && m.owed == []
         else m.checked == Some(Current(true)) && m.due == Nothing && m.owed in {[ValidationPassed], []}
    case _ => false
  }

  predicate Working(action: Action, m: Monitor) {
    && m.started && m.copy.Some? && m.stored == m.copy.value && m.asked.None?
    && m.grants == {} && Phase(action, m, m.copy.value)
  }

  /** What can come of a step of such a loop. */
  ghost predicate Goes(c: Config, w: World, m: Monitor, e: Entry)
    requires w.Steady?
  {
    var after := Next(c, m, e);
    if e == Write(Executing, Stopped, Stopping(BudgetExhausted), true) then m.due == AMutation && Exhausted(c, m)
    else if e == Write(Deciding, AwaitingApproval, Asking(w.action, c.digest(w.action)), true) then
      LoopVerdict(c.profile, w.action) == RequireApproval
    else if e == External(Stopped) then w.stops && m.copy == Some(Executing) && m.due == Nothing
    else Working(w.action, after) && after.usage.mutations == m.usage.mutations + OneIf(e == Mutation(true))
  }

  ghost predicate Stepping(c: Config, w: World, m: Monitor, e: Entry) {
    && Shape(c, w) && Working(w.action, m) && Permitted(c, m, e) && Usual(w, m, e) && !e.Grant?
    && m.usage.mutations < c.limits.decisions
  }

  lemma StepEarly(c: Config, w: World, m: Monitor, e: Entry)
    requires Stepping(c, w, m, e) && m.copy.value in {Created, Preflight, BaselineValidating}
    ensures w.Steady? && Goes(c, w, m, e)
  {
    hide LoopVerdict;
    hide Passes;
    FailingFails(c.stages);
  }

  lemma StepDeciding(c: Config, w: World, m: Monitor, e: Entry)
    requires Stepping(c, w, m, e) && m.copy.value == Deciding
    ensures w.Steady? && Goes(c, w, m, e)
  {
    hide LoopVerdict;
    hide Passes;
    ShapeDecides(c, w);
  }

  lemma StepExecuting(c: Config, w: World, m: Monitor, e: Entry)
    requires Stepping(c, w, m, e) && m.copy.value == Executing
    ensures w.Steady? && Goes(c, w, m, e) && (e.Executed? ==> !w.stops)
  {
    hide LoopVerdict;
    hide Passes;
    ShapeDecides(c, w);
  }

  lemma StepValidating(c: Config, w: World, m: Monitor, e: Entry)
    requires Stepping(c, w, m, e) && m.copy.value == Validating
    ensures w.Steady? && Goes(c, w, m, e)
  {
    hide LoopVerdict;
    hide Passes;
    PassingPasses(c.stages, false);
    if e.Checked? {
      assert e.check.Current? && e.executor == PASSING;
      assert e.check.passed;
    }
  }

  lemma StepWorking(c: Config, w: World, m: Monitor, e: Entry)
    requires Stepping(c, w, m, e)
    ensures w.Steady? && Goes(c, w, m, e)
  {
    hide Goes;
    hide Permitted;
    hide Usual;
    match m.copy.value
    case Deciding => StepDeciding(c, w, m, e);
    case Executing => StepExecuting(c, w, m, e);
    case Validating => StepValidating(c, w, m, e);
    case _ => StepEarly(c, w, m, e);
  }

  predicate NotBegun(c: Config, m: Monitor) {
    && m.copy.None? && m == Initial(c).(closed := m.closed)
  }

  lemma StepBegin(c: Config, w: World, m: Monitor, e: Entry)
    requires Shape(c, w) && NotBegun(c, m) && Permitted(c, m, e) && Usual(w, m, e) && !e.Grant?
    ensures NotBegun(c, Next(c, m, e)) || Working(w.action, Next(c, m, e))
    ensures Next(c, m, e).usage == Usage(0, 0, 0)
  {
    hide LoopVerdict;
    hide Passes;
  }

  // ---------------------------------------------------------------- one mutation over the budget

  /** The provider may always be asked once more than there are mutations. */
  ghost predicate Spends(c: Config, w: World) {
    && Shape(c, w) && LoopVerdict(c.profile, w.action) == Allow && !w.stops
    && AtLeastZero(c.limits.mutations) < c.limits.decisions
  }

  predicate Over(c: Config, m: Monitor) {
    m.stored == Stopped && m.due == AMutation && Exhausted(c, m)
  }

  lemma StepSpending(c: Config, w: World, m: Monitor, e: Entry)
    requires Spends(c, w) && Permitted(c, m, e) && Usual(w, m, e) && !e.Grant? && WithinLimits(c, m)
    requires NotBegun(c, m) || Working(w.action, m) || Over(c, m)
    ensures var after := Next(c, m, e); NotBegun(c, after) || Working(w.action, after) || Over(c, after)
  {
    hide Permitted;
    hide Usual;
    hide LoopVerdict;
    hide Working;
    if NotBegun(c, m) {
      StepBegin(c, w, m, e);
    } else if Working(w.action, m) {
      StepWorking(c, w, m, e);
    } else {
      OverStep(c, m, e);
      ExhaustedStep(c, m, e);
    }
  }

  lemma {:induction false} Spending(c: Config, w: World, log: seq<Entry>, k: nat)
    requires Spends(c, w) && Lived(c, w, log) && k <= |log| && Replay(c, log, k).issued == 0
    ensures var m := Replay(c, log, k); NotBegun(c, m) || Working(w.action, m) || Over(c, m)
  {
    hide Permitted;
    hide Usual;
    hide NotBegun;
    hide Working;
    hide Over;
    hide Spends;
    if k > 0 {
      var m := Replay(c, log, k - 1);
      assert PermittedAt(c, log, k - 1) && UsualAt(c, w, log, k - 1);
      NoneIssued(c, m, log[k - 1]);
      Spending(c, w, log, k - 1);
      BudgetFacts(c, log, k - 1);
      StepSpending(c, w, m, log[k - 1]);
    } else {
      NothingBegun(c);
    }
  }

  lemma NoneIssued(c: Config, m: Monitor, e: Entry)
    requires Next(c, m, e).issued == 0
    ensures m.issued == 0 && !e.Grant?
  {
  }

  lemma NothingBegun(c: Config)
    ensures NotBegun(c, Initial(c))
  {
  }

  /** Whenever the decisions allow one more, the loop lands one mutation more than its budget, whatever that
      budget is, in the world in which the provider keeps asking for a mutation that needs no approval; and
      then it stops the run. */
  method GoesOverBudget(c: Config, action: Action) returns (loop: L.Loop)
    requires Spends(c, Fair(action, false, false))
    ensures fresh(loop) && loop.Valid() && loop.config == c && loop.stored == Stopped
    ensures Mutations(loop.log, |loop.log|) == AtLeastZero(c.limits.mutations) + 1
  {
    hide Working;
    var w := Fair(action, false, false);
    loop := new L.Loop(c, w, false);
    var outcome := loop.Start();
    Spending(c, w, loop.log, |loop.log|);
    NotWorking(action, loop.m);
    BudgetFacts(c, loop.log, |loop.log|);
  }

  // ---------------------------------------------------------------- what a run comes to

  /** In every steady world, the loop takes a run that is left alone to what is expected of it. */
  method RunsItsCourse(c: Config, w: World, watches: bool) returns (loop: L.Loop, outcome: Outcome)
    requires ValidConfig(c) && w.Steady? && !w.stops
    ensures fresh(loop) && loop.Valid() && loop.config == c && outcome.Reported? && loop.stored == outcome.state
    ensures outcome == From(c, w, watches, c.initial, Usage(0, 0, 0))
  {
    loop := new L.Loop(c, w, watches);
    outcome := loop.Start();
  }

  /** A run whose provider finishes, whose baseline fails and whose required stages then pass succeeds; a review
      is complete. One decision is enough. */
  method FinishSucceeds(c: Config, args: Args) returns (loop: L.Loop, outcome: Outcome)
    requires ValidConfig(c) && c.profile in {Review, Supervised, WorkspaceAuto} && args.parses && !args.unsafeFact
    requires c.limits.decisions > 0 && (c.profile == Review || SomeRequired(c.stages))
    ensures fresh(loop) && loop.Valid() && loop.config == c
    ensures loop.stored == if c.profile == Review then ReviewComplete else Succeeded
    ensures outcome == Reported(loop.stored, None)
  {
    var w := Fair(Action(Finish, args), false, false);
    FailingFails(c.stages);
    PassingPasses(c.stages, true);
    SucceedsExactly(c, w, false, c.initial, Usage(0, 0, 0));
    loop, outcome := RunsItsCourse(c, w, false);
  }

  lemma NotWorking(action: Action, m: Monitor)
    requires m.started && m.copy.None?
    ensures !Working(action, m)
  {
  }

  // ---------------------------------------------------------------- an execution after a stop

  ghost predicate Struck(c: Config, w: World) {
    Shape(c, w) && LoopVerdict(c.profile, w.action) == Allow && w.stops && c.limits.decisions > 0
  }

  /** Nothing has been executed. */
  predicate Unspent(action: Action, m: Monitor) {
    Working(action, m) && m.usage.mutations == 0 && m.due !in {AMutation, AValidation}
  }

  /** Stopped by another writer, about to execute. */
  predicate Falling(action: Action, m: Monitor) {
    && m.stored == Stopped && m.started && m.copy == Some(Executing) && m.doing == Some(Doing(action, false))
    && m.due == Nothing && m.owed == []
  }

  lemma StepFalling(c: Config, w: World, m: Monitor, e: Entry)
    requires Shape(c, w) && Falling(w.action, m) && Permitted(c, m, e) && Usual(w, m, e)
    ensures if e.Executed? then e == Executed(w.action, false, true) else Falling(w.action, Next(c, m, e))
  {
    hide LoopVerdict;
    hide Passes;
  }

  /** Without an execution nothing becomes due but answers. */
  lemma NothingLanded(c: Config, m: Monitor, e: Entry)
    requires Permitted(c, m, e) && !e.Executed? && m.due !in {AMutation, AValidation}
    ensures Next(c, m, e).due !in {AMutation, AValidation} && !e.Mutation?
  {
    hide LoopVerdict;
    hide Passes;
  }

  lemma StepUnspent(c: Config, w: World, m: Monitor, e: Entry)
    requires Struck(c, w) && Unspent(w.action, m) && Permitted(c, m, e) && Usual(w, m, e) && !e.Grant?
    ensures !e.Executed?
    ensures Unspent(w.action, Next(c, m, e)) || Falling(w.action, Next(c, m, e))
  {
    hide LoopVerdict;
    hide Passes;
    StepWorking(c, w, m, e);
    if m.copy.value == Executing { StepExecuting(c, w, m, e); }
    NothingLanded(c, m, e);
  }

  /** The stored run was stopped, and then the action was executed. */
  ghost predicate Fell(c: Config, log: seq<Entry>, k: nat, action: Action)
    requires k <= |log|
  {
    exists n | 0 <= n < k :: Replay(c, log, n).stored == Stopped && log[n] == Executed(action, false, true)
  }

  lemma FellStays(c: Config, log: seq<Entry>, k: nat, action: Action)
    requires 0 < k <= |log|
    requires Fell(c, log, k - 1, action)
             || (Replay(c, log, k - 1).stored == Stopped && log[k - 1] == Executed(action, false, true))
    ensures Fell(c, log, k, action)
  {
    if Fell(c, log, k - 1, action) {
      var n :| 0 <= n < k - 1 && Replay(c, log, n).stored == Stopped && log[n] == Executed(action, false, true);
    }
  }

  lemma {:induction false} Striking(c: Config, w: World, log: seq<Entry>, k: nat)
    requires Struck(c, w) && Lived(c, w, log) && k <= |log| && Replay(c, log, k).issued == 0
    ensures var m := Replay(c, log, k);
            NotBegun(c, m) || Unspent(w.action, m) || Falling(w.action, m) || Fell(c, log, k, w.action)
  {
    hide Permitted;
    hide Usual;
    hide Working;
    hide Next;
    hide Fell;
    if k > 0 {
      var m, e := Replay(c, log, k - 1), log[k - 1];
      assert PermittedAt(c, log, k - 1) && UsualAt(c, w, log, k - 1);
      NoneIssued(c, m, e);
      Striking(c, w, log, k - 1);
      if Fell(c, log, k - 1, w.action) {
        FellStays(c, log, k, w.action);
      } else if NotBegun(c, m) {
        StepBegin(c, w, m, e);
        NothingDueAtFirst(c, m, e);
      } else if Falling(w.action, m) {
        StepFalling(c, w, m, e);
        if e.Executed? { FellStays(c, log, k, w.action); }
      } else {
        StepUnspent(c, w, m, e);
      }
    } else {
      NothingBegun(c);
    }
  }

  lemma NothingDueAtFirst(c: Config, m: Monitor, e: Entry)
    requires NotBegun(c, m) && Permitted(c, m, e)
    ensures Next(c, m, e).due == Nothing
  {
    hide LoopVerdict;
    hide Passes;
  }

  /** Another writer stops the run while the loop executes, and the mutation still lands. */
  method ExecutesAfterStop(c: Config, action: Action) returns (loop: L.Loop)
    requires Struck(c, Fair(action, true, false))
    ensures fresh(loop) && loop.Valid() && loop.config == c && Fell(c, loop.log, |loop.log|, action)
  {
    hide Working;
    var w := Fair(action, true, false);
    loop := new L.Loop(c, w, false);
    var outcome := loop.Start();
    Striking(c, w, loop.log, |loop.log|);
    NotWorking(action, loop.m);
  }

  // ---------------------------------------------------------------- an action executed after its rejection

  ghost predicate Asks(c: Config, w: World) {
    && Shape(c, w) && LoopVerdict(c.profile, w.action) == RequireApproval && !w.stops && w.refuses
    && c.limits.decisions > 0
  }

  /** The run waits for the action, and nothing has been granted. */
  predicate Waiting(c: Config, action: Action, m: Monitor) {
    && m.stored == AwaitingApproval && m.started && (m.copy.None? || m.copy.value == AwaitingApproval)
    && m.asked == Some((action, c.digest(action))) && m.grants == {} && m.consumed.None?
    && m.due == Nothing && m.proposal.None? && m.usage.decisions == m.usage.mutations + 1
  }

  lemma StepWaiting(c: Config, w: World, m: Monitor, e: Entry)
    requires Asks(c, w) && Waiting(c, w.action, m) && Permitted(c, m, e) && Usual(w, m, e) && !e.Grant?
    ensures Waiting(c, w.action, Next(c, m, e))
  {
    hide LoopVerdict;
    hide Passes;
  }

  /** On the way to the first decision. */
  predicate Early(action: Action, m: Monitor) {
    Unspent(action, m) && m.copy.value in {Created, Preflight, BaselineValidating, Deciding}
  }

  lemma NothingExecutes(c: Config, w: World, m: Monitor, e: Entry)
    requires Asks(c, w) && Early(w.action, m) && Permitted(c, m, e)
    ensures !e.Executed? && (Next(c, m, e).copy.Some? ==> Next(c, m, e).copy.value !in {Executing, Validating})
  {
    hide Passes;
    hide Evaluate;
  }

  lemma StepAsking(c: Config, w: World, m: Monitor, e: Entry)
    requires Asks(c, w) && Early(w.action, m) && Permitted(c, m, e) && Usual(w, m, e) && !e.Grant?
    ensures Early(w.action, Next(c, m, e)) || Waiting(c, w.action, Next(c, m, e))
  {
    hide LoopVerdict;
    hide Passes;
    StepWorking(c, w, m, e);
    NothingExecutes(c, w, m, e);
    NothingLanded(c, m, e);
  }

  lemma {:induction false} ComesToWait(c: Config, w: World, log: seq<Entry>, k: nat)
    requires Asks(c, w) && Lived(c, w, log) && k <= |log| && Replay(c, log, k).issued == 0
    ensures var m := Replay(c, log, k); NotBegun(c, m) || Early(w.action, m) || Waiting(c, w.action, m)
  {
    hide Permitted;
    hide Usual;
    hide Next;
    hide Waiting;
    if k > 0 {
      var m, e := Replay(c, log, k - 1), log[k - 1];
      assert PermittedAt(c, log, k - 1) && UsualAt(c, w, log, k - 1);
      NoneIssued(c, m, e);
      ComesToWait(c, w, log, k - 1);
      if NotBegun(c, m) {
        StepBegin(c, w, m, e);
        FirstCopy(c, m, e);
      } else if Waiting(c, w.action, m) {
        StepWaiting(c, w, m, e);
      } else {
        StepAsking(c, w, m, e);
      }
    } else {
      NothingBegun(c);
    }
  }

  lemma FirstCopy(c: Config, m: Monitor, e: Entry)
    requires ValidConfig(c) && NotBegun(c, m) && Permitted(c, m, e)
    ensures var after := Next(c, m, e); after.due == Nothing && (after.copy.Some? ==> after.copy.value in {Created, Preflight})
  {
    hide LoopVerdict;
    hide Passes;
  }

  /** The log has a wait for this action, a later rejection of it, and a later approved execution of it, and
      the run did not wait again in between. */
  ghost predicate RejectedThenExecuted(c: Config, log: seq<Entry>, action: Action) {
    exists i, j, k | 0 <= i < j < k < |log| ::
      && log[i] == Write(Deciding, AwaitingApproval, Asking(action, c.digest(action)), true)
      && log[j] == Noted(RejectedByUser, true) && log[k] == Executed(action, true, true)
      && forall n | i < n < k :: !IsAsk(log[n])
  }

  lemma RejectedThenTaken(c: Config, log: seq<Entry>, more: seq<Entry>, action: Action, digest: Digest)
    requires Legal(c, log) && Replay(c, log, |log|).asked == Some((action, digest))
    requires log + Rejection(action, digest) <= more
    ensures RejectedThenExecuted(c, more, action)
  {
    ApprovalFactsHold(c, log, |log|);
    var i := LastAsk(log, |log|);
    var tail := Rejection(action, digest);
    assert more[..|log|] == log && forall n | 0 <= n < |tail| :: more[|log| + n] == tail[n];
    NoAskSince(log, |log|);
    var j, k := |log| + 1, |log| + 8;
    assert more[j] == tail[1] && more[k] == tail[8];
    forall n | i < n < k ensures !IsAsk(more[n]) {
      if n < |log| { assert more[n] == log[n]; } else { assert more[n] == tail[n - |log|]; }
    }
  }

  lemma {:induction false} NoAskSince(log: seq<Entry>, k: nat)
    requires k <= |log|
    ensures forall n | LastAsk(log, k) < n < k :: !IsAsk(log[n])
  {
    if k > 0 { NoAskSince(log, k - 1); }
  }

  /** A rejection that the store refuses, and an approval after it. */
  ghost function Rejection(action: Action, digest: Digest): seq<Entry> {
    [Began(AwaitingApproval), Noted(RejectedByUser, true), L.FailedStop(), Returned,
     RunProtocol.Grant(digest), Began(AwaitingApproval)] + L.Taking(action, digest)
  }

  /** The loop waits for an action; the user rejects it, and the store fails to stop the run for it; before the
      session is deleted, an approval of the same action is admitted: and the loop executes it. */
  method ExecutesRejected(c: Config, action: Action) returns (loop: L.Loop)
    requires Asks(c, Fair(action, false, true)) && c.digest(action) != ""
    ensures fresh(loop) && loop.Valid() && loop.config == c && RejectedThenExecuted(c, loop.log, action)
  {
    hide Working;
    var w := Fair(action, false, true);
    loop := new L.Loop(c, w, false);
    var outcome := loop.Start();
    ghost var waiting := loop.log;
    ComesToWait(c, w, waiting, |waiting|);
    NotWorking(action, loop.m);
    var digest := c.digest(action);
    outcome := loop.Reject(digest, true);
    outcome := loop.Approve(digest);
    RejectedThenTaken(c, waiting, loop.log, action, digest);
  }

  // ---------------------------------------------------------------- over the budget by approvals

  /** Each mutation needs an approval, and the decisions exceed the mutations. */
  ghost predicate Approves(c: Config, w: World) {
    Asks(c, w) && c.digest(w.action) != "" && AtLeastZero(c.limits.mutations) < c.limits.decisions
  }

  lemma StepApproved(c: Config, w: World, m: Monitor, e: Entry)
    requires Approves(c, w) && Permitted(c, m, e) && Usual(w, m, e) && !e.Grant? && WithinLimits(c, m)
    requires Working(w.action, m) || Waiting(c, w.action, m) || Over(c, m)
    ensures var after := Next(c, m, e); Working(w.action, after) || Waiting(c, w.action, after) || Over(c, after)
  {
    hide Permitted;
    hide Usual;
    hide LoopVerdict;
    hide Waiting;
    if Working(w.action, m) {
      StepWorking(c, w, m, e);
      if IsAsk(e) { AskedAgain(c, w, m, e); }
    } else if Waiting(c, w.action, m) {
      StepWaiting(c, w, m, e);
    } else {
      OverStep(c, m, e);
      ExhaustedStep(c, m, e);
    }
  }

  lemma AskedAgain(c: Config, w: World, m: Monitor, e: Entry)
    requires Approves(c, w) && Working(w.action, m) && Permitted(c, m, e) && IsAsk(e) && Goes(c, w, m, e)
    ensures Waiting(c, w.action, Next(c, m, e))
  {
    hide LoopVerdict;
    hide Passes;
  }

  lemma IssuedStep(c: Config, m: Monitor, e: Entry)
    ensures Next(c, m, e).issued == m.issued + OneIf(e.Grant?)
  {
  }

  lemma {:induction false} IssuedGrows(c: Config, log: seq<Entry>, i: nat, k: nat)
    requires i <= k <= |log|
    ensures Replay(c, log, i).issued <= Replay(c, log, k).issued
    decreases k
  {
    hide Next;
    if i < k {
      IssuedGrows(c, log, i, k - 1);
      IssuedStep(c, Replay(c, log, k - 1), log[k - 1]);
    }
  }

  /** After the execution of an approved action, and without a further grant, the loop works on, waits again,
      or has gone over the budget. */
  lemma {:induction false} WorksOn(c: Config, w: World, log: seq<Entry>, i: nat, k: nat)
    requires Approves(c, w) && Lived(c, w, log) && i <= k <= |log|
    requires Working(w.action, Replay(c, log, i)) && Replay(c, log, k).issued == Replay(c, log, i).issued
    ensures var m := Replay(c, log, k); Working(w.action, m) || Waiting(c, w.action, m) || Over(c, m)
    decreases k
  {
    hide Permitted;
    hide Usual;
    hide Working;
    hide Waiting;
    hide Over;
    hide Approves;
    hide Next;
    if i < k {
      var m, e := Replay(c, log, k - 1), log[k - 1];
      assert PermittedAt(c, log, k - 1) && UsualAt(c, w, log, k - 1);
      IssuedGrows(c, log, i, k - 1);
      IssuedStep(c, m, e);
      WorksOn(c, w, log, i, k - 1);
      BudgetFacts(c, log, k - 1);
      StepApproved(c, w, m, e);
    }
  }

  /** What an approval adds to a waiting history. */
  ghost function Grasp(action: Action, digest: Digest): seq<Entry> {
    [RunProtocol.Grant(digest), Began(AwaitingApproval)] + L.Taking(action, digest)
  }

  /** The history goes on with a grant that is consumed and taken up. */
  ghost predicate GraspFollows(c: Config, w: World, log: seq<Entry>, n: nat) {
    && n + 5 <= |log| && w.Steady?
    && forall i | 0 <= i < 5 :: log[n + i] == Grasp(w.action, c.digest(w.action))[i]
  }

  lemma GraspSits(c: Config, w: World, log: seq<Entry>, more: seq<Entry>)
    requires w.Steady?
    requires var d := c.digest(w.action);
             log + [RunProtocol.Grant(d), Began(AwaitingApproval)] + L.Taking(w.action, d) <= more
    ensures |log| <= |more| && more[..|log|] == log && GraspFollows(c, w, more, |log|)
  {
    var d := c.digest(w.action);
    var tail := Grasp(w.action, d);
    assert log + [RunProtocol.Grant(d), Began(AwaitingApproval)] + L.Taking(w.action, d) == log + tail;
    forall i | 0 <= i < 5 ensures more[|log| + i] == tail[i] { assert (log + tail)[|log| + i] == tail[i]; }
  }

  lemma GraspLands(c: Config, w: World, log: seq<Entry>, n: nat)
    requires Shape(c, w) && GraspFollows(c, w, log, n)
    ensures n + 5 <= |log| && Landed(log[n + 4])
  {
    assert log[n + 4] == Grasp(w.action, c.digest(w.action))[4];
  }

  lemma GraspedStep(c: Config, w: World, log: seq<Entry>, n: nat)
    requires Approves(c, w) && n + 5 <= |log| && Waiting(c, w.action, Replay(c, log, n)) && GraspFollows(c, w, log, n)
    ensures var m, after := Replay(c, log, n), Replay(c, log, n + 5);
            Working(w.action, after) && after.issued == m.issued + 1 && after.usage == m.usage
  {
    hide LoopVerdict;
    var tail := Grasp(w.action, c.digest(w.action));
    var m := Replay(c, log, n);
    var m1 := Next(c, m, tail[0]);
    var m2 := Next(c, m1, tail[1]);
    var m3 := Next(c, m2, tail[2]);
    var m4 := Next(c, m3, tail[3]);
    assert log[n] == tail[0] && Replay(c, log, n + 1) == m1;
    assert log[n + 1] == tail[1] && Replay(c, log, n + 2) == m2;
    assert log[n + 2] == tail[2] && Replay(c, log, n + 3) == m3;
    assert log[n + 3] == tail[3] && Replay(c, log, n + 4) == m4;
    assert log[n + 4] == tail[4] && Replay(c, log, n + 5) == Next(c, m4, tail[4]);
  }

  lemma Landings(log: seq<Entry>, i: nat, k: nat)
    requires i < k <= |log| && Landed(log[i])
    ensures Mutations(log, k) > Mutations(log, i)
    decreases k
  {
    if i < k - 1 { Landings(log, i, k - 1); }
  }

  /** One approval: the mutation lands, and the loop waits again or has gone over the budget. */
  lemma ApprovedOnceMore(c: Config, w: World, log: seq<Entry>, n: nat)
    requires Approves(c, w) && Lived(c, w, log) && n + 5 <= |log| && GraspFollows(c, w, log, n)
    requires Waiting(c, w.action, Replay(c, log, n))
    requires var m, after := Replay(c, log, n), Replay(c, log, |log|);
             after.issued == m.issued + 1 && after.started && after.copy.None?
    ensures var m, after := Replay(c, log, n), Replay(c, log, |log|);
            || (Waiting(c, w.action, after) && after.usage.mutations > m.usage.mutations)
            || Over(c, after)
    ensures Replay(c, log, |log|).usage.mutations <= AtLeastZero(c.limits.mutations)
  {
    hide Working;
    hide Waiting;
    hide GraspFollows;
    hide Next;
    hide LoopVerdict;
    var k := |log|;
    GraspedStep(c, w, log, n);
    WorksOn(c, w, log, n + 5, k);
    NotWorking(w.action, Replay(c, log, k));
    GraspLands(c, w, log, n);
    MoreLanded(c, log, n, k);
    WaitingIsDone(c, w.action, Replay(c, log, n));
    if Waiting(c, w.action, Replay(c, log, k)) { WaitingIsDone(c, w.action, Replay(c, log, k)); }
  }

  lemma MoreLanded(c: Config, log: seq<Entry>, n: nat, k: nat)
    requires Legal(c, log) && n + 5 <= k <= |log| && Landed(log[n + 4])
    ensures var m, after := Replay(c, log, n), Replay(c, log, k);
            && (m.due == Nothing && after.due == Nothing ==> after.usage.mutations > m.usage.mutations)
            && after.usage.mutations <= AtLeastZero(c.limits.mutations)
  {
    hide Next;
    hide Legal;
    hide Landed;
    BudgetFacts(c, log, n);
    BudgetFacts(c, log, k);
    MutationsGrow(log, n, n + 4);
    Landings(log, n + 4, k);
  }

  lemma MutationsGrow(log: seq<Entry>, i: nat, k: nat)
    requires i <= k <= |log|
    ensures Mutations(log, i) <= Mutations(log, k)
    decreases k
  {
    if i < k { MutationsGrow(log, i, k - 1); }
  }

  lemma WaitingIsDone(c: Config, action: Action, m: Monitor)
    requires Waiting(c, action, m)
    ensures m.stored == AwaitingApproval && m.started && m.due == Nothing && m.asked == Some((action, c.digest(action)))
  {
  }

  /** The user approves what the loop waits for. */
  method ApproveAgain(loop: L.Loop)
    requires loop.Valid() && !loop.closed && Approves(loop.config, loop.world)
    requires Waiting(loop.config, loop.world.action, loop.m)
    modifies loop, loop.tracker, loop.approvals
    ensures loop.Valid() && !loop.closed && loop.m.started
    ensures loop.m.usage.mutations <= AtLeastZero(loop.config.limits.mutations)
    ensures || (Waiting(loop.config, loop.world.action, loop.m) && loop.m.usage.mutations > old(loop.m).usage.mutations)
            || Over(loop.config, loop.m)
  {
    hide Working;
    var c, w := loop.config, loop.world;
    ghost var before := loop.log;
    var outcome := loop.Approve(c.digest(w.action));
    hide Waiting;
    GraspSits(c, w, before, loop.log);
    ReplayPrefix(c, before, loop.log, |before|);
    ApprovedOnceMore(c, w, loop.log, |before|);
  }

  /** The same with mutations that need approval: the user approves each, and the loop lands one mutation more
      than its budget, and then stops the run. */
  method GoesOverByApprovals(c: Config, action: Action) returns (loop: L.Loop)
    requires Approves(c, Fair(action, false, true))
    ensures fresh(loop) && loop.Valid() && loop.config == c && loop.stored == Stopped
    ensures Mutations(loop.log, |loop.log|) == AtLeastZero(c.limits.mutations) + 1
  {
    hide Working;
    var w := Fair(action, false, true);
    loop := new L.Loop(c, w, false);
    var outcome := loop.Start();
    ComesToWait(c, w, loop.log, |loop.log|);
    NotWorking(action, loop.m);
    BudgetFacts(c, loop.log, |loop.log|);
    while loop.stored == AwaitingApproval
      invariant loop.Valid() && loop.m.started && !loop.closed
      invariant loop.m.usage.mutations <= AtLeastZero(c.limits.mutations)
      invariant Waiting(c, action, loop.m) || Over(c, loop.m)
      decreases if Over(c, loop.m) then 0 else AtLeastZero(c.limits.mutations) - loop.m.usage.mutations + 1
    {
      ApproveAgain(loop);
    }
    BudgetFacts(c, loop.log, |loop.log|);
  }
}
