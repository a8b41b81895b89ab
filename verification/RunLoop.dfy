/** The governed agent loop of one run (internal/agent/loop.go), with the approval session that drives it
    (internal/app/composition_local.go). The provider, the executor, the clock, the store's faults and
    cancellation answer arbitrarily; the service's other writes of the run may come in between. Every method
    keeps the history a legal one. */
module RunLoop {

  import opened RunState
  import opened Policy
  import opened Budget
  import opened RunProtocol
  import opened RunWorld
  import opened RunOutcome
  import opened Wrappers
  import opened Pipeline

  /** pendingApproval: a value copy of the run, and the action it waits for. */
  datatype Pending = Pending(copy: RunState, action: Action, digest: Digest)

  /** What other writers may have done to the stored run. */
  predicate Interfered(before: RunState, after: RunState) { after == before || Intrudes(before, after) }

  /** A write that may succeed may also fail, after interference or not, and it succeeds only if nobody has
      interfered. */
  lemma Writing(c: Config, before: Monitor, stored: RunState, from: RunState, to: RunState, why: Reason)
    requires before.copy == Some(from) && Interfered(before.stored, stored)
    requires before.stored in {from, Stopped} || from == AwaitingApproval
    requires Transition(c, before, from, to, why, before.stored == from)
    requires InTurn(before, from, to, why, before.stored == from)
    ensures var now := before.(stored := stored);
            && Permitted(c, now, RunProtocol.Write(from, to, why, stored == from))
            && Permitted(c, now, RunProtocol.Write(from, to, why, false))
            && (stored == from ==> now == before)
  {
  }

  /** How a granted action is taken up, when nothing goes wrong. */
  ghost function Taking(action: Action, digest: Digest): seq<Entry> {
    [RunProtocol.Consume(digest), RunProtocol.Write(AwaitingApproval, Executing, Resuming(action, digest), true),
     Executed(action, true, true)]
  }

  ghost function FailedStop(): Entry {
    RunProtocol.Write(AwaitingApproval, Stopped, Stopping(ApprovalRejected), false)
  }

  /** The entry stops the run with this code. */
  ghost predicate StopsFor(e: Entry, code: StopCode) {
    e.Write? && e.why == Stopping(code) && e.to == Stopped && e.ok
  }

  /** A decision has been used up, or else a protocol repair. */
  predicate Progress(limits: Limits, before: Usage, after: Usage) {
    || before.decisions < after.decisions <= limits.decisions
    || (before.decisions == after.decisions && before.protocolRepairs < after.protocolRepairs <= limits.protocolRepairs)
  }

  class Loop {
    const config: Config
    const world: World
    const watchesProgress: bool // whether a ProgressDetector is installed
    const tracker: Tracker
    const approvals: ApprovalStore
    var stored: RunState         // the state of the run in the store
    var pending: Option<Pending> // the entry of the run in the pending map
    var closed: bool             // the session is deleted and its context cancelled
    ghost var log: seq<Entry>
    ghost var m: Monitor
    ghost var issued: nat        // how often Approve has granted

    constructor (config: Config, world: World, watchesProgress: bool)
      requires ValidConfig(config)
      ensures Valid() && this.config == config && this.world == world && this.watchesProgress == watchesProgress
      ensures stored == config.initial
      ensures log == [] && !m.started && !closed && issued == 0 && tracker.usage == Usage(0, 0, 0)
      ensures fresh(tracker) && fresh(approvals)
    {
      this.config, this.world, this.watchesProgress := config, world, watchesProgress;
      tracker := new Tracker(config.limits);
      approvals := new ApprovalStore();
      stored, pending, closed := config.initial, None, false;
      log, m, issued := [], Initial(config), 0;
    }

    ghost predicate Pended(p: Pending) {
      p.copy == AwaitingApproval && LoopVerdict(config.profile, p.action) == RequireApproval
    }

    ghost predicate Recorded()
      reads this`log, this`m
    {
      Lived(config, world, log) && m == Replay(config, log, |log|)
    }

    ghost predicate Faithful()
      reads this`log, this`m, this`stored, this`closed, this`issued, tracker, approvals
    {
      && Recorded() && m.stored == stored && m.closed == closed && m.issued == issued
      && tracker.limits == config.limits && m.usage == tracker.usage && m.grants == approvals.grants
    }

    /** When the stored run waits for approval, the pending entry is the action it waits for and nothing is
        over budget. A pending entry may be there although the run has moved on. */
    ghost predicate Standing()
      reads this, tracker, approvals
    {
      && Faithful() && MayReturn(m)
      && (pending.Some? ==> m.started && Pended(pending.value))
      && (!m.started ==> stored in {config.initial, Stopped} && m.due == Nothing && m.proposal.None?)
      && (stored == AwaitingApproval ==>
            && pending.Some? && m.asked == Some((pending.value.action, pending.value.digest))
            && m.due == Nothing && m.proposal.None?)
    }

    /** An invocation may return here. */
    ghost predicate MayEnd()
      reads this, tracker, approvals
    {
      Standing() && approvals.grants == {}
    }

    /** Between invocations. */
    ghost predicate Valid()
      reads this, tracker, approvals
    {
      MayEnd() && m.copy.None?
    }

    /** Inside an invocation whose last write succeeded. */
    ghost predicate InFlight(run: RunState, due: Due, owed: seq<Note>)
      reads this, tracker, approvals
    {
      && Faithful() && approvals.grants == {} && (pending.Some? ==> Pended(pending.value))
      && m.started && m.copy == Some(run) && stored in {run, Stopped} && m.due == due && m.owed == owed
    }

    /** What an outcome says: a reported state is the stored one, or the run has been stopped since; after a
        failure the local copy is given up. */
    ghost predicate Answers(outcome: Outcome)
      reads this
    {
      match outcome
      case Reported(state, code) =>
        && stored in {state, Stopped} && (code.None? <==> state in {Succeeded, ReviewComplete})
        && (state == AwaitingApproval ==> code == Some(ApprovalRequired))
        && (state == Stopped ==> log != [] && StopsFor(log[|log| - 1], code.value))
        && if state == AwaitingApproval then m.copy.None? else Terminal(state) && m.copy == Some(state)
      case Failed => m.copy.None?
      case _ => true
    }

    /** The same after the invocation has returned. */
    ghost predicate Reports(outcome: Outcome)
      reads this
    {
      outcome.Reported? ==>
        && stored in {outcome.state, Stopped} && (Terminal(outcome.state) || outcome.state == AwaitingApproval)
        && (outcome.code.None? <==> outcome.state in {Succeeded, ReviewComplete})
        && (outcome.state == AwaitingApproval ==> outcome.code == Some(ApprovalRequired))
        && (outcome.state == Stopped ==> |log| >= 2 && StopsFor(log[|log| - 2], outcome.code.value))
    }

    /** The provider may be asked: its last decision, if any, has been denied. */
    ghost predicate Settled()
      reads this`m
    {
      m.proposal.Some? ==> LoopVerdict(config.profile, m.proposal.value) == Deny
    }

    /** At the head of the loop. */
    ghost predicate Deliberating()
      reads this, tracker, approvals
    {
      InFlight(Deciding, Nothing, []) && Settled()
    }

    /** Nobody disturbs the run: the world is steady and no other writer has moved the run. */
    ghost predicate Calm()
      reads this`m, this`stored
    {
      world.Steady? && !world.stops && m.copy == Some(stored)
    }

    /** The outcome is this one, and the run is stored as reported. */
    ghost predicate Arrives(outcome: Outcome, expected: Outcome)
      reads this`stored
    {
      outcome == expected && (outcome.Reported? ==> stored == outcome.state)
    }

    /** Either the invocation ends as expected, or what is expected is still ahead. */
    ghost predicate Comes(done: bool, outcome: Outcome, expected: Outcome)
      requires world.Steady?
      reads this`m, this`stored, tracker
    {
      if done then Arrives(outcome, expected)
      else Calm() && expected == Destination(config, world, watchesProgress, tracker.usage)
    }

    /** How an invocation that has begun ends. */
    ghost predicate Ends(outcome: Outcome)
      reads this
    {
      Answers(outcome) && (outcome.Reported? || outcome.Failed?)
    }

    ghost method Record(e: Entry)
      requires Recorded() && Permitted(config, m, e) && Usual(world, m, e)
      modifies this`log, this`m
      ensures Recorded() && log == old(log) + [e] && m == Next(config, old(m), e)
    {
      LiveOn(config, world, log, e);
      log := log + [e];
      m := Next(config, m, e);
    }

    // -------------------------------------------------------------- the world around the loop

    /** Something that happens or not; in a steady world it is as usual. */
    method Chance(usual: bool) returns (b: bool)
      ensures world.Steady? ==> b == usual
    {
      b := *;
      if world.Steady? { b := usual; }
    }

    /** "executing" says whether this is during an execution. */
    method Interfere(executing: bool)
      requires Faithful() && (executing ==> m.copy == Some(Executing) && m.doing.Some?)
      modifies this`stored, this`log, this`m
      ensures Faithful() && old(log) <= log
      ensures Interfered(old(stored), stored) && m == old(m).(stored := stored)
      ensures world.Steady? ==>
                stored == if executing && world.stops && !Terminal(old(stored)) then Stopped else old(stored)
      ensures world.Steady? && !(executing && world.stops) ==> log == old(log)
    {
      hide Recorded;
      var stops := Chance(executing && world.Steady? && world.stops);
      var comesBack := Chance(false);
      if stops && !Terminal(stored) {
        stored := Stopped;
        Record(External(Stopped));
      } else if comesBack && stored == AwaitingApproval {
        stored := Preflight;
        Record(External(Preflight));
      }
    }

    method Call() returns (answer: Option<Action>)
      requires Faithful() && Permitted(config, m, Called(None))
      modifies this`stored, this`log, this`m
      ensures Faithful() && old(log) <= log && Interfered(old(stored), stored)
      ensures m == old(m).(stored := stored, proposal := answer, due := AnAnswer)
      ensures world.Steady? ==> answer == Decided(world.action) && stored == old(stored)
    {
      hide Recorded;
      Interfere(false);
      var fails := Chance(false);
      var action: Action := *;
      if world.Steady? { action := world.action; }
      answer := if fails then None else Decided(action);
      Record(Called(answer));
    }

    method Note(note: RunProtocol.Note) returns (ok: bool)
      requires Faithful() && Permitted(config, m, Noted(note, true))
      modifies this`stored, this`log, this`m
      ensures Faithful() && old(log) <= log && log[|log| - 1] == Noted(note, ok) && |log| > |old(log)|
      ensures Interfered(old(stored), stored) && m == Next(config, old(m).(stored := stored), Noted(note, ok))
      ensures world.Steady? ==> ok && stored == old(stored) && log == old(log) + [Noted(note, true)]
    {
      hide Recorded;
      Interfere(false);
      ok := Chance(true);
      Record(Noted(note, ok));
    }

    /** The validation pipeline, over whatever its stages answer. */
    method Validate(check: Check) returns (passed: bool)
      requires Faithful() && MayCheck(m, check)
      modifies this`stored, this`log, this`m
      ensures Faithful() && old(log) <= log && Interfered(old(stored), stored)
      ensures m == Next(config, old(m).(stored := stored), Checked(check.(passed := passed), FAILING))
      ensures world.Steady? ==>
                stored == old(stored) && (passed <==> Passes(config.stages, Answering(world, check), !check.Current?))
    {
      hide Recorded;
      Interfere(false);
      var executor: Pipeline.Executor := *;
      if world.Steady? { executor := Answering(world, check); }
      var report := Pipeline.Validate(config.stages, executor, !check.Current?);
      passed := report.passed;
      Record(Checked(check.(passed := passed), executor));
    }

    method Execute(action: Action, approved: bool) returns (ok: bool)
      requires Faithful() && Permitted(config, m, Executed(action, approved, true))
      modifies this`stored, this`log, this`m
      ensures Faithful() && old(log) <= log && log[|log| - 1] == Executed(action, approved, ok) && |log| > |old(log)|
      ensures Interfered(old(stored), stored) && m == Next(config, old(m).(stored := stored), Executed(action, approved, ok))
      ensures world.Steady? ==> ok == world.executes
      ensures world.Steady? && !world.stops ==>
                log == old(log) + [Executed(action, approved, ok)] && stored == old(stored)
    {
      hide Recorded;
      Interfere(true);
      ok := Chance(world.Steady? && world.executes);
      Record(Executed(action, approved, ok));
    }

    /** UpdateRunIfState: a fault leaves the stored run as it was. */
    method Update(from: RunState, to: RunState, why: Reason) returns (ok: bool)
      requires Faithful()
      requires Permitted(config, m, RunProtocol.Write(from, to, why, stored == from))
      requires Permitted(config, m, RunProtocol.Write(from, to, why, false))
      requires world.Steady? ==> Timely(world, m, why)
      modifies this`stored, this`log, this`m
      ensures Faithful() && log == old(log) + [RunProtocol.Write(from, to, why, ok)]
      ensures ok ==> old(stored) == from && stored == to
      ensures !ok ==> stored == old(stored)
      ensures m == Next(config, old(m), RunProtocol.Write(from, to, why, ok))
      ensures world.Steady? ==> (ok <==> old(stored) == from && !RunWorld.Refused(world, from, why))
    {
      hide Recorded;
      var fault := Chance(RunWorld.Refused(world, from, why));
      ok := stored == from && !fault;
      Record(RunProtocol.Write(from, to, why, ok));
      if ok { stored := to; }
    }

    /** transitionPayload. That its check of the transition graph always passes is part of the precondition. */
    method Write(from: RunState, to: RunState, why: Reason) returns (ok: bool)
      requires Faithful() && m.copy == Some(from) && (stored in {from, Stopped} || from == AwaitingApproval)
      requires Transition(config, m, from, to, why, stored == from) && InTurn(m, from, to, why, stored == from)
      requires world.Steady? ==> Timely(world, m, why)
      modifies this`stored, this`log, this`m
      ensures Faithful() && old(log) <= log && log != [] && log[|log| - 1] == RunProtocol.Write(from, to, why, ok)
      ensures ok ==> old(stored) == from && stored == to && m == Written(old(m), from, to, why)
      ensures !ok ==> Interfered(old(stored), stored) && m == old(m).(stored := stored, copy := None)
      ensures world.Steady? ==>
                (ok <==> old(stored) == from && !RunWorld.Refused(world, from, why)) && (!ok ==> stored == old(stored))
      ensures world.Steady? ==> log == old(log) + [RunProtocol.Write(from, to, why, ok)]
    {
      hide Recorded;
      ghost var before := m;
      Interfere(false);
      Writing(config, before, stored, from, to, why);
      ok := Update(from, to, why);
    }

    method RecordRepair() returns (ok: bool)
      requires Faithful() && m.copy == Some(Deciding) && m.owed == [] && m.due == AnAnswer && m.proposal.None?
      modifies this`log, this`m, tracker
      ensures Faithful() && old(log) <= log
      ensures ok <==> old(tracker.usage).protocolRepairs < config.limits.protocolRepairs
      ensures m == Next(config, old(m), Repair(ok))
    {
      hide Recorded;
      ok := tracker.RecordProtocolRepair();
      Record(Repair(ok));
    }

    method RecordDecision() returns (ok: bool)
      requires Faithful() && m.copy == Some(Deciding) && m.owed == [] && m.due == AnAnswer && m.proposal.Some?
      modifies this`log, this`m, tracker
      ensures Faithful() && old(log) <= log
      ensures ok <==> old(tracker.usage).decisions < config.limits.decisions
      ensures m == Next(config, old(m), Decision(ok))
    {
      hide Recorded;
      ok := tracker.RecordDecision();
      Record(Decision(ok));
    }

    method RecordMutation() returns (ok: bool)
      requires Faithful() && m.due == AMutation
      modifies this`log, this`m, tracker
      ensures Faithful() && old(log) <= log && m == Next(config, old(m), Mutation(ok))
      ensures ok <==> old(tracker.usage).mutations < config.limits.mutations
    {
      hide Recorded;
      ok := tracker.RecordMutation();
      Record(Mutation(ok));
    }

    // -------------------------------------------------------------- the loop

    /** stop, from a state in which the run is not over. */
    method Stop(run: RunState, code: StopCode) returns (outcome: Outcome)
      requires Faithful() && m.copy == Some(run) && !Terminal(run) && (stored in {run, Stopped} || run == AwaitingApproval)
      requires Permitted(config, m, RunProtocol.Write(run, Stopped, Stopping(code), stored == run))
      requires world.Steady? ==> Timely(world, m, Stopping(code))
      modifies this`stored, this`log, this`m
      ensures Faithful() && old(log) <= log && Answers(outcome)
      ensures outcome == Failed || (outcome == Reported(Stopped, Some(code)) && stored == Stopped && m.started == old(m).started)
      ensures outcome == Failed ==> Interfered(old(stored), stored) && m == old(m).(stored := stored, copy := None)
      ensures RunWorld.Refused(world, run, Stopping(code)) ==>
                outcome == Failed && stored == old(stored) && log == old(log) + [RunProtocol.Write(run, Stopped, Stopping(code), false)]
      ensures old(Calm()) && !RunWorld.Refused(world, run, Stopping(code)) ==> Arrives(outcome, Halted(code))
    {
      hide Recorded;
      var ok := Write(run, Stopped, Stopping(code));
      outcome := if ok then Reported(Stopped, Some(code)) else Failed;
    }

    /** stop, in an invocation in which nobody waits for approval. */
    method Halt(run: RunState, code: StopCode) returns (outcome: Outcome)
      requires InFlight(run, m.due, m.owed) && run != AwaitingApproval && !Terminal(run)
      requires Permitted(config, m, RunProtocol.Write(run, Stopped, Stopping(code), stored == run))
      requires world.Steady? ==> Timely(world, m, Stopping(code))
      modifies this`stored, this`log, this`m
      ensures MayEnd() && m.started && old(log) <= log && Ends(outcome)
      ensures old(Calm()) ==> Arrives(outcome, Halted(code))
      ensures outcome == Failed || outcome == Halted(code)
    {
      hide Recorded;
      outcome := Stop(run, code);
    }

    /** transition, from a state in which nobody waits for approval. */
    method Move(run: RunState, to: RunState) returns (ok: bool)
      requires InFlight(run, m.due, []) && run != AwaitingApproval
      requires Transition(config, m, run, to, Simple, stored == run) && InTurn(m, run, to, Simple, stored == run)
      modifies this`stored, this`log, this`m
      ensures old(log) <= log
      ensures ok ==> InFlight(to, old(m).due, []) && m == Written(old(m), run, to, Simple)
      ensures !ok ==> MayEnd() && m.started && m.copy.None?
      ensures old(Calm()) ==> ok && Calm()
    {
      hide Recorded;
      ok := Write(run, to, Simple);
    }

    /** event, for the first of the events that are owed. */
    method Say(run: RunState, note: RunProtocol.Note, ghost rest: seq<RunProtocol.Note>) returns (ok: bool)
      requires InFlight(run, Nothing, [note] + rest) && run != AwaitingApproval && note != RejectedByUser
      modifies this`stored, this`log, this`m
      ensures old(log) <= log
      ensures ok ==> InFlight(run, Nothing, rest) && m == old(m).(stored := stored, owed := rest)
      ensures !ok ==> MayEnd() && m.started && m.copy.None?
      ensures old(Calm()) ==> ok && Calm()
    {
      hide Recorded;
      ok := Note(note);
    }

    method SayTwice(run: RunState, first: RunProtocol.Note, second: RunProtocol.Note) returns (ok: bool)
      requires InFlight(run, Nothing, [first, second]) && run != AwaitingApproval
      requires first != RejectedByUser && second != RejectedByUser
      modifies this`stored, this`log, this`m
      ensures old(log) <= log
      ensures ok ==> InFlight(run, Nothing, []) && m == old(m).(stored := stored, owed := [])
      ensures !ok ==> MayEnd() && m.started && m.copy.None?
      ensures old(Calm()) ==> ok && Calm()
    {
      hide Recorded;
      ok := Say(run, first, [second]);
      if ok { ok := Say(run, second, []); }
    }

    /** A transition into a state of validation, and that validation. */
    method Enter(run: RunState, to: RunState, check: Check) returns (ok: bool, passed: bool)
      requires InFlight(run, if check.Current? then AValidation else Nothing, []) && run != AwaitingApproval
      requires Transition(config, m, run, to, Simple, stored == run)
      requires to == if check.Baseline? then BaselineValidating else Validating
      modifies this`stored, this`log, this`m
      ensures old(log) <= log
      ensures ok ==> m.proposal == old(m).proposal
      ensures ok ==>
                InFlight(to, Nothing, OwedAfter(check.(passed := passed))) && m.checked == Some(check.(passed := passed))
      ensures !ok ==> MayEnd() && m.started && m.copy.None?
      ensures old(Calm()) ==>
                ok && Calm() && (passed <==> Passes(config.stages, Answering(world, check), !check.Current?))
    {
      hide StopsFor;
      hide Recorded;
      passed := false;
      ok := Move(run, to);
      if ok { passed := Validate(check); }
    }

    /** What follows a validation that fails: the events, and the transition back. */
    method Regress() returns (ok: bool)
      requires InFlight(Validating, Nothing, [ValidationFailed, FeedbackProduced])
      requires m.checked.Some? && m.checked != Some(Final(true))
      modifies this`stored, this`log, this`m
      ensures old(log) <= log
      ensures ok ==> InFlight(Deciding, Nothing, []) && m.proposal == old(m).proposal
      ensures !ok ==> MayEnd() && m.started && m.copy.None?
      ensures old(Calm()) ==> ok && Calm()
    {
      hide Recorded;
      ok := SayTwice(Validating, ValidationFailed, FeedbackProduced);
      if ok { ok := Move(Validating, Deciding); }
    }

    /** What follows a current validation that passes. */
    method Accept() returns (ok: bool)
      requires InFlight(Validating, Nothing, [ValidationPassed]) && m.checked == Some(Current(true))
      modifies this`stored, this`log, this`m
      ensures old(log) <= log
      ensures ok ==> InFlight(Deciding, Nothing, []) && m.proposal == old(m).proposal
      ensures !ok ==> MayEnd() && m.started && m.copy.None?
      ensures old(Calm()) ==> ok && Calm()
    {
      hide Recorded;
      ok := Say(Validating, ValidationPassed, []);
      if ok { ok := Move(Validating, Deciding); }
    }

    /** Starts the run, unless the session has been closed before: Run. */
    method Start() returns (outcome: Outcome)
      requires Valid() && !m.started
      modifies this`pending, this`stored, this`log, this`m, tracker
      ensures Valid() && old(log) <= log && closed == old(closed)
      ensures old(closed) ==> outcome == Refused && log == old(log) && stored == old(stored)
      ensures Reports(outcome)
      ensures !old(closed) ==> m.started && (outcome.Reported? || outcome == Failed)
      ensures !old(closed) && world.Steady? && !world.stops && old(stored) == config.initial ==>
                Arrives(outcome, From(config, world, watchesProgress, config.initial, old(tracker.usage)))
      ensures outcome.Reported? && outcome != WAITS ==> pending == old(pending)
    {
      hide From;
      if closed { return Refused; }
      Record(Began(config.initial));
      outcome := Drive(config.initial);
      Leave();
    }

    /** run. Its local copy of the run starts as given. */
    method Drive(start: RunState) returns (outcome: Outcome)
      requires InFlight(start, Nothing, []) && start in {Created, Preflight, Deciding, Executing} && Settled()
      requires start == Executing ==> m.doing.None?
      modifies this`pending, this`stored, this`log, this`m, tracker
      ensures MayEnd() && m.started && old(log) <= log && Ends(outcome)
      ensures old(Calm()) ==> Arrives(outcome, From(config, world, watchesProgress, start, old(tracker.usage)))
      ensures outcome.Reported? && outcome != WAITS ==> pending == old(pending)
    {
      hide StopsFor;
      hide Recorded;
      var run := start;
      var cancelled := Chance(RunWorld.Cancelled(world, tracker.usage));
      if cancelled {
        outcome := Halt(run, UserCancelled);
        return;
      }
      var done;
      done, outcome := Prepare(run);
      if done { return; }
      while true
        invariant Deliberating() && old(log) <= log
        invariant pending == old(pending)
        invariant old(Calm()) ==> Comes(false, Failed, From(config, world, watchesProgress, start, old(tracker.usage)))
        decreases Left(tracker.limits.decisions, tracker.usage.decisions),
                  Left(tracker.limits.protocolRepairs, tracker.usage.protocolRepairs)
      {
        done, outcome := Decide();
        if done { return; }
      }
    }

    /** One round of the loop of run: each one that goes on has used up a decision or a protocol repair. */
    method Decide() returns (done: bool, outcome: Outcome)
      requires Deliberating()
      modifies this`pending, this`stored, this`log, this`m, tracker
      ensures old(log) <= log
      ensures done ==> MayEnd() && m.started && Ends(outcome)
      ensures !done ==> Deliberating() && Progress(config.limits, old(tracker.usage), tracker.usage)
      ensures old(Calm()) ==> Comes(done, outcome, Destination(config, world, watchesProgress, old(tracker.usage)))
      ensures done && outcome.Reported? && outcome != WAITS ==> pending == old(pending)
      ensures !done ==> pending == old(pending)
    {
      hide Fate;
      hide StopsFor;
      hide Recorded;
      hide LoopVerdict;
      var cancelled := Chance(RunWorld.Cancelled(world, tracker.usage));
      if cancelled {
        outcome := Halt(Deciding, UserCancelled);
        return true, outcome;
      }
      var expired := Chance(RunWorld.Expired(world, tracker.usage));
      if expired {
        outcome := Halt(Deciding, BudgetExhausted);
        return true, outcome;
      }
      var answer := Call();
      if answer.None? {
        done, outcome := Retry();
        return;
      }
      done, outcome := Admit(answer.value);
    }

    /** What follows a valid decision. */
    method Admit(action: Action) returns (done: bool, outcome: Outcome)
      requires InFlight(Deciding, AnAnswer, []) && m.proposal == Some(action)
      modifies this`pending, this`stored, this`log, this`m, tracker
      ensures old(log) <= log
      ensures done ==> MayEnd() && m.started && Ends(outcome)
      ensures !done ==> Deliberating() && Progress(config.limits, old(tracker.usage), tracker.usage)
      ensures old(Calm()) && action == world.action ==>
                var usage := old(tracker.usage);
                Comes(done, outcome,
                      if usage.decisions >= config.limits.decisions then Halted(BudgetExhausted)
                      else Fate(config, world, watchesProgress, Usage(usage.decisions + 1, usage.mutations, 0)))
      ensures done && outcome.Reported? && outcome != WAITS ==> pending == old(pending)
      ensures !done ==> pending == old(pending)
    {
      hide Recorded;
      hide LoopVerdict;
      hide StopsFor;
      hide Fate;
      var decided := RecordDecision();
      if !decided {
        outcome := Halt(Deciding, BudgetExhausted);
        return true, outcome;
      }
      done, outcome := Judge(action);
    }

    /** What follows an answer that is no valid decision. */
    method Retry() returns (done: bool, outcome: Outcome)
      requires InFlight(Deciding, AnAnswer, []) && m.proposal.None?
      modifies this`stored, this`log, this`m, tracker
      ensures old(log) <= log
      ensures done ==> MayEnd() && m.started && Ends(outcome)
      ensures !done ==> Deliberating() && Progress(config.limits, old(tracker.usage), tracker.usage)
      ensures old(Calm()) ==> if done then Arrives(outcome, Halted(ProtocolExhausted)) 
                else Calm() && tracker.usage == old(tracker.usage).(protocolRepairs := tracker.usage.protocolRepairs)
    {
      hide StopsFor;
      hide Recorded;
      var repaired := RecordRepair();
      if !repaired {
        outcome := Halt(Deciding, ProtocolExhausted);
        return true, outcome;
      }
      var ok := Say(Deciding, ProtocolError, []);
      return !ok, Failed;
    }

    /** What the policy says about a decided action, and what follows. */
    method Judge(action: Action) returns (done: bool, outcome: Outcome)
      requires m.proposal == Some(action)
      requires var denied := LoopVerdict(config.profile, action) == Deny;
               InFlight(Deciding, Nothing, if denied then [PolicyDenied, FeedbackProduced] else [])
      modifies this`pending, this`stored, this`log, this`m, tracker
      ensures old(log) <= log
      ensures done ==> MayEnd() && m.started && Ends(outcome)
      ensures !done ==> Deliberating() && tracker.usage == old(tracker.usage).(mutations := tracker.usage.mutations)
      ensures old(Calm()) && action == world.action ==>
                Comes(done, outcome, Fate(config, world, watchesProgress, old(tracker.usage)))
      ensures done && outcome.Reported? && outcome != WAITS ==> pending == old(pending)
      ensures !done ==> pending == old(pending)
    {
      hide StopsFor;
      hide Recorded;
      match LoopVerdict(config.profile, action)
      case Deny =>
        var ok := SayTwice(Deciding, PolicyDenied, FeedbackProduced);
        return !ok, Failed;
      case RequireApproval =>
        outcome := Await(action);
        return true, outcome;
      case Allow =>
        done, outcome := Act(action);
    }

    /** The baseline validation, which has to fail. */
    method Reproduce() returns (done: bool, outcome: Outcome)
      requires InFlight(Preflight, Nothing, []) && config.profile != Review && Settled()
      modifies this`stored, this`log, this`m
      ensures old(log) <= log
      ensures done ==> MayEnd() && m.started && Ends(outcome)
      ensures !done ==> InFlight(BaselineValidating, Nothing, []) && Settled() && m.checked == Some(Baseline(false))
      ensures old(Calm()) ==>
                if Passes(config.stages, world.baseline, true) then done && Arrives(outcome, Halted(NoReproduction))
                else !done && Calm()
    {
      hide StopsFor;
      hide Recorded;
      var ok, passed := Enter(Preflight, BaselineValidating, Baseline(false));
      if !ok { return true, Failed; }
      if passed {
        outcome := Halt(BaselineValidating, NoReproduction);
        return true, outcome;
      }
      ok := Say(BaselineValidating, BaselineFailed, []);
      return !ok, Failed;
    }

    /** The part of run before its loop. */
    method Prepare(start: RunState) returns (done: bool, outcome: Outcome)
      requires InFlight(start, Nothing, []) && start in {Created, Preflight, Deciding, Executing} && Settled()
      requires start == Executing ==> m.doing.None?
      modifies this`stored, this`log, this`m
      ensures old(log) <= log
      ensures done ==> MayEnd() && m.started && Ends(outcome)
      ensures !done ==> Deliberating()
      ensures old(Calm()) ==>
                if start in {Created, Preflight} && config.profile != Review && Passes(config.stages, world.baseline, true)
                then done && Arrives(outcome, Halted(NoReproduction))
                else !done && Calm()
    {
      hide StopsFor;
      hide Recorded;
      hide LoopVerdict;
      var run := start;
      if run == Created {
        var ok := Move(run, Preflight);
        if !ok { return true, Failed; }
        run := Preflight;
      }
      if run == Preflight && config.profile != Review {
        done, outcome := Reproduce();
        if done { return; }
        run := BaselineValidating;
      }
      if run != Deciding {
        var ok := Move(run, Deciding);
        if !ok { return true, Failed; }
      }
      return false, Failed;
    }

    /** await, for an action that needs approval. */
    method Await(action: Action) returns (outcome: Outcome)
      requires InFlight(Deciding, Nothing, []) && m.proposal == Some(action) && LoopVerdict(config.profile, action) == RequireApproval
      modifies this`pending, this`stored, this`log, this`m
      ensures MayEnd() && m.started && old(log) <= log && Ends(outcome)
      ensures outcome == Failed ==> pending.None?
      ensures outcome.Reported? ==>
                pending == Some(Pending(AwaitingApproval, action, config.digest(action)))
                && m.asked == Some((action, config.digest(action)))
      ensures old(Calm()) ==> Arrives(outcome, WAITS)
      ensures outcome.Reported? ==> outcome == WAITS
    {
      hide Recorded;
      WhatNeedsApproval(config.profile, action);
      var digest := config.digest(action);
      pending := Some(Pending(AwaitingApproval, action, digest));
      var ok := Write(Deciding, AwaitingApproval, Asking(action, digest));
      if !ok {
        pending := None;
        return Failed;
      }
      return WAITS;
    }

    /** An allowed action, from the decision on. */
    method Act(action: Action) returns (done: bool, outcome: Outcome)
      requires InFlight(Deciding, Nothing, []) && m.proposal == Some(action) && LoopVerdict(config.profile, action) == Allow
      modifies this`stored, this`log, this`m, tracker
      ensures old(log) <= log
      ensures done ==> MayEnd() && m.started && Ends(outcome)
      ensures !done ==> Deliberating() && tracker.usage == old(tracker.usage).(mutations := tracker.usage.mutations)
      ensures old(Calm()) && action == world.action ==>
                Comes(done, outcome, Fate(config, world, watchesProgress, old(tracker.usage)))
    {
      hide Destination;
      hide StopsFor;
      hide Recorded;
      hide LoopVerdict;
      var ok := Move(Deciding, Executing);
      if !ok { return true, Failed; }
      if action.kind == Finish {
        done, outcome := FinishRun();
        return;
      }
      done, outcome := Carry(action);
    }

    /** The execution of an allowed action, and what follows. */
    method Carry(action: Action) returns (done: bool, outcome: Outcome)
      requires InFlight(Executing, Nothing, []) && Settled() && action.kind != Finish
      requires m.doing == Some(Doing(action, false)) && LoopVerdict(config.profile, action) == Allow
      modifies this`stored, this`log, this`m, tracker
      ensures old(log) <= log
      ensures done ==> MayEnd() && m.started && Ends(outcome)
      ensures !done ==> Deliberating() && tracker.usage == old(tracker.usage).(mutations := tracker.usage.mutations)
      ensures old(Calm()) ==>
                Comes(done, outcome,
                      if world.executes && IsMutation(action.kind) then AfterLanding(config, world, watchesProgress, old(tracker.usage))
                      else Destination(config, world, watchesProgress, old(tracker.usage)))
    {
      hide AfterLanding;
      hide Destination;
      hide StopsFor;
      hide Recorded;
      hide LoopVerdict;
      var ok := Execute(action, false);
      if ok && IsMutation(action.kind) {
        WhatMutatesUnasked(config.profile, action);
        done, outcome := AfterMutation();
        return;
      }
      if !ok {
        ok := Say(Executing, ActionFailed, []);
        if !ok { return true, Failed; }
      }
      ok := Move(Executing, Deciding);
      return !ok, Failed;
    }

    /** What follows a successful mutation that run has executed. */
    method AfterMutation() returns (done: bool, outcome: Outcome)
      requires InFlight(Executing, AMutation, []) && config.profile != Review && Settled()
      modifies this`stored, this`log, this`m, tracker
      ensures old(log) <= log
      ensures done ==> MayEnd() && m.started && Ends(outcome)
      ensures !done ==> Deliberating() && tracker.usage == old(tracker.usage).(mutations := tracker.usage.mutations)
      ensures old(Calm()) ==> Comes(done, outcome, AfterLanding(config, world, watchesProgress, old(tracker.usage)))
    {
      hide StopsFor;
      hide Recorded;
      var recorded := RecordMutation();
      if !recorded {
        outcome := Halt(Executing, BudgetExhausted);
        return true, outcome;
      }
      done, outcome := ValidateCurrent();
    }

    /** What follows a current validation that fails. */
    method AfterFailure() returns (done: bool, outcome: Outcome)
      requires InFlight(Validating, Nothing, [ValidationFailed, FeedbackProduced])
      requires m.checked == Some(Current(false)) && Settled()
      modifies this`stored, this`log, this`m
      ensures old(log) <= log
      ensures done ==> MayEnd() && m.started && Ends(outcome)
      ensures !done ==> Deliberating()
      ensures old(Calm()) ==>
                if watchesProgress && world.stuck then done && Arrives(outcome, Halted(NoProgress)) else !done && Calm()
    {
      hide Recorded;
      hide LoopVerdict;
      hide StopsFor;
      var ok := Regress();
      if !ok { return true, Failed; }
      var stuck := Chance(world.Steady? && world.stuck);
      if watchesProgress && stuck {
        outcome := Halt(Deciding, NoProgress);
        return true, outcome;
      }
      return false, Failed;
    }

    method ValidateCurrent() returns (done: bool, outcome: Outcome)
      requires InFlight(Executing, AValidation, []) && config.profile != Review && Settled()
      modifies this`stored, this`log, this`m
      ensures old(log) <= log
      ensures done ==> MayEnd() && m.started && Ends(outcome)
      ensures !done ==> Deliberating()
      ensures old(Calm()) ==>
                if !Passes(config.stages, world.current, false) && watchesProgress && world.stuck
                then done && Arrives(outcome, Halted(NoProgress)) else !done && Calm()
    {
      hide StopsFor;
      hide Recorded;
      hide LoopVerdict;
      var ok, passed := Enter(Executing, Validating, Current(false));
      if !ok { return true, Failed; }
      if !passed {
        done, outcome := AfterFailure();
        return;
      }
      ok := Accept();
      return !ok, Failed;
    }

    /** The finish action, of a review. */
    method CompleteReview() returns (outcome: Outcome)
      requires InFlight(Executing, Nothing, []) && m.doing.Some? && m.doing.value.action.kind == Finish && config.profile == Review
      modifies this`stored, this`log, this`m
      ensures MayEnd() && m.started && old(log) <= log && Ends(outcome)
      ensures old(Calm()) ==> Arrives(outcome, Reported(ReviewComplete, None))
    {
      hide Recorded;
      hide LoopVerdict;
      var ok := Move(Executing, Deciding);
      if !ok { return Failed; }
      ok := Move(Deciding, ReviewComplete);
      return if ok then Reported(ReviewComplete, None) else Failed;
    }

    /** The finish action. */
    method FinishRun() returns (done: bool, outcome: Outcome)
      requires InFlight(Executing, Nothing, []) && m.doing.Some? && m.doing.value.action.kind == Finish && Settled()
      modifies this`stored, this`log, this`m
      ensures old(log) <= log
      ensures done ==> MayEnd() && m.started && Ends(outcome)
      ensures !done ==> Deliberating()
      ensures old(Calm()) ==> 
                if config.profile == Review then done && Arrives(outcome, Reported(ReviewComplete, None))
                else if Passes(config.stages, world.final, true) then done && Arrives(outcome, Reported(Succeeded, None))
                else !done && Calm()
    {
      hide Destination;
      hide StopsFor;
      hide Recorded;
      hide LoopVerdict;
      if config.profile == Review {
        outcome := CompleteReview();
        return true, outcome;
      }
      var ok, passed := Enter(Executing, Validating, Final(false));
      if !ok { return true, Failed; }
      if !passed {
        ok := Regress();
        return !ok, Failed;
      }
      ok := Move(Validating, FinalValidating);
      if !ok { return true, Failed; }
      ok := Move(FinalValidating, Succeeded);
      return true, if ok then Reported(Succeeded, None) else Failed;
    }

    // -------------------------------------------------------------- approvals

    /** ResumeApproval. It works on a copy of the pending entry, which stays in the map when an error ends
        the invocation. */
    method Resume(digest: Digest) returns (outcome: Outcome)
      requires Standing() && m.copy.None? && !closed && approvals.grants <= {digest} && "" !in approvals.grants
      modifies this`pending, this`stored, this`log, this`m, tracker, approvals
      ensures Standing() && old(log) <= log && Answers(outcome) && (old(m).started ==> m.started) && closed == old(closed)
      ensures outcome == NotGranted <==>
                digest !in old(approvals.grants) || old(pending).None? || old(pending).value.digest != digest
      ensures outcome == NotGranted ==>
                pending == old(pending) && stored == old(stored) && tracker.usage == old(tracker.usage)
      ensures outcome.Reported? || outcome == Failed || outcome == NotGranted
      ensures outcome != NotGranted && world.Steady? && !world.stops && world.executes && old(stored) == AwaitingApproval ==>
                old(log) + [Began(AwaitingApproval)] + Taking(old(pending).value.action, digest) <= log
      ensures approvals.grants <= (if outcome == NotGranted then {digest} else {}) && "" !in approvals.grants
      ensures outcome != NotGranted && world.Steady? && !world.stops && old(stored) == AwaitingApproval ==>
                Arrives(outcome, AfterApproval(config, world, watchesProgress, old(pending).value.action, old(tracker.usage)))
      ensures outcome.Reported? ==>
                || pending.None? || outcome.state == AwaitingApproval
                || (outcome.code == Some(BudgetExhausted) && pending == old(pending))
    {
      hide AfterApproval;
      hide Recorded;
      hide LoopVerdict;
      if pending.None? || pending.value.digest != digest { return NotGranted; }
      Record(Began(AwaitingApproval));
      var granted := approvals.Consume(digest);
      if !granted { return NotGranted; }
      Record(RunProtocol.Consume(digest));
      outcome := Perform(pending.value.action, digest);
    }

    /** What follows the consumption of the grant. */
    method Perform(action: Action, digest: Digest) returns (outcome: Outcome)
      requires Faithful() && approvals.grants == {} && m.started && m.copy == Some(AwaitingApproval) && !m.rejected
      requires m.owed == [] && m.consumed == Some(digest) && pending.Some? && Pended(pending.value)
      requires action == pending.value.action && digest == pending.value.digest
      requires stored == AwaitingApproval ==> m.asked == Some((action, digest)) && m.due == Nothing && m.proposal.None?
      modifies this`pending, this`stored, this`log, this`m, tracker
      ensures MayEnd() && m.started && old(log) <= log && Ends(outcome)
      ensures world.Steady? && !world.stops && world.executes && old(stored) == AwaitingApproval ==>
                old(log) + Taking(action, digest)[1..] <= log
      ensures old(Calm()) ==> Arrives(outcome, AfterApproval(config, world, watchesProgress, action, old(tracker.usage)))
      ensures outcome.Reported? ==>
                || pending.None? || outcome.state == AwaitingApproval
                || (outcome.code == Some(BudgetExhausted) && pending == old(pending))
    {
      hide Recorded;
      hide LoopVerdict;
      hide StopsFor;
      hide Destination;
      var ok := TakeUp(action, digest);
      if !ok { return Failed; }
      WhatNeedsApproval(config.profile, action);
      ghost var before := log;
      outcome := AfterApproved(action);
      assert log[..|before|] == before;
    }

    /** The transition to EXECUTING, and the execution. */
    method TakeUp(action: Action, digest: Digest) returns (ok: bool)
      requires Faithful() && approvals.grants == {} && m.started && m.copy == Some(AwaitingApproval) && !m.rejected
      requires m.owed == [] && m.consumed == Some(digest) && pending.Some? && Pended(pending.value)
      requires action == pending.value.action && digest == pending.value.digest
      requires stored == AwaitingApproval ==> m.asked == Some((action, digest)) && m.due == Nothing && m.proposal.None?
      modifies this`stored, this`log, this`m
      ensures old(log) <= log
      ensures !ok ==> MayEnd() && m.started && m.copy.None?
      ensures ok ==>
                InFlight(Executing, if IsMutation(action.kind) then AMutation else Nothing, []) && m.doing.None? && Settled()
      ensures world.Steady? && !world.stops && world.executes && old(stored) == AwaitingApproval ==>
                log == old(log) + Taking(action, digest)[1..]
      ensures old(Calm()) ==> if world.executes then ok && Calm() else !ok
    {
      hide Recorded;
      hide LoopVerdict;
      hide StopsFor;
      ok := Write(AwaitingApproval, Executing, Resuming(action, digest));
      if !ok { return; }
      WhatNeedsApproval(config.profile, action);
      ok := Execute(action, true);
    }

    /** What follows the successful execution of an approved action. */
    method AfterApproved(action: Action) returns (outcome: Outcome)
      requires InFlight(Executing, if IsMutation(action.kind) then AMutation else Nothing, []) && m.doing.None? && Settled()
      requires IsMutation(action.kind) ==> config.profile != Review
      modifies this`pending, this`stored, this`log, this`m, tracker
      ensures MayEnd() && m.started && old(log) <= log && Ends(outcome)
      ensures old(Calm()) && world.executes ==>
                Arrives(outcome, AfterApproval(config, world, watchesProgress, action, old(tracker.usage)))
      ensures outcome.Reported? ==>
                || pending.None? || outcome.state == AwaitingApproval
                || (outcome.code == Some(BudgetExhausted) && pending == old(pending))
    {
      hide Recorded;
      hide StopsFor;
      if IsMutation(action.kind) {
        outcome := AfterApprovedMutation();
      } else {
        pending := None;
        outcome := Drive(Executing);
      }
    }

    method AfterApprovedMutation() returns (outcome: Outcome)
      requires InFlight(Executing, AMutation, []) && m.doing.None? && Settled() && config.profile != Review
      modifies this`pending, this`stored, this`log, this`m, tracker
      ensures MayEnd() && m.started && old(log) <= log && Ends(outcome)
      ensures old(Calm()) ==>
                var usage := old(tracker.usage);
                Arrives(outcome,
                        if usage.mutations >= config.limits.mutations then Halted(BudgetExhausted)
                        else From(config, world, watchesProgress, Deciding, usage.(mutations := usage.mutations + 1)))
      ensures outcome.Reported? ==>
                || pending.None? || outcome.state == AwaitingApproval
                || (outcome.code == Some(BudgetExhausted) && pending == old(pending))
    {
      hide Recorded;
      hide StopsFor;
      hide From;
      var recorded := RecordMutation();
      if !recorded {
        outcome := Halt(Executing, BudgetExhausted);
        return;
      }
      var done;
      done, outcome := ValidateResumed();
      if done { return; }
      outcome := Drive(Deciding);
    }

    /** What follows a successful mutation that ResumeApproval has executed, up to the next decision. */
    method ValidateResumed() returns (done: bool, outcome: Outcome)
      requires InFlight(Executing, AValidation, []) && config.profile != Review && Settled()
      modifies this`pending, this`stored, this`log, this`m
      ensures old(log) <= log
      ensures done ==> MayEnd() && m.started && Ends(outcome) && outcome == Failed
      ensures !done ==> Deliberating() && pending.None?
      ensures old(Calm()) ==> !done && Calm()
    {
      hide StopsFor;
      hide Recorded;
      hide LoopVerdict;
      var ok, passed := Enter(Executing, Validating, Current(false));
      if !ok { return true, Failed; }
      if !passed {
        ok := Regress();
        if ok { pending := None; }
        return !ok, Failed;
      }
      ok := Say(Validating, ValidationPassed, []);
      if !ok { return true, Failed; }
      pending := None;
      ok := Move(Validating, Deciding);
      return !ok, Failed;
    }

    /** Approve, of a session. */
    method Approve(digest: Digest) returns (outcome: Outcome)
      requires Valid()
      modifies this`pending, this`stored, this`log, this`m, this`issued, tracker, approvals
      ensures Valid() && old(log) <= log && Reports(outcome) && closed == old(closed)
      ensures outcome == Refused <==> old(closed)
      ensures issued == old(issued) + (if old(closed) then 0 else 1) && (old(m).started ==> m.started)
      ensures outcome == NotGranted <==> !old(closed) && (digest == "" || old(pending).None? || old(pending).value.digest != digest)
      ensures outcome in {Refused, NotGranted} ==>
                pending == old(pending) && stored == old(stored) && tracker.usage == old(tracker.usage)
      ensures outcome !in {Refused, NotGranted} && world.Steady? && !world.stops && world.executes && old(stored) == AwaitingApproval ==>
                old(log) + [RunProtocol.Grant(digest), Began(AwaitingApproval)] + Taking(old(pending).value.action, digest) <= log
      ensures outcome !in {Refused, NotGranted} && world.Steady? && !world.stops && old(stored) == AwaitingApproval ==>
                Arrives(outcome, AfterApproval(config, world, watchesProgress, old(pending).value.action, old(tracker.usage)))
      ensures outcome.Reported? ==>
                || pending.None? || outcome.state == AwaitingApproval
                || (outcome.code == Some(BudgetExhausted) && pending == old(pending))
    {
      hide LoopVerdict;
      hide Recorded;
      hide Taking;
      if closed { return Refused; }
      outcome := Approval(digest);
      ghost var before := log;
      Leave();
      assert log[..|before|] == before;
    }

    /** The invocation of an approval: a grant that is not used does not outlive it. */
    method Approval(digest: Digest) returns (outcome: Outcome)
      requires Valid() && !closed
      modifies this`pending, this`stored, this`log, this`m, this`issued, tracker, approvals
      ensures MayEnd() && old(log) <= log && Answers(outcome) && issued == old(issued) + 1 && (old(m).started ==> m.started)
      ensures outcome.Reported? || outcome == Failed || outcome == NotGranted
      ensures outcome == NotGranted <==> digest == "" || old(pending).None? || old(pending).value.digest != digest
      ensures outcome == NotGranted ==>
                pending == old(pending) && stored == old(stored) && tracker.usage == old(tracker.usage)
      ensures outcome != NotGranted && world.Steady? && !world.stops && world.executes && old(stored) == AwaitingApproval ==>
                old(log) + [RunProtocol.Grant(digest), Began(AwaitingApproval)] + Taking(old(pending).value.action, digest) <= log
      ensures outcome != NotGranted && world.Steady? && !world.stops && old(stored) == AwaitingApproval ==>
                Arrives(outcome, AfterApproval(config, world, watchesProgress, old(pending).value.action, old(tracker.usage)))
      ensures outcome.Reported? ==>
                || pending.None? || outcome.state == AwaitingApproval
                || (outcome.code == Some(BudgetExhausted) && pending == old(pending))
    {
      hide AfterApproval;
      hide StopsFor;
      hide LoopVerdict;
      hide Recorded;
      approvals.Grant(digest);
      issued := issued + 1;
      Record(RunProtocol.Grant(digest));
      outcome := Resume(digest);
      if !outcome.Reported? {
        ghost var before := log;
        Withdraw(digest);
        assert log[..|before|] == before;
      }
    }

    /** The invocation returns. */
    ghost method Leave()
      requires MayEnd()
      modifies this`log, this`m
      ensures Valid() && log == old(log) + [Returned] && m == old(m).(copy := None)
    {
      hide Recorded;
      hide LoopVerdict;
      Record(Returned);
    }

    /** The grant is withdrawn. */
    method Withdraw(digest: Digest)
      requires Standing() && approvals.grants <= {digest} && "" !in approvals.grants
      modifies this`log, this`m, approvals
      ensures MayEnd() && log == old(log) + [RunProtocol.Revoke(digest)] && m == old(m).(grants := {})
    {
      hide Recorded;
      hide LoopVerdict;
      approvals.Revoke(digest);
      Record(RunProtocol.Revoke(digest));
    }

    /** A rejection has been noted. */
    ghost predicate Rejecting(owed: seq<RunProtocol.Note>)
      reads this, tracker, approvals
    {
      && Faithful() && approvals.grants == {} && m.started && m.copy == Some(AwaitingApproval) && m.rejected
      && m.owed == owed && pending.Some? && Pended(pending.value)
      && (stored == AwaitingApproval ==>
            m.asked == Some((pending.value.action, pending.value.digest)) && m.due == Nothing && m.proposal.None?)
    }

    /** Reject, of a session. */
    method Reject(digest: Digest, terminate: bool) returns (outcome: Outcome)
      requires Valid()
      modifies this`pending, this`stored, this`log, this`m, tracker
      ensures Valid() && old(log) <= log && Reports(outcome) && closed == old(closed)
      ensures outcome == Refused <==> old(closed)
      ensures outcome == Mismatch <==> !old(closed) && (old(pending).None? || old(pending).value.digest != digest)
      ensures outcome in {Refused, Mismatch} ==>
                log == old(log) && pending == old(pending) && stored == old(stored) && tracker.usage == old(tracker.usage)
      ensures outcome !in {Refused, Mismatch} && world.Steady? && world.refuses ==>
                && outcome == Failed && stored == old(stored) && pending == old(pending)
                && old(log) + [Began(AwaitingApproval), Noted(RejectedByUser, true)] <= log
                && (terminate ==> log == old(log) + [Began(AwaitingApproval), Noted(RejectedByUser, true), FailedStop(), Returned])
      ensures outcome !in {Refused, Mismatch} && world.Steady? && !world.stops && !world.refuses && old(stored) == AwaitingApproval ==>
                Arrives(outcome, AfterRejecting(terminate, config, world, watchesProgress, old(tracker.usage)))
      ensures outcome.Reported? ==> pending.None? || outcome.state == AwaitingApproval
    {
      hide Recorded;
      hide LoopVerdict;
      if closed { return Refused; }
      if pending.None? || pending.value.digest != digest { return Mismatch; }
      outcome := Rejection(terminate);
      ghost var before := log;
      Leave();
      assert log[..|before|] == before;
    }

    /** RejectApproval, of a matching pending entry. A rejection is noted first; if what follows fails, the
        pending entry stays, and so does the wait if the store has not moved the run. */
    method Rejection(terminate: bool) returns (outcome: Outcome)
      requires Valid() && !closed && pending.Some?
      modifies this`pending, this`stored, this`log, this`m, tracker
      ensures MayEnd() && m.started && old(log) <= log && Ends(outcome)
      ensures world.Steady? && world.refuses ==>
                && outcome == Failed && stored == old(stored) && pending == old(pending)
                && old(log) + [Began(AwaitingApproval), Noted(RejectedByUser, true)] <= log
                && (terminate ==> log == old(log) + [Began(AwaitingApproval), Noted(RejectedByUser, true), FailedStop()])
      ensures world.Steady? && !world.stops && !world.refuses && old(stored) == AwaitingApproval ==>
                Arrives(outcome, AfterRejecting(terminate, config, world, watchesProgress, old(tracker.usage)))
      ensures outcome.Reported? ==> pending.None? || outcome.state == AwaitingApproval
    {
      hide Recorded;
      hide LoopVerdict;
      Record(Began(AwaitingApproval));
      var ok := Note(RejectedByUser);
      if !ok { return Failed; }
      outcome := AfterRejection(terminate);
    }

    /** What follows a rejection that has been noted. */
    method AfterRejection(terminate: bool) returns (outcome: Outcome)
      requires Rejecting([FeedbackProduced])
      modifies this`pending, this`stored, this`log, this`m, tracker
      ensures MayEnd() && m.started && old(log) <= log && Ends(outcome)
      ensures world.Steady? && world.refuses ==> outcome == Failed && stored == old(stored) && pending == old(pending)
      ensures world.Steady? && world.refuses && terminate ==> log == old(log) + [FailedStop()]
      ensures world.Steady? && !world.stops && !world.refuses && old(stored) == AwaitingApproval ==>
                Arrives(outcome, AfterRejecting(terminate, config, world, watchesProgress, old(tracker.usage)))
      ensures outcome.Reported? ==> pending.None? || outcome.state == AwaitingApproval
    {
      hide Recorded;
      hide LoopVerdict;
      if terminate {
        outcome := Stop(AwaitingApproval, ApprovalRejected);
        if outcome.Reported? { pending := None; }
      } else {
        outcome := Continue();
      }
    }

    /** The run goes on with the rejection as feedback. */
    method Continue() returns (outcome: Outcome)
      requires Rejecting([FeedbackProduced])
      modifies this`pending, this`stored, this`log, this`m, tracker
      ensures MayEnd() && m.started && old(log) <= log && Ends(outcome)
      ensures world.Steady? && world.refuses ==> outcome == Failed && stored == old(stored) && pending == old(pending)
      ensures world.Steady? && !world.stops && !world.refuses && old(stored) == AwaitingApproval ==>
                Arrives(outcome, AfterRejecting(false, config, world, watchesProgress, old(tracker.usage)))
      ensures outcome.Reported? ==> pending.None? || outcome.state == AwaitingApproval
    {
      hide StopsFor;
      hide Recorded;
      hide LoopVerdict;
      var ok := Note(FeedbackProduced);
      if !ok { return Failed; }
      ok := Write(AwaitingApproval, Deciding, Simple);
      if !ok { return Failed; }
      pending := None;
      outcome := Drive(Deciding);
    }

    // -------------------------------------------------------------- the session

    /** deleteSession: nothing is admitted any more. */
    method Close()
      requires Valid()
      modifies this`closed, this`log, this`m
      ensures Valid() && closed && log == old(log) + [Closed] && m == old(m).(closed := true)
    {
      hide Recorded;
      closed := true;
      Record(Closed);
    }
  }

  /** Whether the controller deletes the session after this outcome of an invocation. */
  predicate EndsSession(outcome: Outcome) {
    match outcome
    case Reported(state, _) => Terminal(state)
    case Failed => true
    case Refused => true
    case _ => false
  }

  /** The controller's handling of one session. Between the end of an invocation and the deletion of the
      session another invocation may be admitted, as the methods of Loop allow. */
  class Controller {
    const loop: Loop

    constructor (loop: Loop)
      ensures this.loop == loop
    {
      this.loop := loop;
    }

    method Settle(outcome: Outcome)
      requires loop.Valid()
      modifies loop
      ensures loop.Valid() && loop.closed == (old(loop.closed) || EndsSession(outcome))
      ensures loop.stored == old(loop.stored) && loop.pending == old(loop.pending) && old(loop.log) <= loop.log
    {
      if EndsSession(outcome) { loop.Close(); }
    }

    method Start() returns (outcome: Outcome)
      requires loop.Valid() && !loop.m.started
      modifies loop, loop.tracker
      ensures loop.Valid() && old(loop.log) <= loop.log && loop.closed == (old(loop.closed) || EndsSession(outcome))
      ensures !old(loop.closed) && loop.world.Steady? && !loop.world.stops && old(loop.stored) == loop.config.initial ==>
                loop.Arrives(outcome, From(loop.config, loop.world, loop.watchesProgress, loop.config.initial, old(loop.tracker.usage)))
    {
      outcome := loop.Start();
      Settle(outcome);
    }

    method Approve(digest: Digest) returns (outcome: Outcome)
      requires loop.Valid()
      modifies loop, loop.tracker, loop.approvals
      ensures loop.Valid() && old(loop.log) <= loop.log && loop.closed == (old(loop.closed) || EndsSession(outcome))
      ensures (outcome == Refused <==> old(loop.closed)) && (outcome == Refused ==> loop.stored == old(loop.stored))
      ensures outcome == NotGranted <==>
                !old(loop.closed) && (digest == "" || old(loop.pending).None? || old(loop.pending).value.digest != digest)
      ensures outcome !in {Refused, NotGranted} && loop.world.Steady? && !loop.world.stops && old(loop.stored) == AwaitingApproval ==>
                loop.Arrives(outcome, AfterApproval(loop.config, loop.world, loop.watchesProgress,
                                                    old(loop.pending).value.action, old(loop.tracker.usage)))
    {
      outcome := loop.Approve(digest);
      Settle(outcome);
    }

    method Reject(digest: Digest, terminate: bool) returns (outcome: Outcome)
      requires loop.Valid()
      modifies loop, loop.tracker
      ensures loop.Valid() && old(loop.log) <= loop.log && loop.closed == (old(loop.closed) || EndsSession(outcome))
      ensures (outcome == Refused <==> old(loop.closed)) && (outcome == Refused ==> loop.stored == old(loop.stored))
      ensures outcome == Mismatch <==>
                !old(loop.closed) && (old(loop.pending).None? || old(loop.pending).value.digest != digest)
      ensures outcome !in {Refused, Mismatch} && loop.world.Steady? && !loop.world.stops && !loop.world.refuses
              && old(loop.stored) == AwaitingApproval ==>
                loop.Arrives(outcome, AfterRejecting(terminate, loop.config, loop.world, loop.watchesProgress, old(loop.tracker.usage)))
    {
      outcome := loop.Reject(digest, terminate);
      Settle(outcome);
    }
  }
}
