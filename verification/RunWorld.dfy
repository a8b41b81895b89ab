/** The world around the agent loop: it answers arbitrarily, or steadily in one of a few ways. What a loop
    does in a steady world is one of the things it can do. */
module RunWorld {

  import opened RunState
  import opened Policy
  import opened Budget
  import opened RunProtocol
  import opened Wrappers
  import opened Pipeline

  /** When the context is cancelled, or the time is over, before the provider is asked: never, or once this
      many decisions have been recorded. */
  datatype Patience = Endless | CancelledAfter(n: nat) | LateAfter(n: nat)

  /** A steady world answers the same on every occasion: the provider decides on one action, the stages of each
      validation answer in one way, an execution succeeds if "executes", and an installed progress detector
      says to stop if "stuck". There are no faults, and the loop is the only writer of the run, unless "stops":
      then another writer stops it during its first execution. If "refuses", the store refuses to move a
      waiting run on, except to resume it. */
  datatype World =
    | Arbitrary
    | Steady(action: Action, stops: bool, refuses: bool, patience: Patience, executes: bool, stuck: bool,
             baseline: Executor, current: Executor, final: Executor)

  const PASSING: Executor := i => (Observation(CODE_EXIT, Some(0)), false)
  const FAILING: Executor := i => (Observation(CODE_EXIT, Some(1)), false)

  lemma FailingFails(stages: seq<Stage>)
    ensures !Passes(stages, FAILING, true)
  {
    if i :| 0 <= i < |stages| && stages[i].required { assert !ExitsWithZero(FAILING, i); }
  }

  lemma PassingPasses(stages: seq<Stage>, requiredOnly: bool)
    ensures Passes(stages, PASSING, requiredOnly) <==> if requiredOnly then SomeRequired(stages) else stages != []
  {
    assert forall i: nat :: ExitsWithZero(PASSING, i);
  }

  /** The steady world in which the baseline fails and all else goes well. */
  function Fair(action: Action, stops: bool, refuses: bool): World {
    Steady(action, stops, refuses, Endless, true, false, FAILING, PASSING, PASSING)
  }

  function Answering(w: World, check: Check): Executor
    requires w.Steady?
  {
    match check case Baseline(_) => w.baseline case Current(_) => w.current case Final(_) => w.final
  }

  predicate Cancelled(w: World, usage: Usage) {
    w.Steady? && w.patience.CancelledAfter? && w.patience.n <= usage.decisions
  }

  predicate Expired(w: World, usage: Usage) {
    w.Steady? && w.patience.LateAfter? && w.patience.n <= usage.decisions
  }

  /** What the loop takes up of a decision. */
  function Decided(action: Action): Option<Action> {
    if action.kind != Unregistered("") && action.args.parses then Some(action) else None
  }

  predicate Refused(w: World, from: RunState, why: Reason) {
    w.Steady? && w.refuses && from == AwaitingApproval && !why.Resuming?
  }

  /** The loop is cancelled, runs out of time or is found to be stuck only as the world has it. */
  predicate Timely(w: World, m: Monitor, why: Reason)
    requires w.Steady?
  {
    && (why == Stopping(UserCancelled) ==> Cancelled(w, m.usage))
    && (why == Stopping(NoProgress) ==> w.stuck)
    && (why == Stopping(BudgetExhausted) ==> m.due != Nothing || Expired(w, m.usage))
  }

  /** Whether an entry is one of this world. */
  ghost predicate Usual(w: World, m: Monitor, e: Entry) {
    w.Steady? ==>
      match e
      case Called(answer) => answer == Decided(w.action)
      case Noted(_, ok) => ok
      case Checked(check, executor) => executor == Answering(w, check)
      case Executed(_, _, ok) => ok == w.executes && (w.stops ==> Terminal(m.stored))
      case External(to) => w.stops && to == Stopped && m.copy == Some(Executing) && m.doing.Some?
      case Write(from, _, why, ok) => (ok <==> m.stored == from && !Refused(w, from, why)) && Timely(w, m, why)
      case _ => true
  }

  ghost predicate UsualAt(c: Config, w: World, log: seq<Entry>, k: nat)
    requires k < |log|
  {
    Usual(w, Replay(c, log, k), log[k])
  }

  /** A legal history in this world. */
  ghost predicate Lived(c: Config, w: World, log: seq<Entry>) {
    Legal(c, log) && forall k | 0 <= k < |log| :: UsualAt(c, w, log, k)
  }

  lemma LiveOn(c: Config, w: World, log: seq<Entry>, e: Entry)
    requires Lived(c, w, log) && Permitted(c, Replay(c, log, |log|), e) && Usual(w, Replay(c, log, |log|), e)
    ensures Lived(c, w, log + [e]) && Replay(c, log + [e], |log| + 1) == Next(c, Replay(c, log, |log|), e)
  {
    hide Permitted;
    hide Usual;
    hide Next;
    Extend(c, log, e);
    var more := log + [e];
    assert more[..|log|] == log;
    forall k | 0 <= k < |more| ensures UsualAt(c, w, more, k) {
      ReplayPrefix(c, log, more, k);
      if k < |log| { assert UsualAt(c, w, log, k); }
    }
  }
}
