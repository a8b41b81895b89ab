/** The protocol of one run: the history that the agent loop (internal/agent/loop.go) writes, and the local
    rules each entry of a history obeys. Module RunLoop shows that the loop obeys the rules, whatever the
    provider, the executor, the validator, the clock, the store and other writers of the run do; module
    RunHistory proves what follows for whole histories. */
module RunProtocol {

  import opened RunState
  import opened Policy
  import opened Budget
  import opened Wrappers
  import opened Pipeline

  datatype StopCode =
    | UserCancelled | NoReproduction | BudgetExhausted | ProtocolExhausted | NoProgress | ApprovalRejected
    | ApprovalRequired // reported when the run begins to wait; no run is stopped for it

  /** What a conditional update of the stored run is for. */
  datatype Reason =
    | Simple
    | Asking(action: Action, digest: Digest)   // the event ApprovalRequired
    | Resuming(action: Action, digest: Digest) // ApprovalGranted
    | Stopping(code: StopCode)                 // RunStopped

  datatype Check = Baseline(passed: bool) | Current(passed: bool) | Final(passed: bool)

  /** The events that the loop appends beside those of its state changes. */
  datatype Note =
    | BaselineFailed | ProtocolError | PolicyDenied | ActionFailed | ValidationFailed | ValidationPassed
    | RejectedByUser // ApprovalRejected
    | FeedbackProduced

  datatype Entry =
    | Began(copy: RunState)                  // an invocation starts, with this local copy of the run
    | Returned                               // the invocation returns
    | Closed                                 // the session is deleted and its context cancelled
    | Called(answer: Option<Action>)         // Provider.Decide; None is an error or an invalid decision
    | Repair(ok: bool)                       // RecordProtocolRepair
    | Decision(ok: bool)                     // RecordDecision
    | Mutation(ok: bool)                     // RecordMutation
    | Noted(note: Note, ok: bool)            // AppendEvent
    | Checked(check: Check, executor: Executor) // a validation, and what its stages answered
    | Write(from: RunState, to: RunState, why: Reason, ok: bool) // UpdateRunIfState
    | Executed(action: Action, approved: bool, ok: bool)
    | Grant(digest: Digest)
    | Consume(digest: Digest)
    | Revoke(digest: Digest)
    | External(to: RunState)                 // another writer of the run

  /** What other writers do to the stored run: the service stops a run that is not over, and an approval of
      the preflight that comes late moves a waiting run back to preflight. */
  predicate Intrudes(stored: RunState, to: RunState) {
    (to == Stopped && !Terminal(stored)) || (to == Preflight && stored == AwaitingApproval)
  }

  /** One run: its profile, its limits, the state it is stored in when the loop is started, the digest that
      stands for an action in approvals, and the configured stages of validation. */
  datatype Config = Config(profile: Profile, limits: Limits, initial: RunState, digest: Action -> Digest, stages: seq<Stage>)

  ghost predicate ValidConfig(c: Config) { c.initial in {Created, Preflight} }

  /** What must happen before the run goes on: the budget has to admit the provider's last answer, or the
      last successful mutation, or that mutation has to be validated. */
  datatype Due = Nothing | AnAnswer | AMutation | AValidation

  datatype Doing = Doing(action: Action, approved: bool)

  /** What a history amounts to. "copy" is the local copy of the run inside an invocation that has not
      failed or begun to wait, "proposal" the provider's last answer unless it has been taken up, "doing" the
      action to execute, "asked" the action the stored run waits for, "rejected" whether this invocation has noted a rejection of
      it, "owed" the events still to be appended before the run goes on, "issued" the number of grants. */
  datatype Monitor = Monitor(
    stored: RunState,
    started: bool,
    closed: bool,
    copy: Option<RunState>,
    checked: Option<Check>,
    proposal: Option<Action>,
    due: Due,
    owed: seq<Note>,
    doing: Option<Doing>,
    asked: Option<(Action, Digest)>,
    consumed: Option<Digest>,
    rejected: bool,
    grants: set<Digest>,
    issued: nat,
    usage: Usage)

  function Initial(c: Config): Monitor {
    Monitor(c.initial, false, false, None, None, None, Nothing, [], None, None, None, false, {}, 0, Usage(0, 0, 0))
  }

  // ---------------------------------------------------------------- the rules

  /** What is due has no budget left. */
  predicate Exhausted(c: Config, m: Monitor) {
    match m.due
    case AnAnswer =>
      if m.proposal.None? then m.usage.protocolRepairs >= c.limits.protocolRepairs else m.usage.decisions >= c.limits.decisions
    case AMutation => m.usage.mutations >= c.limits.mutations
    case _ => false
  }

  predicate Transition(c: Config, m: Monitor, from: RunState, to: RunState, why: Reason, ok: bool) {
    && Allowed(from, to)
    && (to == Stopped <==> why.Stopping?)
    && (to == AwaitingApproval <==> why.Asking?)
    && (why.Resuming? <==> from == AwaitingApproval && to == Executing)
    && (from == AwaitingApproval ==> (m.rejected <==> to != Executing))
    && (to == Stopped || m.owed == [])
    && match to
       case BaselineValidating => c.profile != Review
       case Deciding =>
         && (from == Preflight ==> c.profile == Review)
         && (from == BaselineValidating ==> m.checked == Some(Baseline(false)))
         && (from == Executing ==>
               m.doing.None? || (m.doing.value.action.kind == Finish && c.profile == Review))
         && (from == Validating ==> m.checked.Some? && m.checked != Some(Final(true)))
         && from != FinalValidating
       case AwaitingApproval =>
         && from == Deciding && m.proposal == Some(why.action) && m.grants == {}
         && LoopVerdict(c.profile, why.action) == RequireApproval && why.digest == c.digest(why.action)
       case Executing =>
         if from == AwaitingApproval then
           m.consumed == Some(why.digest) && (ok ==> m.asked == Some((why.action, why.digest)))
         else m.proposal.Some? && LoopVerdict(c.profile, m.proposal.value) == Allow
       case Validating =>
         && c.profile != Review
         && (m.due == AValidation || (m.doing.Some? && m.doing.value.action.kind == Finish))
       case FinalValidating => m.checked == Some(Final(true))
       case ReviewComplete => c.profile == Review
       case Stopped =>
         (match why.code
          case UserCancelled => from in {Created, Preflight, Deciding, Executing}
          case NoReproduction => from == BaselineValidating && m.checked == Some(Baseline(true))
          case BudgetExhausted =>
            || (from == Deciding && m.due != AMutation && (m.due == AnAnswer ==> m.proposal.Some? && Exhausted(c, m)))
            || (from == Executing && m.due == AMutation && Exhausted(c, m))
          case ProtocolExhausted => m.due == AnAnswer && m.proposal.None? && Exhausted(c, m)
          case NoProgress => from == Deciding
          case ApprovalRejected => from == AwaitingApproval
          case ApprovalRequired => false)
       case _ => true
  }

  /** What is due comes next; when it is a budget that is exceeded, the only write that can succeed is the
      one that stops the run for it. A pending entry left behind can only be refused. */
  predicate InTurn(m: Monitor, from: RunState, to: RunState, why: Reason, ok: bool) {
    match m.due
    case Nothing => true
    case AnAnswer => why == Stopping(BudgetExhausted) || why == Stopping(ProtocolExhausted) || (from == AwaitingApproval && !ok)
    case AMutation => why == Stopping(BudgetExhausted) || (from == AwaitingApproval && !ok)
    case AValidation => (from == Executing && to == Validating) || (from == AwaitingApproval && !ok)
  }

  /** A validation of this kind is next. */
  predicate MayCheck(m: Monitor, check: Check) {
    && m.checked.None? && m.owed == []
    && m.copy == Some(if check.Baseline? then BaselineValidating else Validating)
    && m.due == if check.Current? then AValidation else Nothing
  }

  /** An invocation can return: it has failed or begun to wait, or its copy is over, or it has found the run
      waiting and has neither noted a rejection nor consumed a grant. */
  predicate MayReturn(m: Monitor) {
    m.copy.Some? ==> Terminal(m.copy.value) || (m.copy.value == AwaitingApproval && !m.rejected && m.consumed.None?)
  }

  ghost predicate Permitted(c: Config, m: Monitor, e: Entry) {
    match e
    case Began(copy) => !m.closed && m.copy.None? && copy == if m.started then AwaitingApproval else c.initial
    case Returned => MayReturn(m)
    case Closed => m.copy.None?
    case Called(_) =>
      && m.copy == Some(Deciding) && m.due == Nothing && m.owed == []
      && (m.proposal.Some? ==> LoopVerdict(c.profile, m.proposal.value) == Deny)
    case Repair(ok) =>
      && m.copy == Some(Deciding) && m.owed == [] && m.due == AnAnswer && m.proposal.None?
      && (ok <==> m.usage.protocolRepairs < c.limits.protocolRepairs)
    case Decision(ok) =>
      && m.copy == Some(Deciding) && m.owed == [] && m.due == AnAnswer && m.proposal.Some?
      && (ok <==> m.usage.decisions < c.limits.decisions)
    case Mutation(ok) => m.due == AMutation && (ok <==> m.usage.mutations < c.limits.mutations)
    case Noted(note, _) =>
      m.copy.Some? && if m.owed != [] then note == m.owed[0] else note == RejectedByUser && m.copy.value == AwaitingApproval
    case Checked(check, executor) => MayCheck(m, check) && (check.passed <==> Passes(c.stages, executor, !check.Current?))
    case Write(from, to, why, ok) =>
      && m.copy == Some(from) && (ok ==> m.stored == from)
      && Transition(c, m, from, to, why, ok) && InTurn(m, from, to, why, ok)
    case Executed(action, approved, _) =>
      && m.copy == Some(Executing) && m.doing == Some(Doing(action, approved)) && m.due == Nothing && m.owed == []
      && action.kind != Finish
    case Grant(_) => true
    case Consume(digest) => digest in m.grants
    case Revoke(_) => true
    case External(to) => Intrudes(m.stored, to)
  }

  /** The events owed after a validation. */
  function OwedAfter(check: Check): seq<Note> {
    match check
    case Baseline(passed) => if passed then [] else [BaselineFailed]
    case Current(passed) => if passed then [ValidationPassed] else [ValidationFailed, FeedbackProduced]
    case Final(passed) => if passed then [] else [ValidationFailed, FeedbackProduced]
  }

  function Written(m: Monitor, from: RunState, to: RunState, why: Reason): Monitor {
    m.(stored := to, copy := if why.Asking? then None else Some(to), checked := None,
       proposal := if to == Executing || to == AwaitingApproval then None else m.proposal,
       doing := if to != Executing then None
                else if why.Resuming? then Some(Doing(why.action, true))
                else if m.proposal.Some? then Some(Doing(m.proposal.value, false)) else None,
       asked := if why.Asking? then Some((why.action, why.digest)) else None,
       consumed := if why.Asking? then None else m.consumed)
  }

  function Next(c: Config, m: Monitor, e: Entry): Monitor {
    match e
    case Began(copy) =>
      m.(started := true, copy := Some(copy), checked := None, owed := [], doing := None, consumed := None, rejected := false)
    case Returned => m.(copy := None)
    case Closed => m.(closed := true)
    case Called(answer) => m.(proposal := answer, due := AnAnswer)
    case Repair(ok) =>
      if ok then
        m.(due := Nothing, owed := [ProtocolError], usage := m.usage.(protocolRepairs := m.usage.protocolRepairs + 1))
      else m
    case Decision(ok) =>
      if ok then
        m.(due := Nothing, usage := m.usage.(decisions := m.usage.decisions + 1, protocolRepairs := 0),
           owed := if m.proposal.Some? && LoopVerdict(c.profile, m.proposal.value) == Deny
                   then [PolicyDenied, FeedbackProduced] else [])
      else m
    case Mutation(ok) =>
      if ok then m.(due := AValidation, usage := m.usage.(mutations := m.usage.mutations + 1)) else m
    case Noted(note, ok) =>
      if !ok then m.(copy := None)
      else m.(owed := if m.owed == [] then [FeedbackProduced] else m.owed[1..], rejected := m.rejected || note == RejectedByUser)
    case Checked(check, _) => m.(checked := Some(check), due := Nothing, owed := OwedAfter(check))
    case Write(from, to, why, ok) => if ok then Written(m, from, to, why) else m.(copy := None)
    case Executed(action, approved, ok) =>
      m.(doing := None, due := if ok && IsMutation(action.kind) then AMutation else Nothing,
         copy := if approved && !ok then None else m.copy,
         owed := if approved || ok then [] else [ActionFailed])
    case Grant(d) => m.(grants := Granted(m.grants, Operation.Grant(d)), issued := m.issued + 1)
    case Consume(d) => m.(grants := Granted(m.grants, Operation.Consume(d)), consumed := Some(d))
    case Revoke(d) => m.(grants := Granted(m.grants, Operation.Revoke(d)))
    case External(to) => m.(stored := to)
  }

  /** What the first k entries of a history amount to. */
  function Replay(c: Config, log: seq<Entry>, k: nat): Monitor
    requires k <= |log|
  {
    if k == 0 then Initial(c) else Next(c, Replay(c, log, k - 1), log[k - 1])
  }

  ghost predicate PermittedAt(c: Config, log: seq<Entry>, k: nat)
    requires k < |log|
  {
    Permitted(c, Replay(c, log, k), log[k])
  }

  /** Every entry of the history is permitted after the ones before it. */
  ghost predicate Legal(c: Config, log: seq<Entry>) {
    ValidConfig(c) && forall k | 0 <= k < |log| :: PermittedAt(c, log, k)
  }

  lemma {:induction false} ReplayPrefix(c: Config, log: seq<Entry>, more: seq<Entry>, k: nat)
    requires k <= |log| <= |more| && more[..|log|] == log
    ensures Replay(c, more, k) == Replay(c, log, k)
  {
    if k > 0 {
      ReplayPrefix(c, log, more, k - 1);
      assert more[..|log|][k - 1] == log[k - 1];
    }
  }

  lemma PermittedPrefix(c: Config, log: seq<Entry>, more: seq<Entry>, k: nat)
    requires k < |log| <= |more| && more[..|log|] == log && PermittedAt(c, log, k)
    ensures PermittedAt(c, more, k)
  {
    ReplayPrefix(c, log, more, k);
    assert more[..|log|][k] == log[k];
  }

  /** A permitted entry extends a legal history. */
  lemma Extend(c: Config, log: seq<Entry>, e: Entry)
    requires Legal(c, log) && Permitted(c, Replay(c, log, |log|), e)
    ensures Legal(c, log + [e]) && Replay(c, log + [e], |log| + 1) == Next(c, Replay(c, log, |log|), e)
  {
    var more := log + [e];
    assert more[..|log|] == log;
    ReplayPrefix(c, log, more, |log|);
    forall k | 0 <= k < |more| ensures PermittedAt(c, more, k) {
      if k < |log| { PermittedPrefix(c, log, more, k); }
    }
  }
}
