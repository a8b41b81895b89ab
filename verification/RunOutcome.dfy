/** What an invocation of the agent loop reports (internal/agent/loop.go), and what it has to report in a steady
    world: module RunLoop shows that the loop does report it. */
module RunOutcome {

  import opened RunState
  import opened Policy
  import opened Budget
  import opened Wrappers
  import opened Pipeline
  import opened RunProtocol
  import opened RunWorld

  datatype Outcome =
    | Reported(state: RunState, code: Option<StopCode>) // no code: the run has succeeded or the review is complete
    | Failed     // a store or executor error
    | NotGranted // ErrApprovalNotGranted
    | Mismatch   // ErrApprovalRejectionMismatch
    | Refused    // the session is closed

  function Left(limit: int, used: nat): nat { if used < limit then limit - used else 0 }

  const WAITS := Reported(AwaitingApproval, Some(ApprovalRequired))

  function Halted(code: StopCode): Outcome { Reported(Stopped, Some(code)) }

  /** What a run comes to that is left alone in a steady world, once it is about to ask the provider: this is
      what the invocation reports, after however many rounds. */
  ghost function Destination(c: Config, w: World, watches: bool, usage: Usage): (outcome: Outcome)
    requires w.Steady?
    ensures outcome.Reported?
    decreases Left(c.limits.decisions, usage.decisions), 0
  {
    if Cancelled(w, usage) then Halted(UserCancelled)
    else if Expired(w, usage) then Halted(BudgetExhausted)
    else if Decided(w.action).None? then Halted(ProtocolExhausted)
    else if usage.decisions >= c.limits.decisions then Halted(BudgetExhausted)
    else Fate(c, w, watches, Usage(usage.decisions + 1, usage.mutations, 0))
  }

  /** The same once the budget has admitted the decision. */
  ghost function Fate(c: Config, w: World, watches: bool, usage: Usage): (outcome: Outcome)
    requires w.Steady?
    ensures outcome.Reported?
    decreases Left(c.limits.decisions, usage.decisions), 2
  {
    match LoopVerdict(c.profile, w.action)
    case RequireApproval => WAITS
    case Deny => Destination(c, w, watches, usage)
    case Allow =>
      if w.action.kind == Finish then
        if c.profile == Review then Reported(ReviewComplete, None)
        else if Passes(c.stages, w.final, true) then Reported(Succeeded, None)
        else Destination(c, w, watches, usage)
      else if w.executes && IsMutation(w.action.kind) then AfterLanding(c, w, watches, usage)
      else Destination(c, w, watches, usage)
  }

  /** The same once a mutation has been executed. */
  ghost function AfterLanding(c: Config, w: World, watches: bool, usage: Usage): (outcome: Outcome)
    requires w.Steady?
    ensures outcome.Reported?
    decreases Left(c.limits.decisions, usage.decisions), 1
  {
    if usage.mutations >= c.limits.mutations then Halted(BudgetExhausted)
    else if !Passes(c.stages, w.current, false) && watches && w.stuck then Halted(NoProgress)
    else Destination(c, w, watches, usage.(mutations := usage.mutations + 1))
  }

  /** The same from where an invocation enters run. */
  ghost function From(c: Config, w: World, watches: bool, start: RunState, usage: Usage): Outcome
    requires w.Steady?
  {
    if Cancelled(w, usage) then Halted(UserCancelled)
    else if start in {Created, Preflight} && c.profile != Review && Passes(c.stages, w.baseline, true) then
      Halted(NoReproduction)
    else Destination(c, w, watches, usage)
  }

  /** The same when an action has been approved; nobody asks the progress detector here. */
  ghost function AfterApproval(c: Config, w: World, watches: bool, approved: Action, usage: Usage): Outcome
    requires w.Steady?
  {
    if !w.executes then Failed
    else if !IsMutation(approved.kind) then From(c, w, watches, Executing, usage)
    else if usage.mutations >= c.limits.mutations then Halted(BudgetExhausted)
    else From(c, w, watches, Deciding, usage.(mutations := usage.mutations + 1))
  }

  /** The same when an action has been rejected. */
  ghost function AfterRejecting(terminate: bool, c: Config, w: World, watches: bool, usage: Usage): Outcome
    requires w.Steady?
  {
    if terminate then Halted(ApprovalRejected) else From(c, w, watches, Deciding, usage)
  }

  /** The provider is asked, and the budget admits what it decides. */
  ghost predicate Admitted(c: Config, w: World, usage: Usage) {
    && w.Steady? && !Cancelled(w, usage) && !Expired(w, usage) && Decided(w.action).Some?
    && usage.decisions < c.limits.decisions
  }

  /** The baseline validation, where there is one, does not end the run. */
  ghost predicate Reproduced(c: Config, w: World, start: RunState)
    requires w.Steady?
  {
    start in {Created, Preflight} && c.profile != Review ==> !Passes(c.stages, w.baseline, true)
  }

  ghost predicate Finishes(c: Config, w: World)
    requires w.Steady?
  {
    w.action.kind == Finish && LoopVerdict(c.profile, w.action) == Allow
  }

  lemma {:induction false} OnceDeciding(c: Config, w: World, watches: bool, usage: Usage)
    requires w.Steady?
    ensures var outcome := Destination(c, w, watches, usage);
            && (outcome == Reported(Succeeded, None) <==>
                  Admitted(c, w, usage) && Finishes(c, w) && c.profile != Review && Passes(c.stages, w.final, true))
            && (outcome == Reported(ReviewComplete, None) <==>
                  Admitted(c, w, usage) && Finishes(c, w) && c.profile == Review)
            && (outcome == WAITS <==>
                  Admitted(c, w, usage) && LoopVerdict(c.profile, w.action) == RequireApproval)
    decreases Left(c.limits.decisions, usage.decisions)
  {
    hide Evaluate;
    if usage.decisions < c.limits.decisions {
      var admitted := Usage(usage.decisions + 1, usage.mutations, 0);
      var landed := admitted.(mutations := usage.mutations + 1);
      OnceDeciding(c, w, watches, admitted);
      OnceDeciding(c, w, watches, landed);
      assert AfterLanding(c, w, watches, admitted) == Destination(c, w, watches, landed)
          || AfterLanding(c, w, watches, admitted) in {Halted(BudgetExhausted), Halted(NoProgress)};
    }
  }

  /** In a steady world a run that is left alone succeeds exactly if it reproduces the failure, the provider is
      asked in time and finishes, the budget admits that, and every required stage, of which there is one, then
      exits with zero. It completes its review, or begins to wait, exactly under conditions of the same kind. */
  lemma SucceedsExactly(c: Config, w: World, watches: bool, start: RunState, usage: Usage)
    requires w.Steady?
    ensures var outcome := From(c, w, watches, start, usage);
            && (outcome == Reported(Succeeded, None) <==>
                  && Reproduced(c, w, start) && Admitted(c, w, usage) && Finishes(c, w) && c.profile != Review
                  && SomeRequired(c.stages)
                  && forall i | 0 <= i < |c.stages| && c.stages[i].required :: w.final(i).0 == Observation("EXIT", Some(0)))
            && (outcome == Reported(ReviewComplete, None) <==>
                  Admitted(c, w, usage) && Finishes(c, w) && c.profile == Review)
            && (outcome == WAITS <==>
                  Reproduced(c, w, start) && Admitted(c, w, usage) && LoopVerdict(c.profile, w.action) == RequireApproval)
  {
    hide Evaluate;
    OnceDeciding(c, w, watches, usage);
    forall i: nat ensures ExitsWithZero(w.final, i) <==> w.final(i).0 == Observation("EXIT", Some(0)) {}
  }
}
