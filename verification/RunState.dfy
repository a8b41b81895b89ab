/** The states of a run and the transitions between them (internal/domain/state.go). */
module RunState {

  datatype RunState =
    | Created | Preflight | BaselineValidating | Deciding | AwaitingApproval | Executing
    | Validating | FinalValidating | Succeeded | ReviewComplete | Stopped

  /** allowedTransitions; Transition returns an error exactly when this is false. */
  predicate Allowed(from: RunState, to: RunState) {
    match from
    case Created => to in {Preflight, Stopped}
    case Preflight => to in {BaselineValidating, Deciding, AwaitingApproval, Stopped}
    case BaselineValidating => to in {Deciding, Stopped}
    case Deciding => to in {AwaitingApproval, Executing, ReviewComplete, Stopped}
    case AwaitingApproval => to in {Preflight, Executing, Deciding, Stopped}
    case Executing => to in {Deciding, Validating, Stopped}
    case Validating => to in {Deciding, FinalValidating, Stopped}
    case FinalValidating => to in {Succeeded, Deciding, Stopped}
    case Succeeded => false
    case ReviewComplete => false
    case Stopped => false
  }

  predicate Terminal(s: RunState) { s in {Succeeded, ReviewComplete, Stopped} }

  /** A sequence of stored states in which each follows the one before by an allowed transition. */
  predicate IsPath(states: seq<RunState>) {
    forall i | 0 <= i < |states| - 1 :: Allowed(states[i], states[i + 1])
  }

  /** A path that reaches a terminal state ends there. */
  lemma TerminalEndsPath(states: seq<RunState>, i: nat)
    requires IsPath(states) && i < |states| && Terminal(states[i])
    ensures i == |states| - 1
  {
    assert i < |states| - 1 ==> Allowed(states[i], states[i + 1]);
  }

  /** A path to success goes through final validation, and before that through validation. */
  lemma {:induction false} SuccessComesFromFinalValidation(states: seq<RunState>, i: nat)
    requires IsPath(states) && 0 < i < |states| && states[i] == Succeeded
    requires states[0] in {Created, Preflight}
    ensures i >= 2 && states[i - 1] == FinalValidating && states[i - 2] == Validating
  {
    assert Allowed(states[i - 1], states[i]);
    assert Allowed(states[i - 2], states[i - 1]);
  }
}
