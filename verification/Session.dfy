/** The single-flight session of internal/app/composition_local.go: invocations, cancellation through the
    parent context, and cancelAndWait, as the atomic steps of any number of threads. */
module Session {

  import opened Wrappers

  type Thread = nat
  type Channel = nat

  datatype Pc =
    | Idle
    | Inside(done: Channel)       // running the body of an invocation
    | Returned(done: Channel)     // the body has returned, the session is still marked active
    | WaitingFor(active: Channel) // cancelAndWait, blocked on the channel of the active invocation
    | Quiet                       // cancelAndWait has returned nil
    | GaveUp                      // cancelAndWait has returned its own context's error

  /** The fields of agentLoopSession, and the channels that have been made and closed. */
  datatype State = State(cancelled: bool, active: Option<Channel>, made: set<Channel>, closed: set<Channel>,
                         pcs: map<Thread, Pc>) {
    function PcOf(t: Thread): Pc { if t in pcs then pcs[t] else Idle }
  }

  datatype Step =
    | Enter(t: Thread, done: Channel) // invoke up to its first unlock, when it is admitted
    | Refuse(t: Thread)               // invoke, when the session is cancelled or busy
    | Return(t: Thread)               // the body returns
    | Leave(t: Thread)                // the last critical section of invoke
    | ParentCancels
    | Cancel(t: Thread)               // the critical section of cancelAndWait
    | Wake(t: Thread)                 // the active channel is closed
    | GiveUp(t: Thread)               // the waiter's context ends

  predicate Enabled(s: State, step: Step) {
    match step
    case Enter(t, done) => s.PcOf(t).Idle? && !s.cancelled && s.active.None? && done !in s.made
    case Refuse(t) => s.PcOf(t).Idle? && (s.cancelled || s.active.Some?)
    case Return(t) => s.PcOf(t).Inside?
    case Leave(t) => s.PcOf(t).Returned?
    case ParentCancels => true
    case Cancel(t) => s.PcOf(t).Idle?
    case Wake(t) => s.PcOf(t).WaitingFor? && s.PcOf(t).active in s.closed
    case GiveUp(t) => s.PcOf(t).WaitingFor?
  }

  function After(s: State, step: Step): State
    requires Enabled(s, step)
  {
    match step
    case Enter(t, done) => s.(active := Some(done), made := s.made + {done}, pcs := s.pcs[t := Inside(done)])
    case Refuse(t) => s
    case Return(t) => s.(pcs := s.pcs[t := Returned(s.PcOf(t).done)])
    case Leave(t) =>
      var left := s.(pcs := s.pcs[t := Idle]);
      if s.active == Some(s.PcOf(t).done) then left.(active := None, closed := s.closed + {s.PcOf(t).done}) else left
    case ParentCancels => s.(cancelled := true)
    case Cancel(t) =>
      s.(cancelled := true,
         pcs := s.pcs[t := match s.active case None => Quiet case Some(active) => WaitingFor(active)])
    case Wake(t) => s.(pcs := s.pcs[t := Quiet])
    case GiveUp(t) => s.(pcs := s.pcs[t := GaveUp])
  }

  const START := State(false, None, {}, {}, map[])

  ghost predicate Follows(s: State, s': State) {
    exists step: Step :: Enabled(s, step) && s' == After(s, step)
  }

  ghost predicate IsRun(states: seq<State>) {
    && states != [] && states[0] == START
    && forall i | 0 <= i < |states| - 1 :: Follows(states[i], states[i + 1])
  }

  // ---------------------------------------------------------------- the invariant

  predicate Running(pc: Pc) { pc.Inside? || pc.Returned? }

  predicate ThreadOk(s: State, t: Thread)
    requires t in s.pcs
  {
    match s.pcs[t]
    case Idle => true
    case Inside(done) => s.active == Some(done)
    case Returned(done) => s.active == Some(done)
    case WaitingFor(active) => s.cancelled && active in s.made && (s.active == Some(active) || (active in s.closed && s.active.None?))
    case Quiet => s.cancelled && s.active.None?
    case GaveUp => s.cancelled
  }

  /** The active channel is open and at most one thread runs. */
  ghost predicate Inv(s: State) {
    && (forall t | t in s.pcs :: ThreadOk(s, t))
    && (forall t, u | t in s.pcs && u in s.pcs && Running(s.pcs[t]) && Running(s.pcs[u]) :: t == u)
    && s.closed <= s.made
    && (s.active.Some? ==> s.active.value in s.made && s.active.value !in s.closed)
  }

  /** What a thread that does not take the step knows after it. */
  lemma OthersKeepOk(s: State, step: Step, t: Thread)
    requires Inv(s) && Enabled(s, step) && t in s.pcs
    requires step.ParentCancels? || t != step.t
    ensures ThreadOk(After(s, step), t)
  {
    assert ThreadOk(s, t);
    if step.Leave? {
      assert Running(s.pcs[step.t]) && !Running(s.pcs[t]);
      assert ThreadOk(s, step.t);
    }
  }

  lemma StepKeepsInv(s: State, step: Step)
    requires Inv(s) && Enabled(s, step)
    ensures Inv(After(s, step))
  {
    var s' := After(s, step);
    if !step.ParentCancels? && step.t in s.pcs { assert ThreadOk(s, step.t); }
    forall t | t in s'.pcs ensures ThreadOk(s', t) {
      if step.ParentCancels? || t != step.t { OthersKeepOk(s, step, t); }
    }
    forall t, u | t in s'.pcs && u in s'.pcs && Running(s'.pcs[t]) && Running(s'.pcs[u]) ensures t == u {
      if t in s.pcs { assert ThreadOk(s, t); }
      if u in s.pcs { assert ThreadOk(s, u); }
    }
  }

  lemma OthersStay(s: State, step: Step, t: Thread)
    requires Enabled(s, step) && (step.ParentCancels? || t != step.t)
    ensures After(s, step).PcOf(t) == s.PcOf(t)
  {
  }

  /** The active invocation is some thread's. */
  ghost predicate ActiveRuns(s: State) {
    s.active.Some? ==> exists t | t in s.pcs :: Running(s.pcs[t])
  }

  lemma StepKeepsActiveRuns(s: State, step: Step)
    requires Inv(s) && ActiveRuns(s) && Enabled(s, step)
    ensures ActiveRuns(After(s, step))
  {
    var s' := After(s, step);
    if s'.active.Some? {
      if step.Enter? {
        assert Running(s'.pcs[step.t]);
      } else {
        var t :| t in s.pcs && Running(s.pcs[t]);
        assert ThreadOk(s, t);
        if !step.ParentCancels? && step.t == t { assert Running(s'.pcs[t]); } else { assert Running(s'.pcs[t]); }
      }
    }
  }

  lemma {:induction false} RunKeepsInv(states: seq<State>, i: nat)
    requires IsRun(states) && i < |states|
    ensures Inv(states[i])
  {
    if i > 0 {
      RunKeepsInv(states, i - 1);
      assert Follows(states[i - 1], states[i]);
      var step: Step :| Enabled(states[i - 1], step) && states[i] == After(states[i - 1], step);
      StepKeepsInv(states[i - 1], step);
    }
  }

  // ---------------------------------------------------------------- what every run guarantees

  /** At most one invocation is inside a session at any moment. */
  lemma SingleFlight(states: seq<State>, i: nat, t: Thread, u: Thread)
    requires IsRun(states) && i < |states| && Running(states[i].PcOf(t)) && Running(states[i].PcOf(u))
    ensures t == u
  {
    RunKeepsInv(states, i);
  }

  lemma {:induction false} CancelledStays(states: seq<State>, i: nat, j: nat)
    requires IsRun(states) && i <= j < |states| && states[i].cancelled
    ensures states[j].cancelled
    ensures states[i].active.None? ==> states[j].active.None?
    decreases j
  {
    if i < j {
      CancelledStays(states, i, j - 1);
      assert Follows(states[j - 1], states[j]);
    }
  }

  /** Once cancelAndWait has returned nil, no invocation is running, and none ever runs again. */
  lemma Quiescence(states: seq<State>, i: nat, j: nat, waiter: Thread, t: Thread)
    requires IsRun(states) && i <= j < |states| && states[i].PcOf(waiter).Quiet?
    ensures !Running(states[j].PcOf(t))
  {
    RunKeepsInv(states, i);
    assert ThreadOk(states[i], waiter);
    CancelledStays(states, i, j);
    RunKeepsInv(states, j);
    if t in states[j].pcs {
      assert ThreadOk(states[j], t);
    }
  }

  /** Even when cancelAndWait gives up, or only the parent is cancelled, no invocation starts any more. */
  lemma NothingStartsAfterCancel(states: seq<State>, i: nat, j: nat, t: Thread, done: Channel)
    requires IsRun(states) && i <= j < |states| && states[i].cancelled
    ensures !Enabled(states[j], Enter(t, done))
  {
    CancelledStays(states, i, j);
  }

  /** A waiter is never forgotten: it can wake up, or the invocation it waits for is still running and
      will close the channel when it leaves. */
  lemma WaiterIsServed(states: seq<State>, i: nat, waiter: Thread)
    requires IsRun(states) && i < |states| && states[i].PcOf(waiter).WaitingFor?
    ensures Enabled(states[i], Wake(waiter)) || states[i].active == Some(states[i].PcOf(waiter).active)
  {
    RunKeepsInv(states, i);
    assert ThreadOk(states[i], waiter);
  }

  /** A cancellation, of the parent context or by cancelAndWait, takes effect with its step: from then on no
      invocation is admitted, and every attempt is refused. */
  lemma CancellationTakesEffect(states: seq<State>, i: nat, j: nat, step: Step, t: Thread, done: Channel)
    requires IsRun(states) && i < j < |states| && Enabled(states[i], step) && states[i + 1] == After(states[i], step)
    requires step.ParentCancels? || step.Cancel?
    ensures !Enabled(states[j], Enter(t, done))
    ensures states[j].PcOf(t).Idle? ==> Enabled(states[j], Refuse(t)) && After(states[j], Refuse(t)) == states[j]
  {
    CancelledStays(states, i + 1, j);
  }

  /** The steps that let the waiter return: the active invocation, if there is one, comes to its end, and the
      waiter wakes up. */
  function Homeward(s: State, waiter: Thread, active: Thread): seq<Step> {
    if Enabled(s, Wake(waiter)) then [Wake(waiter)]
    else if s.PcOf(active).Inside? then [Return(active), Leave(active), Wake(waiter)]
    else [Leave(active), Wake(waiter)]
  }

  predicate CanRun(s: State, steps: seq<Step>)
    decreases |steps|
  {
    steps != [] ==> Enabled(s, steps[0]) && CanRun(After(s, steps[0]), steps[1..])
  }

  function Run(s: State, steps: seq<Step>): State
    requires CanRun(s, steps)
    decreases |steps|
  {
    if steps == [] then s else Run(After(s, steps[0]), steps[1..])
  }

  lemma FirstStep(s: State, step: Step, rest: seq<Step>)
    requires Enabled(s, step) && CanRun(After(s, step), rest)
    ensures CanRun(s, [step] + rest) && Run(s, [step] + rest) == Run(After(s, step), rest)
  {
    assert ([step] + rest)[1..] == rest;
  }

  lemma LastStep(s: State, step: Step)
    requires Enabled(s, step)
    ensures CanRun(s, [step]) && Run(s, [step]) == After(s, step)
  {
    FirstStep(s, step, []);
    assert [step] + [] == [step];
  }

  /** The invocation that has returned leaves, and the waiter wakes up. */
  lemma LeaveAndWake(s: State, waiter: Thread, active: Thread)
    requires s.PcOf(active).Returned? && s.active == Some(s.PcOf(active).done) && waiter != active
    requires s.PcOf(waiter) == WaitingFor(s.PcOf(active).done)
    ensures CanRun(s, [Leave(active), Wake(waiter)])
    ensures Run(s, [Leave(active), Wake(waiter)]).PcOf(waiter).Quiet?
  {
    var left := After(s, Leave(active));
    LastStep(left, Wake(waiter));
    FirstStep(s, Leave(active), [Wake(waiter)]);
    assert [Leave(active)] + [Wake(waiter)] == [Leave(active), Wake(waiter)];
  }

  /** A waiter can always return: with nil, once the invocation it waits for has come to its end, which nobody else
      can prevent; or with an error, whenever its own context ends. */
  lemma WaiterCanReturn(states: seq<State>, i: nat, waiter: Thread)
    requires IsRun(states) && i < |states| && states[i].PcOf(waiter).WaitingFor?
    ensures Enabled(states[i], GiveUp(waiter)) && After(states[i], GiveUp(waiter)).PcOf(waiter).GaveUp?
    ensures exists active ::
              && CanRun(states[i], Homeward(states[i], waiter, active))
              && Run(states[i], Homeward(states[i], waiter, active)).PcOf(waiter).Quiet?
  {
    var s := states[i];
    RunKeepsInv(states, i);
    RunKeepsActiveRuns(states, i);
    assert ThreadOk(s, waiter);
    if Enabled(s, Wake(waiter)) {
      LastStep(s, Wake(waiter));
      assert Homeward(s, waiter, waiter) == [Wake(waiter)];
    } else {
      var t :| t in s.pcs && Running(s.pcs[t]);
      assert ThreadOk(s, t);
      if s.pcs[t].Inside? {
        LeaveAndWake(After(s, Return(t)), waiter, t);
        FirstStep(s, Return(t), [Leave(t), Wake(waiter)]);
        assert [Return(t)] + [Leave(t), Wake(waiter)] == Homeward(s, waiter, t);
      } else {
        LeaveAndWake(s, waiter, t);
        assert Homeward(s, waiter, t) == [Leave(t), Wake(waiter)];
      }
    }
  }

  lemma {:induction false} RunKeepsActiveRuns(states: seq<State>, i: nat)
    requires IsRun(states) && i < |states|
    ensures ActiveRuns(states[i])
  {
    if i > 0 {
      RunKeepsActiveRuns(states, i - 1);
      RunKeepsInv(states, i - 1);
      assert Follows(states[i - 1], states[i]);
      var step: Step :| Enabled(states[i - 1], step) && states[i] == After(states[i - 1], step);
      StepKeepsActiveRuns(states[i - 1], step);
    }
  }
}
