/** The mark that CancelRun leaves on a run (internal/app/service.go, lines 355 to 385): at most one cancellation
    is under way, and what becomes of the mark decides whether there can be another. */
module CancelMark {

  import opened RunState
  import opened Wrappers
  import opened Cancellation
  import S = Session
  import O = Ownership
  import L = RepoLocks

  /** A cancellation that has marked the run and not returned. */
  predicate UnderWay(s: State, t: S.Thread) {
    t in s.calls && !s.calls[t].Nil? && !s.calls[t].Error?
  }

  /** One at most is under way, and while it is, the run is marked or over. */
  ghost predicate Single(run: L.RunId, s: State) {
    && (forall t, u | UnderWay(s, t) && UnderWay(s, u) :: t == u)
    && (forall t | UnderWay(s, t) :: s.stopping || Over(run, s))
  }

  /** The run is marked, or over, and nobody is under way to take the mark away. */
  ghost predicate MarkedForGood(run: L.RunId, s: State) {
    (s.stopping || Over(run, s)) && forall t :: !UnderWay(s, t)
  }

  /** What a step does to the calls and to the mark. */
  lemma MarkStep(run: L.RunId, s: State, step: Step)
    requires Enabled(run, s, step)
    ensures var s' := After(run, s, step);
            && (forall t :: UnderWay(s', t) ==> UnderWay(s, t) || (step == Announce(t) && s'.stopping))
            && (s.stopping && !s'.stopping ==> step.GiveUp? || step.Return? || step.Release?)
            && (step.GiveUp? || step.Return? ==> UnderWay(s, step.t) && !UnderWay(s', step.t))
            && (step.Return? && s.stopping && !s'.stopping ==> Over(run, s))
            && (step.Release? ==> Over(run, s))
            && (step.Announce? ==> !s.stopping && !Over(run, s))
  {
    hide S.Enabled;
    hide S.After;
    hide O.Enabled;
    hide O.After;
  }

  lemma OverStays(run: L.RunId, s: State, step: Step)
    requires Inv(run, s) && Enabled(run, s, step) && Over(run, s)
    ensures Over(run, After(run, s, step))
  {
    hide Inv;
    hide After;
    SystemKeeps(run, s, step);
  }

  lemma StepKeepsSingle(run: L.RunId, s: State, step: Step)
    requires Inv(run, s) && Single(run, s) && Enabled(run, s, step)
    ensures Single(run, After(run, s, step))
  {
    hide Inv;
    hide After;
    hide Enabled;
    hide Over;
    hide UnderWay;
    MarkStep(run, s, step);
    if Over(run, s) { OverStays(run, s, step); }
  }

  lemma {:induction false} RunKeepsSingle(run: L.RunId, s: State, steps: seq<Step>)
    requires Inv(run, s) && Single(run, s) && CanRun(run, s, steps)
    ensures Single(run, Run(run, s, steps)) && Inv(run, Run(run, s, steps))
    decreases |steps|
  {
    hide Inv;
    hide Single;
    hide After;
    hide Enabled;
    if steps != [] {
      StepKeepsInv(run, s, steps[0]);
      StepKeepsSingle(run, s, steps[0]);
      RunKeepsSingle(run, After(run, s, steps[0]), steps[1..]);
    }
  }

  lemma Reached(run: L.RunId, before: seq<Step>)
    requires CanRun(run, START, before)
    ensures Single(run, Run(run, START, before)) && Inv(run, Run(run, START, before))
  {
    StartInv(run);
    RunKeepsSingle(run, START, before);
  }

  /** At most one cancellation of a run is under way at any moment. */
  lemma OneCancellation(run: L.RunId, steps: seq<Step>, t: S.Thread, u: S.Thread)
    requires CanRun(run, START, steps) && UnderWay(Run(run, START, steps), t) && UnderWay(Run(run, START, steps), u)
    ensures t == u
  {
    Reached(run, steps);
  }

  // ---------------------------------------------------------------- what a cancellation does on its way

  lemma PartKeepsCancelled(s: S.State, step: S.Step)
    requires S.Enabled(s, step) && s.cancelled
    ensures S.After(s, step).cancelled
  {
  }

  lemma StepKeepsCancelled(run: L.RunId, s: State, step: Step)
    requires Enabled(run, s, step) && s.session.cancelled
    ensures After(run, s, step).session.cancelled
  {
    hide S.Enabled;
    hide S.After;
    hide O.Enabled;
    hide O.After;
    match step
    case OfSession(part) => PartKeepsCancelled(s.session, part);
    case Interrupt(t) => PartKeepsCancelled(s.session, S.Cancel(t));
    case Wake(t) => PartKeepsCancelled(s.session, S.Wake(t));
    case GiveUp(t) => PartKeepsCancelled(s.session, S.GiveUp(t));
    case _ =>
  }

  lemma {:induction false} RunKeepsCancelled(run: L.RunId, s: State, steps: seq<Step>)
    requires CanRun(run, s, steps) && s.session.cancelled
    ensures Run(run, s, steps).session.cancelled
    decreases |steps|
  {
    hide After;
    hide Enabled;
    if steps != [] {
      StepKeepsCancelled(run, s, steps[0]);
      RunKeepsCancelled(run, After(run, s, steps[0]), steps[1..]);
    }
  }

  /** From the announcement of a cancellation on, no invocation is admitted, if the context of the run has been
      made by then. */
  lemma NothingIsAdmitted(run: L.RunId, s: State, steps: seq<Step>, t: S.Thread, u: S.Thread, done: S.Channel)
    requires Enabled(run, s, Announce(t)) && s.started && CanRun(run, After(run, s, Announce(t)), steps)
    ensures !Enabled(run, Run(run, After(run, s, Announce(t)), steps), OfSession(S.Enter(u, done)))
  {
    RunKeepsCancelled(run, After(run, s, Announce(t)), steps);
  }

  /** A nil return takes the mark and the inputs away and cancels the context. */
  lemma NilReleases(run: L.RunId, before: seq<Step>, t: S.Thread)
    requires CanRun(run, START, before) && Enabled(run, Run(run, START, before), Return(t))
    ensures var s := After(run, Run(run, START, before), Return(t));
            s.At(t, Nil) && Over(run, s) && !s.stopping && !s.inputs.Kept? && (s.started ==> s.session.cancelled)
  {
    Reached(run, before);
    assert CallOk(run, Run(run, START, before), t);
  }

  // ---------------------------------------------------------------- whether there can be another cancellation

  /** When a cancellation gives up waiting, the mark is gone: any other thread can cancel the run, unless it is
      over by then. */
  lemma AnotherAfterGivingUp(run: L.RunId, before: seq<Step>, t: S.Thread, u: S.Thread)
    requires CanRun(run, START, before) && Enabled(run, Run(run, START, before), GiveUp(t))
    ensures var s := After(run, Run(run, START, before), GiveUp(t));
            && s.At(t, Error) && (forall v :: !UnderWay(s, v))
            && (Enabled(run, s, Announce(u)) <==> u !in s.calls && s.session.PcOf(u).Idle? && !Over(run, s))
  {
    var s := Run(run, START, before);
    Reached(run, before);
    MarkStep(run, s, GiveUp(t));
    assert CallOk(run, s, t);
    assert After(run, s, GiveUp(t)).system == s.system;
  }

  lemma StepKeepsMark(run: L.RunId, s: State, step: Step)
    requires Inv(run, s) && MarkedForGood(run, s) && Enabled(run, s, step)
    ensures MarkedForGood(run, After(run, s, step))
  {
    MarkStep(run, s, step);
    if Over(run, s) { OverStays(run, s, step); }
    hide Inv;
    hide After;
    hide Enabled;
    hide Over;
  }

  lemma {:induction false} RunKeepsMark(run: L.RunId, s: State, steps: seq<Step>)
    requires Inv(run, s) && MarkedForGood(run, s) && CanRun(run, s, steps)
    ensures MarkedForGood(run, Run(run, s, steps))
    decreases |steps|
  {
    hide Inv;
    hide MarkedForGood;
    hide After;
    hide Enabled;
    if steps != [] {
      StepKeepsInv(run, s, steps[0]);
      StepKeepsMark(run, s, steps[0]);
      RunKeepsMark(run, After(run, s, steps[0]), steps[1..]);
    }
  }

  /** When a cancellation fails because the store does, the mark stays, and no later cancellation of the run is
      ever admitted, over or not. */
  lemma NoneAfterFailing(run: L.RunId, before: seq<Step>, t: S.Thread, steps: seq<Step>, u: S.Thread)
    requires CanRun(run, START, before) && Enabled(run, Run(run, START, before), Fail(t))
    requires CanRun(run, After(run, Run(run, START, before), Fail(t)), steps)
    ensures !Enabled(run, Run(run, After(run, Run(run, START, before), Fail(t)), steps), Announce(u))
  {
    var s := Run(run, START, before);
    Reached(run, before);
    StepKeepsInv(run, s, Fail(t));
    FailureMarks(run, s, t);
    RunKeepsMark(run, After(run, s, Fail(t)), steps);
  }

  lemma FailureMarks(run: L.RunId, s: State, t: S.Thread)
    requires Single(run, s) && Enabled(run, s, Fail(t))
    ensures MarkedForGood(run, After(run, s, Fail(t)))
  {
    assert UnderWay(s, t);
    MarkStep(run, s, Fail(t));
  }

  /** Such a failure leaves an active run behind that cannot be cancelled: it happens to every stored run whose
      context has not been made yet. */
  lemma FailingHappens(run: L.RunId, key: L.Key) returns (steps: seq<Step>, s: State)
    requires run != ""
    ensures Reaches(run, START, steps, s) && !Over(run, s) && MarkedForGood(run, s)
  {
    var before, announced := CancelledTooEarly(run, key);
    steps, s := FailsToStop(run, before, announced);
  }

  lemma FailsToStop(run: L.RunId, before: seq<Step>, announced: State) returns (steps: seq<Step>, s: State)
    requires Reaches(run, START, before, announced) && announced.At(1, Announced) && !announced.listed && !Over(run, announced)
    ensures Reaches(run, START, steps, s) && !Over(run, s) && MarkedForGood(run, s)
  {
    Reached(run, before);
    StepKeepsInv(run, announced, Find(1));
    StepKeepsSingle(run, announced, Find(1));
    var mid;
    hide Reaches;
    steps, mid := Then(run, START, before, announced, Find(1));
    FailureMarks(run, mid, 1);
    steps, s := Then(run, START, steps, mid, Fail(1));
  }
}
