/** CancelRun of internal/app/service.go: the steps of any number of cancellations of one run, beside the steps
    of its session (module Session), of the store, the leases and the other threads of the service (module
    Ownership), and of the controller that makes and deletes the session. */
module Cancellation {

  import opened RunState
  import opened Wrappers
  import S = Session
  import O = Ownership
  import L = RepoLocks

  /** Where a call of CancelRun is. */
  datatype Phase =
    | Announced           // it has marked the run as stopping and called the cancel function, if there is one
    | Found               // it has found the session
    | Waiting             // in cancelAndWait
    | Waited              // cancelAndWait has returned nil
    | Stopping            // in stopIfActive, about to read the stored run
    | Seen(task: O.Thread) // it has read the stored run
    | Stopped             // stopIfActive has returned nil
    | Nil                 // CancelRun has returned nil
    | Error               // CancelRun has returned an error

  /** The inputs of the run, which its start takes before it sets up the session: in the service's map, taken,
      or deleted before they were taken. */
  datatype Inputs = Kept | Taken | Deleted

  /** "started": the context of the run exists, with its cancel function; "made": the session has been made;
      "listed": it is in the controller's map; "stopping": the run is marked. */
  datatype State = State(session: S.State, system: O.System, inputs: Inputs, started: bool, made: bool, listed: bool,
                         stopping: bool, calls: map<S.Thread, Phase>) {
    predicate At(t: S.Thread, phase: Phase) { t in calls && calls[t] == phase }
    function Runs(): map<L.RunId, RunState> { system.runs }
  }

  const START := State(S.START, O.START, Kept, false, false, false, false, map[])

  datatype Step =
    | OfSession(part: S.Step)     // an invocation, by a thread that is not cancelling
    | OfService(store: O.Step)    // any step of the service, by a thread that is not cancelling
    | StartRun                    // the context of the run is made
    | Take                        // the start of the run reads its inputs
    | MakeSession                 // the controller has built the session and enters it in its map
    | DeleteSession(t: S.Thread)  // by a thread whose invocation, or whose cancelAndWait, has ended
    | Announce(t: S.Thread)
    | Refuse(t: S.Thread)         // the run is over or already being stopped
    | Find(t: S.Thread)           // the controller looks the session up
    | Interrupt(t: S.Thread)      // the critical section of cancelAndWait
    | Wake(t: S.Thread)
    | GiveUp(t: S.Thread)
    | Delete(t: S.Thread)         // the controller deletes the session
    | See(t: S.Thread, p: O.ProcessId, task: O.Thread) // GetRun
    | Stop(t: S.Thread)           // UpdateRunIfState
    | Fail(t: S.Thread)           // a store error
    | Return(t: S.Thread)         // releaseIfTerminal
    | Release                     // releaseIfTerminal, by a thread that is not cancelling

  /** The tasks in which cancellations hold what they have read. */
  predicate Busy(s: State, task: O.Thread) { exists t | t in s.calls :: s.calls[t] == Seen(task) }

  function TaskOf(step: O.Step): Option<O.Thread> {
    if step.Launch? || step.Crash? then None else Some(step.t)
  }

  predicate Enabled(run: L.RunId, s: State, step: Step) {
    match step
    case OfSession(step) =>
      && S.Enabled(s.session, step)
      && if step.ParentCancels? then s.started else s.made && step.t !in s.calls
    case OfService(step) =>
      O.Enabled(s.system, step) && (TaskOf(step).Some? ==> !Busy(s, TaskOf(step).value))
    case StartRun => !s.started
    case Take => s.started && s.inputs.Kept?
    case MakeSession => s.inputs.Taken? && s.started && !s.made
    case DeleteSession(t) => s.listed && t !in s.calls && t in s.session.pcs && (s.session.pcs[t].Idle? || s.session.pcs[t].Quiet?)
    case Announce(t) =>
      && t !in s.calls && s.session.PcOf(t).Idle? && !s.stopping
      && run in s.Runs() && !Terminal(s.Runs()[run])
    case Refuse(t) => t !in s.calls && (s.stopping || Over(run, s))
    case Find(t) => s.At(t, Announced)
    case Interrupt(t) => s.At(t, Found) && S.Enabled(s.session, S.Cancel(t))
    case Wake(t) => s.At(t, Waiting) && S.Enabled(s.session, S.Wake(t))
    case GiveUp(t) => s.At(t, Waiting) && S.Enabled(s.session, S.GiveUp(t))
    case Delete(t) => s.At(t, Waited)
    case See(t, p, task) => s.At(t, Stopping) && O.Enabled(s.system, O.Read(task, p, run)) && !Busy(s, task)
    case Stop(t) => CanStop(run, s, t)
    case Fail(t) => t in s.calls && (s.calls[t].Stopping? || s.calls[t].Seen? || s.calls[t].Stopped?)
    case Return(t) => s.At(t, Phase.Stopped)
    case Release => Over(run, s)
  }

  /** The stored run is over. */
  predicate Over(run: L.RunId, s: State) { run in s.Runs() && Terminal(s.Runs()[run]) }

  /** releaseIfTerminal, beside the lease: the context is cancelled if it has been made, the inputs are deleted
      and the run is no longer marked. */
  function Released(s: State): State {
    s.(stopping := false, inputs := if s.inputs.Kept? then Deleted else s.inputs,
       session := s.session.(cancelled := s.session.cancelled || s.started))
  }

  function Moved(s: State, t: S.Thread, phase: Phase): State { s.(calls := s.calls[t := phase]) }

  predicate CanStop(run: L.RunId, s: State, t: S.Thread) {
    && t in s.calls && s.calls[t].Seen? && O.Enabled(s.system, O.Update(s.calls[t].task, RunState.Stopped))
    && s.system.tasks[s.calls[t].task].pc.run == run
  }

  /** UpdateRunIfState: when the run has moved on, it is read again. */
  function AfterStop(run: L.RunId, s: State, t: S.Thread): State
    requires CanStop(run, s, t)
  {
    var task := s.calls[t].task;
    if s.Runs()[run] == s.system.tasks[task].pc.state then
      Moved(s.(system := O.After(s.system, O.Update(task, RunState.Stopped))), t, Phase.Stopped)
    else Moved(s.(system := O.After(s.system, O.Forget(task))), t, Stopping)
  }

  function After(run: L.RunId, s: State, step: Step): State
    requires Enabled(run, s, step)
  {
    match step
    case OfSession(step) => s.(session := S.After(s.session, step))
    case OfService(step) => s.(system := O.After(s.system, step))
    case StartRun => s.(started := true)
    case Take => s.(inputs := Taken)
    case MakeSession => s.(made := true, listed := true)
    case DeleteSession(_) => s.(listed := false, session := s.session.(cancelled := true))
    case Announce(t) =>
      Moved(s.(stopping := true, session := s.session.(cancelled := s.session.cancelled || s.started)), t, Announced)
    case Refuse(t) => Moved(s, t, Error)
    case Find(t) => Moved(s, t, if s.listed then Found else Stopping)
    case Interrupt(t) =>
      Moved(s.(session := S.After(s.session, S.Cancel(t))), t, if s.session.active.None? then Waited else Waiting)
    case Wake(t) => Moved(s.(session := S.After(s.session, S.Wake(t))), t, Waited)
    case GiveUp(t) => Moved(s.(session := S.After(s.session, S.GiveUp(t)), stopping := false), t, Error)
    case Delete(t) => Moved(s.(listed := false, session := s.session.(cancelled := true)), t, Stopping)
    case See(t, p, task) =>
      if Terminal(s.Runs()[run]) then Moved(s, t, Phase.Stopped)
      else Moved(s.(system := O.After(s.system, O.Read(task, p, run))), t, Seen(task))
    case Stop(t) => AfterStop(run, s, t)
    case Fail(t) => Moved(s, t, Error)
    case Return(t) => Moved(if Over(run, s) then Released(s) else s, t, Nil)
    case Release => Released(s)
  }

  predicate CanRun(run: L.RunId, s: State, steps: seq<Step>)
    decreases |steps|
  {
    steps != [] ==> Enabled(run, s, steps[0]) && CanRun(run, After(run, s, steps[0]), steps[1..])
  }

  function Run(run: L.RunId, s: State, steps: seq<Step>): State
    requires CanRun(run, s, steps)
    decreases |steps|
  {
    if steps == [] then s else Run(run, After(run, s, steps[0]), steps[1..])
  }

  // ---------------------------------------------------------------- the invariant

  /** No invocation is inside the session, and none can start. */
  predicate Quiet(s: State) { s.session.active.None? && (s.session.cancelled || (!s.made && s.inputs.Deleted?)) }

  predicate CallOk(run: L.RunId, s: State, t: S.Thread)
    requires t in s.calls
  {
    match s.calls[t]
    case Announced => run in s.Runs() && s.session.PcOf(t).Idle?
    case Found => run in s.Runs() && s.made && s.session.PcOf(t).Idle?
    case Waiting => run in s.Runs() && s.session.PcOf(t).WaitingFor?
    case Waited => run in s.Runs() && Quiet(s)
    case Stopping => run in s.Runs()
    case Seen(task) => run in s.Runs() && (task in s.system.tasks ==> s.system.tasks[task].pc.Copy? && s.system.tasks[task].pc.run == run)
    case Stopped => Over(run, s)
    case Nil => Over(run, s)
    case Error => true
  }

  /** The controller makes one session, after the context, and cancels it when it deletes it. */
  predicate ControllerOk(s: State) {
    && (s.made ==> s.started) && (s.listed ==> s.made) && (s.made && !s.listed ==> s.session.cancelled)
    && (!s.made ==> s.session.active.None? && s.session.pcs == map[])
  }

  ghost predicate Inv(run: L.RunId, s: State) {
    && S.Inv(s.session) && S.ActiveRuns(s.session) && O.Inv(s.system) && ControllerOk(s)
    && (forall t | t in s.calls :: CallOk(run, s, t)) && (forall t, u | t in s.calls && u in s.calls :: Apart(s, t, u))
  }

  /** No two cancellations share a task. */
  predicate Apart(s: State, t: S.Thread, u: S.Thread)
    requires t in s.calls && u in s.calls
  {
    t != u && s.calls[t].Seen? ==> s.calls[u] != s.calls[t]
  }

  /** What every part of a step keeps of the stored runs. */
  predicate Grows(run: L.RunId, before: O.System, after: O.System) {
    run in before.runs ==> run in after.runs && (Terminal(before.runs[run]) ==> after.runs[run] == before.runs[run])
  }

  lemma StoreStep(run: L.RunId, s: O.System, step: O.Step)
    requires O.Inv(s) && O.Enabled(s, step)
    ensures O.Inv(O.After(s, step)) && Grows(run, s, O.After(s, step))
  {
    O.StepKeepsInv(s, step);
    if run in s.runs {
      assert O.TrailOk(s, run);
      O.StepAppends(s, step, run);
      if step.Update? && s.tasks[step.t].pc == O.Copy(run, s.runs[run]) { assert Allowed(s.runs[run], step.to); }
    }
  }

  /** What a task of another thread knows about the run stays. */
  lemma TaskStays(s: O.System, step: O.Step, task: O.Thread)
    requires O.Enabled(s, step) && (TaskOf(step).Some? ==> TaskOf(step).value != task) && task in O.After(s, step).tasks
    ensures task in s.tasks && O.After(s, step).tasks[task] == s.tasks[task]
  {
  }

  lemma SystemKeeps(run: L.RunId, s: State, step: Step)
    requires Inv(run, s) && Enabled(run, s, step)
    ensures O.Inv(After(run, s, step).system) && Grows(run, s.system, After(run, s, step).system)
  {
    hide O.Inv;
    hide O.After;
    match step
    case OfService(store) => StoreStep(run, s.system, store);
    case See(t, p, task) => StoreStep(run, s.system, O.Read(task, p, run));
    case Stop(t) =>
      StoreStep(run, s.system, O.Update(s.calls[t].task, RunState.Stopped));
      StoreStep(run, s.system, O.Forget(s.calls[t].task));
    case _ =>
  }

  lemma SessionKeeps(run: L.RunId, s: State, step: Step)
    requires Inv(run, s) && Enabled(run, s, step)
    ensures var after := After(run, s, step).session; S.Inv(after) && S.ActiveRuns(after) && (Quiet(s) ==> Quiet(After(run, s, step)))
  {
    hide O.Inv;
    hide O.After;
    match step
    case OfSession(part) =>
      S.StepKeepsInv(s.session, part);
      S.StepKeepsActiveRuns(s.session, part);
    case Interrupt(t) =>
      S.StepKeepsInv(s.session, S.Cancel(t));
      S.StepKeepsActiveRuns(s.session, S.Cancel(t));
    case Wake(t) =>
      S.StepKeepsInv(s.session, S.Wake(t));
      S.StepKeepsActiveRuns(s.session, S.Wake(t));
    case GiveUp(t) =>
      S.StepKeepsInv(s.session, S.GiveUp(t));
      S.StepKeepsActiveRuns(s.session, S.GiveUp(t));
    case Announce(_) => CancelledKeeps(s.session, After(run, s, step).session);
    case DeleteSession(_) => CancelledKeeps(s.session, After(run, s, step).session);
    case Delete(_) => CancelledKeeps(s.session, After(run, s, step).session);
    case Return(_) => CancelledKeeps(s.session, After(run, s, step).session);
    case Release => CancelledKeeps(s.session, After(run, s, step).session);
    case _ =>
  }

  lemma CancelledKeeps(s: S.State, s': S.State)
    requires S.Inv(s) && S.ActiveRuns(s) && (s' == s || s' == s.(cancelled := true))
    ensures S.Inv(s') && S.ActiveRuns(s')
  {
    forall t | t in s'.pcs ensures S.ThreadOk(s', t) { assert S.ThreadOk(s, t); }
  }

  lemma ControllerKeeps(run: L.RunId, s: State, step: Step)
    requires Inv(run, s) && Enabled(run, s, step)
    ensures ControllerOk(After(run, s, step))
  {
    hide O.Inv;
    hide O.After;
    hide O.Enabled;
    if step.Interrupt? || step.Wake? || step.GiveUp? || step.Delete? { assert CallOk(run, s, step.t); }
  }

  /** Whose step of a cancellation it is. */
  function Caller(step: Step): Option<S.Thread> {
    if step.OfSession? || step.OfService? || step.StartRun? || step.Take? || step.MakeSession? || step.DeleteSession? || step.Release? then None
    else Some(step.t)
  }

  /** What the cancelling thread itself knows after its step. */
  lemma OwnCall(run: L.RunId, s: State, step: Step, t: S.Thread)
    requires Inv(run, s) && Enabled(run, s, step) && Caller(step) == Some(t)
    ensures CallOk(run, After(run, s, step), t)
  {
    hide O.Inv;
    if step.Stop? {
      assert CallOk(run, s, t);
      OwnStop(run, s, t);
    } else if step.Interrupt? || step.Wake? || step.GiveUp? {
      OwnWait(run, s, step, t);
    } else {
      if step.See? { ReadTask(s.system, step.task, step.p, run); }
      hide O.After;
      hide O.Enabled;
      hide S.Inv;
      if t in s.calls { assert CallOk(run, s, t); }
      SystemKeeps(run, s, step);
    }
  }

  lemma OwnWait(run: L.RunId, s: State, step: Step, t: S.Thread)
    requires Inv(run, s) && Enabled(run, s, step) && Caller(step) == Some(t) && (step.Interrupt? || step.Wake? || step.GiveUp?)
    ensures CallOk(run, After(run, s, step), t)
  {
    hide O.Inv;
    hide O.After;
    hide O.Enabled;
    assert CallOk(run, s, t);
    if step.Wake? { assert S.ThreadOk(s.session, t); }
  }

  lemma ReadTask(s: O.System, task: O.Thread, p: O.ProcessId, run: L.RunId)
    requires O.Enabled(s, O.Read(task, p, run))
    ensures var after := O.After(s, O.Read(task, p, run));
            && after.runs == s.runs && after.processes == s.processes && task !in s.tasks
            && after.tasks == s.tasks[task := O.Task(p, O.Holding(run, s.runs[run]))]
  {
  }

  lemma OwnStop(run: L.RunId, s: State, t: S.Thread)
    requires CanStop(run, s, t) && CallOk(run, s, t)
    ensures CallOk(run, AfterStop(run, s, t), t)
  {
  }

  /** What a thread knows after a step that is not its own. */
  lemma OtherCall(run: L.RunId, s: State, step: Step, t: S.Thread)
    requires Inv(run, s) && Enabled(run, s, step) && t in s.calls && Caller(step) != Some(t)
    ensures CallOk(run, After(run, s, step), t)
  {
    hide O.Inv;
    hide After;
    hide Enabled;
    assert CallOk(run, s, t);
    SystemKeeps(run, s, step);
    SessionKeeps(run, s, step);
    OthersPlace(run, s, step, t);
    if s.calls[t].Seen? { OthersTask(run, s, step, t); }
  }

  lemma OthersPlace(run: L.RunId, s: State, step: Step, t: S.Thread)
    requires Enabled(run, s, step) && t in s.calls && Caller(step) != Some(t)
    ensures var s' := After(run, s, step);
            t in s'.calls && s'.calls[t] == s.calls[t] && s'.session.PcOf(t) == s.session.PcOf(t) && (s.made ==> s'.made)
  {
    hide O.After;
    hide O.Enabled;
    hide S.After;
    hide S.Enabled;
    match step
    case OfSession(part) => S.OthersStay(s.session, part, t);
    case Interrupt(u) => S.OthersStay(s.session, S.Cancel(u), t);
    case Wake(u) => S.OthersStay(s.session, S.Wake(u), t);
    case GiveUp(u) => S.OthersStay(s.session, S.GiveUp(u), t);
    case _ =>
  }

  lemma OthersTask(run: L.RunId, s: State, step: Step, t: S.Thread)
    requires Inv(run, s) && Enabled(run, s, step) && t in s.calls && s.calls[t].Seen? && Caller(step) != Some(t)
    ensures var task := s.calls[t].task; var after := After(run, s, step).system;
            task in after.tasks ==> task in s.system.tasks && after.tasks[task] == s.system.tasks[task]
  {
    hide O.Inv;
    hide O.After;
    var task := s.calls[t].task;
    if task in After(run, s, step).system.tasks {
      match step
      case OfService(store) => TaskStays(s.system, store, task);
      case See(_, p, other) =>
        assert s.calls[t] == Seen(task) && Busy(s, task);
        if !Terminal(s.Runs()[run]) { TaskStays(s.system, O.Read(other, p, run), task); }
      case Stop(u) =>
        assert Apart(s, t, u);
        if s.Runs()[run] == s.system.tasks[s.calls[u].task].pc.state {
          TaskStays(s.system, O.Update(s.calls[u].task, RunState.Stopped), task);
        } else {
          TaskStays(s.system, O.Forget(s.calls[u].task), task);
        }
      case _ =>
    }
  }

  lemma NewlySeen(run: L.RunId, s: State, step: Step, t: S.Thread)
    requires Enabled(run, s, step) && Caller(step) == Some(t)
    ensures var s' := After(run, s, step); t in s'.calls && (s'.calls[t].Seen? ==> !Busy(s, s'.calls[t].task))
    ensures forall u :: u in After(run, s, step).calls && u != t ==> u in s.calls
  {
    hide O.After;
    hide O.Enabled;
    hide S.After;
    hide S.Enabled;
  }

  lemma NobodySeen(run: L.RunId, s: State, step: Step)
    requires Enabled(run, s, step) && Caller(step).None?
    ensures After(run, s, step).calls == s.calls
  {
  }

  lemma ApartKeeps(run: L.RunId, s: State, step: Step, t: S.Thread, u: S.Thread)
    requires Inv(run, s) && Enabled(run, s, step)
    requires t in After(run, s, step).calls && u in After(run, s, step).calls
    ensures Apart(After(run, s, step), t, u)
  {
    hide After;
    hide Enabled;
    hide S.Inv;
    hide O.Inv;
    hide CallOk;
    hide ControllerOk;
    match Caller(step)
    case None => NobodySeen(run, s, step);
    case Some(v) =>
      NewlySeen(run, s, step, v);
      if t in s.calls && t != v { OthersPlace(run, s, step, t); }
      if u in s.calls && u != v { OthersPlace(run, s, step, u); }
    if t in s.calls && u in s.calls { assert Apart(s, t, u) && Apart(s, u, t); }
  }

  lemma StepKeepsInv(run: L.RunId, s: State, step: Step)
    requires Inv(run, s) && Enabled(run, s, step)
    ensures Inv(run, After(run, s, step))
  {
    hide O.Inv;
    hide O.After;
    hide O.Enabled;
    hide CallOk;
    hide Apart;
    hide ControllerOk;
    SystemKeeps(run, s, step);
    SessionKeeps(run, s, step);
    ControllerKeeps(run, s, step);
    var s' := After(run, s, step);
    forall t | t in s'.calls ensures CallOk(run, s', t) {
      if Caller(step) == Some(t) { OwnCall(run, s, step, t); } else { OtherCall(run, s, step, t); }
    }
    forall t, u | t in s'.calls && u in s'.calls ensures Apart(s', t, u) { ApartKeeps(run, s, step, t, u); }
  }

  lemma {:induction false} RunKeepsInv(run: L.RunId, s: State, steps: seq<Step>)
    requires Inv(run, s) && CanRun(run, s, steps)
    ensures Inv(run, Run(run, s, steps))
    decreases |steps|
  {
    hide Inv;
    hide After;
    hide Enabled;
    if steps != [] {
      StepKeepsInv(run, s, steps[0]);
      RunKeepsInv(run, After(run, s, steps[0]), steps[1..]);
    }
  }

  lemma StartInv(run: L.RunId)
    ensures Inv(run, START)
  {
  }

  // ---------------------------------------------------------------- what a cancellation that returns nil is worth

  predicate Inside(s: State, u: S.Thread) { S.Running(s.session.PcOf(u)) }

  /** What a cancellation can rely on from its lookup of the session on. */
  predicate Settled(s: State, t: S.Thread)
    requires t in s.calls
  {
    s.calls[t] in {Announced, Found, Waiting, Waited, Error} || Quiet(s)
  }

  /** The lookup finds the session, or there is none to find that is or will be active. */
  predicate Seizes(s: State) { s.listed || Quiet(s) }

  lemma OwnSettled(run: L.RunId, s: State, step: Step, t: S.Thread)
    requires Enabled(run, s, step) && t in s.calls && Caller(step) == Some(t)
    requires CallOk(run, s, t) && Settled(s, t) && (step == Find(t) ==> Seizes(s))
    requires Quiet(s) ==> Quiet(After(run, s, step))
    ensures var s' := After(run, s, step);
            t in s'.calls && Settled(s', t) && !s'.calls[t].Announced? && (s.calls[t].Announced? ==> step == Find(t))
  {
    hide S.Enabled;
    hide S.After;
    hide O.Enabled;
    hide O.After;
  }

  lemma StepKeepsSettled(run: L.RunId, s: State, step: Step, t: S.Thread)
    requires Inv(run, s) && Enabled(run, s, step) && t in s.calls && Settled(s, t) && (step == Find(t) ==> Seizes(s))
    ensures t in After(run, s, step).calls && Settled(After(run, s, step), t)
    ensures (s.calls[t].Announced? ==> step == Find(t) || After(run, s, step).calls[t].Announced?)
    ensures !s.calls[t].Announced? ==> !After(run, s, step).calls[t].Announced?
  {
    hide After;
    hide Enabled;
    hide S.Inv;
    hide S.ActiveRuns;
    hide O.Inv;
    hide Apart;
    hide ControllerOk;
    SessionKeeps(run, s, step);
    assert CallOk(run, s, t);
    if Caller(step) == Some(t) { OwnSettled(run, s, step, t); } else { OthersPlace(run, s, step, t); }
  }

  lemma {:induction false} RunKeepsSettled(run: L.RunId, s: State, steps: seq<Step>, t: S.Thread)
    requires Inv(run, s) && CanRun(run, s, steps) && t in s.calls && Settled(s, t) && !s.calls[t].Announced?
    ensures var s' := Run(run, s, steps); t in s'.calls && Settled(s', t)
    decreases |steps|
  {
    hide Inv;
    hide After;
    hide Enabled;
    hide Settled;
    if steps != [] {
      assert steps[0] != Find(t) by { FindsAnnounced(run, s, steps[0], t); }
      StepKeepsInv(run, s, steps[0]);
      StepKeepsSettled(run, s, steps[0], t);
      RunKeepsSettled(run, After(run, s, steps[0]), steps[1..], t);
    }
  }

  lemma FindsAnnounced(run: L.RunId, s: State, step: Step, t: S.Thread)
    requires Enabled(run, s, step) && t in s.calls && !s.calls[t].Announced?
    ensures step != Find(t)
  {
  }

  lemma QuietIsEmpty(run: L.RunId, s: State, u: S.Thread)
    requires Inv(run, s) && Quiet(s)
    ensures !Inside(s, u) && forall done :: !Enabled(run, s, OfSession(S.Enter(u, done)))
  {
    if u in s.session.pcs { assert S.ThreadOk(s.session, u); }
  }

  /** Whenever CancelRun has returned nil the stored run is over, at that moment and at every later one. */
  lemma NilMeansOver(run: L.RunId, steps: seq<Step>, t: S.Thread)
    requires CanRun(run, START, steps) && Run(run, START, steps).At(t, Nil)
    ensures Over(run, Run(run, START, steps))
  {
    StartInv(run);
    RunKeepsInv(run, START, steps);
    assert CallOk(run, Run(run, START, steps), t);
  }

  /** If the lookup of a cancellation seizes the session, then at and after its nil return no invocation is
      inside the session and none can start. */
  lemma CancelledForGood(run: L.RunId, s: State, steps: seq<Step>, t: S.Thread, u: S.Thread)
    requires Inv(run, s) && s.At(t, Announced) && Seizes(s)
    requires CanRun(run, After(run, s, Find(t)), steps) && Run(run, After(run, s, Find(t)), steps).At(t, Nil)
    ensures var s' := Run(run, After(run, s, Find(t)), steps);
            Over(run, s') && !Inside(s', u) && forall done :: !Enabled(run, s', OfSession(S.Enter(u, done)))
  {
    var s1 := After(run, s, Find(t));
    StepKeepsInv(run, s, Find(t));
    StepKeepsSettled(run, s, Find(t), t);
    RunKeepsSettled(run, s1, steps, t);
    RunKeepsInv(run, s1, steps);
    var s' := Run(run, s1, steps);
    assert CallOk(run, s', t);
    QuietIsEmpty(run, s', u);
  }

  // ---------------------------------------------------------------- and when it is not

  predicate Reaches(run: L.RunId, s: State, steps: seq<Step>, s': State) { CanRun(run, s, steps) && Run(run, s, steps) == s' }

  lemma {:induction false} Then(run: L.RunId, s: State, steps: seq<Step>, mid: State, step: Step)
    returns (more: seq<Step>, next: State)
    requires Reaches(run, s, steps, mid) && Enabled(run, mid, step)
    ensures more == steps + [step] && next == After(run, mid, step) && Reaches(run, s, more, next)
    decreases |steps|
  {
    hide Enabled;
    hide After;
    more, next := steps + [step], After(run, mid, step);
    if steps == [] {
      assert more == [step] && more[1..] == [];
      assert CanRun(run, After(run, s, more[0]), more[1..]);
      assert Run(run, After(run, s, more[0]), more[1..]) == After(run, s, step);
    } else {
      var rest, last := Then(run, After(run, s, steps[0]), steps[1..], mid, step);
      assert more[1..] == rest && more[0] == steps[0];
    }
  }

  /** A task that nobody uses. */
  lemma FreeTask(s: State) returns (task: O.Thread)
    ensures task !in s.system.tasks && !Busy(s, task)
  {
    task := O.UnusedAbove(s.system.tasks.Keys + (set t | t in s.calls && s.calls[t].Seen? :: s.calls[t].task), 0);
  }

  /** The same session; the call has moved. */
  predicate OnlyMoved(s: State, s': State, t: S.Thread, phase: Phase) {
    s'.session == s.session && s'.calls == s.calls[t := phase]
  }

  lemma RunIsStored(run: L.RunId, s: State, t: S.Thread)
    requires Inv(run, s) && s.At(t, Stopping)
    ensures run in s.Runs() && run in s.system.trail
  {
    assert CallOk(run, s, t) && O.TrailOk(s.system, run);
  }

  /** What it has read is what is stored. */
  lemma JustRead(run: L.RunId, s: State, t: S.Thread, p: O.ProcessId, task: O.Thread)
    requires Enabled(run, s, See(t, p, task)) && !Terminal(s.Runs()[run])
    ensures var s' := After(run, s, See(t, p, task));
            && Enabled(run, s', Stop(t)) && OnlyMoved(s, s', t, Seen(task))
            && OnlyMoved(s, After(run, s', Stop(t)), t, Phase.Stopped)
  {
    assert Allowed(s.Runs()[run], RunState.Stopped);
    var s' := After(run, s, See(t, p, task));
    assert s'.calls[t := Phase.Stopped] == s.calls[t := Phase.Stopped];
  }

  /** A call past its lookup can return nil, and the threads of the session are where they were. */
  lemma GoesOn(run: L.RunId, start: State, before: seq<Step>, s: State, t: S.Thread, p: O.ProcessId)
    returns (steps: seq<Step>, s': State)
    requires Reaches(run, start, before, s) && Inv(run, s) && s.At(t, Stopping) && p in s.system.processes
    ensures Reaches(run, start, steps, s') && s'.At(t, Nil) && s'.session.pcs == s.session.pcs
  {
    RunIsStored(run, s, t);
    hide Inv;
    hide Reaches;
    var task := FreeTask(s);
    var seen := After(run, s, See(t, p, task));
    steps, s' := Then(run, start, before, s, See(t, p, task));
    if !Terminal(s.Runs()[run]) {
      JustRead(run, s, t, p, task);
      hide After;
      steps, s' := Then(run, start, steps, seen, Stop(t));
    }
    steps, s' := Returned(run, start, steps, s', t);
  }

  lemma NoSteps(run: L.RunId, s: State)
    ensures Reaches(run, s, [], s)
  {
  }

  lemma Returned(run: L.RunId, start: State, steps: seq<Step>, mid: State, t: S.Thread) returns (more: seq<Step>, s': State)
    requires Reaches(run, start, steps, mid) && mid.At(t, Phase.Stopped)
    ensures Reaches(run, start, more, s') && s'.At(t, Nil) && s'.session.pcs == mid.session.pcs
  {
    hide Reaches;
    more, s' := Then(run, start, steps, mid, Return(t));
  }

  /** A session that has not been made can still be made and entered, when the context is not cancelled and the
      inputs have not been deleted. */
  lemma Starts(run: L.RunId, s: State) returns (steps: seq<Step>, s': State, u: S.Thread)
    requires ControllerOk(s) && !s.made && !s.session.cancelled && !s.inputs.Deleted?
    ensures Reaches(run, s, steps, s') && s'.calls == s.calls && s'.system == s.system && Inside(s', u)
  {
    NoSteps(run, s);
    hide Reaches;
    steps, s' := [], s;
    if !s.started {
      steps, s' := Then(run, s, steps, s', StartRun);
    }
    if s.inputs.Kept? {
      steps, s' := Then(run, s, steps, s', Take);
    }
    steps, s' := Then(run, s, steps, s', MakeSession);
    u := O.UnusedAbove(s'.calls.Keys, 0);
    var done := O.UnusedAbove(s'.session.made, 0);
    steps, s' := Then(run, s, steps, s', OfSession(S.Enter(u, done)));
  }

  /** After the lookup, the call returns nil, and then or at some time an invocation is inside. */
  ghost predicate Escapes(run: L.RunId, s: State, t: S.Thread, steps: seq<Step>, u: S.Thread)
    requires Enabled(run, s, Find(t))
  {
    var found := After(run, s, Find(t));
    CanRun(run, found, steps) && Run(run, found, steps).At(t, Nil) && Inside(Run(run, found, steps), u)
  }

  lemma Escaping(run: L.RunId, s: State, t: S.Thread, p: O.ProcessId) returns (steps: seq<Step>, u: S.Thread)
    requires Inv(run, s) && s.At(t, Announced) && p in s.system.processes && !Seizes(s)
    ensures Escapes(run, s, t, steps, u)
  {
    var found := After(run, s, Find(t));
    StepKeepsInv(run, s, Find(t));
    NoSteps(run, found);
    var entered: State := found;
    if s.session.active.Some? {
      u :| u in s.session.pcs && S.Running(s.session.pcs[u]);
      steps := [];
    } else {
      steps, entered, u := Starts(run, found);
      RunKeepsInv(run, found, steps);
    }
    hide Inv;
    var s';
    steps, s' := GoesOn(run, found, steps, entered, t, p);
  }

  /** Whether a cancellation that returns nil leaves the session quiet for good is decided when it looks the
      session up: it does exactly if it finds the session, or if no invocation is active and none can start, since
      the context of the run has been cancelled, or its inputs have been deleted before a session was made. */
  lemma CancelledExactly(run: L.RunId, before: seq<Step>, t: S.Thread, p: O.ProcessId)
    requires CanRun(run, START, before) && Run(run, START, before).At(t, Announced)
    requires p in Run(run, START, before).system.processes
    ensures var s := Run(run, START, before);
            (exists steps, u :: Escapes(run, s, t, steps, u)) <==> !Seizes(s)
  {
    var s := Run(run, START, before);
    StartInv(run);
    RunKeepsInv(run, START, before);
    hide Inv;
    if Seizes(s) {
      forall steps, u ensures !Escapes(run, s, t, steps, u) {
        if Escapes(run, s, t, steps, u) { CancelledForGood(run, s, steps, t, u); }
      }
    } else {
      var steps, u := Escaping(run, s, t, p);
    }
  }

  // ---------------------------------------------------------------- both ways to escape happen

  lemma {:induction false} Lifted(run: L.RunId, steps: seq<O.Step>, before: seq<Step>, s: State) returns (more: seq<Step>)
    requires Reaches(run, START, before, s) && s.calls == map[] && O.CanRun(s.system, steps)
    ensures Reaches(run, START, more, s.(system := O.Run(s.system, steps)))
    decreases |steps|
  {
    hide Reaches;
    hide O.Enabled;
    hide O.After;
    if steps == [] {
      more := before;
    } else {
      var longer, next := Then(run, START, before, s, OfService(steps[0]));
      more := Lifted(run, steps[1..], longer, next);
    }
  }

  /** A run that is stored and not over, before its context is made. */
  lemma Stored(run: L.RunId, key: L.Key) returns (steps: seq<Step>, system: O.System)
    requires run != ""
    ensures Reaches(run, START, steps, START.(system := system))
    ensures run in system.runs && !Terminal(system.runs[run]) && 0 in system.processes
  {
    hide O.CanRun;
    hide O.Run;
    var made := O.Driving(run, key);
    system := O.Run(O.START, made);
    NoSteps(run, START);
    steps := Lifted(run, made, [], START);
  }

  /** A run can be cancelled when it is stored and its context has not been made yet. */
  lemma CancelledTooEarly(run: L.RunId, key: L.Key) returns (steps: seq<Step>, s: State)
    requires run != ""
    ensures Reaches(run, START, steps, s) && s.At(1, Announced) && 0 in s.system.processes && !Seizes(s) && !Over(run, s)
  {
    var system;
    steps, system := Stored(run, key);
    hide Reaches;
    s := START.(system := system);
    steps, s := Then(run, START, steps, s, Announce(1));
  }

  /** Thread 0 has had its invocation, and thread 2 is in the next one. */
  lemma Overlapping(run: L.RunId, key: L.Key) returns (steps: seq<Step>, s: State)
    requires run != ""
    ensures Reaches(run, START, steps, s) && s.started && s.made && s.listed && s.calls == map[] && !s.stopping
    ensures run in s.Runs() && !Terminal(s.Runs()[run]) && 0 in s.system.processes
    ensures s.session.pcs == map[0 := S.Idle, 2 := S.Inside(1)] && s.session.active == Some(1)
  {
    var system;
    steps, system := Stored(run, key);
    hide Reaches;
    s := START.(system := system);
    steps, s := Then(run, START, steps, s, StartRun);
    steps, s := Then(run, START, steps, s, Take);
    steps, s := Then(run, START, steps, s, MakeSession);
    steps, s := Then(run, START, steps, s, OfSession(S.Enter(0, 0)));
    steps, s := Then(run, START, steps, s, OfSession(S.Return(0)));
    steps, s := Then(run, START, steps, s, OfSession(S.Leave(0)));
    steps, s := Then(run, START, steps, s, OfSession(S.Enter(2, 1)));
  }

  /** The session can be deleted by a thread whose invocation has ended, while another invocation, admitted in
      between, is inside; a cancellation then finds no session. */
  lemma CancelledTooLate(run: L.RunId, key: L.Key) returns (steps: seq<Step>, s: State)
    requires run != ""
    ensures Reaches(run, START, steps, s) && s.At(1, Announced) && 0 in s.system.processes && !Seizes(s)
    ensures s.session.cancelled && Inside(s, 2)
  {
    steps, s := Overlapping(run, key);
    hide Reaches;
    steps, s := Then(run, START, steps, s, DeleteSession(0));
    steps, s := Then(run, START, steps, s, Announce(1));
  }
}
