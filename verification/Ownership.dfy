/** Runs and their repository leases (internal/app/service.go, internal/app/repolock.go): any number of
    processes sharing one run store and one lease directory, each with any number of threads creating,
    driving, stopping, recovering and releasing runs, and crashing at any moment. A step is one store call,
    one change of a lease file, or one critical section. */
module Ownership {

  import opened RunState
  import opened RepoLocks

  type ProcessId = nat
  type Thread = nat

  /** What a thread is doing. A copy is what the thread read or last wrote of the stored run; by the time
      it is used the stored run may have moved on. */
  datatype Pc =
    | Opened(run: RunId)                   // the lease file exists, its record is not written yet
    | Creating(run: RunId)                 // the lease is held, the run is not stored yet
    | Copy(run: RunId, state: RunState)
    | Releasing(run: RunId)                // about to call ReleaseRun
    | ReleasingEntry(run: RunId, key: Key) // the entry has been looked up

  datatype Task = Task(process: ProcessId, pc: Pc)

  /** "keyOf" records the repository key of every run id ever generated; "trail" the states stored for a
      run, one for each state event of the run. */
  datatype System = System(
    runs: map<RunId, RunState>,
    trail: map<RunId, seq<RunState>>,
    keyOf: map<RunId, Key>,
    files: map<Key, Lease>,
    processes: map<ProcessId, Process>,
    tasks: map<Thread, Task>)

  const START := System(map[], map[], map[], map[], map[], map[])

  datatype Step =
    | Launch(p: ProcessId)
    | Crash(p: ProcessId)
    | Open(t: Thread, p: ProcessId, run: RunId, key: Key) // Acquire, up to the creation of the file
    | Write(t: Thread)                                    // the rest of Acquire
    | WriteFails(t: Thread)
    | Abandon(t: Thread, written: bool)                   // the write fails, and so does removing the file
    | Store(t: Thread)                                    // CreateRunWithEvent
    | StoreFails(t: Thread)
    | Read(t: Thread, p: ProcessId, run: RunId)           // GetRun or ListRuns
    | Update(t: Thread, to: RunState)                     // Transition and UpdateRunIfState
    | UpdateFails(t: Thread, to: RunState, changed: bool) // a store fault; the local copy may have changed
    | Forget(t: Thread)
    | Lookup(t: Thread, key: Key)                         // ReleaseRun, up to the call of releaseEntry
    | Remove(t: Thread)                                   // releaseEntry

  predicate At(s: System, t: Thread) { t in s.tasks && s.tasks[t].process in s.processes }

  predicate Enabled(s: System, step: Step) {
    match step
    case Launch(p) => p !in s.processes
    case Crash(p) => p in s.processes
    case Open(t, p, run, key) =>
      && t !in s.tasks && p in s.processes && run != "" && run !in s.keyOf
      && key !in s.processes[p].owners && key !in s.files
    case Write(t) => At(s, t) && s.tasks[t].pc.Opened? && s.tasks[t].pc.run in s.keyOf
    case WriteFails(t) => At(s, t) && s.tasks[t].pc.Opened? && s.tasks[t].pc.run in s.keyOf
    case Abandon(t, _) => At(s, t) && s.tasks[t].pc.Opened? && s.tasks[t].pc.run in s.keyOf
    case Store(t) => At(s, t) && s.tasks[t].pc.Creating?
    case StoreFails(t) => At(s, t) && s.tasks[t].pc.Creating?
    case Read(t, p, run) => t !in s.tasks && p in s.processes && run in s.runs && run in s.trail
    case Update(t, to) =>
      && At(s, t) && s.tasks[t].pc.Copy? && Allowed(s.tasks[t].pc.state, to)
      && s.tasks[t].pc.run in s.runs && s.tasks[t].pc.run in s.trail
    case UpdateFails(t, to, _) => At(s, t) && s.tasks[t].pc.Copy? && Allowed(s.tasks[t].pc.state, to)
    case Forget(t) => At(s, t) && !s.tasks[t].pc.Opened? && !s.tasks[t].pc.Creating?
    case Lookup(t, key) =>
      && At(s, t) && s.tasks[t].pc.Releasing?
      && var known := s.processes[s.tasks[t].process].keysByRun;
         if s.tasks[t].pc.run in known then key == known[s.tasks[t].pc.run]
         else Owns(s.files, key, s.tasks[t].pc.run)
    case Remove(t) => At(s, t) && s.tasks[t].pc.ReleasingEntry?
  }

  /** The system after thread t has moved to another point. */
  function Moved(s: System, t: Thread, pc: Pc): System
    requires t in s.tasks
  {
    s.(tasks := s.tasks[t := s.tasks[t].(pc := pc)])
  }

  /** A thread that has seen its run stored in a terminal state goes on to release it. */
  function Holding(run: RunId, state: RunState): Pc {
    if Terminal(state) then Releasing(run) else Copy(run, state)
  }

  function After(s: System, step: Step): System
    requires Enabled(s, step)
  {
    match step
    case Launch(p) => s.(processes := s.processes[p := Process({}, map[])])
    case Crash(p) =>
      s.(processes := s.processes - {p}, tasks := map t | t in s.tasks && s.tasks[t].process != p :: s.tasks[t])
    case Open(t, p, run, key) =>
      s.(keyOf := s.keyOf[run := key], files := s.files[key := Lease(run, false)],
         tasks := s.tasks[t := Task(p, Opened(run))])
    case Write(t) =>
      var p, run := s.tasks[t].process, s.tasks[t].pc.run;
      var next := Acquired(Leases(s.files, s.processes[p]), s.keyOf[run], run);
      Moved(s.(files := next.files, processes := s.processes[p := next.process]), t, Creating(run))
    case WriteFails(t) => s.(files := s.files - {s.keyOf[s.tasks[t].pc.run]}, tasks := s.tasks - {t})
    case Abandon(t, written) =>
      var run := s.tasks[t].pc.run;
      s.(files := s.files[s.keyOf[run] := Lease(run, written)], tasks := s.tasks - {t})
    case Store(t) =>
      var run := s.tasks[t].pc.run;
      Moved(s.(runs := s.runs[run := Created], trail := s.trail[run := [Created]]), t, Copy(run, Created))
    case StoreFails(t) => Moved(s, t, Releasing(s.tasks[t].pc.run))
    case Read(t, p, run) => s.(tasks := s.tasks[t := Task(p, Holding(run, s.runs[run]))])
    case Update(t, to) =>
      var run := s.tasks[t].pc.run;
      if s.runs[run] == s.tasks[t].pc.state then
        Moved(s.(runs := s.runs[run := to], trail := s.trail[run := s.trail[run] + [to]]), t, Holding(run, to))
      else s
    case UpdateFails(t, to, changed) => Moved(s, t, if changed then Copy(s.tasks[t].pc.run, to) else s.tasks[t].pc)
    case Forget(t) => s.(tasks := s.tasks - {t})
    case Lookup(t, key) => Moved(s, t, ReleasingEntry(s.tasks[t].pc.run, key))
    case Remove(t) =>
      var p := s.tasks[t].process;
      var next := Released(Leases(s.files, s.processes[p]), s.tasks[t].pc.key, s.tasks[t].pc.run);
      s.(files := next.files, processes := s.processes[p := next.process], tasks := s.tasks - {t})
  }

  /** Each step can be taken where the ones before it lead. */
  predicate CanRun(s: System, steps: seq<Step>)
    decreases |steps|
  {
    steps != [] ==> Enabled(s, steps[0]) && CanRun(After(s, steps[0]), steps[1..])
  }

  function Run(s: System, steps: seq<Step>): System
    requires CanRun(s, steps)
    decreases |steps|
  {
    if steps == [] then s else Run(After(s, steps[0]), steps[1..])
  }

  // ---------------------------------------------------------------- the invariant

  /** A run that is not over holds the lease of its repository. */
  predicate HoldsLease(s: System, run: RunId)
    requires run in s.runs
  {
    !Terminal(s.runs[run]) ==> run in s.keyOf && Owns(s.files, s.keyOf[run], run)
  }

  predicate TrailOk(s: System, run: RunId)
    requires run in s.runs
  {
    && run in s.keyOf && run in s.trail && s.trail[run] != []
    && s.trail[run][0] == Created && IsPath(s.trail[run])
    && s.trail[run][|s.trail[run]| - 1] == s.runs[run]
  }

  predicate FileOk(s: System, key: Key)
    requires key in s.files
  {
    var lease := s.files[key];
    lease.run in s.keyOf && s.keyOf[lease.run] == key && (lease.run in s.runs ==> lease.written)
  }

  /** Only the thread that generated a run id can store the run, and whoever releases a run does so when
      it is over or will never be stored. */
  predicate TaskOk(s: System, t: Thread)
    requires t in s.tasks
  {
    var pc := s.tasks[t].pc;
    && s.tasks[t].process in s.processes && pc.run in s.keyOf
    && match pc
       case Opened(run) => run !in s.runs && s.keyOf[run] in s.files && s.files[s.keyOf[run]] == Lease(run, false)
       case Creating(run) => run !in s.runs && Owns(s.files, s.keyOf[run], run)
       case Copy(run, _) => run in s.runs
       case Releasing(run) => run in s.runs ==> Terminal(s.runs[run])
       case ReleasingEntry(run, _) => run in s.runs ==> Terminal(s.runs[run])
  }

  /** A run id that is still to be stored is known to one thread. */
  predicate Alone(s: System, t: Thread, u: Thread)
    requires t in s.tasks && u in s.tasks
  {
    t != u && s.tasks[t].pc.run == s.tasks[u].pc.run ==> !s.tasks[t].pc.Opened? && !s.tasks[t].pc.Creating?
  }

  predicate Inv(s: System) {
    && (forall run | run in s.runs :: HoldsLease(s, run) && TrailOk(s, run))
    && (forall key | key in s.files :: FileOk(s, key))
    && (forall t | t in s.tasks :: TaskOk(s, t))
    && (forall t, u | t in s.tasks && u in s.tasks :: Alone(s, t, u))
  }

  lemma StepKeepsRuns(s: System, step: Step, run: RunId)
    requires Inv(s) && Enabled(s, step) && run in After(s, step).runs
    ensures HoldsLease(After(s, step), run) && TrailOk(After(s, step), run)
  {
    if run in s.runs { assert HoldsLease(s, run) && TrailOk(s, run); }
    if !step.Launch? && !step.Crash? && step.t in s.tasks { assert TaskOk(s, step.t); }
    StepKeepsTrail(s, step, run);
  }

  lemma StepKeepsTrail(s: System, step: Step, run: RunId)
    requires Enabled(s, step) && run in After(s, step).runs
    requires run in s.runs ==> TrailOk(s, run)
    requires step.Store? && s.tasks[step.t].pc.run == run ==> run in s.keyOf
    ensures TrailOk(After(s, step), run)
  {
  }

  lemma StepKeepsFiles(s: System, step: Step, key: Key)
    requires Inv(s) && Enabled(s, step) && key in After(s, step).files
    ensures FileOk(After(s, step), key)
  {
    hide HoldsLease;
    hide Alone;
    if key in s.files { assert FileOk(s, key); }
    if !step.Launch? && !step.Crash? && step.t in s.tasks { assert TaskOk(s, step.t); }
  }

  lemma StepKeepsTask(s: System, step: Step, t: Thread)
    requires Inv(s) && Enabled(s, step) && t in After(s, step).tasks
    requires !step.Launch? && !step.Crash? && step.t == t
    ensures TaskOk(After(s, step), t)
  {
    hide HoldsLease;
    hide Alone;
    if t in s.tasks { assert TaskOk(s, t); }
  }

  lemma StepKeepsOtherTasks(s: System, step: Step, t: Thread)
    requires Inv(s) && Enabled(s, step) && t in After(s, step).tasks
    requires step.Launch? || step.Crash? || step.t != t
    ensures TaskOk(After(s, step), t)
  {
    hide HoldsLease;
    hide TrailOk;
    assert TaskOk(s, t);
    if !step.Launch? && !step.Crash? {
      if step.t in s.tasks {
        assert TaskOk(s, step.t);
        OthersOfARun(s, t, step.t);
      }
      RunsOnlyGrow(s, step);
    }
  }

  /** A thread that is about to store a run shares it with nobody. */
  lemma OthersOfARun(s: System, t: Thread, u: Thread)
    requires Inv(s) && t in s.tasks && u in s.tasks && t != u
    ensures s.tasks[t].pc.run == s.tasks[u].pc.run ==>
              && !s.tasks[t].pc.Opened? && !s.tasks[t].pc.Creating? && !s.tasks[u].pc.Opened? && !s.tasks[u].pc.Creating?
  {
    assert Alone(s, t, u) && Alone(s, u, t);
  }

  lemma RunsOnlyGrow(s: System, step: Step)
    requires Enabled(s, step)
    ensures forall run | run in s.runs :: run in After(s, step).runs
    ensures forall run | run in s.runs && Terminal(s.runs[run]) :: After(s, step).runs[run] == s.runs[run] || step.Store?
    ensures forall run | run in After(s, step).runs && run !in s.runs :: step.Store? && run == s.tasks[step.t].pc.run
  {
  }

  lemma StepKeepsAlone(s: System, step: Step, t: Thread, u: Thread)
    requires Inv(s) && Enabled(s, step) && t in After(s, step).tasks && u in After(s, step).tasks
    ensures Alone(After(s, step), t, u)
  {
    hide HoldsLease;
    hide TrailOk;
    hide FileOk;
    hide Acquired;
    hide Released;
    if t in s.tasks { assert TaskOk(s, t); }
    if u in s.tasks { assert TaskOk(s, u); }
    if t in s.tasks && u in s.tasks { assert Alone(s, t, u); }
    if step.Launch? || step.Crash? || (step.t != t && step.t != u) {
      assert t in s.tasks && u in s.tasks;
    }
  }

  lemma StepKeepsInv(s: System, step: Step)
    requires Inv(s) && Enabled(s, step)
    ensures Inv(After(s, step))
  {
    var s' := After(s, step);
    forall run | run in s'.runs ensures HoldsLease(s', run) && TrailOk(s', run) { StepKeepsRuns(s, step, run); }
    forall key | key in s'.files ensures FileOk(s', key) { StepKeepsFiles(s, step, key); }
    forall t | t in s'.tasks ensures TaskOk(s', t) {
      if !step.Launch? && !step.Crash? && step.t == t {
        StepKeepsTask(s, step, t);
      } else {
        StepKeepsOtherTasks(s, step, t);
      }
    }
    forall t, u | t in s'.tasks && u in s'.tasks ensures Alone(s', t, u) { StepKeepsAlone(s, step, t, u); }
  }

  lemma {:induction false} RunKeepsInv(s: System, steps: seq<Step>)
    requires Inv(s) && CanRun(s, steps)
    ensures Inv(Run(s, steps))
    decreases |steps|
  {
    if steps != [] {
      StepKeepsInv(s, steps[0]);
      RunKeepsInv(After(s, steps[0]), steps[1..]);
    }
  }

  // ---------------------------------------------------------------- what every run guarantees

  /** At most one run of a repository is not over, and it holds the lease: whatever creations failed, runs
      were cancelled, or processes crashed and recovered. */
  lemma OneActiveRun(steps: seq<Step>, run: RunId, other: RunId)
    requires CanRun(START, steps)
    ensures var s := Run(START, steps);
            run in s.runs && !Terminal(s.runs[run]) ==>
              && run in s.keyOf && Owns(s.files, s.keyOf[run], run)
              && (other in s.runs && !Terminal(s.runs[other]) ==>
                    other in s.keyOf && (s.keyOf[other] == s.keyOf[run] ==> other == run))
  {
    RunKeepsInv(START, steps);
    var s := Run(START, steps);
    if run in s.runs && other in s.runs { assert HoldsLease(s, run) && HoldsLease(s, other); }
  }

  /** The states stored for a run form a path of allowed transitions from Created that ends in the current
      state, and later steps only append to it; so a terminal state is never left. */
  lemma StoredStatesFollowTheGraph(steps: seq<Step>, more: seq<Step>, run: RunId)
    requires CanRun(START, steps) && run in Run(START, steps).runs && CanRun(Run(START, steps), more)
    ensures var s, s' := Run(START, steps), Run(Run(START, steps), more);
            && run in s.trail && run in s'.trail && s.trail[run] <= s'.trail[run]
            && IsPath(s'.trail[run]) && s'.trail[run] != [] && s'.trail[run][0] == Created
            && run in s'.runs && s'.runs[run] == s'.trail[run][|s'.trail[run]| - 1]
            && (Terminal(s.runs[run]) ==> s'.trail[run] == s.trail[run] && s'.runs[run] == s.runs[run])
  {
    RunKeepsInv(START, steps);
    var s := Run(START, steps);
    RunKeepsInv(s, more);
    assert TrailOk(s, run);
    TrailOnlyGrows(s, more, run);
    var s' := Run(s, more);
    assert TrailOk(s', run);
    if Terminal(s.runs[run]) { TerminalEndsPath(s'.trail[run], |s.trail[run]| - 1); }
  }

  lemma {:induction false} TrailOnlyGrows(s: System, steps: seq<Step>, run: RunId)
    requires Inv(s) && CanRun(s, steps) && run in s.runs && run in s.trail
    ensures var s' := Run(s, steps); run in s'.runs && run in s'.trail && s.trail[run] <= s'.trail[run]
    decreases |steps|
  {
    if steps != [] {
      var s' := After(s, steps[0]);
      StepKeepsInv(s, steps[0]);
      StepAppends(s, steps[0], run);
      TrailOnlyGrows(s', steps[1..], run);
    }
  }

  /** One step appends at most one state, exactly when an update found the state it expected. */
  lemma StepAppends(s: System, step: Step, run: RunId)
    requires Inv(s) && Enabled(s, step) && run in s.runs && run in s.trail
    ensures var s' := After(s, step);
            && run in s'.runs && run in s'.trail
            && (if step.Update? && s.tasks[step.t].pc == Copy(run, s.runs[run])
                then s'.trail[run] == s.trail[run] + [step.to] && s'.runs[run] == step.to
                else s'.trail[run] == s.trail[run] && s'.runs[run] == s.runs[run])
  {
    if step.Store? { assert TaskOk(s, step.t); }
  }

  /** A run id that has been generated, is not stored, and that no thread is going to store. */
  predicate NeverStored(s: System, run: RunId) {
    && run in s.keyOf && run !in s.runs
    && forall t | t in s.tasks && s.tasks[t].pc.run == run :: !s.tasks[t].pc.Opened? && !s.tasks[t].pc.Creating?
  }

  lemma {:induction false} NeverStoredLater(s: System, steps: seq<Step>, run: RunId)
    requires NeverStored(s, run) && CanRun(s, steps)
    ensures run !in Run(s, steps).runs
    decreases |steps|
  {
    if steps != [] {
      StepKeepsNeverStored(s, steps[0], run);
      NeverStoredLater(After(s, steps[0]), steps[1..], run);
    }
  }

  lemma StepKeepsNeverStored(s: System, step: Step, run: RunId)
    requires NeverStored(s, run) && Enabled(s, step)
    ensures NeverStored(After(s, step), run)
  {
    hide Acquired;
    hide Released;
  }

  /** A release removes at most the lease of a run that is over or will never be stored. */
  lemma ReleaseIsSafe(steps: seq<Step>, t: Thread, key: Key)
    requires CanRun(START, steps) && Enabled(Run(START, steps), Remove(t))
    requires key in Run(START, steps).files && key !in After(Run(START, steps), Remove(t)).files
    ensures var s := Run(START, steps); var run := s.files[key].run;
            && run == s.tasks[t].pc.run && (run in s.runs ==> Terminal(s.runs[run]))
            && (run !in s.runs ==> forall more | CanRun(s, more) :: run !in Run(s, more).runs)
  {
    RunKeepsInv(START, steps);
    var s := Run(START, steps);
    var run := s.files[key].run;
    assert TaskOk(s, t);
    if run !in s.runs {
      forall u | u in s.tasks && s.tasks[u].pc.run == run ensures !s.tasks[u].pc.Opened? && !s.tasks[u].pc.Creating? {
        if u != t { OthersOfARun(s, t, u); }
      }
      forall more | CanRun(s, more) ensures run !in Run(s, more).runs { NeverStoredLater(s, more, run); }
    }
  }

  // ---------------------------------------------------------------- which leases can be recovered

  /** No thread is creating, driving or releasing the run. */
  predicate Unattended(s: System, run: RunId) {
    forall t | t in s.tasks :: s.tasks[t].pc.run != run
  }

  /** The steps of a startup recovery by a new process that ends in the release of the run. */
  function Recovery(s: System, p: ProcessId, t: Thread, run: RunId): seq<Step>
    requires run in s.runs && run in s.keyOf
  {
    [Launch(p)] + ([Read(t, p, run)] + StopAndRelease(s.runs[run], t, s.keyOf[run]))
  }

  function StopAndRelease(state: RunState, t: Thread, key: Key): seq<Step> {
    if Terminal(state) then [Lookup(t, key), Remove(t)] else [Update(t, Stopped)] + [Lookup(t, key), Remove(t)]
  }

  lemma CanRunStep(s: System, step: Step, steps: seq<Step>)
    requires Enabled(s, step) && CanRun(After(s, step), steps)
    ensures CanRun(s, [step] + steps) && Run(s, [step] + steps) == Run(After(s, step), steps)
  {
    assert ([step] + steps)[1..] == steps;
  }

  /** A new process's recovery of a stored run frees the repository, whoever left the lease behind. */
  lemma RecoveryFrees(s: System, p: ProcessId, t: Thread, key: Key)
    requires Inv(s) && key in s.files && s.files[key].run in s.runs && p !in s.processes && t !in s.tasks
    requires s.files[key].run in s.keyOf
    ensures var steps := Recovery(s, p, t, s.files[key].run);
            && CanRun(s, steps) && key !in Run(s, steps).files
            && (forall q | q in s.processes :: q in Run(s, steps).processes && Run(s, steps).processes[q] == s.processes[q])
  {
    var run := s.files[key].run;
    assert FileOk(s, key) && TrailOk(s, run);
    var s1 := After(s, Launch(p));
    StopAndReleaseFrees(After(s1, Read(t, p, run)), t, key, s.runs[run]);
    var rest := StopAndRelease(s.runs[run], t, key);
    CanRunStep(s1, Read(t, p, run), rest);
    CanRunStep(s, Launch(p), [Read(t, p, run)] + rest);
  }

  lemma StopAndReleaseFrees(s: System, t: Thread, key: Key, state: RunState)
    requires key in s.files && s.files[key].written && At(s, t)
    requires s.processes[s.tasks[t].process] == Process({}, map[])
    requires var run := s.files[key].run;
             run in s.runs && run in s.trail && s.runs[run] == state && s.tasks[t].pc == Holding(run, state)
    ensures CanRun(s, StopAndRelease(state, t, key)) && key !in Run(s, StopAndRelease(state, t, key)).files
    ensures forall q | q in s.processes && q != s.tasks[t].process ::
              var after := Run(s, StopAndRelease(state, t, key)).processes; q in after && after[q] == s.processes[q]
  {
    if Terminal(state) {
      EndOfRecovery(s, t, key);
    } else {
      assert Allowed(state, Stopped);
      EndOfRecovery(After(s, Update(t, Stopped)), t, key);
      CanRunStep(s, Update(t, Stopped), [Lookup(t, key), Remove(t)]);
    }
  }

  lemma EndOfRecovery(s: System, t: Thread, key: Key)
    requires key in s.files && s.files[key].written && At(s, t)
    requires s.tasks[t].pc == Releasing(s.files[key].run) && s.processes[s.tasks[t].process] == Process({}, map[])
    ensures CanRun(s, [Lookup(t, key), Remove(t)]) && key !in Run(s, [Lookup(t, key), Remove(t)]).files
    ensures forall q | q in s.processes && q != s.tasks[t].process ::
              var after := Run(s, [Lookup(t, key), Remove(t)]).processes; q in after && after[q] == s.processes[q]
  {
    var s1 := After(s, Lookup(t, key));
    CanRunStep(s1, Remove(t), []);
    CanRunStep(s, Lookup(t, key), [Remove(t)]);
    assert [Lookup(t, key)] + [Remove(t)] == [Lookup(t, key), Remove(t)];
    assert [Remove(t)] + [] == [Remove(t)];
  }

  lemma StepKeepsOrphan(s: System, step: Step, key: Key)
    requires Inv(s) && Enabled(s, step) && key in s.files
    requires s.files[key].run !in s.runs && Unattended(s, s.files[key].run)
    ensures var s' := After(s, step);
            && key in s'.files && s'.files[key] == s.files[key]
            && s.files[key].run !in s'.runs && Unattended(s', s.files[key].run)
  {
    hide HoldsLease;
    hide TrailOk;
    hide Alone;
    assert FileOk(s, key);
    if !step.Launch? && !step.Crash? && step.t in s.tasks { assert TaskOk(s, step.t); }
  }

  lemma {:induction false} OrphanIsForever(s: System, steps: seq<Step>, key: Key)
    requires Inv(s) && CanRun(s, steps) && key in s.files
    requires s.files[key].run !in s.runs && Unattended(s, s.files[key].run)
    ensures key in Run(s, steps).files
    decreases |steps|
  {
    if steps != [] {
      StepKeepsInv(s, steps[0]);
      StepKeepsOrphan(s, steps[0], key);
      OrphanIsForever(After(s, steps[0]), steps[1..], key);
    }
  }

  /** A crash between the creation of a lease and the storing of its run leaves such a lease, for every
      repository. */
  lemma OrphanHappens(run: RunId, key: Key) returns (steps: seq<Step>)
    requires run != ""
    ensures CanRun(START, steps)
    ensures var s := Run(START, steps);
            && key in s.files && s.files[key] == Lease(run, true) && run !in s.runs
            && s.processes == map[] && Unattended(s, run)
  {
    hide CanRun;
    hide Run;
    var s1 := After(START, Launch(0));
    var s2 := After(s1, Open(0, 0, run, key));
    var s3 := After(s2, Write(0));
    var s4 := After(s3, Crash(0));
    assert s3.processes.Keys == {0} && s4.processes.Keys == {};
    steps := [Launch(0), Open(0, 0, run, key), Write(0), Crash(0)];
    TheseSteps(START, Launch(0), Open(0, 0, run, key), Write(0), Crash(0));
  }

  lemma {:induction false} UnusedAbove(taken: set<nat>, from: nat) returns (n: nat)
    ensures n !in taken && n >= from
    decreases |taken|
  {
    if from !in taken {
      n := from;
    } else {
      n := UnusedAbove(taken - {from}, from + 1);
    }
  }

  /** A lease that nobody attends to can still be freed exactly when its run reached the store: startup
      recovery goes through the stored runs, so a lease left by a crash between its creation and the
      storing of its run keeps the repository busy for ever. */
  lemma RecoverableIffStored(steps: seq<Step>, key: Key)
    requires CanRun(START, steps) && key in Run(START, steps).files
    requires Unattended(Run(START, steps), Run(START, steps).files[key].run)
    ensures var s := Run(START, steps);
            (exists more :: CanRun(s, more) && key !in Run(s, more).files) <==> s.files[key].run in s.runs
  {
    var s := Run(START, steps);
    RunKeepsInv(START, steps);
    if s.files[key].run in s.runs {
      var p := UnusedAbove(s.processes.Keys, 0);
      var t := UnusedAbove(s.tasks.Keys, 0);
      assert FileOk(s, key);
      RecoveryFrees(s, p, t, key);
    } else {
      forall more | CanRun(s, more) ensures key in Run(s, more).files { OrphanIsForever(s, more, key); }
    }
  }

  // ---------------------------------------------------------------- what a process remembers

  /** A process forgets that it owns a key only when one of its releases finds the matching lease file. So
      when another process has already removed the file, as startup recovery does to runs of a process that
      is still alive, the first process refuses the key although nobody holds it. */
  lemma OwnersClearedOnlyWithTheFile(s: System, step: Step, p: ProcessId, key: Key)
    requires Enabled(s, step) && p in s.processes && key in s.processes[p].owners && p in After(s, step).processes
    ensures key !in After(s, step).processes[p].owners <==>
              && step.Remove? && s.tasks[step.t].process == p && s.tasks[step.t].pc.key == key
              && Owns(s.files, key, s.tasks[step.t].pc.run)
  {
  }

  lemma StepKeepsRefused(s: System, step: Step, p: ProcessId, key: Key)
    requires Inv(s) && Enabled(s, step) && p in s.processes && key in s.processes[p].owners && key !in s.files
    requires step != Crash(p) && !(step.Open? && step.key == key)
    ensures var s' := After(s, step); p in s'.processes && key in s'.processes[p].owners && key !in s'.files
  {
    if step.Write? || step.Abandon? { assert TaskOk(s, step.t); }
  }

  lemma {:induction false} FreeButRefused(s: System, steps: seq<Step>, p: ProcessId, t: Thread, run: RunId, key: Key)
    requires Inv(s) && p in s.processes && key in s.processes[p].owners && key !in s.files
    requires CanRun(s, steps)
    requires forall i | 0 <= i < |steps| :: steps[i] != Crash(p) && !(steps[i].Open? && steps[i].key == key)
    ensures key !in Run(s, steps).files && !Enabled(Run(s, steps), Open(t, p, run, key))
    decreases |steps|
  {
    hide Inv;
    hide After;
    if steps != [] {
      StepKeepsInv(s, steps[0]);
      StepKeepsRefused(s, steps[0], p, key);
      FreeButRefused(After(s, steps[0]), steps[1..], p, t, run, key);
    }
  }

  lemma {:induction false} CanRunConcat(s: System, steps: seq<Step>, more: seq<Step>)
    requires CanRun(s, steps) && CanRun(Run(s, steps), more)
    ensures CanRun(s, steps + more) && Run(s, steps + more) == Run(Run(s, steps), more)
    decreases |steps|
  {
    if steps == [] {
      assert steps + more == more;
    } else {
      CanRunConcat(After(s, steps[0]), steps[1..], more);
      assert steps + more == [steps[0]] + (steps[1..] + more);
      CanRunStep(s, steps[0], steps[1..] + more);
    }
  }

  /** The run of a first process, up to the moment it drives a run. */
  lemma Driving(run: RunId, key: Key) returns (steps: seq<Step>)
    requires run != ""
    ensures CanRun(START, steps)
    ensures var s := Run(START, steps);
            && s.processes.Keys == {0} && s.tasks.Keys == {0} && key in s.processes[0].owners
            && key in s.files && s.files[key].run == run && run in s.runs && s.runs[run] == Created && run in s.keyOf
  {
    hide CanRun;
    hide Run;
    var s3 := After(After(After(START, Launch(0)), Open(0, 0, run, key)), Write(0));
    var s4 := After(s3, Store(0));
    assert s4.processes.Keys == {0} && s4.tasks.Keys == {0};
    steps := [Launch(0), Open(0, 0, run, key), Write(0), Store(0)];
    TheseSteps(START, Launch(0), Open(0, 0, run, key), Write(0), Store(0));
  }

  /** Such a situation arises for every repository: a second process starts and recovers the run that the
      first one is driving. */
  lemma FreeButRefusedHappens(run: RunId, key: Key) returns (steps: seq<Step>)
    requires run != ""
    ensures CanRun(START, steps)
    ensures 0 in Run(START, steps).processes && key in Run(START, steps).processes[0].owners
    ensures key !in Run(START, steps).files
  {
    var first := Driving(run, key);
    RunKeepsInv(START, first);
    RecoveryFrees(Run(START, first), 1, 1, key);
    var recovery := Recovery(Run(START, first), 1, 1, run);
    CanRunConcat(START, first, recovery);
    steps := first + recovery;
  }

  // ---------------------------------------------------------------- a creation that fails

  /** Every run id that a process remembers has been generated. */
  predicate KeysKnown(s: System) {
    forall p | p in s.processes :: s.processes[p].keysByRun.Keys <= s.keyOf.Keys
  }

  lemma StepKeepsKeysKnown(s: System, step: Step)
    requires Enabled(s, step) && KeysKnown(s)
    ensures KeysKnown(After(s, step))
  {
    var s' := After(s, step);
    forall p | p in s'.processes ensures s'.processes[p].keysByRun.Keys <= s'.keyOf.Keys {
      if p in s.processes { assert s.processes[p].keysByRun.Keys <= s.keyOf.Keys; }
    }
  }

  lemma {:induction false} RunKeepsKeysKnown(s: System, steps: seq<Step>)
    requires KeysKnown(s) && CanRun(s, steps)
    ensures KeysKnown(Run(s, steps))
    decreases |steps|
  {
    hide KeysKnown;
    if steps != [] {
      StepKeepsKeysKnown(s, steps[0]);
      RunKeepsKeysKnown(After(s, steps[0]), steps[1..]);
    }
  }

  /** Nothing is left of a run that could not be created but that its id has been used. */
  predicate NothingLeft(before: System, after: System, run: RunId, key: Key) {
    after == before.(keyOf := before.keyOf[run := key])
  }

  /** When the lease cannot be written, the file is removed again; when the run cannot be stored, the lease is
      released again. Either way the repository is as free as it was. */
  lemma FailedCreationFrees(steps: seq<Step>, t: Thread, p: ProcessId, run: RunId, key: Key)
    requires CanRun(START, steps) && Enabled(Run(START, steps), Open(t, p, run, key))
    ensures var s := Run(START, steps);
            var created := After(s, Open(t, p, run, key));
            && Enabled(created, WriteFails(t)) && NothingLeft(s, After(created, WriteFails(t)), run, key)
            && CanRun(created, [Write(t), StoreFails(t), Lookup(t, key), Remove(t)])
            && NothingLeft(s, Run(created, [Write(t), StoreFails(t), Lookup(t, key), Remove(t)]), run, key)
  {
    var s := Run(START, steps);
    RunKeepsKeysKnown(START, steps);
    assert s.processes[p].keysByRun.Keys <= s.keyOf.Keys;
    WriteFailsFrees(s, t, p, run, key);
    StoreFailsFrees(s, t, p, run, key);
  }

  lemma WriteFailsFrees(s: System, t: Thread, p: ProcessId, run: RunId, key: Key)
    requires Enabled(s, Open(t, p, run, key))
    ensures var created := After(s, Open(t, p, run, key));
            Enabled(created, WriteFails(t)) && NothingLeft(s, After(created, WriteFails(t)), run, key)
  {
    assert s.files[key := Lease(run, false)] - {key} == s.files;
    assert s.tasks[t := Task(p, Opened(run))] - {t} == s.tasks;
  }

  lemma StoreFailsFrees(s: System, t: Thread, p: ProcessId, run: RunId, key: Key)
    requires Enabled(s, Open(t, p, run, key)) && run !in s.processes[p].keysByRun
    ensures var created := After(s, Open(t, p, run, key));
            && CanRun(created, [Write(t), StoreFails(t), Lookup(t, key), Remove(t)])
            && NothingLeft(s, Run(created, [Write(t), StoreFails(t), Lookup(t, key), Remove(t)]), run, key)
  {
    var created := After(s, Open(t, p, run, key));
    var kept := AboutToRelease(s, t, p, run, key);
    AfterRelease(s, kept, t, p, run, key);
    TheseSteps(created, Write(t), StoreFails(t), Lookup(t, key), Remove(t));
  }

  /** The run is not stored, and its lease is about to be released. */
  lemma AboutToRelease(s: System, t: Thread, p: ProcessId, run: RunId, key: Key) returns (kept: System)
    requires Enabled(s, Open(t, p, run, key))
    ensures var created := After(s, Open(t, p, run, key));
            && Enabled(created, Write(t)) && Enabled(After(created, Write(t)), StoreFails(t))
            && kept == After(After(created, Write(t)), StoreFails(t))
    ensures var next := Acquired(Leases(s.files, s.processes[p]), key, run);
            kept == s.(keyOf := s.keyOf[run := key], files := next.files, processes := s.processes[p := next.process],
                       tasks := s.tasks[t := Task(p, Releasing(run))])
  {
    var created := After(s, Open(t, p, run, key));
    kept := After(After(created, Write(t)), StoreFails(t));
    assert s.files[key := Lease(run, false)][key := Lease(run, true)] == s.files[key := Lease(run, true)];
    assert s.tasks[t := Task(p, Opened(run))][t := Task(p, Creating(run))][t := Task(p, Releasing(run))]
        == s.tasks[t := Task(p, Releasing(run))];
  }

  lemma AfterRelease(s: System, kept: System, t: Thread, p: ProcessId, run: RunId, key: Key)
    requires Enabled(s, Open(t, p, run, key)) && run !in s.processes[p].keysByRun
    requires var next := Acquired(Leases(s.files, s.processes[p]), key, run);
             kept == s.(keyOf := s.keyOf[run := key], files := next.files, processes := s.processes[p := next.process],
                        tasks := s.tasks[t := Task(p, Releasing(run))])
    ensures Enabled(kept, Lookup(t, key)) && Enabled(After(kept, Lookup(t, key)), Remove(t))
    ensures NothingLeft(s, After(After(kept, Lookup(t, key)), Remove(t)), run, key)
  {
    ReleaseUndoesAcquire(Leases(s.files, s.processes[p]), key, run);
    var found := After(kept, Lookup(t, key));
    assert found.tasks == s.tasks[t := Task(p, ReleasingEntry(run, key))];
    assert found.tasks - {t} == s.tasks;
    assert kept.processes[p := s.processes[p]] == s.processes;
  }

  lemma TheseSteps(s: System, a: Step, b: Step, c: Step, d: Step)
    requires Enabled(s, a) && Enabled(After(s, a), b) && Enabled(After(After(s, a), b), c)
    requires Enabled(After(After(After(s, a), b), c), d)
    ensures CanRun(s, [a, b, c, d]) && Run(s, [a, b, c, d]) == After(After(After(After(s, a), b), c), d)
  {
    hide Enabled;
    hide After;
    var s1, s2, s3 := After(s, a), After(After(s, a), b), After(After(After(s, a), b), c);
    CanRunStep(s3, d, []);
    CanRunStep(s2, c, [d]);
    CanRunStep(s1, b, [c, d]);
    CanRunStep(s, a, [b, c, d]);
    assert [d] + [] == [d] && [c] + [d] == [c, d] && [b] + [c, d] == [b, c, d] && [a] + [b, c, d] == [a, b, c, d];
  }
}
