/** The validation pipeline (internal/validation/pipeline.go) and how its result is reported to the agent
    loop (cmd/ai4se-harness/local.go, lines 167 to 184). */
module Pipeline {

  import opened Wrappers

  /** A configured command, and the observation that running it yields. */
  datatype Stage = Stage(id: string, required: bool)

  datatype Observation = Observation(code: string, exitCode: Option<int>)

  const CODE_EXIT := "EXIT"
  const CODE_START_ERROR := "START_ERROR"

  /** What an executor answers for each stage, and whether it also returned an error. */
  type Executor = nat -> (Observation, bool)

  datatype StageResult = StageResult(stage: Stage, observation: Observation, passed: bool)

  datatype Result = Result(stages: seq<StageResult>, failedStage: string, complete: bool)

  predicate Passed(o: Observation) { o.code == CODE_EXIT && o.exitCode == Some(0) }

  function Observed(executor: Executor, i: nat): Observation {
    var (o, failed) := executor(i);
    if failed && o.code == "" then o.(code := CODE_START_ERROR) else o
  }

  predicate StagePasses(executor: Executor, i: nat) { Passed(Observed(executor, i)) }

  function RunStage(stages: seq<Stage>, executor: Executor, i: nat): StageResult
    requires i < |stages|
  {
    StageResult(stages[i], Observed(executor, i), StagePasses(executor, i))
  }

  /** The stages a run considers. */
  predicate Considered(stages: seq<Stage>, requiredOnly: bool, i: nat)
    requires i < |stages|
  {
    requiredOnly ==> stages[i].required
  }

  /** The results of the considered stages from "from" up to "to". */
  function Results(stages: seq<Stage>, executor: Executor, requiredOnly: bool, from: nat, to: nat): seq<StageResult>
    requires from <= to <= |stages|
  {
    if from == to then []
    else
      Results(stages, executor, requiredOnly, from, to - 1)
      + if Considered(stages, requiredOnly, to - 1) then [RunStage(stages, executor, to - 1)] else []
  }

  predicate Fails(stages: seq<Stage>, executor: Executor, i: nat)
    requires i < |stages|
  {
    stages[i].required && !StagePasses(executor, i)
  }

  /** Stages run in order; the first required one that fails ends the run and is named, and the run is
      complete exactly when there is none. */
  method Run(stages: seq<Stage>, executor: Executor, start: int, requiredOnly: bool) returns (r: Result)
    ensures var from := if start < 0 then 0 else start;
            if exists i | from <= i < |stages| :: Fails(stages, executor, i)
            then
              exists i | from <= i < |stages| ::
                && Fails(stages, executor, i) && (forall j | from <= j < i :: !Fails(stages, executor, j))
                && r == Result(Results(stages, executor, requiredOnly, from, i + 1), stages[i].id, false)
            else r == Result(if from <= |stages| then Results(stages, executor, requiredOnly, from, |stages|) else [], "", true)
  {
    var from := if start < 0 then 0 else start;
    r := Result([], "", false);
    var i := from;
    while i < |stages|
      invariant from <= i && (from <= |stages| ==> i <= |stages|) && (from > |stages| ==> i == from)
      invariant r == Result(if i <= |stages| then Results(stages, executor, requiredOnly, from, i) else [], "", false)
      invariant forall j | from <= j < i && j < |stages| :: !Fails(stages, executor, j)
    {
      if requiredOnly && !stages[i].required {
        i := i + 1;
        continue;
      }
      var result := RunStage(stages, executor, i);
      r := r.(stages := r.stages + [result]);
      if !result.passed && result.stage.required {
        assert Fails(stages, executor, i);
        return r.(failedStage := result.stage.id);
      }
      i := i + 1;
    }
    return r.(complete := true);
  }

  /** What the loop is told: a run without stage results has not passed. */
  datatype Report = Report(stageId: string, passed: bool)

  function ReportOf(r: Result): Report {
    if |r.stages| == 0 then Report("validation", false)
    else Report(r.stages[|r.stages| - 1].stage.id, r.complete)
  }

  lemma {:induction false} SomeResult(stages: seq<Stage>, executor: Executor, requiredOnly: bool, from: nat, to: nat)
    requires from <= to <= |stages|
    ensures Results(stages, executor, requiredOnly, from, to) != [] <==>
              exists i | from <= i < to :: Considered(stages, requiredOnly, i)
  {
    if from < to {
      SomeResult(stages, executor, requiredOnly, from, to - 1);
      if Considered(stages, requiredOnly, to - 1) {
        assert from <= to - 1 < to;
      }
    }
  }

  predicate SomeRequired(stages: seq<Stage>) { exists i | 0 <= i < |stages| :: stages[i].required }

  /** The command has run and exited with status zero; whether the executor also returned an error does not matter. */
  predicate ExitsWithZero(executor: Executor, i: nat) { executor(i).0 == Observation("EXIT", Some(0)) }

  lemma PassesIffZero(executor: Executor, i: nat)
    ensures StagePasses(executor, i) <==> ExitsWithZero(executor, i)
  {
    assert CODE_START_ERROR[0] != CODE_EXIT[0];
  }

  /** Some stage is considered, and every required one exits normally with status zero. */
  ghost predicate Passes(stages: seq<Stage>, executor: Executor, requiredOnly: bool) {
    && (forall i | 0 <= i < |stages| && stages[i].required :: ExitsWithZero(executor, i))
    && if requiredOnly then SomeRequired(stages) else stages != []
  }

  /** The stage whose observation is reported: the first required one that fails, or else the last one that is
      considered. */
  ghost predicate Tells(stages: seq<Stage>, executor: Executor, requiredOnly: bool, i: nat) {
    && i < |stages| && (requiredOnly ==> stages[i].required)
    && (forall j | 0 <= j < i && stages[j].required :: ExitsWithZero(executor, j))
    && ((stages[i].required && !ExitsWithZero(executor, i))
        || forall j | i < j < |stages| :: !stages[j].required && requiredOnly)
  }

  /** The last result is that of the last stage considered. */
  lemma {:induction false} LastResult(stages: seq<Stage>, executor: Executor, requiredOnly: bool, from: nat, to: nat)
    requires from <= to <= |stages| && Results(stages, executor, requiredOnly, from, to) != []
    ensures var r := Results(stages, executor, requiredOnly, from, to);
            exists i | from <= i < to ::
              && Considered(stages, requiredOnly, i) && (forall j | i < j < to :: !Considered(stages, requiredOnly, j))
              && r[|r| - 1].stage == stages[i]
  {
    if !Considered(stages, requiredOnly, to - 1) {
      LastResult(stages, executor, requiredOnly, from, to - 1);
    } else {
      var r := Results(stages, executor, requiredOnly, from, to);
      assert r[|r| - 1].stage == stages[to - 1];
    }
  }

  lemma SomeConsidered(stages: seq<Stage>, requiredOnly: bool)
    ensures (exists i | 0 <= i < |stages| :: Considered(stages, requiredOnly, i)) <==>
              if requiredOnly then SomeRequired(stages) else stages != []
  {
    if SomeRequired(stages) {
      var i :| 0 <= i < |stages| && stages[i].required;
      assert Considered(stages, requiredOnly, i);
    }
    if !requiredOnly && stages != [] { assert Considered(stages, requiredOnly, 0); }
  }

  lemma FailureTells(stages: seq<Stage>, executor: Executor, requiredOnly: bool, i: nat)
    requires i < |stages| && Fails(stages, executor, i) && forall j | 0 <= j < i :: !Fails(stages, executor, j)
    ensures var r := Results(stages, executor, requiredOnly, 0, i + 1); r != [] && r[|r| - 1].stage == stages[i]
    ensures Tells(stages, executor, requiredOnly, i) && !Passes(stages, executor, requiredOnly) && SomeRequired(stages)
  {
    PassesIffZero(executor, i);
    forall j | 0 <= j < i && stages[j].required ensures ExitsWithZero(executor, j) {
      PassesIffZero(executor, j);
      assert !Fails(stages, executor, j);
    }
  }

  lemma CompletionTells(stages: seq<Stage>, executor: Executor, requiredOnly: bool)
    requires forall i | 0 <= i < |stages| :: !Fails(stages, executor, i)
    ensures var r := Results(stages, executor, requiredOnly, 0, |stages|);
            && (r == [] <==> stages == [] || (requiredOnly && !SomeRequired(stages)))
            && (r != [] <==> Passes(stages, executor, requiredOnly))
            && (r != [] ==> exists i: nat | i < |stages| :: Tells(stages, executor, requiredOnly, i) && r[|r| - 1].stage == stages[i])
  {
    SomeResult(stages, executor, requiredOnly, 0, |stages|);
    SomeConsidered(stages, requiredOnly);
    forall i | 0 <= i < |stages| && stages[i].required ensures ExitsWithZero(executor, i) {
      PassesIffZero(executor, i);
      assert !Fails(stages, executor, i);
    }
    if Results(stages, executor, requiredOnly, 0, |stages|) != [] { LastResult(stages, executor, requiredOnly, 0, |stages|); }
  }

  /** Baseline and final validation (requiredOnly) pass exactly when some stage is required and every
      required stage exits normally with status zero; current validation passes exactly when there is a
      stage and every required one does so. A project whose stages are all optional therefore never passes
      its final validation. The report names the stage that tells. */
  method Validate(stages: seq<Stage>, executor: Executor, requiredOnly: bool) returns (report: Report)
    ensures report.passed <==> Passes(stages, executor, requiredOnly)
    ensures if stages == [] || (requiredOnly && !SomeRequired(stages)) then report.stageId == "validation"
            else exists i: nat | i < |stages| :: Tells(stages, executor, requiredOnly, i) && report.stageId == stages[i].id
  {
    hide Tells;
    hide Passes;
    hide Fails;
    var r := Run(stages, executor, 0, requiredOnly);
    report := ReportOf(r);
    if i :| 0 <= i < |stages| && Fails(stages, executor, i) && (forall j | 0 <= j < i :: !Fails(stages, executor, j))
            && r == Result(Results(stages, executor, requiredOnly, 0, i + 1), stages[i].id, false) {
      FailureTells(stages, executor, requiredOnly, i);
    } else {
      assert forall i | 0 <= i < |stages| :: !Fails(stages, executor, i);
      CompletionTells(stages, executor, requiredOnly);
    }
  }
}
