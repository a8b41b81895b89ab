/** The policy engine and the one-shot approval store (internal/policy/policy.go, internal/policy/risk.go,
    internal/policy/approval.go). What inspecting an action's JSON arguments finds is given as facts. */
module Policy {

  import opened Wrappers

  datatype Profile = Review | Supervised | WorkspaceAuto | Unrecognized(name: string)

  datatype Kind = ListFiles | SearchText | ReadFile | ApplyPatch | CreateFile | RunCheck | Finish | Unregistered(name: string)

  /** The arguments of an action, and what classifyRisk learns about them. */
  datatype Args = Args(
    text: string,
    parses: bool,            // not empty, and valid JSON
    unsafeFact: bool,        // inspectArgs met a prohibited fact or path
    guardFact: bool,         // inspectArgs met a guarded fact or path
    checkId: Option<string>, // run_check: the only field, a string that is not empty
    payloadOk: bool,         // create_file, apply_patch: the fields and, for a patch, its headers are there
    payloadUnsafe: bool,     // a path of the payload is prohibited
    payloadGuarded: bool)    // a path of the payload is protected, or the payload is too large

  datatype Action = Action(kind: Kind, args: Args)

  datatype Context = Context(profile: Profile, dirty: bool, configuredChecks: seq<string>)

  datatype Risk = Normal | Guarded | HardDenied
  datatype Verdict = Allow | RequireApproval | Deny

  predicate IsMutation(kind: Kind) { kind.ApplyPatch? || kind.CreateFile? }

  function ClassifyRisk(ctx: Context, action: Action): Risk {
    var args := action.args;
    if action.kind.Unregistered? || !args.parses || args.unsafeFact then HardDenied
    else if action.kind.RunCheck? then
      if args.checkId.Some? && args.checkId.value in ctx.configuredChecks then Normal else HardDenied
    else if !IsMutation(action.kind) then Normal
    else if !args.payloadOk || args.payloadUnsafe then HardDenied
    else if args.guardFact || args.payloadGuarded || ctx.dirty then Guarded
    else Normal
  }

  function Evaluate(ctx: Context, action: Action): Verdict {
    var risk := ClassifyRisk(ctx, action);
    var mutation := IsMutation(action.kind);
    if risk.HardDenied? then Deny
    else if ctx.profile.WorkspaceAuto? && ctx.dirty && mutation then Deny
    else match ctx.profile
      case Review => if mutation || action.kind.RunCheck? then Deny else Allow
      case Supervised =>
        if mutation || action.kind.RunCheck? || risk.Guarded? then RequireApproval else Allow
      case WorkspaceAuto => if risk.Guarded? then RequireApproval else Allow
      case Unrecognized(_) => Deny
  }

  // ---------------------------------------------------------------- what the verdicts promise

  function Permission(v: Verdict): nat { match v case Deny => 0 case RequireApproval => 1 case Allow => 2 }

  function Under(profile: Profile, dirty: bool, checks: seq<string>, action: Action): nat {
    Permission(Evaluate(Context(profile, dirty, checks), action))
  }

  /** The profiles are ordered: review permits no more than supervised, and supervised no more than
      workspace-auto, except exactly for acceptable mutations of a dirty worktree, which supervised sends
      to approval and workspace-auto denies. */
  lemma ProfilesAreOrdered(dirty: bool, checks: seq<string>, action: Action)
    ensures Under(Review, dirty, checks, action) <= Under(Supervised, dirty, checks, action)
    ensures Under(Supervised, dirty, checks, action) <= Under(WorkspaceAuto, dirty, checks, action) <==>
              !(dirty && IsMutation(action.kind)
                && ClassifyRisk(Context(Supervised, dirty, checks), action) != HardDenied)
  {
  }

  /** No profile overrides these, whatever the kind of the action. */
  lemma HardDenials(ctx: Context, action: Action)
    requires action.kind.Unregistered? || !action.args.parses || action.args.unsafeFact
    ensures Evaluate(ctx, action) == Deny
  {
  }

  /** An action that neither changes anything nor runs a check never waits for approval, and it is allowed
      exactly if the profile is known, the arguments parse and nothing in them is prohibited. */
  lemma WhatReads(ctx: Context, action: Action)
    requires action.kind in {ListFiles, SearchText, ReadFile, Finish}
    ensures Evaluate(ctx, action) != RequireApproval
    ensures Evaluate(ctx, action) == Allow <==>
              ctx.profile in {Review, Supervised, WorkspaceAuto} && action.args.parses && !action.args.unsafeFact
  {
  }

  /** What a mutation needs in every context. A guarded one is no different under supervised, and a dirty
      worktree is the end of it under workspace-auto. */
  lemma WhatMutates(ctx: Context, action: Action)
    requires action.kind in {ApplyPatch, CreateFile}
    ensures var args := action.args;
            var acceptable := args.parses && !args.unsafeFact && args.payloadOk && !args.payloadUnsafe;
            var guarded := args.guardFact || args.payloadGuarded;
            && (Evaluate(ctx, action) == RequireApproval <==>
                  acceptable && (ctx.profile.Supervised? || (ctx.profile.WorkspaceAuto? && !ctx.dirty && guarded)))
            && (Evaluate(ctx, action) == Allow <==>
                  acceptable && ctx.profile.WorkspaceAuto? && !ctx.dirty && !guarded)
  {
  }

  /** The context in which the agent loop asks: it passes neither the configured checks nor whether the
      worktree is dirty (internal/agent/loop.go, lines 147 to 149). */
  function LoopVerdict(profile: Profile, action: Action): Verdict {
    Evaluate(Context(profile, false, []), action)
  }

  /** In the loop, exactly these actions wait for approval, and they are all mutations. */
  lemma WhatNeedsApproval(profile: Profile, action: Action)
    ensures LoopVerdict(profile, action) == RequireApproval <==>
              && IsMutation(action.kind) && action.args.parses && !action.args.unsafeFact
              && action.args.payloadOk && !action.args.payloadUnsafe
              && (profile.Supervised?
                  || (profile.WorkspaceAuto? && (action.args.guardFact || action.args.payloadGuarded)))
  {
  }

  /** In the loop, exactly these mutations go ahead without being asked about. */
  lemma WhatMutatesUnasked(profile: Profile, action: Action)
    ensures LoopVerdict(profile, action) == Allow && IsMutation(action.kind) <==>
              && profile.WorkspaceAuto? && IsMutation(action.kind) && action.args.parses
              && !action.args.unsafeFact && !action.args.guardFact
              && action.args.payloadOk && !action.args.payloadUnsafe && !action.args.payloadGuarded
  {
  }

  /** A check can run only if it is configured in the context; the loop configures none, so it denies every
      check under every profile, although supervised and workspace-auto are meant to allow them. */
  lemma ChecksNeedConfiguration(profile: Profile, dirty: bool, checks: seq<string>, action: Action)
    requires action.kind.RunCheck?
    ensures Evaluate(Context(profile, dirty, checks), action) != Deny <==>
              && (profile.Supervised? || profile.WorkspaceAuto?) && action.args.parses && !action.args.unsafeFact
              && action.args.checkId.Some? && action.args.checkId.value in checks
    ensures Evaluate(Context(profile, dirty, checks), action) == RequireApproval ==> profile.Supervised?
    ensures Evaluate(Context(profile, dirty, checks), action) == Allow ==> profile.WorkspaceAuto?
    ensures LoopVerdict(profile, action) == Deny
  {
  }

  // ---------------------------------------------------------------- the approval store

  type Digest = string

  datatype Operation = Grant(digest: Digest) | Consume(digest: Digest) | Revoke(digest: Digest)

  /** The grants after an operation; the empty digest is never granted. */
  function Granted(grants: set<Digest>, op: Operation): set<Digest> {
    match op
    case Grant(d) => if d == "" then grants else grants + {d}
    case Consume(d) => if d == "" then grants else grants - {d}
    case Revoke(d) => if d == "" then grants else grants - {d}
  }

  class ApprovalStore {
    var grants: set<Digest>

    constructor ()
      ensures grants == {}
    {
      grants := {};
    }

    method Grant(digest: Digest)
      modifies this
      ensures grants == Granted(old(grants), Operation.Grant(digest))
    {
      if digest == "" { return; }
      grants := grants + {digest};
    }

    method Consume(digest: Digest) returns (ok: bool)
      modifies this
      ensures ok <==> digest != "" && digest in old(grants)
      ensures grants == Granted(old(grants), Operation.Consume(digest))
    {
      if digest == "" { return false; }
      if digest !in grants { return false; }
      grants := grants - {digest};
      return true;
    }

    method Revoke(digest: Digest)
      modifies this
      ensures grants == Granted(old(grants), Operation.Revoke(digest))
    {
      if digest == "" { return; }
      grants := grants - {digest};
    }
  }

  function After(ops: seq<Operation>): set<Digest> {
    if ops == [] then {} else Granted(After(ops[..|ops| - 1]), ops[|ops| - 1])
  }

  /** The successful consumptions of a digest in a history of operations. */
  function Consumed(ops: seq<Operation>, d: Digest): nat {
    if ops == [] then 0
    else
      var before := ops[..|ops| - 1];
      Consumed(before, d) + if ops[|ops| - 1] == Operation.Consume(d) && d != "" && d in After(before) then 1 else 0
  }

  function Grants(ops: seq<Operation>, d: Digest): nat {
    if ops == [] then 0 else Grants(ops[..|ops| - 1], d) + if ops[|ops| - 1] == Operation.Grant(d) then 1 else 0
  }

  /** No digest is consumed more often than it was granted, and a live grant is one still to be consumed. */
  lemma {:induction false} EachGrantIsConsumedOnce(ops: seq<Operation>, d: Digest)
    ensures Consumed(ops, d) + (if d in After(ops) then 1 else 0) <= Grants(ops, d)
  {
    if ops != [] {
      EachGrantIsConsumedOnce(ops[..|ops| - 1], d);
    }
  }
}
