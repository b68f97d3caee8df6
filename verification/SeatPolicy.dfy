/** What runOneTask does with one claimed task: which model failures it contains
    behind a sentinel, which ones abort the drain, and what it files. */
module SeatPolicy {
  const RoleTestWriter := "test-writer"
  const RoleTestCritic := "test-critic"
  const RoleMutantGeneratorShadow := "mutant-generator-shadow"
  const RoleTestWriterShadow := "test-writer-shadow"

  const ShadowProviderFailed := "\0shadow-provider-call-failed\0"
  const WriterProviderFailed := "\0writer-provider-call-failed\0"
  const CriticIncompletePrefix := "\0critic-incomplete\0"

  const ValidTypes: set<string> :=
    {"vuln", "bug", "design-flaw", "missing-req", "regression", "note", "change-request", "ops"}
  const ValidSeverities: set<string> := {"low", "medium", "high", "critical"}

  /** A finding as the critic model returned it, or as it is filed; content
      stands for the target, evidence and suggested action, which nothing here
      changes. */
  datatype Finding = Finding(
    kind: string, severity: string, content: string,
    mission: nat, task: nat, reporter: string)

  /** How the role's model call ended. interrupted says the operator stopped
      the run, whether the error carried that or the process recorded it. */
  datatype Call =
    | Answered(result: string, findings: seq<Finding>)
    | Errored(message: string, interrupted: bool)

  /** The ways a drain can fail. */
  datatype Failure =
    | ClaimFailed
    | NoBackend(role: string)
    | Interrupted(role: string)
    | RoleFailed(role: string)
    | FindingRejected(role: string)
    | CompletionFailed(role: string)

  datatype Plan =
    | Complete(result: string, findings: seq<Finding>)
    | Abort(failure: Failure)

  predicate IsChallenger(role: string) {
    role == RoleMutantGeneratorShadow || role == RoleTestWriterShadow
  }

  /** The seats whose own failure must not cost the audit its verdict. */
  predicate Contained(role: string) {
    IsChallenger(role) || role == RoleTestWriter || role == RoleTestCritic
  }

  /** The completion text that marks a contained seat's failed call. */
  function Sentinel(role: string, message: string): (text: string)
    requires Contained(role)
    ensures role == "test-writer" ==> text == "\0writer-provider-call-failed\0"
    ensures role in {"mutant-generator-shadow", "test-writer-shadow"} ==> text == "\0shadow-provider-call-failed\0"
    ensures role == "test-critic" ==> CriticIncompletePrefix <= text && |text| >= |message|
    ensures role == "test-critic" ==> text[|text| - |message|..] == message
  {
    if IsChallenger(role) then ShadowProviderFailed
    else if role == RoleTestWriter then WriterProviderFailed
    else CriticIncompletePrefix + "the critic's model call failed: " + message
  }

  /** An unanswered call aborts the drain exactly when the operator stopped the
      run or the seat is not one of the four contained ones; a contained failure
      files nothing and finishes under the seat's own sentinel. */
  function PlanFor(role: string, call: Call): (plan: Plan)
    ensures plan.Abort? <==> call.Errored? && (call.interrupted || !Contained(role))
    ensures plan == Abort(RoleFailed(role)) ==>
              role !in {RoleTestWriter, RoleTestCritic, RoleMutantGeneratorShadow, RoleTestWriterShadow}
    ensures call.Errored? && plan.Complete? ==> plan.findings == [] && plan.result == Sentinel(role, call.message)
  {
    match call
    case Answered(result, findings) => Complete(result, findings)
    case Errored(message, interrupted) =>
      if interrupted then Abort(Interrupted(role))
      else if Contained(role) then Complete(Sentinel(role, message), [])
      else Abort(RoleFailed(role))
  }

  function Normalize(f: Finding): (g: Finding)
    ensures g.kind in ValidTypes && g.severity in ValidSeverities
    ensures f.kind in ValidTypes && f.severity in ValidSeverities ==> g == f
    ensures g.kind == f.kind || (g.kind == "note" && f.kind !in ValidTypes)
    ensures g.severity == f.severity || (g.severity == "low" && f.severity !in ValidSeverities)
    ensures g.content == f.content && g.mission == f.mission && g.task == f.task && g.reporter == f.reporter
  {
    f.(kind := if f.kind in ValidTypes then f.kind else "note",
       severity := if f.severity in ValidSeverities then f.severity else "low")
  }

  /** The queue's own check on a finding. */
  predicate Acceptable(f: Finding) {
    f.mission != 0 && f.reporter != "" && f.kind in ValidTypes && f.severity in ValidSeverities
  }

  /** Whatever the critic returned, stamping leaves the queue only one reason to
      refuse it: a run without a mission, or a task without a role. */
  function Stamp(f: Finding, mission: nat, task: nat, role: string): (g: Finding)
    ensures Acceptable(g) <==> mission != 0 && role != ""
    ensures g.mission == mission && g.task == task && g.reporter == role && g.content == f.content
  {
    Normalize(f.(mission := mission, task := task, reporter := role))
  }

  function StampAll(fs: seq<Finding>, mission: nat, task: nat, role: string): seq<Finding> {
    if fs == [] then [] else [Stamp(fs[0], mission, task, role)] + StampAll(fs[1..], mission, task, role)
  }
}
