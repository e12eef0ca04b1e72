/** The supervisor policy (pmqa/supervisor/policy.py): the next action is inferred from the
    append-only history and from which collections are empty. */
module SupervisorPolicy {
  import opened Wrappers
  import opened Models
  import opened Workflow

  datatype Action = ExecuteAgent | CompleteWorkflow | FailWorkflow | TerminateWorkflow

  datatype Reason =
    | WorkflowPending
    | ExplorationRequired
    | KnowledgeRequired
    | ValidationRequired
    | ValidationPassed
    | ValidationFailed
    | MaxIterationsReached
    | WorkflowError
    | AlreadyTerminal

  datatype Decision = Decision(workflowId: string, action: Action, selected: Option<Role>, reason: Reason, patch: Patch)

  datatype PolicyError =
    | UnexpectedTermination
    | ConflictingRouting
    | PendingRouting
    | CandidatesWithoutEvidence
    | ValidationsWithoutCandidates
    | MissingStatus
    | StatusNotText
    | UnsupportedStatus
    | ResultWithoutValidator
    | ValidatorWithoutResult
    | ContinuedAfterPass
    | FailedInvocation
    | IncompleteInvocation
    | WrongRecoverySequence

  // ----- decisions -----

  function AgentDecision(s: WorkflowState, agent: Role, reason: Reason): Decision {
    Decision(s.workflowId, ExecuteAgent, Some(agent), reason,
             EMPTY_PATCH.(status := Some(Running), clearCurrentAgent := true, nextAgent := Some(agent),
                          clearTermination := true))
  }

  function TerminalDecision(s: WorkflowState, action: Action, reason: Reason, status: WorkflowStatus,
                            why: TerminationReason): Decision {
    Decision(s.workflowId, action, None, reason,
             EMPTY_PATCH.(status := Some(status), clearCurrentAgent := true, clearNextAgent := true,
                          termination := Some(why)))
  }

  function ExplorerOrLimit(s: WorkflowState, reason: Reason): Decision {
    if s.iteration >= s.maxIterations then
      TerminalDecision(s, TerminateWorkflow, MaxIterationsReached, Terminated, MaxIterations)
    else AgentDecision(s, Explorer, reason)
  }

  // ----- validation history -----

  function ValidationStatus(p: Payload): Result<bool, PolicyError> {
    match StatusOf(p)
    case NoStatus => Err(MissingStatus)
    case OtherStatus => Err(StatusNotText)
    case TextStatus(s) => if s == "passed" then Ok(true) else if s == "failed" then Ok(false)
      else Err(UnsupportedStatus)
  }

  predicate IsVerdict(p: Payload) {
    StatusOf(p) == TextStatus("passed") || StatusOf(p) == TextStatus("failed")
  }

  predicate Passed(p: Payload) {
    StatusOf(p) == TextStatus("passed")
  }

  predicate FailedVerdict(p: Payload) {
    StatusOf(p) == TextStatus("failed")
  }

  function Statuses(results: seq<Payload>): (r: Result<seq<bool>, PolicyError>)
    ensures r.Ok? ==> |r.value| == |results| && forall i :: 0 <= i < |results| ==>
            ValidationStatus(results[i]) == Ok(r.value[i])
  {
    if results == [] then Ok([])
    else
      match Statuses(results[..|results| - 1])
      case Err(e) => Err(e)
      case Ok(init) =>
        match ValidationStatus(results[|results| - 1])
        case Err(e) => Err(e)
        case Ok(b) => Ok(init + [b])
  }

  predicate IsCompletedValidator(i: Invocation) {
    i.agent == Validator && i.status == InvocationCompleted
  }

  /** Positions of the completed Validator invocations, in order. */
  function CompletedValidators(h: seq<Invocation>): (r: seq<nat>)
    ensures forall i :: 0 <= i < |r| ==> r[i] < |h| && IsCompletedValidator(h[r[i]])
    ensures forall i, j :: 0 <= i < j < |r| ==> r[i] < r[j]
  {
    if h == [] then []
    else
      var r := CompletedValidators(h[..|h| - 1]);
      if IsCompletedValidator(h[|h| - 1]) then r + [|h| - 1] else r
  }

  predicate IsRelevant(i: Invocation) {
    i.agent == Explorer || i.agent == Knowledge || i.agent == Validator
  }

  /** Roles of the relevant invocations, when all of them completed. */
  function RecoveryRoles(h: seq<Invocation>): Result<seq<Role>, PolicyError> {
    if h == [] then Ok([])
    else
      match RecoveryRoles(h[..|h| - 1])
      case Err(e) => Err(e)
      case Ok(roles) =>
        var i := h[|h| - 1];
        if !IsRelevant(i) then Ok(roles)
        else if i.status == InvocationFailed then Err(FailedInvocation)
        else if i.status != InvocationCompleted then Err(IncompleteInvocation)
        else Ok(roles + [i.agent])
  }

  lemma {:induction false} RolesPrefixFails(h: seq<Invocation>, i: nat)
    requires i <= |h| && RecoveryRoles(h[..i]).Err?
    ensures RecoveryRoles(h) == Err(RecoveryRoles(h[..i]).error)
    decreases |h|
  {
    if i < |h| {
      assert h[..|h| - 1][..i] == h[..i];
      RolesPrefixFails(h[..|h| - 1], i);
    } else {
      assert h[..i] == h;
    }
  }

  /** The loop over the invocations. */
  method CollectRecoveryRoles(h: seq<Invocation>) returns (r: Result<seq<Role>, PolicyError>)
    ensures r == RecoveryRoles(h)
  {
    var roles: seq<Role> := [];
    for i := 0 to |h|
      invariant RecoveryRoles(h[..i]) == Ok(roles)
    {
      assert h[..i + 1][..i] == h[..i];
      if IsRelevant(h[i]) {
        if h[i].status == InvocationFailed {
          RolesPrefixFails(h, i + 1);
          return Err(FailedInvocation);
        }
        if h[i].status != InvocationCompleted {
          RolesPrefixFails(h, i + 1);
          return Err(IncompleteInvocation);
        }
        roles := roles + [h[i].agent];
      }
    }
    assert h[..|h|] == h;
    r := Ok(roles);
  }

  const CYCLE := [Explorer, Knowledge, Validator]

  /** The role of the n-th call when the cycle repeats forever. */
  function Cycle(n: nat): Role {
    if n % 3 == 0 then Explorer else if n % 3 == 1 then Knowledge else Validator
  }

  lemma CycleShift(k: nat, i: nat)
    ensures Cycle(3 * k + i) == Cycle(i)
  {}

  /** One complete recovery cycle between two results. */
  function RequireCycle(h: seq<Invocation>): Option<PolicyError> {
    match RecoveryRoles(h)
    case Err(e) => Some(e)
    case Ok(roles) => if roles != CYCLE then Some(WrongRecoverySequence) else None
  }

  /** The first error among the cycles that end at the completed Validators 1..n. */
  function CyclesError(h: seq<Invocation>, indexes: seq<nat>, n: nat): Option<PolicyError>
    requires n < |indexes| && forall i :: 0 <= i < |indexes| ==> indexes[i] < |h|
    requires forall i, j :: 0 <= i < j < |indexes| ==> indexes[i] < indexes[j]
  {
    if n == 0 then None
    else
      var earlier := CyclesError(h, indexes, n - 1);
      if earlier.Some? then earlier else RequireCycle(h[indexes[n - 1] + 1..indexes[n] + 1])
  }

  function HistoryError(s: WorkflowState): Option<PolicyError>
    requires s.validations != []
  {
    var indexes := CompletedValidators(s.history);
    var statuses := Statuses(s.validations);
    if |indexes| < |s.validations| then Some(ResultWithoutValidator)
    else if |indexes| > |s.validations| then Some(ValidatorWithoutResult)
    else if statuses.Err? then Some(statuses.error)
    else if true in statuses.value[..|statuses.value| - 1] then Some(ContinuedAfterPass)
    else CyclesError(s.history, indexes, |s.validations| - 1)
  }

  function DecideRecovery(s: WorkflowState, indexes: seq<nat>): Result<Decision, PolicyError>
    requires indexes != [] && indexes[|indexes| - 1] < |s.history|
  {
    match RecoveryRoles(s.history[indexes[|indexes| - 1] + 1..])
    case Err(e) => Err(e)
    case Ok(roles) =>
      if |roles| >= |CYCLE| || roles != CYCLE[..|roles|] then Err(WrongRecoverySequence)
      else if |roles| == 0 then Ok(ExplorerOrLimit(s, ValidationFailed))
      else if |roles| == 1 then Ok(AgentDecision(s, Knowledge, KnowledgeRequired))
      else Ok(AgentDecision(s, Validator, ValidationRequired))
  }

  // ----- the policy -----

  function LifecycleError(s: WorkflowState): Option<PolicyError> {
    if s.termination.Some? then Some(UnexpectedTermination)
    else if s.currentAgent.Some? && s.nextAgent.Some? then Some(ConflictingRouting)
    else if s.status == Pending && (s.currentAgent.Some? || s.nextAgent.Some?) then Some(PendingRouting)
    else None
  }

  function DependencyError(s: WorkflowState): Option<PolicyError> {
    if s.candidates != [] && s.evidence == [] then Some(CandidatesWithoutEvidence)
    else if s.validations != [] && s.candidates == [] then Some(ValidationsWithoutCandidates)
    else None
  }

  function TerminalAction(status: WorkflowStatus): Action
    requires IsTerminal(status)
  {
    match status
    case Completed => CompleteWorkflow
    case Failed => FailWorkflow
    case _ => TerminateWorkflow
  }

  function DecideNextAction(s: WorkflowState): Result<Decision, PolicyError> {
    if IsTerminal(s.status) then
      Ok(Decision(s.workflowId, TerminalAction(s.status), None, AlreadyTerminal, EMPTY_PATCH))
    else if LifecycleError(s).Some? then Err(LifecycleError(s).value)
    else if s.errors != [] then
      Ok(TerminalDecision(s, FailWorkflow, WorkflowError, Failed, ErrorTermination))
    else if DependencyError(s).Some? then Err(DependencyError(s).value)
    else if s.evidence == [] then
      Ok(ExplorerOrLimit(s, if s.status == Pending then WorkflowPending else ExplorationRequired))
    else if s.candidates == [] then Ok(AgentDecision(s, Knowledge, KnowledgeRequired))
    else if s.validations == [] then Ok(AgentDecision(s, Validator, ValidationRequired))
    else if HistoryError(s).Some? then Err(HistoryError(s).value)
    else
      match ValidationStatus(s.validations[|s.validations| - 1])
      case Err(e) => Err(e)
      case Ok(true) => Ok(TerminalDecision(s, CompleteWorkflow, ValidationPassed, Completed, GoalCompleted))
      case Ok(false) => DecideRecovery(s, CompletedValidators(s.history))
  }

  /** The constructor checks of a routing decision. */
  predicate ValidDecision(d: Decision) {
    if d.reason == AlreadyTerminal then d.selected.None? && d.patch == EMPTY_PATCH
    else if d.action == ExecuteAgent then
      d.selected.Some? && d.patch.status == Some(Running) && d.patch.nextAgent == d.selected
        && d.patch.clearCurrentAgent
    else
      && d.selected.None? && d.patch.clearCurrentAgent && d.patch.clearNextAgent
      && (d.action == CompleteWorkflow ==>
          d.patch.status == Some(Completed) && d.patch.termination == Some(GoalCompleted))
      && (d.action == FailWorkflow ==> d.patch.status == Some(Failed) && d.patch.termination == Some(ErrorTermination))
      && (d.action == TerminateWorkflow ==>
          d.patch.status == Some(Terminated) && d.patch.termination == Some(MaxIterations))
  }

  predicate Routes(d: Decision, s: WorkflowState) {
    d.selected.Some? && d.selected.value in CYCLE && d == AgentDecision(s, d.selected.value, d.reason)
    && d.reason != AlreadyTerminal
  }

  predicate Stops(d: Decision, s: WorkflowState) {
    || d == TerminalDecision(s, CompleteWorkflow, ValidationPassed, Completed, GoalCompleted)
    || d == TerminalDecision(s, FailWorkflow, WorkflowError, Failed, ErrorTermination)
    || d == TerminalDecision(s, TerminateWorkflow, MaxIterationsReached, Terminated, MaxIterations)
  }

  /** A decision on a running workflow either routes to one executable agent or stops. */
  lemma DecisionShape(s: WorkflowState)
    requires DecideNextAction(s).Ok? && !IsTerminal(s.status)
    ensures Routes(DecideNextAction(s).value, s) || Stops(DecideNextAction(s).value, s)
  {
    hide CompletedValidators, HistoryError, RecoveryRoles, ValidationStatus;
    assert CYCLE[0] == Explorer && CYCLE[1] == Knowledge && CYCLE[2] == Validator;
  }

  lemma PatchedCollections(s: WorkflowState, d: Decision)
    requires Routes(d, s) || Stops(d, s)
    ensures var t := Patched(s, d.patch);
            t == s.(status := d.patch.status.value, currentAgent := None,
                    nextAgent := if Routes(d, s) then d.selected else None,
                    termination := if Routes(d, s) then None else d.patch.termination)
  {
    assert s.evidence + [] == s.evidence && s.candidates + [] == s.candidates && s.validations + [] == s.validations;
    assert s.traces + [] == s.traces && s.history + [] == s.history && s.warnings + [] == s.warnings
      && s.errors + [] == s.errors;
  }

  /** Every decision passes its own contract, and the reducer accepts its patch. */
  lemma DecisionsApply(s: WorkflowState)
    requires ValidState(s) && DecideNextAction(s).Ok?
    requires IsTerminal(s.status) ==> s.termination.Some? && s.currentAgent.None? && s.nextAgent.None?
    ensures var d := DecideNextAction(s).value;
            ValidDecision(d) && ValidPatch(d.patch) && ApplyPatch(s, d.patch) == Ok(Patched(s, d.patch))
  {
    var d := DecideNextAction(s).value;
    if IsTerminal(s.status) {
      EmptyPatchKeeps(s);
    } else {
      DecisionShape(s);
      hide DecideNextAction;
      ShapeApplies(s, d);
    }
  }

  lemma ShapeApplies(s: WorkflowState, d: Decision)
    requires ValidState(s) && !IsTerminal(s.status) && (Routes(d, s) || Stops(d, s))
    ensures ValidDecision(d) && ValidPatch(d.patch) && ApplyPatch(s, d.patch) == Ok(Patched(s, d.patch))
  {
    hide AllSafe, AllValid, SafePayload;
    PatchedCollections(s, d);
    NothingUnsafe();
    hide Patched;
  }

  lemma NothingUnsafe()
    ensures AllSafe([]) && AllValid([])
  {}

  lemma EmptyPatchKeeps(s: WorkflowState)
    ensures Patched(s, EMPTY_PATCH) == s
  {
    assert s.evidence + [] == s.evidence && s.candidates + [] == s.candidates && s.validations + [] == s.validations;
    assert s.traces + [] == s.traces && s.history + [] == s.history && s.warnings + [] == s.warnings
      && s.errors + [] == s.errors;
  }
}
