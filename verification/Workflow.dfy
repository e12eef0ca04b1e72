/** Workflow state, patches and the reducer (pmqa/workflow). */
module Workflow {
  import opened Wrappers
  import opened Models

  datatype WorkflowStatus = Pending | Running | Completed | Failed | Terminated

  datatype InvocationStatus = InvocationPending | InvocationRunning | InvocationCompleted | InvocationFailed

  datatype Role = Supervisor | Explorer | Validator | Knowledge

  datatype TerminationReason = GoalCompleted | MaxIterations | AgentRequested | ErrorTermination

  datatype Invocation = Invocation(agent: Role, startedAt: int, completedAt: Option<int>, status: InvocationStatus)

  datatype WorkflowState = WorkflowState(
    workflowId: string,
    workflowType: string,
    productId: string,
    productVersion: string,
    goal: string,
    status: WorkflowStatus,
    currentAgent: Option<Role>,
    nextAgent: Option<Role>,
    iteration: int,
    maxIterations: int,
    productContext: Payload,
    evidence: seq<Payload>,
    candidates: seq<Payload>,
    validations: seq<Payload>,
    traces: seq<string>,
    history: seq<Invocation>,
    warnings: seq<string>,
    errors: seq<string>,
    termination: Option<TerminationReason>,
    createdAt: int,
    updatedAt: int)

  datatype Patch = Patch(
    status: Option<WorkflowStatus>,
    currentAgent: Option<Role>,
    clearCurrentAgent: bool,
    nextAgent: Option<Role>,
    clearNextAgent: bool,
    iteration: Option<int>,
    evidence: seq<Payload>,
    candidates: seq<Payload>,
    validations: seq<Payload>,
    traces: seq<string>,
    history: seq<Invocation>,
    warnings: seq<string>,
    errors: seq<string>,
    termination: Option<TerminationReason>,
    clearTermination: bool,
    updatedAt: Option<int>)

  const EMPTY_PATCH := Patch(None, None, false, None, false, None, [], [], [], [], [], [], [], None, false, None)

  predicate IsTerminal(s: WorkflowStatus) {
    s == Completed || s == Failed || s == Terminated
  }

  predicate ValidInvocation(i: Invocation) {
    && (i.completedAt.Some? ==> i.startedAt <= i.completedAt.value)
    && (i.completedAt.Some? <==> i.status == InvocationCompleted || i.status == InvocationFailed)
  }

  predicate AllValid(history: seq<Invocation>) {
    forall i :: i in history ==> ValidInvocation(i)
  }

  /** The constructor checks of WorkflowState. */
  predicate ValidState(s: WorkflowState) {
    && s.workflowId != "" && s.workflowType != "" && s.productId != "" && s.productVersion != "" && s.goal != ""
    && 0 <= s.iteration <= s.maxIterations && 1 <= s.maxIterations
    && s.createdAt <= s.updatedAt
    && SafePayload(s.productContext) && AllSafe(s.evidence) && AllSafe(s.candidates) && AllSafe(s.validations)
    && AllValid(s.history)
  }

  /** The constructor checks of WorkflowStatePatch. */
  predicate ValidPatch(p: Patch) {
    && !(p.currentAgent.Some? && p.clearCurrentAgent)
    && !(p.nextAgent.Some? && p.clearNextAgent)
    && !(p.termination.Some? && p.clearTermination)
    && (p.status.Some? && IsTerminal(p.status.value) ==> p.termination.Some?)
    && (p.termination.Some? ==> p.status.Some? && IsTerminal(p.status.value))
    && (p.clearTermination ==> p.status.Some? && !IsTerminal(p.status.value))
    && (p.iteration.Some? ==> p.iteration.value >= 0)
    && AllSafe(p.evidence) && AllSafe(p.candidates) && AllSafe(p.validations) && AllValid(p.history)
  }

  // ----- capabilities -----

  datatype PatchField =
    | StatusField
    | CurrentAgentField
    | NextAgentField
    | IterationField
    | EvidenceField
    | CandidatesField
    | ValidationsField
    | TracesField
    | HistoryField
    | WarningsField
    | ErrorsField
    | TerminationField
    | UpdatedAtField

  predicate Requests(p: Patch, field: PatchField) {
    match field
    case StatusField => p.status.Some?
    case CurrentAgentField => p.currentAgent.Some? || p.clearCurrentAgent
    case NextAgentField => p.nextAgent.Some? || p.clearNextAgent
    case IterationField => p.iteration.Some?
    case EvidenceField => p.evidence != []
    case CandidatesField => p.candidates != []
    case ValidationsField => p.validations != []
    case TracesField => p.traces != []
    case HistoryField => p.history != []
    case WarningsField => p.warnings != []
    case ErrorsField => p.errors != []
    case TerminationField => p.termination.Some? || p.clearTermination
    case UpdatedAtField => p.updatedAt.Some?
  }

  function RequestedFields(p: Patch): set<PatchField> {
    set field | Requests(p, field)
  }

  function Include(fields: set<PatchField>, p: Patch, field: PatchField): (r: set<PatchField>)
    ensures forall f :: f in r <==> f in fields || (f == field && Requests(p, f))
  {
    if Requests(p, field) then fields + {field} else fields
  }

  /** The requested fields, collected one by one. */
  method CollectRequestedFields(p: Patch) returns (requested: set<PatchField>)
    ensures requested == RequestedFields(p)
  {
    hide Include, Requests;
    requested := Include({}, p, StatusField);
    requested := Include(requested, p, CurrentAgentField);
    requested := Include(requested, p, NextAgentField);
    requested := Include(requested, p, IterationField);
    requested := Include(requested, p, EvidenceField);
    requested := Include(requested, p, CandidatesField);
    requested := Include(requested, p, ValidationsField);
    requested := Include(requested, p, TracesField);
    requested := Include(requested, p, HistoryField);
    requested := Include(requested, p, WarningsField);
    requested := Include(requested, p, ErrorsField);
    requested := Include(requested, p, TerminationField);
    requested := Include(requested, p, UpdatedAtField);
    forall f ensures f in requested <==> Requests(p, f) {
      match f
      case StatusField =>
      case CurrentAgentField =>
      case NextAgentField =>
      case IterationField =>
      case EvidenceField =>
      case CandidatesField =>
      case ValidationsField =>
      case TracesField =>
      case HistoryField =>
      case WarningsField =>
      case ErrorsField =>
      case TerminationField =>
      case UpdatedAtField =>
    }
  }

  const COMMON_FIELDS := {TracesField, HistoryField, WarningsField, ErrorsField, UpdatedAtField}

  function AllowedFields(role: Role): set<PatchField> {
    match role
    case Supervisor =>
      {StatusField, CurrentAgentField, NextAgentField, IterationField, TerminationField,
       HistoryField, WarningsField, ErrorsField, UpdatedAtField}
    case Explorer => COMMON_FIELDS + {EvidenceField}
    case Knowledge => COMMON_FIELDS + {CandidatesField}
    case Validator => COMMON_FIELDS + {ValidationsField}
  }

  predicate PatchAllowed(role: Role, p: Patch) {
    RequestedFields(p) <= AllowedFields(role)
  }

  // ----- reducer -----

  datatype ReducerError =
    | IterationDecreased
    | IterationExceeded
    | UpdatedAtPrecedes
    | InvalidCandidate
    | TerminationMismatch
    | RoutingNotCleared
    | TerminalChanged

  function Replace<T>(existing: Option<T>, replacement: Option<T>, clear: bool): Option<T> {
    if clear then None else if replacement.Some? then replacement else existing
  }

  function OrElse<T>(value: Option<T>, existing: T): T {
    if value.Some? then value.value else existing
  }

  /** The state a patch asks for, before any check. */
  function Patched(s: WorkflowState, p: Patch): WorkflowState {
    s.(status := OrElse(p.status, s.status),
       currentAgent := Replace(s.currentAgent, p.currentAgent, p.clearCurrentAgent),
       nextAgent := Replace(s.nextAgent, p.nextAgent, p.clearNextAgent),
       iteration := OrElse(p.iteration, s.iteration),
       evidence := s.evidence + p.evidence,
       candidates := s.candidates + p.candidates,
       validations := s.validations + p.validations,
       traces := s.traces + p.traces,
       history := s.history + p.history,
       warnings := s.warnings + p.warnings,
       errors := s.errors + p.errors,
       termination := Replace(s.termination, p.termination, p.clearTermination),
       updatedAt := OrElse(p.updatedAt, s.updatedAt))
  }

  function ApplyPatch(s: WorkflowState, p: Patch): Result<WorkflowState, ReducerError> {
    var c := Patched(s, p);
    if c.iteration < s.iteration then Err(IterationDecreased)
    else if c.iteration > s.maxIterations then Err(IterationExceeded)
    else if c.updatedAt < s.updatedAt then Err(UpdatedAtPrecedes)
    else if !ValidState(c) then Err(InvalidCandidate)
    else if IsTerminal(c.status) != c.termination.Some? then Err(TerminationMismatch)
    else if IsTerminal(c.status) && (c.currentAgent.Some? || c.nextAgent.Some?) then Err(RoutingNotCleared)
    else if IsTerminal(s.status) && c != s then Err(TerminalChanged)
    else Ok(c)
  }

  /** What any accepted change keeps: identity fields are constant, collections grow only at
      their end, iteration and update time never decrease, iteration stays within its maximum. */
  predicate Evolves(s: WorkflowState, t: WorkflowState) {
    && t.workflowId == s.workflowId && t.workflowType == s.workflowType && t.productId == s.productId
    && t.productVersion == s.productVersion && t.goal == s.goal && t.maxIterations == s.maxIterations
    && t.productContext == s.productContext && t.createdAt == s.createdAt
    && s.evidence <= t.evidence && s.candidates <= t.candidates && s.validations <= t.validations
    && s.traces <= t.traces && s.history <= t.history && s.warnings <= t.warnings && s.errors <= t.errors
    && s.iteration <= t.iteration <= t.maxIterations
    && s.updatedAt <= t.updatedAt
    && (IsTerminal(s.status) ==> t == s)
  }

  /** Every accepted patch evolves the state into a valid one, and a terminal state into itself. */
  lemma AcceptedPatchEvolves(s: WorkflowState, p: Patch)
    requires ApplyPatch(s, p).Ok?
    ensures Evolves(s, ApplyPatch(s, p).value) && ValidState(ApplyPatch(s, p).value)
    ensures var t := ApplyPatch(s, p).value;
            IsTerminal(t.status) ==> t.termination.Some? && t.currentAgent.None? && t.nextAgent.None?
  {}

  lemma EvolvesTransitive(s: WorkflowState, t: WorkflowState, u: WorkflowState)
    requires Evolves(s, t) && Evolves(t, u)
    ensures Evolves(s, u)
  {}

  /** A patch within an agent role's policy extends only the collection that role owns. */
  lemma AllowedPatchOwnsCollection(role: Role, p: Patch)
    requires PatchAllowed(role, p)
    ensures p.evidence != [] ==> role == Explorer
    ensures p.candidates != [] ==> role == Knowledge
    ensures p.validations != [] ==> role == Validator
    ensures role != Supervisor ==>
              p.status.None? && p.currentAgent.None? && !p.clearCurrentAgent && p.nextAgent.None? && !p.clearNextAgent
              && p.iteration.None? && p.termination.None? && !p.clearTermination
  {
    assert forall field :: Requests(p, field) ==> field in RequestedFields(p);
    assert Requests(p, EvidenceField) ==> EvidenceField in AllowedFields(role);
    assert Requests(p, CandidatesField) ==> CandidatesField in AllowedFields(role);
    assert Requests(p, ValidationsField) ==> ValidationsField in AllowedFields(role);
    assert Requests(p, StatusField) ==> StatusField in AllowedFields(role);
    assert Requests(p, CurrentAgentField) ==> CurrentAgentField in AllowedFields(role);
    assert Requests(p, NextAgentField) ==> NextAgentField in AllowedFields(role);
    assert Requests(p, IterationField) ==> IterationField in AllowedFields(role);
    assert Requests(p, TerminationField) ==> TerminationField in AllowedFields(role);
  }
}
