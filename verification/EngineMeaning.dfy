/** What the reducer, the supervisor and one agent call do, written out on the fields of states,
    patches and answers (pmqa/workflow/reducer.py, pmqa/supervisor/policy.py,
    pmqa/runtime/runtime.py). */
module EngineMeaning {
  import opened Wrappers
  import opened Models
  import opened Workflow
  import opened SupervisorPolicy
  import opened Engine

  // ----- the reducer -----

  /** Completed, failed and terminated workflows have ended. */
  predicate Over(s: WorkflowState) {
    s.status == Completed || s.status == Failed || s.status == Terminated
  }

  /** The value a patch gives a routing field. */
  predicate Sets<T(==)>(before: Option<T>, value: Option<T>, clear: bool, after: Option<T>) {
    (clear ==> after == None) && (!clear && value.Some? ==> after == value) && (!clear && value.None? ==>
                                                                                after == before)
  }

  predicate SetsTo<T(==)>(before: T, value: Option<T>, after: T) {
    (value.Some? ==> after == value.value) && (value.None? ==> after == before)
  }

  /** State t is what patch p makes of state s, field by field. */
  predicate Reduced(s: WorkflowState, p: Patch, t: WorkflowState) {
    && t.workflowId == s.workflowId && t.workflowType == s.workflowType && t.productId == s.productId
    && t.productVersion == s.productVersion && t.goal == s.goal && t.maxIterations == s.maxIterations
    && t.productContext == s.productContext && t.createdAt == s.createdAt
    && SetsTo(s.status, p.status, t.status) && SetsTo(s.iteration, p.iteration, t.iteration)
    && SetsTo(s.updatedAt, p.updatedAt, t.updatedAt)
    && Sets(s.currentAgent, p.currentAgent, p.clearCurrentAgent, t.currentAgent)
    && Sets(s.nextAgent, p.nextAgent, p.clearNextAgent, t.nextAgent)
    && Sets(s.termination, p.termination, p.clearTermination, t.termination)
    && t.evidence == s.evidence + p.evidence && t.candidates == s.candidates + p.candidates
    && t.validations == s.validations + p.validations && t.traces == s.traces + p.traces
    && t.history == s.history + p.history && t.warnings == s.warnings + p.warnings && t.errors == s.errors + p.errors
  }

  /** What the reducer demands of the state it would produce. */
  predicate Admissible(s: WorkflowState, t: WorkflowState) {
    && s.iteration <= t.iteration <= s.maxIterations && s.updatedAt <= t.updatedAt && ValidState(t)
    && (Over(t) <==> t.termination.Some?)
    && (Over(t) ==> t.currentAgent.None? && t.nextAgent.None?)
    && (Over(s) ==> t == s)
  }

  /** The reducer accepts a patch exactly when the state it asks for is admissible, and then
      produces that state. */
  lemma ReducesExactly(s: WorkflowState, p: Patch, t: WorkflowState)
    ensures ApplyPatch(s, p) == Ok(t) <==> Reduced(s, p, t) && Admissible(s, t)
  {
    hide ValidState;
    if Reduced(s, p, t) {
      assert t == Patched(s, p);
    }
  }

  /** And it names the first demand that is not met. */
  lemma ReducerErrors(s: WorkflowState, p: Patch, t: WorkflowState)
    requires Reduced(s, p, t)
    ensures var r := ApplyPatch(s, p);
            if t.iteration < s.iteration then r == Err(IterationDecreased)
            else if t.iteration > s.maxIterations then r == Err(IterationExceeded)
            else if t.updatedAt < s.updatedAt then r == Err(UpdatedAtPrecedes)
            else if !ValidState(t) then r == Err(InvalidCandidate)
            else if Over(t) != t.termination.Some? then r == Err(TerminationMismatch)
            else if Over(t) && (t.currentAgent.Some? || t.nextAgent.Some?) then r == Err(RoutingNotCleared)
            else if Over(s) && t != s then r == Err(TerminalChanged)
            else r == Ok(t)
  {
    hide ValidState;
    assert t == Patched(s, p);
  }

  // ----- one agent call -----

  /** An agent of a role may extend its own collection, and record traces, history, warnings,
      errors and the update time; nothing else. */
  predicate Permitted(role: Role, p: Patch) {
    && p.status.None? && p.currentAgent.None? && !p.clearCurrentAgent && p.nextAgent.None? && !p.clearNextAgent
    && p.iteration.None? && p.termination.None? && !p.clearTermination
    && (role != Explorer ==> p.evidence == []) && (role != Knowledge ==> p.candidates == [])
    && (role != Validator ==> p.validations == [])
  }

  lemma PermittedExactly(role: Role, p: Patch)
    requires role != Supervisor
    ensures PatchAllowed(role, p) <==> Permitted(role, p)
  {
    if PatchAllowed(role, p) {
      AllowedPatchOwnsCollection(role, p);
    }
    if Permitted(role, p) {
      forall f | Requests(p, f) ensures f in AllowedFields(role) {
        match f
        case StatusField =>
        case CurrentAgentField =>
        case NextAgentField =>
        case IterationField =>
        case EvidenceField =>
        case CandidatesField =>
        case ValidationsField =>
        case TracesField =>
        case HistoryField =>
        case WarningsField =>
        case ErrorsField =>
        case TerminationField =>
        case UpdatedAtField =>
      }
    }
  }

  /** What the answer to a call must be: given, well-formed, within its role's permissions, from
      the called agent, for this very workflow and invocation, and not dated before the request. */
  predicate Answers(w: WorkflowState, role: Role, id: InvocationId, requestedAt: int, reply: Reply) {
    && reply.Some?
    && ValidPatch(reply.value.patch) && Permitted(role, reply.value.patch)
    && reply.value.agent == role && reply.value.workflowId == w.workflowId
    && reply.value.invocationId == id && reply.value.completedAt >= requestedAt
  }

  /** A call of an agent with its role's own capabilities succeeds exactly when its answer is
      acceptable and the reducer accepts its patch, and then makes the state the patch asks for. */
  lemma CallSucceedsExactly(w: WorkflowState, role: Role, id: InvocationId, requestedAt: int, reply: Reply,
                            t: WorkflowState)
    requires role != Supervisor
    ensures ExecuteOne(w, Agent(role, role, AllowedFields(role)), id, requestedAt, reply) == Ok(t) <==>
              Answers(w, role, id, requestedAt, reply)
              && Reduced(w, reply.value.patch, t) && Admissible(w, t)
  {
    if reply.Some? {
      PermittedExactly(role, reply.value.patch);
      ReducesExactly(w, reply.value.patch, t);
    }
    hide ValidPatch, Permitted, Reduced, Admissible, ApplyPatch, AllowedFields, RequestedFields;
  }

  /** Every field a patch asks for is among these. */
  predicate AsksWithin(fields: set<PatchField>, p: Patch) {
    && (p.status.Some? ==> StatusField in fields)
    && (p.currentAgent.Some? || p.clearCurrentAgent ==> CurrentAgentField in fields)
    && (p.nextAgent.Some? || p.clearNextAgent ==> NextAgentField in fields)
    && (p.iteration.Some? ==> IterationField in fields)
    && (p.evidence != [] ==> EvidenceField in fields) && (p.candidates != [] ==> CandidatesField in fields)
    && (p.validations != [] ==> ValidationsField in fields) && (p.traces != [] ==> TracesField in fields)
    && (p.history != [] ==> HistoryField in fields) && (p.warnings != [] ==> WarningsField in fields)
    && (p.errors != [] ==> ErrorsField in fields)
    && (p.termination.Some? || p.clearTermination ==> TerminationField in fields)
    && (p.updatedAt.Some? ==> UpdatedAtField in fields)
  }

  lemma AsksWithinExactly(fields: set<PatchField>, p: Patch)
    ensures RequestedFields(p) <= fields <==> AsksWithin(fields, p)
  {
    if AsksWithin(fields, p) {
      forall f | f in RequestedFields(p) ensures f in fields {
        match f
        case StatusField =>
        case CurrentAgentField =>
        case NextAgentField =>
        case IterationField =>
        case EvidenceField =>
        case CandidatesField =>
        case ValidationsField =>
        case TracesField =>
        case HistoryField =>
        case WarningsField =>
        case ErrorsField =>
        case TerminationField =>
        case UpdatedAtField =>
      }
    } else if RequestedFields(p) <= fields {
      assert forall f :: Requests(p, f) ==> f in RequestedFields(p);
    }
  }

  /** A call of an agent with any declared capabilities succeeds exactly when they are declared for
      its own role, its answer is acceptable and within them, and the reducer accepts its patch. */
  lemma AnyCallSucceedsExactly(w: WorkflowState, agent: Agent, id: InvocationId, requestedAt: int, reply: Reply,
                               t: WorkflowState)
    requires agent.role != Supervisor
    ensures ExecuteOne(w, agent, id, requestedAt, reply) == Ok(t) <==>
              && agent.capabilityRole == agent.role && Answers(w, agent.role, id, requestedAt, reply)
              && AsksWithin(agent.allowed, reply.value.patch)
              && Reduced(w, reply.value.patch, t) && Admissible(w, t)
  {
    if reply.Some? {
      PermittedExactly(agent.role, reply.value.patch);
      ReducesExactly(w, reply.value.patch, t);
      AsksWithinExactly(agent.allowed, reply.value.patch);
    }
    hide ValidPatch, Permitted, Reduced, Admissible, ApplyPatch, AllowedFields, RequestedFields, AsksWithin;
  }

  /** An answer that is not accepted is refused for the first of these reasons. */
  lemma CallErrors(w: WorkflowState, agent: Agent, id: InvocationId, requestedAt: int, reply: Reply)
    requires agent.role != Supervisor
    requires reply.Some? ==> reply.value.agent == agent.role
    ensures var r := ExecuteOne(w, agent, id, requestedAt, reply);
            if agent.capabilityRole != agent.role then r == Err(CapabilityMismatch)
            else if reply.None? then r == Err(AgentRaised)
            else if !ValidPatch(reply.value.patch) || !Permitted(agent.role, reply.value.patch)
              then r == Err(InvalidResult)
            else if reply.value.workflowId != w.workflowId || reply.value.invocationId != id
              || reply.value.completedAt < requestedAt then r == Err(ResultMismatch)
            else if !AsksWithin(agent.allowed, reply.value.patch) then r == Err(ExceedsCapabilities)
            else r.Ok? || r.error.ReducerFailed?
  {
    if reply.Some? {
      PermittedExactly(agent.role, reply.value.patch);
      AsksWithinExactly(agent.allowed, reply.value.patch);
    }
    hide ValidPatch, Permitted, ApplyPatch, AllowedFields, RequestedFields, AsksWithin;
  }

  /** What a whole execution of the selected agent demands of its answer, and what it leaves: the
      answer is for the workflow, and for its next iteration if it is the Explorer's; the state
      afterwards is the answer's patch on top of the state before, with the routing cleared. */
  predicate Executed(w: WorkflowState, role: Role, reply: Reply, t: WorkflowState) {
    && reply.Some? && reply.value.agent == role && reply.value.workflowId == w.workflowId
    && reply.value.invocationId
       == InvocationId(w.workflowId, if role == Explorer then w.iteration + 1 else w.iteration, role)
    && reply.value.completedAt >= w.updatedAt
    && Permitted(role, reply.value.patch)
    && t.currentAgent.None? && t.nextAgent.None?
    && t.iteration == (if role == Explorer then w.iteration + 1 else w.iteration)
    && t.status == w.status && t.termination == w.termination
    && t.evidence == w.evidence + reply.value.patch.evidence
    && t.candidates == w.candidates + reply.value.patch.candidates
    && t.validations == w.validations + reply.value.patch.validations
    && t.history == w.history + reply.value.patch.history && t.errors == w.errors + reply.value.patch.errors
    && t.warnings == w.warnings + reply.value.patch.warnings && t.traces == w.traces + reply.value.patch.traces
    && SetsTo(w.updatedAt, reply.value.patch.updatedAt, t.updatedAt)
    && !Over(w)
  }

  lemma EntryFields(w: WorkflowState, role: Role, e: WorkflowState)
    requires ApplyPatch(w, EntryPatch(w, role)) == Ok(e)
    ensures e == w.(currentAgent := Some(role), nextAgent := None,
                    iteration := if role == Explorer then w.iteration + 1 else w.iteration)
    ensures !Over(w)
  {
    hide ValidState;
    assert w.evidence + [] == w.evidence && w.candidates + [] == w.candidates && w.validations + [] == w.validations;
    assert w.traces + [] == w.traces && w.history + [] == w.history && w.warnings + [] == w.warnings
      && w.errors + [] == w.errors;
  }

  lemma ExitFields(w: WorkflowState, t: WorkflowState)
    requires ApplyPatch(w, EXIT_PATCH) == Ok(t)
    ensures t == w.(currentAgent := None)
  {
    hide ValidState;
    assert w.evidence + [] == w.evidence && w.candidates + [] == w.candidates && w.validations + [] == w.validations;
    assert w.traces + [] == w.traces && w.history + [] == w.history && w.warnings + [] == w.warnings
      && w.errors + [] == w.errors;
  }

  /** Every execution that succeeds is of that kind, whatever the agents answer. */
  lemma ExecutionMeans(agents: map<Role, Agent>, gs: GraphState, reply: Reply)
    requires ExecuteNode(agents, gs, reply).Ok? && ValidAgents(agents)
    ensures gs.selected.Some? && gs.selected.value != Supervisor
    ensures var next := ExecuteNode(agents, gs, reply).value;
            && Executed(gs.workflow, gs.selected.value, reply, next.workflow)
            && next.action.None? && next.selected.None?
  {
    var role, w := gs.selected.value, gs.workflow;
    var e := ApplyPatch(w, EntryPatch(w, role)).value;
    var id := InvocationId(e.workflowId, e.iteration, role);
    var a := ExecuteOne(e, agents[role], id, e.updatedAt, reply).value;
    var t := ApplyPatch(a, EXIT_PATCH).value;
    hide ApplyPatch, EntryPatch, ValidPatch, PatchAllowed, RequestedFields;
    EntryFields(w, role, e);
    ExitFields(a, t);
    PermittedExactly(role, reply.value.patch);
    ReducesExactly(e, reply.value.patch, a);
    hide Admissible;
  }
}
