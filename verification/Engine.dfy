/** The two-node workflow graph (pmqa/orchestration/langgraph.py, pmqa/runtime/runtime.py):
    supervisor, then execute, until the supervisor stops. Whatever the agents answer is an
    input of a step, so a run over every sequence of replies is every run. */
module Engine {
  import opened Wrappers
  import opened Models
  import opened Workflow
  import opened SupervisorPolicy

  datatype InvocationId = InvocationId(workflowId: string, iteration: int, role: Role)

  /** A registered agent: its role and the capabilities it declares. */
  datatype Agent = Agent(role: Role, capabilityRole: Role, allowed: set<PatchField>)

  datatype AgentResult = AgentResult(workflowId: string, agent: Role, invocationId: InvocationId, patch: Patch,
                                     completedAt: int)

  /** What one agent call does: an answer, or an exception. */
  type Reply = Option<AgentResult>

  datatype GraphState = GraphState(workflow: WorkflowState, action: Option<Action>, selected: Option<Role>)

  datatype EngineError =
    | PolicyFailed(policy: PolicyError)
    | ReducerFailed(reducer: ReducerError)
    | InvalidDecision
    | InvalidRouting
    | CapabilityMismatch
    | AgentRaised
    | InvalidResult
    | ResultMismatch
    | ExceedsCapabilities

  // ----- nodes -----

  predicate IsExecutable(role: Role) {
    role == Explorer || role == Knowledge || role == Validator
  }

  function SupervisorNode(gs: GraphState): Result<GraphState, EngineError> {
    match DecideNextAction(gs.workflow)
    case Err(e) => Err(PolicyFailed(e))
    case Ok(d) =>
      if !ValidDecision(d) || !ValidPatch(d.patch) then Err(InvalidDecision)
      else
        match ApplyPatch(gs.workflow, d.patch)
        case Err(e) => Err(ReducerFailed(e))
        case Ok(w) => Ok(GraphState(w, Some(d.action), d.selected))
  }

  /** Run one agent and reduce its validated patch. */
  function ExecuteOne(w: WorkflowState, agent: Agent, id: InvocationId, requestedAt: int, reply: Reply):
      Result<WorkflowState, EngineError> {
    if agent.capabilityRole != agent.role then Err(CapabilityMismatch)
    else if reply.None? then Err(AgentRaised)
    else
      var r := reply.value;
      if !ValidPatch(r.patch) || !PatchAllowed(r.agent, r.patch) then Err(InvalidResult)
      else if r.agent != agent.role || r.workflowId != w.workflowId || r.invocationId != id
        || r.completedAt < requestedAt
      then Err(ResultMismatch)
      else if !(RequestedFields(r.patch) <= agent.allowed) then Err(ExceedsCapabilities)
      else
        match ApplyPatch(w, r.patch)
        case Err(e) => Err(ReducerFailed(e))
        case Ok(next) => Ok(next)
  }

  function EntryPatch(w: WorkflowState, role: Role): Patch {
    EMPTY_PATCH.(currentAgent := Some(role), clearNextAgent := true,
                 iteration := if role == Explorer then Some(w.iteration + 1) else None)
  }

  const EXIT_PATCH := EMPTY_PATCH.(clearCurrentAgent := true)

  function ExecuteNode(agents: map<Role, Agent>, gs: GraphState, reply: Reply): Result<GraphState, EngineError> {
    if gs.selected.None? || !IsExecutable(gs.selected.value) || gs.selected.value !in agents then Err(InvalidRouting)
    else
      var role := gs.selected.value;
      match ApplyPatch(gs.workflow, EntryPatch(gs.workflow, role))
      case Err(e) => Err(ReducerFailed(e))
      case Ok(entered) =>
        match ExecuteOne(entered, agents[role], InvocationId(entered.workflowId, entered.iteration, role),
                         entered.updatedAt, reply)
        case Err(e) => Err(e)
        case Ok(answered) =>
          match ApplyPatch(answered, EXIT_PATCH)
          case Err(e) => Err(ReducerFailed(e))
          case Ok(left) => Ok(GraphState(left, None, None))
  }

  // ----- the graph -----

  datatype Config =
    | AtSupervisor(state: GraphState)
    | AtExecute(state: GraphState)
    | Ended(state: GraphState)
    | Raised(error: EngineError)

  function RouteAfterSupervisor(gs: GraphState): Config {
    match gs.action
    case Some(ExecuteAgent) =>
      if gs.selected.Some? && IsExecutable(gs.selected.value) then AtExecute(gs) else Raised(InvalidRouting)
    case Some(_) => if gs.selected.None? then Ended(gs) else Raised(InvalidRouting)
    case None => Raised(InvalidRouting)
  }

  function Step(agents: map<Role, Agent>, c: Config, reply: Reply): Config {
    match c
    case AtSupervisor(gs) =>
      (match SupervisorNode(gs)
       case Err(e) => Raised(e)
       case Ok(next) => RouteAfterSupervisor(next))
    case AtExecute(gs) =>
      (match ExecuteNode(agents, gs, reply)
       case Err(e) => Raised(e)
       case Ok(next) => AtSupervisor(next))
    case Ended(_) => c
    case Raised(_) => c
  }

  /** The configuration after one node execution per reply; supervisor steps ignore theirs. */
  function Run(agents: map<Role, Agent>, c: Config, replies: seq<Reply>): Config {
    if replies == [] then c else Step(agents, Run(agents, c, replies[..|replies| - 1]), replies[|replies| - 1])
  }

  function Start(w: WorkflowState): Config {
    AtSupervisor(GraphState(w, None, None))
  }

  /** Graph assembly: exactly the executable roles, each registered under its own role. */
  predicate ValidAgents(agents: map<Role, Agent>) {
    agents.Keys == {Explorer, Knowledge, Validator} && forall r :: r in agents ==> agents[r].role == r
  }

  const ASSEMBLY_ORDER := [Explorer, Knowledge, Validator]

  /** Assembly accepts exactly valid registrations and copies them unchanged. */
  method AssembleAgents(agents: map<Role, Agent>) returns (r: Option<map<Role, Agent>>)
    ensures r == if ValidAgents(agents) then Some(agents) else None
  {
    var required := {Explorer, Knowledge, Validator};
    if agents.Keys != required {
      return None;
    }
    var copied: map<Role, Agent> := map[];
    for i := 0 to |ASSEMBLY_ORDER|
      invariant forall role :: role in copied <==> role in ASSEMBLY_ORDER[..i]
      invariant forall role :: role in copied ==>
                role in agents && copied[role] == agents[role] && agents[role].role == role
    {
      var role := ASSEMBLY_ORDER[i];
      assert role in required && role in agents.Keys;
      if agents[role].role != role {
        assert role in agents && !ValidAgents(agents);
        return None;
      }
      copied := copied[role := agents[role]];
      assert ASSEMBLY_ORDER[..i + 1] == ASSEMBLY_ORDER[..i] + [role];
    }
    assert ASSEMBLY_ORDER[..|ASSEMBLY_ORDER|] == ASSEMBLY_ORDER;
    forall role | role in agents ensures role in copied {
      assert role in agents.Keys;
      assert ASSEMBLY_ORDER[0] == Explorer && ASSEMBLY_ORDER[1] == Knowledge && ASSEMBLY_ORDER[2] == Validator;
    }
    assert copied.Keys == agents.Keys;
    assert copied == agents;
    assert forall role :: role in agents ==> agents[role].role == role;
    assert ValidAgents(agents);
    r := Some(copied);
  }

  /** The graph cycle over its carried state, one node execution per reply. */
  method RunGraph(agents: map<Role, Agent>, w: WorkflowState, replies: seq<Reply>) returns (c: Config)
    ensures c == Run(agents, Start(w), replies)
  {
    hide Step;
    c := Start(w);
    for i := 0 to |replies|
      invariant c == Run(agents, Start(w), replies[..i])
    {
      assert replies[..i + 1][..i] == replies[..i];
      c := Step(agents, c, replies[i]);
    }
    assert replies[..|replies|] == replies;
  }

  // ----- what holds for arbitrary agents -----

  /** One execution extends evidence only for the Explorer, candidates only for Knowledge,
      validations only for the Validator, and counts iterations only for the Explorer. */
  predicate OwnedChange(role: Role, s: WorkflowState, t: WorkflowState) {
    && (t.evidence != s.evidence ==> role == Explorer)
    && (t.candidates != s.candidates ==> role == Knowledge)
    && (t.validations != s.validations ==> role == Validator)
    && t.iteration == s.iteration + (if role == Explorer then 1 else 0)
    && t.status == s.status
  }

  /** An accepted patch within a role's policy changes only what the role owns. */
  lemma ReplyOwns(role: Role, e: WorkflowState, p: Patch)
    requires IsExecutable(role) && PatchAllowed(role, p) && ApplyPatch(e, p).Ok?
    ensures var t := ApplyPatch(e, p).value;
            && (t.evidence != e.evidence ==> role == Explorer) && (t.candidates != e.candidates ==> role == Knowledge)
            && (t.validations != e.validations ==> role == Validator)
            && t.iteration == e.iteration && t.status == e.status
  {
    AllowedPatchOwnsCollection(role, p);
    hide PatchAllowed, RequestedFields, AllowedFields, ValidState;
    assert p.evidence == [] ==> e.evidence + p.evidence == e.evidence;
    assert p.candidates == [] ==> e.candidates + p.candidates == e.candidates;
    assert p.validations == [] ==> e.validations + p.validations == e.validations;
  }

  lemma RoutingOwns(s: WorkflowState, p: Patch)
    requires ApplyPatch(s, p).Ok? && p.evidence == [] && p.candidates == [] && p.validations == [] && p.status.None?
    ensures var t := ApplyPatch(s, p).value;
            && t.evidence == s.evidence && t.candidates == s.candidates && t.validations == s.validations
              && t.status == s.status
            && t.iteration == OrElse(p.iteration, s.iteration)
            && (p.clearCurrentAgent ==> t.currentAgent.None?)
  {
    hide ValidState;
    assert s.evidence + [] == s.evidence && s.candidates + [] == s.candidates && s.validations + [] == s.validations;
  }

  lemma ExecuteStepSafe(agents: map<Role, Agent>, gs: GraphState, reply: Reply)
    requires ValidAgents(agents) && ExecuteNode(agents, gs, reply).Ok?
    ensures var next := ExecuteNode(agents, gs, reply).value;
            && gs.selected.Some?
            && Evolves(gs.workflow, next.workflow) && ValidState(next.workflow)
            && next.workflow.currentAgent.None?
            && OwnedChange(gs.selected.value, gs.workflow, next.workflow)
  {
    var role := gs.selected.value;
    var w := gs.workflow;
    var entered := ApplyPatch(w, EntryPatch(w, role)).value;
    var answered := ExecuteOne(entered, agents[role], InvocationId(entered.workflowId, entered.iteration, role),
                               entered.updatedAt, reply).value;
    var left := ApplyPatch(answered, EXIT_PATCH).value;
    hide ApplyPatch, PatchAllowed, ValidPatch, Evolves, ValidState, RequestedFields;
    ReplyOwns(role, entered, reply.value.patch);
    RoutingOwns(w, EntryPatch(w, role));
    RoutingOwns(answered, EXIT_PATCH);
    AcceptedPatchEvolves(w, EntryPatch(w, role));
    AcceptedPatchEvolves(entered, reply.value.patch);
    AcceptedPatchEvolves(answered, EXIT_PATCH);
    EvolvesTransitive(w, entered, answered);
    EvolvesTransitive(w, answered, left);
  }

  lemma SupervisorStepSafe(gs: GraphState)
    requires SupervisorNode(gs).Ok?
    ensures var next := SupervisorNode(gs).value;
            && Evolves(gs.workflow, next.workflow) && ValidState(next.workflow)
            && next.workflow == gs.workflow.(status := next.workflow.status, currentAgent := next.workflow.currentAgent,
                                             nextAgent := next.workflow.nextAgent,
                                               termination := next.workflow.termination)
  {
    var w := gs.workflow;
    var d := DecideNextAction(w).value;
    AcceptedPatchEvolves(w, d.patch);
    if IsTerminal(w.status) {
      EmptyPatchKeeps(w);
    } else {
      DecisionShape(w);
      PatchedCollections(w, d);
    }
  }

  /** Along every run, whatever the agents answer, between any two moments and not only from
      the start: identity is constant, collections grow only at their end, iteration and time
      never decrease, iteration stays within its maximum, and a terminal state never changes
      again. */
  lemma {:induction false} RunSafe(agents: map<Role, Agent>, w: WorkflowState, replies: seq<Reply>, n: nat)
    requires ValidAgents(agents) && ValidState(w) && n <= |replies|
    ensures var c, d := Run(agents, Start(w), replies[..n]), Run(agents, Start(w), replies);
            !d.Raised? ==>
              && !c.Raised? && ValidState(c.state.workflow) && ValidState(d.state.workflow)
              && Evolves(w, c.state.workflow) && Evolves(c.state.workflow, d.state.workflow)
              && Evolves(w, d.state.workflow)
    decreases |replies|
  {
    hide Evolves, ValidState, SupervisorNode, ExecuteNode, Step;
    var c, d := Run(agents, Start(w), replies[..n]), Run(agents, Start(w), replies);
    if replies == [] {
      EvolvesReflexive(w);
    } else {
      var last := |replies| - 1;
      var before := Run(agents, Start(w), replies[..last]);
      RaisedStays(agents, before, replies[last]);
      RunSafe(agents, w, replies[..last], if n <= last then n else last);
      if !d.Raised? {
        StepSafe(agents, before, replies[last]);
        EvolvesTransitive(w, before.state.workflow, d.state.workflow);
        if n <= last {
          assert replies[..last][..n] == replies[..n];
          EvolvesTransitive(c.state.workflow, before.state.workflow, d.state.workflow);
        } else {
          assert replies[..n] == replies;
          EvolvesReflexive(d.state.workflow);
        }
      }
    }
  }

  lemma RaisedStays(agents: map<Role, Agent>, c: Config, reply: Reply)
    ensures c.Raised? ==> Step(agents, c, reply).Raised?
  {
    hide SupervisorNode, ExecuteNode;
  }

  /** How often an agent of the role is executed from the n-th node execution on. */
  function Executions(agents: map<Role, Agent>, w: WorkflowState, replies: seq<Reply>, n: nat, role: Role): nat {
    if |replies| <= n then 0
    else
      var last := |replies| - 1;
      var before := Run(agents, Start(w), replies[..last]);
      Executions(agents, w, replies[..last], n, role)
      + if before.AtExecute? && before.state.selected == Some(role) then 1 else 0
  }

  /** Ownership over whole runs: between any two moments a collection changes only if its own
      role was executed in between, and the iteration rises by the number of Explorer executions. */
  lemma {:induction false} RunOwns(agents: map<Role, Agent>, w: WorkflowState, replies: seq<Reply>, n: nat)
    requires ValidAgents(agents) && ValidState(w) && n <= |replies|
    requires !Run(agents, Start(w), replies).Raised?
    ensures !Run(agents, Start(w), replies[..n]).Raised?
    ensures var s := Run(agents, Start(w), replies[..n]).state.workflow;
            var t := Run(agents, Start(w), replies).state.workflow;
            && (t.evidence != s.evidence ==> Executions(agents, w, replies, n, Explorer) > 0)
            && (t.candidates != s.candidates ==> Executions(agents, w, replies, n, Knowledge) > 0)
            && (t.validations != s.validations ==> Executions(agents, w, replies, n, Validator) > 0)
            && t.iteration == s.iteration + Executions(agents, w, replies, n, Explorer)
    decreases |replies|
  {
    hide Evolves, ValidState, SupervisorNode, ExecuteNode, Step;
    RunSafe(agents, w, replies, n);
    if n == |replies| {
      assert replies[..n] == replies;
    } else {
      var last := |replies| - 1;
      assert replies[..last][..n] == replies[..n];
      RunSafe(agents, w, replies, last);
      RunOwns(agents, w, replies[..last], n);
      StepSafe(agents, Run(agents, Start(w), replies[..last]), replies[last]);
    }
  }

  lemma EvolvesReflexive(w: WorkflowState)
    requires ValidState(w)
    ensures Evolves(w, w)
  {}

  /** One node execution keeps everything RunSafe speaks of and respects ownership. */
  lemma StepSafe(agents: map<Role, Agent>, c: Config, reply: Reply)
    requires ValidAgents(agents) && !c.Raised? && ValidState(c.state.workflow)
    ensures var d := Step(agents, c, reply);
            !d.Raised? ==>
              && Evolves(c.state.workflow, d.state.workflow) && ValidState(d.state.workflow)
              && (c.AtExecute? ==>
                    c.state.selected.Some? && OwnedChange(c.state.selected.value, c.state.workflow, d.state.workflow))
              && (!c.AtExecute? ==>
                    && d.state.workflow.evidence == c.state.workflow.evidence
                    && d.state.workflow.candidates == c.state.workflow.candidates
                    && d.state.workflow.validations == c.state.workflow.validations
                    && d.state.workflow.history == c.state.workflow.history
                    && d.state.workflow.iteration == c.state.workflow.iteration)
  {
    EvolvesReflexive(c.state.workflow);
    hide Evolves, ValidState, OwnedChange;
    match c
    case AtSupervisor(gs) =>
      if SupervisorNode(gs).Ok? {
        SupervisorStepSafe(gs);
      }
      hide SupervisorNode;
    case AtExecute(gs) =>
      if ExecuteNode(agents, gs, reply).Ok? {
        ExecuteStepSafe(agents, gs, reply);
      }
      hide ExecuteNode;
    case Ended(_) =>
  }
}
