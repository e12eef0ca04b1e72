/** Runs with agents that keep their contract: the supervisor, which keeps no program counter,
    behaves as a plain counter of successful calls, never raises, and always stops. */
module EngineRuns {
  import opened Wrappers
  import opened Models
  import opened Workflow
  import opened SupervisorPolicy
  import opened Engine

  // ----- the agent contract -----

  /** One history entry of the agent's own role with the given outcome. */
  predicate OneEntry(p: Patch, role: Role, outcome: InvocationStatus) {
    |p.history| == 1 && p.history[0].agent == role && p.history[0].status == outcome && ValidInvocation(p.history[0])
  }

  /** Fields no executable agent touches. */
  predicate NoRouting(p: Patch) {
    && p.status.None? && p.currentAgent.None? && !p.clearCurrentAgent && p.nextAgent.None? && !p.clearNextAgent
    && p.iteration.None? && p.termination.None? && !p.clearTermination
  }

  /** Exactly one artifact of the role's kind and one COMPLETED entry. */
  predicate SuccessPatch(role: Role, p: Patch) {
    && OneEntry(p, role, InvocationCompleted) && p.errors == [] && NoRouting(p)
    && |p.evidence| == (if role == Explorer then 1 else 0)
    && |p.candidates| == (if role == Knowledge then 1 else 0)
    && |p.validations| == (if role == Validator then 1 else 0)
    && AllSafe(p.evidence) && AllSafe(p.candidates) && AllSafe(p.validations)
    && (role == Validator ==> IsVerdict(p.validations[0]))
  }

  /** An error and one FAILED entry, no artifact. */
  predicate FailurePatch(role: Role, p: Patch) {
    && OneEntry(p, role, InvocationFailed) && p.errors != [] && NoRouting(p)
    && p.evidence == [] && p.candidates == [] && p.validations == []
  }

  /** The answer to a request made in the given state, correlated and in time. */
  predicate Abides(w: WorkflowState, role: Role, reply: Reply) {
    && reply.Some?
    && var r := reply.value;
       && r.workflowId == w.workflowId && r.agent == role
       && r.invocationId == InvocationId(w.workflowId, w.iteration + (if role == Explorer then 1 else 0), role)
       && r.completedAt >= w.updatedAt
       && (r.patch.updatedAt.Some? ==> r.patch.updatedAt.value >= w.updatedAt)
       && (SuccessPatch(role, r.patch) || FailurePatch(role, r.patch))
  }

  /** Every agent declares the capabilities of its role. */
  predicate StandardAgents(agents: map<Role, Agent>) {
    ValidAgents(agents) && forall r :: r in agents ==> agents[r] == Agent(r, r, AllowedFields(r))
  }

  /** Every reply that an execution consumes keeps the contract. */
  predicate AllAbide(agents: map<Role, Agent>, c: Config, replies: seq<Reply>) {
    replies == [] ||
    (AllAbide(agents, c, replies[..|replies| - 1]) &&
     var before := Run(agents, c, replies[..|replies| - 1]);
     (before.AtExecute? && before.state.selected.Some? ==>
        Abides(before.state.workflow, before.state.selected.value, replies[|replies| - 1])))
  }

  /** A workflow before its first node. */
  predicate Fresh(w: WorkflowState) {
    && ValidState(w) && w.status == Pending && w.iteration == 0
    && w.evidence == [] && w.candidates == [] && w.validations == [] && w.history == [] && w.errors == []
    && w.currentAgent.None? && w.nextAgent.None? && w.termination.None?
  }

  // ----- the counter the supervisor refines -----

  /** After n successful calls: the history is the first n roles of the cycle, all completed,
      and every collection has the length that n determines. */
  predicate Counted(w: WorkflowState, n: nat) {
    && |w.history| == n
    && (forall i :: 0 <= i < n ==> w.history[i].agent == Cycle(i) && w.history[i].status == InvocationCompleted)
    && |w.evidence| == (n + 2) / 3 == w.iteration
    && |w.candidates| == (n + 1) / 3
    && |w.validations| == n / 3
    && (forall i :: 0 <= i < |w.validations| ==> IsVerdict(w.validations[i]))
  }

  /** All results failed, except possibly the last. */
  predicate FailedSoFar(w: WorkflowState) {
    forall i :: 0 <= i < |w.validations| - 1 ==> FailedVerdict(w.validations[i])
  }

  predicate AllFailed(w: WorkflowState) {
    forall i :: 0 <= i < |w.validations| ==> FailedVerdict(w.validations[i])
  }

  /** A state the supervisor sees: n successful calls behind it, no error. */
  predicate Ready(w: WorkflowState, n: nat) {
    && ValidState(w) && Counted(w, n) && FailedSoFar(w) && (n % 3 != 0 ==> AllFailed(w))
    && w.errors == [] && w.termination.None? && w.currentAgent.None? && w.nextAgent.None?
    && (w.status == Running || (w.status == Pending && n == 0))
  }

  /** A state in which the agent that the counter names is about to run. */
  predicate Chosen(gs: GraphState, n: nat) {
    var w := gs.workflow;
    && ValidState(w) && Counted(w, n) && AllFailed(w)
    && w.errors == [] && w.termination.None? && w.currentAgent.None? && w.nextAgent == Some(Cycle(n))
      && w.status == Running
    && gs.selected == Some(Cycle(n)) && gs.action == Some(ExecuteAgent)
    && (n % 3 == 0 ==> w.iteration < w.maxIterations)
  }

  /** After n successful calls and one failed one: the failed call left an error and the last
      history entry, and no artifact. */
  predicate CountedFailure(w: WorkflowState, n: nat) {
    && w.errors != [] && AllFailed(w)
    && |w.history| == n + 1
    && (forall i :: 0 <= i < n ==> w.history[i].agent == Cycle(i) && w.history[i].status == InvocationCompleted)
    && w.history[n].agent == Cycle(n) && w.history[n].status == InvocationFailed
    && |w.evidence| == (n + 2) / 3 && w.iteration == (n + 3) / 3
    && |w.candidates| == (n + 1) / 3
    && |w.validations| == n / 3
  }

  /** A state after a failed call: errors wait for the supervisor. */
  predicate Broken(w: WorkflowState, n: nat) {
    && ValidState(w) && CountedFailure(w, n)
    && w.termination.None? && w.currentAgent.None? && w.nextAgent.None? && w.status == Running
  }

  // ----- what the policy sees in a counted history -----

  lemma {:induction false} CountedValidators(h: seq<Invocation>)
    requires forall i :: 0 <= i < |h| ==> h[i].agent == Cycle(i) && h[i].status == InvocationCompleted
    ensures |CompletedValidators(h)| == |h| / 3
    ensures forall k :: 0 <= k < |h| / 3 ==> CompletedValidators(h)[k] == 3 * k + 2
  {
    if h != [] {
      CountedValidators(h[..|h| - 1]);
    }
  }

  /** The roles of any stretch of a counted history. */
  lemma {:induction false} StretchRoles(h: seq<Invocation>, start: nat)
    requires forall i :: 0 <= i < |h| ==> h[i].agent == Cycle(start + i) && h[i].status == InvocationCompleted
    ensures RecoveryRoles(h).Ok? && |RecoveryRoles(h).value| == |h|
    ensures forall i :: 0 <= i < |h| ==> RecoveryRoles(h).value[i] == Cycle(start + i)
  {
    if h != [] {
      StretchRoles(h[..|h| - 1], start);
    }
  }

  /** Between two consecutive results lies exactly one cycle. */
  lemma OneCycle(h: seq<Invocation>, k: nat)
    requires 3 * k + 3 <= |h|
    requires forall i :: 0 <= i < |h| ==> h[i].agent == Cycle(i) && h[i].status == InvocationCompleted
    ensures RequireCycle(h[3 * k..3 * k + 3]).None?
  {
    var s := h[3 * k..3 * k + 3];
    assert forall i :: 0 <= i < 3 ==> s[i] == h[3 * k + i];
    StretchRoles(s, 3 * k);
    CycleShift(k, 0);
    CycleShift(k, 1);
    CycleShift(k, 2);
    var roles := RecoveryRoles(s).value;
    assert roles[0] == Cycle(0) && roles[1] == Cycle(1) && roles[2] == Cycle(2);
    assert roles == CYCLE;
    hide RecoveryRoles;
  }

  lemma {:induction false} NoCycleError(h: seq<Invocation>, indexes: seq<nat>, n: nat)
    requires n < |indexes| == |h| / 3 && forall k :: 0 <= k < |indexes| ==> indexes[k] == 3 * k + 2
    requires forall i :: 0 <= i < |h| ==> h[i].agent == Cycle(i) && h[i].status == InvocationCompleted
    ensures CyclesError(h, indexes, n).None?
  {
    if n > 0 {
      NoCycleError(h, indexes, n - 1);
      assert indexes[n - 1] + 1 == 3 * n && indexes[n] + 1 == 3 * n + 3;
      OneCycle(h, n);
    }
  }

  lemma {:induction false} VerdictStatuses(ps: seq<Payload>)
    requires forall i :: 0 <= i < |ps| ==> IsVerdict(ps[i])
    ensures Statuses(ps).Ok?
  {
    if ps != [] {
      VerdictStatuses(ps[..|ps| - 1]);
    }
  }

  lemma NoEarlyPass(w: WorkflowState, statuses: seq<bool>)
    requires FailedSoFar(w) && w.validations != [] && Statuses(w.validations) == Ok(statuses)
    ensures true !in statuses[..|statuses| - 1]
  {
    forall i | 0 <= i < |statuses| - 1 ensures !statuses[i] {
      assert ValidationStatus(w.validations[i]) == Ok(statuses[i]);
    }
  }

  lemma NoHistoryError(w: WorkflowState, n: nat)
    requires Counted(w, n) && FailedSoFar(w) && n >= 3
    ensures HistoryError(w).None?
  {
    CountedValidators(w.history);
    VerdictStatuses(w.validations);
    NoCycleError(w.history, CompletedValidators(w.history), |w.validations| - 1);
    NoEarlyPass(w, Statuses(w.validations).value);
    hide CompletedValidators, Statuses, CyclesError, FailedSoFar, IsVerdict, Cycle;
  }

  /** The roles after the last whole cycle of a counted history. */
  lemma TailRoles(h: seq<Invocation>, k: nat, i: nat)
    requires i < 3 && |h| == 3 * k + i
    requires forall j :: 0 <= j < |h| ==> h[j].agent == Cycle(j) && h[j].status == InvocationCompleted
    ensures RecoveryRoles(h[3 * k..]) == Ok(CYCLE[..i])
  {
    StretchRoles(h[3 * k..], 3 * k);
    CycleShift(k, 0);
    CycleShift(k, 1);
    CycleShift(k, 2);
    assert RecoveryRoles(h[3 * k..]).value == CYCLE[..i];
  }

  /** After a failed result, the policy names the agent that the counter names. */
  lemma RecoveryFollowsCounter(w: WorkflowState, n: nat)
    requires Counted(w, n) && n >= 3
    ensures var indexes := CompletedValidators(w.history);
            && indexes != [] && indexes[|indexes| - 1] < |w.history|
            && DecideRecovery(w, indexes) ==
               Ok(if n % 3 == 0 then ExplorerOrLimit(w, ValidationFailed)
                  else AgentDecision(w, Cycle(n), if n % 3 == 1 then KnowledgeRequired else ValidationRequired))
  {
    CountedValidators(w.history);
    TailRoles(w.history, n / 3, n % 3);
    hide CompletedValidators, RecoveryRoles, ExplorerOrLimit, AgentDecision, IsVerdict;
    assert CompletedValidators(w.history)[n / 3 - 1] + 1 == 3 * (n / 3);
  }

  /** What the supervisor decides, read off the counter alone. */
  function CounterDecision(w: WorkflowState, n: nat): Decision {
    if n > 0 && n % 3 == 0 && |w.validations| > 0 && Passed(w.validations[|w.validations| - 1]) then
      TerminalDecision(w, CompleteWorkflow, ValidationPassed, Completed, GoalCompleted)
    else if n % 3 == 0 then
      ExplorerOrLimit(w, if n > 0 then ValidationFailed else if w.status == Pending then WorkflowPending
                      else ExplorationRequired)
    else AgentDecision(w, Cycle(n), if n % 3 == 1 then KnowledgeRequired else ValidationRequired)
  }

  /** The history-reading policy refines the counter, and never raises. */
  lemma PolicyFollowsCounter(w: WorkflowState, n: nat)
    requires Ready(w, n)
    ensures DecideNextAction(w) == Ok(CounterDecision(w, n))
  {
    CounterFacts(w, n);
    if n >= 3 {
      NoHistoryError(w, n);
      RecoveryFollowsCounter(w, n);
      assert IsVerdict(w.validations[|w.validations| - 1]);
    }
    hide HistoryError, DecideRecovery, CompletedValidators, Counted, ValidState, AllFailed, FailedSoFar;
  }

  // ----- steps -----

  /** What the end of a run looks like, and why it ended. */
  predicate Finished(gs: GraphState, n: nat) {
    var w := gs.workflow;
    match w.status
    case Completed =>
      && Counted(w, n) && w.errors == [] && w.termination == Some(GoalCompleted)
      && n > 0 && n % 3 == 0 && Passed(w.validations[|w.validations| - 1])
    case Failed => CountedFailure(w, n) && w.termination == Some(ErrorTermination)
    case Terminated =>
      && Counted(w, n) && w.errors == [] && w.termination == Some(MaxIterations)
      && n > 0 && n % 3 == 0 && AllFailed(w) && w.iteration == w.maxIterations
    case _ => false
  }

  /** Counting looks only at history, collections and iteration. */
  lemma CountedSame(w: WorkflowState, t: WorkflowState, n: nat)
    requires t.history == w.history && t.evidence == w.evidence && t.candidates == w.candidates
    requires t.validations == w.validations && t.iteration == w.iteration
    ensures Counted(t, n) == Counted(w, n) && AllFailed(t) == AllFailed(w)
  {}

  lemma AppliedIsValid(w: WorkflowState, p: Patch)
    requires ApplyPatch(w, p).Ok?
    ensures ValidState(ApplyPatch(w, p).value) && ApplyPatch(w, p).value == Patched(w, p)
  {}

  /** Routing to the agent that the counter names. */
  lemma RoutingLands(w: WorkflowState, n: nat, t: WorkflowState)
    requires Ready(w, n) && AllFailed(w) && ValidState(t) && (n % 3 == 0 ==> w.iteration < w.maxIterations)
    requires t == w.(status := Running, currentAgent := None, nextAgent := Some(Cycle(n)), termination := None)
    ensures Chosen(GraphState(t, Some(ExecuteAgent), Some(Cycle(n))), n)
  {
    CountedSame(w, t, n);
    hide Counted, AllFailed, FailedSoFar, ValidState;
  }

  /** Stopping after a whole cycle, passed or at the iteration limit. */
  lemma StoppingLands(w: WorkflowState, n: nat, t: WorkflowState, passed: bool)
    requires Ready(w, n) && n > 0 && n % 3 == 0 && w.validations != []
    requires passed <==> Passed(w.validations[|w.validations| - 1])
    requires !passed ==> AllFailed(w) && w.iteration == w.maxIterations
    requires t == w.(status := if passed then Completed else Terminated, currentAgent := None, nextAgent := None,
                     termination := Some(if passed then GoalCompleted else MaxIterations))
    ensures Finished(GraphState(t, Some(if passed then CompleteWorkflow else TerminateWorkflow), None), n)
  {
    CountedSame(w, t, n);
    hide Counted, AllFailed, FailedSoFar, ValidState, Passed;
  }

  /** Where the graph goes from the state a decision leads to. */
  predicate Lands(next: GraphState, n: nat) {
    || (Chosen(next, n) && RouteAfterSupervisor(next) == AtExecute(next))
    || (Finished(next, n) && next.workflow.status != Failed && RouteAfterSupervisor(next) == Ended(next))
  }

  lemma CounterCases(w: WorkflowState, n: nat)
    requires Ready(w, n)
    ensures var d := CounterDecision(w, n);
            if d.action == ExecuteAgent then
              && d.selected == Some(Cycle(n)) && d.patch.status == Some(Running) && AllFailed(w)
              && (n % 3 == 0 ==> w.iteration < w.maxIterations)
            else
              && n > 0 && n % 3 == 0 && w.validations != [] && d.selected.None?
              && (d.action == CompleteWorkflow <==> Passed(w.validations[|w.validations| - 1]))
              && (d.action == CompleteWorkflow ==>
                    d.patch.status == Some(Completed) && d.patch.termination == Some(GoalCompleted))
              && (d.action != CompleteWorkflow ==>
                    && d.action == TerminateWorkflow && d.patch.status == Some(Terminated)
                      && d.patch.termination == Some(MaxIterations)
                    && AllFailed(w) && w.iteration == w.maxIterations)
  {
    LastVerdict(w);
    CounterFacts(w, n);
    hide Counted, AllFailed, FailedSoFar, ValidState, Passed, FailedVerdict, IsVerdict;
  }

  lemma DecisionLands(w: WorkflowState, n: nat, t: WorkflowState)
    requires Ready(w, n) && ValidState(t)
    requires var d := CounterDecision(w, n);
             t == w.(status := d.patch.status.value, currentAgent := None,
                     nextAgent := if d.action == ExecuteAgent then d.selected else None,
                     termination := if d.action == ExecuteAgent then None else d.patch.termination)
    ensures Lands(GraphState(t, Some(CounterDecision(w, n).action), CounterDecision(w, n).selected), n)
  {
    CounterCases(w, n);
    var d := CounterDecision(w, n);
    hide Ready, CounterDecision, AllFailed, ValidState, Chosen, Finished, Passed;
    if d.action == ExecuteAgent {
      RoutingLands(w, n, t);
      assert t.status == Running;
    } else {
      StoppingLands(w, n, t, d.action == CompleteWorkflow);
    }
  }

  lemma CounterFacts(w: WorkflowState, n: nat)
    requires Counted(w, n)
    ensures n >= 3 <==> w.validations != []
    ensures ValidState(w) ==> 1 <= w.maxIterations && w.iteration <= w.maxIterations
    ensures forall i :: 0 <= i < |w.validations| ==> IsVerdict(w.validations[i])
    ensures n == 0 ==> w.iteration == 0
    ensures (w.evidence == [] <==> n == 0) && (w.candidates == [] <==> n <= 1)
  {}

  lemma SupervisorOnReady(gs: GraphState, n: nat)
    requires Ready(gs.workflow, n)
    ensures SupervisorNode(gs).Ok? && Lands(SupervisorNode(gs).value, n)
  {
    var w := gs.workflow;
    PolicyFollowsCounter(w, n);
    var d := CounterDecision(w, n);
    assert ValidState(w) && !IsTerminal(w.status);
    DecisionActions(w, d);
    hide Ready, CounterDecision, DecideNextAction, ApplyPatch, ValidDecision, ValidPatch, ValidState, Patched, Counted,
      Routes, Stops, Lands;
    DecisionsApply(w);
    DecisionShape(w);
    PatchedCollections(w, d);
    AppliedIsValid(w, d.patch);
    DecisionLands(w, n, Patched(w, d.patch));
  }

  lemma DecisionActions(w: WorkflowState, d: Decision)
    ensures Routes(d, w) ==> d.action == ExecuteAgent
    ensures Stops(d, w) ==> d.action != ExecuteAgent && !Routes(d, w)
  {}

  lemma LastVerdict(w: WorkflowState)
    requires FailedSoFar(w) && forall i :: 0 <= i < |w.validations| ==> IsVerdict(w.validations[i])
    ensures AllFailed(w) <==> w.validations == [] || !Passed(w.validations[|w.validations| - 1])
  {}

  lemma SupervisorOnBroken(gs: GraphState, n: nat)
    requires Broken(gs.workflow, n)
    ensures var next := SupervisorNode(gs);
            && next.Ok? && RouteAfterSupervisor(next.value) == Ended(next.value)
            && next.value.workflow.status == Failed && Finished(next.value, n)
  {
    var w := gs.workflow;
    DecisionsApply(w);
    PatchedCollections(w, TerminalDecision(w, FailWorkflow, WorkflowError, Failed, ErrorTermination));
  }

  /** Entering an agent: routing and, for the Explorer, the iteration change. */
  lemma Entered(gs: GraphState, n: nat)
    requires Chosen(gs, n)
    ensures ApplyPatch(gs.workflow, EntryPatch(gs.workflow, Cycle(n))) ==
            Ok(gs.workflow.(currentAgent := Some(Cycle(n)), nextAgent := None,
                            iteration := gs.workflow.iteration + (if Cycle(n) == Explorer then 1 else 0)))
  {
    EntryKeepsCollections(gs.workflow, Cycle(n));
    NothingUnsafe();
    hide AllSafe, AllValid, SafePayload, Counted;
  }

  lemma EntryKeepsCollections(w: WorkflowState, role: Role)
    ensures Patched(w, EntryPatch(w, role)) ==
            w.(currentAgent := Some(role), nextAgent := None,
               iteration := w.iteration + (if role == Explorer then 1 else 0))
  {
    assert w.evidence + [] == w.evidence && w.candidates + [] == w.candidates && w.validations + [] == w.validations;
    assert w.traces + [] == w.traces && w.history + [] == w.history && w.warnings + [] == w.warnings
      && w.errors + [] == w.errors;
  }

  lemma ExitKeepsCollections(w: WorkflowState)
    ensures Patched(w, EXIT_PATCH) == w.(currentAgent := None)
  {
    assert w.evidence + [] == w.evidence && w.candidates + [] == w.candidates && w.validations + [] == w.validations;
    assert w.traces + [] == w.traces && w.history + [] == w.history && w.warnings + [] == w.warnings
      && w.errors + [] == w.errors;
  }

  lemma ContractPatchAllowed(role: Role, p: Patch)
    requires IsExecutable(role) && (SuccessPatch(role, p) || FailurePatch(role, p))
    ensures ValidPatch(p) && PatchAllowed(role, p)
  {
    NothingUnsafe();
    assert p.history == [p.history[0]];
    assert AllValid(p.history);
    hide AllSafe, AllValid, SafePayload, ValidInvocation, StatusOf;
    forall f | Requests(p, f) ensures f in AllowedFields(role) {
      match f
      case EvidenceField =>
      case CandidatesField =>
      case ValidationsField =>
      case _ =>
    }
  }

  lemma AppendSafe(a: seq<Payload>, b: seq<Payload>)
    requires AllSafe(a) && AllSafe(b)
    ensures AllSafe(a + b)
  {}

  /** The workflow after an answer and the exit patch. */
  function Answered(w: WorkflowState, role: Role, p: Patch): WorkflowState {
    w.(currentAgent := None, nextAgent := None,
       iteration := w.iteration + (if role == Explorer then 1 else 0),
       evidence := w.evidence + p.evidence, candidates := w.candidates + p.candidates,
         validations := w.validations + p.validations,
       traces := w.traces + p.traces, history := w.history + p.history, warnings := w.warnings + p.warnings,
       errors := w.errors + p.errors, updatedAt := OrElse(p.updatedAt, w.updatedAt))
  }

  /** An answer within the contract passes every check of the call. */
  lemma CallAccepted(e: WorkflowState, role: Role, reply: Reply)
    requires IsExecutable(role) && ValidState(e) && e.status == Running && e.termination.None? && e.nextAgent.None?
    requires reply.Some? && reply.value.workflowId == e.workflowId && reply.value.agent == role
    requires reply.value.invocationId == InvocationId(e.workflowId, e.iteration, role)
             && reply.value.completedAt >= e.updatedAt
    requires reply.value.patch.updatedAt.Some? ==> reply.value.patch.updatedAt.value >= e.updatedAt
    requires SuccessPatch(role, reply.value.patch) || FailurePatch(role, reply.value.patch)
    ensures ExecuteOne(e, Agent(role, role, AllowedFields(role)), InvocationId(e.workflowId, e.iteration, role),
                       e.updatedAt, reply)
            == Ok(Patched(e, reply.value.patch))
  {
    ContractPatchAllowed(role, reply.value.patch);
    AnswerApplies(e, role, reply.value.patch);
    hide ApplyPatch, Patched, ValidState, ValidPatch, SuccessPatch, FailurePatch, RequestedFields, AllowedFields;
  }

  /** The workflow an agent is called with. */
  function Entering(w: WorkflowState, role: Role): WorkflowState {
    w.(currentAgent := Some(role), nextAgent := None, iteration := w.iteration + (if role == Explorer then 1 else 0))
  }

  lemma Leaving(t: WorkflowState)
    requires ValidState(t) && t.status == Running && t.termination.None? && t.iteration <= t.maxIterations
    ensures ApplyPatch(t, EXIT_PATCH) == Ok(t.(currentAgent := None)) && ValidState(t.(currentAgent := None))
  {
    ExitKeepsCollections(t);
    hide AllSafe, AllValid, SafePayload, Patched;
  }

  lemma EnteringIsValid(gs: GraphState, n: nat)
    requires Chosen(gs, n)
    ensures ValidState(Entering(gs.workflow, Cycle(n)))
    ensures ApplyPatch(gs.workflow, EntryPatch(gs.workflow, Cycle(n))) == Ok(Entering(gs.workflow, Cycle(n)))
  {
    hide ValidState, ApplyPatch, EntryPatch, Chosen;
    Entered(gs, n);
    ChosenIsRunning(gs, n);
    EnteredIsValid(gs.workflow, Cycle(n));
  }

  lemma EnteredIsValid(w: WorkflowState, role: Role)
    requires ValidState(w) && (role == Explorer ==> w.iteration < w.maxIterations)
    ensures ValidState(Entering(w, role))
  {
    hide AllSafe, AllValid, SafePayload;
  }

  lemma ChosenIsRunning(gs: GraphState, n: nat)
    requires Chosen(gs, n)
    ensures var w := gs.workflow;
            && ValidState(w) && w.status == Running && w.termination.None?
            && (Cycle(n) == Explorer ==> w.iteration < w.maxIterations)
  {
    hide ValidState, Counted, AllFailed;
  }

  /** An answer within the contract is accepted and lands in the state it describes. */
  lemma ExecuteOnChosen(agents: map<Role, Agent>, gs: GraphState, n: nat, reply: Reply)
    requires StandardAgents(agents) && Chosen(gs, n) && Abides(gs.workflow, Cycle(n), reply)
    ensures ExecuteNode(agents, gs, reply) == Ok(GraphState(Answered(gs.workflow, Cycle(n), reply.value.patch), None,
                                                            None))
    ensures ValidState(Answered(gs.workflow, Cycle(n), reply.value.patch))
  {
    var w, role, p := gs.workflow, Cycle(n), reply.value.patch;
    EnteringIsValid(gs, n);
    var e := Entering(w, role);
    assert agents[role] == Agent(role, role, AllowedFields(role));
    assert e.status == Running && e.termination.None? && gs.selected == Some(role);
    assert SuccessPatch(role, p) || FailurePatch(role, p);
    hide AllSafe, AllValid, SafePayload, Counted, PatchAllowed, ApplyPatch, EntryPatch, ValidState, AllowedFields,
         ExecuteOne, Chosen, AllFailed;
    CallAccepted(e, role, reply);
    ContractPatchAllowed(role, p);
    AnswerApplies(e, role, p);
    hide SuccessPatch, FailurePatch, ValidPatch;
    Leaving(Patched(e, p));
    assert Patched(e, p).(currentAgent := None) == Answered(w, role, p);
  }

  lemma AnswerApplies(e: WorkflowState, role: Role, p: Patch)
    requires ValidState(e) && e.status == Running && e.termination.None? && e.nextAgent.None? && NoRouting(p)
             && ValidPatch(p)
    requires p.updatedAt.Some? ==> p.updatedAt.value >= e.updatedAt
    ensures ApplyPatch(e, p) == Ok(Patched(e, p)) && ValidState(Patched(e, p))
    ensures Patched(e, p).status == Running && Patched(e, p).termination.None? && Patched(e, p).nextAgent.None?
  {
    AppendSafe(e.evidence, p.evidence);
    AppendSafe(e.candidates, p.candidates);
    AppendSafe(e.validations, p.validations);
    assert AllValid(e.history + p.history);
    hide AllSafe, AllValid, SafePayload;
  }

  lemma AfterSuccess(w: WorkflowState, n: nat, p: Patch)
    requires Counted(w, n) && AllFailed(w) && SuccessPatch(Cycle(n), p)
    ensures Counted(Answered(w, Cycle(n), p), n + 1) && FailedSoFar(Answered(w, Cycle(n), p))
    ensures (n + 1) % 3 != 0 ==> AllFailed(Answered(w, Cycle(n), p))
  {
    var t := Answered(w, Cycle(n), p);
    forall i | 0 <= i < n + 1 ensures t.history[i].agent == Cycle(i) && t.history[i].status == InvocationCompleted {
      assert i < n ==> t.history[i] == w.history[i];
    }
    forall i | 0 <= i < |t.validations|
      ensures IsVerdict(t.validations[i]) && (i < |w.validations| ==> FailedVerdict(t.validations[i]))
    {
      assert i < |w.validations| ==> t.validations[i] == w.validations[i];
    }
  }

  lemma AfterFailure(w: WorkflowState, n: nat, p: Patch)
    requires Counted(w, n) && AllFailed(w) && w.errors == [] && FailurePatch(Cycle(n), p)
    ensures CountedFailure(Answered(w, Cycle(n), p), n)
  {
    var t := Answered(w, Cycle(n), p);
    assert t.evidence == w.evidence && t.candidates == w.candidates && t.validations == w.validations
      && t.errors == p.errors;
    assert forall i :: 0 <= i < n ==> t.history[i] == w.history[i];
  }

  /** An execution moves the counter by one or leaves an error for the supervisor. */
  lemma ExecuteStep(agents: map<Role, Agent>, gs: GraphState, n: nat, reply: Reply)
    requires StandardAgents(agents) && Chosen(gs, n) && Abides(gs.workflow, Cycle(n), reply)
    ensures var d := Step(agents, AtExecute(gs), reply);
            d.AtSupervisor? && d.state.workflow.maxIterations == gs.workflow.maxIterations &&
            (if SuccessPatch(Cycle(n), reply.value.patch) then Ready(d.state.workflow, n + 1)
             else Broken(d.state.workflow, n))
  {
    ExecuteOnChosen(agents, gs, n, reply);
    if SuccessPatch(Cycle(n), reply.value.patch) {
      AfterSuccess(gs.workflow, n, reply.value.patch);
    } else {
      AfterFailure(gs.workflow, n, reply.value.patch);
    }
    hide ExecuteNode, Counted, CountedFailure, ValidState, FailedSoFar, AllFailed;
  }

  // ----- runs -----

  /** Where a run can be after the given number of node executions, and with which counter. */
  predicate Reachable(c: Config, n: nat, steps: nat, maximum: int) {
    match c
    case AtSupervisor(gs) =>
      gs.workflow.maxIterations == maximum && n <= 3 * maximum
      && ((Ready(gs.workflow, n) && steps == 2 * n) || (Broken(gs.workflow, n) && steps == 2 * n + 2
                                                        && n < 3 * maximum))
    case AtExecute(gs) => Chosen(gs, n) && gs.workflow.maxIterations == maximum && steps == 2 * n + 1 && n < 3 * maximum
    case Ended(gs) =>
      Finished(gs, n) && gs.workflow.maxIterations == maximum && n <= 3 * maximum
      && (gs.workflow.status == Failed ==> n < 3 * maximum)
    case Raised(_) => false
  }

  /** The counter stays below three calls per iteration. */
  lemma CounterBound(gs: GraphState, n: nat)
    requires Chosen(gs, n)
    ensures n < 3 * gs.workflow.maxIterations
  {}

  lemma ReachableFromSupervisor(agents: map<Role, Agent>, gs: GraphState, n: nat, steps: nat, maximum: int,
                                reply: Reply)
    requires Reachable(AtSupervisor(gs), n, steps, maximum)
    ensures Reachable(Step(agents, AtSupervisor(gs), reply), n, steps + 1, maximum)
  {
    if Ready(gs.workflow, n) && steps == 2 * n {
      SupervisorOnReady(gs, n);
      var next := SupervisorNode(gs).value;
      SupervisorKeepsMaximum(gs);
      if Chosen(next, n) {
        CounterBound(next, n);
      }
      hide Ready, Broken, Chosen, Finished, SupervisorNode;
      assert Lands(next, n);
    } else {
      SupervisorOnBroken(gs, n);
      SupervisorKeepsMaximum(gs);
      hide Ready, Broken, Chosen, Finished, SupervisorNode;
    }
  }

  lemma ReachableStep(agents: map<Role, Agent>, c: Config, n: nat, steps: nat, maximum: int, reply: Reply)
      returns (m: nat)
    requires StandardAgents(agents) && Reachable(c, n, steps, maximum)
    requires c.AtExecute? ==> Abides(c.state.workflow, Cycle(n), reply)
    ensures Reachable(Step(agents, c, reply), m, steps + 1, maximum)
  {
    m := n;
    hide Ready, Broken, Chosen, Finished;
    match c
    case AtSupervisor(gs) =>
      ReachableFromSupervisor(agents, gs, n, steps, maximum, reply);
    case AtExecute(gs) =>
      ExecuteStep(agents, gs, n, reply);
      m := if SuccessPatch(Cycle(n), reply.value.patch) then n + 1 else n;
    case Ended(_) =>
  }

  lemma SupervisorKeepsMaximum(gs: GraphState)
    requires SupervisorNode(gs).Ok?
    ensures SupervisorNode(gs).value.workflow.maxIterations == gs.workflow.maxIterations
  {
    SupervisorStepSafe(gs);
  }

  lemma ReachableSelects(c: Config, n: nat, steps: nat, maximum: int)
    requires Reachable(c, n, steps, maximum) && c.AtExecute?
    ensures c.state.selected == Some(Cycle(n))
  {}

  /** Every run refines the counter: it never raises, and each node execution is accounted for. */
  lemma {:induction false} RunsFollowCounter(agents: map<Role, Agent>, w: WorkflowState, replies: seq<Reply>)
      returns (n: nat)
    requires StandardAgents(agents) && Fresh(w) && AllAbide(agents, Start(w), replies)
    ensures Reachable(Run(agents, Start(w), replies), n, |replies|, w.maxIterations)
  {
    if replies == [] {
      n := 0;
    } else {
      hide Fresh, Abides, StandardAgents;
      var init := replies[..|replies| - 1];
      n := RunsFollowCounter(agents, w, init);
      var before := Run(agents, Start(w), init);
      if before.AtExecute? {
        ReachableSelects(before, n, |init|, w.maxIterations);
      }
      hide Reachable, ValidAgents;
      n := ReachableStep(agents, before, n, |init|, w.maxIterations, replies[|replies| - 1]);
    }
  }

  /** The status a run ends with says exactly what happened in it. */
  lemma EndMeans(gs: GraphState, n: nat)
    requires Finished(gs, n)
    ensures var w := gs.workflow;
            && (w.status == Completed <==> w.validations != [] && Passed(w.validations[|w.validations| - 1]))
            && (w.status == Failed <==> w.errors != [])
            && (w.status == Terminated ==> n == 3 * w.iteration == 3 * w.maxIterations && AllFailed(w))
            && |w.history| == (if w.status == Failed then n + 1 else n)
  {
    assert AllFailed(gs.workflow) && gs.workflow.validations != [] ==>
             FailedVerdict(gs.workflow.validations[|gs.workflow.validations| - 1]);
  }

  /** Every run ends within 3 * max agent calls, that is within 6 * max + 1 node executions:
      COMPLETED exactly when the last result passed, FAILED exactly when an agent reported an
      error, TERMINATED only after a whole failed cycle at the iteration limit. */
  lemma RunsTerminate(agents: map<Role, Agent>, w: WorkflowState, replies: seq<Reply>) returns (n: nat)
    requires StandardAgents(agents) && Fresh(w) && AllAbide(agents, Start(w), replies)
    requires |replies| >= 6 * w.maxIterations + 1
    ensures Run(agents, Start(w), replies).Ended?
    ensures var gs := Run(agents, Start(w), replies).state;
            && Finished(gs, n) && n <= |gs.workflow.history| <= 3 * w.maxIterations
            && (gs.workflow.status == Completed <==>
                  gs.workflow.validations != [] && Passed(gs.workflow.validations[|gs.workflow.validations| - 1]))
            && (gs.workflow.status == Failed <==> gs.workflow.errors != [])
            && (gs.workflow.status == Terminated ==>
                  n == 3 * gs.workflow.iteration == 3 * w.maxIterations && AllFailed(gs.workflow))
  {
    n := RunsFollowCounter(agents, w, replies);
    hide Finished, Ready, Broken, Chosen, Run, AllAbide, StandardAgents, Fresh, AllFailed, Passed;
    EndMeans(Run(agents, Start(w), replies).state, n);
  }

  /** At every moment of a run the supervisor's choice is agent number n mod 3, and the
      collections have the lengths the counter determines. */
  lemma SelectionIsCounter(agents: map<Role, Agent>, w: WorkflowState, replies: seq<Reply>) returns (n: nat)
    requires StandardAgents(agents) && Fresh(w) && AllAbide(agents, Start(w), replies)
    ensures var c := Run(agents, Start(w), replies);
            && !c.Raised?
            && (c.AtExecute? ==>
                  && c.state.selected == Some(Cycle(n)) && |replies| == 2 * n + 1
                  && |c.state.workflow.history| == n
                  && |c.state.workflow.evidence| == (n + 2) / 3 == c.state.workflow.iteration
                  && |c.state.workflow.candidates| == (n + 1) / 3
                  && |c.state.workflow.validations| == n / 3
                  && (forall i :: 0 <= i < n ==> c.state.workflow.history[i].agent == Cycle(i)))
  {
    n := RunsFollowCounter(agents, w, replies);
  }
}
