/** How a SauceDemo workflow ends, said of what the exploration tool did in its one call
    (products/demo/workflow.py). */
module SauceOutcome {
  import opened Wrappers
  import opened Models
  import S = Sequences
  import opened Workflow
  import opened SupervisorPolicy
  import opened Engine
  import opened EngineRuns
  import opened KnowledgeMapping
  import opened KnowledgeValidation
  import opened SauceSelection
  import opened SauceAgents
  import opened ArtifactHandoff
  import opened SauceRuns
  import opened SauceAnswers

  // ----- the supervisor's steps -----

  /** The workflow in which the agent is about to be called. */
  function Routed(w: WorkflowState, role: Role): WorkflowState {
    w.(status := Running, currentAgent := None, nextAgent := Some(role), termination := None)
  }

  function Stopped(w: WorkflowState, status: WorkflowStatus, why: TerminationReason): WorkflowState {
    w.(status := status, currentAgent := None, nextAgent := None, termination := Some(why))
  }

  lemma RoutesOnReady(gs: GraphState, n: nat, reply: Reply)
    requires Ready(gs.workflow, n) && n < 3
    ensures var w := Routed(gs.workflow, Cycle(n));
            var next := GraphState(w, Some(ExecuteAgent), Some(Cycle(n)));
            Step(SAUCE_AGENTS, AtSupervisor(gs), reply) == AtExecute(next) && Chosen(next, n)
  {
    var w := gs.workflow;
    PolicyFollowsCounter(w, n);
    var d := CounterDecision(w, n);
    assert ValidState(w) && !IsTerminal(w.status);
    CounterCases(w, n);
    DecisionActions(w, d);
    hide Ready, CounterDecision, DecideNextAction, ApplyPatch, ValidDecision, ValidPatch, ValidState, Patched,
         Routes, Stops;
    DecisionsApply(w);
    DecisionShape(w);
    PatchedCollections(w, d);
    AppliedIsValid(w, d.patch);
    RoutingLands(w, n, Patched(w, d.patch));
    hide Chosen;
  }

  lemma StopsOnPass(gs: GraphState, reply: Reply)
    requires Ready(gs.workflow, 3) && Passed(gs.workflow.validations[0])
    ensures var w := Stopped(gs.workflow, Completed, GoalCompleted);
            Step(SAUCE_AGENTS, AtSupervisor(gs), reply) == Ended(GraphState(w, Some(CompleteWorkflow), None))
  {
    var w := gs.workflow;
    PolicyFollowsCounter(w, 3);
    var d := CounterDecision(w, 3);
    assert ValidState(w) && !IsTerminal(w.status) && |w.validations| == 1;
    hide Ready, DecideNextAction, ApplyPatch, ValidDecision, ValidPatch, ValidState, Patched;
    DecisionsApply(w);
    assert d == TerminalDecision(w, CompleteWorkflow, ValidationPassed, Completed, GoalCompleted);
    PatchedCollections(w, d);
  }

  lemma StopsOnError(gs: GraphState, n: nat, reply: Reply)
    requires Broken(gs.workflow, n)
    ensures var w := Stopped(gs.workflow, Failed, ErrorTermination);
            Step(SAUCE_AGENTS, AtSupervisor(gs), reply) == Ended(GraphState(w, Some(FailWorkflow), None))
  {
    var w := gs.workflow;
    var d := TerminalDecision(w, FailWorkflow, WorkflowError, Failed, ErrorTermination);
    assert DecideNextAction(w) == Ok(d);
    hide ApplyPatch, ValidDecision, ValidPatch, ValidState, Patched;
    DecisionsApply(w);
    PatchedCollections(w, d);
  }

  /** One call: the supervisor routes to the agent that the counter names, and its answer lands. */
  lemma CallLands(gs: GraphState, n: nat, tool: ToolOutcome, skipped: Reply)
    requires Ready(gs.workflow, n) && n < 3 && Content(gs.workflow)
    ensures var w, role := Routed(gs.workflow, Cycle(n)), Cycle(n);
            var reply := SauceReply(w, role, tool);
            var c := Step(SAUCE_AGENTS, AtSupervisor(gs), skipped);
            && c == AtExecute(GraphState(w, Some(ExecuteAgent), Some(role)))
            && Chosen(c.state, n) && Content(w) && Abides(w, role, reply)
            && Step(SAUCE_AGENTS, c, reply) == AtSupervisor(GraphState(Answered(w, role, reply.value.patch), None,
                                                                       None))
            && Content(Answered(w, role, reply.value.patch))
            && (if SuccessPatch(role, reply.value.patch) then Ready(Answered(w, role, reply.value.patch), n + 1)
                else Broken(Answered(w, role, reply.value.patch), n))
  {
    RoutesOnReady(gs, n, skipped);
    var w, role := Routed(gs.workflow, Cycle(n)), Cycle(n);
    ContentSame(gs.workflow, w);
    AgentsAreStandard();
    hide Ready, Broken, Chosen, Content, Abides, SuccessPatch, ExecuteNode, SauceReply, Answered, StandardAgents;
    var c := Step(SAUCE_AGENTS, AtSupervisor(gs), skipped);
    var reply := SauceReply(w, role, tool);
    CallKeepsContent(c.state, n, tool);
    ExecuteOnChosen(SAUCE_AGENTS, c.state, n, reply);
    ExecuteStep(SAUCE_AGENTS, c.state, n, reply);
  }

  /** The workflow after one call, routed there by the supervisor. */
  function Called(w: WorkflowState, n: nat, tool: ToolOutcome): WorkflowState
    requires SauceReply(Routed(w, Cycle(n)), Cycle(n), tool).Some?
  {
    Answered(Routed(w, Cycle(n)), Cycle(n), SauceReply(Routed(w, Cycle(n)), Cycle(n), tool).value.patch)
  }

  /** A supervisor step and a call, seen from the state before both. */
  lemma CallReaches(w: WorkflowState, tools: seq<ToolOutcome>, n: nat, s: WorkflowState)
    requires n < 3 && |tools| >= 2 * n + 2
    requires SauceRun(w, tools[..2 * n]) == AtSupervisor(GraphState(s, None, None))
    requires Ready(s, n) && Content(s)
    ensures SauceReply(Routed(s, Cycle(n)), Cycle(n), tools[2 * n + 1]).Some?
    ensures var t := Called(s, n, tools[2 * n + 1]);
            var reply := SauceReply(Routed(s, Cycle(n)), Cycle(n), tools[2 * n + 1]);
            && SauceRun(w, tools[..2 * n + 2]) == AtSupervisor(GraphState(t, None, None))
            && Content(t)
            && (if SuccessPatch(Cycle(n), reply.value.patch) then Ready(t, n + 1) else Broken(t, n))
  {
    hide Ready, Broken, Chosen, Content, Abides, SuccessPatch, SauceRun, SauceReply, Answered, Step, SauceReplies,
         Cycle,
         Routed;
    var gs := GraphState(s, None, None);
    var a, b := tools[..2 * n + 1], tools[..2 * n + 2];
    assert a[..2 * n] == tools[..2 * n] && b[..2 * n + 1] == a;
    SauceRunStep(w, a);
    SauceRunStep(w, b);
    CallLands(gs, n, tools[2 * n + 1], None);
    AbidesIsSome(Routed(s, Cycle(n)), Cycle(n), SauceReply(Routed(s, Cycle(n)), Cycle(n), tools[2 * n + 1]));
    assert a[2 * n] == tools[2 * n] && b[2 * n + 1] == tools[2 * n + 1];
  }

  lemma EndReaches(w: WorkflowState, tools: seq<ToolOutcome>, n: nat, gs: GraphState, d: Config)
    requires n < |tools| && SauceRun(w, tools[..n]) == AtSupervisor(gs)
    requires Step(SAUCE_AGENTS, AtSupervisor(gs), None) == d
    ensures SauceRun(w, tools[..n + 1]) == d
  {
    hide SauceRun, Step, SauceReplies;
    var a := tools[..n + 1];
    assert a[..n] == tools[..n];
    SauceRunStep(w, a);
  }

  lemma {:induction false} EndStays(w: WorkflowState, tools: seq<ToolOutcome>, n: nat)
    requires n <= |tools| && SauceRun(w, tools[..n]).Ended?
    ensures SauceRun(w, tools) == SauceRun(w, tools[..n])
    decreases |tools|
  {
    hide SauceRun, SauceReplies;
    if n == |tools| {
      assert tools[..n] == tools;
    } else {
      var init := tools[..|tools| - 1];
      assert init[..n] == tools[..n];
      EndStays(w, init, n);
      SauceRunStep(w, tools);
    }
  }

  // ----- the first call -----

  lemma RoutedFields(w: WorkflowState, role: Role, tool: ToolOutcome)
    ensures Delivers(Routed(w, role), tool) == Delivers(w, tool)
    ensures FailureInstant(Routed(w, role), tool) == FailureInstant(w, tool)
  {
    hide ValidEvidence;
  }

  /** After the first call: with what the tool delivered, or with the Explorer's error. */
  predicate Explored(w: WorkflowState, tool: ToolOutcome, t: WorkflowState) {
    && t.workflowId == w.workflowId && t.productId == w.productId && t.candidates == [] && t.validations == []
    && if Delivers(w, tool) then
         && t.evidence == [tool.result.output] && t.errors == [] && t.updatedAt == tool.result.completedAt
         && t.history == [Invocation(Explorer, w.updatedAt, Some(tool.result.completedAt), InvocationCompleted)]
       else
         && t.evidence == [] && t.errors == ["explorer_tool_failed"]
         && t.history == [Invocation(Explorer, w.updatedAt, Some(FailureInstant(w, tool)), InvocationFailed)]
  }

  lemma FirstCall(w: WorkflowState, tool: ToolOutcome)
    requires SauceFresh(w) && SauceReply(Routed(w, Explorer), Explorer, tool).Some?
    ensures Explored(w, tool, Called(w, 0, tool))
  {
    hide ValidEvidence, ValidState, SauceReply, Delivers, FailureInstant, SuccessPatch;
    ExplorerAnswers(Routed(w, Explorer), tool);
    RoutedFields(w, Explorer, tool);
    assert Cycle(0) == Explorer;
  }

  // ----- the second call -----

  lemma OneBatch(w: WorkflowState, e: Evidence)
    requires w.evidence == [EvidencePayload(e)] && w.candidates == []
    requires ValidEvidence(e) && e.workflowId == w.workflowId && e.productId == w.productId
    ensures StoredEvidence(w.evidence, w.workflowId, w.productId) == Some([e])
    ensures StoredCandidates([], w.workflowId, w.productId, S.Elements(Ids([e], EvidenceId))) == Some([])
    ensures S.Elements(Ids([], SourceId)) == {}
  {
    hide ValidEvidence, ValidCandidate;
    assert EvidenceOf(w.evidence) == [e];
    assert CandidatesOf([]) == [];
  }

  lemma OnlyEvidence(w: WorkflowState, e: Evidence)
    requires w.evidence == [EvidencePayload(e)] && w.candidates == []
    requires ValidEvidence(e) && e.workflowId == w.workflowId && e.productId == w.productId
    ensures SelectEvidence(w) == Some(e)
  {
    hide ValidEvidence, StoredEvidence, StoredCandidates, NotIn, Ids, S.Elements;
    OneBatch(w, e);
    OneOpen(e, EvidenceId);
  }

  /** After the second call: with the mapping of the evidence, or with the mapping error. */
  predicate Mapped(s: WorkflowState, e: Evidence, t: WorkflowState) {
    && t.workflowId == s.workflowId && t.productId == s.productId && t.evidence == s.evidence && t.validations == []
    && t.updatedAt == s.updatedAt
    && if Mappable(e) then
         && BuildCandidate(e).Ok? && t.candidates == [CandidatePayload(BuildCandidate(e).value)] && t.errors == []
         && t.history == s.history + [Invocation(Knowledge, s.updatedAt, Some(s.updatedAt), InvocationCompleted)]
       else
         && t.candidates == [] && t.errors == ["knowledge_mapping_failed"]
         && t.history == s.history + [Invocation(Knowledge, s.updatedAt, Some(s.updatedAt), InvocationFailed)]
  }

  /** What the Knowledge agent answers about the only batch. */
  lemma SecondReply(w: WorkflowState, e: Evidence, tool: ToolOutcome)
    requires w.evidence == [EvidencePayload(e)] && w.candidates == []
    requires ValidEvidence(e) && e.workflowId == w.workflowId && e.productId == w.productId
    ensures BuildCandidate(e).Ok? <==> Mappable(e)
    ensures var reply := SauceReply(w, Knowledge, tool);
            if Mappable(e) then
              SucceedsWith(w, Knowledge, reply, [], [CandidatePayload(BuildCandidate(e).value)], [], w.updatedAt)
            else FailsWith(w, Knowledge, reply, "knowledge_mapping_failed", w.updatedAt)
    ensures SuccessPatch(Knowledge, SauceReply(w, Knowledge, tool).value.patch) <==> Mappable(e)
  {
    hide ValidEvidence, SauceReply, BuildCandidate, Mappable, SuccessPatch, Mapping, SelectEvidence, SucceedsWith,
         FailsWith;
    OnlyEvidence(w, e);
    BuildsExactly(e);
    KnowledgeAnswers(w, tool);
    forall x ensures Mapping(w, x) <==> x == e && BuildCandidate(e).Ok? {
      MapsSelected(w, x);
    }
    assert Mappable(e) ==> Mapping(w, e);
  }

  lemma SecondCall(s: WorkflowState, e: Evidence, tool: ToolOutcome)
    requires s.evidence == [EvidencePayload(e)] && s.candidates == [] && s.validations == [] && s.errors == []
    requires ValidEvidence(e) && e.workflowId == s.workflowId && e.productId == s.productId
    requires SauceReply(Routed(s, Knowledge), Knowledge, tool).Some?
    ensures Mapped(s, e, Called(s, 1, tool))
    ensures SuccessPatch(Knowledge, SauceReply(Routed(s, Knowledge), Knowledge, tool).value.patch) <==> Mappable(e)
  {
    hide ValidEvidence, SauceReply, BuildCandidate, Mappable, SuccessPatch;
    SecondReply(Routed(s, Knowledge), e, tool);
    assert Cycle(1) == Knowledge;
  }

  // ----- the third call -----

  /** After the third call: with the one verdict, which passed. */
  predicate Validated(s: WorkflowState, e: Evidence, c: Candidate, t: WorkflowState) {
    && t.workflowId == s.workflowId && t.productId == s.productId
    && t.evidence == s.evidence && t.candidates == s.candidates && t.errors == []
    && t.history == s.history + [Invocation(Validator, s.updatedAt, Some(s.updatedAt), InvocationCompleted)]
    && |t.validations| == 1 && t.validations[0].ValidationPayload?
    && Verdict(c, e, s.updatedAt, t.validations[0].validation) && t.validations[0].validation.status == "passed"
  }

  /** What the Validator answers about the only candidate, made from the only batch. */
  lemma ThirdReply(w: WorkflowState, e: Evidence, tool: ToolOutcome) returns (v: ValidationResult)
    requires w.evidence == [EvidencePayload(e)] && w.validations == []
    requires ValidEvidence(e) && e.workflowId == w.workflowId && e.productId == w.productId
    requires BuildCandidate(e).Ok? && w.candidates == [CandidatePayload(BuildCandidate(e).value)]
    ensures Verdict(BuildCandidate(e).value, e, w.updatedAt, v)
    ensures SucceedsWith(w, Validator, SauceReply(w, Validator, tool), [], [], [ValidationPayload(v)], w.updatedAt)
    ensures SuccessPatch(Validator, SauceReply(w, Validator, tool).value.patch)
  {
    var c := BuildCandidate(e).value;
    BuildsExactly(e);
    hide ValidEvidence, ValidCandidate, SauceReply, BuildCandidate, Mappable, SuccessPatch, Validating, Verdict,
         ValidatorRaises, SelectCandidate, BuildValidation, SucceedsWith;
    OnlyCandidate(w, c, e);
    FreshCandidatePasses(e, w.updatedAt);
    ValidatorAnswersExactly(w, tool);
    ValidatesSelected(w, c, e);
    v :| Verdict(c, e, w.updatedAt, v)
         && SucceedsWith(w, Validator, SauceReply(w, Validator, tool), [], [], [ValidationPayload(v)], w.updatedAt);
    SomeReply(w, tool, [], [], [ValidationPayload(v)]);
  }

  lemma SomeReply(w: WorkflowState, tool: ToolOutcome, a: seq<Payload>, b: seq<Payload>, c: seq<Payload>)
    requires SucceedsWith(w, Validator, SauceReply(w, Validator, tool), a, b, c, w.updatedAt)
    ensures SauceReply(w, Validator, tool).Some?
  {
    hide SauceReply;
  }

  lemma ThirdCall(s: WorkflowState, e: Evidence, tool: ToolOutcome)
    requires s.evidence == [EvidencePayload(e)] && s.validations == [] && s.errors == []
    requires ValidEvidence(e) && e.workflowId == s.workflowId && e.productId == s.productId
    requires BuildCandidate(e).Ok? && s.candidates == [CandidatePayload(BuildCandidate(e).value)]
    requires SauceReply(Routed(s, Validator), Validator, tool).Some?
    ensures Validated(s, e, BuildCandidate(e).value, Called(s, 2, tool))
    ensures SuccessPatch(Validator, SauceReply(Routed(s, Validator), Validator, tool).value.patch)
  {
    hide ValidEvidence, SauceReply, BuildCandidate, SuccessPatch, Verify;
    var v := ThirdReply(Routed(s, Validator), e, tool);
    assert Cycle(2) == Validator;
  }

  // ----- whole workflows -----

  /** The workflow ended with everything made from the evidence: its mapping, one passed verdict
      on it, and three completed calls. */
  predicate CompletedWith(w: WorkflowState, tool: ToolOutcome, t: WorkflowState)
    requires Delivers(w, tool)
  {
    var e, at := tool.result.output.evidence, tool.result.completedAt;
    && t.status == Completed && t.termination == Some(GoalCompleted) && t.errors == []
    && t.workflowId == w.workflowId && t.productId == w.productId
    && t.evidence == [EvidencePayload(e)]
    && BuildCandidate(e).Ok? && t.candidates == [CandidatePayload(BuildCandidate(e).value)]
    && |t.validations| == 1 && t.validations[0].ValidationPayload?
    && Verdict(BuildCandidate(e).value, e, at, t.validations[0].validation)
    && t.validations[0].validation.status == "passed"
    && t.history == [Invocation(Explorer, w.updatedAt, Some(at), InvocationCompleted),
                     Invocation(Knowledge, at, Some(at), InvocationCompleted),
                     Invocation(Validator, at, Some(at), InvocationCompleted)]
  }

  /** The workflow ended with one error, after these artifacts. */
  predicate FailedWith(t: WorkflowState, error: string, evidence: seq<Payload>) {
    && t.status == Failed && t.termination == Some(ErrorTermination) && t.errors == [error]
    && t.evidence == evidence && t.candidates == [] && t.validations == []
  }

  lemma Begin(w: WorkflowState, tools: seq<ToolOutcome>)
    requires SauceFresh(w)
    ensures SauceRun(w, tools[..0]) == AtSupervisor(GraphState(w, None, None)) && Ready(w, 0) && Content(w)
  {
    StartContent(w);
    hide Content, IsVerdict, ReplyAt;
    assert tools[..0] == [];
    assert w.maxIterations >= 1;
    assert Ready(w, 0);
  }

  lemma AfterFirst(w: WorkflowState, tools: seq<ToolOutcome>) returns (s: WorkflowState)
    requires SauceFresh(w) && |tools| >= 7
    ensures SauceRun(w, tools[..2]) == AtSupervisor(GraphState(s, None, None))
    ensures Explored(w, tools[1], s) && Content(s)
    ensures if Delivers(w, tools[1]) then Ready(s, 1) else Broken(s, 0)
  {
    Begin(w, tools);
    hide SauceFresh, Ready, Broken, Content, SauceRun, SauceReply, SuccessPatch, Explored, Delivers, Called;
    CallReaches(w, tools, 0, w);
    assert Cycle(0) == Explorer;
    FirstCall(w, tools[1]);
    ExplorerAnswers(Routed(w, Explorer), tools[1]);
    RoutedFields(w, Explorer, tools[1]);
    s := Called(w, 0, tools[1]);
  }

  lemma FailsFirst(w: WorkflowState, tools: seq<ToolOutcome>)
    requires SauceFresh(w) && |tools| >= 7 && !Delivers(w, tools[1])
    ensures SauceRun(w, tools).Ended?
    ensures FailedWith(SauceRun(w, tools).state.workflow, "explorer_tool_failed", [])
  {
    hide SauceFresh, Broken, Content, SauceRun, Delivers, SauceReplies, Step;
    var s := AfterFirst(w, tools);
    StopsOnError(GraphState(s, None, None), 0, None);
    EndReaches(w, tools, 2, GraphState(s, None, None),
               Ended(GraphState(Stopped(s, Failed, ErrorTermination), Some(FailWorkflow), None)));
    EndStays(w, tools, 3);
  }

  lemma DeliveredFields(w: WorkflowState, tool: ToolOutcome)
    requires Delivers(w, tool)
    ensures tool.Returned? && tool.result.output.EvidencePayload?
    ensures var e := tool.result.output.evidence;
            tool.result.output == EvidencePayload(e) && ValidEvidence(e)
            && e.workflowId == w.workflowId && e.productId == w.productId
  {
    hide ValidEvidence;
  }

  lemma AfterSecond(w: WorkflowState, tools: seq<ToolOutcome>, s: WorkflowState) returns (t: WorkflowState)
    requires |tools| >= 7 && Delivers(w, tools[1]) && Ready(s, 1) && Content(s) && Explored(w, tools[1], s)
    requires SauceRun(w, tools[..2]) == AtSupervisor(GraphState(s, None, None))
    ensures SauceRun(w, tools[..4]) == AtSupervisor(GraphState(t, None, None)) && Content(t)
    ensures Mapped(s, tools[1].result.output.evidence, t)
    ensures if Mappable(tools[1].result.output.evidence) then Ready(t, 2) else Broken(t, 1)
  {
    var e := tools[1].result.output.evidence;
    DeliveredFields(w, tools[1]);
    hide Ready, Broken, Content, SauceRun, SauceReply, SuccessPatch, Mapped, Delivers, Called, ValidEvidence, Mappable;
    CallReaches(w, tools, 1, s);
    assert Cycle(1) == Knowledge;
    SecondCall(s, e, tools[3]);
    t := Called(s, 1, tools[3]);
  }

  lemma FailsSecond(w: WorkflowState, tools: seq<ToolOutcome>)
    requires SauceFresh(w) && |tools| >= 7 && Delivers(w, tools[1]) && !Mappable(tools[1].result.output.evidence)
    ensures SauceRun(w, tools).Ended?
    ensures FailedWith(SauceRun(w, tools).state.workflow, "knowledge_mapping_failed", [tools[1].result.output])
  {
    hide SauceFresh, Ready, Broken, Content, SauceRun, Delivers, SauceReplies, Step, Mappable;
    var s := AfterFirst(w, tools);
    var t := AfterSecond(w, tools, s);
    StopsOnError(GraphState(t, None, None), 1, None);
    EndReaches(w, tools, 4, GraphState(t, None, None),
               Ended(GraphState(Stopped(t, Failed, ErrorTermination), Some(FailWorkflow), None)));
    EndStays(w, tools, 5);
  }

  lemma AfterThird(w: WorkflowState, tools: seq<ToolOutcome>, s: WorkflowState, e: Evidence) returns (t: WorkflowState)
    requires |tools| >= 7 && Ready(s, 2) && Content(s)
    requires SauceRun(w, tools[..4]) == AtSupervisor(GraphState(s, None, None))
    requires s.evidence == [EvidencePayload(e)] && s.validations == [] && s.errors == []
    requires ValidEvidence(e) && e.workflowId == s.workflowId && e.productId == s.productId
    requires BuildCandidate(e).Ok? && s.candidates == [CandidatePayload(BuildCandidate(e).value)]
    ensures SauceRun(w, tools[..6]) == AtSupervisor(GraphState(t, None, None))
    ensures Validated(s, e, BuildCandidate(e).value, t) && Ready(t, 3)
  {
    hide Ready, Broken, Content, SauceRun, SauceReply, SuccessPatch, Validated, Called, ValidEvidence, BuildCandidate;
    CallReaches(w, tools, 2, s);
    assert Cycle(2) == Validator;
    ThirdCall(s, e, tools[5]);
    t := Called(s, 2, tools[5]);
  }

  lemma Completes(w: WorkflowState, tools: seq<ToolOutcome>)
    requires SauceFresh(w) && |tools| >= 7 && Delivers(w, tools[1]) && Mappable(tools[1].result.output.evidence)
    ensures SauceRun(w, tools).Ended?
    ensures CompletedWith(w, tools[1], SauceRun(w, tools).state.workflow)
  {
    var e := tools[1].result.output.evidence;
    DeliveredFields(w, tools[1]);
    hide SauceFresh, Ready, Broken, Content, SauceRun, Delivers, SauceReplies, Step, Mappable, ValidEvidence,
         BuildCandidate,
         Verdict, CompletedWith;
    var s := AfterFirst(w, tools);
    var m := AfterSecond(w, tools, s);
    var t := AfterThird(w, tools, m, e);
    ReadsPassed(m, e, BuildCandidate(e).value, t);
    StopsOnPass(GraphState(t, None, None), None);
    EndReaches(w, tools, 6, GraphState(t, None, None),
               Ended(GraphState(Stopped(t, Completed, GoalCompleted), Some(CompleteWorkflow), None)));
    EndStays(w, tools, 7);
    CompletedFields(w, tools[1], s, m, t);
  }

  lemma ReadsPassed(s: WorkflowState, e: Evidence, c: Candidate, t: WorkflowState)
    requires Validated(s, e, c, t)
    ensures t.validations != [] && Passed(t.validations[0])
  {
    hide Verdict;
  }

  lemma CompletedFields(w: WorkflowState, tool: ToolOutcome, s: WorkflowState, m: WorkflowState, t: WorkflowState)
    requires Delivers(w, tool) && Explored(w, tool, s)
    requires Mappable(tool.result.output.evidence) && Mapped(s, tool.result.output.evidence, m)
    requires BuildCandidate(tool.result.output.evidence).Ok?
    requires Validated(m, tool.result.output.evidence, BuildCandidate(tool.result.output.evidence).value, t)
    ensures CompletedWith(w, tool, Stopped(t, Completed, GoalCompleted))
  {
    DeliveredFields(w, tool);
    hide Delivers, ValidEvidence, BuildCandidate, Verdict, Mappable;
    var at := tool.result.completedAt;
    ThreeEntries(Invocation(Explorer, w.updatedAt, Some(at), InvocationCompleted),
                 Invocation(Knowledge, at, Some(at), InvocationCompleted),
                 Invocation(Validator, at, Some(at), InvocationCompleted));
  }

  lemma ThreeEntries(a: Invocation, b: Invocation, c: Invocation)
    ensures [a] + [b] + [c] == [a, b, c]
  {}

  /** A SauceDemo workflow from its empty state, after seven node executions: it has ended
      COMPLETED, with the captured evidence, its mapping and one passed verdict, exactly when the
      exploration tool delivered evidence that can be mapped; without a delivery it has FAILED in
      the Explorer, and with unmappable evidence in the Knowledge agent. */
  lemma WorkflowOutcome(w: WorkflowState, tools: seq<ToolOutcome>)
    requires SauceFresh(w) && |tools| >= 7
    ensures SauceRun(w, tools).Ended?
    ensures var t, tool := SauceRun(w, tools).state.workflow, tools[1];
            if !Delivers(w, tool) then FailedWith(t, "explorer_tool_failed", [])
            else if !Mappable(tool.result.output.evidence) then
              FailedWith(t, "knowledge_mapping_failed", [tool.result.output])
            else CompletedWith(w, tool, t)
  {
    if Delivers(w, tools[1]) {
      DeliveredFields(w, tools[1]);
    }
    hide SauceFresh, SauceRun, Delivers, Mappable, FailedWith, CompletedWith;
    if !Delivers(w, tools[1]) {
      FailsFirst(w, tools);
    } else if !Mappable(tools[1].result.output.evidence) {
      FailsSecond(w, tools);
    } else {
      Completes(w, tools);
    }
  }

  // ----- the handoff of a run -----

  /** No state of a SauceDemo run is handed off before its COMPLETED end, and that end for its own
      product only. */
  lemma HandsOffExactly(w: WorkflowState, tools: seq<ToolOutcome>, productId: string)
    requires SauceFresh(w)
    ensures !SauceRun(w, tools).Raised?
    ensures var c := SauceRun(w, tools);
            ExtractVerifiedKnowledge(c.state.workflow, productId).Some? <==>
              c.Ended? && c.state.workflow.status == Completed && productId == w.productId
  {
    hide SauceRun, AllAbide, SauceReplies, ExtractVerifiedKnowledge, Content, HandoffForm, SauceFresh, Evolves,
         Reachable;
    var n := SauceRunFollows(w, tools);
    var c := SauceRun(w, tools);
    StatusOfPhase(c, n, |tools|, w.maxIterations);
    RunProduct(w, tools);
    ExtractsExactly(c.state.workflow, productId);
    FormFields(c.state.workflow, productId);
    if c.Ended? && c.state.workflow.status == Completed {
      CompletedIsAccepted(w, tools);
    }
  }

  lemma StatusOfPhase(c: Config, n: nat, steps: nat, maximum: int)
    requires Reachable(c, n, steps, maximum)
    ensures !c.Raised? && (c.state.workflow.status == Completed ==> c.Ended?)
  {
    hide ValidState, Counted, FailedSoFar, AllFailed, CountedFailure;
  }

  lemma RunProduct(w: WorkflowState, tools: seq<ToolOutcome>)
    requires SauceFresh(w)
    ensures !SauceRun(w, tools).Raised? ==> SauceRun(w, tools).state.workflow.productId == w.productId
  {
    hide SauceRun, SauceFresh;
    RunStateIsValid(w, tools);
  }

  lemma FormFields(w: WorkflowState, productId: string)
    ensures HandoffForm(w, productId) ==> w.status == Completed && w.productId == productId
  {
    hide Aligned, ValidState;
  }

  // ----- a workflow that completes -----

  /** The smallest batch a tool can deliver: one page. */
  function DemoEvidence(w: WorkflowState): Evidence {
    Evidence("1", "e", w.workflowId, w.productId, Source("s", "playwright.saucedemo_explore", NextCapture(w)), 0,
             [ObservedPage("p", "u", "t", "f")], [], [], [])
  }

  function DemoTool(w: WorkflowState): ToolOutcome {
    Returned(ToolResult("playwright.saucedemo_explore", w.workflowId, NextCapture(w), true, true,
                        EvidencePayload(DemoEvidence(w)), w.updatedAt))
  }

  lemma DemoDelivers(w: WorkflowState)
    requires SauceFresh(w)
    ensures Delivers(w, DemoTool(w)) && Mappable(DemoEvidence(w))
  {
    assert w.workflowId != "" && w.productId != "";
    var e := DemoEvidence(w);
    assert |NextCapture(w)| >= 1;
    hide NextCapture, SauceFresh;
    SingletonDistinct("p");
    assert Ids(e.pages, ObservedPageId) == ["p"] && Ids(e.elements, ObservedElementId) == [];
    assert Ids(e.locators, ObservedLocatorId) == [] && Ids(e.interactions, ObservedInteractionId) == [];
    assert ValidEvidence(e);
  }

  /** Every empty SauceDemo workflow can complete and be handed off. */
  lemma DemoCompletes(w: WorkflowState, tools: seq<ToolOutcome>)
    requires SauceFresh(w) && |tools| >= 7 && tools[1] == DemoTool(w)
    ensures var c := SauceRun(w, tools);
            && c.Ended? && c.state.workflow.status == Completed
            && ExtractVerifiedKnowledge(c.state.workflow, w.productId).Some?
  {
    DemoDelivers(w);
    WorkflowOutcome(w, tools);
    hide SauceFresh, SauceRun, Delivers, Mappable, ExtractVerifiedKnowledge, BuildCandidate, Verdict;
    HandsOffExactly(w, tools, w.productId);
  }
}
