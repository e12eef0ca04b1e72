/** Whole SauceDemo workflows (products/demo/workflow.py): the agents of the product in the
    graph, from an empty state, whatever the exploration tool does. */
module SauceRuns {
  import opened Wrappers
  import opened Models
  import opened Workflow
  import opened SupervisorPolicy
  import opened Engine
  import opened EngineRuns
  import opened KnowledgeMapping
  import opened KnowledgeValidation
  import opened SauceSelection
  import opened SauceAgents
  import opened ArtifactHandoff

  const SAUCE_AGENTS: map<Role, Agent> := map[
    Explorer := Agent(Explorer, Explorer, AllowedFields(Explorer)),
    Knowledge := Agent(Knowledge, Knowledge, AllowedFields(Knowledge)),
    Validator := Agent(Validator, Validator, AllowedFields(Validator))]

  lemma AgentsAreStandard()
    ensures StandardAgents(SAUCE_AGENTS)
  {}

  /** The product's own initial state. */
  predicate SauceFresh(w: WorkflowState) {
    Fresh(w) && w.workflowType == SAUCEDEMO_WORKFLOW_TYPE
  }

  function ReplyAt(c: Config, tool: ToolOutcome): Reply {
    if c.AtExecute? && c.state.selected.Some? then SauceReply(c.state.workflow, c.state.selected.value, tool) else None
  }

  /** What the agents answer along a run, given what the tool does at each step. */
  function SauceReplies(w: WorkflowState, tools: seq<ToolOutcome>): (r: seq<Reply>)
    ensures |r| == |tools|
  {
    if tools == [] then []
    else
      var before := SauceReplies(w, tools[..|tools| - 1]);
      before + [ReplyAt(Run(SAUCE_AGENTS, Start(w), before), tools[|tools| - 1])]
  }

  function SauceRun(w: WorkflowState, tools: seq<ToolOutcome>): Config {
    Run(SAUCE_AGENTS, Start(w), SauceReplies(w, tools))
  }

  lemma SauceRunStep(w: WorkflowState, tools: seq<ToolOutcome>)
    requires tools != []
    ensures var init, last := tools[..|tools| - 1], tools[|tools| - 1];
            var before := SauceRun(w, init);
            && SauceReplies(w, tools) == SauceReplies(w, init) + [ReplyAt(before, last)]
            && SauceReplies(w, tools)[..|tools| - 1] == SauceReplies(w, init)
            && SauceRun(w, tools) == Step(SAUCE_AGENTS, before, ReplyAt(before, last))
  {
    hide Step, Start, ReplyAt;
    var init := tools[..|tools| - 1];
    var replies := SauceReplies(w, tools);
    assert replies[..|replies| - 1] == SauceReplies(w, init);
  }

  // ----- what the collections hold -----

  /** At most one item of each kind, each made from the one before it, and a result passed. */
  predicate Content(w: WorkflowState) {
    && |w.evidence| <= 1 && |w.candidates| <= 1 && |w.validations| <= 1
    && (w.evidence != [] ==> EvidenceItem(w.evidence[0], w.workflowId, w.productId))
    && (w.candidates != [] ==>
          && w.evidence != [] && w.candidates[0].CandidatePayload?
          && BuildCandidate(w.evidence[0].evidence) == Ok(w.candidates[0].candidate))
    && (w.validations != [] ==>
          && w.candidates != [] && w.validations[0].ValidationPayload?
          && var v := w.validations[0].validation;
             v.status == "passed" && BuildValidation(w.candidates[0].candidate, w.evidence[0].evidence, v.validatedAt)
               == Ok(v))
  }

  lemma ContentSame(w: WorkflowState, t: WorkflowState)
    requires Content(w) && t.evidence == w.evidence && t.candidates == w.candidates && t.validations == w.validations
    requires t.workflowId == w.workflowId && t.productId == w.productId
    ensures Content(t)
  {
    hide ValidEvidence, BuildCandidate, BuildValidation;
  }

  /** With this content no call can follow a result: at most three calls are ever chosen. */
  lemma ChosenIsEarly(gs: GraphState, n: nat)
    requires Chosen(gs, n) && Content(gs.workflow)
    ensures n < 3
  {
    hide ValidState, ValidEvidence, BuildCandidate, BuildValidation;
    var w := gs.workflow;
    assert w.validations != [] ==> !FailedVerdict(w.validations[0]);
    assert AllFailed(w);
  }

  lemma ExplorerContent(w: WorkflowState, tool: ToolOutcome)
    requires w.evidence == [] && w.candidates == [] && w.validations == []
    ensures Content(Answered(w, Explorer, SauceReply(w, Explorer, tool).value.patch))
  {
    hide ValidEvidence, BuildCandidate, BuildValidation, CaptureIdFor;
  }

  lemma KnowledgeContent(w: WorkflowState, tool: ToolOutcome)
    requires Content(w) && w.candidates == [] && w.validations == []
    ensures Content(Answered(w, Knowledge, SauceReply(w, Knowledge, tool).value.patch))
  {
    hide ValidEvidence, BuildCandidate, BuildValidation, SelectEvidence, ValidCandidate;
    var r := RequestFor(w, Knowledge);
    if SelectEvidence(r.state).Some? {
      SelectedEvidence(r.state);
      assert EvidencePayload(SelectEvidence(r.state).value) == w.evidence[0];
    }
  }

  /** What the Validator finds and answers when the one candidate is fresh. */
  lemma ValidatorPasses(w: WorkflowState, tool: ToolOutcome)
    requires Content(w) && |w.evidence| == |w.candidates| == 1 && w.validations == []
    ensures var c, e := w.candidates[0].candidate, w.evidence[0].evidence;
            && BuildValidation(c, e, w.updatedAt).Ok? && BuildValidation(c, e, w.updatedAt).value.status == "passed"
            && SauceReply(w, Validator, tool)
               == Some(Success(RequestFor(w, Validator), Validator,
                               EMPTY_PATCH.(validations := [ValidationPayload(BuildValidation(c, e,
                                 w.updatedAt).value)]), w.updatedAt))
  {
    var e, c := w.evidence[0].evidence, w.candidates[0].candidate;
    BuildsExactly(e);
    hide ValidEvidence, ValidCandidate, BuildCandidate, BuildValidation, SelectCandidate, Mappable, Success;
    FreshCandidatePasses(e, w.updatedAt);
    OnlyCandidate(w, c, e);
    SelectionIgnoresRouting(w, Validator);
  }

  lemma ValidatorContent(w: WorkflowState, tool: ToolOutcome)
    requires Content(w) && |w.evidence| == |w.candidates| == 1 && w.validations == []
    ensures SauceReply(w, Validator, tool).Some? && Abides(w, Validator, SauceReply(w, Validator, tool))
    ensures Content(Answered(w, Validator, SauceReply(w, Validator, tool).value.patch))
  {
    ValidatorPasses(w, tool);
    var e, c := w.evidence[0].evidence, w.candidates[0].candidate;
    hide SauceReply, Abides, EvidenceItem, ValidCandidate, BuildCandidate, BuildValidation;
    ResultAbides(w, c, e);
    var v := BuildValidation(c, e, w.updatedAt).value;
    ResultInstant(c, e, w.updatedAt);
    NewResultContent(w, Success(RequestFor(w, Validator), Validator,
                                EMPTY_PATCH.(validations := [ValidationPayload(v)]), w.updatedAt).patch, v);
  }

  lemma ResultInstant(c: Candidate, e: Evidence, at: int)
    requires BuildValidation(c, e, at).Ok?
    ensures BuildValidation(c, e, at).value.validatedAt == at
  {}

  lemma NewResultContent(w: WorkflowState, p: Patch, v: ValidationResult)
    requires Content(w) && |w.evidence| == |w.candidates| == 1 && w.validations == []
    requires p.evidence == [] && p.candidates == [] && p.validations == [ValidationPayload(v)]
    requires v.status == "passed"
    requires BuildValidation(w.candidates[0].candidate, w.evidence[0].evidence, v.validatedAt) == Ok(v)
    ensures Content(Answered(w, Validator, p))
  {
    hide EvidenceItem, BuildCandidate, BuildValidation;
    var t := Answered(w, Validator, p);
    assert t.evidence == w.evidence && t.candidates == w.candidates && t.validations == p.validations;
  }

  /** Each call answers within the contract and keeps the content. */
  lemma CallKeepsContent(gs: GraphState, n: nat, tool: ToolOutcome)
    requires Chosen(gs, n) && Content(gs.workflow)
    ensures var reply := SauceReply(gs.workflow, Cycle(n), tool);
            Abides(gs.workflow, Cycle(n), reply) && Content(Answered(gs.workflow, Cycle(n), reply.value.patch))
  {
    var w := gs.workflow;
    ChosenIsEarly(gs, n);
    ChosenLengths(gs, n);
    hide Chosen, Content, SauceReply, Answered;
    if n == 0 {
      ExplorerAbides(w, tool);
      AbidesIsSome(w, Explorer, SauceReply(w, Explorer, tool));
      ExplorerContent(w, tool);
    } else if n == 1 {
      KnowledgeAbides(w, tool);
      AbidesIsSome(w, Knowledge, SauceReply(w, Knowledge, tool));
      KnowledgeContent(w, tool);
    } else {
      ValidatorContent(w, tool);
    }
    hide Abides;
  }

  lemma AbidesIsSome(w: WorkflowState, role: Role, reply: Reply)
    requires Abides(w, role, reply)
    ensures reply.Some?
  {}

  lemma ChosenLengths(gs: GraphState, n: nat)
    requires Chosen(gs, n) && n < 3
    ensures |gs.workflow.evidence| == (if n == 0 then 0 else 1)
    ensures |gs.workflow.candidates| == (if n == 2 then 1 else 0)
    ensures gs.workflow.validations == []
  {
    hide ValidState;
  }

  // ----- runs -----

  predicate SauceReachable(w: WorkflowState, tools: seq<ToolOutcome>, n: nat) {
    && AllAbide(SAUCE_AGENTS, Start(w), SauceReplies(w, tools))
    && var c := SauceRun(w, tools);
       Reachable(c, n, |tools|, w.maxIterations) && !c.Raised? && Content(c.state.workflow)
  }

  lemma StepKeepsContent(c: Config, n: nat, steps: nat, maximum: int, tool: ToolOutcome) returns (m: nat)
    requires Reachable(c, n, steps, maximum) && !c.Raised? && Content(c.state.workflow) && ValidState(c.state.workflow)
    ensures c.AtExecute? ==> c.state.selected.Some? && Abides(c.state.workflow, c.state.selected.value,
                                                              ReplyAt(c, tool))
    ensures var d := Step(SAUCE_AGENTS, c, ReplyAt(c, tool));
            Reachable(d, m, steps + 1, maximum) && !d.Raised? && Content(d.state.workflow)
  {
    AgentsAreStandard();
    hide Content, Ready, Broken, Finished, ValidState, SauceReply;
    var reply := ReplyAt(c, tool);
    match c
    case AtSupervisor(gs) =>
      hide Chosen;
      m := ReachableStep(SAUCE_AGENTS, c, n, steps, maximum, reply);
      StepSafe(SAUCE_AGENTS, c, reply);
      ContentSame(gs.workflow, Step(SAUCE_AGENTS, c, reply).state.workflow);
    case AtExecute(gs) =>
      assert gs.selected == Some(Cycle(n));
      CallKeepsContent(gs, n, tool);
      m := ReachableStep(SAUCE_AGENTS, c, n, steps, maximum, reply);
      ExecuteOnChosen(SAUCE_AGENTS, gs, n, reply);
    case Ended(gs) =>
      m := ReachableStep(SAUCE_AGENTS, c, n, steps, maximum, reply);
  }

  lemma RunStateIsValid(w: WorkflowState, tools: seq<ToolOutcome>)
    requires SauceFresh(w)
    ensures !SauceRun(w, tools).Raised? ==>
              Evolves(w, SauceRun(w, tools).state.workflow) && ValidState(SauceRun(w, tools).state.workflow)
  {
    AgentsAreStandard();
    RunSafe(SAUCE_AGENTS, w, SauceReplies(w, tools), 0);
  }

  lemma {:induction false} SauceRunFollows(w: WorkflowState, tools: seq<ToolOutcome>) returns (n: nat)
    requires SauceFresh(w)
    ensures SauceReachable(w, tools, n)
  {
    hide SauceRun, Reachable, Content, Evolves, ValidState, Step, Abides, SauceReplies, SauceFresh, AllAbide;
    if tools == [] {
      n := 0;
      SauceStart(w);
    } else {
      var init, last := tools[..|tools| - 1], tools[|tools| - 1];
      n := SauceRunFollows(w, init);
      RunStateIsValid(w, init);
      SauceRunStep(w, tools);
      n := StepKeepsContent(SauceRun(w, init), n, |init|, w.maxIterations, last);
      AbideStep(w, tools);
    }
  }

  lemma SauceStart(w: WorkflowState)
    requires SauceFresh(w)
    ensures SauceReachable(w, [], 0)
  {
    StartReachable(w);
    StartContent(w);
    hide Reachable, Content, Abides, SauceFresh, ReplyAt;
    assert SauceReplies(w, []) == [] && SauceRun(w, []) == Start(w);
  }

  lemma StartReachable(w: WorkflowState)
    requires SauceFresh(w)
    ensures Reachable(Start(w), 0, 0, w.maxIterations) && !Start(w).Raised?
  {
    hide Broken, Chosen, Finished, IsVerdict;
    assert w.maxIterations >= 1;
    assert Ready(w, 0);
    hide Ready, SauceFresh;
  }

  lemma StartContent(w: WorkflowState)
    requires SauceFresh(w)
    ensures Content(Start(w).state.workflow)
  {
    hide EvidenceItem, BuildCandidate, BuildValidation, ValidState;
  }

  lemma AbideStep(w: WorkflowState, tools: seq<ToolOutcome>)
    requires tools != []
    requires var init := tools[..|tools| - 1];
             var before := SauceRun(w, init);
             && AllAbide(SAUCE_AGENTS, Start(w), SauceReplies(w, init))
             && (before.AtExecute? ==>
                   before.state.selected.Some?
                   && Abides(before.state.workflow, before.state.selected.value, ReplyAt(before, tools[|tools| - 1])))
    ensures AllAbide(SAUCE_AGENTS, Start(w), SauceReplies(w, tools))
  {
    SauceRunStep(w, tools);
    hide SauceReplies, Abides, ReplyAt, Start;
  }

  /** A SauceDemo workflow needs at most three agent calls and seven node executions: its first
      validation always passes, so it ends COMPLETED or FAILED and never runs out of iterations. */
  lemma SauceRunEnds(w: WorkflowState, tools: seq<ToolOutcome>)
    requires SauceFresh(w) && |tools| >= 7
    ensures SauceRun(w, tools).Ended?
    ensures var t := SauceRun(w, tools).state.workflow;
            && (t.status == Completed || t.status == Failed) && |t.history| <= 3 && t.iteration <= 1
            && (t.status == Completed <==> t.errors == [])
  {
    var n := SauceRunFollows(w, tools);
    var c := SauceRun(w, tools);
    hide SauceRun, AllAbide, ValidState, ValidEvidence, BuildCandidate, BuildValidation, SauceReplies;
    if c.AtExecute? {
      ChosenIsEarly(c.state, n);
    }
    ContentLimits(c, n, |tools|, w.maxIterations);
  }

  lemma ContentLimits(c: Config, n: nat, steps: nat, maximum: int)
    requires Reachable(c, n, steps, maximum) && !c.Raised? && Content(c.state.workflow)
    ensures c.AtSupervisor? ==> steps <= 6
    ensures c.Ended? ==>
              var t := c.state.workflow;
              && (t.status == Completed || t.status == Failed) && |t.history| <= 3 && t.iteration <= 1
              && (t.status == Completed <==> t.errors == [])
  {
    hide ValidState, EvidenceItem, BuildCandidate, BuildValidation;
    var t := c.state.workflow;
    if t.validations != [] {
      assert !FailedVerdict(t.validations[0]);
    }
  }

  /** Completeness: every COMPLETED state that the SauceDemo agents reach is accepted by the
      handoff, which returns the verified mapping of the evidence that was captured. */
  lemma CompletedIsAccepted(w: WorkflowState, tools: seq<ToolOutcome>)
    requires SauceFresh(w)
    requires SauceRun(w, tools).Ended? && SauceRun(w, tools).state.workflow.status == Completed
    ensures var t := SauceRun(w, tools).state.workflow;
            && |t.evidence| == 1 && t.evidence[0].EvidencePayload? && BuildCandidate(t.evidence[0].evidence).Ok?
            && |t.validations| == 1 && t.validations[0].ValidationPayload?
            && ExtractVerifiedKnowledge(t, w.productId)
               == Some(Verify(BuildCandidate(t.evidence[0].evidence).value.knowledge,
                              t.validations[0].validation.validatedAt))
  {
    hide SauceRun, AllAbide, SauceReplies, ExtractVerifiedKnowledge, Finished, Content, BuildCandidate, HandoffForm,
         Verify, Fresh, ValidState;
    var n := SauceRunFollows(w, tools);
    RunStateIsValid(w, tools);
    var c := SauceRun(w, tools);
    var t := c.state.workflow;
    assert Finished(c.state, n) && Content(t);
    FinishedLengths(c.state, n);
    assert TerminalState(t, w.productId) by {
      hide Reachable;
    }
    hide Reachable, Evolves;
    SingleItemForm(t, w.productId);
    ExtractsExactly(t, w.productId);
  }

  lemma FinishedLengths(gs: GraphState, n: nat)
    requires Finished(gs, n) && Content(gs.workflow) && gs.workflow.status == Completed
    ensures |gs.workflow.evidence| == |gs.workflow.candidates| == |gs.workflow.validations| == 1
    ensures gs.workflow.errors == [] && gs.workflow.termination == Some(GoalCompleted) && gs.workflow.validations != []
  {
    hide EvidenceItem, BuildCandidate, BuildValidation;
  }

  lemma SingleItemForm(t: WorkflowState, productId: string)
    requires TerminalState(t, productId) && Content(t)
    requires |t.evidence| == |t.candidates| == |t.validations| == 1
    ensures HandoffForm(t, productId) && StoredResults(t)[0] == t.validations[0].validation
    ensures t.evidence[0].EvidencePayload? && t.validations[0].ValidationPayload?
            && BuildCandidate(t.evidence[0].evidence).Ok?
    ensures t.validations[0].validation.verified
            == Some(Verify(BuildCandidate(t.evidence[0].evidence).value.knowledge,
                           t.validations[0].validation.validatedAt))
  {
    hide ValidState, ValidEvidence, BuildCandidate, BuildValidation, Verify;
    assert AlignedAt(t, 0);
    PassesExactly(t.candidates[0].candidate, t.evidence[0].evidence, t.validations[0].validation.validatedAt);
  }
}
