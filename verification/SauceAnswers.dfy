/** What the SauceDemo agents answer, written out field by field: when each succeeds, with which
    artifact, and how each fails (products/demo/explorer_agent.py, knowledge_agent.py,
    validator_agent.py). */
module SauceAnswers {
  import opened Wrappers
  import opened Models
  import opened Workflow
  import opened Engine
  import opened EngineRuns
  import opened KnowledgeMapping
  import opened KnowledgeValidation
  import opened SauceSelection
  import opened SauceAgents

  // ----- the answers -----

  /** The iteration of the call: only an Explorer call begins a new one. */
  function CallIteration(w: WorkflowState, role: Role): int {
    if role == Explorer then w.iteration + 1 else w.iteration
  }

  /** One completed entry, these artifacts and no error, at this instant. */
  predicate SucceedsWith(w: WorkflowState, role: Role, reply: Reply, evidence: seq<Payload>, candidates: seq<Payload>,
                         validations: seq<Payload>, at: int)
  {
    reply == Some(AgentResult(
      w.workflowId, role, InvocationId(w.workflowId, CallIteration(w, role), role),
      Patch(None, None, false, None, false, None, evidence, candidates, validations, [],
            [Invocation(role, w.updatedAt, Some(at), InvocationCompleted)], [], [], None, false, Some(at)),
      at))
  }

  /** One failed entry, this error and no artifact, at this instant. */
  predicate FailsWith(w: WorkflowState, role: Role, reply: Reply, error: string, at: int) {
    reply == Some(AgentResult(
      w.workflowId, role, InvocationId(w.workflowId, CallIteration(w, role), role),
      Patch(None, None, false, None, false, None, [], [], [], [],
            [Invocation(role, w.updatedAt, Some(at), InvocationFailed)], [], [error], None, false, Some(at)),
      at))
  }

  lemma SuccessIsSuccess(w: WorkflowState, role: Role, reply: Reply, evidence: seq<Payload>, candidates: seq<Payload>,
                         validations: seq<Payload>, at: int)
    requires SucceedsWith(w, role, reply, evidence, candidates, validations, at)
    ensures forall error, x :: !FailsWith(w, role, reply, error, x)
    ensures !FailurePatch(role, reply.value.patch)
  {}

  lemma FailureIsFailure(w: WorkflowState, role: Role, reply: Reply, error: string, at: int)
    requires FailsWith(w, role, reply, error, at)
    ensures !SuccessPatch(role, reply.value.patch)
  {}

  lemma RequestFields(w: WorkflowState, role: Role)
    ensures RequestFor(w, role).at == w.updatedAt && RequestFor(w, role).state.workflowId == w.workflowId
    ensures RequestFor(w, role).state.productId == w.productId
    ensures RequestFor(w, role).id == InvocationId(w.workflowId, CallIteration(w, role), role)
  {}

  lemma SuccessFields(w: WorkflowState, role: Role, artifacts: Patch, at: int)
    requires artifacts == EMPTY_PATCH.(evidence := artifacts.evidence, candidates := artifacts.candidates,
                                       validations := artifacts.validations)
    ensures SucceedsWith(w, role, Some(Success(RequestFor(w, role), role, artifacts, at)),
                         artifacts.evidence, artifacts.candidates, artifacts.validations, at)
  {}

  lemma FailureFields(w: WorkflowState, role: Role, code: string, at: int)
    ensures FailsWith(w, role, Some(SauceAgents.Failure(RequestFor(w, role), role, code, at)), code, at)
  {}

  // ----- the Explorer -----

  /** The identifier of the tool invocation of the next Explorer call. */
  function NextCapture(w: WorkflowState): string {
    w.workflowId + ":" + IterationText(w.iteration + 1) + ":" + "explorer" + ":" + "playwright.saucedemo_explore"
  }

  /** The tool returned, in answer to this very request, one valid batch of evidence that is
      attributed to it. */
  predicate Delivers(w: WorkflowState, tool: ToolOutcome) {
    && tool.Returned?
    && tool.result.toolId == "playwright.saucedemo_explore" && tool.result.workflowId == w.workflowId
    && tool.result.captureId == NextCapture(w) && tool.result.completedAt >= w.updatedAt
    && tool.result.succeeded && tool.result.onlyEvidence
    && tool.result.output.EvidencePayload?
    && var e := tool.result.output.evidence;
       && ValidEvidence(e) && e.workflowId == w.workflowId && e.productId == w.productId
       && e.source.toolId == "playwright.saucedemo_explore" && e.source.captureId == NextCapture(w)
  }

  /** The instant of a failed call: that of the tool's result, when it has a usable one. */
  function FailureInstant(w: WorkflowState, tool: ToolOutcome): int {
    if tool.Returned? && tool.result.completedAt > w.updatedAt then tool.result.completedAt else w.updatedAt
  }

  /** The Explorer succeeds exactly when the tool delivers, with that evidence at the tool's own
      instant, and fails in every other case. */
  lemma ExplorerAnswers(w: WorkflowState, tool: ToolOutcome)
    ensures var reply := SauceReply(w, Explorer, tool);
            if Delivers(w, tool) then
              SucceedsWith(w, Explorer, reply, [tool.result.output], [], [], tool.result.completedAt)
            else FailsWith(w, Explorer, reply, "explorer_tool_failed", FailureInstant(w, tool))
    ensures SuccessPatch(Explorer, SauceReply(w, Explorer, tool).value.patch) <==> Delivers(w, tool)
  {
    hide ValidEvidence, Success, SauceAgents.Failure, SucceedsWith, FailsWith, IterationText;
    var r := RequestFor(w, Explorer);
    RequestFields(w, Explorer);
    CaptureFields(w);
    hide RequestFor, CaptureIdFor, NextCapture;
    FailureFields(w, Explorer, EXPLORER_FAILURE, FailureInstant(w, tool));
    if Delivers(w, tool) {
      var p := EMPTY_PATCH.(evidence := [tool.result.output]);
      SuccessFields(w, Explorer, p, tool.result.completedAt);
      hide SuccessPatch;
      ExplorerSucceeds(w, tool);
    } else {
      hide SuccessPatch;
      FailureIsFailure(w, Explorer, SauceReply(w, Explorer, tool), "explorer_tool_failed", FailureInstant(w, tool));
    }
  }

  lemma CaptureFields(w: WorkflowState)
    ensures CaptureIdFor(RequestFor(w, Explorer).id) == NextCapture(w)
  {}

  lemma ExplorerSucceeds(w: WorkflowState, tool: ToolOutcome)
    requires Delivers(w, tool)
    requires SucceedsWith(w, Explorer, SauceReply(w, Explorer, tool), [tool.result.output], [], [],
                          tool.result.completedAt)
    ensures SuccessPatch(Explorer, SauceReply(w, Explorer, tool).value.patch)
  {
    hide ValidEvidence, SauceReply, NextCapture;
  }

  // ----- the Knowledge agent -----

  /** One stored batch that no candidate names, and whose names stay apart. */
  predicate Mapping(w: WorkflowState, e: Evidence) {
    Readable(w) && OpenEvidence(w, e) && Mappable(e)
  }

  lemma MapsSelected(w: WorkflowState, e: Evidence)
    ensures Mapping(w, e) <==> SelectEvidence(w) == Some(e) && BuildCandidate(e).Ok?
  {
    hide ValidEvidence, SelectEvidence, BuildCandidate, Readable, OpenEvidence, Mappable;
    SelectsExactly(w, e);
    if SelectEvidence(w) == Some(e) {
      SelectedEvidence(w);
      BuildsExactly(e);
    }
  }

  lemma KnowledgeReplies(w: WorkflowState, tool: ToolOutcome)
    ensures var reply := SauceReply(w, Knowledge, tool);
            if SelectEvidence(w).Some? && BuildCandidate(SelectEvidence(w).value).Ok? then
              SucceedsWith(w, Knowledge, reply, [],
                           [CandidatePayload(BuildCandidate(SelectEvidence(w).value).value)], [], w.updatedAt)
            else FailsWith(w, Knowledge, reply, "knowledge_mapping_failed", w.updatedAt)
  {
    hide SelectEvidence, BuildCandidate, SucceedsWith, FailsWith, Success, SauceAgents.Failure;
    RequestFields(w, Knowledge);
    SelectionIgnoresRouting(w, Knowledge);
    assert RequestFor(w, Knowledge).state == Entering(w, Knowledge);
    hide RequestFor;
    FailureFields(w, Knowledge, KNOWLEDGE_FAILURE, w.updatedAt);
    if SelectEvidence(w).Some? && BuildCandidate(SelectEvidence(w).value).Ok? {
      SuccessFields(w, Knowledge,
                    EMPTY_PATCH.(candidates := [CandidatePayload(BuildCandidate(SelectEvidence(w).value).value)]),
                    w.updatedAt);
    }
  }

  /** The Knowledge agent succeeds exactly when such a batch is stored, with its deterministic
      mapping, and fails in every other case. */
  lemma KnowledgeAnswers(w: WorkflowState, tool: ToolOutcome)
    ensures var reply := SauceReply(w, Knowledge, tool);
            && (forall e :: Mapping(w, e) ==>
                  && BuildCandidate(e).Ok?
                  && SucceedsWith(w, Knowledge, reply, [], [CandidatePayload(BuildCandidate(e).value)], [],
                                  w.updatedAt))
            && ((forall e :: !Mapping(w, e)) ==>
                  FailsWith(w, Knowledge, reply, "knowledge_mapping_failed", w.updatedAt))
    ensures SuccessPatch(Knowledge, SauceReply(w, Knowledge, tool).value.patch) <==> exists e :: Mapping(w, e)
  {
    hide SucceedsWith, FailsWith, SelectEvidence, BuildCandidate, Mapping, SuccessPatch, SauceReply, FailurePatch;
    var reply := SauceReply(w, Knowledge, tool);
    forall e ensures Mapping(w, e) <==> SelectEvidence(w) == Some(e) && BuildCandidate(e).Ok? {
      MapsSelected(w, e);
    }
    KnowledgeReplies(w, tool);
    KnowledgeAbides(w, tool);
    if e :| Mapping(w, e) {
      SuccessIsSuccess(w, Knowledge, reply, [], [CandidatePayload(BuildCandidate(e).value)], [], w.updatedAt);
    } else {
      if SelectEvidence(w).Some? {
        assert !Mapping(w, SelectEvidence(w).value);
      }
      FailureIsFailure(w, Knowledge, reply, "knowledge_mapping_failed", w.updatedAt);
    }
  }

  // ----- the Validator -----

  /** All stored results stand and candidate c, with evidence e, is the only one without one. */
  predicate Validating(w: WorkflowState, c: Candidate, e: Evidence) {
    Readable(w) && w.candidates != [] && ResultsStand(w) && OpenCandidate(w, c, e) && Mappable(e)
  }

  /** A verdict of this instant on candidate c, for its own identifiers: passed, with the
      knowledge VERIFIED at that instant, exactly when c is the mapping of e. */
  predicate Verdict(c: Candidate, e: Evidence, at: int, v: ValidationResult) {
    && v.workflowId == c.workflowId && v.productId == c.productId
    && v.candidateId == c.candidateId && v.sourceEvidenceId == c.sourceEvidenceId
    && v.validatedAt == at && v.schemaVersion == "1"
    && v.status == (if BuildCandidate(e) == Ok(c) then "passed" else "failed")
    && v.checks == [Check("candidate_matches_source_evidence", v.status)]
    && v.verified == (if BuildCandidate(e) == Ok(c) then Some(Verify(c.knowledge, at)) else None)
  }

  lemma ValidatesSelected(w: WorkflowState, c: Candidate, e: Evidence)
    ensures Validating(w, c, e) <==> SelectCandidate(w) == Ok((c, e)) && BuildValidation(c, e, w.updatedAt).Ok?
    ensures Validating(w, c, e) ==> Verdict(c, e, w.updatedAt, BuildValidation(c, e, w.updatedAt).value)
  {
    hide ValidEvidence, ValidCandidate, SelectCandidate, BuildCandidate, Readable, ResultsStand, OpenCandidate,
         Mappable,
         CandidatesIn, EvidenceIn, Verify, ValidationIdFor;
    SelectsCandidateExactly(w, c, e);
    if SelectCandidate(w) == Ok((c, e)) {
      OpenCandidateIsValid(w, c, e);
      BuildsExactly(e);
    }
  }

  lemma ValidatorReplies(w: WorkflowState, tool: ToolOutcome)
    ensures var reply := SauceReply(w, Validator, tool);
            if SelectCandidate(w).Ok? && BuildValidation(SelectCandidate(w).value.0, SelectCandidate(w).value.1,
                                                         w.updatedAt).Ok?
            then
              SucceedsWith(w, Validator, reply, [], [],
                           [ValidationPayload(BuildValidation(SelectCandidate(w).value.0, SelectCandidate(w).value.1,
                                                              w.updatedAt).value)], w.updatedAt)
            else reply.None? || FailsWith(w, Validator, reply, "validator_execution_failed", w.updatedAt)
  {
    hide SelectCandidate, BuildValidation, SucceedsWith, FailsWith, Success, SauceAgents.Failure;
    RequestFields(w, Validator);
    SelectionIgnoresRouting(w, Validator);
    assert RequestFor(w, Validator).state == Entering(w, Validator);
    hide RequestFor;
    FailureFields(w, Validator, VALIDATOR_FAILURE, w.updatedAt);
    if SelectCandidate(w).Ok? {
      var (c, e) := SelectCandidate(w).value;
      if BuildValidation(c, e, w.updatedAt).Ok? {
        SuccessFields(w, Validator,
                      EMPTY_PATCH.(validations := [ValidationPayload(BuildValidation(c, e, w.updatedAt).value)]),
                      w.updatedAt);
      }
    }
  }

  /** The Validator succeeds exactly when it has such a candidate, with its verdict; it lets an
      error escape exactly in the states described before, and fails in every other case. */
  lemma ValidatorAnswersExactly(w: WorkflowState, tool: ToolOutcome)
    ensures var reply := SauceReply(w, Validator, tool);
            && (forall c, e :: Validating(w, c, e) ==>
                  exists v :: Verdict(c, e, w.updatedAt, v)
                              && SucceedsWith(w, Validator, reply, [], [], [ValidationPayload(v)], w.updatedAt))
            && (reply.None? <==> ValidatorRaises(w))
            && ((forall c, e :: !Validating(w, c, e)) && !ValidatorRaises(w) ==>
                  FailsWith(w, Validator, reply, "validator_execution_failed", w.updatedAt))
    ensures SauceReply(w, Validator, tool).Some? ==>
              (SuccessPatch(Validator, SauceReply(w, Validator, tool).value.patch) <==>
                 exists c, e :: Validating(w, c, e))
  {
    hide SucceedsWith, FailsWith, SelectCandidate, BuildValidation, Validating, Verdict, SuccessPatch, SauceReply,
         FailurePatch, ValidatorRaises;
    var reply := SauceReply(w, Validator, tool);
    forall c, e
      ensures Validating(w, c, e) <==> SelectCandidate(w) == Ok((c, e)) && BuildValidation(c, e, w.updatedAt).Ok?
      ensures Validating(w, c, e) ==> Verdict(c, e, w.updatedAt, BuildValidation(c, e, w.updatedAt).value)
    {
      ValidatesSelected(w, c, e);
    }
    ValidatorReplies(w, tool);
    ValidatorAbidesExactly(w, tool);
    RaisedReply(w, tool);
    if c, e :| Validating(w, c, e) {
      var v := BuildValidation(c, e, w.updatedAt).value;
      SuccessIsSuccess(w, Validator, reply, [], [], [ValidationPayload(v)], w.updatedAt);
    } else {
      if SelectCandidate(w).Ok? {
        assert !Validating(w, SelectCandidate(w).value.0, SelectCandidate(w).value.1);
      }
      if reply.Some? {
        FailureIsFailure(w, Validator, reply, "validator_execution_failed", w.updatedAt);
      }
    }
  }

  lemma RaisedReply(w: WorkflowState, tool: ToolOutcome)
    ensures SauceReply(w, Validator, tool).None? <==> ValidatorRaises(w)
  {
    hide ValidatorRaises, SelectCandidate;
    ValidatorAbidesExactly(w, tool);
    SelectionIgnoresRouting(w, Validator);
    ValidatorAnswers(w);
    RaisesExactly(w);
    hide Abides, MappingErrorEscapes, ValidatorReply;
  }
}
