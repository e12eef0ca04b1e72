/** The SauceDemo agents (products/demo/explorer_agent.py, knowledge_agent.py,
    validator_agent.py): what each answers in any state, and when it keeps the agent contract. */
module SauceAgents {
  import opened Wrappers
  import opened Boundary
  import opened Models
  import opened Sequences
  import opened Workflow
  import opened SupervisorPolicy
  import opened Engine
  import opened EngineRuns
  import opened KnowledgeMapping
  import opened KnowledgeValidation
  import opened SauceSelection
  import Decimals

  const EXPLORATION_TOOL_ID := "playwright.saucedemo_explore"
  const EXPLORER_FAILURE := "explorer_tool_failed"
  const KNOWLEDGE_FAILURE := "knowledge_mapping_failed"
  const VALIDATOR_FAILURE := "validator_execution_failed"

  // ----- requests -----

  function RoleText(role: Role): string {
    match role
    case Supervisor => "supervisor"
    case Explorer => "explorer"
    case Validator => "validator"
    case Knowledge => "knowledge"
  }

  function IterationText(n: int): string {
    if n < 0 then "-" + Decimals.Digits(-n) else Decimals.Digits(n)
  }

  /** The tool invocation a capture is attributed to. */
  function CaptureIdFor(id: InvocationId): string {
    id.workflowId + ":" + IterationText(id.iteration) + ":" + RoleText(id.role) + ":" + EXPLORATION_TOOL_ID
  }

  /** A request: the state the agent is entered with, its invocation and its instant. */
  datatype Request = Request(state: WorkflowState, id: InvocationId, at: int)

  function RequestFor(w: WorkflowState, role: Role): Request {
    var e := Entering(w, role);
    Request(e, InvocationId(e.workflowId, e.iteration, role), e.updatedAt)
  }

  /** An answer of one completed call with one artifact, or of one failed call. */
  function Success(r: Request, role: Role, artifacts: Patch, at: int): AgentResult {
    AgentResult(r.state.workflowId, role, r.id,
                artifacts.(history := [Invocation(role, r.at, Some(at), InvocationCompleted)], updatedAt := Some(at)),
                  at)
  }

  function Failure(r: Request, role: Role, code: string, at: int): AgentResult {
    AgentResult(r.state.workflowId, role, r.id,
                EMPTY_PATCH.(history := [Invocation(role, r.at, Some(at), InvocationFailed)], errors := [code],
                             updatedAt := Some(at)), at)
  }

  // ----- Explorer -----

  datatype ToolResult = ToolResult(
    toolId: string,
    workflowId: string,
    captureId: string,
    succeeded: bool,
    onlyEvidence: bool,
    output: Payload,
    completedAt: int)

  /** What one tool dispatch does: it raises, returns something else, or returns a result. */
  datatype ToolOutcome = DispatchRaised | Malformed | Returned(result: ToolResult)

  predicate Correlated(r: Request, t: ToolResult) {
    && t.toolId == EXPLORATION_TOOL_ID && t.workflowId == r.state.workflowId
    && t.captureId == CaptureIdFor(r.id) && t.completedAt >= r.at
  }

  predicate Attributed(e: Evidence, r: Request) {
    && e.workflowId == r.state.workflowId && e.productId == r.state.productId
    && e.source.toolId == EXPLORATION_TOOL_ID && e.source.captureId == CaptureIdFor(r.id)
  }

  function ExplorerReply(r: Request, tool: ToolOutcome): AgentResult {
    match tool
    case DispatchRaised => Failure(r, Explorer, EXPLORER_FAILURE, r.at)
    case Malformed => Failure(r, Explorer, EXPLORER_FAILURE, r.at)
    case Returned(t) =>
      var at := if t.completedAt < r.at then r.at else t.completedAt;
      if !Correlated(r, t) || !t.succeeded || !t.onlyEvidence then Failure(r, Explorer, EXPLORER_FAILURE, at)
      else
        match ParseEvidence(t.output)
        case None => Failure(r, Explorer, EXPLORER_FAILURE, at)
        case Some(e) =>
          if !Attributed(e, r) then Failure(r, Explorer, EXPLORER_FAILURE, at)
          else Success(r, Explorer, EMPTY_PATCH.(evidence := [EvidencePayload(e)]), t.completedAt)
  }

  // ----- Knowledge and Validator -----

  function KnowledgeReply(r: Request): AgentResult {
    match SelectEvidence(r.state)
    case None => Failure(r, Knowledge, KNOWLEDGE_FAILURE, r.at)
    case Some(e) =>
      match BuildCandidate(e)
      case Err(_) => Failure(r, Knowledge, KNOWLEDGE_FAILURE, r.at)
      case Ok(c) => Success(r, Knowledge, EMPTY_PATCH.(candidates := [CandidatePayload(c)]), r.at)
  }

  /** None when a mapping error, which the agent does not catch, escapes. */
  function ValidatorReply(r: Request): Reply {
    match SelectCandidate(r.state)
    case Err(Rejected) => Some(Failure(r, Validator, VALIDATOR_FAILURE, r.at))
    case Err(MappingFailed(_)) => None
    case Ok((c, e)) =>
      match BuildValidation(c, e, r.at)
      case Err(Rejected) => Some(Failure(r, Validator, VALIDATOR_FAILURE, r.at))
      case Err(MappingFailed(_)) => None
      case Ok(v) => Some(Success(r, Validator, EMPTY_PATCH.(validations := [ValidationPayload(v)]), r.at))
  }

  function SauceReply(w: WorkflowState, role: Role, tool: ToolOutcome): Reply {
    var r := RequestFor(w, role);
    match role
    case Explorer => Some(ExplorerReply(r, tool))
    case Knowledge => Some(KnowledgeReply(r))
    case Validator => ValidatorReply(r)
    case Supervisor => None
  }

  // ----- the agent contract -----

  lemma FailureAbides(w: WorkflowState, role: Role, code: string, at: int)
    requires at >= w.updatedAt && IsExecutable(role)
    ensures Abides(w, role, Some(Failure(RequestFor(w, role), role, code, at)))
  {
    hide Digest, SafePayload;
  }

  lemma SuccessAbides(w: WorkflowState, role: Role, artifacts: Patch, at: int)
    requires at >= w.updatedAt && IsExecutable(role)
    requires artifacts == EMPTY_PATCH.(evidence := artifacts.evidence, candidates := artifacts.candidates,
                                       validations := artifacts.validations)
    requires |artifacts.evidence| == (if role == Explorer then 1 else 0) && AllSafe(artifacts.evidence)
    requires |artifacts.candidates| == (if role == Knowledge then 1 else 0) && AllSafe(artifacts.candidates)
    requires |artifacts.validations| == (if role == Validator then 1 else 0) && AllSafe(artifacts.validations)
    requires role == Validator ==> IsVerdict(artifacts.validations[0])
    ensures Abides(w, role, Some(Success(RequestFor(w, role), role, artifacts, at)))
  {
    hide AllSafe, SafePayload, IsVerdict;
  }

  lemma ExplorerAbides(w: WorkflowState, tool: ToolOutcome)
    ensures Abides(w, Explorer, SauceReply(w, Explorer, tool))
  {
    hide Abides, ValidEvidence, CaptureIdFor, Failure, Success;
    var r := RequestFor(w, Explorer);
    FailureAbides(w, Explorer, EXPLORER_FAILURE, r.at);
    if tool.Returned? {
      var t := tool.result;
      FailureAbides(w, Explorer, EXPLORER_FAILURE, if t.completedAt < r.at then r.at else t.completedAt);
      if t.output.EvidencePayload? && t.completedAt >= r.at {
        SuccessAbides(w, Explorer, EMPTY_PATCH.(evidence := [EvidencePayload(t.output.evidence)]), t.completedAt);
      }
    }
  }

  lemma KnowledgeAbides(w: WorkflowState, tool: ToolOutcome)
    ensures Abides(w, Knowledge, SauceReply(w, Knowledge, tool))
  {
    hide Abides, ValidEvidence, Failure, Success, BuildCandidate, SelectEvidence, ValidCandidate, SafePayload;
    var r := RequestFor(w, Knowledge);
    FailureAbides(w, Knowledge, KNOWLEDGE_FAILURE, r.at);
    if SelectEvidence(r.state).Some? && BuildCandidate(SelectEvidence(r.state).value).Ok? {
      var e := SelectEvidence(r.state).value;
      SelectedEvidence(r.state);
      BuildsExactly(e);
      CandidateIsSafe(BuildCandidate(e).value);
      SuccessAbides(w, Knowledge, EMPTY_PATCH.(candidates := [CandidatePayload(BuildCandidate(e).value)]), r.at);
    }
  }

  /** The Validator lets a mapping error escape instead of answering: what is stored can be
      read, and either a stored result rests on evidence that cannot be mapped while all results
      before it stand, or all results stand and the one open candidate has such evidence. */
  predicate ValidatorRaises(w: WorkflowState) {
    Readable(w) && w.candidates != [] && (ResultEscapes(w) || (ResultsStand(w) && OpenUnmappable(w)))
  }

  predicate OpenUnmappable(w: WorkflowState)
    requires Readable(w)
  {
    exists c, e :: c in CandidatesIn(w) && e in EvidenceIn(w) && OpenCandidate(w, c, e) && !Mappable(e)
  }

  lemma SelectionIgnoresRouting(w: WorkflowState, role: Role)
    ensures SelectCandidate(Entering(w, role)) == SelectCandidate(w)
    ensures SelectEvidence(Entering(w, role)) == SelectEvidence(w)
  {
    hide StoredEvidence, StoredCandidates, CheckResults, NotIn, ById;
  }

  /** It keeps the contract in every other state, and in no such state. */
  lemma ValidatorAbidesExactly(w: WorkflowState, tool: ToolOutcome)
    ensures Abides(w, Validator, SauceReply(w, Validator, tool)) <==> !ValidatorRaises(w)
  {
    SelectionIgnoresRouting(w, Validator);
    ValidatorAnswers(w);
    RaisesExactly(w);
    assert !Abides(w, Validator, None);
    hide Abides, ValidatorReply, ValidatorRaises, RequestFor, MappingErrorEscapes;
  }

  /** The outcome of the calls: the selection or the validation ends in a mapping error. */
  predicate MappingErrorEscapes(w: WorkflowState) {
    match SelectCandidate(w)
    case Err(f) => f.MappingFailed?
    case Ok((c, e)) => IsMappingError(BuildValidation(c, e, w.updatedAt))
  }

  lemma RaisesExactly(w: WorkflowState)
    ensures MappingErrorEscapes(w) <==> ValidatorRaises(w)
  {
    hide SelectCandidate, BuildValidation, Readable, ResultEscapes, ResultsStand, OpenCandidate, ValidEvidence,
         ValidCandidate,
         Mappable, CandidatesIn, EvidenceIn, SameScope;
    SelectionEscapes(w);
    if SelectCandidate(w).Ok? {
      var (c, e) := SelectCandidate(w).value;
      SelectsCandidateExactly(w, c, e);
      OpenCandidateIsValid(w, c, e);
      MappingEscapesExactly(c, e, w.updatedAt);
    }
    forall c, e | Readable(w) && w.candidates != [] && ResultsStand(w) && OpenCandidate(w, c, e)
      ensures SelectCandidate(w) == Ok((c, e))
    {
      SelectsCandidateExactly(w, c, e);
    }
  }

  lemma ValidatorAnswers(w: WorkflowState)
    requires SelectCandidate(RequestFor(w, Validator).state) == SelectCandidate(w)
    ensures MappingErrorEscapes(w) <==> ValidatorReply(RequestFor(w, Validator)).None?
    ensures !MappingErrorEscapes(w) ==> Abides(w, Validator, ValidatorReply(RequestFor(w, Validator)))
  {
    hide Abides, ValidEvidence, Failure, Success, BuildValidation, SelectCandidate, ValidCandidate, Mappable, SameScope;
    FailureAbides(w, Validator, VALIDATOR_FAILURE, w.updatedAt);
    assert RequestFor(w, Validator).at == w.updatedAt;
    hide RequestFor;
    if SelectCandidate(w).Ok? {
      var (c, e) := SelectCandidate(w).value;
      if BuildValidation(c, e, w.updatedAt).Ok? {
        ResultAbides(w, c, e);
      }
    }
  }

  /** When the names of all stored evidence stay apart, the Validator keeps the contract. */
  lemma ValidatorAbides(w: WorkflowState, tool: ToolOutcome)
    requires forall p :: p in w.evidence && p.EvidencePayload? ==> Mappable(p.evidence)
    ensures Abides(w, Validator, SauceReply(w, Validator, tool))
  {
    hide Abides, SauceReply, Mappable, Readable, Standing, ValidEvidence, ValidCandidate, EvidenceTable, CandidateTable,
         OpenCandidate, EvidenceIn, CandidatesIn;
    ValidatorAbidesExactly(w, tool);
    if Readable(w) {
      forall id | id in EvidenceTable(w) ensures Mappable(EvidenceTable(w)[id]) {
        EvidenceLookup(w, id);
      }
      forall c, e | OpenCandidate(w, c, e) ensures Mappable(e) {
        MappableLookup(w, c, e);
      }
    }
  }

  lemma MappableLookup(w: WorkflowState, c: Candidate, e: Evidence)
    requires Readable(w) && OpenCandidate(w, c, e)
    requires forall id :: id in EvidenceTable(w) ==> Mappable(EvidenceTable(w)[id])
    ensures Mappable(e)
  {
    hide Mappable, EvidenceTable, Readable, CandidatesIn;
  }

  lemma ResultAbides(w: WorkflowState, c: Candidate, e: Evidence)
    requires BuildValidation(c, e, w.updatedAt).Ok?
    ensures var v := BuildValidation(c, e, w.updatedAt).value;
            Abides(w, Validator, Some(Success(RequestFor(w, Validator), Validator,
                                              EMPTY_PATCH.(validations := [ValidationPayload(v)]), w.updatedAt)))
  {
    hide Abides, Success, SafePayload;
    var v := BuildValidation(c, e, w.updatedAt).value;
    BuiltResultParses(c, e, w.updatedAt);
    assert v.status == "passed" || v.status == "failed";
    hide BuildValidation;
    SuccessAbides(w, Validator, EMPTY_PATCH.(validations := [ValidationPayload(v)]), w.updatedAt);
  }

  // ----- a state in which the Validator does raise -----

  function AmbiguousEvidence(): Evidence {
    Evidence("1", "e", "w", "demo", Source("s", "t", "c"), 0, [ObservedPage("p", "u", "t", "f")],
             [ObservedElement("x", "p", "r", "a", None, [Attribute("-", ""), Attribute("_", "")])], [], [])
  }

  /** A candidate that is valid on its own, though it is no mapping of that evidence. */
  function BareCandidate(): Candidate {
    Candidate(CANDIDATE_SCHEMA_VERSION, CandidateIdFor("w", "demo", "e"), "w", "demo", "e",
              KnowledgeArtifact(ArtifactIdFor("w", "demo", "e"), "demo", MAPPING_PROVENANCE, [], [], [], []))
  }

  lemma SeparatorsVanish()
    ensures NormalizeKey("-") == NormalizeKey("_") == ""
    ensures !IsProhibited("-") && !IsProhibited("_")
  {
    assert "-"[..0] == "" && "_"[..0] == "";
    assert Collapse("-") == "" && Collapse("_") == "";
  }

  lemma AmbiguousElement()
    ensures var x := AmbiguousEvidence().elements[0];
            ValidObservedElement(x) && !Distinct(Normalized(x.attributes)) && x.pageId == "p"
  {
    SeparatorsVanish();
    hide NormalizeKey, IsProhibited;
    var x := AmbiguousEvidence().elements[0];
    assert Normalized(x.attributes)[0] == Normalized(x.attributes)[1];
    assert Names(x.attributes) == ["-", "_"];
  }

  lemma AmbiguousEvidenceIsValid()
    ensures ValidEvidence(AmbiguousEvidence()) && !Mappable(AmbiguousEvidence())
  {
    AmbiguousElement();
    hide ValidObservedElement, Normalized, Distinct;
    var e := AmbiguousEvidence();
    assert e.elements[0] in e.elements;
    assert Ids(e.pages, ObservedPageId) == ["p"] && Ids(e.elements, ObservedElementId) == ["x"];
    assert Ids(e.locators, ObservedLocatorId) == [] && Ids(e.interactions, ObservedInteractionId) == [];
    SingletonDistinct("p");
    SingletonDistinct("x");
    assert "p" in Ids(e.pages, ObservedPageId);
  }

  lemma SingletonDistinct(x: string)
    ensures Distinct([x]) && Distinct<string>([])
  {}

  lemma BareCandidateIsValid()
    ensures ValidCandidate(BareCandidate())
  {
    hide Digest;
    assert |CandidateIdFor("w", "demo", "e")| >= 1 && |ArtifactIdFor("w", "demo", "e")| >= 1;
  }

  /** Stored evidence whose attribute names differ only in separators, beside a candidate made
      for it elsewhere, makes the Validator raise instead of reporting a failure. */
  lemma ValidatorCanRaise(w: WorkflowState)
    requires w.workflowId == "w" && w.productId == "demo" && w.validations == []
    requires w.evidence == [EvidencePayload(AmbiguousEvidence())] && w.candidates == [CandidatePayload(BareCandidate())]
    ensures ValidatorRaises(w) && SauceReply(w, Validator, DispatchRaised).None?
  {
    AmbiguousEvidenceIsValid();
    BareCandidateIsValid();
    var e, c := AmbiguousEvidence(), BareCandidate();
    hide ValidEvidence, ValidCandidate, Mappable;
    OnlyCandidate(w, c, e);
    MappingEscapesExactly(c, e, w.updatedAt);
    RaisesExactly(w);
    SelectionIgnoresRouting(w, Validator);
    ValidatorAnswers(w);
    hide SelectCandidate, ValidatorRaises, BuildValidation;
  }

  /** A failed result for that candidate, valid on its own. */
  function FailedResult(at: int): ValidationResult {
    ValidationResult(VALIDATION_SCHEMA_VERSION, ValidationIdFor("w", "demo", BareCandidate().candidateId, "e"),
                     "w", "demo", BareCandidate().candidateId, "e", "failed", at,
                       [Check(CANDIDATE_MATCH_CHECK, "failed")], None)
  }

  lemma FailedResultIsValid(at: int)
    ensures ValidResult(FailedResult(at))
  {
    hide Digest;
    assert |CandidateIdFor("w", "demo", "e")| >= 1;
    assert |FailedResult(at).validationId| >= 1;
  }

  /** The same happens when that candidate already has a stored result, of any instant, which the Validator rebuilds. */
  lemma ValidatorCanRaiseOnResult(w: WorkflowState, at: int)
    requires w.workflowId == "w" && w.productId == "demo" && w.validations == [ValidationPayload(FailedResult(at))]
    requires w.evidence == [EvidencePayload(AmbiguousEvidence())] && w.candidates == [CandidatePayload(BareCandidate())]
    ensures ValidatorRaises(w) && SauceReply(w, Validator, DispatchRaised).None?
  {
    AmbiguousEvidenceIsValid();
    BareCandidateIsValid();
    FailedResultIsValid(at);
    var e, c := AmbiguousEvidence(), BareCandidate();
    hide ValidEvidence, ValidCandidate, Mappable, ValidResult;
    OneStored(w, c, e);
    OneItem(e, EvidenceId);
    OneItem(c, CandidateId);
    assert c.candidateId == FailedResult(at).candidateId;
    assert Escapes(w.validations[0], "w", "demo", map[c.candidateId := c], map[e.evidenceId := e]);
    assert w.validations[..0] == [];
    hide StoredEvidence, StoredCandidates, ById, Escapes, Stands, SauceReply, ValidatorReply, BuildValidation,
         CandidateIdFor;
    assert ResultEscapes(w);
    RaisesExactly(w);
    SelectionIgnoresRouting(w, Validator);
    ValidatorAnswers(w);
    hide MappingErrorEscapes, ValidatorRaises;
    assert SauceReply(w, Validator, DispatchRaised).None?;
  }

  lemma OnlyCandidate(w: WorkflowState, c: Candidate, e: Evidence)
    requires w.evidence == [EvidencePayload(e)] && w.candidates == [CandidatePayload(c)] && w.validations == []
    requires ValidEvidence(e) && e.workflowId == w.workflowId && e.productId == w.productId
    requires ValidCandidate(c) && SameScope(c, e)
    ensures SelectCandidate(w) == Ok((c, e))
  {
    hide ValidEvidence, ValidCandidate, StoredEvidence, StoredCandidates, ById, NotIn, CheckResults, Ids, Elements,
         SelectCandidate, SameScope;
    OneStored(w, c, e);
    CheckNone(w.workflowId, w.productId, ById([c], CandidateId), ById([e], EvidenceId));
    OneItem(e, EvidenceId);
    OneItem(c, CandidateId);
    OneOpen(c, CandidateId);
    SelectsOpen(w, [e], [c], c, e);
  }

  lemma SelectsOpen(w: WorkflowState, es: seq<Evidence>, cs: seq<Candidate>, c: Candidate, e: Evidence)
    requires w.evidence != [] && w.candidates != [] && SameScope(c, e)
    requires StoredEvidence(w.evidence, w.workflowId, w.productId) == Some(es)
    requires StoredCandidates(w.candidates, w.workflowId, w.productId, Elements(Ids(es, EvidenceId))) == Some(cs)
    requires CheckResults(w.validations, w.workflowId, w.productId, ById(cs, CandidateId), ById(es, EvidenceId))
             == Ok([])
    requires Elements(Ids([], ResultCandidateId)) == {} && NotIn(cs, CandidateId, {}) == [c]
    requires ById(es, EvidenceId) == map[EvidenceId(e) := e]
    ensures SelectCandidate(w) == Ok((c, e))
  {
    hide StoredEvidence, StoredCandidates, ById, NotIn, CheckResults, Ids, Elements;
  }

  lemma OneStored(w: WorkflowState, c: Candidate, e: Evidence)
    requires w.evidence == [EvidencePayload(e)] && w.candidates == [CandidatePayload(c)]
    requires ValidEvidence(e) && e.workflowId == w.workflowId && e.productId == w.productId
    requires ValidCandidate(c) && SameScope(c, e)
    ensures StoredEvidence(w.evidence, w.workflowId, w.productId) == Some([e])
    ensures StoredCandidates(w.candidates, w.workflowId, w.productId, Elements(Ids([e], EvidenceId))) == Some([c])
  {
    hide ValidEvidence, ValidCandidate;
    assert EvidenceOf(w.evidence) == [e] && CandidatesOf(w.candidates) == [c];
    assert Ids([e], EvidenceId)[0] == e.evidenceId;
  }
}
