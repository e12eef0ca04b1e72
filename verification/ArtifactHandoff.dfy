/** The strict handoff from a completed workflow to a durable artifact
    (products/demo/artifact_handoff.py). */
module ArtifactHandoff {
  import opened Wrappers
  import opened Models
  import opened Sequences
  import opened Workflow
  import opened KnowledgeMapping
  import opened KnowledgeValidation
  import opened SauceSelection

  const SAUCEDEMO_WORKFLOW_TYPE := "saucedemo_pmqa"

  predicate TerminalState(w: WorkflowState, productId: string) {
    && ValidState(w) && w.workflowType == SAUCEDEMO_WORKFLOW_TYPE && w.productId == productId
    && w.status == Completed && w.termination == Some(GoalCompleted) && w.errors == [] && w.validations != []
  }

  predicate AppendOrder(es: seq<Evidence>, cs: seq<Candidate>, vs: seq<ValidationResult>) {
    && |es| == |cs| == |vs|
    && Ids(cs, SourceId) == Ids(es, EvidenceId)
    && Ids(vs, ResultCandidateId) == Ids(cs, CandidateId)
    && Ids(vs, ResultSourceId) == Ids(es, EvidenceId)
  }

  /** The snapshot of the latest result, after it has been correlated and rebuilt once more. */
  function LatestSnapshot(w: WorkflowState, evidence: map<string, Evidence>, candidates: map<string, Candidate>,
                          v: ValidationResult): Option<KnowledgeArtifact> {
    if v.status != "passed" || v.verified.None? then None
    else if v.workflowId != w.workflowId || v.productId != w.productId then None
    else if v.candidateId !in candidates || v.sourceEvidenceId !in evidence then None
    else
      var c, e := candidates[v.candidateId], evidence[v.sourceEvidenceId];
      if c.sourceEvidenceId != e.evidenceId then None
      else if BuildValidation(c, e, v.validatedAt) != Ok(v) then None
      else if !AllLifecycles(v.verified.value, VerifiedAt(v.validatedAt)) then None
      else Some(v.verified.value)
  }

  /** The extracted artifact, or None for a handoff error. */
  function ExtractVerifiedKnowledge(w: WorkflowState, productId: string): Option<KnowledgeArtifact> {
    if !TerminalState(w, productId) then None
    else
      match StoredEvidence(w.evidence, w.workflowId, w.productId)
      case None => None
      case Some(es) =>
        match StoredCandidates(w.candidates, w.workflowId, w.productId, Elements(Ids(es, EvidenceId)))
        case None => None
        case Some(cs) =>
          var evidence, candidates := ById(es, EvidenceId), ById(cs, CandidateId);
          match CheckResults(w.validations, w.workflowId, w.productId, candidates, evidence)
          case Err(_) => None
          case Ok(vs) =>
            if !AppendOrder(es, cs, vs) then None
            else LatestSnapshot(w, evidence, candidates, vs[|vs| - 1])
  }

  // ----- which states are accepted -----

  /** Evidence, candidate and result number i belong together. */
  predicate AlignedAt(w: WorkflowState, i: nat)
    requires i < |w.evidence| == |w.candidates| == |w.validations|
  {
    && w.evidence[i].EvidencePayload? && ValidEvidence(w.evidence[i].evidence)
    && w.evidence[i].evidence.workflowId == w.workflowId && w.evidence[i].evidence.productId == w.productId
    && w.candidates[i].CandidatePayload? && w.validations[i].ValidationPayload?
    && var v := w.validations[i].validation;
       BuildValidation(w.candidates[i].candidate, w.evidence[i].evidence, v.validatedAt) == Ok(v)
  }

  predicate Aligned(w: WorkflowState) {
    && |w.evidence| == |w.candidates| == |w.validations|
    && (forall i :: 0 <= i < |w.evidence| ==> AlignedAt(w, i))
  }

  lemma AlignedKinds(w: WorkflowState)
    requires Aligned(w)
    ensures forall i :: 0 <= i < |w.evidence| ==>
              w.evidence[i].EvidencePayload? && w.candidates[i].CandidatePayload? && w.validations[i].ValidationPayload?
  {
    forall i | 0 <= i < |w.evidence|
      ensures w.evidence[i].EvidencePayload? && w.candidates[i].CandidatePayload? && w.validations[i].ValidationPayload?
    {
      assert AlignedAt(w, i);
    }
  }

  function StoredResults(w: WorkflowState): (r: seq<ValidationResult>)
    requires Aligned(w)
    ensures |r| == |w.validations| && forall i :: 0 <= i < |r| ==> w.validations[i] == ValidationPayload(r[i])
  {
    AlignedKinds(w);
    seq(|w.validations|, i requires 0 <= i < |w.validations| => w.validations[i].validation)
  }

  function AlignedEvidence(w: WorkflowState): seq<Evidence>
    requires Aligned(w)
  {
    AlignedKinds(w);
    EvidenceOf(w.evidence)
  }

  function AlignedCandidates(w: WorkflowState): seq<Candidate>
    requires Aligned(w)
  {
    AlignedKinds(w);
    CandidatesOf(w.candidates)
  }

  /** A completed, errorless workflow of this type and product whose items are aligned index by
      index, under distinct identifiers, and whose last result passed. */
  predicate HandoffForm(w: WorkflowState, productId: string) {
    && ValidState(w)
    && w.workflowType == "saucedemo_pmqa" && w.productId == productId
    && w.status == Completed && w.termination == Some(GoalCompleted) && w.errors == [] && w.validations != []
    && Aligned(w)
    && Distinct(Ids(AlignedEvidence(w), EvidenceId)) && Distinct(Ids(AlignedCandidates(w), CandidateId))
    && Distinct(Ids(StoredResults(w), ResultId))
    && StoredResults(w)[|w.validations| - 1].status == "passed"
  }

  // ----- accepted states have the form -----

  lemma CheckedResult(p: Payload, v: ValidationResult, workflowId: string, productId: string,
                      candidates: map<string, Candidate>, evidence: map<string, Evidence>, c: Candidate, e: Evidence)
    requires v.candidateId in candidates && candidates[v.candidateId] == c
    requires c.sourceEvidenceId in evidence && evidence[c.sourceEvidenceId] == e
    requires e.workflowId == workflowId && e.productId == productId
    ensures CheckResult(p, workflowId, productId, candidates, evidence) == Ok(v) <==>
              p == ValidationPayload(v) && BuildValidation(c, e, v.validatedAt) == Ok(v)
  {
    if BuildValidation(c, e, v.validatedAt) == Ok(v) {
      BuiltResultParses(c, e, v.validatedAt);
      assert SameScope(c, e) && v.workflowId == c.workflowId && v.productId == c.productId
        && v.sourceEvidenceId == c.sourceEvidenceId;
    }
    hide BuildValidation, ValidResult;
  }

  lemma Lookup(w: WorkflowState, es: seq<Evidence>, cs: seq<Candidate>, i: nat)
    requires |es| == |cs| && i < |es| && Ids(cs, SourceId) == Ids(es, EvidenceId)
    requires Distinct(Ids(es, EvidenceId)) && Distinct(Ids(cs, CandidateId))
    ensures cs[i].candidateId in ById(cs, CandidateId) && ById(cs, CandidateId)[cs[i].candidateId] == cs[i]
    ensures cs[i].sourceEvidenceId == es[i].evidenceId
    ensures es[i].evidenceId in ById(es, EvidenceId) && ById(es, EvidenceId)[es[i].evidenceId] == es[i]
  {
    ByIdLookup(es, EvidenceId, i);
    ByIdLookup(cs, CandidateId, i);
    assert Ids(cs, SourceId)[i] == Ids(es, EvidenceId)[i];
    assert CandidateId(cs[i]) == cs[i].candidateId && EvidenceId(es[i]) == es[i].evidenceId;
    hide ById;
  }

  lemma AcceptedIsAligned(w: WorkflowState, es: seq<Evidence>, cs: seq<Candidate>, vs: seq<ValidationResult>)
    requires StoredEvidence(w.evidence, w.workflowId, w.productId) == Some(es)
    requires StoredCandidates(w.candidates, w.workflowId, w.productId, Elements(Ids(es, EvidenceId))) == Some(cs)
    requires CheckResults(w.validations, w.workflowId, w.productId, ById(cs, CandidateId), ById(es, EvidenceId))
             == Ok(vs)
    requires AppendOrder(es, cs, vs)
    ensures Aligned(w) && StoredResults(w) == vs && Distinct(Ids(vs, ResultId))
  {
    var candidates, evidence := ById(cs, CandidateId), ById(es, EvidenceId);
    CheckedExactly(w.validations, w.workflowId, w.productId, candidates, evidence, vs);
    hide CheckResults, CheckResult, ById, ValidEvidence, ValidCandidate, BuildValidation;
    forall i | 0 <= i < |w.evidence| ensures AlignedAt(w, i) && w.validations[i] == ValidationPayload(vs[i]) {
      Lookup(w, es, cs, i);
      assert Ids(vs, ResultCandidateId)[i] == Ids(cs, CandidateId)[i];
      assert EvidenceItem(w.evidence[i], w.workflowId, w.productId);
      CheckedResult(w.validations[i], vs[i], w.workflowId, w.productId, candidates, evidence, cs[i], es[i]);
    }
  }

  // ----- states of the form are accepted -----

  lemma AlignedScope(w: WorkflowState, i: nat)
    requires Aligned(w) && i < |w.evidence|
    ensures var e, c, v := AlignedEvidence(w)[i], AlignedCandidates(w)[i], StoredResults(w)[i];
            && AlignedAt(w, i) && ValidCandidate(c) && SameScope(c, e)
            && v.candidateId == c.candidateId && v.sourceEvidenceId == e.evidenceId
            && v.workflowId == w.workflowId && v.productId == w.productId
            && (v.status == "passed" <==> v.verified.Some?)
            && (v.verified.Some? ==> AllLifecycles(v.verified.value, VerifiedAt(v.validatedAt)))
  {
    assert AlignedAt(w, i);
    var e, c, v := w.evidence[i].evidence, w.candidates[i].candidate, w.validations[i].validation;
    PassesExactly(c, e, v.validatedAt);
    hide ValidEvidence, ValidCandidate, BuildCandidate, AllLifecycles;
  }

  lemma AlignedStored(w: WorkflowState)
    requires Aligned(w)
    requires Distinct(Ids(AlignedEvidence(w), EvidenceId)) && Distinct(Ids(AlignedCandidates(w), CandidateId))
    ensures var es, cs := AlignedEvidence(w), AlignedCandidates(w);
            && StoredEvidence(w.evidence, w.workflowId, w.productId) == Some(es)
            && StoredCandidates(w.candidates, w.workflowId, w.productId, Elements(Ids(es, EvidenceId))) == Some(cs)
            && AppendOrder(es, cs, StoredResults(w))
  {
    AlignedKinds(w);
    var es, cs, vs := AlignedEvidence(w), AlignedCandidates(w), StoredResults(w);
    forall i | 0 <= i < |w.evidence|
      ensures EvidenceItem(w.evidence[i], w.workflowId, w.productId)
      ensures CandidateItem(w.candidates[i], w.workflowId, w.productId, Elements(Ids(es, EvidenceId)))
      ensures cs[i].sourceEvidenceId == es[i].evidenceId == vs[i].sourceEvidenceId
              && vs[i].candidateId == cs[i].candidateId
    {
      AlignedScope(w, i);
      hide ValidEvidence, ValidCandidate;
      assert Ids(es, EvidenceId)[i] == es[i].evidenceId;
    }
    hide ValidEvidence, ValidCandidate, CandidateItem, EvidenceItem, AlignedAt;
    assert Ids(cs, SourceId) == Ids(es, EvidenceId);
    assert Ids(vs, ResultCandidateId) == Ids(cs, CandidateId);
    assert Ids(vs, ResultSourceId) == Ids(es, EvidenceId);
  }

  lemma AlignedResults(w: WorkflowState, es: seq<Evidence>, cs: seq<Candidate>)
    requires Aligned(w)
    requires StoredEvidence(w.evidence, w.workflowId, w.productId) == Some(es)
    requires StoredCandidates(w.candidates, w.workflowId, w.productId, Elements(Ids(es, EvidenceId))) == Some(cs)
    requires AppendOrder(es, cs, StoredResults(w)) && Distinct(Ids(StoredResults(w), ResultId))
    ensures CheckResults(w.validations, w.workflowId, w.productId, ById(cs, CandidateId), ById(es, EvidenceId))
            == Ok(StoredResults(w))
  {
    var candidates, evidence, vs := ById(cs, CandidateId), ById(es, EvidenceId), StoredResults(w);
    hide CheckResult, ById, ValidEvidence, ValidCandidate, BuildValidation;
    forall i | 0 <= i < |w.validations| ensures CheckResult(w.validations[i], w.workflowId, w.productId, candidates,
                                                            evidence) == Ok(vs[i]) {
      assert AlignedAt(w, i);
      Lookup(w, es, cs, i);
      assert Ids(vs, ResultCandidateId)[i] == Ids(cs, CandidateId)[i];
      CheckedResult(w.validations[i], vs[i], w.workflowId, w.productId, candidates, evidence, cs[i], es[i]);
    }
    CheckedExactly(w.validations, w.workflowId, w.productId, candidates, evidence, vs);
  }

  /** The latest result is accepted exactly when it passed. */
  lemma LatestExactly(w: WorkflowState, es: seq<Evidence>, cs: seq<Candidate>)
    requires Aligned(w) && StoredResults(w) != []
    requires StoredEvidence(w.evidence, w.workflowId, w.productId) == Some(es)
    requires StoredCandidates(w.candidates, w.workflowId, w.productId, Elements(Ids(es, EvidenceId))) == Some(cs)
    requires AppendOrder(es, cs, StoredResults(w))
    ensures var last := |w.validations| - 1;
            var v := StoredResults(w)[last];
            LatestSnapshot(w, ById(es, EvidenceId), ById(cs, CandidateId), v) == (if v.status == "passed"
              then v.verified else None)
  {
    var last := |w.validations| - 1;
    assert AlignedAt(w, last);
    AlignedScope(w, last);
    Lookup(w, es, cs, last);
    assert cs[last] == w.candidates[last].candidate && es[last] == w.evidence[last].evidence;
    hide CheckResults, ById, ValidEvidence, ValidCandidate, BuildValidation, StoredEvidence, StoredCandidates,
         AllLifecycles, Ids, AppendOrder;
  }

  // ----- soundness and completeness -----

  /** The handoff accepts exactly the states of the form. */
  lemma ExtractsExactly(w: WorkflowState, productId: string)
    ensures ExtractVerifiedKnowledge(w, productId).Some? <==> HandoffForm(w, productId)
    ensures HandoffForm(w, productId) ==>
              ExtractVerifiedKnowledge(w, productId) == StoredResults(w)[|w.validations| - 1].verified
  {
    hide CheckResults, ById, StoredEvidence, StoredCandidates, LatestSnapshot, AppendOrder, TerminalState, Distinct;
    if HandoffForm(w, productId) {
      FormExtracts(w, productId);
    }
    if ExtractVerifiedKnowledge(w, productId).Some? {
      ExtractedHasForm(w, productId);
    }
  }

  lemma FormExtracts(w: WorkflowState, productId: string)
    requires HandoffForm(w, productId)
    ensures ExtractVerifiedKnowledge(w, productId) == StoredResults(w)[|w.validations| - 1].verified
    ensures ExtractVerifiedKnowledge(w, productId).Some?
  {
    hide CheckResults, ById, StoredEvidence, StoredCandidates, LatestSnapshot, AppendOrder, Distinct, ValidCandidate,
         AllLifecycles, Ids,
      AlignedAt, SameScope, AlignedEvidence, AlignedCandidates, EvidenceOf, CandidatesOf;
    var es, cs := AlignedEvidence(w), AlignedCandidates(w);
    AlignedStored(w);
    AlignedResults(w, es, cs);
    LatestExactly(w, es, cs);
    AlignedScope(w, |w.validations| - 1);
  }

  lemma ExtractedParts(w: WorkflowState, productId: string)
      returns (es: seq<Evidence>, cs: seq<Candidate>, vs: seq<ValidationResult>)
    requires ExtractVerifiedKnowledge(w, productId).Some?
    ensures TerminalState(w, productId)
    ensures StoredEvidence(w.evidence, w.workflowId, w.productId) == Some(es)
    ensures StoredCandidates(w.candidates, w.workflowId, w.productId, Elements(Ids(es, EvidenceId))) == Some(cs)
    ensures CheckResults(w.validations, w.workflowId, w.productId, ById(cs, CandidateId), ById(es, EvidenceId))
            == Ok(vs)
    ensures AppendOrder(es, cs, vs) && vs != []
    ensures LatestSnapshot(w, ById(es, EvidenceId), ById(cs, CandidateId), vs[|vs| - 1]).Some?
  {
    hide CheckResults, ById, StoredEvidence, StoredCandidates, LatestSnapshot, AppendOrder, Distinct, ValidState;
    es := StoredEvidence(w.evidence, w.workflowId, w.productId).value;
    cs := StoredCandidates(w.candidates, w.workflowId, w.productId, Elements(Ids(es, EvidenceId))).value;
    vs := CheckResults(w.validations, w.workflowId, w.productId, ById(cs, CandidateId), ById(es, EvidenceId)).value;
  }

  lemma StoredDistinct(w: WorkflowState, es: seq<Evidence>, cs: seq<Candidate>)
    requires StoredEvidence(w.evidence, w.workflowId, w.productId) == Some(es)
    requires StoredCandidates(w.candidates, w.workflowId, w.productId, Elements(Ids(es, EvidenceId))) == Some(cs)
    requires Aligned(w)
    ensures AlignedEvidence(w) == es && AlignedCandidates(w) == cs
    ensures Distinct(Ids(es, EvidenceId)) && Distinct(Ids(cs, CandidateId))
  {
    hide AlignedAt, EvidenceItem, CandidateItem, Ids, Distinct;
  }

  lemma ExtractedHasForm(w: WorkflowState, productId: string)
    requires ExtractVerifiedKnowledge(w, productId).Some?
    ensures HandoffForm(w, productId)
  {
    hide CheckResults, ById, StoredEvidence, StoredCandidates, LatestSnapshot, AppendOrder, Distinct, Ids, ValidState,
         Aligned, AlignedEvidence, AlignedCandidates, ExtractVerifiedKnowledge;
    var es, cs, vs := ExtractedParts(w, productId);
    AcceptedIsAligned(w, es, cs, vs);
    StoredDistinct(w, es, cs);
    LatestExactly(w, es, cs);
  }

  /** Soundness: whatever is returned is the deterministic mapping of a stored evidence item,
      with every lifecycle VERIFIED at one instant, from items aligned index by index. */
  lemma ExtractionIsSound(w: WorkflowState, productId: string)
    requires ExtractVerifiedKnowledge(w, productId).Some?
    ensures Aligned(w)
    ensures var k := ExtractVerifiedKnowledge(w, productId).value;
            var last := |w.validations| - 1;
            && w.evidence != [] && w.evidence[last].EvidencePayload?
            && var e, at := w.evidence[last].evidence, StoredResults(w)[last].validatedAt;
               && BuildCandidate(e).Ok? && k == Verify(BuildCandidate(e).value.knowledge, at)
               && AllLifecycles(k, VerifiedAt(at)) && Erase(k) == BuildCandidate(e).value.knowledge
               && w.candidates[last] == CandidatePayload(BuildCandidate(e).value)
  {
    ExtractsExactly(w, productId);
    var last := |w.validations| - 1;
    hide ExtractVerifiedKnowledge;
    assert AlignedAt(w, last);
    var e, c, v := w.evidence[last].evidence, w.candidates[last].candidate, w.validations[last].validation;
    assert StoredResults(w)[last] == v;
    hide Distinct, Ids, TerminalState, ValidEvidence;
    PassesExactly(c, e, v.validatedAt);
    hide BuildValidation, BuildCandidate, Verify, Erase, AllLifecycles;
  }
}
