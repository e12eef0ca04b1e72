/** Deterministic validation of a candidate against its evidence (products/demo/validation.py). */
module KnowledgeValidation {
  import opened Wrappers
  import opened Models
  import opened Sequences
  import opened KnowledgeMapping

  const VALIDATION_SCHEMA_VERSION := "1"
  const CANDIDATE_MATCH_CHECK := "candidate_matches_source_evidence"

  /** Rejected is the module's own error; a mapping error raised by the rebuild is not
      converted and reaches the caller as it is. */
  datatype Failure = Rejected | MappingFailed(error: MappingError)

  // ----- lifecycles -----

  function WithLifecycle(k: KnowledgeArtifact, l: Lifecycle): KnowledgeArtifact {
    k.(pages := MapAll(k.pages, (p: Page) => p.(lifecycle := l)),
       elements := MapAll(k.elements, (e: Element) => e.(lifecycle := l)),
       locators := MapAll(k.locators, (x: Locator) => x.(lifecycle := l)),
       interactions := MapAll(k.interactions, (x: Interaction) => x.(lifecycle := l)))
  }

  function VerifiedAt(at: int): Lifecycle {
    Lifecycle(Verified, Some(at))
  }

  function Verify(k: KnowledgeArtifact, at: int): KnowledgeArtifact {
    WithLifecycle(k, VerifiedAt(at))
  }

  function Erase(k: KnowledgeArtifact): KnowledgeArtifact {
    WithLifecycle(k, UNVERIFIED)
  }

  lemma LifecycleReplaced(k: KnowledgeArtifact, l: Lifecycle, m: Lifecycle)
    ensures AllLifecycles(WithLifecycle(k, l), l)
    ensures WithLifecycle(WithLifecycle(k, l), m) == WithLifecycle(k, m)
  {
    var a, b := WithLifecycle(WithLifecycle(k, l), m), WithLifecycle(k, m);
    assert a.pages == b.pages && a.elements == b.elements && a.locators == b.locators
      && a.interactions == b.interactions;
  }

  lemma LifecycleKept(k: KnowledgeArtifact, l: Lifecycle)
    requires AllLifecycles(k, l)
    ensures WithLifecycle(k, l) == k
  {
    var a := WithLifecycle(k, l);
    assert a.pages == k.pages && a.elements == k.elements && a.locators == k.locators
      && a.interactions == k.interactions;
  }

  /** Erasing a verified snapshot restores the candidate knowledge, and verifying that again
      restores the snapshot. */
  lemma SnapshotRoundTrip(k: KnowledgeArtifact, at: int)
    ensures AllLifecycles(k, UNVERIFIED) ==> Erase(Verify(k, at)) == k
    ensures AllLifecycles(k, VerifiedAt(at)) ==> Verify(Erase(k), at) == k
  {
    LifecycleReplaced(k, VerifiedAt(at), UNVERIFIED);
    LifecycleReplaced(k, UNVERIFIED, VerifiedAt(at));
    if AllLifecycles(k, UNVERIFIED) {
      LifecycleKept(k, UNVERIFIED);
    }
    if AllLifecycles(k, VerifiedAt(at)) {
      LifecycleKept(k, VerifiedAt(at));
    }
  }

  // ----- result envelopes -----

  predicate IsStatus(s: string) {
    s == "passed" || s == "failed"
  }

  /** With one supported code and no duplicates, the parsed checks are exactly one. */
  method ParseChecks(checks: seq<Check>) returns (r: Option<seq<Check>>)
    ensures r.Some? <==> |checks| == 1 && checks[0].code == CANDIDATE_MATCH_CHECK && IsStatus(checks[0].status)
    ensures r.Some? ==> r.value == checks
  {
    if checks == [] {
      return None;
    }
    var parsed: seq<Check> := [];
    var seen: set<string> := {};
    for i := 0 to |checks|
      invariant parsed == checks[..i]
      invariant seen == set c | c in checks[..i] :: c.code
      invariant forall c :: c in checks[..i] ==> c.code == CANDIDATE_MATCH_CHECK && IsStatus(c.status)
      invariant i <= 1
    {
      var item := checks[i];
      assert i == 1 ==> checks[..i][0].code in seen;
      if item.code == "" || item.status == "" || item.code != CANDIDATE_MATCH_CHECK || !IsStatus(item.status) {
        return None;
      }
      if item.code in seen {
        return None;
      }
      seen := seen + {item.code};
      parsed := parsed + [item];
    }
    assert checks[..|checks|] == checks;
    r := Some(parsed);
  }

  function ValidationIdFor(workflowId: string, productId: string, candidateId: string, evidenceId: string): string {
    "validation.saucedemo." + Digest([VALIDATION_SCHEMA_VERSION, workflowId, productId, candidateId, evidenceId])
  }

  /** A snapshot is valid when its lifecycles agree and what remains without them is a valid candidate. */
  predicate ValidSnapshot(v: ValidationResult, k: KnowledgeArtifact) {
    && AllLifecycles(k, VerifiedAt(v.validatedAt))
    && ValidCandidate(Candidate(CANDIDATE_SCHEMA_VERSION, v.candidateId, v.workflowId, v.productId, v.sourceEvidenceId,
                                Erase(k)))
  }

  predicate ValidResult(v: ValidationResult) {
    && AllNonempty([v.schemaVersion, v.validationId, v.workflowId, v.productId, v.candidateId, v.sourceEvidenceId])
    && v.schemaVersion == VALIDATION_SCHEMA_VERSION
    && IsStatus(v.status)
    && v.checks == [Check(CANDIDATE_MATCH_CHECK, v.status)]
    && (v.status == "passed" <==> v.verified.Some?)
    && (v.verified.Some? ==> ValidSnapshot(v, v.verified.value))
    && v.candidateId == CandidateIdFor(v.workflowId, v.productId, v.sourceEvidenceId)
    && v.validationId == ValidationIdFor(v.workflowId, v.productId, v.candidateId, v.sourceEvidenceId)
  }

  function ParseResult(p: Payload): Result<ValidationResult, Failure> {
    if p.ValidationPayload? && ValidResult(p.validation) then Ok(p.validation) else Err(Rejected)
  }

  // ----- validation -----

  predicate SameScope(c: Candidate, e: Evidence) {
    c.workflowId == e.workflowId && c.productId == e.productId && c.sourceEvidenceId == e.evidenceId
  }

  function BuildValidation(c: Candidate, e: Evidence, at: int): Result<ValidationResult, Failure> {
    if !ValidCandidate(c) || !ValidEvidence(e) then Err(Rejected)
    else if !SameScope(c, e) then Err(Rejected)
    else
      match BuildCandidate(e)
      case Err(x) => Err(MappingFailed(x))
      case Ok(expected) =>
        var status := if c == expected then "passed" else "failed";
        Ok(ValidationResult(VALIDATION_SCHEMA_VERSION,
                            ValidationIdFor(c.workflowId, c.productId, c.candidateId, c.sourceEvidenceId),
                            c.workflowId, c.productId, c.candidateId, c.sourceEvidenceId, status, at,
                            [Check(CANDIDATE_MATCH_CHECK, status)],
                            if status == "passed" then Some(Verify(c.knowledge, at)) else None))
  }

  lemma ErasedIsCandidate(c: Candidate, at: int)
    requires ValidCandidate(c)
    ensures Erase(Verify(c.knowledge, at)) == c.knowledge && AllLifecycles(Verify(c.knowledge, at), VerifiedAt(at))
  {
    hide SoundKnowledge, CandidateIdFor, ArtifactIdFor, WithLifecycle;
    SnapshotRoundTrip(c.knowledge, at);
    LifecycleReplaced(c.knowledge, VerifiedAt(at), UNVERIFIED);
  }

  /** Every built result parses back to itself and is safe to store. */
  lemma BuiltResultParses(c: Candidate, e: Evidence, at: int)
    requires BuildValidation(c, e, at).Ok?
    ensures var v := BuildValidation(c, e, at).value;
            ParseResult(ValidationPayload(v)) == Ok(v) && SafePayload(ValidationPayload(v))
  {
    var v := BuildValidation(c, e, at).value;
    ErasedIsCandidate(c, at);
    ResultNames(c, v.validationId);
    CandidateIsSafe(c);
    VerifyKeepsAttributes(c.knowledge, at);
    hide ValidEvidence, BuildCandidate, Verify, Erase, ValidKnowledge, AllLifecycles, SafeAttributes, Digest;
    assert c == Candidate(CANDIDATE_SCHEMA_VERSION, c.candidateId, c.workflowId, c.productId, c.sourceEvidenceId,
                          c.knowledge);
    assert |v.validationId| >= 1;
  }

  lemma ResultNames(c: Candidate, id: string)
    requires ValidCandidate(c) && id != ""
    ensures AllNonempty([VALIDATION_SCHEMA_VERSION, id, c.workflowId, c.productId, c.candidateId, c.sourceEvidenceId])
  {
    hide ValidKnowledge, CandidateIdFor, ArtifactIdFor;
    var names := [c.schemaVersion, c.candidateId, c.workflowId, c.productId, c.sourceEvidenceId];
    assert names[1] in names && names[2] in names && names[3] in names && names[4] in names;
  }

  lemma VerifyKeepsAttributes(k: KnowledgeArtifact, at: int)
    requires SafeAttributes(k)
    ensures SafeAttributes(Verify(k, at))
  {
    var t := Verify(k, at);
    forall e | e in t.elements ensures exists x :: x in k.elements && x.attributes == e.attributes {
      var i :| 0 <= i < |t.elements| && t.elements[i] == e;
      assert k.elements[i] in k.elements;
    }
  }

  /** What a verdict means: it passes exactly when the candidate is the deterministic mapping
      of the evidence, and then the snapshot is that mapping, VERIFIED at one instant. */
  lemma PassesExactly(c: Candidate, e: Evidence, at: int)
    requires BuildValidation(c, e, at).Ok?
    ensures var v := BuildValidation(c, e, at).value;
            && BuildCandidate(e).Ok?
            && (v.status == "passed" <==> BuildCandidate(e) == Ok(c))
            && (v.status == "passed" ==>
                  && v.verified == Some(Verify(BuildCandidate(e).value.knowledge, at))
                  && AllLifecycles(v.verified.value, VerifiedAt(at))
                  && Erase(v.verified.value) == BuildCandidate(e).value.knowledge)
  {
    ErasedIsCandidate(c, at);
    hide ValidEvidence, BuildCandidate, Verify, Erase, ValidCandidate, AllLifecycles;
  }

  /** A freshly built candidate always passes against its own evidence. */
  lemma FreshCandidatePasses(e: Evidence, at: int)
    requires ValidEvidence(e) && BuildCandidate(e).Ok?
    ensures BuildValidation(BuildCandidate(e).value, e, at).Ok?
    ensures BuildValidation(BuildCandidate(e).value, e, at).value.status == "passed"
  {
    BuildsExactly(e);
    hide ValidEvidence, BuildCandidate, ValidCandidate;
  }

  /** Validation lets a mapping error through exactly when the evidence cannot be mapped. */
  lemma MappingEscapesExactly(c: Candidate, e: Evidence, at: int)
    ensures BuildValidation(c, e, at).Err? && BuildValidation(c, e, at).error.MappingFailed? <==>
              ValidCandidate(c) && ValidEvidence(e) && SameScope(c, e) && !Mappable(e)
  {
    if ValidEvidence(e) {
      BuildsExactly(e);
    }
    hide ValidEvidence, BuildCandidate, ValidCandidate, Mappable;
  }
}
