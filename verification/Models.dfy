/** Exploration evidence, knowledge and the envelopes that travel in a workflow state
    (pmqa/models, products/demo). A payload holds the fields of an envelope before any
    validation; instants are integers. */
module Models {
  import opened Wrappers
  import opened Boundary

  datatype ArtifactStatus = New | Verified | Stale

  datatype Lifecycle = Lifecycle(state: ArtifactStatus, lastVerified: Option<int>)

  const UNVERIFIED := Lifecycle(New, None)

  datatype Page = Page(id: string, lifecycle: Lifecycle, url: string, title: string, fingerprint: string)

  datatype Element = Element(
    id: string,
    lifecycle: Lifecycle,
    pageId: string,
    role: string,
    accessibleName: string,
    visibleText: Option<string>,
    attributes: map<string, string>)

  datatype Locator = Locator(
    id: string,
    lifecycle: Lifecycle,
    elementId: string,
    strategy: string,
    value: string,
    priority: int)

  datatype Interaction = Interaction(
    id: string,
    lifecycle: Lifecycle,
    sourcePageId: string,
    targetElementId: string,
    action: string,
    outcomeType: string,
    outcomeValue: string)

  datatype KnowledgeArtifact = KnowledgeArtifact(
    artifactId: string,
    productId: string,
    provenance: string,
    pages: seq<Page>,
    elements: seq<Element>,
    locators: seq<Locator>,
    interactions: seq<Interaction>)

  datatype ObservedPage = ObservedPage(id: string, url: string, title: string, fingerprint: string)

  datatype Attribute = Attribute(name: string, value: string)

  datatype ObservedElement = ObservedElement(
    id: string,
    pageId: string,
    role: string,
    accessibleName: string,
    visibleText: Option<string>,
    attributes: seq<Attribute>)

  datatype ObservedLocator = ObservedLocator(id: string, elementId: string, strategy: string, value: string,
                                             priority: int)

  datatype ObservedInteraction = ObservedInteraction(
    id: string,
    sourcePageId: string,
    targetElementId: string,
    action: string,
    outcomeType: string,
    outcomeValue: string)

  datatype Source = Source(sourceType: string, toolId: string, captureId: string)

  datatype Evidence = Evidence(
    schemaVersion: string,
    evidenceId: string,
    workflowId: string,
    productId: string,
    source: Source,
    capturedAt: int,
    pages: seq<ObservedPage>,
    elements: seq<ObservedElement>,
    locators: seq<ObservedLocator>,
    interactions: seq<ObservedInteraction>)

  datatype Candidate = Candidate(
    schemaVersion: string,
    candidateId: string,
    workflowId: string,
    productId: string,
    sourceEvidenceId: string,
    knowledge: KnowledgeArtifact)

  datatype Check = Check(code: string, status: string)

  datatype ValidationResult = ValidationResult(
    schemaVersion: string,
    validationId: string,
    workflowId: string,
    productId: string,
    candidateId: string,
    sourceEvidenceId: string,
    status: string,
    validatedAt: int,
    checks: seq<Check>,
    verified: Option<KnowledgeArtifact>)

  /** What the "status" key of a payload holds. */
  datatype StatusEntry = NoStatus | OtherStatus | TextStatus(text: string)

  /** A stored mapping: one of the known envelopes, or any other mapping, of which only the
      status field and the absence of prohibited content matter. */
  datatype Payload =
    | EvidencePayload(evidence: Evidence)
    | CandidatePayload(candidate: Candidate)
    | ValidationPayload(validation: ValidationResult)
    | ForeignPayload(status: StatusEntry, safe: bool)

  function StatusOf(p: Payload): StatusEntry {
    match p
    case ValidationPayload(v) => TextStatus(v.status)
    case ForeignPayload(s, _) => s
    case _ => NoStatus
  }

  predicate SafeAttributes(k: KnowledgeArtifact) {
    forall e, name :: e in k.elements && name in e.attributes ==> !IsProhibited(name)
  }

  /** No mapping key of the payload is prohibited; only attribute names are free. */
  predicate SafePayload(p: Payload) {
    match p
    case EvidencePayload(_) => true
    case CandidatePayload(c) => SafeAttributes(c.knowledge)
    case ValidationPayload(v) => v.verified.Some? ==> SafeAttributes(v.verified.value)
    case ForeignPayload(_, safe) => safe
  }

  predicate AllSafe(ps: seq<Payload>) {
    forall p :: p in ps ==> SafePayload(p)
  }
}
