/** Mapping of exploration evidence to knowledge candidates
    (products/demo/knowledge_mapping.py, pmqa/models/exploration.py). */
module KnowledgeMapping {
  import opened Wrappers
  import opened Boundary
  import opened Models
  import opened Sequences

  datatype MappingError = AmbiguousAttributes | ProhibitedAttribute | InvalidKnowledge | InvalidEnvelope

  const CANDIDATE_SCHEMA_VERSION := "1"
  const MAPPING_PROVENANCE := "deterministic-evidence-mapping-v1"

  // ----- evidence -----

  function Names(attributes: seq<Attribute>): (r: seq<string>)
    ensures |r| == |attributes| && forall i :: 0 <= i < |r| ==> r[i] == attributes[i].name
  {
    seq(|attributes|, i requires 0 <= i < |attributes| => attributes[i].name)
  }

  function Normalized(attributes: seq<Attribute>): (r: seq<string>)
    ensures |r| == |attributes| && forall i :: 0 <= i < |r| ==> r[i] == NormalizeKey(attributes[i].name)
  {
    seq(|attributes|, i requires 0 <= i < |attributes| => NormalizeKey(attributes[i].name))
  }

  function Ids<T>(items: seq<T>, id: T -> string): (r: seq<string>)
    ensures |r| == |items| && forall i :: 0 <= i < |r| ==> r[i] == id(items[i])
  {
    seq(|items|, i requires 0 <= i < |items| => id(items[i]))
  }

  function ObservedPageId(x: ObservedPage): string { x.id }
  function ObservedElementId(x: ObservedElement): string { x.id }
  function ObservedLocatorId(x: ObservedLocator): string { x.id }
  function ObservedInteractionId(x: ObservedInteraction): string { x.id }
  function PageId(x: Page): string { x.id }
  function ElementId(x: Element): string { x.id }
  function LocatorId(x: Locator): string { x.id }
  function InteractionId(x: Interaction): string { x.id }

  predicate AllNonempty(values: seq<string>) {
    forall v :: v in values ==> v != ""
  }

  predicate ValidObservedElement(e: ObservedElement) {
    && AllNonempty([e.id, e.pageId, e.role, e.accessibleName])
    && Distinct(Names(e.attributes))
    && forall a :: a in e.attributes ==> a.name != "" && !IsProhibited(a.name)
  }

  /** The constructor checks of an evidence batch. */
  predicate ValidEvidence(e: Evidence) {
    var pageIds := Ids(e.pages, ObservedPageId);
    var elementIds := Ids(e.elements, ObservedElementId);
    && AllNonempty([e.schemaVersion, e.evidenceId, e.workflowId, e.productId])
    && AllNonempty([e.source.sourceType, e.source.toolId, e.source.captureId])
    && Distinct(pageIds) && Distinct(elementIds)
    && Distinct(Ids(e.locators, ObservedLocatorId))
    && Distinct(Ids(e.interactions, ObservedInteractionId))
    && (forall p :: p in e.pages ==> AllNonempty([p.id, p.url, p.title, p.fingerprint]))
    && (forall x :: x in e.elements ==> ValidObservedElement(x) && x.pageId in pageIds)
    && (forall l :: l in e.locators ==>
          AllNonempty([l.id, l.elementId, l.strategy, l.value]) && l.priority >= 1 && l.elementId in elementIds)
    && (forall x :: x in e.interactions ==>
          && AllNonempty([x.id, x.sourcePageId, x.targetElementId, x.action, x.outcomeType, x.outcomeValue])
          && x.sourcePageId in pageIds && x.targetElementId in elementIds)
  }

  // ----- attributes -----

  /** The dictionary the attributes fill, or the first attribute's reason for refusal. */
  function MapAttributes(attributes: seq<Attribute>): Result<map<string, string>, MappingError> {
    if attributes == [] then Ok(map[])
    else
      var init, last := attributes[..|attributes| - 1], attributes[|attributes| - 1];
      match MapAttributes(init)
      case Err(e) => Err(e)
      case Ok(m) =>
        if NormalizeKey(last.name) in Normalized(init) then Err(AmbiguousAttributes)
        else if IsProhibited(last.name) then Err(ProhibitedAttribute)
        else Ok(m[last.name := last.value])
  }

  predicate Unambiguous(attributes: seq<Attribute>) {
    Distinct(Normalized(attributes)) && forall a :: a in attributes ==> !IsProhibited(a.name)
  }

  predicate Pairs(attributes: seq<Attribute>, m: map<string, string>) {
    && (forall a :: a in attributes ==> a.name in m && m[a.name] == a.value)
    && (forall name :: name in m ==> exists a :: a in attributes && a.name == name)
  }

  lemma NormalizedSplit(attributes: seq<Attribute>)
    requires attributes != []
    ensures Normalized(attributes) == Normalized(attributes[..|attributes| - 1])
            + [NormalizeKey(attributes[|attributes| - 1].name)]
  {}

  /** Mapping succeeds exactly when the names stay apart after normalization and none is
      prohibited, and then the dictionary holds exactly the observed pairs. */
  lemma {:induction false} MapsExactly(attributes: seq<Attribute>)
    ensures MapAttributes(attributes).Ok? <==> Unambiguous(attributes)
    ensures MapAttributes(attributes).Ok? ==> Pairs(attributes, MapAttributes(attributes).value)
  {
    hide NormalizeKey, IsProhibited, Unambiguous, Pairs, Normalized;
    if attributes == [] {
      NothingToMap();
    } else {
      var init, last := attributes[..|attributes| - 1], attributes[|attributes| - 1];
      MapsExactly(init);
      assert attributes == init + [last];
      UnambiguousSplit(init, last);
      if MapAttributes(attributes).Ok? {
        PairsPush(init, MapAttributes(init).value, last);
      }
    }
  }

  lemma NothingToMap()
    ensures Unambiguous([]) && Pairs([], map[])
  {}

  lemma UnambiguousSplit(init: seq<Attribute>, last: Attribute)
    ensures Unambiguous(init + [last]) <==>
              Unambiguous(init) && NormalizeKey(last.name) !in Normalized(init) && !IsProhibited(last.name)
  {
    hide NormalizeKey, IsProhibited;
    var all := init + [last];
    assert Normalized(all) == Normalized(init) + [NormalizeKey(last.name)];
    if Unambiguous(all) {
      assert Normalized(all)[..|init|] == Normalized(init);
      assert last in all;
      forall i | 0 <= i < |init| ensures Normalized(init)[i] != NormalizeKey(last.name) {
        assert Normalized(all)[i] != Normalized(all)[|init|];
      }
    }
  }

  lemma PairsPush(init: seq<Attribute>, m: map<string, string>, last: Attribute)
    requires Pairs(init, m) && NormalizeKey(last.name) !in Normalized(init)
    ensures Pairs(init + [last], m[last.name := last.value])
  {
    hide NormalizeKey;
    assert last in init + [last];
    forall a | a in init ensures a.name != last.name {
      var i :| 0 <= i < |init| && init[i] == a;
      assert Normalized(init)[i] == NormalizeKey(a.name);
    }
    var pushed := m[last.name := last.value];
    forall name | name in pushed ensures exists a :: a in init + [last] && a.name == name {
      if name != last.name {
        var a :| a in init && a.name == name;
        assert a in init + [last];
      }
    }
  }

  lemma {:induction false} MapPrefixFails(attributes: seq<Attribute>, i: nat)
    requires i <= |attributes| && MapAttributes(attributes[..i]).Err?
    ensures MapAttributes(attributes) == MapAttributes(attributes[..i])
    decreases |attributes|
  {
    if i < |attributes| {
      assert attributes[..|attributes| - 1][..i] == attributes[..i];
      MapPrefixFails(attributes[..|attributes| - 1], i);
    } else {
      assert attributes[..i] == attributes;
    }
  }

  /** The loop, with its dictionary and its set of normalized names. */
  method CollectAttributes(attributes: seq<Attribute>) returns (r: Result<map<string, string>, MappingError>)
    ensures r == MapAttributes(attributes)
    ensures r.Ok? <==> Unambiguous(attributes)
  {
    MapsExactly(attributes);
    hide NormalizeKey, IsProhibited, Unambiguous, Pairs, Normalized;
    var mapped: map<string, string> := map[];
    var normalized: set<string> := {};
    for i := 0 to |attributes|
      invariant MapAttributes(attributes[..i]) == Ok(mapped)
      invariant forall name :: name in normalized <==> name in Normalized(attributes[..i])
    {
      var name := NormalizeKey(attributes[i].name);
      assert attributes[..i + 1][..i] == attributes[..i];
      if name in normalized {
        MapPrefixFails(attributes, i + 1);
        return Err(AmbiguousAttributes);
      }
      if IsProhibited(attributes[i].name) {
        MapPrefixFails(attributes, i + 1);
        return Err(ProhibitedAttribute);
      }
      NormalizedSplit(attributes[..i + 1]);
      assert attributes[..i + 1][i] == attributes[i];
      normalized := normalized + {name};
      mapped := mapped[attributes[i].name := attributes[i].value];
    }
    assert attributes[..|attributes|] == attributes;
    r := Ok(mapped);
  }

  // ----- knowledge -----

  predicate UnambiguousMap(m: map<string, string>) {
    && (forall a, b :: a in m && b in m && a != b ==> NormalizeKey(a) != NormalizeKey(b))
    && (forall a :: a in m ==> !IsProhibited(a))
  }

  /** A mapped dictionary passes the same check again, in whatever order its items come. */
  lemma MappedIsUnambiguous(attributes: seq<Attribute>, m: map<string, string>)
    requires Unambiguous(attributes) && Pairs(attributes, m)
    ensures UnambiguousMap(m)
  {
    hide NormalizeKey, IsProhibited;
    forall a, b | a in m && b in m && a != b ensures NormalizeKey(a) != NormalizeKey(b) {
      var x :| x in attributes && x.name == a;
      var y :| y in attributes && y.name == b;
      var i :| 0 <= i < |attributes| && attributes[i] == x;
      var j :| 0 <= j < |attributes| && attributes[j] == y;
      assert Normalized(attributes)[i] == NormalizeKey(a) && Normalized(attributes)[j] == NormalizeKey(b);
    }
  }

  lemma ItemOrderIrrelevant(items: seq<Attribute>, m: map<string, string>)
    requires Pairs(items, m) && Distinct(Names(items))
    ensures MapAttributes(items).Ok? <==> UnambiguousMap(m)
  {
    MapsExactly(items);
    if Unambiguous(items) {
      MappedIsUnambiguous(items, m);
    }
    hide NormalizeKey, IsProhibited;
    if UnambiguousMap(m) {
      forall i, j | 0 <= i < j < |items| ensures Normalized(items)[i] != Normalized(items)[j] {
        assert items[i] in items && items[j] in items && Names(items)[i] != Names(items)[j];
      }
    }
  }

  predicate AllLifecycles(k: KnowledgeArtifact, l: Lifecycle) {
    && (forall p :: p in k.pages ==> p.lifecycle == l)
    && (forall e :: e in k.elements ==> e.lifecycle == l)
    && (forall x :: x in k.locators ==> x.lifecycle == l)
    && (forall x :: x in k.interactions ==> x.lifecycle == l)
  }

  predicate ValidElement(e: Element) {
    AllNonempty([e.id, e.pageId, e.role, e.accessibleName]) && UnambiguousMap(e.attributes)
  }

  /** The content checks of candidate knowledge, besides its lifecycles. */
  predicate SoundKnowledge(k: KnowledgeArtifact) {
    var pageIds := Ids(k.pages, PageId);
    var elementIds := Ids(k.elements, ElementId);
    && AllNonempty([k.artifactId, k.productId, k.provenance]) && k.provenance == MAPPING_PROVENANCE
    && Distinct(pageIds) && Distinct(elementIds)
    && Distinct(Ids(k.locators, LocatorId)) && Distinct(Ids(k.interactions, InteractionId))
    && (forall p :: p in k.pages ==> AllNonempty([p.id, p.url, p.title, p.fingerprint]))
    && (forall e :: e in k.elements ==> ValidElement(e) && e.pageId in pageIds)
    && (forall l :: l in k.locators ==>
          AllNonempty([l.id, l.elementId, l.strategy, l.value]) && l.priority >= 1 && l.elementId in elementIds)
    && (forall x :: x in k.interactions ==>
          && AllNonempty([x.id, x.sourcePageId, x.targetElementId, x.action, x.outcomeType, x.outcomeValue])
          && x.sourcePageId in pageIds && x.targetElementId in elementIds)
  }

  predicate ValidKnowledge(k: KnowledgeArtifact) {
    AllLifecycles(k, UNVERIFIED) && SoundKnowledge(k)
  }

  // ----- correlation identifiers -----

  function Join(parts: seq<string>): string {
    if parts == [] then "" else if |parts| == 1 then parts[0]
      else Join(parts[..|parts| - 1]) + "\0" + parts[|parts| - 1]
  }

  /** The digest of the joined parts, kept as its preimage. */
  function Digest(parts: seq<string>): string {
    Join(parts)
  }

  function CandidateIdFor(workflowId: string, productId: string, evidenceId: string): string {
    "candidate.saucedemo." + Digest([CANDIDATE_SCHEMA_VERSION, "candidate", workflowId, productId, evidenceId])
  }

  function ArtifactIdFor(workflowId: string, productId: string, evidenceId: string): string {
    "knowledge.saucedemo." + Digest([CANDIDATE_SCHEMA_VERSION, "knowledge", workflowId, productId, evidenceId])
  }

  // ----- candidates -----

  predicate ValidCandidate(c: Candidate) {
    && AllNonempty([c.schemaVersion, c.candidateId, c.workflowId, c.productId, c.sourceEvidenceId])
    && c.schemaVersion == CANDIDATE_SCHEMA_VERSION
    && ValidKnowledge(c.knowledge)
    && c.knowledge.productId == c.productId
    && c.candidateId == CandidateIdFor(c.workflowId, c.productId, c.sourceEvidenceId)
    && c.knowledge.artifactId == ArtifactIdFor(c.workflowId, c.productId, c.sourceEvidenceId)
  }

  function ParseCandidate(p: Payload): Result<Candidate, MappingError> {
    if p.CandidatePayload? && ValidCandidate(p.candidate) then Ok(p.candidate) else Err(InvalidEnvelope)
  }

  function ParseEvidence(p: Payload): Option<Evidence> {
    if p.EvidencePayload? && ValidEvidence(p.evidence) then Some(p.evidence) else None
  }

  function MapElement(e: ObservedElement): Result<Element, MappingError> {
    match MapAttributes(e.attributes)
    case Err(x) => Err(x)
    case Ok(m) => Ok(Element(e.id, UNVERIFIED, e.pageId, e.role, e.accessibleName, e.visibleText, m))
  }

  function MapElements(es: seq<ObservedElement>): (r: Result<seq<Element>, MappingError>)
    ensures r.Ok? <==> forall e :: e in es ==> MapElement(e).Ok?
    ensures r.Ok? ==> |r.value| == |es| && forall i :: 0 <= i < |es| ==> MapElement(es[i]) == Ok(r.value[i])
  {
    if es == [] then Ok([])
    else
      var init, last := es[..|es| - 1], es[|es| - 1];
      assert es == init + [last];
      match MapElements(init)
      case Err(x) => Err(x)
      case Ok(done) =>
        match MapElement(last)
        case Err(x) => Err(x)
        case Ok(e) => Ok(done + [e])
  }

  function MapPage(p: ObservedPage): Page {
    Page(p.id, UNVERIFIED, p.url, p.title, p.fingerprint)
  }

  function MapLocator(l: ObservedLocator): Locator {
    Locator(l.id, UNVERIFIED, l.elementId, l.strategy, l.value, l.priority)
  }

  function MapInteraction(x: ObservedInteraction): Interaction {
    Interaction(x.id, UNVERIFIED, x.sourcePageId, x.targetElementId, x.action, x.outcomeType, x.outcomeValue)
  }

  function MapAll<S, T>(items: seq<S>, f: S -> T): (r: seq<T>)
    ensures |r| == |items| && forall i :: 0 <= i < |r| ==> r[i] == f(items[i])
  {
    seq(|items|, i requires 0 <= i < |items| => f(items[i]))
  }

  function MappedKnowledge(e: Evidence, elements: seq<Element>): KnowledgeArtifact {
    KnowledgeArtifact(ArtifactIdFor(e.workflowId, e.productId, e.evidenceId), e.productId, MAPPING_PROVENANCE,
                      MapAll(e.pages, MapPage), elements, MapAll(e.locators, MapLocator),
                        MapAll(e.interactions, MapInteraction))
  }

  function BuildCandidate(e: Evidence): Result<Candidate, MappingError> {
    match MapElements(e.elements)
    case Err(x) => Err(x)
    case Ok(elements) =>
      var k := MappedKnowledge(e, elements);
      if !ValidKnowledge(k) then Err(InvalidKnowledge)
      else Ok(Candidate(CANDIDATE_SCHEMA_VERSION, CandidateIdFor(e.workflowId, e.productId, e.evidenceId),
                        e.workflowId, e.productId, e.evidenceId, k))
  }

  // ----- when the mapping succeeds -----

  /** The names of each element stay apart after normalization. */
  predicate Mappable(e: Evidence) {
    forall x :: x in e.elements ==> Distinct(Normalized(x.attributes))
  }

  lemma MappedElement(x: ObservedElement)
    requires ValidObservedElement(x)
    ensures MapElement(x).Ok? <==> Distinct(Normalized(x.attributes))
    ensures MapElement(x).Ok? ==>
            ValidElement(MapElement(x).value) && Pairs(x.attributes, MapElement(x).value.attributes)
  {
    MapsExactly(x.attributes);
    if MapElement(x).Ok? {
      MappedIsUnambiguous(x.attributes, MapElement(x).value.attributes);
    }
  }

  lemma MappedElements(e: Evidence, elements: seq<Element>)
    requires ValidEvidence(e) && MapElements(e.elements) == Ok(elements)
    ensures Ids(elements, ElementId) == Ids(e.elements, ObservedElementId)
    ensures forall y :: y in elements ==>
              ValidElement(y) && y.lifecycle == UNVERIFIED && y.pageId in Ids(e.pages, ObservedPageId)
  {
    hide MapElement, ValidElement;
    forall i | 0 <= i < |elements|
      ensures elements[i].id == e.elements[i].id && ValidElement(elements[i]) && elements[i].lifecycle == UNVERIFIED
              && elements[i].pageId in Ids(e.pages, ObservedPageId)
    {
      assert e.elements[i] in e.elements;
      MappedElement(e.elements[i]);
      MapElementFields(e.elements[i]);
    }
  }

  lemma MapElementFields(x: ObservedElement)
    requires MapElement(x).Ok?
    ensures var y := MapElement(x).value;
            y.id == x.id && y.lifecycle == UNVERIFIED && y.pageId == x.pageId && y.role == x.role
            && y.accessibleName == x.accessibleName && y.visibleText == x.visibleText
  {}

  lemma EvidenceNames(e: Evidence)
    requires ValidEvidence(e)
    ensures e.evidenceId != "" && e.workflowId != "" && e.productId != ""
  {
    var names := [e.schemaVersion, e.evidenceId, e.workflowId, e.productId];
    assert AllNonempty(names);
    assert names[1] in names && names[2] in names && names[3] in names;
  }

  lemma MappedKnowledgeIsValid(e: Evidence, elements: seq<Element>)
    requires ValidEvidence(e) && MapElements(e.elements) == Ok(elements)
    ensures ValidKnowledge(MappedKnowledge(e, elements))
  {
    hide MapElements, MapElement, ValidElement, ValidObservedElement, Digest;
    MappedElements(e, elements);
    var k := MappedKnowledge(e, elements);
    assert |ArtifactIdFor(e.workflowId, e.productId, e.evidenceId)| >= 1;
    EvidenceNames(e);
    assert AllNonempty([k.artifactId, k.productId, k.provenance]);
    assert Ids(k.pages, PageId) == Ids(e.pages, ObservedPageId);
    assert Ids(k.locators, LocatorId) == Ids(e.locators, ObservedLocatorId);
    assert Ids(k.interactions, InteractionId) == Ids(e.interactions, ObservedInteractionId);
  }

  /** Mapping valid evidence succeeds exactly when each element's attribute names stay
      distinct after normalization; the candidate is valid and correlated to the evidence. */
  lemma BuildsExactly(e: Evidence)
    requires ValidEvidence(e)
    ensures BuildCandidate(e).Ok? <==> Mappable(e)
    ensures BuildCandidate(e).Ok? ==>
              var c := BuildCandidate(e).value;
              && ValidCandidate(c) && ParseCandidate(CandidatePayload(c)) == Ok(c)
              && c.workflowId == e.workflowId && c.productId == e.productId && c.sourceEvidenceId == e.evidenceId
  {
    hide MapElement, ValidElement, ValidObservedElement, ValidKnowledge, MappedKnowledge, CandidateIdFor, ArtifactIdFor,
         Normalized, Distinct;
    MappableElements(e);
    if MapElements(e.elements).Ok? {
      MappedKnowledgeIsValid(e, MapElements(e.elements).value);
      EvidenceNames(e);
      BuiltFields(e);
      hide ValidEvidence;
    }
  }

  lemma MappableElements(e: Evidence)
    requires ValidEvidence(e)
    ensures MapElements(e.elements).Ok? <==> Mappable(e)
  {
    hide MapElement, Distinct, Normalized;
    forall x | x in e.elements ensures MapElement(x).Ok? <==> Distinct(Normalized(x.attributes)) {
      MappedElement(x);
    }
  }

  lemma BuiltFields(e: Evidence)
    requires BuildCandidate(e).Ok?
    ensures var c := BuildCandidate(e).value;
            && c.knowledge.productId == c.productId && ValidKnowledge(c.knowledge)
            && c.knowledge.artifactId == ArtifactIdFor(c.workflowId, c.productId, c.sourceEvidenceId)
            && c.candidateId == CandidateIdFor(c.workflowId, c.productId, c.sourceEvidenceId)
            && c.candidateId != ""
  {
    hide ValidKnowledge, Digest;
    assert |CandidateIdFor(e.workflowId, e.productId, e.evidenceId)| >= 1;
  }

  // ----- nothing observed is lost -----

  function ObservedFromPage(p: Page): ObservedPage {
    ObservedPage(p.id, p.url, p.title, p.fingerprint)
  }

  function ObservedFromLocator(l: Locator): ObservedLocator {
    ObservedLocator(l.id, l.elementId, l.strategy, l.value, l.priority)
  }

  function ObservedFromInteraction(x: Interaction): ObservedInteraction {
    ObservedInteraction(x.id, x.sourcePageId, x.targetElementId, x.action, x.outcomeType, x.outcomeValue)
  }

  predicate SameObservation(x: ObservedElement, y: Element) {
    && y.id == x.id && y.pageId == x.pageId && y.role == x.role
    && y.accessibleName == x.accessibleName && y.visibleText == x.visibleText && Pairs(x.attributes, y.attributes)
  }

  /** The evidence can be read off its mapping, item by item; only the order of an element's
      attributes is not kept. */
  lemma MappingLosesNothing(e: Evidence)
    requires BuildCandidate(e).Ok?
    ensures var k := BuildCandidate(e).value.knowledge;
            && MapAll(k.pages, ObservedFromPage) == e.pages
            && MapAll(k.locators, ObservedFromLocator) == e.locators
            && MapAll(k.interactions, ObservedFromInteraction) == e.interactions
            && |k.elements| == |e.elements|
            && forall i :: 0 <= i < |e.elements| ==> SameObservation(e.elements[i], k.elements[i])
  {
    hide ValidKnowledge, CandidateIdFor, ArtifactIdFor, Pairs;
    var k := BuildCandidate(e).value.knowledge;
    forall i | 0 <= i < |e.elements| ensures SameObservation(e.elements[i], k.elements[i]) {
      MapsExactly(e.elements[i].attributes);
      MapElementFields(e.elements[i]);
    }
    hide MapElements, MapElement, SameObservation;
    assert MapAll(k.pages, ObservedFromPage) == e.pages;
    assert MapAll(k.locators, ObservedFromLocator) == e.locators;
    assert MapAll(k.interactions, ObservedFromInteraction) == e.interactions;
  }

  /** A valid candidate has no prohibited mapping key and may enter a workflow state. */
  lemma CandidateIsSafe(c: Candidate)
    requires ValidCandidate(c)
    ensures SafePayload(CandidatePayload(c))
  {
    hide NormalizeKey, IsProhibited;
    forall e, name | e in c.knowledge.elements && name in e.attributes ensures !IsProhibited(name) {
      assert ValidElement(e);
    }
  }
}
