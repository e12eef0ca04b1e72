/** What the contracts of workflow states, patches, evidence, candidates and validation results
    admit (pmqa/workflow/models.py, pmqa/workflow/updates.py, pmqa/models/exploration.py,
    products/demo/knowledge_mapping.py, products/demo/validation.py), item by item. */
module ContractMeaning {
  import opened Wrappers
  import opened Boundary
  import opened Models
  import opened Workflow
  import opened Sequences
  import opened KnowledgeMapping
  import opened KnowledgeValidation

  // ----- workflow states and patches -----

  /** An entry is closed, at or after its start, exactly when it completed or failed. */
  predicate Closed(i: Invocation) {
    match i.status
    case InvocationPending => i.completedAt.None?
    case InvocationRunning => i.completedAt.None?
    case _ => i.completedAt.Some? && i.startedAt <= i.completedAt.value
  }

  predicate AllClosed(history: seq<Invocation>) {
    forall k :: 0 <= k < |history| ==> Closed(history[k])
  }

  lemma HistoryMeans(history: seq<Invocation>)
    ensures AllValid(history) <==> AllClosed(history)
  {
    if AllClosed(history) {
      forall i | i in history ensures ValidInvocation(i) {
        var k :| 0 <= k < |history| && history[k] == i;
        assert Closed(history[k]);
      }
    }
    if AllValid(history) {
      forall k | 0 <= k < |history| ensures Closed(history[k]) {
        assert ValidInvocation(history[k]);
      }
    }
  }

  /** No attribute of these elements has a prohibited name. */
  predicate NoSecrets(elements: seq<Element>) {
    forall k, name :: 0 <= k < |elements| && name in elements[k].attributes ==>
                        NormalizeKey(name) !in WORKFLOW_PROHIBITED_KEYS
  }

  predicate Storable(p: Payload) {
    match p
    case EvidencePayload(_) => true
    case CandidatePayload(c) => NoSecrets(c.knowledge.elements)
    case ValidationPayload(v) => v.verified.None? || NoSecrets(v.verified.value.elements)
    case ForeignPayload(_, safe) => safe
  }

  predicate AllStorable(ps: seq<Payload>) {
    forall k :: 0 <= k < |ps| ==> Storable(ps[k])
  }

  lemma PayloadMeans(p: Payload)
    ensures SafePayload(p) <==> Storable(p)
  {
    hide NormalizeKey;
    if p.CandidatePayload? {
      AttributesMean(p.candidate.knowledge);
    }
    if p.ValidationPayload? && p.validation.verified.Some? {
      AttributesMean(p.validation.verified.value);
    }
  }

  lemma AttributesMean(k: KnowledgeArtifact)
    ensures SafeAttributes(k) <==> NoSecrets(k.elements)
  {
    hide NormalizeKey;
    if NoSecrets(k.elements) {
      forall e, name | e in k.elements && name in e.attributes ensures !IsProhibited(name) {
        var i :| 0 <= i < |k.elements| && k.elements[i] == e;
      }
    }
    if SafeAttributes(k) {
      forall i, name | 0 <= i < |k.elements| && name in k.elements[i].attributes
        ensures NormalizeKey(name) !in WORKFLOW_PROHIBITED_KEYS {
        assert k.elements[i] in k.elements;
        assert !IsProhibited(name);
      }
    }
  }

  lemma PayloadsMean(ps: seq<Payload>)
    ensures AllSafe(ps) <==> AllStorable(ps)
  {
    forall p ensures SafePayload(p) <==> Storable(p) {
      PayloadMeans(p);
    }
    hide SafePayload, Storable;
    if AllStorable(ps) {
      forall p | p in ps ensures SafePayload(p) {
        var k :| 0 <= k < |ps| && ps[k] == p;
        assert Storable(ps[k]);
      }
    }
    if AllSafe(ps) {
      forall k | 0 <= k < |ps| ensures Storable(ps[k]) {
        assert ps[k] in ps;
      }
    }
  }

  /** A workflow state: named throughout, within its limit, in chronological order, with closed
      entries and storable payloads. */
  lemma StateMeans(s: WorkflowState)
    ensures ValidState(s) <==>
              && "" !in {s.workflowId, s.workflowType, s.productId, s.productVersion, s.goal}
              && 0 <= s.iteration <= s.maxIterations && s.maxIterations > 0 && s.createdAt <= s.updatedAt
              && Storable(s.productContext) && AllStorable(s.evidence) && AllStorable(s.candidates)
              && AllStorable(s.validations) && AllClosed(s.history)
  {
    PayloadMeans(s.productContext);
    PayloadsMean(s.evidence);
    PayloadsMean(s.candidates);
    PayloadsMean(s.validations);
    HistoryMeans(s.history);
    hide AllSafe, AllStorable, SafePayload, Storable, AllClosed, AllValid;
  }

  /** A patch: it never sets and clears the same field, ends the workflow exactly when it gives
      the reason, and reopens it when it takes the reason back. */
  lemma PatchMeans(p: Patch)
    ensures ValidPatch(p) <==>
              && (p.clearCurrentAgent ==> p.currentAgent.None?) && (p.clearNextAgent ==> p.nextAgent.None?)
              && (match p.status
                  case None => p.termination.None? && !p.clearTermination
                  case Some(Pending) => p.termination.None?
                  case Some(Running) => p.termination.None?
                  case Some(_) => p.termination.Some? && !p.clearTermination)
              && (p.iteration.Some? ==> 0 <= p.iteration.value)
              && AllStorable(p.evidence) && AllStorable(p.candidates) && AllStorable(p.validations)
              && AllClosed(p.history)
  {
    PayloadsMean(p.evidence);
    PayloadsMean(p.candidates);
    PayloadsMean(p.validations);
    HistoryMeans(p.history);
    hide AllSafe, AllStorable, AllClosed, AllValid;
  }

  // ----- evidence -----

  predicate HasPage(e: Evidence, id: string) {
    exists k :: 0 <= k < |e.pages| && e.pages[k].id == id
  }

  predicate HasElement(e: Evidence, id: string) {
    exists k :: 0 <= k < |e.elements| && e.elements[k].id == id
  }

  predicate PagesMean(e: Evidence) {
    && (forall k :: 0 <= k < |e.pages| ==>
        "" !in {e.pages[k].id, e.pages[k].url, e.pages[k].title, e.pages[k].fingerprint})
    && (forall j, k :: 0 <= j < k < |e.pages| ==> e.pages[j].id != e.pages[k].id)
  }

  predicate NamesMean(attributes: seq<Attribute>) {
    && (forall k :: 0 <= k < |attributes| ==>
          attributes[k].name != "" && NormalizeKey(attributes[k].name) !in WORKFLOW_PROHIBITED_KEYS)
    && (forall j, k :: 0 <= j < k < |attributes| ==> attributes[j].name != attributes[k].name)
  }

  predicate ElementMeans(e: Evidence, x: ObservedElement) {
    && "" !in {x.id, x.pageId, x.role, x.accessibleName} && NamesMean(x.attributes) && HasPage(e, x.pageId)
  }

  predicate ElementsMean(e: Evidence) {
    && (forall k :: 0 <= k < |e.elements| ==> ElementMeans(e, e.elements[k]))
    && (forall j, k :: 0 <= j < k < |e.elements| ==> e.elements[j].id != e.elements[k].id)
  }

  predicate LocatorMeans(e: Evidence, x: ObservedLocator) {
    "" !in {x.id, x.elementId, x.strategy, x.value} && x.priority >= 1 && HasElement(e, x.elementId)
  }

  predicate LocatorsMean(e: Evidence) {
    && (forall k :: 0 <= k < |e.locators| ==> LocatorMeans(e, e.locators[k]))
    && (forall j, k :: 0 <= j < k < |e.locators| ==> e.locators[j].id != e.locators[k].id)
  }

  predicate InteractionMeans(e: Evidence, x: ObservedInteraction) {
    && "" !in {x.id, x.sourcePageId, x.targetElementId, x.action, x.outcomeType, x.outcomeValue}
    && HasPage(e, x.sourcePageId) && HasElement(e, x.targetElementId)
  }

  predicate InteractionsMean(e: Evidence) {
    && (forall k :: 0 <= k < |e.interactions| ==> InteractionMeans(e, e.interactions[k]))
    && (forall j, k :: 0 <= j < k < |e.interactions| ==> e.interactions[j].id != e.interactions[k].id)
  }

  lemma InIds<T>(items: seq<T>, id: T -> string, x: string)
    ensures x in Ids(items, id) <==> exists k :: 0 <= k < |items| && id(items[k]) == x
  {
    if k :| 0 <= k < |items| && id(items[k]) == x {
      assert Ids(items, id)[k] == x;
    }
    if x in Ids(items, id) {
      var k :| 0 <= k < |items| && Ids(items, id)[k] == x;
      assert id(items[k]) == x;
    }
  }

  lemma DistinctIdsMean<T>(items: seq<T>, id: T -> string)
    ensures Distinct(Ids(items, id)) <==> forall j, k :: 0 <= j < k < |items| ==> id(items[j]) != id(items[k])
  {
    var ids := Ids(items, id);
    if Distinct(ids) {
      forall j, k | 0 <= j < k < |items| ensures id(items[j]) != id(items[k]) {
        assert ids[j] != ids[k];
      }
    }
  }

  lemma HasPageIn(e: Evidence, x: string)
    ensures x in Ids(e.pages, ObservedPageId) <==> HasPage(e, x)
  {
    InIds(e.pages, ObservedPageId, x);
    if k :| 0 <= k < |e.pages| && e.pages[k].id == x {
      assert ObservedPageId(e.pages[k]) == x;
    }
  }

  lemma HasElementIn(e: Evidence, x: string)
    ensures x in Ids(e.elements, ObservedElementId) <==> HasElement(e, x)
  {
    InIds(e.elements, ObservedElementId, x);
    if k :| 0 <= k < |e.elements| && e.elements[k].id == x {
      assert ObservedElementId(e.elements[k]) == x;
    }
  }

  lemma Given(a: string, b: string, c: string, d: string, e: string, f: string)
    ensures AllNonempty([a, b, c]) <==> "" !in {a, b, c}
    ensures AllNonempty([a, b, c, d]) <==> "" !in {a, b, c, d}
    ensures AllNonempty([a, b, c, d, e, f]) <==> "" !in {a, b, c, d, e, f}
  {
    EmptyText([a, b, c]);
    EmptyText([a, b, c, d]);
    EmptyText([a, b, c, d, e, f]);
  }

  lemma EmptyText(values: seq<string>)
    ensures AllNonempty(values) <==> "" !in values
  {}

  lemma AttributeNamesMean(x: ObservedElement)
    ensures ValidObservedElement(x) <==> "" !in {x.id, x.pageId, x.role, x.accessibleName} && NamesMean(x.attributes)
  {
    Given(x.id, x.pageId, x.role, x.accessibleName, "", "");
    NamesApart(x.attributes);
    hide NormalizeKey, AllNonempty, Distinct;
    if NamesMean(x.attributes) {
      forall a | a in x.attributes ensures a.name != "" && !IsProhibited(a.name) {
        var k :| 0 <= k < |x.attributes| && x.attributes[k] == a;
      }
    }
    if forall a :: a in x.attributes ==> a.name != "" && !IsProhibited(a.name) {
      forall k | 0 <= k < |x.attributes|
        ensures x.attributes[k].name != "" && NormalizeKey(x.attributes[k].name) !in WORKFLOW_PROHIBITED_KEYS {
        assert x.attributes[k] in x.attributes;
      }
    }
  }

  lemma NamesApart(attributes: seq<Attribute>)
    ensures Distinct(Names(attributes)) <==>
              forall j, k :: 0 <= j < k < |attributes| ==> attributes[j].name != attributes[k].name
  {
    var names := Names(attributes);
    if Distinct(names) {
      forall j, k | 0 <= j < k < |attributes| ensures attributes[j].name != attributes[k].name {
        assert names[j] != names[k];
      }
    }
  }

  /** A batch of evidence: named and sourced; within each list every item complete and no
      identifier twice; every element on a page of the batch, every locator of an element of it,
      every interaction from a page of it to an element of it; and no attribute name empty,
      repeated or prohibited. */
  lemma EvidenceMeans(e: Evidence)
    ensures ValidEvidence(e) <==>
              && "" !in {e.schemaVersion, e.evidenceId, e.workflowId, e.productId}
              && "" !in {e.source.sourceType, e.source.toolId, e.source.captureId}
              && PagesMean(e) && ElementsMean(e) && LocatorsMean(e) && InteractionsMean(e)
  {
    Given(e.schemaVersion, e.evidenceId, e.workflowId, e.productId, "", "");
    Given(e.source.sourceType, e.source.toolId, e.source.captureId, "", "", "");
    PagesExactly(e);
    ElementsExactly(e);
    LocatorsExactly(e);
    InteractionsExactly(e);
    hide PagesMean, ElementsMean, LocatorsMean, InteractionsMean, AllNonempty, Distinct, Ids, ValidObservedElement;
  }

  lemma PagesExactly(e: Evidence)
    ensures PagesMean(e) <==>
              && Distinct(Ids(e.pages, ObservedPageId))
              && forall p :: p in e.pages ==> AllNonempty([p.id, p.url, p.title, p.fingerprint])
  {
    DistinctIdsMean(e.pages, ObservedPageId);
    forall p: ObservedPage
      ensures AllNonempty([p.id, p.url, p.title, p.fingerprint]) <==> "" !in {p.id, p.url, p.title, p.fingerprint} {
      Given(p.id, p.url, p.title, p.fingerprint, "", "");
    }
    hide AllNonempty, Distinct, Ids;
    assert forall p :: p in e.pages ==> exists k :: 0 <= k < |e.pages| && e.pages[k] == p;
  }

  lemma ElementsExactly(e: Evidence)
    ensures ElementsMean(e) <==>
              && Distinct(Ids(e.elements, ObservedElementId))
              && forall x :: x in e.elements ==> ValidObservedElement(x) && x.pageId in Ids(e.pages, ObservedPageId)
  {
    DistinctIdsMean(e.elements, ObservedElementId);
    forall x ensures ElementMeans(e, x) <==> ValidObservedElement(x) && x.pageId in Ids(e.pages, ObservedPageId) {
      AttributeNamesMean(x);
      HasPageIn(e, x.pageId);
    }
    hide ElementMeans, ValidObservedElement, Distinct, Ids;
    assert forall x :: x in e.elements ==> exists k :: 0 <= k < |e.elements| && e.elements[k] == x;
  }

  lemma LocatorsExactly(e: Evidence)
    ensures LocatorsMean(e) <==>
              && Distinct(Ids(e.locators, ObservedLocatorId))
              && forall x :: x in e.locators ==>
                   && AllNonempty([x.id, x.elementId, x.strategy, x.value]) && x.priority >= 1
                   && x.elementId in Ids(e.elements, ObservedElementId)
  {
    DistinctIdsMean(e.locators, ObservedLocatorId);
    forall x ensures LocatorMeans(e, x) <==>
                       && AllNonempty([x.id, x.elementId, x.strategy, x.value]) && x.priority >= 1
                       && x.elementId in Ids(e.elements, ObservedElementId) {
      Given(x.id, x.elementId, x.strategy, x.value, "", "");
      HasElementIn(e, x.elementId);
    }
    hide LocatorMeans, AllNonempty, Distinct, Ids;
    assert forall x :: x in e.locators ==> exists k :: 0 <= k < |e.locators| && e.locators[k] == x;
  }

  predicate InteractionFits(e: Evidence, x: ObservedInteraction) {
    && AllNonempty([x.id, x.sourcePageId, x.targetElementId, x.action, x.outcomeType, x.outcomeValue])
    && x.sourcePageId in Ids(e.pages, ObservedPageId) && x.targetElementId in Ids(e.elements, ObservedElementId)
  }

  lemma InteractionsExactly(e: Evidence)
    ensures InteractionsMean(e) <==>
              && Distinct(Ids(e.interactions, ObservedInteractionId))
              && forall x :: x in e.interactions ==> InteractionFits(e, x)
  {
    DistinctIdsMean(e.interactions, ObservedInteractionId);
    forall x ensures InteractionMeans(e, x) <==> InteractionFits(e, x) {
      Given(x.id, x.sourcePageId, x.targetElementId, x.action, x.outcomeType, x.outcomeValue);
      HasPageIn(e, x.sourcePageId);
      HasElementIn(e, x.targetElementId);
    }
    hide InteractionMeans, InteractionFits, Distinct, Ids;
    assert forall x :: x in e.interactions ==> exists k :: 0 <= k < |e.interactions| && e.interactions[k] == x;
  }

  // ----- candidates and results -----

  /** The identifier of the candidate for a batch: its kind and all that it is for. */
  function CandidateName(workflowId: string, productId: string, evidenceId: string): string {
    "candidate.saucedemo." + ("1" + "\0" + "candidate" + "\0" + workflowId + "\0" + productId + "\0" + evidenceId)
  }

  function KnowledgeName(workflowId: string, productId: string, evidenceId: string): string {
    "knowledge.saucedemo." + ("1" + "\0" + "knowledge" + "\0" + workflowId + "\0" + productId + "\0" + evidenceId)
  }

  function ResultName(workflowId: string, productId: string, candidateId: string, evidenceId: string): string {
    "validation.saucedemo."
    + ("1" + "\0" + workflowId + "\0" + productId + "\0" + candidateId + "\0" + evidenceId)
  }

  lemma Joined(a: string, b: string, c: string, d: string, e: string)
    ensures Join([a, b, c, d, e]) == a + "\0" + b + "\0" + c + "\0" + d + "\0" + e
  {
    JoinPush([a, b, c, d], e);
    JoinPush([a, b, c], d);
    JoinPush([a, b], c);
    JoinPush([a], b);
    assert [a, b, c, d] + [e] == [a, b, c, d, e] && [a, b, c] + [d] == [a, b, c, d];
    assert [a, b] + [c] == [a, b, c] && [a] + [b] == [a, b];
  }

  lemma JoinPush(parts: seq<string>, last: string)
    requires parts != []
    ensures Join(parts + [last]) == Join(parts) + "\0" + last
  {
    assert (parts + [last])[..|parts|] == parts;
  }

  /** The identifiers the agents give: the version, the kind and the sources, in this order. */
  lemma NamesAre(workflowId: string, productId: string, candidateId: string, evidenceId: string)
    ensures CandidateIdFor(workflowId, productId, evidenceId) == CandidateName(workflowId, productId, evidenceId)
    ensures ArtifactIdFor(workflowId, productId, evidenceId) == KnowledgeName(workflowId, productId, evidenceId)
    ensures ValidationIdFor(workflowId, productId, candidateId, evidenceId)
         == ResultName(workflowId, productId, candidateId, evidenceId)
  {
    Joined("1", "candidate", workflowId, productId, evidenceId);
    Joined("1", "knowledge", workflowId, productId, evidenceId);
    Joined("1", workflowId, productId, candidateId, evidenceId);
  }

  // ----- knowledge -----

  predicate KnowsPage(k: KnowledgeArtifact, id: string) {
    exists i :: 0 <= i < |k.pages| && k.pages[i].id == id
  }

  predicate KnowsElement(k: KnowledgeArtifact, id: string) {
    exists i :: 0 <= i < |k.elements| && k.elements[i].id == id
  }

  predicate KnownPage(l: Lifecycle, x: Page) {
    x.lifecycle == l && "" !in {x.id, x.url, x.title, x.fingerprint}
  }

  predicate KnownPages(k: KnowledgeArtifact, l: Lifecycle) {
    && (forall i :: 0 <= i < |k.pages| ==> KnownPage(l, k.pages[i]))
    && (forall i, j :: 0 <= i < j < |k.pages| ==> k.pages[i].id != k.pages[j].id)
  }

  predicate KnownElement(k: KnowledgeArtifact, l: Lifecycle, x: Element) {
    && x.lifecycle == l && "" !in {x.id, x.pageId, x.role, x.accessibleName} && KnowsPage(k, x.pageId)
    && (forall a, b :: a in x.attributes && b in x.attributes && NormalizeKey(a) == NormalizeKey(b) ==> a == b)
    && (forall a :: a in x.attributes ==> NormalizeKey(a) !in WORKFLOW_PROHIBITED_KEYS)
  }

  predicate KnownElements(k: KnowledgeArtifact, l: Lifecycle) {
    && (forall i :: 0 <= i < |k.elements| ==> KnownElement(k, l, k.elements[i]))
    && (forall i, j :: 0 <= i < j < |k.elements| ==> k.elements[i].id != k.elements[j].id)
  }

  predicate KnownLocator(k: KnowledgeArtifact, l: Lifecycle, x: Locator) {
    && x.lifecycle == l && "" !in {x.id, x.elementId, x.strategy, x.value} && x.priority >= 1
    && KnowsElement(k, x.elementId)
  }

  predicate KnownLocators(k: KnowledgeArtifact, l: Lifecycle) {
    && (forall i :: 0 <= i < |k.locators| ==> KnownLocator(k, l, k.locators[i]))
    && (forall i, j :: 0 <= i < j < |k.locators| ==> k.locators[i].id != k.locators[j].id)
  }

  predicate KnownInteraction(k: KnowledgeArtifact, l: Lifecycle, x: Interaction) {
    && x.lifecycle == l
    && "" !in {x.id, x.sourcePageId, x.targetElementId, x.action, x.outcomeType, x.outcomeValue}
    && KnowsPage(k, x.sourcePageId) && KnowsElement(k, x.targetElementId)
  }

  predicate KnownInteractions(k: KnowledgeArtifact, l: Lifecycle) {
    && (forall i :: 0 <= i < |k.interactions| ==> KnownInteraction(k, l, k.interactions[i]))
    && (forall i, j :: 0 <= i < j < |k.interactions| ==> k.interactions[i].id != k.interactions[j].id)
  }

  /** Knowledge made by the deterministic mapping for this scope, every item in this lifecycle. */
  predicate Known(k: KnowledgeArtifact, l: Lifecycle, workflowId: string, productId: string, evidenceId: string) {
    && k.artifactId == KnowledgeName(workflowId, productId, evidenceId) && k.productId == productId
    && k.provenance == "deterministic-evidence-mapping-v1"
    && KnownPages(k, l) && KnownElements(k, l) && KnownLocators(k, l) && KnownInteractions(k, l)
  }

  lemma KnowsPageIn(k: KnowledgeArtifact, x: string)
    ensures x in Ids(k.pages, PageId) <==> KnowsPage(k, x)
  {
    InIds(k.pages, PageId, x);
    if i :| 0 <= i < |k.pages| && k.pages[i].id == x {
      assert PageId(k.pages[i]) == x;
    }
  }

  lemma KnowsElementIn(k: KnowledgeArtifact, x: string)
    ensures x in Ids(k.elements, ElementId) <==> KnowsElement(k, x)
  {
    InIds(k.elements, ElementId, x);
    if i :| 0 <= i < |k.elements| && k.elements[i].id == x {
      assert ElementId(k.elements[i]) == x;
    }
  }

  predicate PageFits(p: Page, l: Lifecycle) {
    p.lifecycle == l && AllNonempty([p.id, p.url, p.title, p.fingerprint])
  }

  predicate ElementFits(k: KnowledgeArtifact, l: Lifecycle, x: Element) {
    x.lifecycle == l && ValidElement(x) && x.pageId in Ids(k.pages, PageId)
  }

  predicate LocatorFits(k: KnowledgeArtifact, l: Lifecycle, x: Locator) {
    && x.lifecycle == l && AllNonempty([x.id, x.elementId, x.strategy, x.value]) && x.priority >= 1
    && x.elementId in Ids(k.elements, ElementId)
  }

  predicate ActionFits(k: KnowledgeArtifact, l: Lifecycle, x: Interaction) {
    && x.lifecycle == l
    && AllNonempty([x.id, x.sourcePageId, x.targetElementId, x.action, x.outcomeType, x.outcomeValue])
    && x.sourcePageId in Ids(k.pages, PageId) && x.targetElementId in Ids(k.elements, ElementId)
  }

  lemma KnownPagesExactly(k: KnowledgeArtifact, l: Lifecycle)
    ensures KnownPages(k, l) <==> Distinct(Ids(k.pages, PageId)) && forall p :: p in k.pages ==> PageFits(p, l)
  {
    DistinctIdsMean(k.pages, PageId);
    forall p: Page ensures PageFits(p, l) <==> KnownPage(l, p) {
      Given(p.id, p.url, p.title, p.fingerprint, "", "");
    }
    hide PageFits, KnownPage, Distinct, Ids;
    assert forall p :: p in k.pages ==> exists i :: 0 <= i < |k.pages| && k.pages[i] == p;
  }

  lemma KnownElementsExactly(k: KnowledgeArtifact, l: Lifecycle)
    ensures KnownElements(k, l) <==>
              Distinct(Ids(k.elements, ElementId)) && forall x :: x in k.elements ==> ElementFits(k, l, x)
  {
    DistinctIdsMean(k.elements, ElementId);
    forall x ensures KnownElement(k, l, x) <==> ElementFits(k, l, x) {
      hide NormalizeKey;
      Given(x.id, x.pageId, x.role, x.accessibleName, "", "");
      KnowsPageIn(k, x.pageId);
      AttributesApart(x.attributes);
    }
    hide KnownElement, ElementFits, Distinct, Ids;
    assert forall x :: x in k.elements ==> exists i :: 0 <= i < |k.elements| && k.elements[i] == x;
  }

  lemma AttributesApart(m: map<string, string>)
    ensures UnambiguousMap(m) <==>
              && (forall a, b :: a in m && b in m && NormalizeKey(a) == NormalizeKey(b) ==> a == b)
              && (forall a :: a in m ==> NormalizeKey(a) !in WORKFLOW_PROHIBITED_KEYS)
  {
    hide NormalizeKey;
    if UnambiguousMap(m) {
      forall a | a in m ensures NormalizeKey(a) !in WORKFLOW_PROHIBITED_KEYS {
        assert !IsProhibited(a);
      }
    }
  }

  lemma KnownLocatorsExactly(k: KnowledgeArtifact, l: Lifecycle)
    ensures KnownLocators(k, l) <==>
              Distinct(Ids(k.locators, LocatorId)) && forall x :: x in k.locators ==> LocatorFits(k, l, x)
  {
    DistinctIdsMean(k.locators, LocatorId);
    forall x ensures KnownLocator(k, l, x) <==> LocatorFits(k, l, x) {
      Given(x.id, x.elementId, x.strategy, x.value, "", "");
      KnowsElementIn(k, x.elementId);
    }
    hide KnownLocator, LocatorFits, Distinct, Ids;
    assert forall x :: x in k.locators ==> exists i :: 0 <= i < |k.locators| && k.locators[i] == x;
  }

  lemma KnownInteractionsExactly(k: KnowledgeArtifact, l: Lifecycle)
    ensures KnownInteractions(k, l) <==>
              Distinct(Ids(k.interactions, InteractionId)) && forall x :: x in k.interactions ==> ActionFits(k, l, x)
  {
    DistinctIdsMean(k.interactions, InteractionId);
    forall x ensures KnownInteraction(k, l, x) <==> ActionFits(k, l, x) {
      Given(x.id, x.sourcePageId, x.targetElementId, x.action, x.outcomeType, x.outcomeValue);
      KnowsPageIn(k, x.sourcePageId);
      KnowsElementIn(k, x.targetElementId);
    }
    hide KnownInteraction, ActionFits, Distinct, Ids;
    assert forall x :: x in k.interactions ==> exists i :: 0 <= i < |k.interactions| && k.interactions[i] == x;
  }

  /** All items in one lifecycle and sound, list by list. */
  lemma SoundExactly(k: KnowledgeArtifact, l: Lifecycle)
    ensures AllLifecycles(k, l) && SoundKnowledge(k) <==>
              && AllNonempty([k.artifactId, k.productId, k.provenance])
              && k.provenance == "deterministic-evidence-mapping-v1"
              && KnownPages(k, l) && KnownElements(k, l) && KnownLocators(k, l) && KnownInteractions(k, l)
  {
    KnownPagesExactly(k, l);
    KnownElementsExactly(k, l);
    KnownLocatorsExactly(k, l);
    KnownInteractionsExactly(k, l);
    hide KnownPages, KnownElements, KnownLocators, KnownInteractions, Distinct, Ids, AllNonempty, ValidElement;
  }

  /** A candidate: of the first schema version, named after its sources, with knowledge of its own
      scope that nobody has verified yet. */
  lemma CandidateMeans(c: Candidate)
    ensures ValidCandidate(c) <==>
              && c.schemaVersion == "1" && "" !in {c.workflowId, c.productId, c.sourceEvidenceId}
              && c.candidateId == CandidateName(c.workflowId, c.productId, c.sourceEvidenceId)
              && Known(c.knowledge, Lifecycle(New, None), c.workflowId, c.productId, c.sourceEvidenceId)
  {
    NamesAre(c.workflowId, c.productId, "", c.sourceEvidenceId);
    SoundExactly(c.knowledge, UNVERIFIED);
    EmptyText([c.schemaVersion, c.candidateId, c.workflowId, c.productId, c.sourceEvidenceId]);
    EmptyText([c.knowledge.artifactId, c.knowledge.productId, c.knowledge.provenance]);
    assert CandidateName(c.workflowId, c.productId, c.sourceEvidenceId) != "";
    assert KnowledgeName(c.workflowId, c.productId, c.sourceEvidenceId) != "";
    hide KnownPages, KnownElements, KnownLocators, KnownInteractions, AllLifecycles, SoundKnowledge, AllNonempty;
    hide CandidateName, KnowledgeName, CandidateIdFor, ArtifactIdFor;
  }

  /** Another lifecycle changes nothing else about the items. */
  lemma SoundIgnoresLifecycle(k: KnowledgeArtifact, l: Lifecycle)
    requires SoundKnowledge(k)
    ensures SoundKnowledge(WithLifecycle(k, l))
  {
    var m := WithLifecycle(k, l);
    assert Ids(m.pages, PageId) == Ids(k.pages, PageId) && Ids(m.elements, ElementId) == Ids(k.elements, ElementId);
    assert Ids(m.locators, LocatorId) == Ids(k.locators, LocatorId);
    assert Ids(m.interactions, InteractionId) == Ids(k.interactions, InteractionId);
    hide Distinct, AllNonempty, UnambiguousMap;
    forall x | x in m.pages ensures exists y :: y in k.pages && x == y.(lifecycle := l) {
      var i :| 0 <= i < |m.pages| && m.pages[i] == x;
      assert k.pages[i] in k.pages && x == k.pages[i].(lifecycle := l);
    }
    forall x | x in m.elements ensures exists y :: y in k.elements && x == y.(lifecycle := l) {
      var i :| 0 <= i < |m.elements| && m.elements[i] == x;
      assert k.elements[i] in k.elements && x == k.elements[i].(lifecycle := l);
    }
    forall x | x in m.locators ensures exists y :: y in k.locators && x == y.(lifecycle := l) {
      var i :| 0 <= i < |m.locators| && m.locators[i] == x;
      assert k.locators[i] in k.locators && x == k.locators[i].(lifecycle := l);
    }
    forall x | x in m.interactions ensures exists y :: y in k.interactions && x == y.(lifecycle := l) {
      var i :| 0 <= i < |m.interactions| && m.interactions[i] == x;
      assert k.interactions[i] in k.interactions && x == k.interactions[i].(lifecycle := l);
    }
    hide Ids, WithLifecycle;
  }

  /** A verified snapshot is candidate knowledge of the same scope, every item verified then. */
  lemma SnapshotMeans(v: ValidationResult, k: KnowledgeArtifact)
    requires "" !in {v.workflowId, v.productId, v.sourceEvidenceId}
    requires v.candidateId == CandidateName(v.workflowId, v.productId, v.sourceEvidenceId)
    ensures ValidSnapshot(v, k) <==>
              Known(k, Lifecycle(Verified, Some(v.validatedAt)), v.workflowId, v.productId, v.sourceEvidenceId)
  {
    var seen := Lifecycle(Verified, Some(v.validatedAt));
    var c := Candidate("1", v.candidateId, v.workflowId, v.productId, v.sourceEvidenceId, Erase(k));
    CandidateMeans(c);
    SoundExactly(k, seen);
    SoundExactly(Erase(k), UNVERIFIED);
    LifecycleReplaced(k, UNVERIFIED, seen);
    LifecycleReplaced(k, seen, UNVERIFIED);
    if AllLifecycles(k, seen) {
      LifecycleKept(k, seen);
    }
    if SoundKnowledge(k) {
      SoundIgnoresLifecycle(k, UNVERIFIED);
    }
    if SoundKnowledge(Erase(k)) {
      SoundIgnoresLifecycle(Erase(k), seen);
    }
    EmptyText([k.artifactId, k.productId, k.provenance]);
    assert Erase(k).artifactId == k.artifactId && Erase(k).productId == k.productId
      && Erase(k).provenance == k.provenance;
    assert KnowledgeName(v.workflowId, v.productId, v.sourceEvidenceId) != "";
    hide KnownPages, KnownElements, KnownLocators, KnownInteractions, AllLifecycles, SoundKnowledge, AllNonempty;
    hide CandidateName, KnowledgeName, WithLifecycle, ValidCandidate;
  }

  /** A validation result: of the first schema version, named after its sources, with one check of
      its own status, and with knowledge verified at its own instant exactly when it passed. */
  lemma ResultMeans(v: ValidationResult)
    ensures ValidResult(v) <==>
              && v.schemaVersion == "1" && "" !in {v.workflowId, v.productId, v.sourceEvidenceId}
              && v.candidateId == CandidateName(v.workflowId, v.productId, v.sourceEvidenceId)
              && v.validationId == ResultName(v.workflowId, v.productId, v.candidateId, v.sourceEvidenceId)
              && v.checks == [Check("candidate_matches_source_evidence", v.status)]
              && (match v.verified
                  case None => v.status == "failed"
                  case Some(k) =>
                    && v.status == "passed"
                    && Known(k, Lifecycle(Verified, Some(v.validatedAt)), v.workflowId, v.productId,
                             v.sourceEvidenceId))
  {
    NamesAre(v.workflowId, v.productId, v.candidateId, v.sourceEvidenceId);
    EmptyText([v.schemaVersion, v.validationId, v.workflowId, v.productId, v.candidateId, v.sourceEvidenceId]);
    assert CandidateName(v.workflowId, v.productId, v.sourceEvidenceId) != "";
    assert ResultName(v.workflowId, v.productId, v.candidateId, v.sourceEvidenceId) != "";
    hide Known, ValidSnapshot, AllNonempty, CandidateName, ResultName, CandidateIdFor, ValidationIdFor;
    if v.verified.Some? && "" !in {v.workflowId, v.productId, v.sourceEvidenceId}
       && v.candidateId == CandidateName(v.workflowId, v.productId, v.sourceEvidenceId) {
      SnapshotMeans(v, v.verified.value);
    }
  }
}
