/** What the SauceDemo agents read from a workflow state, said of the stored payloads alone:
    which states read back, and which batch, candidate and results they then find. */
module SauceStored {
  import opened Wrappers
  import opened Models
  import opened Sequences
  import opened Workflow
  import opened KnowledgeMapping
  import opened KnowledgeValidation
  import opened SauceSelection

  /** Payload p is a valid batch of this workflow and product. */
  predicate Batch(w: WorkflowState, p: Payload) {
    && p.EvidencePayload? && ValidEvidence(p.evidence)
    && p.evidence.workflowId == w.workflowId && p.evidence.productId == w.productId
  }

  /** Payload p is a valid candidate of this workflow and product for a stored batch. */
  predicate ForBatch(w: WorkflowState, p: Payload) {
    && p.CandidatePayload? && ValidCandidate(p.candidate)
    && p.candidate.workflowId == w.workflowId && p.candidate.productId == w.productId
    && exists q :: q in w.evidence && q.EvidencePayload? && q.evidence.evidenceId == p.candidate.sourceEvidenceId
  }

  predicate DistinctBatches(ps: seq<Payload>)
    requires forall i :: 0 <= i < |ps| ==> ps[i].EvidencePayload?
  {
    forall i, j :: 0 <= i < j < |ps| ==> ps[i].evidence.evidenceId != ps[j].evidence.evidenceId
  }

  predicate DistinctCandidates(ps: seq<Payload>)
    requires forall i :: 0 <= i < |ps| ==> ps[i].CandidatePayload?
  {
    forall i, j :: 0 <= i < j < |ps| ==>
      ps[i].candidate.candidateId != ps[j].candidate.candidateId
      && ps[i].candidate.sourceEvidenceId != ps[j].candidate.sourceEvidenceId
  }

  lemma EvidenceReads(w: WorkflowState)
    ensures StoredEvidence(w.evidence, w.workflowId, w.productId).Some? <==>
              (forall i :: 0 <= i < |w.evidence| ==> Batch(w, w.evidence[i])) && DistinctBatches(w.evidence)
  {
    hide ValidEvidence;
    if forall i :: 0 <= i < |w.evidence| ==> Batch(w, w.evidence[i]) {
      var es := EvidenceOf(w.evidence);
      assert forall i :: 0 <= i < |w.evidence| ==> Ids(es, EvidenceId)[i] == w.evidence[i].evidence.evidenceId;
      assert EvidenceItems(w.evidence, w.workflowId, w.productId);
    }
    assert forall i :: 0 <= i < |w.evidence| ==>
             (EvidenceItem(w.evidence[i], w.workflowId, w.productId) <==> Batch(w, w.evidence[i]));
  }

  lemma StoredIds(w: WorkflowState, x: string)
    requires StoredEvidence(w.evidence, w.workflowId, w.productId).Some?
    ensures x in Elements(Ids(EvidenceIn(w), EvidenceId)) <==>
              exists q :: q in w.evidence && q.EvidencePayload? && q.evidence.evidenceId == x
  {
    hide ValidEvidence, Distinct;
    var ids := Ids(EvidenceIn(w), EvidenceId);
    assert forall i :: 0 <= i < |ids| ==> w.evidence[i].EvidencePayload? && ids[i] == w.evidence[i].evidence.evidenceId;
    if q :| q in w.evidence && q.EvidencePayload? && q.evidence.evidenceId == x {
      var i :| 0 <= i < |w.evidence| && w.evidence[i] == q;
      assert ids[i] == x;
    }
    if x in ids {
      var i :| 0 <= i < |ids| && ids[i] == x;
      assert w.evidence[i] in w.evidence;
    }
  }

  lemma CandidatesRead(w: WorkflowState)
    requires StoredEvidence(w.evidence, w.workflowId, w.productId).Some?
    ensures StoredCandidates(w.candidates, w.workflowId, w.productId, Elements(Ids(EvidenceIn(w), EvidenceId))).Some?
            <==> (forall i :: 0 <= i < |w.candidates| ==> ForBatch(w, w.candidates[i]))
                 && DistinctCandidates(w.candidates)
  {
    hide ValidCandidate, StoredEvidence, EvidenceIn;
    var ids := Elements(Ids(EvidenceIn(w), EvidenceId));
    forall x ensures x in ids <==> exists q :: q in w.evidence && q.EvidencePayload? && q.evidence.evidenceId == x {
      StoredIds(w, x);
    }
    hide Elements;
    assert forall i :: 0 <= i < |w.candidates| ==>
             (CandidateItem(w.candidates[i], w.workflowId, w.productId, ids) <==> ForBatch(w, w.candidates[i]));
    if forall i :: 0 <= i < |w.candidates| ==> ForBatch(w, w.candidates[i]) {
      CandidatePairs(w.candidates);
    }
  }

  lemma CandidatePairs(ps: seq<Payload>)
    requires forall i :: 0 <= i < |ps| ==> ps[i].CandidatePayload?
    ensures DistinctCandidates(ps) <==>
              Distinct(Ids(CandidatesOf(ps), CandidateId)) && Distinct(Ids(CandidatesOf(ps), SourceId))
  {
    var cs := CandidatesOf(ps);
    assert forall i :: 0 <= i < |ps| ==>
             Ids(cs, CandidateId)[i] == ps[i].candidate.candidateId
             && Ids(cs, SourceId)[i] == ps[i].candidate.sourceEvidenceId;
  }

  /** A state reads back exactly when it holds evidence, every payload is valid, of this workflow
      and product, every candidate is for a stored batch, and no identifier is used twice. */
  lemma ReadableMeans(w: WorkflowState)
    ensures Readable(w) <==>
              && w.evidence != []
              && (forall i :: 0 <= i < |w.evidence| ==> Batch(w, w.evidence[i]))
              && DistinctBatches(w.evidence)
              && (forall i :: 0 <= i < |w.candidates| ==> ForBatch(w, w.candidates[i]))
              && DistinctCandidates(w.candidates)
  {
    EvidenceReads(w);
    hide Batch, ForBatch, StoredEvidence, StoredCandidates, EvidenceIn, Ids, Elements;
    if StoredEvidence(w.evidence, w.workflowId, w.productId).Some? {
      CandidatesRead(w);
    }
    hide DistinctBatches, DistinctCandidates;
  }

  // ----- what is open -----

  /** Some stored candidate is for this evidence identifier. */
  predicate HasCandidate(w: WorkflowState, evidenceId: string) {
    exists q :: q in w.candidates && q.CandidatePayload? && q.candidate.sourceEvidenceId == evidenceId
  }

  /** Some stored result is for this candidate identifier. */
  predicate HasResult(w: WorkflowState, candidateId: string) {
    exists q :: q in w.validations && q.ValidationPayload? && q.validation.candidateId == candidateId
  }

  lemma EvidenceInShape(w: WorkflowState)
    requires Readable(w)
    ensures |EvidenceIn(w)| == |w.evidence|
    ensures forall i :: 0 <= i < |w.evidence| ==> w.evidence[i] == EvidencePayload(EvidenceIn(w)[i])
    ensures forall i, j :: 0 <= i < j < |w.evidence| ==> EvidenceIn(w)[i].evidenceId != EvidenceIn(w)[j].evidenceId
  {
    hide ValidEvidence, StoredCandidates, Elements;
    var es := EvidenceIn(w);
    assert forall i :: 0 <= i < |es| ==> Ids(es, EvidenceId)[i] == es[i].evidenceId;
  }

  lemma CandidatesInPairs(w: WorkflowState)
    requires Readable(w)
    ensures |CandidatesIn(w)| == |w.candidates|
    ensures forall i :: 0 <= i < |w.candidates| ==> w.candidates[i] == CandidatePayload(CandidatesIn(w)[i])
    ensures forall i, j :: 0 <= i < j < |w.candidates| ==>
            CandidatesIn(w)[i].candidateId != CandidatesIn(w)[j].candidateId
  {
    hide ValidCandidate, StoredEvidence, Elements;
    var cs := CandidatesIn(w);
    assert forall i :: 0 <= i < |cs| ==> Ids(cs, CandidateId)[i] == cs[i].candidateId;
  }

  /** Among items with distinct identifiers the open one is the only one whose identifier is unused. */
  lemma OnlyOpenMeans<T(!new)>(items: seq<T>, id: T -> string, used: set<string>, x: T)
    requires Distinct(Ids(items, id))
    ensures (exists k :: 0 <= k < |items| && OnlyOpen(items, id, used, k) && items[k] == x) <==>
              x in items && forall y :: y in items ==> (id(y) in used <==> y != x)
  {
    assert forall i, j :: 0 <= i < j < |items| ==> Ids(items, id)[i] != Ids(items, id)[j];
    assert forall i, j :: 0 <= i < |items| && 0 <= j < |items| && i != j ==> items[i] != items[j];
    if x in items {
      var k :| 0 <= k < |items| && items[k] == x;
      assert OnlyOpen(items, id, used, k) <==> forall y :: y in items ==> (id(y) in used <==> y != x);
    }
  }

  /** The open batch is the only stored one for which there is no candidate. */
  lemma OpenEvidenceMeans(w: WorkflowState, e: Evidence)
    requires Readable(w)
    ensures OpenEvidence(w, e) <==>
              && EvidencePayload(e) in w.evidence
              && forall x :: EvidencePayload(x) in w.evidence ==> (HasCandidate(w, x.evidenceId) <==> x != e)
  {
    EvidenceInShape(w);
    EvidenceIdsDistinct(w);
    hide Readable, EvidenceIn;
    forall x ensures x in EvidenceIn(w) <==> EvidencePayload(x) in w.evidence {
      if x in EvidenceIn(w) {
        var i :| 0 <= i < |EvidenceIn(w)| && EvidenceIn(w)[i] == x;
        assert w.evidence[i] in w.evidence;
      }
    }
    forall id ensures id in NamedEvidence(w.candidates) <==> HasCandidate(w, id) {}
    hide HasCandidate, NamedEvidence, OnlyOpen, Distinct, Ids;
    OnlyOpenMeans(EvidenceIn(w), EvidenceId, NamedEvidence(w.candidates), e);
  }

  lemma EvidenceIdsDistinct(w: WorkflowState)
    requires Readable(w)
    ensures Distinct(Ids(EvidenceIn(w), EvidenceId))
  {
    hide Distinct, StoredCandidates;
  }

  lemma CandidateIdsDistinct(w: WorkflowState)
    requires Readable(w)
    ensures Distinct(Ids(CandidatesIn(w), CandidateId))
  {
    hide Distinct, StoredEvidence;
  }

  lemma TableMeans(w: WorkflowState, id: string, e: Evidence)
    requires Readable(w)
    ensures id in EvidenceTable(w) && EvidenceTable(w)[id] == e <==>
              EvidencePayload(e) in w.evidence && e.evidenceId == id
  {
    hide ValidEvidence, StoredCandidates, Elements, ById;
    var es := EvidenceIn(w);
    if id in EvidenceTable(w) {
      EvidenceLookup(w, id);
    }
    if EvidencePayload(e) in w.evidence && e.evidenceId == id {
      var i :| 0 <= i < |w.evidence| && w.evidence[i] == EvidencePayload(e);
      ByIdLookup(es, EvidenceId, i);
    }
  }

  lemma CandidateTableMeans(w: WorkflowState, id: string, c: Candidate)
    requires Readable(w)
    ensures id in CandidateTable(w) && CandidateTable(w)[id] == c <==>
              CandidatePayload(c) in w.candidates && c.candidateId == id
  {
    hide ValidCandidate, StoredEvidence, Elements, ById, Ids, Distinct;
    var cs := CandidatesIn(w);
    if id in CandidateTable(w) {
      ByIdValue(cs, CandidateId, id);
      var i :| 0 <= i < |cs| && cs[i] == CandidateTable(w)[id];
      assert w.candidates[i] in w.candidates;
    }
    if CandidatePayload(c) in w.candidates && c.candidateId == id {
      var i :| 0 <= i < |w.candidates| && w.candidates[i] == CandidatePayload(c);
      ByIdLookup(cs, CandidateId, i);
    }
  }

  /** The open candidate is the only stored one for which there is no result, with the stored
      batch it is for. */
  lemma OpenCandidateMeans(w: WorkflowState, c: Candidate, e: Evidence)
    requires Readable(w)
    ensures OpenCandidate(w, c, e) <==>
              && CandidatePayload(c) in w.candidates
              && EvidencePayload(e) in w.evidence && e.evidenceId == c.sourceEvidenceId
              && forall x :: CandidatePayload(x) in w.candidates ==> (HasResult(w, x.candidateId) <==> x != c)
  {
    CandidatesInPairs(w);
    CandidateIdsDistinct(w);
    TableMeans(w, c.sourceEvidenceId, e);
    hide Readable, CandidatesIn, EvidenceTable;
    forall x ensures x in CandidatesIn(w) <==> CandidatePayload(x) in w.candidates {
      if x in CandidatesIn(w) {
        var i :| 0 <= i < |CandidatesIn(w)| && CandidatesIn(w)[i] == x;
        assert w.candidates[i] in w.candidates;
      }
    }
    forall id ensures id in NamedCandidates(w.validations) <==> HasResult(w, id) {}
    hide HasResult, NamedCandidates, OnlyOpen, Distinct, Ids;
    OnlyOpenMeans(CandidatesIn(w), CandidateId, NamedCandidates(w.validations), c);
  }

  // ----- stored results -----

  /** A valid result of this workflow and product that equals its rebuild, at its own instant,
      from the stored candidate and batch it names. */
  predicate Rebuilt(w: WorkflowState, p: Payload) {
    && p.ValidationPayload? && ValidResult(p.validation)
    && p.validation.workflowId == w.workflowId && p.validation.productId == w.productId
    && exists q, b :: q in w.candidates && b in w.evidence && q.CandidatePayload? && b.EvidencePayload?
                      && RebuiltFrom(p.validation, q.candidate, b.evidence)
  }

  predicate RebuiltFrom(v: ValidationResult, c: Candidate, e: Evidence) {
    && c.candidateId == v.candidateId && c.sourceEvidenceId == v.sourceEvidenceId == e.evidenceId
    && BuildValidation(c, e, v.validatedAt) == Ok(v)
  }

  predicate DistinctResults(ps: seq<Payload>)
    requires forall i :: 0 <= i < |ps| ==> ps[i].ValidationPayload?
  {
    forall i, j :: 0 <= i < j < |ps| ==>
      ps[i].validation.validationId != ps[j].validation.validationId
      && ps[i].validation.candidateId != ps[j].validation.candidateId
  }

  lemma StandsMeans(w: WorkflowState, p: Payload)
    requires Readable(w)
    ensures Stands(p, w.workflowId, w.productId, CandidateTable(w), EvidenceTable(w)) <==> Rebuilt(w, p)
  {
    hide Readable, CandidateTable, EvidenceTable, ValidResult, BuildValidation;
    if p.ValidationPayload? {
      var v := p.validation;
      forall c: Candidate ensures v.candidateId in CandidateTable(w) && CandidateTable(w)[v.candidateId] == c <==>
              CandidatePayload(c) in w.candidates && c.candidateId == v.candidateId
      {
        CandidateTableMeans(w, v.candidateId, c);
      }
      forall e: Evidence
        ensures v.sourceEvidenceId in EvidenceTable(w) && EvidenceTable(w)[v.sourceEvidenceId] == e <==>
                EvidencePayload(e) in w.evidence && e.evidenceId == v.sourceEvidenceId
      {
        TableMeans(w, v.sourceEvidenceId, e);
      }
      if Stands(p, w.workflowId, w.productId, CandidateTable(w), EvidenceTable(w)) {
        var c, e := CandidateTable(w)[v.candidateId], EvidenceTable(w)[v.sourceEvidenceId];
        var q, b := CandidatePayload(c), EvidencePayload(e);
        assert q in w.candidates && b in w.evidence && RebuiltFrom(v, q.candidate, b.evidence);
      }
      if Rebuilt(w, p) {
        var q, b :| q in w.candidates && b in w.evidence && q.CandidatePayload? && b.EvidencePayload?
                    && RebuiltFrom(v, q.candidate, b.evidence);
        assert q == CandidatePayload(q.candidate) && b == EvidencePayload(b.evidence);
      }
    }
  }

  lemma ResultPairs(ps: seq<Payload>)
    requires forall i :: 0 <= i < |ps| ==> ps[i].ValidationPayload?
    ensures DistinctResults(ps) <==>
              Distinct(Ids(ResultsOf(ps), ResultId)) && Distinct(Ids(ResultsOf(ps), ResultCandidateId))
  {
    var vs := ResultsOf(ps);
    assert forall i :: 0 <= i < |ps| ==>
             Ids(vs, ResultId)[i] == ps[i].validation.validationId
             && Ids(vs, ResultCandidateId)[i] == ps[i].validation.candidateId;
  }

  /** The stored results stand exactly when each equals its rebuild and no identifier repeats. */
  lemma ResultsStandMeans(w: WorkflowState)
    requires Readable(w)
    ensures ResultsStand(w) <==>
              (forall i :: 0 <= i < |w.validations| ==> Rebuilt(w, w.validations[i])) && DistinctResults(w.validations)
  {
    var ps := w.validations;
    var candidates, evidence := CandidateTable(w), EvidenceTable(w);
    forall i | 0 <= i < |ps|
      ensures Stands(ps[i], w.workflowId, w.productId, candidates, evidence) <==> Rebuilt(w, ps[i])
      ensures Rebuilt(w, ps[i]) ==> ps[i].ValidationPayload?
    {
      StandsMeans(w, ps[i]);
    }
    hide Readable, CandidateTable, EvidenceTable, Stands, Rebuilt, Distinct, Ids, DistinctResults;
    if AllStand(ps, w.workflowId, w.productId, candidates, evidence) {
      ResultPairs(ps);
    }
  }
}
