/** Reading a workflow state back: the parsing and selection loops of the SauceDemo Knowledge
    and Validator agents and of the artifact handoff. */
module SauceSelection {
  import opened Wrappers
  import opened Models
  import opened Sequences
  import opened Workflow
  import opened KnowledgeMapping
  import opened KnowledgeValidation

  function EvidenceId(e: Evidence): string { e.evidenceId }
  function CandidateId(c: Candidate): string { c.candidateId }
  function SourceId(c: Candidate): string { c.sourceEvidenceId }
  function ResultId(v: ValidationResult): string { v.validationId }
  function ResultCandidateId(v: ValidationResult): string { v.candidateId }
  function ResultSourceId(v: ValidationResult): string { v.sourceEvidenceId }

  // ----- dictionaries by identifier -----

  /** The dictionary a comprehension over the items builds: a later item replaces an earlier. */
  function ById<T>(items: seq<T>, id: T -> string): map<string, T> {
    if items == [] then map[]
    else ById(items[..|items| - 1], id)[id(items[|items| - 1]) := items[|items| - 1]]
  }

  lemma IdsPush<T>(items: seq<T>, x: T, id: T -> string)
    ensures Ids(items + [x], id) == Ids(items, id) + [id(x)]
  {}

  lemma {:induction false} ByIdKeys<T>(items: seq<T>, id: T -> string)
    ensures ById(items, id).Keys == Elements(Ids(items, id))
  {
    hide Ids;
    if items != [] {
      var init, last := items[..|items| - 1], items[|items| - 1];
      ByIdKeys(init, id);
      IdsPush(init, last, id);
      assert items == init + [last];
      ElementsPush(Ids(init, id), id(last));
    }
  }

  lemma {:induction false} ByIdLookup<T>(items: seq<T>, id: T -> string, i: nat)
    requires i < |items| && Distinct(Ids(items, id))
    ensures id(items[i]) in ById(items, id) && ById(items, id)[id(items[i])] == items[i]
  {
    var init, last := items[..|items| - 1], items[|items| - 1];
    if i < |init| {
      assert Ids(items, id)[..|init|] == Ids(init, id);
      assert Ids(items, id)[i] != Ids(items, id)[|init|];
      hide Ids, Distinct;
      ByIdLookup(init, id, i);
    }
  }

  lemma {:induction false} ByIdValue<T(!new)>(items: seq<T>, id: T -> string, key: string)
    requires key in ById(items, id)
    ensures ById(items, id)[key] in items && id(ById(items, id)[key]) == key
  {
    var init, last := items[..|items| - 1], items[|items| - 1];
    if key != id(last) {
      ByIdValue(init, id, key);
    }
  }

  /** Comparing sizes is the test for duplicate identifiers. */
  lemma ByIdSize<T>(items: seq<T>, id: T -> string)
    ensures |ById(items, id)| == |items| <==> Distinct(Ids(items, id))
  {
    ByIdKeys(items, id);
    DistinctBySize(Ids(items, id));
    assert |ById(items, id)| == |ById(items, id).Keys|;
  }

  // ----- evidence -----

  predicate EvidenceItem(p: Payload, workflowId: string, productId: string) {
    p.EvidencePayload? && ValidEvidence(p.evidence) && p.evidence.workflowId == workflowId
      && p.evidence.productId == productId
  }

  predicate EvidenceItems(ps: seq<Payload>, workflowId: string, productId: string) {
    forall i :: 0 <= i < |ps| ==> EvidenceItem(ps[i], workflowId, productId)
  }

  function EvidenceOf(ps: seq<Payload>): (r: seq<Evidence>)
    requires forall i :: 0 <= i < |ps| ==> ps[i].EvidencePayload?
    ensures |r| == |ps| && forall i :: 0 <= i < |r| ==> r[i] == ps[i].evidence
  {
    seq(|ps|, i requires 0 <= i < |ps| => ps[i].evidence)
  }

  /** All stored evidence, when every item is valid, of this workflow and product, and no two
      share an identifier. */
  function StoredEvidence(ps: seq<Payload>, workflowId: string, productId: string): Option<seq<Evidence>> {
    if EvidenceItems(ps, workflowId, productId) && Distinct(Ids(EvidenceOf(ps), EvidenceId)) then Some(EvidenceOf(ps))
      else None
  }

  method ParseStoredEvidence(ps: seq<Payload>, workflowId: string, productId: string) returns (r: Option<seq<Evidence>>)
    ensures r == StoredEvidence(ps, workflowId, productId)
  {
    hide ValidEvidence;
    var items: seq<Evidence> := [];
    for i := 0 to |ps|
      invariant EvidenceItems(ps[..i], workflowId, productId)
      invariant items == EvidenceOf(ps[..i])
    {
      match ParseEvidence(ps[i]) {
        case None =>
          assert !EvidenceItem(ps[i], workflowId, productId);
          return None;
        case Some(e) =>
          if e.workflowId != workflowId || e.productId != productId {
            assert !EvidenceItem(ps[i], workflowId, productId);
            return None;
          }
          assert ps[..i + 1] == ps[..i] + [ps[i]];
          items := items + [e];
      }
    }
    assert ps[..|ps|] == ps;
    ByIdSize(items, EvidenceId);
    var byId := ById(items, EvidenceId);
    r := if |byId| != |items| then None else Some(items);
  }

  // ----- candidates -----

  predicate CandidateItem(p: Payload, workflowId: string, productId: string, evidenceIds: set<string>) {
    && p.CandidatePayload? && ValidCandidate(p.candidate)
    && p.candidate.workflowId == workflowId && p.candidate.productId == productId
    && p.candidate.sourceEvidenceId in evidenceIds
  }

  predicate CandidateItems(ps: seq<Payload>, workflowId: string, productId: string, evidenceIds: set<string>) {
    forall i :: 0 <= i < |ps| ==> CandidateItem(ps[i], workflowId, productId, evidenceIds)
  }

  function CandidatesOf(ps: seq<Payload>): (r: seq<Candidate>)
    requires forall i :: 0 <= i < |ps| ==> ps[i].CandidatePayload?
    ensures |r| == |ps| && forall i :: 0 <= i < |r| ==> r[i] == ps[i].candidate
  {
    seq(|ps|, i requires 0 <= i < |ps| => ps[i].candidate)
  }

  /** All stored candidates, when every item is valid, correlated to stored evidence, and
      neither candidate nor source identifiers repeat. */
  function StoredCandidates(ps: seq<Payload>, workflowId: string, productId: string, evidenceIds: set<string>):
      Option<seq<Candidate>> {
    if CandidateItems(ps, workflowId, productId, evidenceIds)
       && Distinct(Ids(CandidatesOf(ps), CandidateId)) && Distinct(Ids(CandidatesOf(ps), SourceId))
    then Some(CandidatesOf(ps)) else None
  }

  lemma DistinctPush(s: seq<string>, x: string)
    ensures Distinct(s + [x]) <==> Distinct(s) && x !in s
  {
    if Distinct(s + [x]) {
      assert forall i :: 0 <= i < |s| ==> s[i] == (s + [x])[i] && s[i] != (s + [x])[|s|];
    }
  }

  lemma RepeatedCandidate(ps: seq<Payload>, i: nat, id: Candidate -> string)
    requires i < |ps| && forall k :: 0 <= k < |ps| ==> ps[k].CandidatePayload?
    requires id(ps[i].candidate) in Ids(CandidatesOf(ps[..i]), id)
    ensures !Distinct(Ids(CandidatesOf(ps), id))
  {
    var earlier, all := Ids(CandidatesOf(ps[..i]), id), Ids(CandidatesOf(ps), id);
    var k :| 0 <= k < |earlier| && earlier[k] == id(ps[i].candidate);
    assert all[k] == all[i];
  }

  /** The loop with its two sets of identifiers. */
  method ParseStoredCandidates(ps: seq<Payload>, workflowId: string, productId: string, evidenceIds: set<string>)
    returns (r: Option<seq<Candidate>>)
    ensures r == StoredCandidates(ps, workflowId, productId, evidenceIds)
  {
    hide ValidCandidate;
    var items: seq<Candidate> := [];
    var candidateIds: set<string> := {};
    var sourceIds: set<string> := {};
    for i := 0 to |ps|
      invariant CandidateItems(ps[..i], workflowId, productId, evidenceIds)
      invariant items == CandidatesOf(ps[..i])
      invariant Distinct(Ids(items, CandidateId)) && Distinct(Ids(items, SourceId))
      invariant candidateIds == Elements(Ids(items, CandidateId)) && sourceIds == Elements(Ids(items, SourceId))
    {
      match ParseCandidate(ps[i]) {
        case Err(_) =>
          assert !CandidateItem(ps[i], workflowId, productId, evidenceIds);
          return None;
        case Ok(c) =>
          if c.workflowId != workflowId || c.productId != productId || c.sourceEvidenceId !in evidenceIds {
            assert !CandidateItem(ps[i], workflowId, productId, evidenceIds);
            return None;
          }
          if c.candidateId in candidateIds || c.sourceEvidenceId in sourceIds {
            RepeatRefused(ps, i, workflowId, productId, evidenceIds);
            return None;
          }
          assert ps[..i + 1] == ps[..i] + [ps[i]];
          IdsPush(items, c, CandidateId);
          IdsPush(items, c, SourceId);
          DistinctPush(Ids(items, CandidateId), c.candidateId);
          DistinctPush(Ids(items, SourceId), c.sourceEvidenceId);
          ElementsPush(Ids(items, CandidateId), c.candidateId);
          ElementsPush(Ids(items, SourceId), c.sourceEvidenceId);
          candidateIds := candidateIds + {c.candidateId};
          sourceIds := sourceIds + {c.sourceEvidenceId};
          items := items + [c];
      }
    }
    assert ps[..|ps|] == ps;
    r := Some(items);
  }

  lemma RepeatRefused(ps: seq<Payload>, i: nat, workflowId: string, productId: string, evidenceIds: set<string>)
    requires i < |ps| && CandidateItems(ps[..i], workflowId, productId, evidenceIds) && ps[i].CandidatePayload?
    requires ps[i].candidate.candidateId in Ids(CandidatesOf(ps[..i]), CandidateId)
             || ps[i].candidate.sourceEvidenceId in Ids(CandidatesOf(ps[..i]), SourceId)
    ensures StoredCandidates(ps, workflowId, productId, evidenceIds).None?
  {
    hide CandidateItem;
    if CandidateItems(ps, workflowId, productId, evidenceIds) {
      CandidateShape(ps, workflowId, productId, evidenceIds);
      if ps[i].candidate.candidateId in Ids(CandidatesOf(ps[..i]), CandidateId) {
        RepeatedCandidate(ps, i, CandidateId);
      } else {
        RepeatedCandidate(ps, i, SourceId);
      }
    }
  }

  lemma CandidateShape(ps: seq<Payload>, workflowId: string, productId: string, evidenceIds: set<string>)
    requires CandidateItems(ps, workflowId, productId, evidenceIds)
    ensures forall i :: 0 <= i < |ps| ==> ps[i].CandidatePayload?
  {}

  // ----- validation results -----

  /** One stored result: parsed, correlated, rebuilt from its candidate and evidence at its own
      instant, and equal to that rebuild. */
  function CheckResult(p: Payload, workflowId: string, productId: string,
                       candidates: map<string, Candidate>,
                         evidence: map<string, Evidence>): Result<ValidationResult, Failure>
  {
    match ParseResult(p)
    case Err(f) => Err(f)
    case Ok(v) =>
      if v.workflowId != workflowId || v.productId != productId then Err(Rejected)
      else if v.candidateId !in candidates then Err(Rejected)
      else
        var c := candidates[v.candidateId];
        if v.sourceEvidenceId != c.sourceEvidenceId || c.sourceEvidenceId !in evidence then Err(Rejected)
        else
          match BuildValidation(c, evidence[c.sourceEvidenceId], v.validatedAt)
          case Err(f) => Err(f)
          case Ok(expected) => if expected != v then Err(Rejected) else Ok(v)
  }

  /** The stored results up to the first that is refused, in order. */
  function CheckResults(ps: seq<Payload>, workflowId: string, productId: string,
                        candidates: map<string, Candidate>,
                          evidence: map<string, Evidence>): (r: Result<seq<ValidationResult>, Failure>)
    ensures r.Ok? ==> |r.value| == |ps|
  {
    if ps == [] then Ok([])
    else
      match CheckResults(ps[..|ps| - 1], workflowId, productId, candidates, evidence)
      case Err(f) => Err(f)
      case Ok(done) => AddResult(done, CheckResult(ps[|ps| - 1], workflowId, productId, candidates, evidence))
  }

  /** The next checked result, unless one of its identifiers was seen before. */
  function AddResult(done: seq<ValidationResult>, next: Result<ValidationResult, Failure>):
      (r: Result<seq<ValidationResult>, Failure>)
    ensures r.Ok? ==> |r.value| == |done| + 1
  {
    match next
    case Err(f) => Err(f)
    case Ok(v) =>
      if v.validationId in Ids(done, ResultId) || v.candidateId in Ids(done, ResultCandidateId) then Err(Rejected)
      else Ok(done + [v])
  }

  lemma CheckNext(ps: seq<Payload>, i: nat, workflowId: string, productId: string,
                  candidates: map<string, Candidate>, evidence: map<string, Evidence>, done: seq<ValidationResult>)
    requires i < |ps| && CheckResults(ps[..i], workflowId, productId, candidates, evidence) == Ok(done)
    ensures CheckResults(ps[..i + 1], workflowId, productId, candidates, evidence)
         == AddResult(done, CheckResult(ps[i], workflowId, productId, candidates, evidence))
  {
    hide CheckResult, AddResult;
    assert ps[..i + 1][..i] == ps[..i];
  }

  lemma ResultSets(done: seq<ValidationResult>, v: ValidationResult)
    ensures Elements(Ids(done + [v], ResultId)) == Elements(Ids(done, ResultId)) + {v.validationId}
    ensures Elements(Ids(done + [v], ResultCandidateId)) == Elements(Ids(done, ResultCandidateId)) + {v.candidateId}
  {
    IdsPush(done, v, ResultId);
    IdsPush(done, v, ResultCandidateId);
    ElementsPush(Ids(done, ResultId), v.validationId);
    ElementsPush(Ids(done, ResultCandidateId), v.candidateId);
  }

  lemma {:induction false} CheckPrefixFails(ps: seq<Payload>, i: nat, workflowId: string, productId: string,
                                            candidates: map<string, Candidate>, evidence: map<string, Evidence>)
    requires i <= |ps| && CheckResults(ps[..i], workflowId, productId, candidates, evidence).Err?
    ensures CheckResults(ps, workflowId, productId, candidates, evidence)
         == CheckResults(ps[..i], workflowId, productId, candidates, evidence)
    decreases |ps|
  {
    hide CheckResult;
    if i < |ps| {
      assert ps[..|ps| - 1][..i] == ps[..i];
      CheckPrefixFails(ps[..|ps| - 1], i, workflowId, productId, candidates, evidence);
    } else {
      assert ps[..i] == ps;
    }
  }

  /** The loop with its two sets of identifiers. */
  method ParseStoredResults(ps: seq<Payload>, workflowId: string, productId: string,
                            candidates: map<string, Candidate>, evidence: map<string, Evidence>)
    returns (r: Result<seq<ValidationResult>, Failure>)
    ensures r == CheckResults(ps, workflowId, productId, candidates, evidence)
  {
    hide CheckResult, Ids, CheckResults;
    var results: seq<ValidationResult> := [];
    var validationIds: set<string> := {};
    var candidateIds: set<string> := {};
    CheckNone(workflowId, productId, candidates, evidence);
    for i := 0 to |ps|
      invariant CheckResults(ps[..i], workflowId, productId, candidates, evidence) == Ok(results)
      invariant validationIds == Elements(Ids(results, ResultId))
      invariant candidateIds == Elements(Ids(results, ResultCandidateId))
    {
      CheckNext(ps, i, workflowId, productId, candidates, evidence, results);
      if CheckResults(ps[..i + 1], workflowId, productId, candidates, evidence).Err? {
        CheckPrefixFails(ps, i + 1, workflowId, productId, candidates, evidence);
      }
      match CheckResult(ps[i], workflowId, productId, candidates, evidence) {
        case Err(f) =>
          return Err(f);
        case Ok(v) =>
          if v.validationId in validationIds || v.candidateId in candidateIds {
            return Err(Rejected);
          }
          ResultSets(results, v);
          validationIds := validationIds + {v.validationId};
          candidateIds := candidateIds + {v.candidateId};
          results := results + [v];
      }
    }
    assert ps[..|ps|] == ps;
    r := Ok(results);
  }

  lemma CheckNone(workflowId: string, productId: string, candidates: map<string, Candidate>,
                  evidence: map<string, Evidence>)
    ensures CheckResults([], workflowId, productId, candidates, evidence) == Ok([])
    ensures Elements(Ids([], ResultId)) == Elements(Ids([], ResultCandidateId)) == {}
  {}

  /** Success means: every result checks on its own, and no identifier repeats. */
  lemma {:induction false} CheckedExactly(ps: seq<Payload>, workflowId: string, productId: string,
                                          candidates: map<string, Candidate>, evidence: map<string, Evidence>,
                                            vs: seq<ValidationResult>)
    ensures CheckResults(ps, workflowId, productId, candidates, evidence) == Ok(vs) <==>
              && |vs| == |ps|
              && (forall i :: 0 <= i < |ps| ==>
                  CheckResult(ps[i], workflowId, productId, candidates, evidence) == Ok(vs[i]))
              && Distinct(Ids(vs, ResultId)) && Distinct(Ids(vs, ResultCandidateId))
  {
    hide CheckResult;
    if ps != [] && vs != [] {
      var init, last := vs[..|vs| - 1], vs[|vs| - 1];
      CheckedExactly(ps[..|ps| - 1], workflowId, productId, candidates, evidence, init);
      assert vs == init + [last];
      IdsPush(init, last, ResultId);
      IdsPush(init, last, ResultCandidateId);
      DistinctPush(Ids(init, ResultId), last.validationId);
      DistinctPush(Ids(init, ResultCandidateId), last.candidateId);
      hide Ids, Distinct;
      CheckedStep(ps, workflowId, productId, candidates, evidence, init, last);
    }
  }

  lemma CheckedStep(ps: seq<Payload>, workflowId: string, productId: string,
                    candidates: map<string, Candidate>, evidence: map<string, Evidence>, init: seq<ValidationResult>,
                      last: ValidationResult)
    requires ps != []
    ensures CheckResults(ps, workflowId, productId, candidates, evidence) == Ok(init + [last]) <==>
              && CheckResults(ps[..|ps| - 1], workflowId, productId, candidates, evidence) == Ok(init)
              && CheckResult(ps[|ps| - 1], workflowId, productId, candidates, evidence) == Ok(last)
              && last.validationId !in Ids(init, ResultId) && last.candidateId !in Ids(init, ResultCandidateId)
  {
    hide CheckResult, Ids;
    if CheckResults(ps, workflowId, productId, candidates, evidence) == Ok(init + [last]) {
      var done := CheckResults(ps[..|ps| - 1], workflowId, productId, candidates, evidence).value;
      var v := CheckResult(ps[|ps| - 1], workflowId, productId, candidates, evidence).value;
      assert done == (done + [v])[..|init|] == init;
    }
  }

  // ----- what the check of stored results means -----

  /** The result is of this workflow and names a stored candidate and its stored evidence. */
  predicate Correlates(v: ValidationResult, workflowId: string, productId: string,
                       candidates: map<string, Candidate>, evidence: map<string, Evidence>)
  {
    && v.workflowId == workflowId && v.productId == productId
    && v.candidateId in candidates
    && candidates[v.candidateId].sourceEvidenceId == v.sourceEvidenceId
    && v.sourceEvidenceId in evidence
  }

  /** A well-formed, correlated result that equals its rebuild at its own instant. */
  predicate Stands(p: Payload, workflowId: string, productId: string,
                   candidates: map<string, Candidate>, evidence: map<string, Evidence>)
  {
    && p.ValidationPayload? && ValidResult(p.validation)
    && Correlates(p.validation, workflowId, productId, candidates, evidence)
    && var v := p.validation;
       BuildValidation(candidates[v.candidateId], evidence[v.sourceEvidenceId], v.validatedAt) == Ok(v)
  }

  /** A well-formed, correlated result whose evidence cannot be mapped at all. */
  predicate Escapes(p: Payload, workflowId: string, productId: string,
                    candidates: map<string, Candidate>, evidence: map<string, Evidence>)
  {
    && p.ValidationPayload? && ValidResult(p.validation)
    && Correlates(p.validation, workflowId, productId, candidates, evidence)
    && var c, e := candidates[p.validation.candidateId], evidence[p.validation.sourceEvidenceId];
       ValidCandidate(c) && ValidEvidence(e) && SameScope(c, e) && !Mappable(e)
  }

  function ResultsOf(ps: seq<Payload>): (r: seq<ValidationResult>)
    requires forall i :: 0 <= i < |ps| ==> ps[i].ValidationPayload?
    ensures |r| == |ps| && forall i :: 0 <= i < |r| ==> r[i] == ps[i].validation
  {
    seq(|ps|, i requires 0 <= i < |ps| => ps[i].validation)
  }

  predicate AllStand(ps: seq<Payload>, workflowId: string, productId: string,
                     candidates: map<string, Candidate>, evidence: map<string, Evidence>)
  {
    forall i :: 0 <= i < |ps| ==> Stands(ps[i], workflowId, productId, candidates, evidence)
  }

  /** Every result stands and no result or candidate identifier repeats. */
  predicate Standing(ps: seq<Payload>, workflowId: string, productId: string,
                     candidates: map<string, Candidate>, evidence: map<string, Evidence>)
  {
    && AllStand(ps, workflowId, productId, candidates, evidence)
    && Distinct(Ids(ResultsOf(ps), ResultId)) && Distinct(Ids(ResultsOf(ps), ResultCandidateId))
  }

  lemma CheckStands(p: Payload, workflowId: string, productId: string,
                     candidates: map<string, Candidate>, evidence: map<string, Evidence>)
    ensures CheckResult(p, workflowId, productId, candidates, evidence).Ok? <==>
              Stands(p, workflowId, productId, candidates, evidence)
    ensures CheckResult(p, workflowId, productId, candidates, evidence).Ok? ==>
              CheckResult(p, workflowId, productId, candidates, evidence).value == p.validation
  {
    hide ValidResult, BuildValidation;
  }

  /** One stored result lets a mapping error through exactly when its evidence is unmappable. */
  lemma CheckEscapes(p: Payload, workflowId: string, productId: string,
                      candidates: map<string, Candidate>, evidence: map<string, Evidence>)
    ensures IsMappingError(CheckResult(p, workflowId, productId, candidates, evidence)) <==>
              Escapes(p, workflowId, productId, candidates, evidence)
  {
    hide ValidResult, BuildValidation, ValidCandidate, ValidEvidence, SameScope, Mappable;
    if p.ValidationPayload? && Correlates(p.validation, workflowId, productId, candidates, evidence) {
      var v := p.validation;
      MappingEscapesExactly(candidates[v.candidateId], evidence[v.sourceEvidenceId], v.validatedAt);
    }
  }

  predicate IsMappingError<T>(r: Result<T, Failure>) {
    r.Err? && r.error.MappingFailed?
  }

  /** The check accepts the stored results exactly when they are standing, and returns them. */
  lemma AcceptsStanding(ps: seq<Payload>, workflowId: string, productId: string,
                        candidates: map<string, Candidate>, evidence: map<string, Evidence>)
    ensures CheckResults(ps, workflowId, productId, candidates, evidence).Ok? <==>
              Standing(ps, workflowId, productId, candidates, evidence)
    ensures CheckResults(ps, workflowId, productId, candidates, evidence).Ok? ==>
              CheckResults(ps, workflowId, productId, candidates, evidence).value == ResultsOf(ps)
  {
    forall i | 0 <= i < |ps|
      ensures CheckResult(ps[i], workflowId, productId, candidates, evidence).Ok? <==>
                Stands(ps[i], workflowId, productId, candidates, evidence)
      ensures Stands(ps[i], workflowId, productId, candidates, evidence) ==>
                CheckResult(ps[i], workflowId, productId, candidates, evidence) == Ok(ps[i].validation)
    {
      CheckStands(ps[i], workflowId, productId, candidates, evidence);
    }
    var r := CheckResults(ps, workflowId, productId, candidates, evidence);
    if r.Ok? {
      CheckedExactly(ps, workflowId, productId, candidates, evidence, r.value);
      assert AllStand(ps, workflowId, productId, candidates, evidence);
      StandsShape(ps, workflowId, productId, candidates, evidence);
      hide CheckResult, Stands, Distinct, Ids, CheckResults;
      assert r.value == ResultsOf(ps);
    } else if AllStand(ps, workflowId, productId, candidates, evidence) {
      StandsShape(ps, workflowId, productId, candidates, evidence);
      CheckedExactly(ps, workflowId, productId, candidates, evidence, ResultsOf(ps));
      hide CheckResult, Stands, Distinct, Ids, CheckResults;
    }
  }

  lemma StandsShape(ps: seq<Payload>, workflowId: string, productId: string,
                    candidates: map<string, Candidate>, evidence: map<string, Evidence>)
    requires AllStand(ps, workflowId, productId, candidates, evidence)
    ensures forall i :: 0 <= i < |ps| ==> ps[i].ValidationPayload?
  {}

  /** The check lets a mapping error through exactly when some result escapes and all before
      it are standing. */
  lemma {:induction false} LetsEscape(ps: seq<Payload>, workflowId: string, productId: string,
                                      candidates: map<string, Candidate>, evidence: map<string, Evidence>)
    ensures IsMappingError(CheckResults(ps, workflowId, productId, candidates, evidence)) <==>
              exists i :: 0 <= i < |ps|
                          && Standing(ps[..i], workflowId, productId, candidates, evidence)
                          && Escapes(ps[i], workflowId, productId, candidates, evidence)
  {
    hide CheckResult, Standing, Escapes;
    if ps != [] {
      var n := |ps| - 1;
      LetsEscape(ps[..n], workflowId, productId, candidates, evidence);
      AcceptsStanding(ps[..n], workflowId, productId, candidates, evidence);
      CheckEscapes(ps[n], workflowId, productId, candidates, evidence);
      assert forall i :: 0 <= i < n ==> ps[..n][..i] == ps[..i] && ps[..n][i] == ps[i];
    }
  }

  // ----- selection -----

  function NotIn<T(!new)>(items: seq<T>, id: T -> string, used: set<string>): (r: seq<T>)
    ensures forall x :: x in r <==> x in items && id(x) !in used
  {
    if items == [] then []
    else
      var init, last := items[..|items| - 1], items[|items| - 1];
      assert items == init + [last];
      var r := NotIn(init, id, used);
      if id(last) in used then r else r + [last]
  }

  lemma OneItem<T>(x: T, id: T -> string)
    ensures ById([x], id) == map[id(x) := x]
  {
    assert [x][..0] == [];
  }

  lemma OneOpen<T(!new)>(x: T, id: T -> string)
    ensures NotIn([x], id, {}) == [x]
  {
    assert [x][..0] == [];
    assert NotIn([x][..0], id, {}) == [];
  }

  /** The one evidence batch that no candidate names (knowledge_agent.py). */
  function SelectEvidence(w: WorkflowState): Option<Evidence> {
    if w.evidence == [] then None
    else
      match StoredEvidence(w.evidence, w.workflowId, w.productId)
      case None => None
      case Some(es) =>
        match StoredCandidates(w.candidates, w.workflowId, w.productId, Elements(Ids(es, EvidenceId)))
        case None => None
        case Some(cs) =>
          var open := NotIn(es, EvidenceId, Elements(Ids(cs, SourceId)));
          if |open| == 1 then Some(open[0]) else None
  }

  /** The one candidate that no result names, with its evidence (validator_agent.py). */
  function SelectCandidate(w: WorkflowState): Result<(Candidate, Evidence), Failure> {
    if w.evidence == [] || w.candidates == [] then Err(Rejected)
    else
      match StoredEvidence(w.evidence, w.workflowId, w.productId)
      case None => Err(Rejected)
      case Some(es) =>
        match StoredCandidates(w.candidates, w.workflowId, w.productId, Elements(Ids(es, EvidenceId)))
        case None => Err(Rejected)
        case Some(cs) =>
          match CheckResults(w.validations, w.workflowId, w.productId, ById(cs, CandidateId), ById(es, EvidenceId))
          case Err(f) => Err(f)
          case Ok(vs) =>
            var open := NotIn(cs, CandidateId, Elements(Ids(vs, ResultCandidateId)));
            if |open| != 1 then Err(Rejected)
            else if open[0].sourceEvidenceId !in ById(es, EvidenceId) then Err(Rejected)
            else Ok((open[0], ById(es, EvidenceId)[open[0].sourceEvidenceId]))
  }

  // ----- when a selection succeeds -----

  /** Item k is the only one whose identifier is unused. */
  predicate OnlyOpen<T>(items: seq<T>, id: T -> string, used: set<string>, k: nat) {
    k < |items| && forall j :: 0 <= j < |items| ==> (id(items[j]) in used <==> j != k)
  }

  predicate AllUsed<T>(items: seq<T>, id: T -> string, used: set<string>) {
    forall j :: 0 <= j < |items| ==> id(items[j]) in used
  }

  lemma {:induction false} OneLeft<T(!new)>(items: seq<T>, id: T -> string, used: set<string>, x: T)
    ensures NotIn(items, id, used) == [x] <==>
              exists k :: 0 <= k < |items| && OnlyOpen(items, id, used, k) && items[k] == x
  {
    if items != [] {
      var n := |items| - 1;
      var init, r := items[..n], NotIn(items[..n], id, used);
      OneLeft(init, id, used, x);
      LastOpen(items, id, used);
      NoneLeft(init, id, used);
      assert r != [] ==> |r + [items[n]]| > 1;
      assert forall k: nat :: OnlyOpen(init, id, used, k) ==> init[k] == items[k];
      hide OnlyOpen, AllUsed;
    }
  }

  lemma NoneLeft<T(!new)>(items: seq<T>, id: T -> string, used: set<string>)
    ensures NotIn(items, id, used) == [] <==> AllUsed(items, id, used)
  {
    var r := NotIn(items, id, used);
    if r != [] {
      assert r[0] in r;
    } else {
      forall j | 0 <= j < |items| ensures id(items[j]) in used {
        assert items[j] in items;
      }
    }
  }

  lemma LastOpen<T(!new)>(items: seq<T>, id: T -> string, used: set<string>)
    requires items != []
    ensures var n := |items| - 1;
            if id(items[n]) in used then forall k: nat :: OnlyOpen(items, id, used, k) <==>
              OnlyOpen(items[..n], id, used, k)
            else forall k: nat :: OnlyOpen(items, id, used, k) <==> k == n && AllUsed(items[..n], id, used)
  {
    var n := |items| - 1;
    assert forall j :: 0 <= j < n ==> items[..n][j] == items[j];
  }

  /** The stored evidence and candidates are read back without a fault. */
  predicate Readable(w: WorkflowState) {
    && w.evidence != []
    && StoredEvidence(w.evidence, w.workflowId, w.productId).Some?
    && StoredCandidates(w.candidates, w.workflowId, w.productId, Elements(Ids(EvidenceIn(w), EvidenceId))).Some?
  }

  function EvidenceIn(w: WorkflowState): seq<Evidence>
    requires StoredEvidence(w.evidence, w.workflowId, w.productId).Some?
  {
    StoredEvidence(w.evidence, w.workflowId, w.productId).value
  }

  function CandidatesIn(w: WorkflowState): seq<Candidate>
    requires Readable(w)
  {
    StoredCandidates(w.candidates, w.workflowId, w.productId, Elements(Ids(EvidenceIn(w), EvidenceId))).value
  }

  /** The evidence that some candidate names, and the candidates that some result names. */
  function NamedEvidence(ps: seq<Payload>): set<string> {
    set p | p in ps && p.CandidatePayload? :: p.candidate.sourceEvidenceId
  }

  function NamedCandidates(ps: seq<Payload>): set<string> {
    set p | p in ps && p.ValidationPayload? :: p.validation.candidateId
  }

  lemma NamedByCandidates(ps: seq<Payload>)
    requires forall i :: 0 <= i < |ps| ==> ps[i].CandidatePayload?
    ensures Elements(Ids(CandidatesOf(ps), SourceId)) == NamedEvidence(ps)
  {
    var ids := Ids(CandidatesOf(ps), SourceId);
    forall i | 0 <= i < |ps| ensures ps[i].candidate.sourceEvidenceId in Elements(ids) {
      assert ids[i] in ids;
    }
  }

  lemma NamedByResults(ps: seq<Payload>)
    requires forall i :: 0 <= i < |ps| ==> ps[i].ValidationPayload?
    ensures Elements(Ids(ResultsOf(ps), ResultCandidateId)) == NamedCandidates(ps)
  {
    var ids := Ids(ResultsOf(ps), ResultCandidateId);
    forall i | 0 <= i < |ps| ensures ps[i].validation.candidateId in Elements(ids) {
      assert ids[i] in ids;
    }
  }

  lemma CandidatesInShape(w: WorkflowState)
    requires Readable(w)
    ensures forall i :: 0 <= i < |w.candidates| ==> w.candidates[i].CandidatePayload?
    ensures CandidatesIn(w) == CandidatesOf(w.candidates)
  {
    hide ValidCandidate, StoredEvidence, Ids, Elements, Distinct;
  }

  /** Batch e is the only stored one that no candidate names. */
  predicate OpenEvidence(w: WorkflowState, e: Evidence)
    requires Readable(w)
  {
    exists k :: 0 <= k < |EvidenceIn(w)| && OnlyOpen(EvidenceIn(w), EvidenceId, NamedEvidence(w.candidates),
                                                     k) && EvidenceIn(w)[k] == e
  }

  /** The Knowledge agent selects a batch exactly when what is stored is readable and that
      batch is the only one no candidate names. */
  lemma SelectsExactly(w: WorkflowState, e: Evidence)
    ensures SelectEvidence(w) == Some(e) <==> Readable(w) && OpenEvidence(w, e)
  {
    hide StoredEvidence, StoredCandidates, NotIn, OnlyOpen, NamedEvidence, Ids, Elements;
    if Readable(w) {
      CandidatesInShape(w);
      NamedByCandidates(w.candidates);
      OneLeft(EvidenceIn(w), EvidenceId, NamedEvidence(w.candidates), e);
      var open := NotIn(EvidenceIn(w), EvidenceId, NamedEvidence(w.candidates));
      assert |open| == 1 ==> open == [open[0]];
    }
  }

  /** The stored candidates and evidence as the Validator looks them up. */
  function CandidateTable(w: WorkflowState): map<string, Candidate>
    requires Readable(w)
  {
    ById(CandidatesIn(w), CandidateId)
  }

  function EvidenceTable(w: WorkflowState): map<string, Evidence>
    requires Readable(w)
  {
    ById(EvidenceIn(w), EvidenceId)
  }

  /** The stored results are standing. */
  predicate ResultsStand(w: WorkflowState)
    requires Readable(w)
  {
    Standing(w.validations, w.workflowId, w.productId, CandidateTable(w), EvidenceTable(w))
  }

  /** Some stored result rests on evidence that cannot be mapped, and all before it stand. */
  predicate ResultEscapes(w: WorkflowState)
    requires Readable(w)
  {
    exists i :: 0 <= i < |w.validations|
                && Standing(w.validations[..i], w.workflowId, w.productId, CandidateTable(w), EvidenceTable(w))
                && Escapes(w.validations[i], w.workflowId, w.productId, CandidateTable(w), EvidenceTable(w))
  }

  /** Candidate c is the only stored one without a result, and e is its evidence. */
  predicate OpenCandidate(w: WorkflowState, c: Candidate, e: Evidence)
    requires Readable(w)
  {
    && (exists k :: 0 <= k < |CandidatesIn(w)| && OnlyOpen(CandidatesIn(w), CandidateId, NamedCandidates(w.validations),
                                                           k) && CandidatesIn(w)[k] == c)
    && c.sourceEvidenceId in EvidenceTable(w) && EvidenceTable(w)[c.sourceEvidenceId] == e
  }

  /** The Validator selects a candidate exactly when all stored results stand and it is the
      only one without a result. */
  lemma SelectsCandidateExactly(w: WorkflowState, c: Candidate, e: Evidence)
    ensures SelectCandidate(w) == Ok((c, e)) <==>
              Readable(w) && w.candidates != [] && ResultsStand(w) && OpenCandidate(w, c, e)
  {
    hide StoredEvidence, StoredCandidates, NotIn, OnlyOpen, NamedCandidates, Ids, Elements, CheckResults, ById,
         Standing;
    if Readable(w) {
      AcceptsStanding(w.validations, w.workflowId, w.productId, CandidateTable(w), EvidenceTable(w));
      if ResultsStand(w) {
        StandingShape(w.validations, w.workflowId, w.productId, CandidateTable(w), EvidenceTable(w));
        NamedByResults(w.validations);
        OneLeft(CandidatesIn(w), CandidateId, NamedCandidates(w.validations), c);
        var open := NotIn(CandidatesIn(w), CandidateId, NamedCandidates(w.validations));
        assert |open| == 1 ==> open == [open[0]];
      }
    }
  }

  /** A mapping error leaves the selection exactly when a stored result lets it escape. */
  lemma SelectionEscapes(w: WorkflowState)
    ensures IsMappingError(SelectCandidate(w)) <==> Readable(w) && w.candidates != [] && ResultEscapes(w)
  {
    hide StoredEvidence, StoredCandidates, NotIn, Ids, Elements, CheckResults, ById, Standing, Escapes;
    if Readable(w) {
      LetsEscape(w.validations, w.workflowId, w.productId, CandidateTable(w), EvidenceTable(w));
    }
  }

  /** What is looked up is stored, valid and of this workflow. */
  lemma EvidenceLookup(w: WorkflowState, id: string)
    requires Readable(w) && id in EvidenceTable(w)
    ensures var e := EvidenceTable(w)[id];
            && e in EvidenceIn(w) && EvidencePayload(e) in w.evidence && ValidEvidence(e)
            && e.workflowId == w.workflowId && e.productId == w.productId && e.evidenceId == id
  {
    hide ValidEvidence, ById, StoredCandidates, Ids, Distinct, Elements;
    var es := EvidenceIn(w);
    ByIdValue(es, EvidenceId, id);
    var i :| 0 <= i < |es| && es[i] == EvidenceTable(w)[id];
    assert EvidenceItem(w.evidence[i], w.workflowId, w.productId);
    assert w.evidence[i] in w.evidence && w.evidence[i] == EvidencePayload(es[i]);
  }

  lemma StoredCandidate(w: WorkflowState, c: Candidate)
    requires Readable(w) && c in CandidatesIn(w)
    ensures ValidCandidate(c) && c.workflowId == w.workflowId && c.productId == w.productId
  {
    hide ValidCandidate, StoredEvidence, Ids, Distinct, Elements;
    var i :| 0 <= i < |CandidatesIn(w)| && CandidatesIn(w)[i] == c;
    assert CandidateItem(w.candidates[i], w.workflowId, w.productId, Elements(Ids(EvidenceIn(w), EvidenceId)));
  }

  /** The selected pair is valid and of one scope. */
  lemma OpenCandidateIsValid(w: WorkflowState, c: Candidate, e: Evidence)
    requires Readable(w) && OpenCandidate(w, c, e)
    ensures c in CandidatesIn(w) && e in EvidenceIn(w)
    ensures ValidCandidate(c) && ValidEvidence(e) && SameScope(c, e)
  {
    hide ValidCandidate, ValidEvidence, EvidenceTable, OnlyOpen, Readable, CandidatesIn, EvidenceIn;
    StoredCandidate(w, c);
    EvidenceLookup(w, c.sourceEvidenceId);
  }

  lemma StandingShape(ps: seq<Payload>, workflowId: string, productId: string,
                      candidates: map<string, Candidate>, evidence: map<string, Evidence>)
    requires Standing(ps, workflowId, productId, candidates, evidence)
    ensures forall i :: 0 <= i < |ps| ==> ps[i].ValidationPayload?
  {
    hide Stands, Distinct;
    StandsShape(ps, workflowId, productId, candidates, evidence);
  }

  /** A selected item is stored, valid and correlated, and nothing stored names it yet. */
  lemma SelectedEvidence(w: WorkflowState)
    requires SelectEvidence(w).Some?
    ensures var e := SelectEvidence(w).value;
            && EvidencePayload(e) in w.evidence && ValidEvidence(e) && e.workflowId == w.workflowId
              && e.productId == w.productId
            && (forall p :: p in w.candidates ==> p.CandidatePayload? && p.candidate.sourceEvidenceId != e.evidenceId)
  {
    hide ValidEvidence, ValidCandidate;
    var es := StoredEvidence(w.evidence, w.workflowId, w.productId).value;
    var cs := StoredCandidates(w.candidates, w.workflowId, w.productId, Elements(Ids(es, EvidenceId))).value;
    var e := SelectEvidence(w).value;
    assert e in NotIn(es, EvidenceId, Elements(Ids(cs, SourceId)));
    var i :| 0 <= i < |es| && es[i] == e;
    assert w.evidence[i] == EvidencePayload(e) && EvidenceItem(w.evidence[i], w.workflowId, w.productId);
    forall p | p in w.candidates ensures p.CandidatePayload? && p.candidate.sourceEvidenceId != e.evidenceId {
      var k :| 0 <= k < |w.candidates| && w.candidates[k] == p;
      assert CandidateItem(w.candidates[k], w.workflowId, w.productId, Elements(Ids(es, EvidenceId)));
      assert Ids(cs, SourceId)[k] == p.candidate.sourceEvidenceId;
    }
  }
}
