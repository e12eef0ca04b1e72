/** What the supervisor decides in every state, written out on the fields of the state and of the
    decision (pmqa/supervisor/policy.py). Histories after a failed result are in Recovery. */
module PolicyMeaning {
  import opened Wrappers
  import opened Models
  import opened Workflow
  import opened SupervisorPolicy
  import opened Recovery
  import opened Engine
  import opened EngineMeaning

  /** Run this agent next. */
  predicate RunsNext(s: WorkflowState, r: Result<Decision, PolicyError>, role: Role, reason: Reason) {
    r == Ok(Decision(s.workflowId, ExecuteAgent, Some(role), reason,
                     Patch(Some(Running), None, true, Some(role), false, None, [], [], [], [], [], [], [], None, true,
                           None)))
  }

  /** Stop, with this status and reason. */
  predicate StopsNow(s: WorkflowState, r: Result<Decision, PolicyError>, action: Action, reason: Reason,
                     status: WorkflowStatus, why: TerminationReason)
  {
    r == Ok(Decision(s.workflowId, action, None, reason,
                     Patch(Some(status), None, true, None, true, None, [], [], [], [], [], [], [], Some(why), false,
                           None)))
  }

  /** Explore, unless the iterations are used up. */
  predicate ExploresOrStops(s: WorkflowState, r: Result<Decision, PolicyError>, reason: Reason) {
    if s.iteration >= s.maxIterations then
      StopsNow(s, r, TerminateWorkflow, MaxIterationsReached, Terminated, MaxIterations)
    else RunsNext(s, r, Explorer, reason)
  }

  predicate LeavesAsIs(s: WorkflowState, r: Result<Decision, PolicyError>, action: Action) {
    r == Ok(Decision(s.workflowId, action, None, AlreadyTerminal,
                     Patch(None, None, false, None, false, None, [], [], [], [], [], [], [], None, false, None)))
  }

  /** An ended workflow is left as it is, with the action of its status; contradictory routing is
      refused; an error ends the workflow; otherwise the first empty collection decides. */
  lemma DecidesBeforeResults(s: WorkflowState)
    requires Over(s) || s.termination.Some? || s.errors != [] || s.validations == [] || s.candidates == []
             || s.evidence == [] || (s.currentAgent.Some? && s.nextAgent.Some?)
             || (s.status == Pending && (s.currentAgent.Some? || s.nextAgent.Some?))
    ensures var r := DecideNextAction(s);
            if s.status == Completed then LeavesAsIs(s, r, CompleteWorkflow)
            else if s.status == Failed then LeavesAsIs(s, r, FailWorkflow)
            else if s.status == Terminated then LeavesAsIs(s, r, TerminateWorkflow)
            else if s.termination.Some? then r == Err(UnexpectedTermination)
            else if s.currentAgent.Some? && s.nextAgent.Some? then r == Err(ConflictingRouting)
            else if s.status == Pending && (s.currentAgent.Some? || s.nextAgent.Some?) then r == Err(PendingRouting)
            else if s.errors != [] then StopsNow(s, r, FailWorkflow, WorkflowError, Failed, ErrorTermination)
            else if s.candidates != [] && s.evidence == [] then r == Err(CandidatesWithoutEvidence)
            else if s.validations != [] && s.candidates == [] then r == Err(ValidationsWithoutCandidates)
            else if s.evidence == [] then
              ExploresOrStops(s, r, if s.status == Pending then WorkflowPending else ExplorationRequired)
            else if s.candidates == [] then RunsNext(s, r, Knowledge, KnowledgeRequired)
            else RunsNext(s, r, Validator, ValidationRequired)
  {
    hide HistoryError, CompletedValidators, DecideRecovery, ValidationStatus;
  }

  // ----- results and the Validators that gave them -----

  /** Nothing before the history stands in the way of a decision on the results. */
  predicate HasResults(s: WorkflowState) {
    && !Over(s) && s.termination.None? && s.errors == []
    && !(s.currentAgent.Some? && s.nextAgent.Some?)
    && !(s.status == Pending && (s.currentAgent.Some? || s.nextAgent.Some?))
    && s.evidence != [] && s.candidates != [] && s.validations != []
  }

  /** How many Validator calls have completed. */
  function Validated(h: seq<Invocation>): nat {
    |set i | 0 <= i < |h| && h[i].agent == Validator && h[i].status == InvocationCompleted|
  }

  lemma {:induction false} ValidatedCounts(h: seq<Invocation>)
    ensures |CompletedValidators(h)| == Validated(h)
  {
    var all := set i | 0 <= i < |h| && h[i].agent == Validator && h[i].status == InvocationCompleted;
    if h == [] {
      assert all == {};
    } else {
      var n := |h| - 1;
      ValidatedCounts(h[..n]);
      var before := set i | 0 <= i < n && h[..n][i].agent == Validator && h[..n][i].status == InvocationCompleted;
      if h[n].agent == Validator && h[n].status == InvocationCompleted {
        assert all == before + {n};
      } else {
        assert all == before;
      }
    }
  }

  /** A result without a completed Validator call, or such a call without a result, is refused. */
  lemma RefusesUnmatchedResults(s: WorkflowState)
    requires HasResults(s)
    ensures Validated(s.history) < |s.validations| ==> DecideNextAction(s) == Err(ResultWithoutValidator)
    ensures Validated(s.history) > |s.validations| ==> DecideNextAction(s) == Err(ValidatorWithoutResult)
  {
    ValidatedCounts(s.history);
    hide CompletedValidators, Statuses, CyclesError, DecideRecovery;
  }

  /** Why a result has no verdict. */
  function StatusError(p: Payload): PolicyError {
    match StatusOf(p)
    case NoStatus => MissingStatus
    case OtherStatus => StatusNotText
    case TextStatus(_) => UnsupportedStatus
  }

  lemma {:induction false} FirstStatusError(ps: seq<Payload>, i: nat)
    requires i < |ps| && !IsVerdict(ps[i]) && forall j :: 0 <= j < i ==> IsVerdict(ps[j])
    ensures Statuses(ps) == Err(StatusError(ps[i]))
  {
    if i < |ps| - 1 {
      FirstStatusError(ps[..|ps| - 1], i);
    } else {
      VerdictsRead(ps[..i]);
    }
  }

  lemma {:induction false} VerdictsRead(ps: seq<Payload>)
    requires forall i :: 0 <= i < |ps| ==> IsVerdict(ps[i])
    ensures Statuses(ps).Ok?
    ensures forall i :: 0 <= i < |ps| ==> Statuses(ps).value[i] == Passed(ps[i])
  {
    if ps != [] {
      VerdictsRead(ps[..|ps| - 1]);
    }
  }

  /** With as many results as completed Validators, the first result without a verdict is refused,
      and so is a passed result that is not the last. */
  lemma RefusesResults(s: WorkflowState)
    requires HasResults(s) && Validated(s.history) == |s.validations|
    ensures forall i :: 0 <= i < |s.validations| && !IsVerdict(s.validations[i])
                        && (forall j :: 0 <= j < i ==> IsVerdict(s.validations[j])) ==>
              DecideNextAction(s) == Err(StatusError(s.validations[i]))
    ensures (forall i :: 0 <= i < |s.validations| ==> IsVerdict(s.validations[i]))
            && (exists i :: 0 <= i < |s.validations| - 1 && Passed(s.validations[i])) ==>
              DecideNextAction(s) == Err(ContinuedAfterPass)
  {
    ValidatedCounts(s.history);
    hide CompletedValidators, CyclesError, DecideRecovery, StatusError, IsVerdict, Passed, ValidationStatus, Validated;
    forall i | 0 <= i < |s.validations| && !IsVerdict(s.validations[i])
               && (forall j :: 0 <= j < i ==> IsVerdict(s.validations[j]))
      ensures DecideNextAction(s) == Err(StatusError(s.validations[i]))
    {
      FirstStatusError(s.validations, i);
      hide Statuses;
    }
    if (forall i :: 0 <= i < |s.validations| ==> IsVerdict(s.validations[i]))
       && (exists i :: 0 <= i < |s.validations| - 1 && Passed(s.validations[i])) {
      VerdictsRead(s.validations);
      hide Statuses;
      var i :| 0 <= i < |s.validations| - 1 && Passed(s.validations[i]);
      assert Statuses(s.validations).value[..|s.validations| - 1][i];
    }
  }

  // ----- after a passed result -----

  /** All results failed but the last, which passed, and every completed Validator has one. */
  predicate JustPassed(s: WorkflowState) {
    && HasResults(s) && |CompletedValidators(s.history)| == |s.validations|
    && Passed(s.validations[|s.validations| - 1])
    && forall i :: 0 <= i < |s.validations| - 1 ==> FailedVerdict(s.validations[i])
  }

  ghost predicate HasForm(h: seq<Invocation>, results: nat) {
    exists j: nat :: RecoveryForm(h, j, results)
  }

  /** Then the workflow completes exactly when the history, up to the last completed Validator, has
      the form of a recovery; otherwise the history is refused. What follows it does not matter. */
  lemma CompletesExactly(s: WorkflowState)
    requires JustPassed(s)
    ensures var indexes := CompletedValidators(s.history);
            var h := s.history[..indexes[|indexes| - 1] + 1];
            var r := DecideNextAction(s);
            && (r.Ok? <==> HasForm(h, |s.validations|))
            && (r.Ok? ==> StopsNow(s, r, CompleteWorkflow, ValidationPassed, Completed, GoalCompleted))
  {
    hide DecideNextAction, CompletedValidators, CyclesError, JustPassed, HasForm, StopsNow;
    PassedDecision(s);
    FormOfPrefix(s.history, |s.validations|);
  }

  lemma FormOfPrefix(h: seq<Invocation>, results: nat)
    requires |CompletedValidators(h)| == results > 0
    ensures var indexes := CompletedValidators(h);
            CyclesError(h, indexes, results - 1).None? <==>
              HasForm(h[..indexes[results - 1] + 1], results)
  {
    hide CompletedValidators, CyclesError, RecoveryForm;
    PrefixIsSame(h);
    var indexes := CompletedValidators(h);
    var p := h[..indexes[results - 1] + 1];
    TailOfPrefix(p);
    hide TailAccepted;
    if CyclesError(p, indexes, results - 1).None? {
      AcceptedHasForm(p, results);
    }
    if j: nat :| RecoveryForm(p, j, results) {
      FormIsAccepted(p, j, results);
    }
  }

  lemma PassedDecision(s: WorkflowState)
    requires JustPassed(s)
    ensures var r, indexes := DecideNextAction(s), CompletedValidators(s.history);
            && |indexes| == |s.validations| > 0
            && (r.Ok? <==> CyclesError(s.history, indexes, |s.validations| - 1).None?)
            && (r.Ok? ==> StopsNow(s, r, CompleteWorkflow, ValidationPassed, Completed, GoalCompleted))
  {
    forall i | 0 <= i < |s.validations| ensures IsVerdict(s.validations[i]) {
      assert i == |s.validations| - 1 || FailedVerdict(s.validations[i]);
    }
    VerdictsRead(s.validations);
    hide CompletedValidators, CyclesError, DecideRecovery, Statuses;
    var statuses := Statuses(s.validations).value;
    assert forall i :: 0 <= i < |statuses| - 1 ==> !statuses[i];
    assert true !in statuses[..|statuses| - 1];
  }

  /** Cutting a history after its last completed Validator keeps its cycles. */
  lemma PrefixIsSame(h: seq<Invocation>)
    requires CompletedValidators(h) != []
    ensures var indexes := CompletedValidators(h);
            var p := h[..indexes[|indexes| - 1] + 1];
            && CompletedValidators(p) == indexes
            && (CyclesError(p, indexes, |indexes| - 1) == CyclesError(h, indexes, |indexes| - 1))
  {
    hide CompletedValidators, CyclesError;
    var indexes := CompletedValidators(h);
    var m := indexes[|indexes| - 1] + 1;
    PrefixCount(h, |indexes| - 1);
    ValidatorsOfPrefix(h, m);
    assert |CompletedValidators(h[..m])| == |indexes|;
    CyclesOfPrefix(h, m, indexes, |indexes| - 1);
  }

  lemma {:induction false} CyclesOfPrefix(h: seq<Invocation>, m: nat, indexes: seq<nat>, n: nat)
    requires n < |indexes| && m <= |h| && forall i :: 0 <= i < |indexes| ==> indexes[i] < m
    requires forall i, j :: 0 <= i < j < |indexes| ==> indexes[i] < indexes[j]
    ensures CyclesError(h[..m], indexes, n) == CyclesError(h, indexes, n)
  {
    hide RequireCycle;
    if n > 0 {
      CyclesOfPrefix(h, m, indexes, n - 1);
      assert h[..m][indexes[n - 1] + 1..indexes[n] + 1] == h[indexes[n - 1] + 1..indexes[n] + 1];
    }
  }

  lemma TailOfPrefix(h: seq<Invocation>)
    requires CompletedValidators(h) != [] && CompletedValidators(h)[|CompletedValidators(h)| - 1] + 1 == |h|
    ensures TailAccepted(h)
  {
    hide CompletedValidators;
    assert h[|h|..] == [];
  }

  // ----- ended workflows -----

  /** Running the graph from an ended workflow changes nothing and stops at once, with the action
      of its status. */
  lemma EndedStaysEnded(agents: map<Role, Agent>, w: WorkflowState, reply: Reply)
    requires ValidState(w) && Over(w) && w.termination.Some? && w.currentAgent.None? && w.nextAgent.None?
    ensures Step(agents, Start(w), reply)
         == Ended(GraphState(w, Some(if w.status == Completed then CompleteWorkflow
                                     else if w.status == Failed then FailWorkflow else TerminateWorkflow), None))
  {
    EmptyPatchKeeps(w);
    NothingUnsafe();
    hide AllSafe, AllValid, SafePayload, Patched;
    assert ApplyPatch(w, EMPTY_PATCH) == Ok(w);
    hide ValidState, ApplyPatch;
    assert ValidPatch(EMPTY_PATCH);
  }
}
