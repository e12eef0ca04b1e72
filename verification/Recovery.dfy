/** Exactly which histories the failed-validation recovery accepts
    (pmqa/supervisor/policy.py, _validate_validation_history and its helpers). */
module Recovery {
  import opened Wrappers
  import opened Models
  import opened Workflow
  import opened SupervisorPolicy

  // ----- an index-free description -----

  function RelevantRoles(h: seq<Invocation>): seq<Role> {
    if h == [] then []
    else RelevantRoles(h[..|h| - 1]) + if IsRelevant(h[|h| - 1]) then [h[|h| - 1].agent] else []
  }

  predicate RelevantCompleted(h: seq<Invocation>) {
    forall i :: i in h && IsRelevant(i) ==> i.status == InvocationCompleted
  }

  predicate FollowsCycle(roles: seq<Role>) {
    forall i :: 0 <= i < |roles| ==> roles[i] == Cycle(i)
  }

  predicate FirstValidator(h: seq<Invocation>, j: nat) {
    j < |h| && IsCompletedValidator(h[j]) && forall i :: 0 <= i < j ==> !IsCompletedValidator(h[i])
  }

  /** Anything up to the first completed Validator; from there on only completed relevant
      entries, in the order of the cycle, with one whole cycle for every further result. */
  predicate RecoveryForm(h: seq<Invocation>, j: nat, results: nat) {
    && FirstValidator(h, j)
    && RelevantCompleted(h[j + 1..])
    && FollowsCycle(RelevantRoles(h[j + 1..]))
    && |RelevantRoles(h[j + 1..])| / 3 == results - 1
  }

  lemma {:induction false} RolesMeaning(h: seq<Invocation>)
    ensures RecoveryRoles(h) == Ok(RelevantRoles(h)) <==> RelevantCompleted(h)
    ensures RecoveryRoles(h).Ok? ==> RecoveryRoles(h).value == RelevantRoles(h)
  {
    if h != [] {
      var init, last := h[..|h| - 1], h[|h| - 1];
      RolesMeaning(init);
      assert h == init + [last];
      assert forall i :: i in h <==> i in init || i == last;
      assert RelevantRoles(init) + [] == RelevantRoles(init);
      assert RelevantCompleted(h) <==> RelevantCompleted(init) && (IsRelevant(last) ==>
                                                                   last.status == InvocationCompleted);
    }
  }

  lemma {:induction false} RolesConcat(a: seq<Invocation>, b: seq<Invocation>)
    ensures RecoveryRoles(a + b).Ok? <==> RecoveryRoles(a).Ok? && RecoveryRoles(b).Ok?
    ensures RecoveryRoles(a + b).Ok? ==> RecoveryRoles(a + b).value == RecoveryRoles(a).value + RecoveryRoles(b).value
  {
    if b == [] {
      assert a + b == a;
    } else {
      RolesConcat(a, b[..|b| - 1]);
      assert (a + b)[..|a + b| - 1] == a + b[..|b| - 1];
    }
  }

  // ----- counting completed Validators -----

  lemma {:induction false} ValidatorsOfPrefix(h: seq<Invocation>, m: nat)
    requires m <= |h|
    ensures CompletedValidators(h[..m]) <= CompletedValidators(h)
    ensures forall k :: 0 <= k < |CompletedValidators(h)| ==>
              (CompletedValidators(h)[k] < m <==> k < |CompletedValidators(h[..m])|)
    decreases |h|
  {
    if m == |h| {
      assert h[..m] == h;
    } else {
      assert h[..|h| - 1][..m] == h[..m];
      ValidatorsOfPrefix(h[..|h| - 1], m);
    }
  }

  lemma {:induction false} ValidatorsConcat(a: seq<Invocation>, b: seq<Invocation>)
    ensures |CompletedValidators(a + b)| == |CompletedValidators(a)| + |CompletedValidators(b)|
  {
    if b == [] {
      assert a + b == a;
    } else {
      ValidatorsConcat(a, b[..|b| - 1]);
      assert (a + b)[..|a + b| - 1] == a + b[..|b| - 1];
    }
  }

  lemma {:induction false} NoValidatorBefore(h: seq<Invocation>)
    requires forall i :: 0 <= i < |h| ==> !IsCompletedValidator(h[i])
    ensures CompletedValidators(h) == []
  {
    if h != [] {
      NoValidatorBefore(h[..|h| - 1]);
    }
  }

  /** The n-th position closes a stretch with exactly n completed Validators after the first. */
  lemma ValidatorsUpTo(h: seq<Invocation>, n: nat)
    requires n < |CompletedValidators(h)|
    ensures var indexes := CompletedValidators(h);
            && indexes[0] <= indexes[n] < |h|
            && |CompletedValidators(h[indexes[0] + 1..indexes[n] + 1])| == n
  {
    var indexes := CompletedValidators(h);
    var first, m := indexes[0] + 1, indexes[n] + 1;
    PrefixCount(h, 0);
    PrefixCount(h, n);
    assert n > 0 ==> indexes[0] < indexes[n];
    assert h[..first] + h[first..m] == h[..m];
    ValidatorsConcat(h[..first], h[first..m]);
  }

  lemma PrefixCount(h: seq<Invocation>, n: nat)
    requires n < |CompletedValidators(h)|
    ensures |CompletedValidators(h[..CompletedValidators(h)[n] + 1])| == n + 1
  {
    var indexes := CompletedValidators(h);
    var m := indexes[n] + 1;
    ValidatorsOfPrefix(h, m);
    assert forall k :: 0 <= k < |indexes| ==> (indexes[k] < m <==> k <= n);
  }

  /** In a stretch that follows the cycle, every third role is a completed Validator. */
  lemma {:induction false} ValidatorEveryThird(h: seq<Invocation>)
    requires RecoveryRoles(h).Ok? && FollowsCycle(RecoveryRoles(h).value)
    ensures |CompletedValidators(h)| == |RecoveryRoles(h).value| / 3
    ensures h != [] && IsCompletedValidator(h[|h| - 1]) ==> |RecoveryRoles(h).value| == 3 * |CompletedValidators(h)|
  {
    if h != [] {
      var init := h[..|h| - 1];
      var roles, before := RecoveryRoles(h).value, RecoveryRoles(init).value;
      assert before <= roles;
      assert forall i :: 0 <= i < |before| ==> before[i] == roles[i];
      ValidatorEveryThird(init);
      if IsRelevant(h[|h| - 1]) {
        assert roles[|before|] == h[|h| - 1].agent == Cycle(|before|);
      }
    }
  }

  // ----- accepted histories have the form -----

  predicate CyclesAccepted(h: seq<Invocation>, results: nat) {
    && results > 0 && |CompletedValidators(h)| == results
    && CyclesError(h, CompletedValidators(h), results - 1).None?
  }

  predicate TailAccepted(h: seq<Invocation>)
    requires CompletedValidators(h) != []
  {
    var indexes := CompletedValidators(h);
    var roles := RecoveryRoles(h[indexes[|indexes| - 1] + 1..]);
    roles.Ok? && |roles.value| < |CYCLE| && roles.value == CYCLE[..|roles.value|]
  }

  /** Appending roles that continue the cycle after k whole rounds. */
  lemma CycleExtends(a: seq<Role>, b: seq<Role>, k: nat)
    requires FollowsCycle(a) && |a| == 3 * k && |b| <= 3 && b == CYCLE[..|b|]
    ensures FollowsCycle(a + b)
  {
    forall i | 0 <= i < |a + b| ensures (a + b)[i] == Cycle(i) {
      if i >= |a| {
        CycleShift(k, i - |a|);
        assert (a + b)[i] == CYCLE[i - |a|];
      }
    }
  }

  lemma JoinRound(a: seq<Invocation>, b: seq<Invocation>, k: nat)
    requires RecoveryRoles(a).Ok? && |RecoveryRoles(a).value| == 3 * k && FollowsCycle(RecoveryRoles(a).value)
    requires RequireCycle(b).None?
    ensures RecoveryRoles(a + b).Ok? && |RecoveryRoles(a + b).value| == 3 * (k + 1)
            && FollowsCycle(RecoveryRoles(a + b).value)
  {
    RolesConcat(a, b);
    CycleExtends(RecoveryRoles(a).value, RecoveryRoles(b).value, k);
    hide RecoveryRoles, FollowsCycle;
  }

  predicate Positions(h: seq<Invocation>, indexes: seq<nat>) {
    && (forall i :: 0 <= i < |indexes| ==> indexes[i] < |h|)
    && (forall i, j :: 0 <= i < j < |indexes| ==> indexes[i] < indexes[j])
  }

  /** Between the first position and the n-th lie exactly n rounds of the cycle. */
  predicate Rounds(h: seq<Invocation>, indexes: seq<nat>, n: nat)
    requires n < |indexes| && Positions(h, indexes)
  {
    var roles := RecoveryRoles(h[indexes[0] + 1..indexes[n] + 1]);
    roles.Ok? && |roles.value| == 3 * n && FollowsCycle(roles.value)
  }

  lemma {:induction false} CyclesGiveForm(h: seq<Invocation>, indexes: seq<nat>, n: nat)
    requires n < |indexes| && Positions(h, indexes) && CyclesError(h, indexes, n).None?
    ensures Rounds(h, indexes, n)
  {
    if n == 0 {
      assert h[indexes[0] + 1..indexes[n] + 1] == [];
    } else {
      CyclesGiveForm(h, indexes, n - 1);
      hide RecoveryRoles, FollowsCycle, RequireCycle;
      var a, b := h[indexes[0] + 1..indexes[n - 1] + 1], h[indexes[n - 1] + 1..indexes[n] + 1];
      assert h[indexes[0] + 1..indexes[n] + 1] == a + b;
      JoinRound(a, b, n - 1);
    }
  }

  lemma FirstIndex(h: seq<Invocation>)
    requires CompletedValidators(h) != []
    ensures FirstValidator(h, CompletedValidators(h)[0])
  {
    var j := CompletedValidators(h)[0];
    ValidatorsOfPrefix(h, j);
    var before := CompletedValidators(h[..j]);
    assert before == [];
    forall i | 0 <= i < j ensures !IsCompletedValidator(h[i]) {
      if IsCompletedValidator(h[i]) {
        ValidatorIndexed(h[..j], i);
      }
    }
  }

  lemma {:induction false} ValidatorIndexed(h: seq<Invocation>, i: nat)
    requires i < |h| && IsCompletedValidator(h[i])
    ensures CompletedValidators(h) != []
  {
    if i < |h| - 1 {
      ValidatorIndexed(h[..|h| - 1], i);
    }
  }

  lemma AcceptedHasForm(h: seq<Invocation>, results: nat)
    requires CyclesAccepted(h, results) && TailAccepted(h)
    ensures RecoveryForm(h, CompletedValidators(h)[0], results)
  {
    hide RecoveryRoles, FollowsCycle, CompletedValidators, CyclesError, RelevantRoles, RelevantCompleted,
         FirstValidator;
    var indexes := CompletedValidators(h);
    CyclesGiveForm(h, indexes, results - 1);
    var j, m := indexes[0], indexes[results - 1] + 1;
    assert j < m <= |h|;
    JoinTail(h, j, m, results - 1);
    RolesMeaning(h[j + 1..]);
    FirstIndex(h);
  }

  lemma JoinTail(h: seq<Invocation>, j: nat, m: nat, k: nat)
    requires j < m <= |h|
    requires RecoveryRoles(h[j + 1..m]).Ok? && |RecoveryRoles(h[j + 1..m]).value| == 3 * k
    requires FollowsCycle(RecoveryRoles(h[j + 1..m]).value)
    requires RecoveryRoles(h[m..]).Ok? && |RecoveryRoles(h[m..]).value| < |CYCLE|
    requires RecoveryRoles(h[m..]).value == CYCLE[..|RecoveryRoles(h[m..]).value|]
    ensures RecoveryRoles(h[j + 1..]).Ok? && |RecoveryRoles(h[j + 1..]).value| / 3 == k
    ensures FollowsCycle(RecoveryRoles(h[j + 1..]).value)
  {
    hide RecoveryRoles, FollowsCycle;
    var a, b := h[j + 1..m], h[m..];
    assert h[j + 1..] == a + b;
    RolesConcat(a, b);
    CycleExtends(RecoveryRoles(a).value, RecoveryRoles(b).value, k);
  }

  // ----- histories of the form are accepted -----

  /** The roles up to any point of a history of the form. */
  lemma PrefixFollows(h: seq<Invocation>, j: nat, m: nat)
    requires j < m <= |h| && RecoveryRoles(h[j + 1..]).Ok? && FollowsCycle(RecoveryRoles(h[j + 1..]).value)
    ensures RecoveryRoles(h[j + 1..m]).Ok? && RecoveryRoles(h[m..]).Ok?
    ensures RecoveryRoles(h[j + 1..]).value == RecoveryRoles(h[j + 1..m]).value + RecoveryRoles(h[m..]).value
    ensures FollowsCycle(RecoveryRoles(h[j + 1..m]).value)
  {
    assert h[j + 1..] == h[j + 1..m] + h[m..];
    RolesConcat(h[j + 1..m], h[m..]);
    var roles, init := RecoveryRoles(h[j + 1..]).value, RecoveryRoles(h[j + 1..m]).value;
    assert forall i :: 0 <= i < |init| ==> init[i] == roles[i];
  }

  /** Up to its n-th completed Validator such a history has gone round exactly n times. */
  lemma RoundsUpTo(h: seq<Invocation>, n: nat)
    requires n < |CompletedValidators(h)|
    requires RecoveryRoles(h[CompletedValidators(h)[0] + 1..]).Ok?
    requires FollowsCycle(RecoveryRoles(h[CompletedValidators(h)[0] + 1..]).value)
    ensures Rounds(h, CompletedValidators(h), n)
  {
    hide RecoveryRoles, CompletedValidators, FollowsCycle;
    var indexes := CompletedValidators(h);
    ValidatorsUpTo(h, n);
    PrefixFollows(h, indexes[0], indexes[n] + 1);
    var a := h[indexes[0] + 1..indexes[n] + 1];
    ValidatorEveryThird(a);
    assert n > 0 ==> a != [] && a[|a| - 1] == h[indexes[n]];
    assert n == 0 ==> a == [];
  }

  /** What follows k whole rounds continues the cycle from its start. */
  lemma CycleRemainder(roles: seq<Role>, a: seq<Role>, b: seq<Role>, k: nat)
    requires FollowsCycle(roles) && a + b <= roles && |a| == 3 * k && |b| <= 3
    ensures b == CYCLE[..|b|]
  {
    forall i | 0 <= i < |b| ensures b[i] == CYCLE[i] {
      assert b[i] == (a + b)[|a| + i] == roles[|a| + i];
      CycleShift(k, i);
    }
  }

  lemma SplitRound(a: seq<Invocation>, b: seq<Invocation>, k: nat)
    requires RecoveryRoles(a).Ok? && |RecoveryRoles(a).value| == 3 * k
    requires RecoveryRoles(a + b).Ok? && |RecoveryRoles(a + b).value| == 3 * (k + 1)
             && FollowsCycle(RecoveryRoles(a + b).value)
    ensures RequireCycle(b).None?
  {
    RolesConcat(a, b);
    CycleRemainder(RecoveryRoles(a + b).value, RecoveryRoles(a).value, RecoveryRoles(b).value, k);
    hide RecoveryRoles, FollowsCycle;
  }

  lemma {:induction false} FormGivesCycles(h: seq<Invocation>, indexes: seq<nat>, n: nat)
    requires n < |indexes| && Positions(h, indexes) && forall k :: 0 <= k <= n ==> Rounds(h, indexes, k)
    ensures CyclesError(h, indexes, n).None?
  {
    if n > 0 {
      FormGivesCycles(h, indexes, n - 1);
      assert Rounds(h, indexes, n) && Rounds(h, indexes, n - 1);
      hide RecoveryRoles, FollowsCycle, RequireCycle;
      var a, b := h[indexes[0] + 1..indexes[n - 1] + 1], h[indexes[n - 1] + 1..indexes[n] + 1];
      assert h[indexes[0] + 1..indexes[n] + 1] == a + b;
      SplitRound(a, b, n - 1);
    }
  }

  lemma FirstIsIndex(h: seq<Invocation>, j: nat)
    requires FirstValidator(h, j)
    ensures CompletedValidators(h) != [] && CompletedValidators(h)[0] == j
  {
    NoValidatorBefore(h[..j]);
    assert h[..j + 1][..j] == h[..j];
    ValidatorsOfPrefix(h, j + 1);
    assert CompletedValidators(h[..j + 1]) == [j];
  }

  lemma FormCounts(h: seq<Invocation>, j: nat, results: nat)
    requires RecoveryForm(h, j, results)
    ensures |CompletedValidators(h)| == results > 0 && CompletedValidators(h)[0] == j
    ensures RecoveryRoles(h[j + 1..]) == Ok(RelevantRoles(h[j + 1..]))
  {
    FirstIsIndex(h, j);
    RolesMeaning(h[j + 1..]);
    hide RecoveryRoles, CompletedValidators, RelevantRoles, RelevantCompleted;
    PrefixCount(h, 0);
    ValidatorsConcat(h[..j + 1], h[j + 1..]);
    assert h[..j + 1] + h[j + 1..] == h;
    ValidatorEveryThird(h[j + 1..]);
  }

  lemma RemainderIsShort(roles: seq<Role>, a: seq<Role>, b: seq<Role>, k: nat)
    requires FollowsCycle(roles) && roles == a + b && |a| == 3 * k && |roles| / 3 == k
    ensures |b| < |CYCLE| && b == CYCLE[..|b|] && |roles| == 3 * k + |b|
  {
    CycleRemainder(roles, a, b, k);
  }

  /** What follows the last result is less than a round and starts the cycle. */
  lemma FormTail(h: seq<Invocation>, j: nat, results: nat)
    requires RecoveryForm(h, j, results)
    requires |CompletedValidators(h)| == results > 0 && CompletedValidators(h)[0] == j
    requires RecoveryRoles(h[j + 1..]) == Ok(RelevantRoles(h[j + 1..]))
    ensures var tail := RecoveryRoles(h[CompletedValidators(h)[results - 1] + 1..]);
            && tail.Ok? && |tail.value| < |CYCLE| && tail.value == CYCLE[..|tail.value|]
            && |RelevantRoles(h[j + 1..])| == 3 * (results - 1) + |tail.value|
  {
    hide RecoveryRoles, CompletedValidators, RelevantRoles, RelevantCompleted, FirstValidator, FollowsCycle;
    RoundsUpTo(h, results - 1);
    var m := CompletedValidators(h)[results - 1] + 1;
    PrefixFollows(h, j, m);
    RemainderIsShort(RelevantRoles(h[j + 1..]), RecoveryRoles(h[j + 1..m]).value, RecoveryRoles(h[m..]).value,
                     results - 1);
  }

  lemma AllRounds(h: seq<Invocation>, n: nat)
    requires n < |CompletedValidators(h)|
    requires RecoveryRoles(h[CompletedValidators(h)[0] + 1..]).Ok?
    requires FollowsCycle(RecoveryRoles(h[CompletedValidators(h)[0] + 1..]).value)
    ensures CyclesError(h, CompletedValidators(h), n).None?
  {
    forall k: nat | k <= n ensures Rounds(h, CompletedValidators(h), k) {
      RoundsUpTo(h, k);
    }
    hide Rounds, CyclesError, RecoveryRoles, FollowsCycle;
    FormGivesCycles(h, CompletedValidators(h), n);
  }

  lemma FormIsAccepted(h: seq<Invocation>, j: nat, results: nat)
    requires RecoveryForm(h, j, results)
    ensures CyclesAccepted(h, results) && TailAccepted(h)
  {
    hide RecoveryForm, RecoveryRoles, CompletedValidators, RelevantRoles, FollowsCycle, CyclesError, TailAccepted;
    FormFollows(h, j, results);
    FormCounts(h, j, results);
    AllRounds(h, results - 1);
    FormTailAccepted(h, j, results);
  }

  lemma FormTailAccepted(h: seq<Invocation>, j: nat, results: nat)
    requires RecoveryForm(h, j, results) && |CompletedValidators(h)| == results > 0
    ensures TailAccepted(h)
  {
    hide RecoveryForm, RecoveryRoles, CompletedValidators, RelevantRoles;
    FormCounts(h, j, results);
    FormTail(h, j, results);
  }

  lemma FormFollows(h: seq<Invocation>, j: nat, results: nat)
    requires RecoveryForm(h, j, results)
    ensures j < |h| && FollowsCycle(RelevantRoles(h[j + 1..]))
  {
    hide FollowsCycle, RelevantRoles;
  }

  // ----- the policy -----

  /** Every check before the recovery branch passes and the branch is taken. */
  predicate InRecovery(s: WorkflowState) {
    && !IsTerminal(s.status) && LifecycleError(s).None? && s.errors == []
    && s.evidence != [] && s.candidates != [] && s.validations != []
    && forall p :: p in s.validations ==> FailedVerdict(p)
  }

  lemma {:induction false} FailedStatuses(results: seq<Payload>)
    requires forall p :: p in results ==> FailedVerdict(p)
    ensures Statuses(results).Ok? && true !in Statuses(results).value
  {
    if results != [] {
      var init, last := results[..|results| - 1], results[|results| - 1];
      FailedStatuses(init);
      assert FailedVerdict(last);
      assert Statuses(results).value == Statuses(init).value + [false];
    }
  }

  lemma AcceptsMeansChecks(s: WorkflowState)
    requires InRecovery(s)
    ensures DecideNextAction(s).Ok? <==>
              CyclesAccepted(s.history, |s.validations|) && TailAccepted(s.history)
    ensures DecideNextAction(s).Ok? ==>
              DecideNextAction(s) == DecideRecovery(s, CompletedValidators(s.history))
  {
    FailedStatuses(s.validations);
    assert FailedVerdict(s.validations[|s.validations| - 1]);
    hide CompletedValidators, Statuses, RecoveryRoles, CyclesError, ExplorerOrLimit, AgentDecision;
  }

  /** With every result failed, the policy accepts a history exactly when it has the form:
      no other history gets a decision, and no history of the form is refused. */
  lemma RecoveryAcceptsExactly(s: WorkflowState)
    requires InRecovery(s)
    ensures DecideNextAction(s).Ok? <==> exists j: nat :: RecoveryForm(s.history, j, |s.validations|)
  {
    AcceptsMeansChecks(s);
    if DecideNextAction(s).Ok? {
      AcceptedHasForm(s.history, |s.validations|);
    }
    if j: nat :| RecoveryForm(s.history, j, |s.validations|) {
      FormIsAccepted(s.history, j, |s.validations|);
    }
  }

  /** And then it names the role that continues the cycle, or stops at the iteration limit
      when a whole cycle has just failed. */
  lemma RecoverySelects(s: WorkflowState, j: nat)
    requires InRecovery(s) && RecoveryForm(s.history, j, |s.validations|)
    ensures DecideNextAction(s).Ok?
    ensures var d := DecideNextAction(s).value;
            var k := |RelevantRoles(s.history[j + 1..])|;
            && (k % 3 == 0 && s.iteration >= s.maxIterations <==> d.action == TerminateWorkflow)
            && (d.action != TerminateWorkflow ==> d.action == ExecuteAgent && d.selected == Some(Cycle(k)))
  {
    hide DecideNextAction, CompletedValidators, RecoveryRoles, RelevantRoles, CyclesError, RecoveryForm, InRecovery,
         CyclesAccepted, TailAccepted;
    var h, results := s.history, |s.validations|;
    FormIsAccepted(h, j, results);
    AcceptsMeansChecks(s);
    FormCounts(h, j, results);
    FormTail(h, j, results);
    var tail := RecoveryRoles(h[CompletedValidators(h)[results - 1] + 1..]).value;
    var k := |RelevantRoles(h[j + 1..])|;
    assert k == 3 * (results - 1) + |tail| && k % 3 == |tail|;
  }
}
