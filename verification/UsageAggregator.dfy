/** The default aggregator (pmqa/usage/summary.py): one pass over the records per metric,
    one level per provider/model group, and the constructors of the summary contract. */
module UsageAggregator {
  import opened Wrappers
  import opened Sequences
  import opened Decimals
  import opened Amounts
  import opened UsageRecords
  import opened UsageTotals
  import opened UsageSummary
  import opened UsageLevels
  import opened UsageRollup
  import opened UsageAcceptance

  datatype UsageError =
    | InvalidRequest
    | InvalidRecord
    | CorrelationMismatch
    | DuplicateInvocation
    | AggregateOverflow
    | ContractViolation

  // ----- one level -----

  function BoundedIntegerAdd(left: nat, right: nat): Option<nat> {
    if left + right > MAX_USAGE_INTEGER then None else Some(left + right)
  }

  lemma {:induction false} TotalPrefix(m: Measure, rs: seq<Record>, i: nat)
    requires i <= |rs|
    ensures Total(m, rs[..i]) <= Total(m, rs)
    decreases |rs|
  {
    hide Weight;
    if i < |rs| {
      TotalPrefix(m, rs[..|rs| - 1], i);
      assert rs[..|rs| - 1][..i] == rs[..i];
    } else {
      assert rs[..i] == rs;
    }
  }

  lemma TotalNext(m: Measure, rs: seq<Record>, i: nat)
    requires i < |rs|
    ensures Total(m, rs[..i + 1]) == Total(m, rs[..i]) + Weight(m, rs[i]) && Total(m, rs[..i + 1]) <= Total(m, rs)
  {
    assert rs[..i + 1] == rs[..i] + [rs[i]];
    TotalPush(m, rs[..i], rs[i]);
    TotalPrefix(m, rs, i + 1);
  }

  method SumDuration(rs: seq<Record>) returns (total: Option<nat>)
    requires AllSnapshots(rs)
    ensures total == if Total(Duration, rs) > MAX_USAGE_INTEGER then None else Some(Total(Duration, rs))
  {
    hide Total;
    var duration := 0;
    assert Total(Duration, rs[..0]) == 0 by { TotalOfNone(Duration); }
    for i := 0 to |rs|
      invariant duration == Total(Duration, rs[..i]) <= MAX_USAGE_INTEGER
    {
      TotalNext(Duration, rs, i);
      assert IsSnapshot(rs[i]);
      var next := BoundedIntegerAdd(duration, rs[i].durationMs);
      if next.None? {
        return None;
      }
      duration := next.value;
    }
    assert rs[..|rs|] == rs;
    total := Some(duration);
  }

  lemma TotalOfNone(m: Measure)
    ensures Total(m, []) == 0
  {}

  method SumTokens(rs: seq<Record>, field: TokenField) returns (summary: Option<TokenSummary>)
    requires AllSnapshots(rs)
    ensures summary == if Total(Tokens(field), rs) > MAX_USAGE_INTEGER then None else Some(TokenOf(field, rs))
  {
    hide Total;
    var total, observed := 0, 0;
    TotalOfNone(Tokens(field));
    TotalOfNone(Observed(field));
    assert rs[..0] == [];
    for i := 0 to |rs|
      invariant total == Total(Tokens(field), rs[..i]) <= MAX_USAGE_INTEGER
      invariant observed == Total(Observed(field), rs[..i])
    {
      TotalNext(Tokens(field), rs, i);
      TotalNext(Observed(field), rs, i);
      assert IsSnapshot(rs[i]);
      var value := Count(rs[i].usage, field);
      if value.Some? {
        observed := observed + 1;
        var next := BoundedIntegerAdd(total, value.value);
        if next.None? {
          return None;
        }
        total := next.value;
      }
    }
    assert rs[..|rs|] == rs;
    CountLaws(rs);
    summary := Some(TokenSummary(field, if observed == 0 then None else Some(total), observed, |rs| - observed));
  }

  function CostsOf(id: CostIdentity, rs: seq<Record>): (costs: seq<Cost>) {
    if rs == [] then []
    else
      var costs := CostsOf(id, rs[..|rs| - 1]);
      if IdentityOf(rs[|rs| - 1].cost) == id then costs + [rs[|rs| - 1].cost] else costs
  }

  function Costs(rs: seq<Record>): (costs: seq<Cost>)
    ensures |costs| == |rs| && forall i :: 0 <= i < |rs| ==> costs[i] == rs[i].cost
  {
    seq(|rs|, i requires 0 <= i < |rs| => rs[i].cost)
  }

  lemma {:induction false} ChosenCosts(id: CostIdentity, rs: seq<Record>)
    ensures Chosen(Identities(rs), Costs(rs), id) == CostsOf(id, rs)
  {
    if rs != [] {
      var init := rs[..|rs| - 1];
      ChosenCosts(id, init);
      assert Identities(rs)[..|init|] == Identities(init) && Costs(rs)[..|init|] == Costs(init);
    }
  }

  predicate Spendable(costs: seq<Cost>) {
    forall i :: 0 <= i < |costs| ==> costs[i].amount.Some? && IsSummand(costs[i].amount.value)
  }

  function AmountsIn(costs: seq<Cost>): (ds: seq<Decimal>)
    requires Spendable(costs)
    ensures |ds| == |costs| && AllSummands(ds) && forall i :: 0 <= i < |costs| ==> ds[i] == costs[i].amount.value
  {
    seq(|costs|, i requires 0 <= i < |costs| => costs[i].amount.value)
  }

  /** The amount loop of one monetary bucket. */
  method SumAmounts(costs: seq<Cost>) returns (amount: Option<Decimal>)
    requires Spendable(costs)
    ensures amount == FoldAdd(AGGREGATE_PRECISION, AmountsIn(costs))
  {
    hide BoundedAdd, IsSummand;
    ghost var ds := AmountsIn(costs);
    var running := ZERO;
    assert FoldAdd(AGGREGATE_PRECISION, ds[..0]) == Some(ZERO);
    for i := 0 to |costs|
      invariant FoldAdd(AGGREGATE_PRECISION, ds[..i]) == Some(running)
    {
      assert ds[..i + 1][..i] == ds[..i];
      assert IsAmount(running) && IsAmount(ds[i]) by {
        assert IsSummand(running) && IsSummand(ds[i]);
        SummandIsAmount(running);
        SummandIsAmount(ds[i]);
      }
      var next := BoundedAdd(AGGREGATE_PRECISION, running, costs[i].amount.value);
      if next.None? {
        FoldFails(ds, i + 1);
        return None;
      }
      running := next.value;
    }
    assert ds[..|costs|] == ds;
    amount := Some(running);
  }

  lemma SummandIsAmount(d: Decimal)
    requires IsSummand(d)
    ensures IsAmount(d)
  {}

  lemma {:induction false} FoldFails(ds: seq<Decimal>, i: nat)
    requires AllSummands(ds) && i <= |ds| && FoldAdd(AGGREGATE_PRECISION, ds[..i]).None?
    ensures FoldAdd(AGGREGATE_PRECISION, ds).None?
    decreases |ds|
  {
    hide BoundedAdd, IsSummand;
    if i < |ds| {
      assert ds[..|ds| - 1][..i] == ds[..i];
      FoldFails(ds[..|ds| - 1], i);
    } else {
      assert ds[..i] == ds;
    }
  }

  lemma {:induction false} CostsCount(id: CostIdentity, rs: seq<Record>)
    ensures |CostsOf(id, rs)| == Total(InBucket(id), rs)
  {
    if rs != [] {
      CostsCount(id, rs[..|rs| - 1]);
    }
  }

  lemma {:induction false} CostsSpendable(id: CostIdentity, rs: seq<Record>)
    requires AllSnapshots(rs) && IsMonetary(id.kind)
    ensures Spendable(CostsOf(id, rs)) && AmountsIn(CostsOf(id, rs)) == AmountsOf(id, rs)
  {
    hide ValidRecord;
    if rs != [] {
      CostsSpendable(id, rs[..|rs| - 1]);
      var c := rs[|rs| - 1].cost;
      assert IsSnapshot(rs[|rs| - 1]);
      RecordAmount(rs[|rs| - 1]);
      hide IsSummand;
    }
  }

  lemma RecordAmount(r: Record)
    requires ValidRecord(r)
    ensures r.cost.amount.Some? == IsMonetary(r.cost.kind)
  {}

  /** What folding one bucket's evidence gives. */
  lemma BucketFold(id: CostIdentity, rs: seq<Record>)
    requires AllSnapshots(rs) && IsMonetary(id.kind)
    ensures Spendable(CostsOf(id, rs))
    ensures FoldAdd(AGGREGATE_PRECISION, AmountsIn(CostsOf(id, rs))) ==
            if BucketFits(id, rs) then BucketAmount(id, rs) else None
  {
    CostsSpendable(id, rs);
    AmountsSum(id, rs);
    FoldIsSum(AGGREGATE_PRECISION, AmountsOf(id, rs));
  }

  lemma NonMonetaryFits(id: CostIdentity, rs: seq<Record>)
    requires AllSnapshots(rs) && !IsMonetary(id.kind)
    ensures BucketFits(id, rs)
  {
    NonMonetaryUnits(id, rs);
    NonMonetaryFraction(id, rs);
    ZeroFits();
  }

  lemma {:induction false} NonMonetaryFraction(id: CostIdentity, rs: seq<Record>)
    requires AllSnapshots(rs) && !IsMonetary(id.kind)
    ensures LongestFraction(id, rs) == 0
  {
    if rs != [] {
      NonMonetaryFraction(id, rs[..|rs| - 1]);
      assert IsSnapshot(rs[|rs| - 1]);
      RecordAmount(rs[|rs| - 1]);
    }
  }

  /** The amount of one bucket: None, or the sum of the evidence unless it overflows. */
  method SumBucket(id: CostIdentity, costs: seq<Cost>, ghost rs: seq<Record>)
      returns (fits: bool, amount: Option<Decimal>)
    requires AllSnapshots(rs) && costs == CostsOf(id, rs)
    ensures fits == BucketFits(id, rs)
    ensures fits ==> amount == BucketAmount(id, rs)
  {
    hide BucketFits, CostsOf, FoldAdd;
    if IsMonetary(id.kind) {
      BucketFold(id, rs);
      amount := SumAmounts(costs);
      fits := amount.Some?;
    } else {
      NonMonetaryFits(id, rs);
      fits, amount := true, None;
    }
  }

  method SumBuckets(rs: seq<Record>) returns (buckets: Option<seq<Bucket>>)
    requires AllSnapshots(rs)
    ensures var ids := FirstOccurrences(Identities(rs));
            buckets == if exists id :: id in ids && !BucketFits(id, rs) then None else Some(BucketsOf(ids, rs))
  {
    hide BucketFits, CostsOf, BucketAmount, FirstOccurrences, Chosen, AllSnapshots;
    var order, groups := GroupBy(Identities(rs), Costs(rs));
    var result: seq<Bucket> := [];
    for i := 0 to |order|
      invariant result == BucketsOf(order[..i], rs)
      invariant forall j :: 0 <= j < i ==> BucketFits(order[j], rs)
    {
      var id := order[i];
      assert id in Elements(order);
      ChosenCosts(id, rs);
      CostsCount(id, rs);
      var fits, amount := SumBucket(id, groups[id], rs);
      if !fits {
        return None;
      }
      result := result + [Bucket(id, |groups[id]|, amount)];
    }
    assert order[..|order|] == order;
    buckets := Some(result);
  }

  function CountStatus(rs: seq<Record>, s: Status): nat {
    Total(WithStatus(s), rs)
  }

  /** One level of a summary: every sum bounded, or the overflow error. */
  method AggregateMetrics(rs: seq<Record>) returns (r: Result<Metrics, UsageError>)
    requires AllSnapshots(rs)
    ensures r == if Overflows(rs) then Err(AggregateOverflow) else Ok(MetricsOf(rs))
  {
    hide IsSnapshot, Total, FirstOccurrences;
    var duration := SumDuration(rs);
    if duration.None? {
      return Err(AggregateOverflow);
    }
    var tokens: seq<TokenSummary> := [];
    for i := 0 to |TOKEN_FIELDS|
      invariant |tokens| == i
      invariant forall j :: 0 <= j < i ==>
        tokens[j] == TokenOf(TOKEN_FIELDS[j], rs) && Total(Tokens(TOKEN_FIELDS[j]), rs) <= MAX_USAGE_INTEGER
    {
      var token := SumTokens(rs, TOKEN_FIELDS[i]);
      if token.None? {
        return Err(AggregateOverflow);
      }
      tokens := tokens + [token.value];
    }
    assert forall f :: Total(Tokens(f), rs) <= MAX_USAGE_INTEGER by {
      forall f ensures Total(Tokens(f), rs) <= MAX_USAGE_INTEGER {
        assert TOKEN_FIELDS[FieldIndex(f)] == f;
      }
    }
    assert tokens == TokensOf(rs);
    var buckets := SumBuckets(rs);
    if buckets.None? {
      return Err(AggregateOverflow);
    }
    r := Ok(Metrics(|rs|, CountStatus(rs, Succeeded), CountStatus(rs, Failed), CountStatus(rs, Cancelled),
                    Total(Retries, rs), Total(Fallbacks, rs), duration.value, tokens, buckets.value));
  }

  // ----- the summary constructor -----

  /** All validators of a submitted summary. */
  function SummaryContract(s: Summary): Option<Summary> {
    var m, gs := SnapshotMetrics(s.metrics), SnapshotGroups(s.groups);
    if m.Some? && gs.Some? then
      var r := Summary(s.scope, s.scopeId, m.value, gs.value);
      if FourTokens(r.groups) && |r.metrics.tokens| == 4 && RollupHolds(r) then Some(r) else None
    else None
  }

  lemma LevelWellTyped(m: Metrics)
    requires SnapshotMetrics(m).Some?
    ensures var r := SnapshotMetrics(m).value;
            InRange(r) && |r.tokens| == 4 && forall i :: 0 <= i < 4 ==> TokenContract(r.tokens[i]).Some?
  {
    var each := EachOf(m.tokens, TokenContract).value;
    var r := SnapshotMetrics(m).value;
    SortMembers(each, TokenKey);
    assert |Fields(r.tokens)| == 4;
    forall i | 0 <= i < 4 ensures TokenContract(r.tokens[i]).Some? {
      var j :| 0 <= j < |each| && each[j] == r.tokens[i];
      assert TokenContract(m.tokens[j]) == Some(each[j]);
    }
  }

  lemma GroupsWellTyped(gs: seq<Group>)
    requires SnapshotGroups(gs).Some?
    ensures FourTokens(SnapshotGroups(gs).value)
  {
    hide SnapshotMetrics, SortBy;
    var each := EachOf(gs, GroupContract).value;
    var r := SnapshotGroups(gs).value;
    SortMembers(each, GroupSortKey);
    forall g | g in r ensures |g.metrics.tokens| == 4 {
      var i :| 0 <= i < |r| && r[i] == g;
      var j :| 0 <= j < |each| && each[j] == r[i];
      assert GroupContract(gs[j]) == Some(each[j]);
      LevelWellTyped(gs[j].metrics);
    }
  }

  method BuildSummary(s: Summary) returns (r: Option<Summary>)
    ensures r == SummaryContract(s)
  {
    hide SnapshotMetrics, SnapshotGroups, RollupHolds;
    var m, gs := SnapshotMetrics(s.metrics), SnapshotGroups(s.groups);
    if m.None? || gs.None? {
      return None;
    }
    LevelWellTyped(s.metrics);
    GroupsWellTyped(s.groups);
    var built := Summary(s.scope, s.scopeId, m.value, gs.value);
    var ok := ValidateGroupRollup(built);
    r := if ok then Some(built) else None;
  }

  /** Neither the first construction nor reading the stored summary back is ever rejected. */
  lemma SummaryAccepted(scope: Scope, scopeId: string, rs: seq<Record>)
    requires Summable(rs)
    ensures var groups := GroupsOf(FirstOccurrences(Keys(rs)), rs);
            SummaryContract(Summary(scope, scopeId, MetricsOf(rs), groups)) == Some(SummaryOf(scope, scopeId, rs))
    ensures SummaryContract(SummaryOf(scope, scopeId, rs)) == Some(SummaryOf(scope, scopeId, rs))
  {
    hide Summable, MetricsOf, CanonicalMetrics, CanonicalGroups, SnapshotMetrics, SnapshotGroups, RollupHolds, GroupsOf,
         FourTokens;
    LevelAccepted(rs);
    GroupsAccepted(rs);
    StoredGroupsAccepted(rs);
    RollupAcceptsSummary(scope, scopeId, rs);
  }

  // ----- summarize -----

  function InvocationIds(rs: seq<Record>): (ids: seq<string>)
    ensures |ids| == |rs| && forall i :: 0 <= i < |rs| ==> ids[i] == rs[i].invocationId
  {
    seq(|rs|, i requires 0 <= i < |rs| => rs[i].invocationId)
  }

  function ScopeOf(r: Record, scope: Scope): string {
    match scope
    case SessionScope => r.sessionId
    case RunScope => r.runId
  }

  predicate SameScope(rs: seq<Record>, scope: Scope, scopeId: string) {
    forall r :: r in rs ==> ScopeOf(r, scope) == scopeId
  }

  /** What summarize promises: the first failing check, or the summary of the snapshots. */
  function SummaryFor(records: seq<Record>, scope: Scope, scopeId: string): Result<Summary, UsageError> {
    var snapshots := EachOf(records, SnapshotRecord);
    if |records| > MAX_SUMMARY_RECORDS || !ValidIdentifier(scopeId) then Err(InvalidRequest)
    else if snapshots.None? then Err(InvalidRecord)
    else if !Distinct(InvocationIds(snapshots.value)) then Err(DuplicateInvocation)
    else if !SameScope(snapshots.value, scope, scopeId) then Err(CorrelationMismatch)
    else if Overflows(snapshots.value) then Err(AggregateOverflow)
    else Ok(SummaryOf(scope, scopeId, snapshots.value))
  }

  lemma SnapshotsValid(records: seq<Record>)
    requires EachOf(records, SnapshotRecord).Some?
    ensures AllSnapshots(EachOf(records, SnapshotRecord).value)
  {
    var rs := EachOf(records, SnapshotRecord).value;
    forall r | r in rs ensures IsSnapshot(r) {
      var i :| 0 <= i < |rs| && rs[i] == r;
      assert SnapshotRecord(records[i]) == Some(rs[i]);
      SnapshotIsValid(records[i]);
    }
  }

  lemma {:induction false} ChosenRecords(k: GroupKey, rs: seq<Record>)
    ensures Chosen(Keys(rs), rs, k) == Select(rs, k)
  {
    if rs != [] {
      var init := rs[..|rs| - 1];
      ChosenRecords(k, init);
      assert Keys(rs)[..|init|] == Keys(init);
    }
  }

  /** The first failure met while a group is aggregated and constructed. */
  function GroupFailure(metrics: Result<Metrics, UsageError>, group: Option<Group>): Option<UsageError> {
    match metrics
    case Err(e) => Some(e)
    case Ok(_) => if group.None? then Some(ContractViolation) else None
  }

  function Finish<T>(failure: Option<UsageError>, value: T): Result<T, UsageError> {
    match failure
    case Some(e) => Err(e)
    case None => Ok(value)
  }

  /** The group summaries: aggregated and validated one by one. */
  method SummarizeGroups(rs: seq<Record>) returns (r: Result<seq<Group>, UsageError>)
    requires Summable(rs)
    ensures r == Ok(GroupsOf(FirstOccurrences(Keys(rs)), rs))
  {
    hide Overflows, MetricsOf, CanonicalMetrics, GroupContract, Select, FirstOccurrences, Chosen;
    var order, selections := GroupBy(Keys(rs), rs);
    var groups: seq<Group> := [];
    var failure: Option<UsageError> := None;
    for i := 0 to |order|
      invariant failure.None? && groups == GroupsOf(order[..i], rs)
    {
      var key := order[i];
      assert key in Elements(order);
      ChosenRecords(key, rs);
      GroupSummable(rs, key);
      InFirstOccurrences(key, Keys(rs));
      GroupAccepted(key, rs);
      var metrics := AggregateMetrics(selections[key]);
      var group := if metrics.Ok? then GroupContract(Group(key, metrics.value)) else None;
      failure := GroupFailure(metrics, group);
      groups := if group.Some? then groups + [group.value] else groups;
    }
    assert order[..|order|] == order;
    r := Finish(failure, groups);
  }

  /** Construct the summary, then read it back from its stored form. */
  method StoreSummary(s: Summary) returns (r: Result<Summary, UsageError>)
    ensures r == match SummaryContract(s)
                 case None => Err(ContractViolation)
                 case Some(built) =>
                   match SummaryContract(built)
                   case None => Err(ContractViolation)
                   case Some(read) => Ok(read)
  {
    hide SummaryContract;
    var built := BuildSummary(s);
    if built.None? {
      return Err(ContractViolation);
    }
    var read := BuildSummary(built.value);
    r := if read.Some? then Ok(read.value) else Err(ContractViolation);
  }

  /** Validate, fold the top level and every group, construct, and read the result back. */
  method Summarize(records: seq<Record>, scope: Scope, scopeId: string) returns (r: Result<Summary, UsageError>)
    ensures r == SummaryFor(records, scope, scopeId)
  {
    hide Overflows, MetricsOf, CanonicalMetrics, CanonicalGroups, SummaryContract, GroupsOf, SnapshotRecord,
         ValidIdentifier;
    if |records| > MAX_SUMMARY_RECORDS || !ValidIdentifier(scopeId) {
      return Err(InvalidRequest);
    }
    var snapshots := EachOf(records, SnapshotRecord);
    if snapshots.None? {
      return Err(InvalidRecord);
    }
    var rs := snapshots.value;
    var ids := InvocationIds(rs);
    DistinctBySize(ids);
    if |Elements(ids)| != |ids| {
      return Err(DuplicateInvocation);
    }
    if exists i :: 0 <= i < |rs| && ScopeOf(rs[i], scope) != scopeId {
      return Err(CorrelationMismatch);
    }
    assert SameScope(rs, scope, scopeId);
    SnapshotsValid(records);
    var metrics := AggregateMetrics(rs);
    if metrics.Err? {
      return Err(metrics.error);
    }
    assert Summable(rs);
    SummaryAccepted(scope, scopeId, rs);
    var groups := SummarizeGroups(rs);
    r := StoreSummary(Summary(scope, scopeId, metrics.value, groups.value));
  }
}
