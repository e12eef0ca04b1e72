/** The roll-up check of a summary (pmqa/usage/summary.py): every total is derived again
    from the groups and compared with the top level. */
module UsageRollup {
  import opened Wrappers
  import opened Sequences
  import opened Decimals
  import opened Amounts
  import opened UsageRecords
  import opened UsageTotals
  import opened UsageSummary
  import opened UsageLevels

  // ----- integer roll-ups -----

  datatype CountField =
    | CountField
    | SucceededField
    | FailedField
    | CancelledField
    | RetryField
    | FallbackField
    | DurationField

  const COUNT_FIELDS := [CountField.CountField, SucceededField, FailedField, CancelledField, RetryField, FallbackField]

  function CountIn(m: Metrics, f: CountField): nat {
    match f
    case CountField => m.count
    case SucceededField => m.succeeded
    case FailedField => m.failed
    case CancelledField => m.cancelled
    case RetryField => m.retries
    case FallbackField => m.fallbacks
    case DurationField => m.duration
  }

  function Column(gs: seq<Group>, f: CountField): (r: seq<nat>)
    ensures |r| == |gs| && forall i :: 0 <= i < |gs| ==> r[i] == CountIn(gs[i].metrics, f)
  {
    seq(|gs|, i requires 0 <= i < |gs| => CountIn(gs[i].metrics, f))
  }

  datatype TokenColumn = ObservedColumn | UnavailableColumn | TotalColumn

  function FieldIndex(field: TokenField): (i: nat)
    ensures i < 4 && TOKEN_FIELDS[i] == field
  {
    match field
    case InputTokens => 0
    case OutputTokens => 1
    case CachedInputTokens => 2
    case TotalTokens => 3
  }

  function TokenIn(m: Metrics, field: TokenField): TokenSummary
    requires |m.tokens| == 4
  {
    m.tokens[FieldIndex(field)]
  }

  function TokenValue(t: TokenSummary, c: TokenColumn): nat {
    match c
    case ObservedColumn => t.observed
    case UnavailableColumn => t.unavailable
    case TotalColumn => if t.total.Some? then t.total.value else 0
  }

  predicate FourTokens(gs: seq<Group>) {
    forall g :: g in gs ==> |g.metrics.tokens| == 4
  }

  function TokenColumnOf(gs: seq<Group>, field: TokenField, c: TokenColumn): (r: seq<nat>)
    requires FourTokens(gs)
    ensures |r| == |gs| && forall i :: 0 <= i < |gs| ==> r[i] == TokenValue(TokenIn(gs[i].metrics, field), c)
  {
    seq(|gs|, i requires 0 <= i < |gs| => TokenValue(TokenIn(gs[i].metrics, field), c))
  }

  predicate AnyTotal(gs: seq<Group>, field: TokenField)
    requires FourTokens(gs)
  {
    exists g :: g in gs && TokenIn(g.metrics, field).total.Some?
  }

  function Sum(s: seq<nat>): nat {
    if s == [] then 0 else Sum(s[..|s| - 1]) + s[|s| - 1]
  }

  predicate TokenRollup(s: Summary, field: TokenField)
    requires FourTokens(s.groups) && |s.metrics.tokens| == 4
  {
    var top := TokenIn(s.metrics, field);
    && Sum(TokenColumnOf(s.groups, field, ObservedColumn)) == top.observed
    && Sum(TokenColumnOf(s.groups, field, UnavailableColumn)) == top.unavailable
    && (top.total.Some? <==> AnyTotal(s.groups, field))
    && (top.total.Some? ==> Sum(TokenColumnOf(s.groups, field, TotalColumn)) == top.total.value)
  }

  // ----- cost roll-ups -----

  type Derived = map<CostIdentity, (nat, Option<Decimal>)>

  function AllBuckets(gs: seq<Group>): seq<Bucket> {
    if gs == [] then [] else AllBuckets(gs[..|gs| - 1]) + gs[|gs| - 1].metrics.buckets
  }

  function Previous(d: Derived, id: CostIdentity): (nat, Option<Decimal>) {
    if id in d then d[id] else (0, None)
  }

  /** A missing or zero running amount restarts from Decimal(0). */
  function Running(amount: Option<Decimal>): (d: Decimal) {
    if amount.Some? && amount.value.Finite? && amount.value.coefficient != 0 then amount.value else ZERO
  }

  /** One bucket more: None stands for the raised error. */
  function AddBucket(d: Derived, b: Bucket): Option<Derived> {
    var (count, amount) := Previous(d, b.identity);
    if count > MAX_SUMMARY_RECORDS || b.count > MAX_SUMMARY_RECORDS - count then None
    else if !IsMonetary(b.identity.kind) then Some(d[b.identity := (count + b.count, None)])
    else if b.amount.None? || !IsAmount(b.amount.value) || !IsAmount(Running(amount)) then None
    else
      match BoundedAdd(ROLLUP_PRECISION, Running(amount), b.amount.value)
      case None => None
      case Some(sum) => Some(d[b.identity := (count + b.count, Some(sum))])
  }

  function DerivedCosts(bs: seq<Bucket>): Option<Derived> {
    if bs == [] then Some(map[])
    else
      match DerivedCosts(bs[..|bs| - 1])
      case None => None
      case Some(d) => AddBucket(d, bs[|bs| - 1])
  }

  predicate SameAmount(a: Option<Decimal>, b: Option<Decimal>) {
    match (a, b)
    case (None, None) => true
    case (Some(x), Some(y)) =>
      x.Finite? && y.Finite? && IsAmount(x) && IsAmount(y)
      && Shift(x.coefficient, x.exponent - MinExponent(x, y)) == Shift(y.coefficient, y.exponent - MinExponent(x, y))
    case _ => false
  }

  /** Equality of the derived and the stored dictionaries. */
  predicate SameCosts(d: Derived, top: seq<Bucket>) {
    && d.Keys == Elements(BucketIds(top))
    && forall i :: 0 <= i < |top| ==>
         top[i].identity in d && d[top[i].identity].0 == top[i].count && SameAmount(d[top[i].identity].1, top[i].amount)
  }

  predicate CostRollup(s: Summary) {
    var d := DerivedCosts(AllBuckets(s.groups));
    d.Some? && SameCosts(d.value, s.metrics.buckets)
  }

  /** The whole check. */
  predicate RollupHolds(s: Summary)
    requires FourTokens(s.groups) && |s.metrics.tokens| == 4
  {
    && (forall f :: Sum(Column(s.groups, f)) == CountIn(s.metrics, f))
    && (forall field :: TokenRollup(s, field))
    && CostRollup(s)
  }

  // ----- the check as the program does it -----

  lemma {:induction false} SumPrefix(s: seq<nat>, i: nat)
    requires i <= |s|
    ensures Sum(s[..i]) <= Sum(s)
    decreases |s|
  {
    if i < |s| {
      SumPrefix(s[..|s| - 1], i);
      assert s[..|s| - 1][..i] == s[..i];
    } else {
      assert s[..i] == s;
    }
  }

  /** A running total that stops at the first addition past the maximum. */
  method BoundedSum(values: seq<nat>, maximum: nat) returns (total: Option<nat>)
    ensures total == if Sum(values) <= maximum then Some(Sum(values)) else None
  {
    var sum := 0;
    for i := 0 to |values|
      invariant sum == Sum(values[..i]) && sum <= maximum
    {
      assert values[..i + 1][..i] == values[..i];
      SumPrefix(values, i + 1);
      if values[i] > maximum - sum {
        return None;
      }
      sum := sum + values[i];
    }
    assert values[..|values|] == values;
    total := Some(sum);
  }

  /** Summaries whose fields satisfy their declared ranges. */
  predicate WellTyped(s: Summary) {
    && InRange(s.metrics) && FourTokens(s.groups) && |s.metrics.tokens| == 4
    && (forall i :: 0 <= i < 4 ==> TokenContract(s.metrics.tokens[i]).Some?)
  }

  method ValidateTokens(s: Summary, field: TokenField) returns (ok: bool)
    requires WellTyped(s)
    ensures ok == TokenRollup(s, field)
  {
    var top := TokenIn(s.metrics, field);
    assert TokenContract(s.metrics.tokens[FieldIndex(field)]).Some?;
    var observed := BoundedSum(TokenColumnOf(s.groups, field, ObservedColumn), MAX_SUMMARY_RECORDS);
    var unavailable := BoundedSum(TokenColumnOf(s.groups, field, UnavailableColumn), MAX_SUMMARY_RECORDS);
    var totals := BoundedSum(TokenColumnOf(s.groups, field, TotalColumn), MAX_USAGE_INTEGER);
    var observedTotal := false;
    for i := 0 to |s.groups|
      invariant observedTotal <==> exists j :: 0 <= j < i && TokenIn(s.groups[j].metrics, field).total.Some?
    {
      assert s.groups[i] in s.groups;
      if TokenIn(s.groups[i].metrics, field).total.Some? {
        observedTotal := true;
      }
    }
    assert observedTotal <==> AnyTotal(s.groups, field);
    if !observedTotal {
      NoTotals(s.groups, field);
    }
    ok := observed == Some(top.observed) && unavailable == Some(top.unavailable) && totals.Some?
          && (top.total.Some? <==> observedTotal)
          && (top.total.Some? ==> totals == top.total);
  }

  lemma {:induction false} NoTotals(gs: seq<Group>, field: TokenField)
    requires FourTokens(gs) && !AnyTotal(gs, field)
    ensures Sum(TokenColumnOf(gs, field, TotalColumn)) == 0
  {
    AllZero(TokenColumnOf(gs, field, TotalColumn));
  }

  lemma {:induction false} AllZero(s: seq<nat>)
    requires forall i :: 0 <= i < |s| ==> s[i] == 0
    ensures Sum(s) == 0
  {
    if s != [] {
      AllZero(s[..|s| - 1]);
    }
  }

  lemma DerivedPush(done: seq<Bucket>, b: Bucket)
    ensures DerivedCosts(done + [b]) ==
            if DerivedCosts(done).None? then None else AddBucket(DerivedCosts(done).value, b)
  {
    assert (done + [b])[..|done|] == done;
  }

  /** The buckets of one group, after those of earlier groups. */
  method AddBuckets(start: Derived, bs: seq<Bucket>, ghost before: seq<Bucket>) returns (d: Option<Derived>)
    requires DerivedCosts(before) == Some(start)
    ensures d == DerivedCosts(before + bs)
  {
    hide DerivedCosts, AddBucket;
    var derived := start;
    assert before + bs[..0] == before;
    for j := 0 to |bs|
      invariant DerivedCosts(before + bs[..j]) == Some(derived)
    {
      DerivedPush(before + bs[..j], bs[j]);
      assert before + bs[..j + 1] == before + bs[..j] + [bs[j]];
      var next := AddBucket(derived, bs[j]);
      if next.None? {
        FailureStays(before + bs[..j + 1], bs[j + 1..]);
        assert before + bs[..j + 1] + bs[j + 1..] == before + bs;
        return None;
      }
      derived := next.value;
    }
    assert bs[..|bs|] == bs;
    d := Some(derived);
  }

  method DeriveCosts(gs: seq<Group>) returns (d: Option<Derived>)
    ensures d == DerivedCosts(AllBuckets(gs))
  {
    hide AddBucket;
    var derived: Derived := map[];
    for i := 0 to |gs|
      invariant DerivedCosts(AllBuckets(gs[..i])) == Some(derived)
    {
      assert gs[..i + 1][..i] == gs[..i];
      var next := AddBuckets(derived, gs[i].metrics.buckets, AllBuckets(gs[..i]));
      if next.None? {
        BucketsPrefix(gs, i + 1);
        return None;
      }
      derived := next.value;
    }
    assert gs[..|gs|] == gs;
    d := Some(derived);
  }

  lemma {:induction false} FailureStays(a: seq<Bucket>, b: seq<Bucket>)
    requires DerivedCosts(a).None?
    ensures DerivedCosts(a + b).None?
    decreases |b|
  {
    if b == [] {
      assert a + b == a;
    } else {
      FailureStays(a, b[..|b| - 1]);
      assert (a + b)[..|a + b| - 1] == a + b[..|b| - 1];
    }
  }

  lemma {:induction false} BucketsPrefix(gs: seq<Group>, i: nat)
    requires i <= |gs|
    ensures DerivedCosts(AllBuckets(gs[..i])).None? ==> DerivedCosts(AllBuckets(gs)).None?
    decreases |gs|
  {
    if i < |gs| {
      BucketsPrefix(gs[..|gs| - 1], i);
      assert gs[..|gs| - 1][..i] == gs[..i];
      if DerivedCosts(AllBuckets(gs[..|gs| - 1])).None? {
        FailureStays(AllBuckets(gs[..|gs| - 1]), gs[|gs| - 1].metrics.buckets);
      }
    } else {
      assert gs[..i] == gs;
    }
  }

  method ValidateGroupRollup(s: Summary) returns (ok: bool)
    requires WellTyped(s)
    ensures ok == RollupHolds(s)
  {
    hide TokenRollup, DerivedCosts, SameCosts;
    for i := 0 to |COUNT_FIELDS|
      invariant forall j :: 0 <= j < i ==> Sum(Column(s.groups, COUNT_FIELDS[j])) == CountIn(s.metrics, COUNT_FIELDS[j])
    {
      var derived := BoundedSum(Column(s.groups, COUNT_FIELDS[i]), MAX_SUMMARY_RECORDS);
      if derived != Some(CountIn(s.metrics, COUNT_FIELDS[i])) {
        return false;
      }
    }
    var duration := BoundedSum(Column(s.groups, DurationField), MAX_USAGE_INTEGER);
    if duration != Some(s.metrics.duration) {
      return false;
    }
    EveryCountField(s);
    for i := 0 to |TOKEN_FIELDS|
      invariant forall j :: 0 <= j < i ==> TokenRollup(s, TOKEN_FIELDS[j])
    {
      var tokens := ValidateTokens(s, TOKEN_FIELDS[i]);
      if !tokens {
        return false;
      }
    }
    forall field ensures TokenRollup(s, field) {
      assert TOKEN_FIELDS[FieldIndex(field)] == field;
    }
    var derived := DeriveCosts(s.groups);
    ok := derived.Some? && SameCosts(derived.value, s.metrics.buckets);
  }

  lemma EveryCountField(s: Summary)
    requires forall j :: 0 <= j < |COUNT_FIELDS| ==>
             Sum(Column(s.groups, COUNT_FIELDS[j])) == CountIn(s.metrics, COUNT_FIELDS[j])
    requires Sum(Column(s.groups, DurationField)) == s.metrics.duration
    ensures forall f :: Sum(Column(s.groups, f)) == CountIn(s.metrics, f)
  {
    assert COUNT_FIELDS[0] == CountField.CountField && COUNT_FIELDS[1] == SucceededField
      && COUNT_FIELDS[2] == FailedField
      && COUNT_FIELDS[3] == CancelledField && COUNT_FIELDS[4] == RetryField && COUNT_FIELDS[5] == FallbackField;
  }
}
