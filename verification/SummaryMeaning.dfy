/** What a summary says about the records it was made from (pmqa/usage/summary.py), counted and
    added up directly over their fields: no fold, bucket or group of the computation is used. */
module SummaryMeaning {
  import opened Wrappers
  import opened Sequences
  import opened Decimals
  import opened Amounts
  import opened UsageRecords
  import opened UsageTotals
  import opened UsageSummary
  import opened UsageLevels
  import opened UsageAcceptance
  import R = UsageRollup
  import opened UsageAggregator

  // ----- sums -----

  function Added(s: seq<int>): int {
    if s == [] then 0 else Added(s[..|s| - 1]) + s[|s| - 1]
  }

  lemma AddedPush(s: seq<int>, x: int)
    ensures Added(s + [x]) == Added(s) + x
  {
    assert (s + [x])[..|s|] == s;
  }

  /** A sum of zeros and ones counts the ones. */
  lemma {:induction false} AddedCounts(s: seq<int>)
    requires forall i :: 0 <= i < |s| ==> s[i] == 0 || s[i] == 1
    ensures Added(s) == |set i | 0 <= i < |s| && s[i] == 1|
  {
    var all := set i | 0 <= i < |s| && s[i] == 1;
    if s == [] {
      assert all == {};
    } else {
      var n := |s| - 1;
      AddedCounts(s[..n]);
      var before := set i | 0 <= i < n && s[..n][i] == 1;
      if s[n] == 1 {
        assert all == before + {n};
      } else {
        assert all == before;
      }
    }
  }

  // ----- the records of one level -----

  /** All records, or those of one provider, model and reason. */
  predicate In(r: Record, k: Option<GroupKey>) {
    k.Some? ==> r.provider == k.value.provider && r.model == k.value.model && r.modelReason == k.value.modelReason
  }

  function Level(rs: seq<Record>, k: Option<GroupKey>): seq<Record> {
    if k.Some? then Select(rs, k.value) else rs
  }

  lemma LevelPush(rs: seq<Record>, r: Record, k: Option<GroupKey>)
    ensures Level(rs + [r], k) == if In(r, k) then Level(rs, k) + [r] else Level(rs, k)
  {
    if k.Some? {
      SelectPush(rs, r, k.value);
    }
    hide Select;
  }

  function Weights(m: Measure, rs: seq<Record>, k: Option<GroupKey>): (s: seq<int>)
    ensures |s| == |rs| && forall i :: 0 <= i < |rs| ==> s[i] == if In(rs[i], k) then Weight(m, rs[i]) else 0
  {
    seq(|rs|, i requires 0 <= i < |rs| => if In(rs[i], k) then Weight(m, rs[i]) else 0)
  }

  /** A measure of a level is the sum over all records of those that are in it. */
  lemma {:induction false} TotalAdds(m: Measure, rs: seq<Record>, k: Option<GroupKey>)
    ensures Total(m, Level(rs, k)) == Added(Weights(m, rs, k))
  {
    hide Weight, In, Level, Total, Added, Weights;
    if rs == [] {
      NothingAdds(m, k);
    } else {
      var init, last := SplitLast(rs);
      TotalAdds(m, init, k);
      LevelPush(init, last, k);
      TotalPush(m, Level(init, k), last);
      assert Weights(m, rs, k) == Weights(m, init, k) + [if In(last, k) then Weight(m, last) else 0];
      AddedPush(Weights(m, init, k), if In(last, k) then Weight(m, last) else 0);
    }
  }

  lemma NothingAdds(m: Measure, k: Option<GroupKey>)
    ensures Total(m, Level([], k)) == 0 && Added(Weights(m, [], k)) == 0
  {}

  /** The count of a measure that is one or nothing is the number of marked records. */
  lemma TotalCounts(m: Measure, rs: seq<Record>, k: Option<GroupKey>, marked: set<nat>)
    requires forall i :: i in marked ==> i < |rs|
    requires forall i :: 0 <= i < |rs| && In(rs[i], k) ==> Weight(m, rs[i]) == if i in marked then 1 else 0
    requires forall i :: i in marked ==> In(rs[i], k)
    ensures Total(m, Level(rs, k)) == |marked|
  {
    TotalAdds(m, rs, k);
    var s := Weights(m, rs, k);
    AddedCounts(s);
    assert (set i | 0 <= i < |s| && s[i] == 1) == marked;
  }

  // ----- counts -----

  /** The counters of a level are the numbers of its records with these fields. */
  predicate Counts(m: Metrics, rs: seq<Record>, k: Option<GroupKey>) {
    && m.count == |set i | 0 <= i < |rs| && In(rs[i], k)|
    && m.succeeded == |set i | 0 <= i < |rs| && In(rs[i], k) && rs[i].status == Succeeded|
    && m.failed == |set i | 0 <= i < |rs| && In(rs[i], k) && rs[i].status == Failed|
    && m.cancelled == |set i | 0 <= i < |rs| && In(rs[i], k) && rs[i].status == Cancelled|
    && m.retries == |set i | 0 <= i < |rs| && In(rs[i], k) && rs[i].retryOf.Some?|
    && m.fallbacks == |set i | 0 <= i < |rs| && In(rs[i], k) && rs[i].fallbackFrom.Some?|
  }

  lemma LevelSize(rs: seq<Record>, k: Option<GroupKey>)
    ensures |Level(rs, k)| == |set i | 0 <= i < |rs| && In(rs[i], k)|
  {
    InvocationsCount(Level(rs, k));
    hide Level, In;
    TotalCounts(Invocations, rs, k, set i | 0 <= i < |rs| && In(rs[i], k));
  }

  lemma LevelCounts(rs: seq<Record>, k: Option<GroupKey>)
    ensures Counts(CanonicalMetrics(Level(rs, k)), rs, k)
  {
    LevelSize(rs, k);
    hide Level, In, Total;
    TotalCounts(WithStatus(Succeeded), rs, k, set i | 0 <= i < |rs| && In(rs[i], k) && rs[i].status == Succeeded);
    TotalCounts(WithStatus(Failed), rs, k, set i | 0 <= i < |rs| && In(rs[i], k) && rs[i].status == Failed);
    TotalCounts(WithStatus(Cancelled), rs, k, set i | 0 <= i < |rs| && In(rs[i], k) && rs[i].status == Cancelled);
    TotalCounts(Retries, rs, k, set i | 0 <= i < |rs| && In(rs[i], k) && rs[i].retryOf.Some?);
    TotalCounts(Fallbacks, rs, k, set i | 0 <= i < |rs| && In(rs[i], k) && rs[i].fallbackFrom.Some?);
  }

  // ----- durations and tokens -----

  function Durations(rs: seq<Record>, k: Option<GroupKey>): (s: seq<int>)
    ensures |s| == |rs|
  {
    seq(|rs|, i requires 0 <= i < |rs| => if In(rs[i], k) then rs[i].durationMs else 0)
  }

  lemma LevelDuration(rs: seq<Record>, k: Option<GroupKey>)
    requires AllSnapshots(rs)
    ensures CanonicalMetrics(Level(rs, k)).duration == Added(Durations(rs, k))
  {
    TotalAdds(Duration, rs, k);
    forall i | 0 <= i < |rs| ensures Weight(Duration, rs[i]) == rs[i].durationMs {
      DurationWeight(rs[i]);
    }
    hide Level, In, Total, Weight;
    assert Weights(Duration, rs, k) == Durations(rs, k);
  }

  lemma DurationWeight(r: Record)
    requires IsSnapshot(r)
    ensures Weight(Duration, r) == r.durationMs
  {}

  /** The token count of a record in one of the four fields. */
  function TokensIn(u: TokenUsage, position: nat): Option<int>
    requires position < 4
  {
    if position == 0 then u.input else if position == 1 then u.output
    else if position == 2 then u.cachedInput else u.total
  }

  function TokenValues(rs: seq<Record>, k: Option<GroupKey>, position: nat): (s: seq<int>)
    requires position < 4
    ensures |s| == |rs|
  {
    seq(|rs|, i requires 0 <= i < |rs| =>
          if In(rs[i], k) && TokensIn(rs[i].usage, position).Some? then TokensIn(rs[i].usage, position).value else 0)
  }

  /** A token summary counts the records that report the field, and adds up what they report. */
  predicate TokensMean(t: TokenSummary, rs: seq<Record>, k: Option<GroupKey>, position: nat)
    requires position < 4
  {
    && t.field == [InputTokens, OutputTokens, CachedInputTokens, TotalTokens][position]
    && t.observed == |set i | 0 <= i < |rs| && In(rs[i], k) && TokensIn(rs[i].usage, position).Some?|
    && t.unavailable == |set i | 0 <= i < |rs| && In(rs[i], k) && TokensIn(rs[i].usage, position).None?|
    && (t.total.Some? <==> t.observed > 0)
    && (t.total.Some? ==> t.total.value == Added(TokenValues(rs, k, position)))
  }

  lemma TokenWeights(r: Record, position: nat)
    requires IsSnapshot(r) && position < 4
    ensures var f, n := TOKEN_FIELDS[position], TokensIn(r.usage, position);
            && Weight(Observed(f), r) == (if n.Some? then 1 else 0)
            && Weight(Missing(f), r) == (if n.None? then 1 else 0)
            && Weight(Tokens(f), r) == (if n.Some? then n.value else 0)
  {
    assert ValidUsage(r.usage);
    assert Count(r.usage, TOKEN_FIELDS[position]) == TokensIn(r.usage, position);
    hide ValidUsage;
    if TokensIn(r.usage, position).Some? {
      TokenRange(r.usage, TOKEN_FIELDS[position]);
    }
  }

  lemma TokenRange(u: TokenUsage, f: TokenField)
    requires ValidUsage(u) && Count(u, f).Some?
    ensures InUsageRange(Count(u, f).value)
  {}

  lemma LevelTokens(rs: seq<Record>, k: Option<GroupKey>, position: nat)
    requires AllSnapshots(rs) && position < 4
    ensures TokensMean(TokenOf(TOKEN_FIELDS[position], Level(rs, k)), rs, k, position)
  {
    var f := TOKEN_FIELDS[position];
    forall i | 0 <= i < |rs|
      ensures var n := TokensIn(rs[i].usage, position);
              && Weight(Observed(f), rs[i]) == (if n.Some? then 1 else 0)
              && Weight(Missing(f), rs[i]) == (if n.None? then 1 else 0)
              && Weight(Tokens(f), rs[i]) == (if n.Some? then n.value else 0)
    {
      TokenWeights(rs[i], position);
    }
    hide Level, In, Total, Weight, TokensIn;
    TotalCounts(Observed(f), rs, k, set i | 0 <= i < |rs| && In(rs[i], k) && TokensIn(rs[i].usage, position).Some?);
    TotalCounts(Missing(f), rs, k, set i | 0 <= i < |rs| && In(rs[i], k) && TokensIn(rs[i].usage, position).None?);
    TotalAdds(Tokens(f), rs, k);
    assert Weights(Tokens(f), rs, k) == TokenValues(rs, k, position);
  }

  // ----- cost buckets -----

  /** The cost evidence has exactly these fields beside its amount. */
  predicate Priced(c: Cost, id: CostIdentity) {
    && c.kind == id.kind && c.currency == id.currency && c.sourceId == id.sourceId && c.version == id.version
    && c.effectiveAt == id.effectiveAt && c.reason == id.reason
  }

  /** Ten to the k, as a real number. */
  function Ten(k: nat): (r: real)
    ensures r > 0.0
  {
    if k == 0 then 1.0 else 10.0 * Ten(k - 1)
  }

  /** The number a decimal stands for. */
  function Value(d: Decimal): real
    requires d.Finite?
  {
    if d.exponent >= 0 then d.coefficient as real * Ten(d.exponent) else d.coefficient as real / Ten(-d.exponent)
  }

  function AddedReals(s: seq<real>): real {
    if s == [] then 0.0 else AddedReals(s[..|s| - 1]) + s[|s| - 1]
  }

  predicate FiniteAmounts(rs: seq<Record>) {
    forall r :: r in rs && r.cost.amount.Some? ==> r.cost.amount.value.Finite?
  }

  function Spent(rs: seq<Record>, k: Option<GroupKey>, id: CostIdentity): (s: seq<real>)
    requires FiniteAmounts(rs)
    ensures |s| == |rs|
  {
    seq(|rs|, i requires 0 <= i < |rs| =>
          if In(rs[i], k) && Priced(rs[i].cost, id) && rs[i].cost.amount.Some? then Value(rs[i].cost.amount.value)
            else 0.0)
  }

  lemma {:induction false} TenAdds(a: nat, b: nat)
    ensures Ten(a + b) == Ten(a) * Ten(b)
  {
    if a > 0 {
      TenAdds(a - 1, b);
    }
  }

  lemma {:induction false} ShiftTens(n: nat, k: nat)
    ensures Shift(n, k) as real == n as real * Ten(k)
  {
    if k > 0 {
      ShiftTens(n, k - 1);
    }
  }

  lemma ScaledUp(d: Decimal, scale: nat)
    requires d.Finite? && d.exponent >= 0
    ensures Scaled(d, scale) as real == Value(d) * Ten(scale)
  {
    hide Ten, Shift;
    ShiftTens(d.coefficient, d.exponent + scale);
    TenAdds(d.exponent, scale);
    Regrouped(d.coefficient as real, Ten(d.exponent), Ten(scale), Ten(d.exponent + scale));
  }

  lemma ScaledDown(d: Decimal, scale: nat)
    requires d.Finite? && d.exponent < 0 <= d.exponent + scale
    ensures Scaled(d, scale) as real == Value(d) * Ten(scale)
  {
    hide Ten, Shift;
    ShiftTens(d.coefficient, d.exponent + scale);
    TenAdds(-d.exponent, d.exponent + scale);
    Rescaled(d.coefficient as real, Ten(-d.exponent), Ten(d.exponent + scale), Ten(scale));
  }

  /** Scaling multiplies the value. */
  lemma ScaledValue(d: Decimal, scale: nat)
    requires d.Finite? && d.exponent + scale >= 0
    ensures Scaled(d, scale) as real == Value(d) * Ten(scale)
  {
    hide Value, Scaled, Ten;
    if d.exponent >= 0 {
      ScaledUp(d, scale);
    } else {
      ScaledDown(d, scale);
    }
  }

  lemma Regrouped(c: real, p: real, q: real, pq: real)
    requires pq == p * q
    ensures c * pq == c * p * q
  {}

  lemma Rescaled(c: real, p: real, q: real, pq: real)
    requires p > 0.0 && pq == p * q
    ensures c / p * pq == c * q
  {
    var x := c / p;
    assert x * p == c;
    assert x * pq == x * p * q;
  }

  lemma SameValueIsEqual(a: Decimal, b: Decimal)
    requires a.Finite? && b.Finite? && SameValue(a, b)
    ensures Value(a) == Value(b)
  {
    var s := (if a.exponent < 0 then -a.exponent else 0) + (if b.exponent < 0 then -b.exponent else 0);
    assert Scaled(a, s) == Scaled(b, s);
    hide Value, Scaled, SameValue, Ten;
    ScaledValue(a, s);
    ScaledValue(b, s);
    SameFactor(Value(a), Value(b), Ten(s));
  }

  lemma SameFactor(x: real, y: real, p: real)
    requires p > 0.0 && x * p == y * p
    ensures x == y
  {}

  predicate ScalesTo(x: real, n: int, p: real) {
    x * p == n as real
  }

  lemma {:induction false} RealsScale(s: seq<real>, n: seq<int>, p: real)
    requires |s| == |n| && forall i :: 0 <= i < |s| ==> ScalesTo(s[i], n[i], p)
    ensures AddedReals(s) * p == Added(n) as real
  {
    if s != [] {
      var k := |s| - 1;
      RealsScale(s[..k], n[..k], p);
      var x, y := AddedReals(s[..k]), s[k];
      assert (x + y) * p == x * p + y * p;
    }
  }

  /** The number of an amount, in units of the smallest fraction. */
  lemma UnitsValue(d: Decimal)
    requires IsSummand(d)
    ensures Value(d) * Ten(FRACTION_LIMIT) == Units(d) as real
  {
    ScaledValue(d, FRACTION_LIMIT);
    hide Value, Scaled, Ten;
  }

  /** A bucket counts the records that carry its evidence fields; it has an amount exactly for
      reported and estimated cost, and that amount is the exact sum of theirs. */
  predicate BucketMeans(b: Bucket, rs: seq<Record>, k: Option<GroupKey>)
    requires FiniteAmounts(rs)
  {
    && b.count == |set i | 0 <= i < |rs| && In(rs[i], k) && Priced(rs[i].cost, b.identity)| && b.count >= 1
    && (b.amount.Some? <==> b.identity.kind == ProviderReportedCost || b.identity.kind == EstimatedCost)
    && (b.amount.Some? ==>
          b.amount.value.Finite? && Value(b.amount.value) == AddedReals(Spent(rs, k, b.identity)))
  }

  /** One bucket for each combination of evidence fields that occurs, and no other. */
  predicate BucketsMean(bs: seq<Bucket>, rs: seq<Record>, k: Option<GroupKey>)
    requires FiniteAmounts(rs)
  {
    && (forall i, j :: 0 <= i < j < |bs| ==> bs[i].identity != bs[j].identity)
    && (forall i :: 0 <= i < |rs| && In(rs[i], k) ==> exists j :: 0 <= j < |bs| && Priced(rs[i].cost, bs[j].identity))
    && (forall j :: 0 <= j < |bs| ==> BucketMeans(bs[j], rs, k))
  }

  lemma PricedIsIdentity(c: Cost, id: CostIdentity)
    ensures IdentityOf(c) == id <==> Priced(c, id)
  {}

  lemma SnapshotAmountIsSummand(r: Record)
    requires IsSnapshot(r) && r.cost.amount.Some?
    ensures IsSummand(r.cost.amount.value)
  {
    hide ValidRecord, IsSummand;
  }

  lemma SpentWeight(r: Record, id: CostIdentity)
    requires IsSnapshot(r)
    ensures Weight(InBucket(id), r) == (if Priced(r.cost, id) then 1 else 0)
    ensures r.cost.amount.Some? ==> r.cost.amount.value.Finite?
    ensures ScalesTo(if Priced(r.cost, id) && r.cost.amount.Some? then Value(r.cost.amount.value) else 0.0,
                     Weight(BucketUnits(id), r), Ten(FRACTION_LIMIT))
  {
    hide IsSnapshot, Value, Ten, Units, Priced, IdentityOf;
    PricedIsIdentity(r.cost, id);
    if r.cost.amount.Some? {
      SnapshotAmountIsSummand(r);
      UnitsValue(r.cost.amount.value);
    }
  }

  lemma SnapshotsFinite(rs: seq<Record>)
    requires AllSnapshots(rs)
    ensures FiniteAmounts(rs)
  {
    hide ValidRecord;
    forall r | r in rs && r.cost.amount.Some? ensures r.cost.amount.value.Finite? {
      assert IsSnapshot(r);
    }
  }

  lemma LevelSpending(rs: seq<Record>, k: Option<GroupKey>, id: CostIdentity)
    requires AllSnapshots(rs)
    ensures FiniteAmounts(rs)
    ensures AddedReals(Spent(rs, k, id)) * Ten(FRACTION_LIMIT) == Total(BucketUnits(id), Level(rs, k)) as real
    ensures Total(InBucket(id), Level(rs, k)) == |set i | 0 <= i < |rs| && In(rs[i], k) && Priced(rs[i].cost, id)|
  {
    hide AllSnapshots, Weight, Value, Ten, Priced, In, Level, Total, FiniteAmounts;
    SnapshotsFinite(rs);
    SpentScales(rs, k, id);
    RealsScale(Spent(rs, k, id), Weights(BucketUnits(id), rs, k), Ten(FRACTION_LIMIT));
    TotalAdds(BucketUnits(id), rs, k);
    forall i | 0 <= i < |rs| ensures Weight(InBucket(id), rs[i]) == if Priced(rs[i].cost, id) then 1 else 0 {
      RecordIsSnapshot(rs, i);
      SpentWeight(rs[i], id);
    }
    TotalCounts(InBucket(id), rs, k, set i | 0 <= i < |rs| && In(rs[i], k) && Priced(rs[i].cost, id));
  }

  lemma RecordIsSnapshot(rs: seq<Record>, i: nat)
    requires AllSnapshots(rs) && i < |rs|
    ensures IsSnapshot(rs[i])
  {
    hide IsSnapshot;
    assert rs[i] in rs;
  }

  lemma ZeroScales(p: real)
    ensures ScalesTo(0.0, 0, p)
  {}

  lemma SpentScales(rs: seq<Record>, k: Option<GroupKey>, id: CostIdentity)
    requires AllSnapshots(rs) && FiniteAmounts(rs)
    ensures var s, n := Spent(rs, k, id), Weights(BucketUnits(id), rs, k);
            forall i :: 0 <= i < |rs| ==> ScalesTo(s[i], n[i], Ten(FRACTION_LIMIT))
  {
    ZeroScales(Ten(FRACTION_LIMIT));
    hide AllSnapshots, Weight, Value, Ten, Priced, In, ScalesTo;
    var s, n := Spent(rs, k, id), Weights(BucketUnits(id), rs, k);
    forall i | 0 <= i < |rs| ensures ScalesTo(s[i], n[i], Ten(FRACTION_LIMIT)) {
      RecordIsSnapshot(rs, i);
      SpentWeight(rs[i], id);
    }
  }

  lemma BucketParts(rs: seq<Record>, b: Bucket)
    requires Summable(rs) && b.identity in Identities(rs) && b == ReadBucket(BucketOf(b.identity, rs))
    ensures b.count == Total(InBucket(b.identity), rs) >= 1
    ensures b.amount.Some? <==> b.identity.kind == ProviderReportedCost || b.identity.kind == EstimatedCost
    ensures b.amount.Some? ==>
              IsSummand(b.amount.value) && PartOf(UnitsPart, b.identity, b) == Total(BucketUnits(b.identity), rs)
  {
    StoredBucketParts(b.identity, rs);
    SomeRecord(b.identity, rs);
    hide Summable, Total, IsSummand, Units;
  }

  lemma SomeRecord(id: CostIdentity, rs: seq<Record>)
    requires Summable(rs) && id in Identities(rs)
    ensures Total(InBucket(id), rs) >= 1
  {
    hide Overflows, IsSnapshot;
    var i :| 0 <= i < |rs| && Identities(rs)[i] == id;
    PositiveTotal(InBucket(id), rs, rs[i]);
    hide Total;
  }

  lemma StoredBucketMeans(rs: seq<Record>, k: Option<GroupKey>, b: Bucket)
    requires AllSnapshots(rs) && Summable(Level(rs, k)) && b.identity in Identities(Level(rs, k))
    requires b == ReadBucket(BucketOf(b.identity, Level(rs, k)))
    ensures FiniteAmounts(rs) && BucketMeans(b, rs, k)
  {
    hide AllSnapshots, Summable, Level, Total, In, Priced, Value, Ten, IsSummand, BucketOf, ReadBucket, PartOf,
         FiniteAmounts;
    LevelSpending(rs, k, b.identity);
    BucketParts(Level(rs, k), b);
    if b.amount.Some? {
      BucketNumber(b, Total(BucketUnits(b.identity), Level(rs, k)), AddedReals(Spent(rs, k, b.identity)));
    }
  }

  lemma BucketNumber(b: Bucket, units: nat, sum: real)
    requires b.amount.Some? && IsSummand(b.amount.value) && PartOf(UnitsPart, b.identity, b) == units
    requires sum * Ten(FRACTION_LIMIT) == units as real
    ensures b.amount.value.Finite? && Value(b.amount.value) == sum
  {
    hide Value, Ten;
    UnitsValue(b.amount.value);
    SameFactor(Value(b.amount.value), sum, Ten(FRACTION_LIMIT));
  }

  // ----- one level -----

  /** Everything a level says, of the records of one provider, model and reason, or of all. */
  predicate Describes(m: Metrics, rs: seq<Record>, k: Option<GroupKey>)
    requires FiniteAmounts(rs)
  {
    && Counts(m, rs, k)
    && m.duration == Added(Durations(rs, k))
    && |m.tokens| == 4 && (forall p :: 0 <= p < 4 ==> TokensMean(m.tokens[p], rs, k, p))
    && BucketsMean(m.buckets, rs, k)
  }

  lemma LevelBuckets(rs: seq<Record>, k: Option<GroupKey>)
    requires AllSnapshots(rs) && Summable(Level(rs, k))
    ensures FiniteAmounts(rs) && BucketsMean(CanonicalMetrics(Level(rs, k)).buckets, rs, k)
  {
    hide AllSnapshots, Summable, CanonicalMetrics, Level, FiniteAmounts, BucketMeans, Priced, In, BucketOf, ReadBucket,
         StrictlySorted;
    SnapshotsFinite(rs);
    BucketsMeaning(Level(rs, k));
    var bs := CanonicalMetrics(Level(rs, k)).buckets;
    forall j | 0 <= j < |bs| ensures BucketMeans(bs[j], rs, k) {
      StoredBucketMeans(rs, k, bs[j]);
    }
    forall i, j | 0 <= i < j < |bs| ensures bs[i].identity != bs[j].identity {
      assert BucketIds(bs)[i] != BucketIds(bs)[j];
    }
    forall i | 0 <= i < |rs| && In(rs[i], k) ensures exists j :: 0 <= j < |bs| && Priced(rs[i].cost, bs[j].identity) {
      LevelMember(rs, k, i);
      PricedIsIdentity(rs[i].cost, IdentityOf(rs[i].cost));
      assert IdentityOf(rs[i].cost) in BucketIds(bs);
      var j :| 0 <= j < |bs| && BucketIds(bs)[j] == IdentityOf(rs[i].cost);
      assert bs[j].identity == IdentityOf(rs[i].cost);
    }
  }

  lemma {:induction false} LevelMember(rs: seq<Record>, k: Option<GroupKey>, i: nat)
    requires i < |rs| && In(rs[i], k)
    ensures rs[i] in Level(rs, k) && IdentityOf(rs[i].cost) in Identities(Level(rs, k))
  {
    hide IdentityOf;
    var init, last := SplitLast(rs);
    LevelPush(init, last, k);
    hide Level, In;
    if i < |init| {
      LevelMember(init, k, i);
    }
    var s := Level(rs, k);
    var j :| 0 <= j < |s| && s[j] == rs[i];
    assert Identities(s)[j] == IdentityOf(rs[i].cost);
  }

  lemma LevelDescribes(rs: seq<Record>, k: Option<GroupKey>)
    requires AllSnapshots(rs) && Summable(Level(rs, k))
    ensures FiniteAmounts(rs) && Describes(CanonicalMetrics(Level(rs, k)), rs, k)
  {
    LevelCounts(rs, k);
    LevelDuration(rs, k);
    LevelBuckets(rs, k);
    var m := CanonicalMetrics(Level(rs, k));
    forall p | 0 <= p < 4 ensures TokensMean(m.tokens[p], rs, k, p) {
      LevelTokens(rs, k, p);
      hide Level, TokensMean, BucketsMean, Counts, Durations, TokenOf;
    }
    hide Level, TokensMean, BucketsMean, Counts, Durations, TokenOf, Summable, AllSnapshots;
  }

  // ----- the submitted records -----

  /** The snapshots stand for the submitted records: they differ only in how an amount is written. */
  predicate StandFor(rs: seq<Record>, records: seq<Record>) {
    && |rs| == |records|
    && forall i :: 0 <= i < |rs| ==> StandsFor(rs[i], records[i])
  }

  predicate StandsFor(r: Record, x: Record) {
    && x.cost.amount.Some? == r.cost.amount.Some?
    && (r.cost.amount.Some? ==>
          r.cost.amount.value.Finite? && x.cost.amount.value.Finite?
          && Value(r.cost.amount.value) == Value(x.cost.amount.value))
    && r == x.(cost := x.cost.(amount := r.cost.amount))
  }

  lemma SnapshotStandsFor(x: Record, r: Record)
    requires SnapshotRecord(x) == Some(r)
    ensures StandsFor(r, x)
  {
    SnapshotIsValid(x);
    hide Value, SnapshotAmount, ValidRecord;
    if x.cost.amount.Some? {
      AmountsFinite(x, r);
      SameValueIsEqual(r.cost.amount.value, x.cost.amount.value);
    }
    assert r == x.(cost := x.cost.(amount := r.cost.amount));
  }

  lemma AmountsFinite(x: Record, r: Record)
    requires ValidRecord(x) && x.cost.amount.Some? && IsSnapshot(r) && r.cost.amount.Some?
    ensures x.cost.amount.value.Finite? && r.cost.amount.value.Finite?
  {}

  lemma DescribesRecords(m: Metrics, rs: seq<Record>, records: seq<Record>, k: Option<GroupKey>)
    requires StandFor(rs, records) && FiniteAmounts(rs) && FiniteAmounts(records)
    ensures Describes(m, rs, k) ==> Describes(m, records, k)
  {
    forall i | 0 <= i < |rs|
      ensures In(rs[i], k) == In(records[i], k) && StandsFor(rs[i], records[i])
    {}
    SameCounts(m, rs, records, k);
    SameBuckets(m.buckets, rs, records, k);
    forall p | 0 <= p < 4 && |m.tokens| == 4
      ensures TokensMean(m.tokens[p], rs, k, p) ==> TokensMean(m.tokens[p], records, k, p)
    {
      SameTokens(m.tokens[p], rs, records, k, p);
    }
    assert Durations(rs, k) == Durations(records, k);
    hide StandFor, StandsFor, In, Counts, BucketsMean, TokensMean;
  }

  lemma SameCounts(m: Metrics, rs: seq<Record>, records: seq<Record>, k: Option<GroupKey>)
    requires StandFor(rs, records)
    ensures Counts(m, rs, k) ==> Counts(m, records, k)
  {
    hide Value;
    assert forall i :: 0 <= i < |rs| ==> In(rs[i], k) == In(records[i], k);
    hide In;
    assert (set i | 0 <= i < |rs| && In(rs[i], k)) == (set i | 0 <= i < |records| && In(records[i], k));
    assert (set i | 0 <= i < |rs| && In(rs[i], k) && rs[i].status == Succeeded)
        == (set i | 0 <= i < |records| && In(records[i], k) && records[i].status == Succeeded);
    assert (set i | 0 <= i < |rs| && In(rs[i], k) && rs[i].status == Failed)
        == (set i | 0 <= i < |records| && In(records[i], k) && records[i].status == Failed);
    assert (set i | 0 <= i < |rs| && In(rs[i], k) && rs[i].status == Cancelled)
        == (set i | 0 <= i < |records| && In(records[i], k) && records[i].status == Cancelled);
    assert (set i | 0 <= i < |rs| && In(rs[i], k) && rs[i].retryOf.Some?)
        == (set i | 0 <= i < |records| && In(records[i], k) && records[i].retryOf.Some?);
    assert (set i | 0 <= i < |rs| && In(rs[i], k) && rs[i].fallbackFrom.Some?)
        == (set i | 0 <= i < |records| && In(records[i], k) && records[i].fallbackFrom.Some?);
  }

  lemma SameTokens(t: TokenSummary, rs: seq<Record>, records: seq<Record>, k: Option<GroupKey>, p: nat)
    requires StandFor(rs, records) && p < 4
    ensures TokensMean(t, rs, k, p) ==> TokensMean(t, records, k, p)
  {
    hide Value;
    assert forall i :: 0 <= i < |rs| ==> In(rs[i], k) == In(records[i], k) && rs[i].usage == records[i].usage;
    hide In, TokensIn;
    assert (set i | 0 <= i < |rs| && In(rs[i], k) && TokensIn(rs[i].usage, p).Some?)
        == (set i | 0 <= i < |records| && In(records[i], k) && TokensIn(records[i].usage, p).Some?);
    assert (set i | 0 <= i < |rs| && In(rs[i], k) && TokensIn(rs[i].usage, p).None?)
        == (set i | 0 <= i < |records| && In(records[i], k) && TokensIn(records[i].usage, p).None?);
    assert TokenValues(rs, k, p) == TokenValues(records, k, p);
  }

  lemma SameBuckets(bs: seq<Bucket>, rs: seq<Record>, records: seq<Record>, k: Option<GroupKey>)
    requires StandFor(rs, records) && FiniteAmounts(rs) && FiniteAmounts(records)
    ensures BucketsMean(bs, rs, k) ==> BucketsMean(bs, records, k)
  {
    forall j | 0 <= j < |bs| ensures BucketMeans(bs[j], rs, k) ==> BucketMeans(bs[j], records, k) {
      SameBucket(bs[j], rs, records, k);
    }
    hide Value, BucketMeans;
    assert forall i :: 0 <= i < |rs| ==> In(rs[i], k) == In(records[i], k);
    assert forall i, id :: 0 <= i < |rs| ==> Priced(rs[i].cost, id) == Priced(records[i].cost, id);
    hide In, Priced;
  }

  lemma SameBucket(b: Bucket, rs: seq<Record>, records: seq<Record>, k: Option<GroupKey>)
    requires StandFor(rs, records) && FiniteAmounts(rs) && FiniteAmounts(records)
    ensures BucketMeans(b, rs, k) ==> BucketMeans(b, records, k)
  {
    hide Value;
    assert forall i :: 0 <= i < |rs| ==> In(rs[i], k) == In(records[i], k);
    assert forall i :: 0 <= i < |rs| ==> Priced(rs[i].cost, b.identity) == Priced(records[i].cost, b.identity);
    hide In, Priced;
    assert (set i | 0 <= i < |rs| && In(rs[i], k) && Priced(rs[i].cost, b.identity))
        == (set i | 0 <= i < |records| && In(records[i], k) && Priced(records[i].cost, b.identity));
    assert Spent(rs, k, b.identity) == Spent(records, k, b.identity);
  }

  // ----- the summary -----

  lemma AcceptedSnapshots(records: seq<Record>, scope: Scope, scopeId: string) returns (rs: seq<Record>)
    requires SummaryFor(records, scope, scopeId).Ok?
    ensures Summable(rs) && StandFor(rs, records) && FiniteAmounts(records)
    ensures SummaryFor(records, scope, scopeId).value == SummaryOf(scope, scopeId, rs)
  {
    hide Overflows, SnapshotRecord, Value, SummaryOf, ValidIdentifier, Distinct, StandsFor, SameScope;
    rs := EachOf(records, SnapshotRecord).value;
    SnapshotsValid(records);
    forall i | 0 <= i < |rs| ensures StandsFor(rs[i], records[i]) {
      assert SnapshotRecord(records[i]) == Some(rs[i]);
      SnapshotStandsFor(records[i], rs[i]);
    }
    RecordsFinite(rs, records);
  }

  lemma RecordsFinite(rs: seq<Record>, records: seq<Record>)
    requires StandFor(rs, records)
    ensures FiniteAmounts(records)
  {
    hide Value;
    forall r | r in records && r.cost.amount.Some? ensures r.cost.amount.value.Finite? {
      var i :| 0 <= i < |records| && records[i] == r;
      assert StandsFor(rs[i], records[i]);
    }
  }

  lemma LevelOfRecords(rs: seq<Record>, records: seq<Record>, k: Option<GroupKey>)
    requires AllSnapshots(rs) && Summable(Level(rs, k)) && StandFor(rs, records) && FiniteAmounts(records)
    ensures Describes(CanonicalMetrics(Level(rs, k)), records, k)
  {
    hide AllSnapshots, Summable, Level, StandFor, FiniteAmounts, Describes, CanonicalMetrics;
    LevelDescribes(rs, k);
    DescribesRecords(CanonicalMetrics(Level(rs, k)), rs, records, k);
  }

  predicate HasGroup(gs: seq<Group>, r: Record) {
    exists j :: 0 <= j < |gs| && In(r, Some(gs[j].key))
  }

  /** Every record belongs to a group. */
  predicate Covers(gs: seq<Group>, records: seq<Record>) {
    forall i :: 0 <= i < |records| ==> HasGroup(gs, records[i])
  }

  predicate GroupMeans(g: Group, records: seq<Record>)
    requires FiniteAmounts(records)
  {
    Describes(g.metrics, records, Some(g.key)) && g.metrics.count >= 1
  }

  /** The groups of a summary: one for each provider, model and reason that occurs, describing the
      records of that provider, model and reason. */
  predicate GroupsMean(gs: seq<Group>, records: seq<Record>)
    requires FiniteAmounts(records)
  {
    && (forall i :: 0 <= i < |gs| ==> GroupMeans(gs[i], records))
    && Covers(gs, records)
    && (forall i, j :: 0 <= i < j < |gs| ==> gs[i].key != gs[j].key)
  }

  lemma GroupOfKey(rs: seq<Record>, records: seq<Record>, g: Group)
    requires Summable(rs) && StandFor(rs, records) && FiniteAmounts(records)
    requires g == Group(g.key, CanonicalMetrics(Select(rs, g.key)))
    ensures Describes(g.metrics, records, Some(g.key))
  {
    GroupSummable(rs, g.key);
    assert AllSnapshots(rs);
    assert Level(rs, Some(g.key)) == Select(rs, g.key);
    hide Summable, AllSnapshots, Select, Level, StandFor, FiniteAmounts, Describes, CanonicalMetrics;
    LevelOfRecords(rs, records, Some(g.key));
  }

  lemma KeyIsIn(r: Record, k: GroupKey)
    ensures KeyOf(r) == k <==> In(r, Some(k))
  {}

  lemma GroupsCover(rs: seq<Record>, records: seq<Record>, gs: seq<Group>)
    requires StandFor(rs, records) && forall r :: r in rs ==> KeyOf(r) in GroupKeys(gs)
    ensures Covers(gs, records)
  {
    hide StandsFor, KeyOf, In;
    forall i | 0 <= i < |records| ensures HasGroup(gs, records[i]) {
      assert rs[i] in rs;
      var j :| 0 <= j < |gs| && GroupKeys(gs)[j] == KeyOf(rs[i]);
      KeyIsIn(rs[i], gs[j].key);
      SameKey(rs[i], records[i], gs[j].key);
    }
  }

  lemma SummaryGroups(rs: seq<Record>, records: seq<Record>)
    requires Summable(rs) && StandFor(rs, records) && FiniteAmounts(records)
    ensures GroupsMean(CanonicalGroups(rs), records)
  {
    hide Summable, StandFor, FiniteAmounts, Describes, CanonicalMetrics, CanonicalGroups, Select, KeyOf, In,
         StrictlySorted,
         Covers;
    GroupsMeaning(rs);
    var gs := CanonicalGroups(rs);
    GroupsCover(rs, records, gs);
    forall i | 0 <= i < |gs| ensures GroupMeans(gs[i], records) {
      GroupOfKey(rs, records, gs[i]);
      GroupNotEmpty(rs, gs[i]);
    }
    hide GroupMeans;
    forall i, j | 0 <= i < j < |gs| ensures gs[i].key != gs[j].key {
      assert GroupKeys(gs)[i] != GroupKeys(gs)[j];
    }
  }

  lemma SameKey(r: Record, x: Record, k: GroupKey)
    requires StandsFor(r, x)
    ensures In(r, Some(k)) == In(x, Some(k))
  {
    hide Value;
  }

  lemma GroupNotEmpty(rs: seq<Record>, g: Group)
    requires g == Group(g.key, CanonicalMetrics(Select(rs, g.key))) && g.key in Keys(rs)
    ensures g.metrics.count >= 1
  {
    var i :| 0 <= i < |rs| && Keys(rs)[i] == g.key;
    hide Select, KeyOf, In;
    KeyIsIn(rs[i], g.key);
    LevelMember(rs, Some(g.key), i);
    assert rs[i] in Select(rs, g.key);
    assert |Select(rs, g.key)| >= 1;
  }

  /** What a summary says: its scope, and at the top level and for every group the numbers of
      records with each status, predecessor and reported field, the sums of their durations and
      tokens, and per evidence the exact sum of their amounts; all of the submitted records. */
  lemma SummaryMeans(records: seq<Record>, scope: Scope, scopeId: string)
    requires SummaryFor(records, scope, scopeId).Ok?
    ensures FiniteAmounts(records)
    ensures var s := SummaryFor(records, scope, scopeId).value;
            && s.scope == scope && s.scopeId == scopeId
            && Describes(s.metrics, records, None) && GroupsMean(s.groups, records)
  {
    var rs := AcceptedSnapshots(records, scope, scopeId);
    assert AllSnapshots(rs);
    assert Level(rs, None) == rs;
    hide SummaryFor, Summable, AllSnapshots, Level, StandFor, FiniteAmounts, Describes, GroupsMean, CanonicalMetrics,
         CanonicalGroups;
    LevelOfRecords(rs, records, None);
    SummaryGroups(rs, records);
  }

  // ----- refusals -----

  /** The record belongs to another session or run than the one asked for. */
  predicate Foreign(r: Record, scope: Scope, scopeId: string) {
    if scope == SessionScope then r.sessionId != scopeId else r.runId != scopeId
  }

  /** Which requests are refused, and as what: the first of these conditions that holds decides. */
  lemma RefusesExactly(records: seq<Record>, scope: Scope, scopeId: string)
    ensures var r := SummaryFor(records, scope, scopeId);
            var invalid := exists i :: 0 <= i < |records| && !ValidRecord(records[i]);
            var repeated := exists i, j :: 0 <= i < j < |records| && records[i].invocationId == records[j].invocationId;
            var foreign := exists i :: 0 <= i < |records| && Foreign(records[i], scope, scopeId);
            if |records| > 64 || !ValidIdentifier(scopeId) then r == Err(InvalidRequest)
            else if invalid then r == Err(InvalidRecord)
            else if repeated then r == Err(DuplicateInvocation)
            else if foreign then r == Err(CorrelationMismatch)
            else r.Ok? || r == Err(AggregateOverflow)
  {
    hide ValidRecord, ValidIdentifier, Overflows, SummaryOf;
    var snapshots := EachOf(records, SnapshotRecord);
    if snapshots.Some? {
      var rs := snapshots.value;
      forall i | 0 <= i < |rs|
        ensures rs[i].invocationId == records[i].invocationId
                && rs[i].sessionId == records[i].sessionId && rs[i].runId == records[i].runId
      {
        assert SnapshotRecord(records[i]) == Some(rs[i]);
      }
      hide SnapshotRecord;
      RepeatedIds(rs, records);
      ForeignScope(rs, records, scope, scopeId);
      hide SameScope, Distinct;
    }
  }

  lemma RepeatedIds(rs: seq<Record>, records: seq<Record>)
    requires |rs| == |records| && forall i :: 0 <= i < |rs| ==> rs[i].invocationId == records[i].invocationId
    ensures Distinct(InvocationIds(rs)) <==>
              !exists i, j :: 0 <= i < j < |records| && records[i].invocationId == records[j].invocationId
  {
    var ids := InvocationIds(rs);
    assert forall i :: 0 <= i < |ids| ==> ids[i] == records[i].invocationId;
  }

  lemma ForeignScope(rs: seq<Record>, records: seq<Record>, scope: Scope, scopeId: string)
    requires |rs| == |records|
    requires forall i :: 0 <= i < |rs| ==> rs[i].sessionId == records[i].sessionId && rs[i].runId == records[i].runId
    ensures SameScope(rs, scope, scopeId) <==>
              !exists i :: 0 <= i < |records| && Foreign(records[i], scope, scopeId)
  {
    if !SameScope(rs, scope, scopeId) {
      var r :| r in rs && ScopeOf(r, scope) != scopeId;
      var i :| 0 <= i < |rs| && rs[i] == r;
      assert Foreign(records[i], scope, scopeId);
    }
    if i :| 0 <= i < |records| && Foreign(records[i], scope, scopeId) {
      assert rs[i] in rs;
    }
  }

  // ----- overflow -----

  /** The bounds a selection must keep: the sums of durations and of each token field, and the
      length of the text of each evidence's amount before trailing zeros are dropped. */
  predicate WithinBounds(rs: seq<Record>) {
    && Added(Durations(rs, None)) <= 9_223_372_036_854_775_807
    && (forall p :: 0 <= p < 4 ==> Added(TokenValues(rs, None, p)) <= 9_223_372_036_854_775_807)
    && (forall r :: r in rs ==> BucketFits(IdentityOf(r.cost), rs))
  }

  lemma OverflowMeans(rs: seq<Record>)
    requires AllSnapshots(rs)
    ensures Overflows(rs) <==> !WithinBounds(rs)
  {
    hide AllSnapshots, Total, BucketFits, Durations, TokenValues, FirstOccurrences, Added;
    DurationTotal(rs);
    forall p | 0 <= p < 4 ensures Total(Tokens(TOKEN_FIELDS[p]), rs) == Added(TokenValues(rs, None, p)) {
      TokenTotal(rs, p);
    }
    assert TOKEN_FIELDS[0] == InputTokens && TOKEN_FIELDS[1] == OutputTokens
           && TOKEN_FIELDS[2] == CachedInputTokens && TOKEN_FIELDS[3] == TotalTokens;
    forall f ensures exists p :: 0 <= p < 4 && Total(Tokens(f), rs) == Added(TokenValues(rs, None, p)) {
      var p := R.FieldIndex(f);
      assert TOKEN_FIELDS[p] == f && Total(Tokens(f), rs) == Added(TokenValues(rs, None, p));
    }
    IdentitiesOccur(rs);
  }

  lemma DurationTotal(rs: seq<Record>)
    requires AllSnapshots(rs)
    ensures Total(Duration, rs) == Added(Durations(rs, None))
  {
    LevelDuration(rs, None);
    hide Total, Durations;
  }

  lemma TokenTotal(rs: seq<Record>, p: nat)
    requires AllSnapshots(rs) && p < 4
    ensures Total(Tokens(TOKEN_FIELDS[p]), rs) == Added(TokenValues(rs, None, p))
  {
    var f := TOKEN_FIELDS[p];
    forall i | 0 <= i < |rs|
      ensures var n := TokensIn(rs[i].usage, p); Weight(Tokens(f), rs[i]) == (if n.Some? then n.value else 0)
    {
      TokenWeights(rs[i], p);
    }
    hide Total, Weight, TokensIn;
    TotalAdds(Tokens(f), rs, None);
    assert Weights(Tokens(f), rs, None) == TokenValues(rs, None, p);
  }

  lemma IdentitiesOccur(rs: seq<Record>)
    ensures forall id :: id in FirstOccurrences(Identities(rs)) <==> exists r :: r in rs && IdentityOf(r.cost) == id
  {
    forall id ensures id in FirstOccurrences(Identities(rs)) <==> exists r :: r in rs && IdentityOf(r.cost) == id {
      InFirstOccurrences(id, Identities(rs));
      hide IdentityOf, FirstOccurrences;
      if r :| r in rs && IdentityOf(r.cost) == id {
        var i :| 0 <= i < |rs| && rs[i] == r;
        assert Identities(rs)[i] == id;
      }
      if id in Identities(rs) {
        var i :| 0 <= i < |rs| && Identities(rs)[i] == id;
        assert rs[i] in rs;
      }
    }
  }
}
