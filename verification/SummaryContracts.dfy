/** What the contracts of a usage summary admit (pmqa/usage/summary.py, the validators of token
    summaries, cost buckets, metrics and groups), item by item. */
module SummaryContracts {
  import opened Wrappers
  import opened Sequences
  import opened Decimals
  import opened UsageRecords
  import opened UsageTotals
  import opened UsageSummary

  // ----- tokens and buckets -----

  /** A token summary has a total exactly when something was observed. */
  predicate TokenAdmitted(t: TokenSummary) {
    && (match t.total
        case None => t.observed == 0
        case Some(total) => t.observed > 0 && total < 0x8000_0000_0000_0000)
    && t.observed <= 64 && t.unavailable <= 64
  }

  /** The cost evidence a bucket stands for. */
  function CostOf(b: Bucket): Cost {
    Cost(b.identity.kind, b.amount, b.identity.currency, b.identity.sourceId, b.identity.version,
         b.identity.effectiveAt, b.identity.reason)
  }

  /** A bucket is admitted when it counts something and a cost like it would be. */
  predicate BucketAdmitted(b: Bucket) {
    0 < b.count <= 64 && ValidCost(CostOf(b))
  }

  lemma PartsAdmitted(t: TokenSummary, b: Bucket)
    ensures TokenContract(t).Some? <==> TokenAdmitted(t)
    ensures BucketContract(b).Some? <==> BucketAdmitted(b)
  {
    assert IdentityOf(CostOf(b)) == b.identity;
    hide ValidIdentity, AdmittedAmount;
  }

  predicate AllTokensAdmitted(ts: seq<TokenSummary>) {
    forall i :: 0 <= i < |ts| ==> TokenAdmitted(ts[i])
  }

  predicate AllBucketsAdmitted(bs: seq<Bucket>) {
    forall i :: 0 <= i < |bs| ==> BucketAdmitted(bs[i])
  }

  /** No two token summaries of one field. */
  predicate FieldsApart(ts: seq<TokenSummary>) {
    forall i, j :: 0 <= i < j < |ts| ==> ts[i].field != ts[j].field
  }

  /** No two buckets with the same cost identity. */
  predicate IdentitiesApart(bs: seq<Bucket>) {
    forall i, j :: 0 <= i < j < |bs| ==> bs[i].identity != bs[j].identity
  }

  lemma TokensAdmitted(ts: seq<TokenSummary>)
    ensures SnapshotTokens(ts).Some? <==> |ts| <= 4 && AllTokensAdmitted(ts) && FieldsApart(ts)
    ensures SnapshotTokens(ts).Some? ==> SnapshotTokens(ts).value == SortBy(ts, TokenKey)
  {
    hide SortBy, TokenKey, EachOf;
    var each := EachOf(ts, TokenContract);
    forall t: TokenSummary ensures TokenContract(t).Some? <==> TokenAdmitted(t) {
      PartsAdmitted(t, Bucket(CostIdentity(UnavailableCost, None, None, None, None, None), 0, None));
    }
    assert each.Some? <==> AllTokensAdmitted(ts);
    hide TokenAdmitted;
    if each.Some? {
      assert each.value == ts;
      var fields := Fields(ts);
      if Distinct(fields) {
        forall i, j | 0 <= i < j < |ts| ensures ts[i].field != ts[j].field {
          assert fields[i] != fields[j];
        }
      }
    }
  }

  function Reread(b: Bucket): Bucket {
    if AdmittedAmount(b.amount) then b.(amount := SnapshotAmount(b.amount)) else b
  }

  function RereadAll(bs: seq<Bucket>): (r: seq<Bucket>)
    ensures |r| == |bs| && forall i :: 0 <= i < |r| ==> r[i] == Reread(bs[i])
  {
    seq(|bs|, i requires 0 <= i < |bs| => Reread(bs[i]))
  }

  lemma BucketsAdmitted(bs: seq<Bucket>)
    ensures SnapshotBuckets(bs).Some? <==> |bs| <= 64 && AllBucketsAdmitted(bs) && IdentitiesApart(bs)
    ensures SnapshotBuckets(bs).Some? ==> SnapshotBuckets(bs).value == SortBy(RereadAll(bs), BucketKey)
  {
    hide ValidIdentity, AdmittedAmount, SnapshotAmount, ValidCost, SortBy;
    var each := EachOf(bs, BucketContract);
    forall b: Bucket ensures BucketContract(b).Some? <==> BucketAdmitted(b) {
      PartsAdmitted(TokenSummary(InputTokens, None, 0, 0), b);
    }
    if each.Some? {
      forall i | 0 <= i < |bs| ensures each.value[i] == Reread(bs[i]) {
        assert BucketContract(bs[i]) == Some(each.value[i]);
      }
      assert each.value == RereadAll(bs);
      var ids := BucketIds(each.value);
      if Distinct(ids) {
        forall i, j | 0 <= i < j < |bs| ensures bs[i].identity != bs[j].identity {
          assert ids[i] != ids[j];
        }
      }
    }
  }

  // ----- the four fields -----

  /** Four token summaries of different fields, sorted, are those of the four fields in order. */
  lemma SortedFields(ts: seq<TokenSummary>)
    requires FieldsApart(ts)
    ensures Fields(SortBy(ts, TokenKey)) == TOKEN_FIELDS <==> |ts| == 4
  {
    SortsByField(ts);
    var r := SortBy(ts, TokenKey);
    hide SortBy, StrictlySorted;
    if |r| == 4 {
      FourInOrder(r);
    }
  }

  lemma SortsByField(ts: seq<TokenSummary>)
    requires FieldsApart(ts)
    ensures |SortBy(ts, TokenKey)| == |ts| && StrictlySorted(SortBy(ts, TokenKey), TokenKey)
  {
    SortContents(ts, TokenKey);
    hide SortBy, KeyLess, TokenKey, StrictlySorted;
    forall i, j | 0 <= i < j < |ts| ensures TokenKey(ts[i]) != TokenKey(ts[j]) {
      FieldKeys(ts[i], ts[j]);
    }
    SortSorts(ts, TokenKey);
  }

  lemma FourInOrder(r: seq<TokenSummary>)
    requires |r| == 4 && StrictlySorted(r, TokenKey)
    ensures Fields(r) == TOKEN_FIELDS
  {
    hide KeyLess, TokenKey, FieldRank;
    KeyRanks(r[0], r[1]);
    KeyRanks(r[1], r[2]);
    KeyRanks(r[2], r[3]);
    FourRanks(r[0].field, r[1].field, r[2].field, r[3].field);
  }

  lemma FourRanks(a: TokenField, b: TokenField, c: TokenField, d: TokenField)
    requires FieldRank(a) < FieldRank(b) < FieldRank(c) < FieldRank(d)
    ensures [a, b, c, d] == TOKEN_FIELDS
  {}

  function FieldRank(f: TokenField): nat {
    match f
    case InputTokens => 0
    case OutputTokens => 1
    case CachedInputTokens => 2
    case TotalTokens => 3
  }

  lemma FieldDigit(f: TokenField)
    ensures FieldText(f) == [Digit(f)]
  {}

  function Digit(f: TokenField): char {
    if f == InputTokens then '0' else if f == OutputTokens then '1' else if f == CachedInputTokens then '2' else '3'
  }

  lemma FieldKeys(t: TokenSummary, u: TokenSummary)
    requires t.field != u.field
    ensures TokenKey(t) != TokenKey(u)
  {
    FieldDigit(t.field);
    FieldDigit(u.field);
    assert TokenKey(t)[0][0] == Digit(t.field) && TokenKey(u)[0][0] == Digit(u.field);
  }

  lemma KeyRanks(t: TokenSummary, u: TokenSummary)
    requires KeyLess(TokenKey(t), TokenKey(u))
    ensures FieldRank(t.field) < FieldRank(u.field)
  {
    FieldDigit(t.field);
    FieldDigit(u.field);
    OneLess(Digit(t.field), Digit(u.field));
  }

  lemma OneLess(a: char, b: char)
    requires KeyLess([[a]], [[b]])
    ensures a < b
  {
    var k, l := [[a]], [[b]];
    assert k[0] == [a] && l[0] == [b] && k[1..] == [] && l[1..] == [];
    assert !KeyLess(k[1..], l[1..]);
    assert [a][1..] == [] && [b][1..] == [];
    assert !TextLess([a][1..], [b][1..]);
  }

  // ----- a level -----

  function CountSum(bs: seq<Bucket>): nat {
    if bs == [] then 0 else bs[0].count + CountSum(bs[1..])
  }

  lemma {:induction false} CountSumPush(bs: seq<Bucket>, b: Bucket)
    ensures CountSum(bs + [b]) == CountSum(bs) + b.count
  {
    if bs == [] {
      assert [b][1..] == [];
    } else {
      CountSumPush(bs[1..], b);
      assert (bs + [b])[1..] == bs[1..] + [b];
    }
  }

  lemma {:induction false} CountsAreSum(bs: seq<Bucket>)
    ensures BucketCounts(bs) == CountSum(bs)
  {
    if bs != [] {
      CountsAreSum(bs[..|bs| - 1]);
      CountSumPush(bs[..|bs| - 1], bs[|bs| - 1]);
      assert bs == bs[..|bs| - 1] + [bs[|bs| - 1]];
    }
  }

  lemma {:induction false} InsertCounts(b: Bucket, bs: seq<Bucket>)
    ensures BucketCounts(Insert(b, bs, BucketKey)) == BucketCounts(bs) + b.count
  {
    hide BucketKey, KeyLess;
    if bs != [] {
      InsertCounts(b, bs[..|bs| - 1]);
    }
  }

  lemma {:induction false} SortCounts(bs: seq<Bucket>)
    ensures BucketCounts(SortBy(bs, BucketKey)) == BucketCounts(bs)
  {
    hide BucketKey, Insert;
    if bs != [] {
      SortCounts(bs[..|bs| - 1]);
      InsertCounts(bs[|bs| - 1], SortBy(bs[..|bs| - 1], BucketKey));
    }
  }

  lemma {:induction false} RereadCounts(bs: seq<Bucket>)
    ensures BucketCounts(RereadAll(bs)) == BucketCounts(bs)
  {
    hide AdmittedAmount, SnapshotAmount;
    if bs != [] {
      RereadCounts(bs[..|bs| - 1]);
      assert RereadAll(bs)[..|bs| - 1] == RereadAll(bs[..|bs| - 1]);
    }
  }

  predicate CountersInRange(m: Metrics) {
    && m.count <= 64 && m.succeeded <= 64 && m.failed <= 64 && m.cancelled <= 64 && m.retries <= 64
    && m.fallbacks <= 64 && m.duration < 0x8000_0000_0000_0000
  }

  /** The metrics of a level: counters in range and adding up to the count, each of the four token
      fields covered for every invocation, and the buckets counting every invocation once. */
  predicate MetricsAdmitted(m: Metrics) {
    && CountersInRange(m)
    && m.succeeded + m.failed + m.cancelled == m.count && m.retries + m.fallbacks <= m.count
    && |m.tokens| == 4 && AllTokensAdmitted(m.tokens) && FieldsApart(m.tokens)
    && (forall i :: 0 <= i < 4 ==> m.tokens[i].observed + m.tokens[i].unavailable == m.count)
    && |m.buckets| <= 64 && AllBucketsAdmitted(m.buckets) && IdentitiesApart(m.buckets)
    && CountSum(m.buckets) == m.count
  }

  predicate Covered(ts: seq<TokenSummary>, count: nat) {
    forall i :: 0 <= i < |ts| ==> ts[i].observed + ts[i].unavailable == count
  }

  lemma SortedCovered(ts: seq<TokenSummary>, count: nat)
    ensures Covered(SortBy(ts, TokenKey), count) <==> Covered(ts, count)
  {
    SortMembers(ts, TokenKey);
    hide SortBy;
    var r := SortBy(ts, TokenKey);
    if Covered(ts, count) {
      forall i | 0 <= i < |r| ensures r[i].observed + r[i].unavailable == count {
        var j :| 0 <= j < |ts| && ts[j] == r[i];
      }
    }
    if Covered(r, count) {
      forall i | 0 <= i < |ts| ensures ts[i].observed + ts[i].unavailable == count {
        var j :| 0 <= j < |r| && r[j] == ts[i];
      }
    }
  }

  function Stored(m: Metrics): Metrics {
    m.(tokens := SortBy(m.tokens, TokenKey), buckets := SortBy(RereadAll(m.buckets), BucketKey))
  }

  /** A level is accepted exactly then, and stored with its token summaries in field order and its
      buckets re-read and in key order. */
  lemma MetricsMean(m: Metrics)
    ensures SnapshotMetrics(m).Some? <==> MetricsAdmitted(m)
    ensures SnapshotMetrics(m).Some? ==> SnapshotMetrics(m).value == Stored(m)
  {
    TokensAdmitted(m.tokens);
    BucketsAdmitted(m.buckets);
    StoredCounts(m);
    if FieldsApart(m.tokens) {
      SortedFields(m.tokens);
    }
    SortedCovered(m.tokens, m.count);
    hide SnapshotTokens, SnapshotBuckets, SortBy, AllTokensAdmitted, AllBucketsAdmitted, FieldsApart, IdentitiesApart;
    hide BucketCounts, CountSum, Fields, RereadAll, CountersInRange, InRange, ValidMetrics;
    RangesAgree(m);
    if SnapshotTokens(m.tokens).Some? && SnapshotBuckets(m.buckets).Some? {
      LevelAgrees(m);
    }
  }

  lemma RangesAgree(m: Metrics)
    ensures InRange(m) <==> CountersInRange(m)
  {}

  lemma StoredCounts(m: Metrics)
    ensures BucketCounts(Stored(m).buckets) == CountSum(m.buckets)
  {
    SortCounts(RereadAll(m.buckets));
    RereadCounts(m.buckets);
    CountsAreSum(m.buckets);
  }

  lemma LevelAgrees(m: Metrics)
    requires Fields(SortBy(m.tokens, TokenKey)) == TOKEN_FIELDS <==> |m.tokens| == 4
    requires Covered(SortBy(m.tokens, TokenKey), m.count) <==> Covered(m.tokens, m.count)
    requires BucketCounts(Stored(m).buckets) == CountSum(m.buckets)
    ensures ValidMetrics(Stored(m)) <==>
              && m.succeeded + m.failed + m.cancelled == m.count && m.retries + m.fallbacks <= m.count
              && |m.tokens| == 4 && (forall i :: 0 <= i < 4 ==>
                                     m.tokens[i].observed + m.tokens[i].unavailable == m.count)
              && CountSum(m.buckets) == m.count
  {
    hide SortBy, BucketCounts, CountSum, Fields, RereadAll;
  }

  /** A group is accepted exactly when it counts something, its metrics are accepted, its provider
      is an identifier, and it names its model or explains why not. */
  lemma GroupMeans(g: Group)
    ensures GroupContract(g).Some? <==>
              && g.metrics.count > 0 && MetricsAdmitted(g.metrics) && ValidIdentifier(g.key.provider)
              && (match g.key.model
                  case None => g.key.modelReason.Some?
                  case Some(model) => ValidIdentifier(model) && g.key.modelReason.None?)
  {
    hide ValidIdentifier, MetricsAdmitted, SnapshotMetrics;
    MetricsMean(g.metrics);
  }
}
