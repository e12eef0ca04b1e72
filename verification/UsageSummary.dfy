/** Summaries and the validators every constructed summary must pass
    (pmqa/usage/summary.py). */
module UsageSummary {
  import opened Wrappers
  import opened Sequences
  import opened Decimals
  import opened Amounts
  import opened UsageRecords
  import opened UsageTotals

  const MAX_SUMMARY_RECORDS: nat := 64

  datatype TokenSummary = TokenSummary(field: TokenField, total: Option<nat>, observed: nat, unavailable: nat)

  datatype Bucket = Bucket(identity: CostIdentity, count: nat, amount: Option<Decimal>)

  /** The fields that the top level and every provider/model group share. */
  datatype Metrics = Metrics(
    count: nat,
    succeeded: nat,
    failed: nat,
    cancelled: nat,
    retries: nat,
    fallbacks: nat,
    duration: nat,
    tokens: seq<TokenSummary>,
    buckets: seq<Bucket>)

  datatype Group = Group(key: GroupKey, metrics: Metrics)

  datatype Scope = SessionScope | RunScope

  datatype Summary = Summary(scope: Scope, scopeId: string, metrics: Metrics, groups: seq<Group>)

  // ----- sort keys -----

  function CostOrder(kind: CostType): string {
    match kind
    case ProviderReportedCost => "0"
    case EstimatedCost => "1"
    case SubscriptionIncluded => "2"
    case UnavailableCost => "3"
  }

  function ReasonText(reason: Option<UnavailableReason>): string {
    match reason
    case None => ""
    case Some(NotReported) => "not_reported"
    case Some(NotSupported) => "not_supported"
    case Some(ParsingFailed) => "parsing_failed"
    case Some(NotCollected) => "not_collected"
  }

  function TextOrEmpty(s: Option<string>): string {
    if s.Some? then s.value else ""
  }

  function TimeOrEmpty(t: Option<Timestamp>): string {
    if t.Some? && ValidTimestamp(t.value) then TimestampText(t.value) else ""
  }

  function IdentityKey(id: CostIdentity): SortKey {
    [CostOrder(id.kind), TextOrEmpty(id.currency), TextOrEmpty(id.sourceId), TextOrEmpty(id.version),
     TimeOrEmpty(id.effectiveAt), ReasonText(id.reason)]
  }

  function BucketKey(b: Bucket): SortKey {
    IdentityKey(b.identity)
  }

  function GroupSortKey(g: Group): SortKey {
    [g.key.provider, if g.key.model.Some? then "0" else "1", TextOrEmpty(g.key.model), ReasonText(g.key.modelReason)]
  }

  function FieldText(field: TokenField): string {
    match field
    case InputTokens => "0"
    case OutputTokens => "1"
    case CachedInputTokens => "2"
    case TotalTokens => "3"
  }

  function TokenKey(t: TokenSummary): SortKey {
    [FieldText(t.field)]
  }

  lemma ReasonTextInjective(a: Option<UnavailableReason>, b: Option<UnavailableReason>)
    ensures ReasonText(a) == ReasonText(b) ==> a == b
  {
    assert "not_reported"[4] != "not_supported"[4];
    assert "not_reported"[4] != "not_collected"[4];
    assert "not_supported"[4] != "not_collected"[4];
    assert "not_reported"[0] != "parsing_failed"[0];
    assert "not_supported"[0] != "parsing_failed"[0];
    assert "not_collected"[0] != "parsing_failed"[0];
  }

  lemma TimeInjective(a: Option<Timestamp>, b: Option<Timestamp>)
    requires a.Some? ==> ValidTimestamp(a.value)
    requires b.Some? ==> ValidTimestamp(b.value)
    ensures TimeOrEmpty(a) == TimeOrEmpty(b) ==> a == b
  {
    if a.Some? && b.Some? && TimestampText(a.value) == TimestampText(b.value) {
      TimestampTextInjective(a.value, b.value);
    }
  }

  /** Different valid identities sort apart: the empty text stands only for an absent field. */
  lemma IdentityKeyInjective(a: CostIdentity, x: bool, b: CostIdentity, y: bool)
    requires ValidIdentity(a, x) && ValidIdentity(b, y) && IdentityKey(a) == IdentityKey(b)
    ensures a == b
  {
    var k, l := IdentityKey(a), IdentityKey(b);
    assert k[0] == l[0] && k[1] == l[1] && k[2] == l[2] && k[3] == l[3] && k[4] == l[4] && k[5] == l[5];
    ReasonTextInjective(a.reason, b.reason);
    TimeInjective(a.effectiveAt, b.effectiveAt);
  }

  predicate ValidKey(k: GroupKey) {
    ValidIdentifier(k.provider) && ValidOptionalIdentifier(k.model) && k.model.None? == k.modelReason.Some?
  }

  lemma GroupKeyInjective(a: Group, b: Group)
    requires ValidKey(a.key) && ValidKey(b.key) && GroupSortKey(a) == GroupSortKey(b)
    ensures a.key == b.key
  {
    var k, l := GroupSortKey(a), GroupSortKey(b);
    assert k[0] == l[0] && k[1] == l[1] && k[2] == l[2] && k[3] == l[3];
    ReasonTextInjective(a.key.modelReason, b.key.modelReason);
  }

  // ----- validators of the parts -----

  /** Apply a validating constructor to every item; one rejection rejects all. */
  function EachOf<T, U>(s: seq<T>, f: T -> Option<U>): (r: Option<seq<U>>)
    ensures r.Some? <==> forall i :: 0 <= i < |s| ==> f(s[i]).Some?
    ensures r.Some? ==> |r.value| == |s| && forall i :: 0 <= i < |s| ==> f(s[i]) == Some(r.value[i])
  {
    if s == [] then Some([])
    else
      var init := EachOf(s[..|s| - 1], f);
      var last := f(s[|s| - 1]);
      if init.Some? && last.Some? then Some(init.value + [last.value]) else None
  }

  function TokenContract(t: TokenSummary): Option<TokenSummary> {
    if t.observed <= MAX_SUMMARY_RECORDS && t.unavailable <= MAX_SUMMARY_RECORDS
       && (t.total.Some? ==> t.total.value <= MAX_USAGE_INTEGER)
       && (t.total.None? <==> t.observed == 0)
    then Some(t) else None
  }

  function BucketContract(b: Bucket): Option<Bucket> {
    if ValidIdentity(b.identity, b.amount.Some?) && AdmittedAmount(b.amount) && 1 <= b.count <= MAX_SUMMARY_RECORDS
    then Some(b.(amount := SnapshotAmount(b.amount))) else None
  }

  function Fields(ts: seq<TokenSummary>): (r: seq<TokenField>)
    ensures |r| == |ts| && forall i :: 0 <= i < |ts| ==> r[i] == ts[i].field
  {
    seq(|ts|, i requires 0 <= i < |ts| => ts[i].field)
  }

  function BucketIds(bs: seq<Bucket>): (r: seq<CostIdentity>)
    ensures |r| == |bs| && forall i :: 0 <= i < |bs| ==> r[i] == bs[i].identity
  {
    seq(|bs|, i requires 0 <= i < |bs| => bs[i].identity)
  }

  function GroupKeys(gs: seq<Group>): (r: seq<GroupKey>)
    ensures |r| == |gs| && forall i :: 0 <= i < |gs| ==> r[i] == gs[i].key
  {
    seq(|gs|, i requires 0 <= i < |gs| => gs[i].key)
  }

  /** Bounded, each valid, duplicate-free, sorted. */
  function SnapshotTokens(ts: seq<TokenSummary>): Option<seq<TokenSummary>> {
    var each := EachOf(ts, TokenContract);
    if |ts| <= 4 && each.Some? && Distinct(Fields(each.value)) then Some(SortBy(each.value, TokenKey)) else None
  }

  function SnapshotBuckets(bs: seq<Bucket>): Option<seq<Bucket>> {
    var each := EachOf(bs, BucketContract);
    if |bs| <= MAX_SUMMARY_RECORDS && each.Some? && Distinct(BucketIds(each.value))
    then Some(SortBy(each.value, BucketKey)) else None
  }

  function BucketCounts(bs: seq<Bucket>): nat {
    if bs == [] then 0 else BucketCounts(bs[..|bs| - 1]) + bs[|bs| - 1].count
  }

  /** The cross-field checks of one level. */
  predicate ValidMetrics(m: Metrics) {
    && m.succeeded + m.failed + m.cancelled == m.count
    && m.retries <= m.count && m.fallbacks <= m.count && m.retries <= m.count - m.fallbacks
    && Fields(m.tokens) == TOKEN_FIELDS
    && (forall i :: 0 <= i < |m.tokens| ==> m.tokens[i].observed + m.tokens[i].unavailable == m.count)
    && BucketCounts(m.buckets) == m.count
  }

  predicate InRange(m: Metrics) {
    && m.count <= MAX_SUMMARY_RECORDS && m.succeeded <= MAX_SUMMARY_RECORDS && m.failed <= MAX_SUMMARY_RECORDS
    && m.cancelled <= MAX_SUMMARY_RECORDS && m.retries <= MAX_SUMMARY_RECORDS && m.fallbacks <= MAX_SUMMARY_RECORDS
    && m.duration <= MAX_USAGE_INTEGER
  }

  /** All validators of one level, on a submitted value. */
  function SnapshotMetrics(m: Metrics): Option<Metrics> {
    var ts, bs := SnapshotTokens(m.tokens), SnapshotBuckets(m.buckets);
    if InRange(m) && ts.Some? && bs.Some? then
      var r := m.(tokens := ts.value, buckets := bs.value);
      if ValidMetrics(r) then Some(r) else None
    else None
  }

  function GroupContract(g: Group): Option<Group> {
    var m := SnapshotMetrics(g.metrics);
    if ValidKey(g.key) && m.Some? && g.metrics.count >= 1 then Some(g.(metrics := m.value)) else None
  }

  function SnapshotGroups(gs: seq<Group>): Option<seq<Group>> {
    var each := EachOf(gs, GroupContract);
    if |gs| <= MAX_SUMMARY_RECORDS && each.Some? && Distinct(GroupKeys(each.value))
    then Some(SortBy(each.value, GroupSortKey)) else None
  }

  // ----- what the records say a summary should be -----

  function TokenOf(field: TokenField, rs: seq<Record>): TokenSummary {
    TokenSummary(
      field,
      if Total(Observed(field), rs) == 0 then None else Some(Total(Tokens(field), rs)),
      Total(Observed(field), rs),
      Total(Missing(field), rs))
  }

  function BucketAmount(id: CostIdentity, rs: seq<Record>): Option<Decimal> {
    if IsMonetary(id.kind) then Some(AmountOf(Total(BucketUnits(id), rs), LongestFraction(id, rs))) else None
  }

  function BucketOf(id: CostIdentity, rs: seq<Record>): Bucket {
    Bucket(id, Total(InBucket(id), rs), BucketAmount(id, rs))
  }

  function BucketsOf(ids: seq<CostIdentity>, rs: seq<Record>): (bs: seq<Bucket>)
    ensures |bs| == |ids| && forall i :: 0 <= i < |ids| ==> bs[i] == BucketOf(ids[i], rs)
  {
    seq(|ids|, i requires 0 <= i < |ids| => BucketOf(ids[i], rs))
  }

  function TokensOf(rs: seq<Record>): (ts: seq<TokenSummary>)
    ensures |ts| == 4 && forall i :: 0 <= i < 4 ==> ts[i] == TokenOf(TOKEN_FIELDS[i], rs)
  {
    seq(4, i requires 0 <= i < 4 => TokenOf(TOKEN_FIELDS[i], rs))
  }

  /** One level over the records, buckets in the order their identities first occur. */
  function MetricsOf(rs: seq<Record>): Metrics {
    Metrics(
      |rs|,
      Total(WithStatus(Succeeded), rs),
      Total(WithStatus(Failed), rs),
      Total(WithStatus(Cancelled), rs),
      Total(Retries, rs),
      Total(Fallbacks, rs),
      Total(Duration, rs),
      TokensOf(rs),
      BucketsOf(FirstOccurrences(Identities(rs)), rs))
  }

  predicate BucketFits(id: CostIdentity, rs: seq<Record>) {
    Fits(Total(BucketUnits(id), rs), LongestFraction(id, rs))
  }

  /** Some integer total or some amount total exceeds its bound. */
  predicate Overflows(rs: seq<Record>) {
    || Total(Duration, rs) > MAX_USAGE_INTEGER
    || (exists f :: Total(Tokens(f), rs) > MAX_USAGE_INTEGER)
    || (exists id :: id in FirstOccurrences(Identities(rs)) && !BucketFits(id, rs))
  }

  function ReadBucket(b: Bucket): Bucket {
    if AdmittedAmount(b.amount) then b.(amount := SnapshotAmount(b.amount)) else b
  }

  function ReadBuckets(bs: seq<Bucket>): (r: seq<Bucket>)
    ensures |r| == |bs| && forall i :: 0 <= i < |bs| ==> r[i] == ReadBucket(bs[i])
  {
    seq(|bs|, i requires 0 <= i < |bs| => ReadBucket(bs[i]))
  }

  /** One level as it is stored: amounts in canonical form, buckets sorted. */
  function CanonicalMetrics(rs: seq<Record>): Metrics {
    MetricsOf(rs).(buckets := SortBy(ReadBuckets(MetricsOf(rs).buckets), BucketKey))
  }

  function GroupsOf(ks: seq<GroupKey>, rs: seq<Record>): (gs: seq<Group>)
    ensures |gs| == |ks| && forall i :: 0 <= i < |ks| ==> gs[i] == Group(ks[i], CanonicalMetrics(Select(rs, ks[i])))
  {
    seq(|ks|, i requires 0 <= i < |ks| => Group(ks[i], CanonicalMetrics(Select(rs, ks[i]))))
  }

  function CanonicalGroups(rs: seq<Record>): seq<Group> {
    SortBy(GroupsOf(FirstOccurrences(Keys(rs)), rs), GroupSortKey)
  }

  /** The summary of a selection of snapshots. */
  function SummaryOf(scope: Scope, scopeId: string, rs: seq<Record>): Summary {
    Summary(scope, scopeId, CanonicalMetrics(rs), CanonicalGroups(rs))
  }
}
