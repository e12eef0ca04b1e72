/** The order in which a stored summary lists its token fields, buckets and groups
    (pmqa/usage/summary.py), said of their own fields. */
module SummaryOrder {
  import opened Wrappers
  import opened Sequences
  import opened Decimals
  import opened UsageRecords
  import opened UsageTotals
  import opened UsageSummary
  import opened UsageLevels
  import opened UsageAggregator

  /** The usual order of texts: at the first difference the smaller character, or the end, comes
      first. */
  predicate Precedes(a: string, b: string) {
    exists k :: 0 <= k <= |a| && PrecedesAt(a, b, k)
  }

  predicate PrecedesAt(a: string, b: string, k: nat) {
    && k <= |a| && k < |b| && a[..k] == b[..k] && (k == |a| || a[k] < b[k])
  }

  lemma {:induction false} TextLessMeans(a: string, b: string)
    ensures TextLess(a, b) <==> Precedes(a, b)
  {
    if a == [] || b == [] || a[0] != b[0] {
      FirstDiffers(a, b);
    } else {
      TextLessMeans(a[1..], b[1..]);
      TailPrecedes(a, b);
    }
  }

  lemma FirstDiffers(a: string, b: string)
    requires a == [] || b == [] || a[0] != b[0]
    ensures TextLess(a, b) <==> Precedes(a, b)
  {
    forall k | 0 < k <= |a| && k < |b| ensures a[..k] != b[..k] {
      assert a[..k][0] == a[0] && b[..k][0] == b[0];
    }
    assert PrecedesAt(a, b, 0) <==> b != [] && (a == [] || a[0] < b[0]);
  }

  lemma TailPrecedes(a: string, b: string)
    requires a != [] && b != [] && a[0] == b[0]
    ensures Precedes(a, b) <==> Precedes(a[1..], b[1..])
  {
    forall k | 0 <= k <= |a[1..]| ensures PrecedesAt(a[1..], b[1..], k) <==> PrecedesAt(a, b, k + 1) {
      assert k + 1 <= |b| ==> a[..k + 1] == [a[0]] + a[1..][..k] && b[..k + 1] == [b[0]] + b[1..][..k];
    }
    assert !PrecedesAt(a, b, 0);
    if k :| 0 <= k <= |a| && PrecedesAt(a, b, k) {
      assert PrecedesAt(a[1..], b[1..], k - 1);
    }
    if k :| 0 <= k <= |a[1..]| && PrecedesAt(a[1..], b[1..], k) {
      assert PrecedesAt(a, b, k + 1);
    }
  }

  /** An absent text comes first. */
  predicate Below(a: Option<string>, b: Option<string>) {
    b.Some? && (a.None? || TextLess(a.value, b.value))
  }

  predicate Proper(a: Option<string>) {
    a.Some? ==> a.value != ""
  }

  lemma OptionOrder(a: Option<string>, b: Option<string>)
    requires Proper(a) && Proper(b)
    ensures TextLess(TextOrEmpty(a), TextOrEmpty(b)) <==> Below(a, b)
    ensures TextOrEmpty(a) == TextOrEmpty(b) <==> a == b
  {}

  // ----- buckets -----

  function KindRank(kind: CostType): nat {
    match kind
    case ProviderReportedCost => 0
    case EstimatedCost => 1
    case SubscriptionIncluded => 2
    case UnavailableCost => 3
  }

  /** Reasons by name; an absent reason comes first. */
  function ReasonRank(reason: Option<UnavailableReason>): nat {
    match reason
    case None => 0
    case Some(NotCollected) => 1
    case Some(NotReported) => 2
    case Some(NotSupported) => 3
    case Some(ParsingFailed) => 4
  }

  lemma KindOrder(a: CostType, b: CostType)
    ensures TextLess(CostOrder(a), CostOrder(b)) <==> KindRank(a) < KindRank(b)
    ensures CostOrder(a) == CostOrder(b) <==> a == b
  {}

  lemma ReasonOrder(a: Option<UnavailableReason>, b: Option<UnavailableReason>)
    ensures TextLess(ReasonText(a), ReasonText(b)) <==> ReasonRank(a) < ReasonRank(b)
    ensures ReasonText(a) == ReasonText(b) <==> a == b
  {
    ReasonTextInjective(a, b);
    NamesInOrder();
    TextOrder(ReasonText(a), ReasonText(b));
    hide TextLess;
  }

  lemma NamesInOrder()
    ensures TextLess("not_collected", "not_reported") && TextLess("not_reported", "not_supported")
    ensures TextLess("not_collected", "not_supported") && TextLess("not_collected", "parsing_failed")
    ensures TextLess("not_reported", "parsing_failed") && TextLess("not_supported", "parsing_failed")
    ensures TextLess("", "not_collected") && TextLess("", "not_reported")
    ensures TextLess("", "not_supported") && TextLess("", "parsing_failed")
  {
    Four("not_collected", "not_reported");
    Four("not_reported", "not_supported");
    Four("not_collected", "not_supported");
    Precede("not_collected", "not_reported", 4);
    Precede("not_reported", "not_supported", 4);
    Precede("not_collected", "not_supported", 4);
    Precede("not_collected", "parsing_failed", 0);
    Precede("not_reported", "parsing_failed", 0);
    Precede("not_supported", "parsing_failed", 0);
  }

  lemma Four(a: string, b: string)
    requires |a| > 4 && |b| > 4 && a[0] == b[0] && a[1] == b[1] && a[2] == b[2] && a[3] == b[3]
    ensures a[..4] == b[..4]
  {}

  lemma Precede(a: string, b: string, k: nat)
    requires PrecedesAt(a, b, k)
    ensures TextLess(a, b)
  {
    TextLessMeans(a, b);
  }

  /** Buckets in the order of their kinds, then by currency, pricing source, version and instant
      text, then by reason. */
  predicate BucketBefore(a: CostIdentity, b: CostIdentity) {
    || KindRank(a.kind) < KindRank(b.kind)
    || (a.kind == b.kind
        && (|| Below(a.currency, b.currency)
            || (a.currency == b.currency
                && (|| Below(a.sourceId, b.sourceId)
                    || (a.sourceId == b.sourceId && LaterFieldsBefore(a, b))))))
  }

  predicate LaterFieldsBefore(a: CostIdentity, b: CostIdentity) {
    || Below(a.version, b.version)
    || (a.version == b.version
        && (|| TextLess(TimeOrEmpty(a.effectiveAt), TimeOrEmpty(b.effectiveAt))
            || (TimeOrEmpty(a.effectiveAt) == TimeOrEmpty(b.effectiveAt)
                && ReasonRank(a.reason) < ReasonRank(b.reason))))
  }

  lemma KeyStep(k: SortKey, l: SortKey)
    requires |k| == |l| > 0
    ensures KeyLess(k, l) <==> TextLess(k[0], l[0]) || (k[0] == l[0] && KeyLess(k[1..], l[1..]))
  {}

  lemma LastStep(k: string, l: string)
    ensures KeyLess([k], [l]) <==> TextLess(k, l)
  {
    assert [k][1..] == [] && [l][1..] == [];
  }

  lemma LaterOrder(a: CostIdentity, b: CostIdentity)
    requires Proper(a.version) && Proper(b.version)
    ensures KeyLess([TextOrEmpty(a.version), TimeOrEmpty(a.effectiveAt), ReasonText(a.reason)],
                    [TextOrEmpty(b.version), TimeOrEmpty(b.effectiveAt), ReasonText(b.reason)])
            <==> LaterFieldsBefore(a, b)
  {
    hide KeyLess, TextLess, TimeOrEmpty;
    var k := [TextOrEmpty(a.version), TimeOrEmpty(a.effectiveAt), ReasonText(a.reason)];
    var l := [TextOrEmpty(b.version), TimeOrEmpty(b.effectiveAt), ReasonText(b.reason)];
    OptionOrder(a.version, b.version);
    ReasonOrder(a.reason, b.reason);
    hide TextOrEmpty, ReasonText, Below, ReasonRank;
    KeyStep(k, l);
    KeyStep(k[1..], l[1..]);
    LastStep(k[2], l[2]);
    assert k[1..][1..] == [k[2]] && l[1..][1..] == [l[2]];
  }

  lemma IdentityOrder(a: CostIdentity, x: bool, b: CostIdentity, y: bool)
    requires ValidIdentity(a, x) && ValidIdentity(b, y)
    ensures KeyLess(IdentityKey(a), IdentityKey(b)) <==> BucketBefore(a, b)
  {
    ProperFields(a, x);
    ProperFields(b, y);
    hide KeyLess, TextLess, TimeOrEmpty, ValidIdentity;
    var k, l := IdentityKey(a), IdentityKey(b);
    KindOrder(a.kind, b.kind);
    OptionOrder(a.currency, b.currency);
    OptionOrder(a.sourceId, b.sourceId);
    LaterOrder(a, b);
    assert k[1..][1..][1..] == [TextOrEmpty(a.version), TimeOrEmpty(a.effectiveAt), ReasonText(a.reason)];
    assert l[1..][1..][1..] == [TextOrEmpty(b.version), TimeOrEmpty(b.effectiveAt), ReasonText(b.reason)];
    assert k[1] == TextOrEmpty(a.currency) && k[2] == TextOrEmpty(a.sourceId) && k[0] == CostOrder(a.kind);
    assert l[1] == TextOrEmpty(b.currency) && l[2] == TextOrEmpty(b.sourceId) && l[0] == CostOrder(b.kind);
    hide TextOrEmpty, ReasonText, Below, ReasonRank, KindRank, CostOrder, LaterFieldsBefore, IdentityKey;
    KeyStep(k, l);
    KeyStep(k[1..], l[1..]);
    KeyStep(k[1..][1..], l[1..][1..]);
  }

  lemma ProperFields(id: CostIdentity, x: bool)
    requires ValidIdentity(id, x)
    ensures Proper(id.currency) && Proper(id.sourceId) && Proper(id.version)
  {
    hide ValidTimestamp;
  }

  // ----- groups -----

  /** Groups by provider, those with a model before those without, by model, then by reason. */
  predicate GroupBefore(a: GroupKey, b: GroupKey) {
    || TextLess(a.provider, b.provider)
    || (a.provider == b.provider
        && (|| (a.model.Some? && b.model.None?)
            || (a.model.Some? && b.model.Some? && TextLess(a.model.value, b.model.value))
            || (a.model == b.model && ReasonRank(a.modelReason) < ReasonRank(b.modelReason))))
  }

  lemma GroupOrder(a: Group, b: Group)
    requires Proper(a.key.model) && Proper(b.key.model)
    ensures KeyLess(GroupSortKey(a), GroupSortKey(b)) <==> GroupBefore(a.key, b.key)
  {
    var k, l := GroupSortKey(a), GroupSortKey(b);
    assert TextLess("0", "1") && !TextLess("1", "0") && !TextLess("0", "0") && !TextLess("1", "1");
    assert k[1..][1..][1..] == [k[3]] && l[1..][1..][1..] == [l[3]];
    OptionOrder(a.key.model, b.key.model);
    ReasonOrder(a.key.modelReason, b.key.modelReason);
    hide KeyLess, TextLess, ReasonText, ReasonRank, TextOrEmpty;
    KeyStep(k, l);
    KeyStep(k[1..], l[1..]);
    KeyStep(k[1..][1..], l[1..][1..]);
    LastStep(k[3], l[3]);
  }

  // ----- the stored summary -----

  /** A stored summary lists its token fields, buckets and groups in these orders. */
  predicate Ordered(m: Metrics) {
    && Fields(m.tokens) == [InputTokens, OutputTokens, CachedInputTokens, TotalTokens]
    && forall i, j :: 0 <= i < j < |m.buckets| ==> BucketBefore(m.buckets[i].identity, m.buckets[j].identity)
  }

  lemma LevelOrdered(rs: seq<Record>)
    requires Summable(rs)
    ensures Ordered(CanonicalMetrics(rs))
  {
    BucketsMeaning(rs);
    StoredBucketsAccepted(rs);
    var bs := CanonicalMetrics(rs).buckets;
    assert Fields(CanonicalMetrics(rs).tokens) == TOKEN_FIELDS;
    hide Summable, CanonicalMetrics, BucketKey, KeyLess, BucketBefore, ValidIdentity, SnapshotBuckets;
    forall i, j | 0 <= i < j < |bs| ensures BucketBefore(bs[i].identity, bs[j].identity) {
      BucketIsValid(rs, i);
      BucketIsValid(rs, j);
      KeysOf(bs[i], bs[j]);
      IdentityOrder(bs[i].identity, bs[i].amount.Some?, bs[j].identity, bs[j].amount.Some?);
    }
  }

  lemma KeysOf(a: Bucket, b: Bucket)
    ensures KeyLess(BucketKey(a), BucketKey(b)) <==> KeyLess(IdentityKey(a.identity), IdentityKey(b.identity))
  {}

  lemma BucketIsValid(rs: seq<Record>, i: nat)
    requires Summable(rs) && i < |CanonicalMetrics(rs).buckets|
    ensures var b := CanonicalMetrics(rs).buckets[i];
            ValidIdentity(b.identity, b.amount.Some?)
  {
    StoredBucketsAccepted(rs);
    hide Summable, CanonicalMetrics, SortBy, ValidIdentity, SnapshotAmount;
    var bs := CanonicalMetrics(rs).buckets;
    var each := EachOf(bs, BucketContract);
    assert BucketContract(bs[i]) == Some(each.value[i]);
  }

  /** The groups of a stored summary are in order, and so are the buckets of each. */
  lemma SummaryOrdered(rs: seq<Record>)
    requires Summable(rs)
    ensures Ordered(CanonicalMetrics(rs))
    ensures var gs := CanonicalGroups(rs);
            && (forall i :: 0 <= i < |gs| ==> Ordered(gs[i].metrics))
            && (forall i, j :: 0 <= i < j < |gs| ==> GroupBefore(gs[i].key, gs[j].key))
  {
    LevelOrdered(rs);
    GroupsMeaning(rs);
    var gs := CanonicalGroups(rs);
    hide Summable, CanonicalMetrics, CanonicalGroups, Ordered, GroupBefore, GroupSortKey, KeyLess, Select;
    forall i | 0 <= i < |gs| ensures Ordered(gs[i].metrics) {
      GroupSummable(rs, gs[i].key);
      LevelOrdered(Select(rs, gs[i].key));
    }
    forall i, j | 0 <= i < j < |gs| ensures GroupBefore(gs[i].key, gs[j].key) {
      ProperModel(rs, gs[i].key);
      ProperModel(rs, gs[j].key);
      GroupOrder(gs[i], gs[j]);
    }
  }

  lemma ProperModel(rs: seq<Record>, k: GroupKey)
    requires Summable(rs) && k in Keys(rs)
    ensures Proper(k.model)
  {
    hide Overflows;
    var i :| 0 <= i < |rs| && Keys(rs)[i] == k;
    assert IsSnapshot(rs[i]);
  }

  /** The summary of any accepted request is in these orders, at every level. */
  lemma SummaryIsOrdered(records: seq<Record>, scope: Scope, scopeId: string)
    requires SummaryFor(records, scope, scopeId).Ok?
    ensures var s := SummaryFor(records, scope, scopeId).value;
            && Ordered(s.metrics)
            && (forall i :: 0 <= i < |s.groups| ==> Ordered(s.groups[i].metrics))
            && (forall i, j :: 0 <= i < j < |s.groups| ==> GroupBefore(s.groups[i].key, s.groups[j].key))
  {
    hide Overflows, SnapshotRecord, CanonicalMetrics, CanonicalGroups, Ordered, GroupBefore, ValidIdentifier;
    var rs := EachOf(records, SnapshotRecord).value;
    SnapshotsValid(records);
    assert Summable(rs);
    SummaryOrdered(rs);
  }
}
