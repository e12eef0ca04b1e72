/** Why the validators accept every level that the records describe: the bounds of the
    fold carry over to the buckets, and sorting and re-reading a level twice changes nothing. */
module UsageLevels {
  import opened Wrappers
  import opened Sequences
  import opened Decimals
  import opened Amounts
  import opened UsageRecords
  import opened UsageTotals
  import opened UsageSummary

  /** Selections that summarize works on after its checks. */
  predicate Summable(rs: seq<Record>) {
    AllSnapshots(rs) && |rs| <= MAX_SUMMARY_RECORDS && !Overflows(rs)
  }

  // ----- the amounts of one identity -----

  function AmountsOf(id: CostIdentity, rs: seq<Record>): (ds: seq<Decimal>)
    requires AllSnapshots(rs)
    ensures AllSummands(ds)
  {
    if rs == [] then []
    else
      var r := rs[|rs| - 1];
      var ds := AmountsOf(id, rs[..|rs| - 1]);
      assert IsSnapshot(r);
      if IdentityOf(r.cost) == id && r.cost.amount.Some? then ds + [r.cost.amount.value] else ds
  }

  lemma AmountWeight(id: CostIdentity, r: Record)
    requires IsSnapshot(r)
    ensures var own := IdentityOf(r.cost) == id && r.cost.amount.Some?;
            && Weight(BucketUnits(id), r) == (if own then Units(r.cost.amount.value) else 0)
            && Fraction(id, r) == (if own then -r.cost.amount.value.exponent else 0)
  {}

  lemma SumPush(ds: seq<Decimal>, d: Decimal)
    requires AllSummands(ds) && IsSummand(d)
    ensures AllSummands(ds + [d]) && SumUnits(ds + [d]) == SumUnits(ds) + Units(d)
    ensures MaxFraction(ds + [d]) == Max(MaxFraction(ds), -d.exponent)
  {
    assert (ds + [d])[..|ds|] == ds;
  }

  lemma {:induction false} AmountsSum(id: CostIdentity, rs: seq<Record>)
    requires AllSnapshots(rs)
    ensures SumUnits(AmountsOf(id, rs)) == Total(BucketUnits(id), rs)
    ensures MaxFraction(AmountsOf(id, rs)) == LongestFraction(id, rs)
  {
    hide ValidRecord, Units, Weight, Fraction, SumUnits, MaxFraction;
    if rs == [] {
      SumOfNone();
    } else {
      var init, r := SplitLast(rs);
      AmountsSum(id, init);
      assert IsSnapshot(r);
      AmountWeight(id, r);
      hide IsSummand;
      if r.cost.amount.Some? {
        SumPush(AmountsOf(id, init), r.cost.amount.value);
      }
    }
  }

  lemma SumOfNone()
    ensures SumUnits([]) == 0 && MaxFraction([]) == 0
  {}

  /** A bucket that fits holds exactly the sum of its amounts, within the contract's bounds. */
  lemma BucketHoldsSum(id: CostIdentity, rs: seq<Record>)
    requires AllSnapshots(rs) && BucketFits(id, rs)
    ensures var d := AmountOf(Total(BucketUnits(id), rs), LongestFraction(id, rs));
            IsSummand(d) && Units(d) == Total(BucketUnits(id), rs) && CanonicalDecimal(FromDecimal(d)) == Some(d)
  {
    AmountsSum(id, rs);
    FoldIsSum(AGGREGATE_PRECISION, AmountsOf(id, rs));
    FoldUnits(AGGREGATE_PRECISION, AmountsOf(id, rs));
  }

  lemma SnapshotAmountTwice(amount: Option<Decimal>)
    requires AdmittedAmount(amount)
    ensures AdmittedAmount(SnapshotAmount(amount)) && SnapshotAmount(SnapshotAmount(amount)) == SnapshotAmount(amount)
    ensures SnapshotAmount(amount).Some? == amount.Some?
  {
    if amount.Some? {
      AdmittedRoundTrip(FromDecimal(amount.value));
      var s := Serialize(amount.value);
      TextAdmission(s);
      ParsedIsSummand(s);
    }
  }

  /** Re-reading a summand keeps its units and does not lengthen its fraction. */
  lemma SnapshotSummand(d: Decimal)
    requires IsSummand(d)
    ensures AdmittedAmount(Some(d)) && SnapshotAmount(Some(d)).Some?
    ensures var e := SnapshotAmount(Some(d)).value;
            IsSummand(e) && Units(e) == Units(d) && -e.exponent <= -d.exponent
  {
    NormalizeKeepsUnits(d);
    AdmittedRoundTrip(FromDecimal(d));
  }

  // ----- buckets -----

  lemma IdentityWitness(id: CostIdentity, rs: seq<Record>) returns (r: Record)
    requires id in Identities(rs) && AllSnapshots(rs)
    ensures r in rs && IdentityOf(r.cost) == id && ValidIdentity(id, IsMonetary(id.kind))
  {
    var i :| 0 <= i < |rs| && Identities(rs)[i] == id;
    r := rs[i];
    assert IsSnapshot(r);
  }

  lemma {:induction false} PositiveTotal(m: Measure, rs: seq<Record>, r: Record)
    requires r in rs
    ensures Total(m, rs) >= Weight(m, r)
  {
    hide Weight;
    if rs[|rs| - 1] != r {
      var init, last := SplitLast(rs);
      assert r in init;
      PositiveTotal(m, init, r);
    }
  }

  lemma BucketAccepted(id: CostIdentity, rs: seq<Record>)
    requires Summable(rs) && id in Identities(rs)
    ensures BucketContract(BucketOf(id, rs)) == Some(ReadBucket(BucketOf(id, rs)))
  {
    var r := IdentityWitness(id, rs);
    PositiveTotal(InBucket(id), rs, r);
    FlagTotal(InBucket(id), rs);
    InFirstOccurrences(id, Identities(rs));
    assert BucketFits(id, rs);
    BucketHoldsSum(id, rs);
  }

  lemma InFirstOccurrences<T>(x: T, s: seq<T>)
    ensures x in FirstOccurrences(s) <==> x in s
  {
    assert x in Elements(FirstOccurrences(s)) <==> x in Elements(s);
  }

  lemma ReadBucketTwice(b: Bucket)
    requires BucketContract(b).Some?
    ensures BucketContract(b) == Some(ReadBucket(b)) && BucketContract(ReadBucket(b)) == Some(ReadBucket(b))
  {
    SnapshotAmountTwice(b.amount);
  }

  /** Valid buckets with distinct identities have distinct sort keys. */
  lemma BucketsSortApart(bs: seq<Bucket>)
    requires Distinct(BucketIds(bs)) && forall i :: 0 <= i < |bs| ==> BucketContract(bs[i]).Some?
    ensures DistinctKeys(bs, BucketKey)
  {
    forall i, j | 0 <= i < j < |bs| ensures BucketKey(bs[i]) != BucketKey(bs[j]) {
      assert BucketIds(bs)[i] != BucketIds(bs)[j];
      if IdentityKey(bs[i].identity) == IdentityKey(bs[j].identity) {
        IdentityKeyInjective(bs[i].identity, bs[i].amount.Some?, bs[j].identity, bs[j].amount.Some?);
      }
    }
  }

  /** Buckets of a level: accepted, and stored as their sorted, re-read form. */
  lemma RawBucketsAccepted(rs: seq<Record>)
    requires Summable(rs)
    ensures SnapshotBuckets(MetricsOf(rs).buckets) == Some(CanonicalMetrics(rs).buckets)
    ensures StrictlySorted(CanonicalMetrics(rs).buckets, BucketKey)
  {
    var bs := MetricsOf(rs).buckets;
    var read := ReadBuckets(bs);
    forall i | 0 <= i < |bs|
      ensures BucketContract(bs[i]) == Some(read[i]) && BucketContract(read[i]) == Some(read[i])
    {
      var id := FirstOccurrences(Identities(rs))[i];
      InFirstOccurrences(id, Identities(rs));
      BucketAccepted(id, rs);
      ReadBucketTwice(bs[i]);
    }
    EachIs(bs, BucketContract, read);
    assert BucketIds(read) == FirstOccurrences(Identities(rs));
    BucketsSortApart(read);
    SortSorts(read, BucketKey);
  }

  lemma EachIs<T, U>(s: seq<T>, f: T -> Option<U>, r: seq<U>)
    requires |s| == |r| && forall i :: 0 <= i < |s| ==> f(s[i]) == Some(r[i])
    ensures EachOf(s, f) == Some(r)
  {
    var e := EachOf(s, f);
    assert e.Some?;
    assert forall i :: 0 <= i < |s| ==> f(s[i]) == Some(e.value[i]);
    assert e.value == r;
  }

  lemma BucketIdsDistinct(bs: seq<Bucket>)
    requires StrictlySorted(bs, BucketKey)
    ensures Distinct(BucketIds(bs))
  {
    forall i, j | 0 <= i < j < |bs| ensures BucketIds(bs)[i] != BucketIds(bs)[j] {
      KeyOrder(BucketKey(bs[i]), BucketKey(bs[j]));
    }
  }

  /** Buckets that rearrange those of the given identities. */
  lemma RearrangedBuckets(bs: seq<Bucket>, read: seq<Bucket>, ids: seq<CostIdentity>, rs: seq<Record>)
    requires |read| == |ids| && forall i :: 0 <= i < |ids| ==>
             read[i] == ReadBucket(BucketOf(ids[i], rs)) && read[i].identity == ids[i]
    requires forall i :: 0 <= i < |bs| ==> bs[i] in read
    requires forall i :: 0 <= i < |read| ==> read[i] in bs
    ensures forall i :: 0 <= i < |bs| ==> bs[i] == ReadBucket(BucketOf(bs[i].identity, rs)) && bs[i].identity in ids
    ensures forall id :: id in ids ==> id in BucketIds(bs)
  {
    hide ReadBucket, BucketOf;
    forall i | 0 <= i < |bs|
      ensures bs[i] == ReadBucket(BucketOf(bs[i].identity, rs)) && bs[i].identity in ids
    {
      var j :| 0 <= j < |read| && read[j] == bs[i];
    }
    forall id | id in ids ensures id in BucketIds(bs) {
      var j :| 0 <= j < |ids| && ids[j] == id;
      var i :| 0 <= i < |bs| && bs[i] == read[j];
      assert BucketIds(bs)[i] == id;
    }
  }

  /** The stored buckets: one per identity, in key order, each holding that identity's totals. */
  lemma BucketsMeaning(rs: seq<Record>)
    requires Summable(rs)
    ensures var bs := CanonicalMetrics(rs).buckets;
            && Distinct(BucketIds(bs)) && StrictlySorted(bs, BucketKey)
            && (forall i :: 0 <= i < |bs| ==>
                bs[i] == ReadBucket(BucketOf(bs[i].identity, rs)) && bs[i].identity in Identities(rs))
            && (forall id :: id in Identities(rs) ==> id in BucketIds(bs))
  {
    hide Summable, BucketKey, StrictlySorted, FirstOccurrences, SnapshotBuckets;
    RawBucketsAccepted(rs);
    var read, bs := ReadBuckets(MetricsOf(rs).buckets), CanonicalMetrics(rs).buckets;
    var ids := FirstOccurrences(Identities(rs));
    BucketIdsDistinct(bs);
    SortMembers(read, BucketKey);
    hide SortBy;
    forall i | 0 <= i < |read| ensures read[i] == ReadBucket(BucketOf(ids[i], rs)) && read[i].identity == ids[i] {
      ReadBucketIdentity(BucketOf(ids[i], rs), ids[i], rs);
    }
    RearrangedBuckets(bs, read, ids, rs);
    forall id ensures id in ids <==> id in Identities(rs) {
      InFirstOccurrences(id, Identities(rs));
    }
  }

  lemma ReadBucketIdentity(b: Bucket, id: CostIdentity, rs: seq<Record>)
    requires b == BucketOf(id, rs)
    ensures ReadBucket(b).identity == id
  {}

  lemma StoredBucketsAccepted(rs: seq<Record>)
    requires Summable(rs)
    ensures SnapshotBuckets(CanonicalMetrics(rs).buckets) == Some(CanonicalMetrics(rs).buckets)
  {
    var bs := CanonicalMetrics(rs).buckets;
    RawBucketsAccepted(rs);
    BucketsMeaning(rs);
    SortContents(ReadBuckets(MetricsOf(rs).buckets), BucketKey);
    forall i | 0 <= i < |bs| ensures BucketContract(bs[i]) == Some(bs[i]) {
      BucketAccepted(bs[i].identity, rs);
      ReadBucketTwice(BucketOf(bs[i].identity, rs));
    }
    EachIs(bs, BucketContract, bs);
    SortOfSorted(bs, BucketKey);
  }

  lemma {:induction false} CountsOfBuckets(bs: seq<Bucket>, rs: seq<Record>)
    requires forall i :: 0 <= i < |bs| ==> bs[i].count == Total(InBucket(bs[i].identity), rs)
    ensures BucketCounts(bs) == BucketsTotal(BucketIds(bs), Invocations, rs)
  {
    hide Total, Bucketed;
    if bs != [] {
      CountsOfBuckets(bs[..|bs| - 1], rs);
      BucketCount(bs[|bs| - 1].identity, rs);
      assert BucketIds(bs)[..|bs| - 1] == BucketIds(bs[..|bs| - 1]);
    }
  }

  // ----- tokens -----

  lemma TokenAccepted(field: TokenField, rs: seq<Record>)
    requires Summable(rs)
    ensures TokenContract(TokenOf(field, rs)) == Some(TokenOf(field, rs))
  {
    FlagTotal(Observed(field), rs);
    FlagTotal(Missing(field), rs);
  }

  lemma TokensInOrder(ts: seq<TokenSummary>)
    requires Fields(ts) == TOKEN_FIELDS
    ensures Distinct(Fields(ts)) && SortBy(ts, TokenKey) == ts
  {
    assert forall i :: 0 <= i < 4 ==> ts[i].field == Fields(ts)[i];
    assert StrictlySorted(ts, TokenKey);
    SortOfSorted(ts, TokenKey);
  }

  lemma TokensAccepted(rs: seq<Record>)
    requires Summable(rs)
    ensures SnapshotTokens(TokensOf(rs)) == Some(TokensOf(rs)) && Fields(TokensOf(rs)) == TOKEN_FIELDS
  {
    hide TokenContract, Summable, SortBy;
    var ts := TokensOf(rs);
    forall i | 0 <= i < 4 ensures TokenContract(ts[i]) == Some(ts[i]) {
      TokenAccepted(TOKEN_FIELDS[i], rs);
    }
    EachIs(ts, TokenContract, ts);
    TokensInOrder(ts);
  }

  // ----- whole levels -----

  lemma CanonicalIsValid(rs: seq<Record>)
    requires Summable(rs)
    ensures ValidMetrics(CanonicalMetrics(rs))
  {
    hide Total, Weight, SortBy;
    var m := CanonicalMetrics(rs);
    CountLaws(rs);
    FlagTotal(Retries, rs);
    FlagTotal(Fallbacks, rs);
    TokensAccepted(rs);
    BucketsMeaning(rs);
    CountsOfBuckets(m.buckets, rs);
    forall r | r in rs ensures IdentityOf(r.cost) in BucketIds(m.buckets) {
      var i :| 0 <= i < |rs| && rs[i] == r;
      assert Identities(rs)[i] == IdentityOf(r.cost);
    }
    BucketsMakeTotal(BucketIds(m.buckets), Invocations, rs);
    InvocationsCount(rs);
  }

  /** Both the freshly folded level and the stored one pass every validator of a level,
      and both are stored the same way. */
  lemma LevelAccepted(rs: seq<Record>)
    requires Summable(rs)
    ensures SnapshotMetrics(MetricsOf(rs)) == Some(CanonicalMetrics(rs))
    ensures SnapshotMetrics(CanonicalMetrics(rs)) == Some(CanonicalMetrics(rs))
  {
    CanonicalIsValid(rs);
    TokensAccepted(rs);
    RawBucketsAccepted(rs);
    StoredBucketsAccepted(rs);
  }

  // ----- groups -----

  /** No group overflows when the whole does not. */
  lemma GroupSummable(rs: seq<Record>, k: GroupKey)
    requires Summable(rs)
    ensures Summable(Select(rs, k))
  {
    var sel := Select(rs, k);
    SelectIsSub(rs, k);
    SubSelectionTotal(Duration, sel, rs);
    forall f ensures Total(Tokens(f), sel) <= MAX_USAGE_INTEGER {
      SubSelectionTotal(Tokens(f), sel, rs);
    }
    forall id | id in FirstOccurrences(Identities(sel)) ensures BucketFits(id, sel) {
      InFirstOccurrences(id, Identities(sel));
      var r := IdentityWitness(id, sel);
      IdentityOccurs(r, rs);
      SubSelectionTotal(BucketUnits(id), sel, rs);
      SubSelectionFraction(id, sel, rs);
      LengthMonotone(Total(BucketUnits(id), sel), LongestFraction(id, sel), Total(BucketUnits(id), rs),
                     LongestFraction(id, rs));
    }
  }

  lemma IdentityOccurs(r: Record, rs: seq<Record>)
    requires r in rs
    ensures IdentityOf(r.cost) in Identities(rs) && IdentityOf(r.cost) in FirstOccurrences(Identities(rs))
  {
    var i :| 0 <= i < |rs| && rs[i] == r;
    assert Identities(rs)[i] == IdentityOf(r.cost);
    InFirstOccurrences(IdentityOf(r.cost), Identities(rs));
  }

  lemma KeyOccurs(r: Record, rs: seq<Record>)
    requires r in rs
    ensures KeyOf(r) in Keys(rs) && KeyOf(r) in FirstOccurrences(Keys(rs))
  {
    var i :| 0 <= i < |rs| && rs[i] == r;
    assert Keys(rs)[i] == KeyOf(r);
    InFirstOccurrences(KeyOf(r), Keys(rs));
  }

  lemma KeyWitness(k: GroupKey, rs: seq<Record>) returns (r: Record)
    requires k in Keys(rs)
    ensures r in rs && KeyOf(r) == k && |Select(rs, k)| >= 1
  {
    var i :| 0 <= i < |rs| && Keys(rs)[i] == k;
    r := rs[i];
    SelectContents(rs, k, r);
    assert r in multiset(rs);
    assert r in multiset(Select(rs, k));
  }

  lemma GroupAccepted(k: GroupKey, rs: seq<Record>)
    requires Summable(rs) && k in Keys(rs)
    ensures var sel := Select(rs, k);
            && GroupContract(Group(k, MetricsOf(sel))) == Some(Group(k, CanonicalMetrics(sel)))
            && GroupContract(Group(k, CanonicalMetrics(sel))) == Some(Group(k, CanonicalMetrics(sel)))
  {
    var r := KeyWitness(k, rs);
    assert IsSnapshot(r);
    GroupSummable(rs, k);
    LevelAccepted(Select(rs, k));
  }

  lemma GroupsSortApart(gs: seq<Group>)
    requires Distinct(GroupKeys(gs)) && forall i :: 0 <= i < |gs| ==> ValidKey(gs[i].key)
    ensures DistinctKeys(gs, GroupSortKey)
  {
    forall i, j | 0 <= i < j < |gs| ensures GroupSortKey(gs[i]) != GroupSortKey(gs[j]) {
      assert GroupKeys(gs)[i] != GroupKeys(gs)[j];
      if GroupSortKey(gs[i]) == GroupSortKey(gs[j]) {
        GroupKeyInjective(gs[i], gs[j]);
      }
    }
  }

  /** The groups in first-occurrence order are accepted and stored sorted. */
  lemma GroupsAccepted(rs: seq<Record>)
    requires Summable(rs)
    ensures SnapshotGroups(GroupsOf(FirstOccurrences(Keys(rs)), rs)) == Some(CanonicalGroups(rs))
    ensures StrictlySorted(CanonicalGroups(rs), GroupSortKey)
  {
    var ks := FirstOccurrences(Keys(rs));
    var gs := GroupsOf(ks, rs);
    forall i | 0 <= i < |gs| ensures GroupContract(gs[i]) == Some(gs[i]) {
      InFirstOccurrences(ks[i], Keys(rs));
      GroupAccepted(ks[i], rs);
    }
    EachIs(gs, GroupContract, gs);
    assert GroupKeys(gs) == ks;
    GroupsSortApart(gs);
    SortSorts(gs, GroupSortKey);
  }

  lemma GroupKeysDistinct(gs: seq<Group>)
    requires StrictlySorted(gs, GroupSortKey)
    ensures Distinct(GroupKeys(gs))
  {
    forall i, j | 0 <= i < j < |gs| ensures GroupKeys(gs)[i] != GroupKeys(gs)[j] {
      KeyOrder(GroupSortKey(gs[i]), GroupSortKey(gs[j]));
    }
  }

  /** Groups that rearrange those of the given keys. */
  lemma RearrangedGroups(gs: seq<Group>, raw: seq<Group>, ks: seq<GroupKey>, rs: seq<Record>)
    requires raw == GroupsOf(ks, rs)
    requires forall i :: 0 <= i < |gs| ==> gs[i] in raw
    requires forall i :: 0 <= i < |raw| ==> raw[i] in gs
    ensures forall i :: 0 <= i < |gs| ==>
            gs[i] == Group(gs[i].key, CanonicalMetrics(Select(rs, gs[i].key))) && gs[i].key in ks
    ensures forall k :: k in ks ==> k in GroupKeys(gs)
  {
    hide CanonicalMetrics, Select;
    forall i | 0 <= i < |gs|
      ensures gs[i] == Group(gs[i].key, CanonicalMetrics(Select(rs, gs[i].key))) && gs[i].key in ks
    {
      var j :| 0 <= j < |raw| && raw[j] == gs[i];
    }
    forall k | k in ks ensures k in GroupKeys(gs) {
      var j :| 0 <= j < |ks| && ks[j] == k;
      var i :| 0 <= i < |gs| && gs[i] == raw[j];
      assert GroupKeys(gs)[i] == k;
    }
  }

  /** The stored groups: one per provider/model identity, in key order, each the level of its own
      records. */
  lemma GroupsMeaning(rs: seq<Record>)
    requires Summable(rs)
    ensures var gs := CanonicalGroups(rs);
            && Distinct(GroupKeys(gs)) && StrictlySorted(gs, GroupSortKey)
            && (forall i :: 0 <= i < |gs| ==>
                gs[i] == Group(gs[i].key, CanonicalMetrics(Select(rs, gs[i].key))) && gs[i].key in Keys(rs))
            && (forall r :: r in rs ==> KeyOf(r) in GroupKeys(gs))
  {
    hide Summable, GroupSortKey, StrictlySorted, FirstOccurrences, SnapshotGroups, CanonicalMetrics, Select, KeyOf;
    GroupsAccepted(rs);
    var ks := FirstOccurrences(Keys(rs));
    var raw, gs := GroupsOf(ks, rs), CanonicalGroups(rs);
    GroupKeysDistinct(gs);
    SortMembers(raw, GroupSortKey);
    hide SortBy;
    RearrangedGroups(gs, raw, ks, rs);
    forall k ensures k in ks <==> k in Keys(rs) {
      InFirstOccurrences(k, Keys(rs));
    }
    forall r | r in rs ensures KeyOf(r) in GroupKeys(gs) {
      KeyOccurs(r, rs);
    }
  }

  lemma StoredGroupsAccepted(rs: seq<Record>)
    requires Summable(rs)
    ensures SnapshotGroups(CanonicalGroups(rs)) == Some(CanonicalGroups(rs))
  {
    var gs := CanonicalGroups(rs);
    GroupsAccepted(rs);
    GroupsMeaning(rs);
    SortContents(GroupsOf(FirstOccurrences(Keys(rs)), rs), GroupSortKey);
    forall i | 0 <= i < |gs| ensures GroupContract(gs[i]) == Some(gs[i]) {
      GroupAccepted(gs[i].key, rs);
    }
    EachIs(gs, GroupContract, gs);
    SortOfSorted(gs, GroupSortKey);
  }
}
