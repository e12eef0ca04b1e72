/** The roll-up check accepts every summary of records: what it derives from the groups
    is what was folded from the records (pmqa/usage/summary.py). */
module UsageAcceptance {
  import opened Wrappers
  import opened Sequences
  import opened Decimals
  import opened Amounts
  import opened UsageRecords
  import opened UsageTotals
  import opened UsageSummary
  import opened UsageLevels
  import opened UsageRollup

  // ----- columns of integers -----

  function CountMeasure(f: CountField): Measure {
    match f
    case CountField => Invocations
    case SucceededField => WithStatus(Succeeded)
    case FailedField => WithStatus(Failed)
    case CancelledField => WithStatus(Cancelled)
    case RetryField => Retries
    case FallbackField => Fallbacks
    case DurationField => Duration
  }

  function TokenMeasure(field: TokenField, c: TokenColumn): Measure {
    match c
    case ObservedColumn => Observed(field)
    case UnavailableColumn => Missing(field)
    case TotalColumn => Tokens(field)
  }

  /** A column that holds a measure of every group sums to the measure of the groups. */
  lemma {:induction false} ColumnSum(values: seq<nat>, ks: seq<GroupKey>, m: Measure, rs: seq<Record>)
    requires |values| == |ks| && forall i :: 0 <= i < |ks| ==> values[i] == Total(m, Select(rs, ks[i]))
    ensures Sum(values) == GroupsTotal(ks, m, rs)
  {
    hide Total, Select;
    if ks != [] {
      ColumnSum(values[..|ks| - 1], ks[..|ks| - 1], m, rs);
    }
  }

  lemma LevelCount(rs: seq<Record>, f: CountField)
    requires AllSnapshots(rs)
    ensures CountIn(CanonicalMetrics(rs), f) == Total(CountMeasure(f), rs)
  {
    hide SortBy, Total;
    CountLaws(rs);
  }

  lemma {:induction false} NoneObserved(field: TokenField, rs: seq<Record>)
    requires Total(Observed(field), rs) == 0
    ensures Total(Tokens(field), rs) == 0
  {
    if rs != [] {
      NoneObserved(field, rs[..|rs| - 1]);
    }
  }

  lemma LevelToken(rs: seq<Record>, field: TokenField, c: TokenColumn)
    ensures |CanonicalMetrics(rs).tokens| == 4 && TokenIn(CanonicalMetrics(rs), field) == TokenOf(field, rs)
    ensures TokenValue(TokenIn(CanonicalMetrics(rs), field), c) == Total(TokenMeasure(field, c), rs)
  {
    hide Total, SortBy;
    if Total(Observed(field), rs) == 0 {
      NoneObserved(field, rs);
    }
  }

  lemma {:induction false} SumPositive(s: seq<nat>)
    ensures Sum(s) > 0 <==> exists i :: 0 <= i < |s| && s[i] > 0
  {
    if s != [] {
      SumPositive(s[..|s| - 1]);
      assert s == s[..|s| - 1] + [s[|s| - 1]];
    }
  }

  lemma CountsRollUp(rs: seq<Record>, f: CountField)
    requires Summable(rs)
    ensures Sum(Column(CanonicalGroups(rs), f)) == CountIn(CanonicalMetrics(rs), f)
  {
    var gs := CanonicalGroups(rs);
    var ks := GroupKeys(gs);
    GroupsMeaning(rs);
    LevelCount(rs, f);
    hide CanonicalMetrics, CanonicalGroups;
    forall i | 0 <= i < |ks| ensures Column(gs, f)[i] == Total(CountMeasure(f), Select(rs, ks[i])) {
      GroupSummable(rs, ks[i]);
      LevelCount(Select(rs, ks[i]), f);
    }
    ColumnSum(Column(gs, f), ks, CountMeasure(f), rs);
    GroupsMakeTotal(ks, CountMeasure(f), rs);
  }

  lemma GroupsHaveTokens(rs: seq<Record>)
    requires Summable(rs)
    ensures FourTokens(CanonicalGroups(rs))
  {
    GroupsMeaning(rs);
    var gs := CanonicalGroups(rs);
    forall g | g in gs ensures |g.metrics.tokens| == 4 {
      var i :| 0 <= i < |gs| && gs[i] == g;
    }
  }

  lemma TokenColumnsRollUp(rs: seq<Record>, field: TokenField, c: TokenColumn)
    requires Summable(rs) && FourTokens(CanonicalGroups(rs))
    ensures Sum(TokenColumnOf(CanonicalGroups(rs), field, c)) == Total(TokenMeasure(field, c), rs)
  {
    var gs := CanonicalGroups(rs);
    var ks := GroupKeys(gs);
    GroupsMeaning(rs);
    hide CanonicalMetrics, CanonicalGroups;
    forall i | 0 <= i < |ks| ensures TokenColumnOf(gs, field, c)[i] == Total(TokenMeasure(field, c),
                                                                             Select(rs, ks[i])) {
      LevelToken(Select(rs, ks[i]), field, c);
    }
    ColumnSum(TokenColumnOf(gs, field, c), ks, TokenMeasure(field, c), rs);
    GroupsMakeTotal(ks, TokenMeasure(field, c), rs);
  }

  lemma AnyTotalObserved(gs: seq<Group>, field: TokenField)
    requires FourTokens(gs)
    requires forall i :: 0 <= i < |gs| ==>
               (TokenIn(gs[i].metrics, field).total.Some? <==> TokenIn(gs[i].metrics, field).observed > 0)
    ensures AnyTotal(gs, field) <==> Sum(TokenColumnOf(gs, field, ObservedColumn)) > 0
  {
    var column := TokenColumnOf(gs, field, ObservedColumn);
    SumPositive(column);
    hide Sum, TokenIn;
    assert forall i :: 0 <= i < |gs| ==> gs[i] in gs;
    if AnyTotal(gs, field) {
      var g :| g in gs && TokenIn(g.metrics, field).total.Some?;
      var i :| 0 <= i < |gs| && gs[i] == g;
      assert column[i] > 0;
    }
  }

  /** A group has a total exactly when it observed a count. */
  lemma TotalsObserved(rs: seq<Record>, field: TokenField)
    requires Summable(rs) && FourTokens(CanonicalGroups(rs))
    ensures AnyTotal(CanonicalGroups(rs), field) <==> Total(Observed(field), rs) > 0
  {
    hide CanonicalMetrics, CanonicalGroups, Summable, Select, Total, Sum, AnyTotal;
    var gs := CanonicalGroups(rs);
    TokenColumnsRollUp(rs, field, ObservedColumn);
    GroupsMeaning(rs);
    forall i | 0 <= i < |gs|
      ensures TokenIn(gs[i].metrics, field).total.Some? <==> TokenIn(gs[i].metrics, field).observed > 0
    {
      LevelToken(Select(rs, gs[i].key), field, ObservedColumn);
    }
    AnyTotalObserved(gs, field);
  }

  lemma TokensRollUp(scope: Scope, id: string, rs: seq<Record>, field: TokenField)
    requires Summable(rs) && FourTokens(CanonicalGroups(rs))
    ensures TokenRollup(SummaryOf(scope, id, rs), field)
  {
    hide CanonicalGroups, Summable, Sum, Total;
    LevelToken(rs, field, ObservedColumn);
    TokenColumnsRollUp(rs, field, ObservedColumn);
    TokenColumnsRollUp(rs, field, UnavailableColumn);
    TokenColumnsRollUp(rs, field, TotalColumn);
    TotalsObserved(rs, field);
  }

  // ----- buckets of many groups -----

  datatype Part = CountPart | UnitsPart

  function PartOf(p: Part, id: CostIdentity, b: Bucket): nat {
    if b.identity != id then 0
    else
      match p
      case CountPart => b.count
      case UnitsPart => AmountUnits(b.amount)
  }

  function PartTotal(p: Part, id: CostIdentity, bs: seq<Bucket>): nat {
    if bs == [] then 0 else PartTotal(p, id, bs[..|bs| - 1]) + PartOf(p, id, bs[|bs| - 1])
  }

  function PartFraction(id: CostIdentity, bs: seq<Bucket>): (f: nat) {
    if bs == [] then 0
    else
      var b := bs[|bs| - 1];
      Max(PartFraction(id, bs[..|bs| - 1]), if b.identity == id then AmountFraction(b.amount) else 0)
  }

  function PartMeasure(p: Part, id: CostIdentity): Measure {
    match p
    case CountPart => InBucket(id)
    case UnitsPart => BucketUnits(id)
  }

  lemma {:induction false} PartAppend(p: Part, id: CostIdentity, a: seq<Bucket>, b: seq<Bucket>)
    ensures PartTotal(p, id, a + b) == PartTotal(p, id, a) + PartTotal(p, id, b)
    ensures PartFraction(id, a + b) == Max(PartFraction(id, a), PartFraction(id, b))
    decreases |b|
  {
    hide PartOf, AmountFraction;
    if b == [] {
      assert a + b == a;
    } else {
      PartAppend(p, id, a, b[..|b| - 1]);
      assert (a + b)[..|a + b| - 1] == a + b[..|b| - 1];
    }
  }

  lemma {:induction false} PartAbsent(p: Part, id: CostIdentity, bs: seq<Bucket>)
    requires id !in BucketIds(bs)
    ensures PartTotal(p, id, bs) == 0 && PartFraction(id, bs) == 0
  {
    if bs != [] {
      forall i | 0 <= i < |bs| ensures bs[i].identity != id {
        assert BucketIds(bs)[i] in BucketIds(bs);
      }
      assert forall i :: 0 <= i < |bs| - 1 ==> BucketIds(bs[..|bs| - 1])[i] == bs[i].identity;
      PartAbsent(p, id, bs[..|bs| - 1]);
    }
  }

  /** Among distinct identities, one bucket holds the whole part. */
  lemma {:induction false} PartSingle(p: Part, bs: seq<Bucket>, j: nat)
    requires j < |bs| && Distinct(BucketIds(bs))
    ensures PartTotal(p, bs[j].identity, bs) == PartOf(p, bs[j].identity, bs[j])
    ensures PartFraction(bs[j].identity, bs) == AmountFraction(bs[j].amount)
  {
    hide AmountFraction;
    var init, id := bs[..|bs| - 1], bs[j].identity;
    assert BucketIds(init) == BucketIds(bs)[..|init|];
    if j == |init| {
      forall i | 0 <= i < |init| ensures BucketIds(init)[i] != id {
        assert BucketIds(bs)[i] != BucketIds(bs)[j];
      }
      PartAbsent(p, id, init);
    } else {
      PartSingle(p, init, j);
      assert BucketIds(bs)[j] != BucketIds(bs)[|init|];
    }
  }

  lemma {:induction false} AbsentTotal(p: Part, id: CostIdentity, rs: seq<Record>)
    requires id !in Identities(rs)
    ensures Total(PartMeasure(p, id), rs) == 0
  {
    if rs != [] {
      assert Identities(rs)[|rs| - 1] == IdentityOf(rs[|rs| - 1].cost);
      assert Identities(rs[..|rs| - 1]) == Identities(rs)[..|rs| - 1];
      AbsentTotal(p, id, rs[..|rs| - 1]);
    }
  }

  lemma {:induction false} NonMonetaryUnits(id: CostIdentity, rs: seq<Record>)
    requires AllSnapshots(rs) && !IsMonetary(id.kind)
    ensures Total(BucketUnits(id), rs) == 0
  {
    if rs != [] {
      NonMonetaryUnits(id, rs[..|rs| - 1]);
      assert IsSnapshot(rs[|rs| - 1]);
    }
  }

  /** A stored bucket holds its identity's count, units and no longer a fraction. */
  lemma StoredBucketParts(id: CostIdentity, rs: seq<Record>)
    requires Summable(rs) && id in Identities(rs)
    ensures var b := ReadBucket(BucketOf(id, rs));
            && PartOf(CountPart, id, b) == Total(InBucket(id), rs)
            && PartOf(UnitsPart, id, b) == Total(BucketUnits(id), rs)
            && AmountFraction(b.amount) <= LongestFraction(id, rs)
            && b.amount.Some? == IsMonetary(id.kind)
            && (b.amount.Some? ==> IsSummand(b.amount.value))
  {
    InFirstOccurrences(id, Identities(rs));
    assert BucketFits(id, rs);
    if IsMonetary(id.kind) {
      BucketHoldsSum(id, rs);
      SnapshotSummand(BucketAmount(id, rs).value);
    } else {
      NonMonetaryUnits(id, rs);
    }
  }

  /** The buckets of one level hold the parts of its records. */
  lemma LevelParts(p: Part, id: CostIdentity, rs: seq<Record>)
    requires Summable(rs)
    ensures PartTotal(p, id, CanonicalMetrics(rs).buckets) == Total(PartMeasure(p, id), rs)
    ensures PartFraction(id, CanonicalMetrics(rs).buckets) <= LongestFraction(id, rs)
  {
    BucketsMeaning(rs);
    var bs := CanonicalMetrics(rs).buckets;
    hide Summable, CanonicalMetrics;
    if id in Identities(rs) {
      assert id in BucketIds(bs);
      var j :| 0 <= j < |bs| && BucketIds(bs)[j] == id;
      PartSingle(p, bs, j);
      StoredBucketParts(id, rs);
    } else {
      forall i | 0 <= i < |bs| ensures BucketIds(bs)[i] != id {
        assert bs[i].identity in Identities(rs);
      }
      PartAbsent(p, id, bs);
      AbsentTotal(p, id, rs);
    }
  }

  /** All groups together hold the parts of all records. */
  lemma {:induction false} GroupsParts(p: Part, id: CostIdentity, gs: seq<Group>, rs: seq<Record>)
    requires Summable(rs) && forall i :: 0 <= i < |gs| ==> gs[i].metrics == CanonicalMetrics(Select(rs, gs[i].key))
    ensures PartTotal(p, id, AllBuckets(gs)) == GroupsTotal(GroupKeys(gs), PartMeasure(p, id), rs)
    ensures PartFraction(id, AllBuckets(gs)) <= LongestFraction(id, rs)
  {
    hide Summable, CanonicalMetrics, PartTotal, Total, Select, LongestFraction;
    if gs == [] {
      PartOfNone(p, id);
    } else {
      var init, g := gs[..|gs| - 1], gs[|gs| - 1];
      GroupsParts(p, id, init, rs);
      assert GroupKeys(gs)[..|init|] == GroupKeys(init);
      var sel := Select(rs, g.key);
      GroupSummable(rs, g.key);
      LevelParts(p, id, sel);
      SelectIsSub(rs, g.key);
      SubSelectionFraction(id, sel, rs);
      PartAppend(p, id, AllBuckets(init), g.metrics.buckets);
    }
  }

  lemma PartOfNone(p: Part, id: CostIdentity)
    ensures PartTotal(p, id, []) == 0 && PartFraction(id, []) == 0
  {}

  lemma CanonicalParts(p: Part, id: CostIdentity, rs: seq<Record>)
    requires Summable(rs)
    ensures PartTotal(p, id, AllBuckets(CanonicalGroups(rs))) == Total(PartMeasure(p, id), rs)
    ensures PartFraction(id, AllBuckets(CanonicalGroups(rs))) <= LongestFraction(id, rs)
  {
    hide CanonicalMetrics, CanonicalGroups;
    GroupsMeaning(rs);
    var gs := CanonicalGroups(rs);
    GroupsParts(p, id, gs, rs);
    GroupsMakeTotal(GroupKeys(gs), PartMeasure(p, id), rs);
  }

  // ----- the derived dictionary -----

  predicate ReadableBucket(b: Bucket) {
    b.amount.Some? == IsMonetary(b.identity.kind) && (b.amount.Some? ==> IsSummand(b.amount.value))
  }

  predicate PartsFit(bs: seq<Bucket>, id: CostIdentity) {
    PartTotal(CountPart, id, bs) <= MAX_SUMMARY_RECORDS && Fits(PartTotal(UnitsPart, id, bs), PartFraction(id, bs))
  }

  /** An entry holds the count and the exact amount of its identity's buckets. */
  predicate EntryHolds(entry: (nat, Option<Decimal>), id: CostIdentity, bs: seq<Bucket>) {
    && entry.0 == PartTotal(CountPart, id, bs)
    && entry.1.Some? == IsMonetary(id.kind)
    && (entry.1.Some? ==>
          IsSummand(entry.1.value)
          && Units(entry.1.value) == PartTotal(UnitsPart, id, bs)
          && -entry.1.value.exponent == PartFraction(id, bs))
  }

  predicate DerivedHolds(d: Derived, bs: seq<Bucket>) {
    d.Keys == Elements(BucketIds(bs)) && forall id :: id in d ==> EntryHolds(d[id], id, bs)
  }

  lemma PartPush(p: Part, id: CostIdentity, bs: seq<Bucket>, b: Bucket)
    ensures PartTotal(p, id, bs + [b]) == PartTotal(p, id, bs) + PartOf(p, id, b)
    ensures PartFraction(id, bs + [b]) == Max(PartFraction(id, bs), if b.identity == id then AmountFraction(b.amount)
                                              else 0)
  {
    assert (bs + [b])[..|bs|] == bs;
  }

  /** Adding a bucket that still fits extends the entry of its identity. */
  lemma AddBucketFits(d: Derived, bs: seq<Bucket>, b: Bucket)
    requires DerivedHolds(d, bs) && ReadableBucket(b) && PartsFit(bs + [b], b.identity)
    ensures AddBucket(d, b).Some? && AddBucket(d, b).value.Keys == d.Keys + {b.identity}
    ensures EntryHolds(AddBucket(d, b).value[b.identity], b.identity, bs + [b])
    ensures forall id :: id in d && id != b.identity ==> AddBucket(d, b).value[id] == d[id]
  {
    hide PartTotal, PartFraction, Units, IsSummand, BoundedAdd, AmountUnits, Fits;
    PartPush(CountPart, b.identity, bs, b);
    PreviousCount(d, bs, b.identity);
    if IsMonetary(b.identity.kind) {
      AddAmountFits(d, bs, b);
    }
  }

  lemma PreviousCount(d: Derived, bs: seq<Bucket>, id: CostIdentity)
    requires DerivedHolds(d, bs)
    ensures Previous(d, id).0 == PartTotal(CountPart, id, bs)
  {
    if id !in d {
      assert id !in Elements(BucketIds(bs));
      PartAbsent(CountPart, id, bs);
    }
  }

  lemma AddAmountFits(d: Derived, bs: seq<Bucket>, b: Bucket)
    requires DerivedHolds(d, bs) && ReadableBucket(b) && PartsFit(bs + [b], b.identity) && IsMonetary(b.identity.kind)
    ensures var r := Running(Previous(d, b.identity).1);
            && IsAmount(r) && IsAmount(b.amount.value)
            && var sum := BoundedAdd(ROLLUP_PRECISION, r, b.amount.value);
               && sum.Some? && IsSummand(sum.value)
               && Units(sum.value) == PartTotal(UnitsPart, b.identity, bs + [b])
               && -sum.value.exponent == PartFraction(b.identity, bs + [b])
  {
    hide PartTotal, PartFraction, Units, DerivedHolds, Running, Fits, BoundedAdd, Previous;
    var id := b.identity;
    PartPush(UnitsPart, id, bs, b);
    RunningHolds(d, bs, id);
    AddExact(ROLLUP_PRECISION, Running(Previous(d, id).1), b.amount.value);
  }

  /** The running amount of an identity, restarted or not, is the exact sum so far. */
  lemma RunningHolds(d: Derived, bs: seq<Bucket>, id: CostIdentity)
    requires DerivedHolds(d, bs) && IsMonetary(id.kind)
    ensures var r := Running(Previous(d, id).1);
            IsSummand(r) && Units(r) == PartTotal(UnitsPart, id, bs) && -r.exponent == PartFraction(id, bs)
  {
    ZeroFits();
    if id !in d {
      assert id !in Elements(BucketIds(bs));
      PartAbsent(UnitsPart, id, bs);
    } else if d[id].1.value.coefficient == 0 {
      ShiftZero(FRACTION_LIMIT);
    }
  }

  lemma IdsPush(bs: seq<Bucket>, b: Bucket)
    ensures Elements(BucketIds(bs + [b])) == Elements(BucketIds(bs)) + {b.identity}
  {
    assert BucketIds(bs + [b]) == BucketIds(bs) + [b.identity];
    ElementsPush(BucketIds(bs), b.identity);
  }

  lemma FitsBefore(bs: seq<Bucket>, b: Bucket, id: CostIdentity)
    requires PartsFit(bs + [b], id)
    ensures PartsFit(bs, id)
  {
    PartPush(CountPart, id, bs, b);
    PartPush(UnitsPart, id, bs, b);
    LengthMonotone(PartTotal(UnitsPart, id, bs), PartFraction(id, bs),
                   PartTotal(UnitsPart, id, bs + [b]), PartFraction(id, bs + [b]));
  }

  /** When every identity's sum fits, the derivation succeeds with the exact sums. */
  lemma {:induction false} DerivationSucceeds(bs: seq<Bucket>)
    requires forall i :: 0 <= i < |bs| ==> ReadableBucket(bs[i])
    requires forall id :: PartsFit(bs, id)
    ensures DerivedCosts(bs).Some? && DerivedHolds(DerivedCosts(bs).value, bs)
  {
    if bs != [] {
      var init, b := bs[..|bs| - 1], bs[|bs| - 1];
      assert bs == init + [b];
      forall id ensures PartsFit(init, id) {
        assert PartsFit(init + [b], id);
        FitsBefore(init, b, id);
      }
      DerivationSucceeds(init);
      var d := DerivedCosts(init).value;
      assert PartsFit(init + [b], b.identity);
      AddBucketFits(d, init, b);
      IdsPush(init, b);
      hide PartsFit, AddBucket, EntryHolds, DerivedCosts;
      OthersKeep(d, AddBucketOf(d, b), init, b);
      DerivedPush(init, b);
    }
  }

  function AddBucketOf(d: Derived, b: Bucket): Derived
    requires AddBucket(d, b).Some?
  {
    AddBucket(d, b).value
  }

  lemma OthersKeep(d: Derived, e: Derived, bs: seq<Bucket>, b: Bucket)
    requires DerivedHolds(d, bs) && e.Keys == d.Keys + {b.identity} && EntryHolds(e[b.identity], b.identity, bs + [b])
    requires forall id :: id in d && id != b.identity ==> e[id] == d[id]
    ensures DerivedHolds(e, bs + [b])
  {
    IdsPush(bs, b);
    forall id | id in e ensures EntryHolds(e[id], id, bs + [b]) {
      if id != b.identity {
        PartPush(CountPart, id, bs, b);
        PartPush(UnitsPart, id, bs, b);
        assert EntryHolds(d[id], id, bs);
      }
    }
  }

  // ----- the cost roll-up of a canonical summary -----

  lemma {:induction false} AllBucketsRead(gs: seq<Group>, rs: seq<Record>)
    requires Summable(rs) && forall i :: 0 <= i < |gs| ==> gs[i].metrics == CanonicalMetrics(Select(rs, gs[i].key))
    ensures forall i :: 0 <= i < |AllBuckets(gs)| ==> ReadableBucket(AllBuckets(gs)[i])
    ensures forall i :: 0 <= i < |AllBuckets(gs)| ==> AllBuckets(gs)[i].identity in Identities(rs)
  {
    hide CanonicalMetrics, Summable, ReadableBucket;
    if gs != [] {
      var init, g := gs[..|gs| - 1], gs[|gs| - 1];
      AllBucketsRead(init, rs);
      GroupSummable(rs, g.key);
      LevelBucketsRead(Select(rs, g.key));
      var bs := g.metrics.buckets;
      forall i | 0 <= i < |bs| ensures bs[i].identity in Identities(rs) {
        var r := IdentityRecord(bs[i].identity, Select(rs, g.key));
        IdentityOccurs(r, rs);
      }
    }
  }

  lemma IdentityRecord(id: CostIdentity, rs: seq<Record>) returns (r: Record)
    requires id in Identities(rs)
    ensures r in rs && IdentityOf(r.cost) == id
  {
    var i :| 0 <= i < |rs| && Identities(rs)[i] == id;
    r := rs[i];
  }

  lemma LevelBucketsRead(rs: seq<Record>)
    requires Summable(rs)
    ensures var bs := CanonicalMetrics(rs).buckets;
            forall i :: 0 <= i < |bs| ==> ReadableBucket(bs[i]) && bs[i].identity in Identities(rs)
  {
    hide CanonicalMetrics, Summable;
    BucketsMeaning(rs);
    var bs := CanonicalMetrics(rs).buckets;
    forall i | 0 <= i < |bs| ensures ReadableBucket(bs[i]) {
      StoredBucketParts(bs[i].identity, rs);
    }
  }

  lemma {:induction false} IdentityInGroups(id: CostIdentity, gs: seq<Group>, rs: seq<Record>, j: nat)
    requires Summable(rs) && j < |gs| && gs[j].metrics == CanonicalMetrics(Select(rs, gs[j].key))
    requires id in Identities(Select(rs, gs[j].key))
    ensures id in BucketIds(AllBuckets(gs))
  {
    hide CanonicalMetrics, Summable;
    var init, g := gs[..|gs| - 1], gs[|gs| - 1];
    assert BucketIds(AllBuckets(gs)) == BucketIds(AllBuckets(init)) + BucketIds(g.metrics.buckets);
    if j < |init| {
      IdentityInGroups(id, init, rs, j);
    } else {
      GroupSummable(rs, g.key);
      BucketsMeaning(Select(rs, g.key));
    }
  }

  lemma RecordInSelection(r: Record, rs: seq<Record>)
    requires r in rs
    ensures r in Select(rs, KeyOf(r)) && IdentityOf(r.cost) in Identities(Select(rs, KeyOf(r)))
  {
    SelectContents(rs, KeyOf(r), r);
    assert r in multiset(rs);
    assert r in multiset(Select(rs, KeyOf(r)));
    IdentityOccurs(r, Select(rs, KeyOf(r)));
  }

  lemma GroupIdentities(rs: seq<Record>)
    requires Summable(rs)
    ensures Elements(BucketIds(AllBuckets(CanonicalGroups(rs)))) == Elements(Identities(rs))
  {
    hide CanonicalMetrics, CanonicalGroups, Summable, Select, KeyOf, IdentityOf, ReadableBucket, AllBuckets;
    var gs := CanonicalGroups(rs);
    GroupsMeaning(rs);
    AllBucketsRead(gs, rs);
    var ids := BucketIds(AllBuckets(gs));
    forall id | id in Identities(rs) ensures id in ids {
      var r := IdentityRecord(id, rs);
      RecordInSelection(r, rs);
      var j :| 0 <= j < |gs| && GroupKeys(gs)[j] == KeyOf(r);
      IdentityInGroups(id, gs, rs, j);
    }
    forall id | id in ids ensures id in Identities(rs) {
      var i :| 0 <= i < |ids| && ids[i] == id;
    }
  }

  /** Summands of equal units are equal decimals. */
  lemma SameUnits(x: Decimal, y: Decimal)
    requires IsSummand(x) && IsSummand(y) && Units(x) == Units(y)
    ensures SameAmount(Some(x), Some(y))
  {
    hide Digits, SerializedLength;
    var e := MinExponent(x, y);
    var k := FRACTION_LIMIT + e;
    ShiftShift(x.coefficient, x.exponent - e, k);
    ShiftShift(y.coefficient, y.exponent - e, k);
    ShiftStrict(Shift(x.coefficient, x.exponent - e), Shift(y.coefficient, y.exponent - e), k);
    ShiftStrict(Shift(y.coefficient, y.exponent - e), Shift(x.coefficient, x.exponent - e), k);
  }

  lemma CanonicalFits(rs: seq<Record>, id: CostIdentity)
    requires Summable(rs)
    ensures PartsFit(AllBuckets(CanonicalGroups(rs)), id)
  {
    CanonicalParts(CountPart, id, rs);
    CanonicalParts(UnitsPart, id, rs);
    FlagTotal(InBucket(id), rs);
    hide CanonicalGroups;
    var bs := AllBuckets(CanonicalGroups(rs));
    if id in Identities(rs) {
      InFirstOccurrences(id, Identities(rs));
      assert BucketFits(id, rs);
      LengthMonotone(PartTotal(UnitsPart, id, bs), PartFraction(id, bs), Total(BucketUnits(id), rs),
                     LongestFraction(id, rs));
    } else {
      AbsentTotal(UnitsPart, id, rs);
      GroupIdentities(rs);
      assert id !in Elements(Identities(rs));
      assert id !in Elements(BucketIds(bs));
      PartAbsent(UnitsPart, id, bs);
      ZeroFits();
    }
  }

  lemma CostsRollUp(scope: Scope, scopeId: string, rs: seq<Record>)
    requires Summable(rs)
    ensures CostRollup(SummaryOf(scope, scopeId, rs))
  {
    var gs, top := CanonicalGroups(rs), CanonicalMetrics(rs).buckets;
    var bs := AllBuckets(gs);
    GroupsMeaning(rs);
    BucketsMeaning(rs);
    hide CanonicalMetrics, CanonicalGroups, Summable, SameAmount, PartsFit;
    AllBucketsRead(gs, rs);
    forall id ensures PartsFit(bs, id) {
      CanonicalFits(rs, id);
    }
    DerivationSucceeds(bs);
    GroupIdentities(rs);
    var d := DerivedCosts(bs).value;
    TopIdentities(top, rs);
    forall i | 0 <= i < |top|
      ensures top[i].identity in d && d[top[i].identity].0 == top[i].count
              && SameAmount(d[top[i].identity].1, top[i].amount)
    {
      assert top[i].identity in Elements(Identities(rs));
      EntryMatches(d, top[i], bs, rs);
    }
  }

  lemma TopIdentities(top: seq<Bucket>, rs: seq<Record>)
    requires forall i :: 0 <= i < |top| ==> top[i].identity in Identities(rs)
    requires forall id :: id in Identities(rs) ==> id in BucketIds(top)
    ensures Elements(BucketIds(top)) == Elements(Identities(rs))
  {
    forall id | id in BucketIds(top) ensures id in Identities(rs) {
      var i :| 0 <= i < |top| && BucketIds(top)[i] == id;
    }
  }

  lemma EntryMatches(d: Derived, b: Bucket, bs: seq<Bucket>, rs: seq<Record>)
    requires Summable(rs) && bs == AllBuckets(CanonicalGroups(rs)) && DerivedHolds(d, bs) && b.identity in d
    requires b.identity in Identities(rs) && b == ReadBucket(BucketOf(b.identity, rs))
    ensures d[b.identity].0 == b.count && SameAmount(d[b.identity].1, b.amount)
  {
    hide CanonicalGroups, Summable;
    var id := b.identity;
    CanonicalParts(CountPart, id, rs);
    CanonicalParts(UnitsPart, id, rs);
    StoredBucketParts(id, rs);
    assert EntryHolds(d[id], id, bs);
    if IsMonetary(id.kind) {
      SameUnits(d[id].1.value, b.amount.value);
    }
  }

  /** The check on the groups never rejects the summary of a selection that did not overflow. */
  lemma RollupAcceptsSummary(scope: Scope, scopeId: string, rs: seq<Record>)
    requires Summable(rs)
    ensures var s := SummaryOf(scope, scopeId, rs);
            FourTokens(s.groups) && |s.metrics.tokens| == 4 && RollupHolds(s)
  {
    hide CanonicalMetrics, CanonicalGroups, Summable;
    GroupsHaveTokens(rs);
    LevelToken(rs, InputTokens, ObservedColumn);
    forall f ensures Sum(Column(CanonicalGroups(rs), f)) == CountIn(CanonicalMetrics(rs), f) {
      CountsRollUp(rs, f);
    }
    forall field ensures TokenRollup(SummaryOf(scope, scopeId, rs), field) {
      TokensRollUp(scope, scopeId, rs, field);
    }
    CostsRollUp(scope, scopeId, rs);
  }
}
