/** What the roll-up check of a summary decides (pmqa/usage/summary.py), in sums over the groups'
    own fields: it accepts exactly the summaries whose top level adds up. */
module RollupMeaning {
  import opened Wrappers
  import opened Sequences
  import opened Decimals
  import opened Amounts
  import opened UsageRecords
  import opened UsageTotals
  import opened UsageSummary
  import opened UsageLevels
  import opened UsageRollup
  import opened UsageAcceptance
  import opened SummaryMeaning

  // ----- integers -----

  lemma {:induction false} SumIsAdded(s: seq<nat>, n: seq<int>)
    requires |s| == |n| && forall i :: 0 <= i < |s| ==> s[i] == n[i]
    ensures Sum(s) == Added(n)
  {
    if s != [] {
      SumIsAdded(s[..|s| - 1], n[..|n| - 1]);
    }
  }

  /** Each counter of the top level is the sum of the groups'. */
  predicate CountersAddUp(m: Metrics, gs: seq<Group>) {
    && m.count == Added(seq(|gs|, i requires 0 <= i < |gs| => gs[i].metrics.count))
    && m.succeeded == Added(seq(|gs|, i requires 0 <= i < |gs| => gs[i].metrics.succeeded))
    && m.failed == Added(seq(|gs|, i requires 0 <= i < |gs| => gs[i].metrics.failed))
    && m.cancelled == Added(seq(|gs|, i requires 0 <= i < |gs| => gs[i].metrics.cancelled))
    && m.retries == Added(seq(|gs|, i requires 0 <= i < |gs| => gs[i].metrics.retries))
    && m.fallbacks == Added(seq(|gs|, i requires 0 <= i < |gs| => gs[i].metrics.fallbacks))
    && m.duration == Added(seq(|gs|, i requires 0 <= i < |gs| => gs[i].metrics.duration))
  }

  lemma CountersMean(m: Metrics, gs: seq<Group>)
    ensures (forall f :: Sum(Column(gs, f)) == CountIn(m, f)) <==> CountersAddUp(m, gs)
  {
    hide Sum, Added, Column;
    SumIsAdded(Column(gs, CountField.CountField), seq(|gs|, i requires 0 <= i < |gs| => gs[i].metrics.count));
    SumIsAdded(Column(gs, SucceededField), seq(|gs|, i requires 0 <= i < |gs| => gs[i].metrics.succeeded));
    SumIsAdded(Column(gs, FailedField), seq(|gs|, i requires 0 <= i < |gs| => gs[i].metrics.failed));
    SumIsAdded(Column(gs, CancelledField), seq(|gs|, i requires 0 <= i < |gs| => gs[i].metrics.cancelled));
    SumIsAdded(Column(gs, RetryField), seq(|gs|, i requires 0 <= i < |gs| => gs[i].metrics.retries));
    SumIsAdded(Column(gs, FallbackField), seq(|gs|, i requires 0 <= i < |gs| => gs[i].metrics.fallbacks));
    SumIsAdded(Column(gs, DurationField), seq(|gs|, i requires 0 <= i < |gs| => gs[i].metrics.duration));
    if CountersAddUp(m, gs) {
      forall f ensures Sum(Column(gs, f)) == CountIn(m, f) {
        match f
        case CountField =>
        case SucceededField =>
        case FailedField =>
        case CancelledField =>
        case RetryField =>
        case FallbackField =>
        case DurationField =>
      }
    }
  }

  /** Position p of the token summaries adds up: its two counts and, if reported, its total. */
  predicate TokensAddUp(m: Metrics, gs: seq<Group>, p: nat)
    requires p < 4 && |m.tokens| == 4 && FourTokens(gs)
  {
    && m.tokens[p].observed
       == Added(seq(|gs|, i requires 0 <= i < |gs| => assert gs[i] in gs; gs[i].metrics.tokens[p].observed))
    && m.tokens[p].unavailable
       == Added(seq(|gs|, i requires 0 <= i < |gs| => assert gs[i] in gs; gs[i].metrics.tokens[p].unavailable))
    && (m.tokens[p].total.Some? <==> exists g :: g in gs && g.metrics.tokens[p].total.Some?)
    && (m.tokens[p].total.Some? ==>
          m.tokens[p].total.value
          == Added(seq(|gs|, i requires 0 <= i < |gs| =>
                         assert gs[i] in gs;
                         var t := gs[i].metrics.tokens[p].total; if t.Some? then t.value else 0)))
  }

  lemma TokensMeanAt(s: Summary, p: nat)
    requires p < 4 && |s.metrics.tokens| == 4 && FourTokens(s.groups)
    ensures TokenRollup(s, TOKEN_FIELDS[p]) <==> TokensAddUp(s.metrics, s.groups, p)
  {
    var f, gs := TOKEN_FIELDS[p], s.groups;
    FieldAt(p);
    SumIsAdded(TokenColumnOf(gs, f, ObservedColumn),
               seq(|gs|, i requires 0 <= i < |gs| => assert gs[i] in gs; gs[i].metrics.tokens[p].observed));
    SumIsAdded(TokenColumnOf(gs, f, UnavailableColumn),
               seq(|gs|, i requires 0 <= i < |gs| => assert gs[i] in gs; gs[i].metrics.tokens[p].unavailable));
    SumIsAdded(TokenColumnOf(gs, f, TotalColumn),
               seq(|gs|, i requires 0 <= i < |gs| =>
                     assert gs[i] in gs;
                     var t := gs[i].metrics.tokens[p].total; if t.Some? then t.value else 0));
    hide Sum, Added, TokenColumnOf;
  }

  lemma FieldAt(p: nat)
    requires p < 4
    ensures FieldIndex(TOKEN_FIELDS[p]) == p
  {
    assert TOKEN_FIELDS[0] == InputTokens && TOKEN_FIELDS[1] == OutputTokens
           && TOKEN_FIELDS[2] == CachedInputTokens && TOKEN_FIELDS[3] == TotalTokens;
  }

  lemma AllTokensMean(s: Summary)
    requires |s.metrics.tokens| == 4 && FourTokens(s.groups)
    ensures (forall f :: TokenRollup(s, f)) <==> forall p :: 0 <= p < 4 ==> TokensAddUp(s.metrics, s.groups, p)
  {
    forall p | 0 <= p < 4 ensures TokenRollup(s, TOKEN_FIELDS[p]) <==> TokensAddUp(s.metrics, s.groups, p) {
      TokensMeanAt(s, p);
    }
    hide TokenRollup, TokensAddUp;
    if forall p :: 0 <= p < 4 ==> TokensAddUp(s.metrics, s.groups, p) {
      forall f ensures TokenRollup(s, f) {
        assert TOKEN_FIELDS[FieldIndex(f)] == f;
      }
    }
  }

  // ----- costs -----

  /** What a bucket counts for an identity. */
  function CountFor(b: Bucket, id: CostIdentity): int {
    if b.identity == id then b.count else 0
  }

  /** The number a bucket's amount contributes to an identity. */
  function AmountFor(b: Bucket, id: CostIdentity): real {
    if b.identity == id && b.amount.Some? && b.amount.value.Finite? then Value(b.amount.value) else 0.0
  }

  function CountsFor(bs: seq<Bucket>, id: CostIdentity): (s: seq<int>)
    ensures |s| == |bs| && forall i :: 0 <= i < |bs| ==> s[i] == CountFor(bs[i], id)
  {
    seq(|bs|, i requires 0 <= i < |bs| => CountFor(bs[i], id))
  }

  function AmountsFor(bs: seq<Bucket>, id: CostIdentity): (s: seq<real>)
    ensures |s| == |bs| && forall i :: 0 <= i < |bs| ==> s[i] == AmountFor(bs[i], id)
  {
    seq(|bs|, i requires 0 <= i < |bs| => AmountFor(bs[i], id))
  }

  predicate HasBucket(bs: seq<Bucket>, id: CostIdentity) {
    exists j :: 0 <= j < |bs| && bs[j].identity == id
  }

  /** A top-level bucket counts what the groups' buckets of its identity count, and its amount is
      the exact sum of theirs. */
  predicate BucketAddsUp(t: Bucket, bs: seq<Bucket>) {
    && HasBucket(bs, t.identity)
    && t.count == Added(CountsFor(bs, t.identity))
    && (t.amount.Some? ==> t.amount.value.Finite? && Value(t.amount.value) == AddedReals(AmountsFor(bs, t.identity)))
  }

  /** The top level has the evidence that the groups have, and each bucket adds up. */
  predicate BucketsAddUp(top: seq<Bucket>, bs: seq<Bucket>) {
    && (forall i :: 0 <= i < |top| ==> BucketAddsUp(top[i], bs))
    && (forall j :: 0 <= j < |bs| ==> HasBucket(top, bs[j].identity))
  }

  lemma {:induction false} CountsAre(bs: seq<Bucket>, id: CostIdentity)
    ensures PartTotal(CountPart, id, bs) == Added(CountsFor(bs, id))
  {
    if bs != [] {
      var init := bs[..|bs| - 1];
      CountsAre(init, id);
      assert CountsFor(bs, id) == CountsFor(init, id) + [CountFor(bs[|init|], id)];
      AddedPush(CountsFor(init, id), CountFor(bs[|init|], id));
    }
  }

  lemma AmountScales(b: Bucket, id: CostIdentity)
    requires ReadableBucket(b)
    ensures ScalesTo(AmountFor(b, id), PartOf(UnitsPart, id, b), Ten(FRACTION_LIMIT))
  {
    hide Value, Ten, Units;
    if b.amount.Some? {
      UnitsValue(b.amount.value);
    }
  }

  function UnitsFor(bs: seq<Bucket>, id: CostIdentity): (s: seq<int>)
    ensures |s| == |bs| && forall i :: 0 <= i < |bs| ==> s[i] == PartOf(UnitsPart, id, bs[i])
  {
    seq(|bs|, i requires 0 <= i < |bs| => PartOf(UnitsPart, id, bs[i]))
  }

  lemma {:induction false} UnitsAre(bs: seq<Bucket>, id: CostIdentity)
    ensures PartTotal(UnitsPart, id, bs) == Added(UnitsFor(bs, id))
  {
    hide PartOf;
    if bs != [] {
      var init := bs[..|bs| - 1];
      UnitsAre(init, id);
      assert UnitsFor(bs, id) == UnitsFor(init, id) + [PartOf(UnitsPart, id, bs[|init|])];
      AddedPush(UnitsFor(init, id), PartOf(UnitsPart, id, bs[|init|]));
    }
  }

  lemma AmountsAre(bs: seq<Bucket>, id: CostIdentity)
    requires forall i :: 0 <= i < |bs| ==> ReadableBucket(bs[i])
    ensures ScalesTo(AddedReals(AmountsFor(bs, id)), PartTotal(UnitsPart, id, bs), Ten(FRACTION_LIMIT))
  {
    hide ReadableBucket, ScalesTo, Ten, PartOf, PartTotal, AmountFor;
    UnitsAre(bs, id);
    forall i | 0 <= i < |bs| ensures ScalesTo(AmountsFor(bs, id)[i], UnitsFor(bs, id)[i], Ten(FRACTION_LIMIT)) {
      AmountScales(bs[i], id);
    }
    RealsScale(AmountsFor(bs, id), UnitsFor(bs, id), Ten(FRACTION_LIMIT));
    ScaledSum(AddedReals(AmountsFor(bs, id)), Added(UnitsFor(bs, id)), Ten(FRACTION_LIMIT));
  }

  lemma ScaledSum(x: real, n: int, p: real)
    requires x * p == n as real
    ensures ScalesTo(x, n, p)
  {}

  // ----- the derived dictionary, in general -----

  lemma AddedAmountFits(d: Derived, bs: seq<Bucket>, b: Bucket)
    requires DerivedHolds(d, bs) && ReadableBucket(b) && IsMonetary(b.identity.kind) && AddBucket(d, b).Some?
    ensures Fits(PartTotal(UnitsPart, b.identity, bs + [b]), PartFraction(b.identity, bs + [b]))
  {
    hide PartTotal, PartFraction, Units, DerivedHolds, Running, Fits, BoundedAdd, Previous;
    var id := b.identity;
    PartPush(UnitsPart, id, bs, b);
    RunningHolds(d, bs, id);
    AddExact(ROLLUP_PRECISION, Running(Previous(d, id).1), b.amount.value);
  }

  lemma {:induction false} NoAmountFits(bs: seq<Bucket>, id: CostIdentity)
    requires !IsMonetary(id.kind) && forall i :: 0 <= i < |bs| ==> ReadableBucket(bs[i])
    ensures PartTotal(UnitsPart, id, bs) == 0 && PartFraction(id, bs) == 0
    ensures Fits(PartTotal(UnitsPart, id, bs), PartFraction(id, bs))
  {
    ZeroFits();
    if bs != [] {
      NoAmountFits(bs[..|bs| - 1], id);
      assert ReadableBucket(bs[|bs| - 1]);
    }
  }

  lemma AddBucketHolds(d: Derived, bs: seq<Bucket>, b: Bucket)
    requires DerivedHolds(d, bs) && AddBucket(d, b).Some?
    requires forall i :: 0 <= i < |bs + [b]| ==> ReadableBucket((bs + [b])[i])
    ensures PartsFit(bs + [b], b.identity)
  {
    assert ReadableBucket((bs + [b])[|bs|]);
    hide PartTotal, PartFraction, Units, IsSummand, BoundedAdd, AmountUnits, Fits, Running, ReadableBucket;
    PartPush(CountPart, b.identity, bs, b);
    PreviousCount(d, bs, b.identity);
    if IsMonetary(b.identity.kind) {
      AddedAmountFits(d, bs, b);
    } else {
      NoAmountFits(bs + [b], b.identity);
    }
  }

  lemma AbsentFits(bs: seq<Bucket>, id: CostIdentity)
    requires id !in BucketIds(bs)
    ensures PartsFit(bs, id)
  {
    PartAbsent(CountPart, id, bs);
    PartAbsent(UnitsPart, id, bs);
    ZeroFits();
  }

  lemma StillFits(bs: seq<Bucket>, b: Bucket, id: CostIdentity)
    requires PartsFit(bs, id) && id != b.identity
    ensures PartsFit(bs + [b], id)
  {
    PartPush(CountPart, id, bs, b);
    PartPush(UnitsPart, id, bs, b);
    hide Fits;
  }

  /** The derivation succeeds only when every identity's count and sum fit, and is then exact. */
  lemma {:induction false} DerivationMeans(bs: seq<Bucket>)
    requires forall i :: 0 <= i < |bs| ==> ReadableBucket(bs[i])
    ensures DerivedCosts(bs).Some? <==> forall id :: PartsFit(bs, id)
    ensures DerivedCosts(bs).Some? ==> DerivedHolds(DerivedCosts(bs).value, bs)
  {
    hide PartsFit, AddBucket, ReadableBucket, DerivedHolds;
    if forall id :: PartsFit(bs, id) {
      DerivationSucceeds(bs);
    }
    if DerivedCosts(bs).Some? {
      if bs == [] {
        forall id ensures PartsFit(bs, id) {
          AbsentFits(bs, id);
        }
        NothingDerived();
      } else {
        var init, b := bs[..|bs| - 1], bs[|bs| - 1];
        assert bs == init + [b];
        DerivationMeans(init);
        var d := DerivedCosts(init).value;
        AddBucketHolds(d, init, b);
        forall id ensures PartsFit(bs, id) {
          if id != b.identity {
            StillFits(init, b, id);
          }
        }
        DerivationSucceeds(bs);
      }
    }
  }

  lemma NothingDerived()
    ensures DerivedHolds(map[], [])
  {}

  // ----- the cost roll-up -----

  lemma UnitsOfSame(x: Decimal, y: Decimal)
    requires IsSummand(x) && IsSummand(y)
    ensures SameAmount(Some(x), Some(y)) <==> Units(x) == Units(y)
  {
    if Units(x) == Units(y) {
      SameUnits(x, y);
    }
    hide Digits, SerializedLength;
    var e := MinExponent(x, y);
    var k := FRACTION_LIMIT + e;
    ShiftShift(x.coefficient, x.exponent - e, k);
    ShiftShift(y.coefficient, y.exponent - e, k);
  }

  /** An entry agrees with a top-level bucket exactly when the bucket adds up. */
  lemma EntryAgrees(d: Derived, t: Bucket, bs: seq<Bucket>)
    requires DerivedHolds(d, bs) && ReadableBucket(t) && t.identity in d
    requires forall i :: 0 <= i < |bs| ==> ReadableBucket(bs[i])
    ensures d[t.identity].0 == t.count && SameAmount(d[t.identity].1, t.amount) <==> BucketAddsUp(t, bs)
  {
    var id := t.identity;
    assert EntryHolds(d[id], id, bs);
    assert id in Elements(BucketIds(bs));
    Occurs(bs, id);
    CountsAre(bs, id);
    AmountsAre(bs, id);
    hide DerivedHolds, PartTotal, PartFraction, Units, Value, Ten, Added, AddedReals, SameAmount, IsSummand,
         ReadableBucket,
         ScalesTo;
    if IsMonetary(id.kind) {
      Readable(t);
      EntryNumber(d[id].1.value, t.amount.value, PartTotal(UnitsPart, id, bs), AddedReals(AmountsFor(bs, id)));
    } else {
      NoneAgree();
      NotReadable(t);
    }
  }

  lemma Readable(t: Bucket)
    requires ReadableBucket(t) && IsMonetary(t.identity.kind)
    ensures t.amount.Some? && IsSummand(t.amount.value) && t.amount.value.Finite?
  {}

  lemma NotReadable(t: Bucket)
    requires ReadableBucket(t) && !IsMonetary(t.identity.kind)
    ensures t.amount.None?
  {}

  lemma NoneAgree()
    ensures SameAmount(None, None)
  {}

  lemma Occurs(bs: seq<Bucket>, id: CostIdentity)
    requires id in Elements(BucketIds(bs))
    ensures HasBucket(bs, id)
  {
    var j :| 0 <= j < |bs| && BucketIds(bs)[j] == id;
    assert bs[j].identity == id;
  }

  lemma EntryNumber(x: Decimal, y: Decimal, units: nat, sum: real)
    requires IsSummand(x) && IsSummand(y) && Units(x) == units && ScalesTo(sum, units, Ten(FRACTION_LIMIT))
    ensures SameAmount(Some(x), Some(y)) <==> Value(y) == sum
  {
    hide Value, Ten, SameAmount, Units, IsSummand;
    UnitsOfSame(x, y);
    AmountIsFinite(y);
    UnitsValue(y);
    NumbersAgree(Value(y), sum, Units(y), units, Ten(FRACTION_LIMIT));
  }

  lemma AmountIsFinite(d: Decimal)
    requires IsSummand(d)
    ensures d.Finite? && IsAmount(d) && 0 - FRACTION_LIMIT <= d.exponent <= 0
  {}

  lemma NumbersAgree(v: real, s: real, u: nat, n: nat, p: real)
    requires p > 0.0 && v * p == u as real && ScalesTo(s, n, p)
    ensures n == u <==> v == s
  {
    if n == u {
      SameFactor(v, s, p);
    }
  }

  lemma CostsMean(s: Summary)
    requires forall i :: 0 <= i < |s.metrics.buckets| ==> ReadableBucket(s.metrics.buckets[i])
    requires forall i :: 0 <= i < |AllBuckets(s.groups)| ==> ReadableBucket(AllBuckets(s.groups)[i])
    ensures CostRollup(s) <==>
              BucketsAddUp(s.metrics.buckets, AllBuckets(s.groups)) && forall id :: PartsFit(AllBuckets(s.groups), id)
  {
    var top, bs := s.metrics.buckets, AllBuckets(s.groups);
    DerivationMeans(bs);
    hide PartsFit, ReadableBucket, DerivedCosts, AllBuckets, SameAmount, BucketAddsUp;
    if DerivedCosts(bs).Some? {
      var d := DerivedCosts(bs).value;
      SameKeys(d, top, bs);
      forall i | 0 <= i < |top| ensures Agrees(d, top[i]) <==> BucketAddsUp(top[i], bs) {
        if top[i].identity in d {
          EntryAgrees(d, top[i], bs);
        } else {
          NotAddedUp(top[i], bs);
        }
      }
      hide DerivedHolds;
      CostsAgree(d, top, bs);
    }
  }

  lemma SameKeys(d: Derived, top: seq<Bucket>, bs: seq<Bucket>)
    requires DerivedHolds(d, bs)
    ensures forall id :: id in d <==> HasBucket(bs, id)
    ensures d.Keys == Elements(BucketIds(top)) <==>
              (forall i :: 0 <= i < |top| ==> top[i].identity in d)
              && (forall j :: 0 <= j < |bs| ==> HasBucket(top, bs[j].identity))
  {
    hide EntryHolds;
    forall id ensures id in d <==> HasBucket(bs, id) {
      if j :| 0 <= j < |bs| && bs[j].identity == id {
        assert BucketIds(bs)[j] == id;
      }
      if id in Elements(BucketIds(bs)) {
        Occurs(bs, id);
      }
    }
    var keys := Elements(BucketIds(top));
    forall id ensures id in keys <==> HasBucket(top, id) {
      if i :| 0 <= i < |top| && top[i].identity == id {
        assert BucketIds(top)[i] == id;
      }
      if id in keys {
        Occurs(top, id);
      }
    }
    if (forall i :: 0 <= i < |top| ==> top[i].identity in d)
       && (forall j :: 0 <= j < |bs| ==> HasBucket(top, bs[j].identity)) {
      forall id | id in keys ensures id in d.Keys {
        var i :| 0 <= i < |top| && top[i].identity == id;
      }
      forall id | id in d.Keys ensures id in keys {
        var j :| 0 <= j < |bs| && bs[j].identity == id;
      }
      assert d.Keys == keys;
    }
    if d.Keys == keys {
      forall i | 0 <= i < |top| ensures top[i].identity in d {
        assert top[i].identity in keys;
      }
      forall j | 0 <= j < |bs| ensures HasBucket(top, bs[j].identity) {
        assert bs[j].identity in d.Keys;
      }
    }
  }

  lemma CostsAgree(d: Derived, top: seq<Bucket>, bs: seq<Bucket>)
    requires forall id :: id in d <==> HasBucket(bs, id)
    requires d.Keys == Elements(BucketIds(top)) <==>
              (forall i :: 0 <= i < |top| ==> top[i].identity in d)
              && (forall j :: 0 <= j < |bs| ==> HasBucket(top, bs[j].identity))
    requires forall i :: 0 <= i < |top| ==> (Agrees(d, top[i]) <==> BucketAddsUp(top[i], bs))
    ensures SameCosts(d, top) <==> BucketsAddUp(top, bs)
  {
    hide SameAmount, BucketAddsUp;
    if SameCosts(d, top) {
      forall i | 0 <= i < |top| ensures BucketAddsUp(top[i], bs) {
        assert Agrees(d, top[i]);
      }
    }
    if BucketsAddUp(top, bs) {
      forall i | 0 <= i < |top| ensures Agrees(d, top[i]) {
        assert BucketAddsUp(top[i], bs);
      }
    }
  }

  predicate Agrees(d: Derived, t: Bucket) {
    t.identity in d && d[t.identity].0 == t.count && SameAmount(d[t.identity].1, t.amount)
  }

  lemma NotAddedUp(t: Bucket, bs: seq<Bucket>)
    requires !HasBucket(bs, t.identity)
    ensures !BucketAddsUp(t, bs)
  {}

  // ----- the whole check -----

  /** The check accepts a summary with readable buckets exactly when its counters, its token
      fields and its buckets add up, and no sum of amounts or counts exceeds its bound. */
  lemma AcceptsWhatAddsUp(s: Summary)
    requires FourTokens(s.groups) && |s.metrics.tokens| == 4
    requires forall i :: 0 <= i < |s.metrics.buckets| ==> ReadableBucket(s.metrics.buckets[i])
    requires forall i :: 0 <= i < |AllBuckets(s.groups)| ==> ReadableBucket(AllBuckets(s.groups)[i])
    ensures RollupHolds(s) <==>
              && CountersAddUp(s.metrics, s.groups)
              && (forall p :: 0 <= p < 4 ==> TokensAddUp(s.metrics, s.groups, p))
              && BucketsAddUp(s.metrics.buckets, AllBuckets(s.groups))
              && (forall id :: PartsFit(AllBuckets(s.groups), id))
  {
    CountersMean(s.metrics, s.groups);
    AllTokensMean(s);
    CostsMean(s);
    hide CountersAddUp, TokensAddUp, BucketsAddUp, PartsFit, AllBuckets, CostRollup, TokenRollup, Sum, CountIn,
         ReadableBucket;
  }
}
