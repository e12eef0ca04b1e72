/** What an aggregate counts: measures of records, totals over selections, and the laws
    that relate the totals of groups, identities and reordered selections to the whole. */
module UsageTotals {
  import opened Wrappers
  import opened Sequences
  import opened Decimals
  import opened Amounts
  import opened UsageRecords

  /** Everything a summary adds up, for the top level and for every group alike. */
  datatype Measure =
    | Invocations
    | WithStatus(status: Status)
    | Retries
    | Fallbacks
    | Duration
    | Tokens(field: TokenField)
    | Observed(field: TokenField)
    | Missing(field: TokenField)
    | InBucket(identity: CostIdentity)
    | BucketUnits(identity: CostIdentity)

  function Flag(b: bool): nat {
    if b then 1 else 0
  }

  function AmountUnits(amount: Option<Decimal>): nat {
    if amount.Some? && IsSummand(amount.value) then Units(amount.value) else 0
  }

  function AmountFraction(amount: Option<Decimal>): nat {
    if amount.Some? && IsSummand(amount.value) then -amount.value.exponent else 0
  }

  function NonNegative(n: int): nat {
    if n < 0 then 0 else n
  }

  function CountOr0(n: Option<int>): nat {
    if n.Some? then NonNegative(n.value) else 0
  }

  function Weight(m: Measure, r: Record): nat {
    match m
    case Invocations => 1
    case WithStatus(s) => Flag(r.status == s)
    case Retries => Flag(r.retryOf.Some?)
    case Fallbacks => Flag(r.fallbackFrom.Some?)
    case Duration => NonNegative(r.durationMs)
    case Tokens(f) => CountOr0(Count(r.usage, f))
    case Observed(f) => Flag(Count(r.usage, f).Some?)
    case Missing(f) => Flag(Count(r.usage, f).None?)
    case InBucket(id) => Flag(IdentityOf(r.cost) == id)
    case BucketUnits(id) => if IdentityOf(r.cost) == id then AmountUnits(r.cost.amount) else 0
  }

  function Total(m: Measure, rs: seq<Record>): nat {
    if rs == [] then 0 else Total(m, rs[..|rs| - 1]) + Weight(m, rs[|rs| - 1])
  }

  function Fraction(id: CostIdentity, r: Record): nat {
    if IdentityOf(r.cost) == id then AmountFraction(r.cost.amount) else 0
  }

  /** The longest fraction among the amounts of one identity. */
  function LongestFraction(id: CostIdentity, rs: seq<Record>): (f: nat)
    ensures f <= FRACTION_LIMIT
  {
    if rs == [] then 0 else Max(LongestFraction(id, rs[..|rs| - 1]), Fraction(id, rs[|rs| - 1]))
  }

  datatype GroupKey = GroupKey(provider: string, model: Option<string>, modelReason: Option<UnavailableReason>)

  function KeyOf(r: Record): GroupKey {
    GroupKey(r.provider, r.model, r.modelReason)
  }

  function Select(rs: seq<Record>, k: GroupKey): (s: seq<Record>)
    ensures |s| <= |rs|
    ensures forall r :: r in s ==> r in rs && KeyOf(r) == k
  {
    if rs == [] then []
    else
      var s := Select(rs[..|rs| - 1], k);
      var r := rs[|rs| - 1];
      if KeyOf(r) == k then s + [r] else s
  }

  function Identities(rs: seq<Record>): (ids: seq<CostIdentity>)
    ensures |ids| == |rs| && forall i :: 0 <= i < |rs| ==> ids[i] == IdentityOf(rs[i].cost)
  {
    seq(|rs|, i requires 0 <= i < |rs| => IdentityOf(rs[i].cost))
  }

  function Keys(rs: seq<Record>): (ks: seq<GroupKey>)
    ensures |ks| == |rs| && forall i :: 0 <= i < |rs| ==> ks[i] == KeyOf(rs[i])
  {
    seq(|rs|, i requires 0 <= i < |rs| => KeyOf(rs[i]))
  }

  predicate AllSnapshots(rs: seq<Record>) {
    forall r :: r in rs ==> IsSnapshot(r)
  }

  // ----- one record more -----

  lemma TotalPush(m: Measure, rs: seq<Record>, r: Record)
    ensures Total(m, rs + [r]) == Total(m, rs) + Weight(m, r)
  {
    assert (rs + [r])[..|rs|] == rs;
  }

  lemma FractionPush(id: CostIdentity, rs: seq<Record>, r: Record)
    ensures LongestFraction(id, rs + [r]) == Max(LongestFraction(id, rs), Fraction(id, r))
  {
    assert (rs + [r])[..|rs|] == rs;
  }

  lemma SelectPush(rs: seq<Record>, r: Record, k: GroupKey)
    ensures Select(rs + [r], k) == if KeyOf(r) == k then Select(rs, k) + [r] else Select(rs, k)
  {
    assert (rs + [r])[..|rs|] == rs;
  }

  lemma SplitLast(rs: seq<Record>) returns (init: seq<Record>, last: Record)
    requires rs != []
    ensures rs == init + [last] && init == rs[..|rs| - 1] && |init| < |rs| && last in rs
    ensures forall r :: r in init ==> r in rs
  {
    init, last := rs[..|rs| - 1], rs[|rs| - 1];
  }

  // ----- sub-selections and order -----

  lemma {:induction false} TotalRemove(m: Measure, rs: seq<Record>, i: nat)
    requires i < |rs|
    ensures Total(m, rs) == Total(m, RemoveAt(rs, i)) + Weight(m, rs[i])
  {
    hide Weight;
    var init, last := SplitLast(rs);
    if i == |init| {
      assert RemoveAt(rs, i) == init;
    } else {
      TotalRemove(m, init, i);
      assert RemoveAt(rs, i) == RemoveAt(init, i) + [last];
      TotalPush(m, RemoveAt(init, i), last);
    }
  }

  lemma {:induction false} FractionRemove(id: CostIdentity, rs: seq<Record>, i: nat)
    requires i < |rs|
    ensures LongestFraction(id, rs) == Max(LongestFraction(id, RemoveAt(rs, i)), Fraction(id, rs[i]))
  {
    hide Fraction;
    var init, last := SplitLast(rs);
    if i == |init| {
      assert RemoveAt(rs, i) == init;
    } else {
      FractionRemove(id, init, i);
      assert RemoveAt(rs, i) == RemoveAt(init, i) + [last];
      FractionPush(id, RemoveAt(init, i), last);
    }
  }

  /** Taking fewer records, in any order, never raises a total; reordering keeps it. */
  lemma {:induction false} SubSelectionTotal(m: Measure, a: seq<Record>, b: seq<Record>)
    requires multiset(a) <= multiset(b)
    ensures Total(m, a) <= Total(m, b)
    ensures |a| == |b| ==> Total(m, a) == Total(m, b)
  {
    hide Weight;
    if a != [] {
      var j := FindLast(a, b);
      RemoveFromBoth(a, b, j);
      TotalRemove(m, b, j);
      SubSelectionTotal(m, a[..|a| - 1], RemoveAt(b, j));
    }
  }

  lemma {:induction false} SubSelectionFraction(id: CostIdentity, a: seq<Record>, b: seq<Record>)
    requires multiset(a) <= multiset(b)
    ensures LongestFraction(id, a) <= LongestFraction(id, b)
    ensures |a| == |b| ==> LongestFraction(id, a) == LongestFraction(id, b)
  {
    hide Fraction;
    if a != [] {
      var j := FindLast(a, b);
      RemoveFromBoth(a, b, j);
      FractionRemove(id, b, j);
      SubSelectionFraction(id, a[..|a| - 1], RemoveAt(b, j));
    }
  }

  lemma {:induction false} SelectContents(rs: seq<Record>, k: GroupKey, r: Record)
    ensures multiset(Select(rs, k))[r] == if KeyOf(r) == k then multiset(rs)[r] else 0
  {
    if rs != [] {
      var init, last := SplitLast(rs);
      SelectContents(init, k, r);
      SelectPush(init, last, k);
    }
  }

  lemma SelectIsSub(rs: seq<Record>, k: GroupKey)
    ensures multiset(Select(rs, k)) <= multiset(rs)
  {
    forall r ensures multiset(Select(rs, k))[r] <= multiset(rs)[r] {
      SelectContents(rs, k, r);
    }
  }

  lemma SelectOrderFree(a: seq<Record>, b: seq<Record>, k: GroupKey)
    requires multiset(a) == multiset(b)
    ensures multiset(Select(a, k)) == multiset(Select(b, k))
  {
    forall r ensures multiset(Select(a, k))[r] == multiset(Select(b, k))[r] {
      SelectContents(a, k, r);
      SelectContents(b, k, r);
    }
  }

  // ----- the parts make the whole -----

  /** The sum of a measure over the groups of the given keys. */
  function GroupsTotal(ks: seq<GroupKey>, m: Measure, rs: seq<Record>): nat {
    if ks == [] then 0 else GroupsTotal(ks[..|ks| - 1], m, rs) + Total(m, Select(rs, ks[|ks| - 1]))
  }

  lemma {:induction false} GroupsTotalPush(ks: seq<GroupKey>, m: Measure, rs: seq<Record>, r: Record)
    requires Distinct(ks)
    ensures GroupsTotal(ks, m, rs + [r]) == GroupsTotal(ks, m, rs) + if KeyOf(r) in ks then Weight(m, r) else 0
  {
    hide Weight, Select, Total, KeyOf;
    if ks != [] {
      var k := ks[|ks| - 1];
      GroupsTotalPush(ks[..|ks| - 1], m, rs, r);
      SelectPush(rs, r, k);
      TotalPush(m, Select(rs, k), r);
      assert ks == ks[..|ks| - 1] + [k];
    }
  }

  /** Summing any measure over disjoint groups that cover the records gives the total. */
  lemma {:induction false} GroupsMakeTotal(ks: seq<GroupKey>, m: Measure, rs: seq<Record>)
    requires Distinct(ks) && forall r :: r in rs ==> KeyOf(r) in ks
    ensures GroupsTotal(ks, m, rs) == Total(m, rs)
  {
    hide Weight;
    if rs == [] {
      GroupsOfNone(ks, m);
    } else {
      var init, last := SplitLast(rs);
      GroupsMakeTotal(ks, m, init);
      GroupsTotalPush(ks, m, init, last);
      TotalPush(m, init, last);
    }
  }

  lemma {:induction false} GroupsOfNone(ks: seq<GroupKey>, m: Measure)
    ensures GroupsTotal(ks, m, []) == 0
  {
    if ks != [] {
      GroupsOfNone(ks[..|ks| - 1], m);
    }
  }

  /** The records of one cost bucket, in order. */
  function Bucketed(rs: seq<Record>, id: CostIdentity): seq<Record> {
    if rs == [] then []
    else
      var init := Bucketed(rs[..|rs| - 1], id);
      if IdentityOf(rs[|rs| - 1].cost) == id then init + [rs[|rs| - 1]] else init
  }

  lemma BucketedPush(rs: seq<Record>, r: Record, id: CostIdentity)
    ensures Bucketed(rs + [r], id) == if IdentityOf(r.cost) == id then Bucketed(rs, id) + [r] else Bucketed(rs, id)
  {
    assert (rs + [r])[..|rs|] == rs;
  }

  /** The sum of a measure over the buckets of the given identities. */
  function BucketsTotal(ids: seq<CostIdentity>, m: Measure, rs: seq<Record>): nat {
    if ids == [] then 0 else BucketsTotal(ids[..|ids| - 1], m, rs) + Total(m, Bucketed(rs, ids[|ids| - 1]))
  }

  lemma {:induction false} BucketsTotalPush(ids: seq<CostIdentity>, m: Measure, rs: seq<Record>, r: Record)
    requires Distinct(ids)
    ensures BucketsTotal(ids, m, rs + [r])
         == BucketsTotal(ids, m, rs) + if IdentityOf(r.cost) in ids then Weight(m, r) else 0
  {
    hide Weight, Bucketed, Total, IdentityOf;
    if ids != [] {
      var id := ids[|ids| - 1];
      BucketsTotalPush(ids[..|ids| - 1], m, rs, r);
      BucketedPush(rs, r, id);
      TotalPush(m, Bucketed(rs, id), r);
      assert ids == ids[..|ids| - 1] + [id];
    }
  }

  /** Summing any measure over disjoint buckets that cover the records gives the total. */
  lemma {:induction false} BucketsMakeTotal(ids: seq<CostIdentity>, m: Measure, rs: seq<Record>)
    requires Distinct(ids) && forall r :: r in rs ==> IdentityOf(r.cost) in ids
    ensures BucketsTotal(ids, m, rs) == Total(m, rs)
  {
    hide Weight;
    if rs == [] {
      BucketsOfNone(ids, m);
    } else {
      var init, last := SplitLast(rs);
      BucketsMakeTotal(ids, m, init);
      BucketsTotalPush(ids, m, init, last);
      TotalPush(m, init, last);
    }
  }

  lemma {:induction false} BucketsOfNone(ids: seq<CostIdentity>, m: Measure)
    ensures BucketsTotal(ids, m, []) == 0
  {
    if ids != [] {
      BucketsOfNone(ids[..|ids| - 1], m);
    }
  }

  /** The count of a bucket is the number of its records. */
  lemma {:induction false} BucketCount(id: CostIdentity, rs: seq<Record>)
    ensures Total(InBucket(id), rs) == Total(Invocations, Bucketed(rs, id))
  {
    hide IdentityOf;
    if rs != [] {
      var init, last := SplitLast(rs);
      BucketCount(id, init);
      BucketedPush(init, last, id);
      TotalPush(InBucket(id), init, last);
      TotalPush(Invocations, Bucketed(init, id), last);
    }
  }

  lemma {:induction false} InvocationsCount(rs: seq<Record>)
    ensures Total(Invocations, rs) == |rs|
  {
    if rs != [] {
      InvocationsCount(rs[..|rs| - 1]);
    }
  }

  lemma OneRecord(r: Record)
    requires IsSnapshot(r)
    ensures Weight(Invocations, r) == 1
    ensures Weight(WithStatus(Succeeded), r) + Weight(WithStatus(Failed), r) + Weight(WithStatus(Cancelled), r) == 1
    ensures Weight(Retries, r) + Weight(Fallbacks, r) <= 1
    ensures forall f :: Weight(Observed(f), r) + Weight(Missing(f), r) == 1
  {
    assert ValidMetadata(r);
    hide ValidCost, ValidUsage, ValidIdentifier, ValidTimestamp;
  }

  /** Counts that partition the records, and predecessors that never overlap. */
  lemma {:induction false} CountLaws(rs: seq<Record>)
    requires AllSnapshots(rs)
    ensures Total(Invocations, rs) == |rs|
    ensures Total(WithStatus(Succeeded), rs) + Total(WithStatus(Failed), rs) + Total(WithStatus(Cancelled), rs) == |rs|
    ensures Total(Retries, rs) + Total(Fallbacks, rs) <= |rs|
    ensures forall f :: Total(Observed(f), rs) + Total(Missing(f), rs) == |rs|
  {
    if rs != [] {
      var init, last := SplitLast(rs);
      CountLaws(init);
      OneRecord(last);
      hide Weight, IsSnapshot;
    }
  }

  lemma {:induction false} FlagTotal(m: Measure, rs: seq<Record>)
    requires m.Invocations? || m.WithStatus? || m.Retries? || m.Fallbacks? || m.Observed? || m.Missing? || m.InBucket?
    ensures Total(m, rs) <= |rs|
  {
    if rs != [] {
      FlagTotal(m, rs[..|rs| - 1]);
    }
  }
}
