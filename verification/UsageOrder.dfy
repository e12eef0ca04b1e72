/** Input order does not change a summary: reordered records give the same summary or the
    same error, because totals ignore order and the sort keys tell identities apart. */
module UsageOrder {
  import opened Wrappers
  import opened Sequences
  import opened Decimals
  import opened Amounts
  import opened UsageRecords
  import opened UsageTotals
  import opened UsageSummary
  import opened UsageLevels
  import opened UsageAggregator

  lemma TotalOrderFree(m: Measure, a: seq<Record>, b: seq<Record>)
    requires multiset(a) == multiset(b)
    ensures Total(m, a) == Total(m, b)
  {
    SameElements(a, b);
    SubSelectionTotal(m, a, b);
  }

  lemma IdentitiesOrderFree(a: seq<Record>, b: seq<Record>, id: CostIdentity)
    requires multiset(a) == multiset(b) && id in Identities(a)
    ensures id in Identities(b) && id in FirstOccurrences(Identities(b))
  {
    SameElements(a, b);
    var i :| 0 <= i < |a| && Identities(a)[i] == id;
    assert a[i] in Elements(a);
    assert a[i] in Elements(b);
    IdentityOccurs(a[i], b);
  }

  lemma BucketOrderFree(id: CostIdentity, a: seq<Record>, b: seq<Record>)
    requires multiset(a) == multiset(b)
    ensures BucketOf(id, a) == BucketOf(id, b) && (BucketFits(id, a) <==> BucketFits(id, b))
  {
    SameElements(a, b);
    TotalOrderFree(InBucket(id), a, b);
    TotalOrderFree(BucketUnits(id), a, b);
    SubSelectionFraction(id, a, b);
  }

  lemma OverflowsFrom(a: seq<Record>, b: seq<Record>)
    requires multiset(a) == multiset(b) && Overflows(a)
    ensures Overflows(b)
  {
    hide BucketFits, Total, FirstOccurrences;
    TotalOrderFree(Duration, a, b);
    if f :| Total(Tokens(f), a) > MAX_USAGE_INTEGER {
      TotalOrderFree(Tokens(f), a, b);
    }
    if id :| id in FirstOccurrences(Identities(a)) && !BucketFits(id, a) {
      InFirstOccurrences(id, Identities(a));
      IdentitiesOrderFree(a, b, id);
      BucketOrderFree(id, a, b);
    }
  }

  lemma OverflowOrderFree(a: seq<Record>, b: seq<Record>)
    requires multiset(a) == multiset(b)
    ensures Overflows(a) <==> Overflows(b)
  {
    hide Overflows;
    if Overflows(a) {
      OverflowsFrom(a, b);
    }
    if Overflows(b) {
      OverflowsFrom(b, a);
    }
  }

  lemma SummableOrderFree(a: seq<Record>, b: seq<Record>)
    requires multiset(a) == multiset(b) && Summable(a)
    ensures Summable(b)
  {
    OverflowOrderFree(a, b);
    SameElements(a, b);
    assert forall r :: r in b ==> r in Elements(b);
    assert forall r :: r in b ==> r in a;
  }

  /** Every bucket stored for one order is stored for the other. */
  lemma BucketsWithin(a: seq<Record>, b: seq<Record>)
    requires multiset(a) == multiset(b) && Summable(a) && Summable(b)
    ensures Elements(CanonicalMetrics(a).buckets) <= Elements(CanonicalMetrics(b).buckets)
  {
    hide CanonicalMetrics, Summable, BucketOf, ReadBucket;
    BucketsMeaning(a);
    BucketsMeaning(b);
    var s, t := CanonicalMetrics(a).buckets, CanonicalMetrics(b).buckets;
    forall x | x in s ensures x in t {
      var i :| 0 <= i < |s| && s[i] == x;
      IdentitiesOrderFree(a, b, x.identity);
      assert x.identity in BucketIds(t);
      var j :| 0 <= j < |t| && BucketIds(t)[j] == x.identity;
      BucketOrderFree(x.identity, a, b);
    }
  }

  lemma SortedIsDistinct<T>(s: seq<T>, key: T -> SortKey)
    requires StrictlySorted(s, key)
    ensures Distinct(s)
  {
    forall i, j | 0 <= i < j < |s| ensures s[i] != s[j] {
      KeyOrder(key(s[i]), key(s[j]));
    }
  }

  /** Strictly sorted sequences with the same elements are equal. */
  lemma SameSorted<T(!new)>(s: seq<T>, t: seq<T>, key: T -> SortKey)
    requires StrictlySorted(s, key) && StrictlySorted(t, key) && Elements(s) == Elements(t)
    ensures s == t
  {
    SortedIsDistinct(s, key);
    SortedIsDistinct(t, key);
    DistinctMultiset(s, t);
    SortedUnique(s, t, key);
  }

  lemma LevelOrderFree(a: seq<Record>, b: seq<Record>)
    requires multiset(a) == multiset(b) && Summable(a)
    ensures CanonicalMetrics(a) == CanonicalMetrics(b)
  {
    SummableOrderFree(a, b);
    SameElements(a, b);
    hide Summable;
    BucketsWithin(a, b);
    BucketsWithin(b, a);
    RawBucketsAccepted(a);
    RawBucketsAccepted(b);
    SameSorted(CanonicalMetrics(a).buckets, CanonicalMetrics(b).buckets, BucketKey);
    CountsOrderFree(a, b);
    TokensOrderFree(a, b);
  }

  lemma CountsOrderFree(a: seq<Record>, b: seq<Record>)
    requires multiset(a) == multiset(b)
    ensures var m, n := CanonicalMetrics(a), CanonicalMetrics(b);
            m.(tokens := n.tokens, buckets := n.buckets) == n
  {
    hide Total, SortBy;
    SameElements(a, b);
    TotalOrderFree(WithStatus(Succeeded), a, b);
    TotalOrderFree(WithStatus(Failed), a, b);
    TotalOrderFree(WithStatus(Cancelled), a, b);
    TotalOrderFree(Retries, a, b);
    TotalOrderFree(Fallbacks, a, b);
    TotalOrderFree(Duration, a, b);
  }

  lemma TokensOrderFree(a: seq<Record>, b: seq<Record>)
    requires multiset(a) == multiset(b)
    ensures CanonicalMetrics(a).tokens == CanonicalMetrics(b).tokens
  {
    hide Total, SortBy;
    forall f ensures TokenOf(f, a) == TokenOf(f, b) {
      TotalOrderFree(Observed(f), a, b);
      TotalOrderFree(Tokens(f), a, b);
      TotalOrderFree(Missing(f), a, b);
    }
    assert TokensOf(a) == TokensOf(b);
  }

  lemma GroupsWithin(a: seq<Record>, b: seq<Record>)
    requires multiset(a) == multiset(b) && Summable(a) && Summable(b)
    ensures Elements(CanonicalGroups(a)) <= Elements(CanonicalGroups(b))
  {
    hide CanonicalMetrics, CanonicalGroups, Summable, Select;
    GroupsMeaning(a);
    GroupsMeaning(b);
    SameElements(a, b);
    var s, t := CanonicalGroups(a), CanonicalGroups(b);
    forall x | x in s ensures x in t {
      var i :| 0 <= i < |s| && s[i] == x;
      var r := KeyWitness(x.key, a);
      assert r in Elements(a);
      assert r in Elements(b);
      assert KeyOf(r) in GroupKeys(t);
      var j :| 0 <= j < |t| && GroupKeys(t)[j] == x.key;
      SelectOrderFree(a, b, x.key);
      GroupSummable(a, x.key);
      LevelOrderFree(Select(a, x.key), Select(b, x.key));
    }
  }

  /** The summary of reordered snapshots is the same summary. */
  lemma SummaryOrderFree(scope: Scope, scopeId: string, a: seq<Record>, b: seq<Record>)
    requires multiset(a) == multiset(b) && Summable(a)
    ensures SummaryOf(scope, scopeId, a) == SummaryOf(scope, scopeId, b)
  {
    SummableOrderFree(a, b);
    hide CanonicalMetrics, CanonicalGroups, Summable;
    LevelOrderFree(a, b);
    GroupsWithin(a, b);
    GroupsWithin(b, a);
    GroupsAccepted(a);
    GroupsAccepted(b);
    SameSorted(CanonicalGroups(a), CanonicalGroups(b), GroupSortKey);
  }

  // ----- the checks before the fold -----

  lemma EachRemove<T, S>(s: seq<T>, f: T -> Option<S>, i: nat)
    requires i < |s| && EachOf(s, f).Some?
    ensures EachOf(RemoveAt(s, i), f) == Some(RemoveAt(EachOf(s, f).value, i))
  {
    EachIs(RemoveAt(s, i), f, RemoveAt(EachOf(s, f).value, i));
  }

  lemma {:induction false} EachOrderFree<T(!new), S(!new)>(a: seq<T>, b: seq<T>, f: T -> Option<S>)
    requires multiset(a) == multiset(b)
    ensures EachOf(a, f).Some? <==> EachOf(b, f).Some?
    ensures EachOf(a, f).Some? ==> multiset(EachOf(a, f).value) == multiset(EachOf(b, f).value)
    decreases |a|
  {
    SameElements(a, b);
    EachSomeFrom(a, b, f);
    EachSomeFrom(b, a, f);
    if a != [] && EachOf(a, f).Some? {
      var j := FindLast(a, b);
      RemoveFromBoth(a, b, j);
      assert RemoveAt(a, |a| - 1) == a[..|a| - 1];
      EachOrderFree(a[..|a| - 1], RemoveAt(b, j), f);
      EachRemove(a, f, |a| - 1);
      EachRemove(b, f, j);
      RemovedFrom(EachOf(a, f).value, |a| - 1);
      RemovedFrom(EachOf(b, f).value, j);
    }
  }

  lemma RemovedFrom<T>(s: seq<T>, i: nat)
    requires i < |s|
    ensures multiset(s) == multiset(RemoveAt(s, i)) + multiset{s[i]}
  {
    assert s == s[..i] + [s[i]] + s[i + 1..];
  }

  lemma EachSomeFrom<T(!new), S>(a: seq<T>, b: seq<T>, f: T -> Option<S>)
    requires Elements(a) == Elements(b)
    ensures EachOf(a, f).Some? ==> EachOf(b, f).Some?
  {
    if EachOf(a, f).None? {
      return;
    }
    forall i | 0 <= i < |b| ensures f(b[i]).Some? {
      assert b[i] in Elements(b);
      assert b[i] in a;
      var j :| 0 <= j < |a| && a[j] == b[i];
    }
  }

  lemma IdsWithin(a: seq<Record>, b: seq<Record>)
    requires Elements(a) == Elements(b)
    ensures Elements(InvocationIds(a)) <= Elements(InvocationIds(b))
  {
    forall x | x in InvocationIds(a) ensures x in InvocationIds(b) {
      var i :| 0 <= i < |a| && InvocationIds(a)[i] == x;
      assert a[i] in Elements(a);
      assert a[i] in b;
      var j :| 0 <= j < |b| && b[j] == a[i];
      assert InvocationIds(b)[j] == x;
    }
  }

  lemma IdsOrderFree(a: seq<Record>, b: seq<Record>)
    requires multiset(a) == multiset(b)
    ensures Distinct(InvocationIds(a)) <==> Distinct(InvocationIds(b))
  {
    SameElements(a, b);
    IdsWithin(a, b);
    IdsWithin(b, a);
    hide Distinct;
    DistinctBySize(InvocationIds(a));
    DistinctBySize(InvocationIds(b));
    assert Elements(InvocationIds(a)) == Elements(InvocationIds(b));
  }

  lemma ScopeOrderFree(a: seq<Record>, b: seq<Record>, scope: Scope, scopeId: string)
    requires multiset(a) == multiset(b)
    ensures SameScope(a, scope, scopeId) <==> SameScope(b, scope, scopeId)
  {
    SameElements(a, b);
    hide ScopeOf;
    forall r ensures r in a <==> r in b {
      assert r in Elements(a) <==> r in Elements(b);
    }
  }

  /** Reordering the input changes neither the summary nor the error. */
  lemma SummarizeOrderFree(a: seq<Record>, b: seq<Record>, scope: Scope, scopeId: string)
    requires multiset(a) == multiset(b)
    ensures SummaryFor(a, scope, scopeId) == SummaryFor(b, scope, scopeId)
  {
    hide SnapshotRecord, SummaryOf, Overflows, SameScope, ValidIdentifier, Distinct;
    SameElements(a, b);
    EachOrderFree(a, b, SnapshotRecord);
    if |a| <= MAX_SUMMARY_RECORDS && EachOf(a, SnapshotRecord).Some? {
      var r, s := EachOf(a, SnapshotRecord).value, EachOf(b, SnapshotRecord).value;
      SnapshotsValid(a);
      IdsOrderFree(r, s);
      ScopeOrderFree(r, s, scope, scopeId);
      OverflowOrderFree(r, s);
      if !Overflows(r) {
        SummaryOrderFree(scope, scopeId, r, s);
      }
    }
  }
}
