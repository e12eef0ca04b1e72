/** The stored form of a summary is a small tree, so the canonical-tree check that every
    contract runs (pmqa/run/models.py) cannot reject what the aggregator returns. */
module UsageTree {
  import opened Wrappers
  import opened Sequences
  import opened Decimals
  import opened Amounts
  import opened UsageRecords
  import opened UsageTotals
  import opened UsageSummary
  import opened UsageLevels
  import opened UsageRollup
  import opened UsageAcceptance
  import P = PlainJson

  // ----- to_dict, as the tree of values it produces -----

  const PLAIN := P.Leaf(true)

  function TextTree(s: string): P.Tree {
    P.Leaf(|s| <= P.MAX_TEXT)
  }

  function OptionalTree(s: Option<string>): P.Tree {
    TextTree(TextOrEmpty(s))
  }

  function AmountTree(amount: Option<Decimal>): P.Tree {
    if amount.Some? && amount.value.Finite? then TextTree(Serialize(amount.value)) else PLAIN
  }

  /** Schema version, field, total and both counts. */
  function TokenTree(t: TokenSummary): P.Tree {
    P.Node(true, [PLAIN, PLAIN, PLAIN, PLAIN, PLAIN])
  }

  /** Schema version, type, currency, pricing source, version and date, reason, count, amount. */
  function BucketTree(b: Bucket): P.Tree {
    P.Node(true, [PLAIN, PLAIN, OptionalTree(b.identity.currency), OptionalTree(b.identity.sourceId),
                  OptionalTree(b.identity.version), TextTree(TimeOrEmpty(b.identity.effectiveAt)),
                  PLAIN, PLAIN, AmountTree(b.amount)])
  }

  function TokenTrees(ts: seq<TokenSummary>): (r: seq<P.Tree>)
    ensures |r| == |ts| && forall i :: 0 <= i < |ts| ==> r[i] == TokenTree(ts[i])
  {
    seq(|ts|, i requires 0 <= i < |ts| => TokenTree(ts[i]))
  }

  function BucketTrees(bs: seq<Bucket>): (r: seq<P.Tree>)
    ensures |r| == |bs| && forall i :: 0 <= i < |bs| ==> r[i] == BucketTree(bs[i])
  {
    seq(|bs|, i requires 0 <= i < |bs| => BucketTree(bs[i]))
  }

  /** Schema version, the key, six counts and the duration. */
  function GroupLeaves(g: Group): seq<P.Tree> {
    [PLAIN, TextTree(g.key.provider), OptionalTree(g.key.model), PLAIN, PLAIN, PLAIN, PLAIN, PLAIN, PLAIN, PLAIN, PLAIN]
  }

  function TokensNode(m: Metrics): P.Tree {
    P.Node(true, TokenTrees(m.tokens))
  }

  function BucketsNode(m: Metrics): P.Tree {
    P.Node(true, BucketTrees(m.buckets))
  }

  function GroupTree(g: Group): P.Tree {
    P.Node(true, GroupLeaves(g) + [TokensNode(g.metrics), BucketsNode(g.metrics)])
  }

  function GroupTrees(gs: seq<Group>): (r: seq<P.Tree>)
    ensures |r| == |gs| && forall i :: 0 <= i < |gs| ==> r[i] == GroupTree(gs[i])
  {
    seq(|gs|, i requires 0 <= i < |gs| => GroupTree(gs[i]))
  }

  function GroupsNode(s: Summary): P.Tree {
    P.Node(true, GroupTrees(s.groups))
  }

  /** Schema version, scope, scope id, six counts and the duration. */
  function SummaryLeaves(s: Summary): seq<P.Tree> {
    [PLAIN, PLAIN, TextTree(s.scopeId), PLAIN, PLAIN, PLAIN, PLAIN, PLAIN, PLAIN, PLAIN]
  }

  function SummaryTree(s: Summary): P.Tree {
    P.Node(true, SummaryLeaves(s) + [TokensNode(s.metrics), BucketsNode(s.metrics), GroupsNode(s)])
  }

  // ----- size -----

  lemma {:induction false} SizeAppend(a: seq<P.Tree>, b: seq<P.Tree>)
    ensures P.SizeAll(a + b) == P.SizeAll(a) + P.SizeAll(b)
  {
    if a == [] {
      assert a + b == b;
    } else {
      SizeAppend(a[1..], b);
      assert (a + b)[1..] == a[1..] + b;
    }
  }

  lemma {:induction false} SizeUniform(ts: seq<P.Tree>, n: nat)
    requires forall i :: 0 <= i < |ts| ==> P.Size(ts[i]) == n
    ensures P.SizeAll(ts) == n * |ts|
  {
    if ts != [] {
      SizeUniform(ts[1..], n);
      assert n * |ts| == n + n * |ts[1..]|;
    }
  }

  predicate IsLeaf(t: P.Tree) {
    t.Leaf?
  }

  lemma LeavesSize(ts: seq<P.Tree>)
    requires forall i :: 0 <= i < |ts| ==> IsLeaf(ts[i])
    ensures P.SizeAll(ts) == |ts|
  {
    SizeUniform(ts, 1);
  }

  lemma TokensSize(ts: seq<TokenSummary>)
    ensures P.SizeAll(TokenTrees(ts)) == 6 * |ts|
  {
    forall i | 0 <= i < |ts| ensures P.Size(TokenTrees(ts)[i]) == 6 {
      LeavesSize(TokenTree(ts[i]).children);
    }
    SizeUniform(TokenTrees(ts), 6);
  }

  lemma BucketsSize(bs: seq<Bucket>)
    ensures P.SizeAll(BucketTrees(bs)) == 10 * |bs|
  {
    forall i | 0 <= i < |bs| ensures P.Size(BucketTrees(bs)[i]) == 10 {
      LeavesSize(BucketTree(bs[i]).children);
    }
    SizeUniform(BucketTrees(bs), 10);
  }

  lemma OneSize(s: P.Tree)
    ensures P.SizeAll([s]) == P.Size(s)
  {
    assert [s][1..] == [];
  }

  lemma PairSize(s: P.Tree, t: P.Tree)
    ensures P.SizeAll([s, t]) == P.Size(s) + P.Size(t)
  {
    assert [s, t][1..] == [t];
    OneSize(t);
  }

  /** A node of leaves and two arrays. */
  lemma LevelSize(leaves: seq<P.Tree>, m: Metrics)
    requires (forall i :: 0 <= i < |leaves| ==> IsLeaf(leaves[i])) && |m.tokens| == 4
    ensures P.SizeAll(leaves + [TokensNode(m), BucketsNode(m)]) == |leaves| + 26 + 10 * |m.buckets|
  {
    TokensSize(m.tokens);
    BucketsSize(m.buckets);
    assert P.Size(TokensNode(m)) == 25 && P.Size(BucketsNode(m)) == 1 + 10 * |m.buckets|;
    hide P.Size, P.SizeAll, TokensNode, BucketsNode;
    LeavesSize(leaves);
    PairSize(TokensNode(m), BucketsNode(m));
    SizeAppend(leaves, [TokensNode(m), BucketsNode(m)]);
  }

  lemma GroupSize(g: Group)
    requires |g.metrics.tokens| == 4
    ensures P.Size(GroupTree(g)) == 38 + 10 * |g.metrics.buckets|
  {
    LevelSize(GroupLeaves(g), g.metrics);
    hide P.SizeAll, TokensNode, BucketsNode;
    assert P.Size(GroupTree(g)) == 1 + P.SizeAll(GroupLeaves(g) + [TokensNode(g.metrics), BucketsNode(g.metrics)]);
  }

  lemma {:induction false} GroupsSize(gs: seq<Group>)
    requires FourTokens(gs)
    ensures P.SizeAll(GroupTrees(gs)) == 38 * |gs| + 10 * |AllBuckets(gs)|
  {
    if gs == [] {
      assert GroupTrees(gs) == [];
    } else {
      hide P.Size, P.SizeAll, GroupTree;
      var init, g := gs[..|gs| - 1], gs[|gs| - 1];
      assert forall x :: x in init ==> x in gs;
      GroupsSize(init);
      GroupSize(g);
      assert GroupTrees(gs) == GroupTrees(init) + [GroupTree(g)];
      SizeAppend(GroupTrees(init), [GroupTree(g)]);
      OneSize(GroupTree(g));
    }
  }

  lemma SummarySize(s: Summary)
    requires |s.metrics.tokens| == 4 && FourTokens(s.groups)
    ensures P.Size(SummaryTree(s)) ==
            38 + 10 * |s.metrics.buckets| + 38 * |s.groups| + 10 * |AllBuckets(s.groups)|
  {
    GroupsSize(s.groups);
    LevelSize(SummaryLeaves(s), s.metrics);
    OneSize(GroupsNode(s));
    assert P.Size(GroupsNode(s)) == 1 + P.SizeAll(GroupTrees(s.groups));
    hide P.SizeAll, TokensNode, BucketsNode, GroupsNode, FourTokens, AllBuckets;
    var level := SummaryLeaves(s) + [TokensNode(s.metrics), BucketsNode(s.metrics)];
    SizeAppend(level, [GroupsNode(s)]);
    assert level + [GroupsNode(s)] == SummaryLeaves(s) + [TokensNode(s.metrics), BucketsNode(s.metrics), GroupsNode(s)];
    assert P.Size(SummaryTree(s)) == 1 + P.SizeAll(level + [GroupsNode(s)]);
  }

  /** Buckets of all groups together are no more than the records. */
  lemma {:induction false} GroupBucketsBounded(gs: seq<Group>, rs: seq<Record>)
    requires Summable(rs) && forall i :: 0 <= i < |gs| ==> gs[i].metrics == CanonicalMetrics(Select(rs, gs[i].key))
    ensures |AllBuckets(gs)| <= GroupsTotal(GroupKeys(gs), Invocations, rs)
  {
    hide CanonicalMetrics, Summable, Total, Select;
    if gs != [] {
      var init, g := gs[..|gs| - 1], gs[|gs| - 1];
      GroupBucketsBounded(init, rs);
      assert GroupKeys(gs)[..|init|] == GroupKeys(init);
      GroupSummable(rs, g.key);
      BucketsNoMoreThanRecords(Select(rs, g.key));
    }
  }

  lemma BucketsNoMoreThanRecords(rs: seq<Record>)
    requires Summable(rs)
    ensures |CanonicalMetrics(rs).buckets| <= |rs| && |rs| == Total(Invocations, rs)
  {
    SortContents(ReadBuckets(MetricsOf(rs).buckets), BucketKey);
    CountLaws(rs);
  }

  /** A summary of n records has at most 38 + 58 n nodes. */
  lemma SummaryNodes(scope: Scope, scopeId: string, rs: seq<Record>)
    requires Summable(rs)
    ensures P.Size(SummaryTree(SummaryOf(scope, scopeId, rs))) <= 38 + 58 * |rs| <= 3750
  {
    var s := SummaryOf(scope, scopeId, rs);
    GroupsHaveTokens(rs);
    LevelToken(rs, InputTokens, ObservedColumn);
    BucketsNoMoreThanRecords(rs);
    GroupsMeaning(rs);
    SortContents(GroupsOf(FirstOccurrences(Keys(rs)), rs), GroupSortKey);
    hide CanonicalMetrics, Summable, Select;
    GroupBucketsBounded(s.groups, rs);
    GroupsMakeTotal(GroupKeys(s.groups), Invocations, rs);
    hide CanonicalGroups, Total;
    SummarySize(s);
  }

  // ----- depth and leaves -----

  predicate PlainWithin(t: P.Tree, levels: nat) {
    P.Legal(t) && P.Within(t, levels)
  }

  lemma NodePlain(ts: seq<P.Tree>, levels: nat)
    requires forall i :: 0 <= i < |ts| ==> PlainWithin(ts[i], levels)
    ensures PlainWithin(P.Node(true, ts), levels + 1)
  {}

  lemma {:induction false} PlainDeeper(t: P.Tree, a: nat, b: nat)
    requires PlainWithin(t, a) && a <= b
    ensures PlainWithin(t, b)
    decreases t
  {
    if t.Node? && t.children != [] {
      forall i | 0 <= i < |t.children| ensures PlainWithin(t.children[i], b - 1) {
        PlainDeeper(t.children[i], a - 1, b - 1);
      }
    }
  }

  lemma IdentityTexts(id: CostIdentity, hasAmount: bool)
    requires ValidIdentity(id, hasAmount)
    ensures |TextOrEmpty(id.currency)| <= 256 && |TextOrEmpty(id.sourceId)| <= 256 && |TextOrEmpty(id.version)| <= 256
    ensures |TimeOrEmpty(id.effectiveAt)| <= 256
  {
    hide TimestampText;
    if id.effectiveAt.Some? {
      TimestampTextLength(id.effectiveAt.value);
    }
  }

  lemma AmountText(amount: Option<Decimal>)
    requires AdmittedAmount(amount)
    ensures P.Legal(AmountTree(amount))
  {
    if amount.Some? {
      PrintedReparses(amount.value);
    }
  }

  lemma BucketPlain(b: Bucket)
    requires BucketContract(b).Some?
    ensures PlainWithin(BucketTree(b), 1)
  {
    hide ValidIdentity, AdmittedAmount, SnapshotAmount, PlainWithin, TimeOrEmpty, TextOrEmpty, AmountTree;
    IdentityTexts(b.identity, b.amount.Some?);
    TextPlain(TextOrEmpty(b.identity.currency));
    TextPlain(TextOrEmpty(b.identity.sourceId));
    TextPlain(TextOrEmpty(b.identity.version));
    TextPlain(TimeOrEmpty(b.identity.effectiveAt));
    TextPlain("");
    AmountPlain(b.amount);
    NodePlain(BucketTree(b).children, 0);
  }

  lemma TextPlain(s: string)
    requires |s| <= 256
    ensures PlainWithin(TextTree(s), 0) && PlainWithin(PLAIN, 0)
  {}

  lemma AmountPlain(amount: Option<Decimal>)
    requires AdmittedAmount(amount)
    ensures PlainWithin(AmountTree(amount), 0)
  {
    AmountText(amount);
    hide Serialize;
  }

  lemma LevelPlain(rs: seq<Record>)
    requires Summable(rs)
    ensures PlainWithin(TokensNode(CanonicalMetrics(rs)), 2) && PlainWithin(BucketsNode(CanonicalMetrics(rs)), 2)
  {
    StoredBucketsAccepted(rs);
    hide CanonicalMetrics, Summable;
    TokensPlain(CanonicalMetrics(rs));
    BucketsPlain(CanonicalMetrics(rs));
  }

  lemma TokensPlain(m: Metrics)
    ensures PlainWithin(TokensNode(m), 2)
  {
    forall i | 0 <= i < |m.tokens| ensures PlainWithin(TokenTrees(m.tokens)[i], 1) {
      NodePlain(TokenTree(m.tokens[i]).children, 0);
    }
    hide PlainWithin;
    NodePlain(TokenTrees(m.tokens), 1);
  }

  lemma BucketsPlain(m: Metrics)
    requires forall b :: b in m.buckets ==> BucketContract(b).Some?
    ensures PlainWithin(BucketsNode(m), 2)
  {
    hide PlainWithin, BucketContract;
    forall i | 0 <= i < |m.buckets| ensures PlainWithin(BucketTrees(m.buckets)[i], 1) {
      BucketPlain(m.buckets[i]);
    }
    NodePlain(BucketTrees(m.buckets), 1);
  }

  /** Leaves and plain arrays make a plain node. */
  lemma LevelNodePlain(leaves: seq<P.Tree>, arrays: seq<P.Tree>, levels: nat)
    requires forall i :: 0 <= i < |leaves| ==> PlainWithin(leaves[i], 0)
    requires forall i :: 0 <= i < |arrays| ==> PlainWithin(arrays[i], levels)
    ensures PlainWithin(P.Node(true, leaves + arrays), levels + 1)
  {
    hide P.Legal;
    forall i | 0 <= i < |leaves| ensures PlainWithin(leaves[i], levels) {
      PlainDeeper(leaves[i], 0, levels);
    }
    hide PlainWithin;
    NodePlain(leaves + arrays, levels);
  }

  lemma GroupLeavesPlain(g: Group)
    requires ValidKey(g.key)
    ensures forall i :: 0 <= i < |GroupLeaves(g)| ==> PlainWithin(GroupLeaves(g)[i], 0)
  {}

  lemma GroupPlain(g: Group, rs: seq<Record>)
    requires Summable(rs) && ValidKey(g.key) && g.metrics == CanonicalMetrics(rs)
    ensures PlainWithin(GroupTree(g), 3)
  {
    LevelPlain(rs);
    GroupLeavesPlain(g);
    hide CanonicalMetrics, Summable, TokensNode, BucketsNode, GroupLeaves, PlainWithin;
    LevelNodePlain(GroupLeaves(g), [TokensNode(g.metrics), BucketsNode(g.metrics)], 2);
  }

  lemma GroupsPlain(scope: Scope, scopeId: string, rs: seq<Record>)
    requires Summable(rs)
    ensures PlainWithin(GroupsNode(SummaryOf(scope, scopeId, rs)), 4)
  {
    var gs := CanonicalGroups(rs);
    GroupsMeaning(rs);
    hide CanonicalMetrics, Select, CanonicalGroups, GroupTree;
    forall i | 0 <= i < |gs| ensures PlainWithin(GroupTrees(gs)[i], 3) {
      var r := KeyWitness(gs[i].key, rs);
      assert IsSnapshot(r);
      GroupSummable(rs, gs[i].key);
      GroupPlain(gs[i], Select(rs, gs[i].key));
    }
    NodePlain(GroupTrees(gs), 3);
  }

  lemma SummaryPlain(scope: Scope, scopeId: string, rs: seq<Record>)
    requires Summable(rs) && ValidIdentifier(scopeId)
    ensures PlainWithin(SummaryTree(SummaryOf(scope, scopeId, rs)), 5)
  {
    var s := SummaryOf(scope, scopeId, rs);
    LevelPlain(rs);
    GroupsPlain(scope, scopeId, rs);
    SummaryLeavesPlain(s);
    hide CanonicalMetrics, CanonicalGroups, Summable, TokensNode, BucketsNode, GroupsNode, SummaryLeaves, PlainWithin;
    SummaryNodePlain(SummaryLeaves(s), TokensNode(s.metrics), BucketsNode(s.metrics), GroupsNode(s));
  }

  lemma SummaryLeavesPlain(s: Summary)
    requires ValidIdentifier(s.scopeId)
    ensures forall i :: 0 <= i < |SummaryLeaves(s)| ==> PlainWithin(SummaryLeaves(s)[i], 0)
  {}

  lemma SummaryNodePlain(leaves: seq<P.Tree>, tokens: P.Tree, buckets: P.Tree, groups: P.Tree)
    requires forall i :: 0 <= i < |leaves| ==> PlainWithin(leaves[i], 0)
    requires PlainWithin(tokens, 2) && PlainWithin(buckets, 2) && PlainWithin(groups, 4)
    ensures PlainWithin(P.Node(true, leaves + [tokens, buckets, groups]), 5)
  {
    hide PlainWithin;
    PlainDeeper(tokens, 2, 4);
    PlainDeeper(buckets, 2, 4);
    LevelNodePlain(leaves, [tokens, buckets, groups], 4);
  }

  /** The stored summary passes the canonical-tree check, however its tree is built. */
  lemma SummaryTreeAccepted(scope: Scope, scopeId: string, rs: seq<Record>, h: P.Heap, v: P.Value)
    requires Summable(rs) && ValidIdentifier(scopeId)
    requires P.Unfolds(h, v, SummaryTree(SummaryOf(scope, scopeId, rs)))
    ensures P.Accepts(h, v)
  {
    SummaryNodes(scope, scopeId, rs);
    SummaryPlain(scope, scopeId, rs);
    hide SummaryTree, SummaryOf, Summable;
    PlainDeeper(SummaryTree(SummaryOf(scope, scopeId, rs)), 5, P.MAX_DEPTH);
    P.AcceptsExactly(h, v);
  }
}
