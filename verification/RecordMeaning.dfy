/** What the usage contracts admit (pmqa/run/models.py, validate_run_identifier, and
    pmqa/usage/contracts.py): identifiers as segments, cost evidence by its type, records by their
    status and attempt. */
module RecordMeaning {
  import opened Wrappers
  import opened Decimals
  import opened UsageRecords

  // ----- identifiers -----

  predicate IsWord(s: string) {
    s != "" && forall i :: 0 <= i < |s| ==> 'a' <= s[i] <= 'z' || '0' <= s[i] <= '9'
  }

  predicate Splits(s: string, i: nat) {
    0 < i < |s| && s[i] in ".:_-" && IsWord(s[..i])
  }

  /** Lower-case alphanumeric words, joined by single separators. */
  predicate Segmented(s: string)
    decreases |s|
  {
    IsWord(s) || exists i :: 0 < i < |s| && Splits(s, i) && Segmented(s[i + 1..])
  }

  /** The characters and neighbours an identifier may have, apart from its length. */
  predicate Shaped(s: string) {
    && s != "" && (forall i :: 0 <= i < |s| ==> IsIdentifierChar(s[i]) || IsSeparator(s[i]))
    && IsIdentifierChar(s[0]) && IsIdentifierChar(s[|s| - 1])
    && (forall i :: 0 < i < |s| && IsSeparator(s[i]) ==> !IsSeparator(s[i - 1]))
  }

  lemma {:induction false} ShapedIsSegmented(s: string)
    requires Shaped(s)
    ensures Segmented(s)
    decreases |s|
  {
    if !IsWord(s) {
      var i := FirstSeparator(s);
      TailIsShaped(s, i);
      ShapedIsSegmented(s[i + 1..]);
      assert Splits(s, i);
    }
  }

  lemma TailIsShaped(s: string, i: nat)
    requires Shaped(s) && i < |s| - 1 && IsSeparator(s[i])
    ensures Shaped(s[i + 1..])
  {
    var rest := s[i + 1..];
    forall j | 0 <= j < |rest| ensures rest[j] == s[i + 1 + j] {}
    assert rest[|rest| - 1] == s[|s| - 1];
  }

  lemma FirstSeparator(s: string) returns (i: nat)
    requires Shaped(s) && !IsWord(s)
    ensures 0 < i < |s| - 1 && IsSeparator(s[i]) && IsWord(s[..i])
  {
    i := 0;
    while i < |s| && IsIdentifierChar(s[i])
      invariant i <= |s| && forall j :: 0 <= j < i ==> IsIdentifierChar(s[j])
    {
      i := i + 1;
    }
  }

  lemma {:induction false} SegmentedIsShaped(s: string)
    requires Segmented(s)
    ensures Shaped(s)
    decreases |s|
  {
    if !IsWord(s) {
      var i :| 0 < i < |s| && Splits(s, i) && Segmented(s[i + 1..]);
      var rest := s[i + 1..];
      SegmentedIsShaped(rest);
      WordThenRest(s, i);
    }
  }

  lemma WordThenRest(s: string, i: nat)
    requires Splits(s, i) && Shaped(s[i + 1..])
    ensures Shaped(s)
  {
    var word, rest := s[..i], s[i + 1..];
    assert s == word + [s[i]] + rest;
    assert s[0] == word[0] && s[|s| - 1] == rest[|rest| - 1];
    forall j | 0 <= j < |s| && j != i ensures s[j] == if j < i then word[j] else rest[j - i - 1] {}
  }

  /** An identifier is at most 256 characters of words joined by single separators. */
  lemma IdentifiersAreSegments(s: string)
    ensures ValidIdentifier(s) <==> |s| <= 256 && Segmented(s)
  {
    if Shaped(s) {
      ShapedIsSegmented(s);
    }
    if Segmented(s) {
      SegmentedIsShaped(s);
    }
  }

  // ----- evidence -----

  /** A token count is given within range, or its field is declared absent. */
  predicate Accounted(u: TokenUsage, count: Option<int>, field: TokenField) {
    if count.Some? then 0 <= count.value < 0x8000_0000_0000_0000 && forall a :: a in u.unavailable ==> a.field != field
    else exists i :: 0 <= i < |u.unavailable| && u.unavailable[i].field == field
  }

  /** Token evidence: each field counted or declared absent, none declared twice, and the source
      unavailable exactly when nothing is counted. */
  lemma UsageMeans(u: TokenUsage)
    ensures ValidUsage(u) <==>
              && Accounted(u, u.input, InputTokens) && Accounted(u, u.output, OutputTokens)
              && Accounted(u, u.cachedInput, CachedInputTokens) && Accounted(u, u.total, TotalTokens)
              && |u.unavailable| <= 4
              && (forall i, j :: 0 <= i < j < |u.unavailable| ==> u.unavailable[i].field != u.unavailable[j].field)
              && (u.source == UnavailableUsage <==>
                  u.input.None? && u.output.None? && u.cachedInput.None? && u.total.None?)
  {
    assert Count(u, InputTokens) == u.input && Count(u, OutputTokens) == u.output;
    assert Count(u, CachedInputTokens) == u.cachedInput && Count(u, TotalTokens) == u.total;
  }

  /** The price source, its version and its instant are given together or not at all. */
  predicate Priced(c: Cost) {
    c.sourceId.Some? && c.version.Some? && c.effectiveAt.Some?
  }

  predicate Unpriced(c: Cost) {
    c.sourceId.None? && c.version.None? && c.effectiveAt.None?
  }

  predicate Spent(c: Cost) {
    c.amount.Some? && c.currency.Some? && c.reason.None?
  }

  predicate Unspent(c: Cost) {
    c.amount.None? && c.currency.None? && Unpriced(c)
  }

  predicate ThreeCapitals(s: string) {
    |s| == 3 && 'A' <= s[0] <= 'Z' && 'A' <= s[1] <= 'Z' && 'A' <= s[2] <= 'Z'
  }

  /** An amount of money: finite, not below zero, and at most 128 characters long as fixed-point
      text, unless it is zero. */
  predicate Money(d: Decimal) {
    && d.Finite? && !(d.negative && d.coefficient != 0)
    && (d.coefficient != 0 ==> |FormatFixed(d)| <= 128)
  }

  /** Cost evidence by its type: reported and estimated costs have an amount and a currency, an
      estimate also says what it was priced by; included and unavailable costs have neither, and
      only an unavailable cost has a reason. */
  lemma CostMeans(c: Cost)
    ensures ValidCost(c) <==>
              && (c.currency.Some? ==> ThreeCapitals(c.currency.value))
              && (c.sourceId.Some? ==> ValidIdentifier(c.sourceId.value))
              && (c.version.Some? ==> ValidIdentifier(c.version.value))
              && (c.effectiveAt.Some? ==> ValidTimestamp(c.effectiveAt.value))
              && (c.amount.Some? ==> Money(c.amount.value))
              && match c.kind
                 case ProviderReportedCost => Spent(c) && (Priced(c) || Unpriced(c))
                 case EstimatedCost => Spent(c) && Priced(c)
                 case SubscriptionIncluded => Unspent(c) && c.reason.None?
                 case UnavailableCost => Unspent(c) && c.reason.Some?
  {
    hide ValidIdentifier, ValidTimestamp, FormatFixed, SerializedLength, Serialize;
    if c.amount.Some? && c.amount.value.Finite? {
      LengthFormula(c.amount.value);
    }
  }

  // ----- records -----

  /** Only a first attempt has no predecessor; a later one retries one invocation or falls back
      from one, never both, and never itself. */
  predicate Lineage(r: Record) {
    && 1 <= r.attempt < 0x8000_0000_0000_0000
    && (if r.attempt == 1 then r.retryOf.None? && r.fallbackFrom.None?
        else if r.retryOf.Some? then r.fallbackFrom.None? && r.retryOf.value != r.invocationId
        else r.fallbackFrom.Some? && r.fallbackFrom.value != r.invocationId)
  }

  predicate Outcome(r: Record) {
    match r.errorCategory
    case None => r.status == Succeeded
    case Some(CancelledCategory) => r.status == Cancelled
    case Some(_) => r.status == Failed
  }

  predicate Chronology(r: Record) {
    && ValidTimestamp(r.startedAt) && ValidTimestamp(r.completedAt)
    && Earlier(r.startedAt, r.completedAt) && 0 <= r.durationMs < 0x8000_0000_0000_0000
    && (r.cost.effectiveAt.Some? ==> Earlier(r.cost.effectiveAt.value, r.startedAt))
  }

  /** Not later, counted in microseconds. */
  predicate Earlier(a: Timestamp, b: Timestamp) {
    a.seconds * 1_000_000 + a.micros <= b.seconds * 1_000_000 + b.micros
  }

  lemma EarlierIsNotAfter(a: Timestamp, b: Timestamp)
    requires a.micros < 1_000_000 && b.micros < 1_000_000
    ensures NotAfter(a, b) <==> Earlier(a, b)
  {}

  /** An instant is before the year 10000: day 3652059, at 86400 seconds a day. */
  lemma InstantsAreBounded(t: Timestamp)
    ensures ValidTimestamp(t) <==> t.seconds < 3_652_059 * 86_400 && t.micros < 1_000_000
  {}

  /** A usage record: its identifiers, its evidence, its lineage, its outcome and its chronology
      are in order, and its model is named or its absence explained. */
  lemma RecordMeans(r: Record)
    ensures ValidRecord(r) <==>
              && (forall s :: s in {r.invocationId, r.sessionId, r.runId, r.provider, r.operation} ==>
                  ValidIdentifier(s))
              && (forall s :: s in {r.runnerInvocationId, r.model, r.retryOf, r.fallbackFrom} && s.Some? ==>
                    ValidIdentifier(s.value))
              && (r.model.Some? <==> r.modelReason.None?)
              && ValidUsage(r.usage) && ValidCost(r.cost) && Lineage(r) && Outcome(r) && Chronology(r)
  {
    hide ValidIdentifier, ValidUsage;
    InstantsAreBounded(r.startedAt);
    InstantsAreBounded(r.completedAt);
    if ValidTimestamp(r.startedAt) && ValidTimestamp(r.completedAt) {
      EarlierIsNotAfter(r.startedAt, r.completedAt);
    }
    if r.cost.effectiveAt.Some? && ValidCost(r.cost) && ValidTimestamp(r.startedAt) {
      assert ValidTimestamp(r.cost.effectiveAt.value);
      EarlierIsNotAfter(r.cost.effectiveAt.value, r.startedAt);
    }
    hide ValidCost, ValidTimestamp, Earlier, NotAfter;
    assert r.invocationId in {r.invocationId, r.sessionId, r.runId, r.provider, r.operation};
  }
}
