/** Invocation records and their validators (pmqa/usage/contracts.py). */
module UsageRecords {
  import opened Wrappers
  import opened Sequences
  import opened Decimals
  import opened Amounts
  import Calendar

  const MAX_USAGE_INTEGER: nat := 9_223_372_036_854_775_807
  const MAX_IDENTIFIER_LENGTH: nat := 256

  datatype CostType = ProviderReportedCost | EstimatedCost | SubscriptionIncluded | UnavailableCost

  datatype UnavailableReason = NotReported | NotSupported | ParsingFailed | NotCollected

  datatype TokenField = InputTokens | OutputTokens | CachedInputTokens | TotalTokens

  datatype UsageSource = ProviderReportedUsage | ParsedFromCli | EstimatedUsage | UnavailableUsage

  datatype Status = Succeeded | Failed | Cancelled

  datatype ErrorCategory = Validation | Configuration | Execution | Timeout | CancelledCategory | Provider | Internal

  /** A UTC instant: whole seconds since year 1 and microseconds. */
  datatype Timestamp = Timestamp(seconds: nat, micros: nat)

  datatype Absence = Absence(field: TokenField, reason: UnavailableReason)

  datatype TokenUsage = TokenUsage(
    source: UsageSource,
    input: Option<int>,
    output: Option<int>,
    cachedInput: Option<int>,
    total: Option<int>,
    unavailable: seq<Absence>)

  datatype Cost = Cost(
    kind: CostType,
    amount: Option<Decimal>,
    currency: Option<string>,
    sourceId: Option<string>,
    version: Option<string>,
    effectiveAt: Option<Timestamp>,
    reason: Option<UnavailableReason>)

  datatype Record = Record(
    invocationId: string,
    sessionId: string,
    runId: string,
    runnerInvocationId: Option<string>,
    provider: string,
    model: Option<string>,
    modelReason: Option<UnavailableReason>,
    operation: string,
    status: Status,
    startedAt: Timestamp,
    completedAt: Timestamp,
    durationMs: int,
    attempt: int,
    retryOf: Option<string>,
    fallbackFrom: Option<string>,
    usage: TokenUsage,
    cost: Cost,
    errorCategory: Option<ErrorCategory>)

  const TOKEN_FIELDS := [InputTokens, OutputTokens, CachedInputTokens, TotalTokens]

  function Count(u: TokenUsage, field: TokenField): Option<int> {
    match field
    case InputTokens => u.input
    case OutputTokens => u.output
    case CachedInputTokens => u.cachedInput
    case TotalTokens => u.total
  }

  // ----- identifiers and timestamps -----

  predicate IsIdentifierChar(c: char) {
    'a' <= c <= 'z' || '0' <= c <= '9'
  }

  predicate IsSeparator(c: char) {
    c == '.' || c == '_' || c == ':' || c == '-'
  }

  /** Groups of lower-case letters and digits joined by single separators, at most 256 characters. */
  predicate ValidIdentifier(s: string) {
    && 0 < |s| <= MAX_IDENTIFIER_LENGTH
    && (forall i :: 0 <= i < |s| ==> IsIdentifierChar(s[i]) || IsSeparator(s[i]))
    && IsIdentifierChar(s[0])
    && IsIdentifierChar(s[|s| - 1])
    && (forall i :: 0 < i < |s| && IsSeparator(s[i]) ==> !IsSeparator(s[i - 1]))
  }

  predicate ValidOptionalIdentifier(s: Option<string>) {
    s.Some? ==> ValidIdentifier(s.value)
  }

  predicate ValidCurrency(s: string) {
    |s| == 3 && forall i :: 0 <= i < 3 ==> 'A' <= s[i] <= 'Z'
  }

  const DAY_SECONDS: nat := 86_400

  predicate ValidTimestamp(t: Timestamp) {
    t.seconds < Calendar.MAX_DAYS * DAY_SECONDS && t.micros < 1_000_000
  }

  predicate NotAfter(a: Timestamp, b: Timestamp) {
    a.seconds < b.seconds || (a.seconds == b.seconds && a.micros <= b.micros)
  }

  function Padded(width: nat, n: nat): (s: string)
    requires DigitCount(n) <= width
    ensures |s| == width && AllDigits(s)
  {
    Zeros(width - DigitCount(n)) + Digits(n)
  }

  /** Digits in a field of fixed width; a number that does not fit is written in full. */
  function Field(width: nat, n: nat): (s: string)
    ensures DigitCount(n) <= width ==> |s| == width
  {
    if DigitCount(n) <= width then Padded(width, n) else Digits(n)
  }

  function DateText(n: nat): string {
    var d := Calendar.DateOf(n);
    Field(4, d.year) + ("-" + (Field(2, d.month) + ("-" + Field(2, d.day))))
  }

  function TimeText(s: nat): string {
    Field(2, s / 3600) + (":" + (Field(2, s / 60 % 60) + (":" + Field(2, s % 60))))
  }

  function MicrosText(n: nat): string {
    (if n == 0 then "" else "." + Field(6, n)) + "Z"
  }

  /** The canonical text of an instant. Microseconds appear only when not zero. */
  function TimestampText(t: Timestamp): (s: string)
    requires ValidTimestamp(t)
    ensures |s| > 0
  {
    DateText(t.seconds / DAY_SECONDS) + ("T" + (TimeText(t.seconds % DAY_SECONDS) + MicrosText(t.micros)))
  }

  lemma PaddedInjective(width: nat, m: nat, n: nat)
    requires DigitCount(m) <= width && DigitCount(n) <= width
    ensures Padded(width, m) == Padded(width, n) ==> m == n
  {
    PaddedValue(width, m);
    PaddedValue(width, n);
  }

  lemma PaddedValue(width: nat, n: nat)
    requires DigitCount(n) <= width
    ensures ParseNat(Padded(width, n)) == n
  {
    var k := width - DigitCount(n);
    ParseAppend(Zeros(k), Digits(n));
    ParseZeros(k);
    ShiftZero(DigitCount(n));
    ParseDigits(n);
  }

  lemma FieldInjective(width: nat, m: nat, n: nat)
    requires m < Pow10(width) && n < Pow10(width) && width > 0
    ensures |Field(width, m)| == |Field(width, n)| == width
    ensures Field(width, m) == Field(width, n) ==> m == n
  {
    DigitCountAtMost(m, width);
    DigitCountAtMost(n, width);
    PaddedInjective(width, m, n);
  }

  /** Texts of parts with the same lengths are equal only when the parts are. */
  lemma Parts(a: string, c: string, b: string, d: string)
    requires |a| == |b| && a + c == b + d
    ensures a == b && c == d
  {
    assert (a + c)[..|a|] == a && (a + c)[|a|..] == c;
    assert (b + d)[..|b|] == b && (b + d)[|b|..] == d;
  }

  lemma ThreeParts(a: string, b: string, c: string, x: string, y: string, z: string, by_: string)
    requires |a| == |x| && |b| == |y|
    ensures a + (by_ + (b + (by_ + c))) == x + (by_ + (y + (by_ + z))) ==> a == x && b == y && c == z
  {
    if a + (by_ + (b + (by_ + c))) == x + (by_ + (y + (by_ + z))) {
      Parts(a, by_ + (b + (by_ + c)), x, by_ + (y + (by_ + z)));
      Parts(by_, b + (by_ + c), by_, y + (by_ + z));
      Parts(b, by_ + c, y, by_ + z);
      Parts(by_, c, by_, z);
    }
  }

  lemma DateTextParts(n: nat)
    ensures var d := Calendar.DateOf(n);
            DateText(n) == Field(4, d.year) + ("-" + (Field(2, d.month) + ("-" + Field(2, d.day))))
  {}

  lemma DateTextInjective(m: nat, n: nat)
    requires m < Calendar.MAX_DAYS && n < Calendar.MAX_DAYS
    ensures |DateText(m)| == |DateText(n)| == 10
    ensures DateText(m) == DateText(n) ==> m == n
  {
    Calendar.YearFits(m);
    Calendar.YearFits(n);
    var d, e := Calendar.DateOf(m), Calendar.DateOf(n);
    assert Pow10(2) == 100 && Pow10(4) == 10_000;
    FieldInjective(4, d.year, e.year);
    FieldInjective(2, d.month, e.month);
    FieldInjective(2, d.day, e.day);
    hide Field, Pow10, Calendar.DateOf, DateText;
    DateTextParts(m);
    DateTextParts(n);
    ThreeParts(Field(4, d.year), Field(2, d.month), Field(2, d.day), Field(4, e.year), Field(2, e.month),
               Field(2, e.day), "-");
    assert DateText(m) == DateText(n) ==> d == e;
  }

  lemma TimeTextInjective(m: nat, n: nat)
    requires m < DAY_SECONDS && n < DAY_SECONDS
    ensures |TimeText(m)| == |TimeText(n)| == 8
    ensures TimeText(m) == TimeText(n) ==> m == n
  {
    assert Pow10(2) == 100;
    FieldInjective(2, m / 3600, n / 3600);
    FieldInjective(2, m / 60 % 60, n / 60 % 60);
    FieldInjective(2, m % 60, n % 60);
    hide Field, Pow10;
    ThreeParts(Field(2, m / 3600), Field(2, m / 60 % 60), Field(2, m % 60), Field(2, n / 3600), Field(2, n / 60 % 60),
               Field(2, n % 60), ":");
    SecondsOfFields(m);
    SecondsOfFields(n);
  }

  lemma SecondsOfFields(s: nat)
    ensures s == s / 3600 * 3600 + s / 60 % 60 * 60 + s % 60
  {}

  lemma TimestampTextInjective(a: Timestamp, b: Timestamp)
    requires ValidTimestamp(a) && ValidTimestamp(b) && TimestampText(a) == TimestampText(b)
    ensures a == b
  {
    var (m, n) := (a.seconds / DAY_SECONDS, b.seconds / DAY_SECONDS);
    var (s, t) := (a.seconds % DAY_SECONDS, b.seconds % DAY_SECONDS);
    DateTextInjective(m, n);
    TimeTextInjective(s, t);
    MicrosInjective(a.micros, b.micros);
    hide DateText, TimeText, MicrosText;
    Parts(DateText(m), "T" + (TimeText(s) + MicrosText(a.micros)), DateText(n),
          "T" + (TimeText(t) + MicrosText(b.micros)));
    Parts("T", TimeText(s) + MicrosText(a.micros), "T", TimeText(t) + MicrosText(b.micros));
    Parts(TimeText(s), MicrosText(a.micros), TimeText(t), MicrosText(b.micros));
  }

  lemma TimestampTextLength(t: Timestamp)
    requires ValidTimestamp(t)
    ensures |TimestampText(t)| == if t.micros == 0 then 20 else 27
  {
    var n, s := t.seconds / DAY_SECONDS, t.seconds % DAY_SECONDS;
    DateTextInjective(n, n);
    TimeTextInjective(s, s);
    assert Pow10(6) == 1_000_000;
    FieldInjective(6, t.micros, t.micros);
    hide DateText, TimeText, Field, Pow10;
    assert |MicrosText(t.micros)| == if t.micros == 0 then 1 else 8;
  }

  lemma MicrosInjective(m: nat, n: nat)
    requires m < 1_000_000 && n < 1_000_000
    ensures MicrosText(m) == MicrosText(n) ==> m == n
  {
    assert Pow10(6) == 1_000_000;
    FieldInjective(6, m, n);
    hide Field, Pow10;
    if MicrosText(m) == MicrosText(n) {
      assert |MicrosText(m)| == if m == 0 then 1 else 8;
      assert |MicrosText(n)| == if n == 0 then 1 else 8;
      assert m != 0 ==> MicrosText(m)[1..7] == Field(6, m) && MicrosText(n)[1..7] == Field(6, n);
    }
  }

  // ----- evidence and record validators -----

  predicate InUsageRange(n: int) {
    0 <= n <= MAX_USAGE_INTEGER
  }

  predicate ValidUsage(u: TokenUsage) {
    && (forall f :: Count(u, f).Some? ==> InUsageRange(Count(u, f).value))
    && |u.unavailable| <= 4
    && (forall i, j :: 0 <= i < j < |u.unavailable| ==> u.unavailable[i].field != u.unavailable[j].field)
    && (forall f :: Count(u, f).None? <==> exists i :: 0 <= i < |u.unavailable| && u.unavailable[i].field == f)
    && (u.source == UnavailableUsage <==> forall f :: Count(u, f).None?)
  }

  predicate IsMonetary(kind: CostType) {
    kind == ProviderReportedCost || kind == EstimatedCost
  }

  predicate HasAllPricing(sourceId: Option<string>, version: Option<string>, effectiveAt: Option<Timestamp>) {
    sourceId.Some? && version.Some? && effectiveAt.Some?
  }

  predicate HasAnyPricing(sourceId: Option<string>, version: Option<string>, effectiveAt: Option<Timestamp>) {
    sourceId.Some? || version.Some? || effectiveAt.Some?
  }

  /** The fields that make evidence compatible for aggregation: all but the amount. */
  datatype CostIdentity = CostIdentity(
    kind: CostType,
    currency: Option<string>,
    sourceId: Option<string>,
    version: Option<string>,
    effectiveAt: Option<Timestamp>,
    reason: Option<UnavailableReason>)

  function IdentityOf(c: Cost): CostIdentity {
    CostIdentity(c.kind, c.currency, c.sourceId, c.version, c.effectiveAt, c.reason)
  }

  /** The cross-field rules shared by cost evidence and cost buckets. */
  predicate ValidIdentity(id: CostIdentity, hasAmount: bool) {
    && (id.currency.Some? ==> ValidCurrency(id.currency.value))
    && ValidOptionalIdentifier(id.sourceId)
    && ValidOptionalIdentifier(id.version)
    && (id.effectiveAt.Some? ==> ValidTimestamp(id.effectiveAt.value))
    && (HasAnyPricing(id.sourceId, id.version, id.effectiveAt) ==>
        HasAllPricing(id.sourceId, id.version, id.effectiveAt))
    && (if IsMonetary(id.kind) then
          hasAmount && id.currency.Some? && id.reason.None?
          && (id.kind == EstimatedCost ==> HasAllPricing(id.sourceId, id.version, id.effectiveAt))
        else
          !hasAmount && id.currency.None? && !HasAnyPricing(id.sourceId, id.version, id.effectiveAt)
          && (id.kind == UnavailableCost <==> id.reason.Some?))
  }

  predicate AdmittedAmount(amount: Option<Decimal>) {
    amount.Some? ==> CanonicalDecimal(FromDecimal(amount.value)).Some?
  }

  predicate ValidCost(c: Cost) {
    ValidIdentity(IdentityOf(c), c.amount.Some?) && AdmittedAmount(c.amount)
  }

  /** The correlation policy between attempts and predecessors. */
  predicate ValidMetadata(r: Record) {
    && r.model.None? == r.modelReason.Some?
    && r.retryOf != Some(r.invocationId)
    && r.fallbackFrom != Some(r.invocationId)
    && (r.attempt == 1 ==> r.retryOf.None? && r.fallbackFrom.None?)
    && (r.attempt > 1 ==> r.retryOf.Some? != r.fallbackFrom.Some?)
  }

  predicate ValidRecord(r: Record) {
    && ValidIdentifier(r.invocationId) && ValidIdentifier(r.sessionId) && ValidIdentifier(r.runId)
    && ValidOptionalIdentifier(r.runnerInvocationId)
    && ValidIdentifier(r.provider) && ValidOptionalIdentifier(r.model) && ValidIdentifier(r.operation)
    && ValidTimestamp(r.startedAt) && ValidTimestamp(r.completedAt) && NotAfter(r.startedAt, r.completedAt)
    && InUsageRange(r.durationMs) && 1 <= r.attempt <= MAX_USAGE_INTEGER
    && ValidOptionalIdentifier(r.retryOf) && ValidOptionalIdentifier(r.fallbackFrom)
    && ValidUsage(r.usage) && ValidCost(r.cost)
    && (r.cost.effectiveAt.Some? ==> NotAfter(r.cost.effectiveAt.value, r.startedAt))
    && ValidMetadata(r)
    && (match r.status
        case Succeeded => r.errorCategory.None?
        case Failed => r.errorCategory.Some? && r.errorCategory != Some(CancelledCategory)
        case Cancelled => r.errorCategory == Some(CancelledCategory))
  }

  // ----- snapshots -----

  function SnapshotAmount(amount: Option<Decimal>): Option<Decimal>
    requires AdmittedAmount(amount)
  {
    match amount
    case None => None
    case Some(d) => CanonicalDecimal(FromText(Serialize(d)))
  }

  /** from_dict(to_dict()): rejects an invalid record and re-reads its amount. */
  function SnapshotRecord(r: Record): Option<Record> {
    if ValidRecord(r) then Some(r.(cost := r.cost.(amount := SnapshotAmount(r.cost.amount)))) else None
  }

  /** A record whose amount was read from canonical text. */
  predicate IsSnapshot(r: Record) {
    ValidRecord(r) && (r.cost.amount.Some? ==> IsSummand(r.cost.amount.value))
  }

  /** A text read within the bounds is a summand. */
  lemma ParsedIsSummand(s: string)
    requires CanonicalDecimal(FromText(s)).Some?
    ensures IsSummand(CanonicalDecimal(FromText(s)).value)
  {
    TextAdmission(s);
    TextFixedPoint(s);
    FormatParsed(s);
    LengthFormula(ParseText(s));
    if ParseText(s).coefficient == 0 {
      ZeroText(s);
      PointIndexOf("0", []);
    }
  }

  /** Snapshots exist exactly for valid records and hold a summand of the same value. */
  lemma SnapshotIsValid(r: Record)
    requires ValidRecord(r)
    ensures SnapshotRecord(r).Some? && IsSnapshot(SnapshotRecord(r).value)
    ensures r.cost.amount.Some? ==>
              SnapshotRecord(r).value.cost.amount.Some? &&
              SameValue(SnapshotRecord(r).value.cost.amount.value, r.cost.amount.value)
  {
    if r.cost.amount.Some? {
      var d := r.cost.amount.value;
      AdmittedRoundTrip(FromDecimal(d));
      ParsedIsSummand(Serialize(d));
      var s := SnapshotRecord(r).value;
      assert IdentityOf(s.cost) == IdentityOf(r.cost);
    }
  }
}
