/** What one terminal call answers, for every handle, evidence and clock
    (pmqa/usage/collector.py, _terminalize and _build_record), and what its record says. */
module CollectorAnswers {
  import opened Wrappers
  import opened UsageRecords
  import opened InvocationCollector
  import opened CollectorHandles
  import RepositoryFiles

  /** A failure of no category, or of the one reserved for cancellation. */
  predicate Unfit(t: Terminal) {
    t == Fail(None) || t == Fail(Some(CancelledCategory))
  }

  predicate Usable(call: Call) {
    call.usage.Some? && call.cost.Some? && ValidUsage(call.usage.value) && ValidCost(call.cost.value)
  }

  /** The milliseconds between two readings, rounded half up: none if they run backwards or the
      result is out of range. */
  predicate Lasts(started: real, completed: real, duration: int) {
    && started <= completed && 0 <= duration < 0x8000_0000_0000_0000
    && duration as real - 0.5 <= (completed - started) * 1000.0 < duration as real + 0.5
  }

  predicate Later(a: Timestamp, b: Timestamp) {
    a.seconds > b.seconds || (a.seconds == b.seconds && a.micros > b.micros)
  }

  /** The record of an invocation: the metadata and instants of its start and end, the outcome the
      call names, and the call's evidence with its amount in canonical form. */
  predicate Recorded(a: Active, call: Call, at: Timestamp, r: Record)
    requires Usable(call)
  {
    var m := a.metadata;
    && r.invocationId == m.invocationId && r.sessionId == m.sessionId && r.runId == m.runId
    && r.runnerInvocationId == m.runnerInvocationId && r.provider == m.provider && r.model == m.model
    && r.modelReason == m.modelReason && r.operation == m.operation && r.attempt == m.attempt
    && r.retryOf == m.retryOf && r.fallbackFrom == m.fallbackFrom
    && r.startedAt == a.startedAt && r.completedAt == at
    && (match call.terminal
        case Complete => r.status == Succeeded && r.errorCategory == None
        case Fail(category) => r.status == Failed && r.errorCategory == category
        case Cancel => r.status == Cancelled && r.errorCategory == Some(CancelledCategory))
    && r.usage == call.usage.value && r.cost == call.cost.value.(amount := r.cost.amount)
    && r.cost.amount == SnapshotAmount(call.cost.value.amount)
  }

  lemma EvidenceIsUsable(call: Call)
    ensures SnapshotEvidence(call.usage, call.cost).Some? <==> Usable(call)
  {}

  lemma DurationMeans(started: real, completed: real)
    ensures match DurationMilliseconds(started, completed)
            case None => forall n :: !Lasts(started, completed, n)
            case Some(n) => Lasts(started, completed, n)
  {
    forall n: nat ensures DurationMilliseconds(started, completed) == Some(n) <==> Lasts(started, completed, n) {
      DurationIsNearest(started, completed, n);
    }
  }

  lemma RecordSays(a: Active, call: Call, at: Instant, monotonic: real)
    requires Usable(call) && SnapshotEvidence(call.usage, call.cost).Some?
    requires var (u, c) := SnapshotEvidence(call.usage, call.cost).value;
             BuildRecord(a, call.terminal, u, c, at, monotonic).Ok?
    ensures var (u, c) := SnapshotEvidence(call.usage, call.cost).value;
            var r := BuildRecord(a, call.terminal, u, c, at, monotonic).value;
            Recorded(a, call, at, r) && Lasts(a.startedMonotonic, monotonic, r.durationMs)
  {
    var (u, c) := SnapshotEvidence(call.usage, call.cost).value;
    BuiltRecordSays(a, call.terminal, u, c, at, monotonic);
    DurationMeans(a.startedMonotonic, monotonic);
    if call.cost.value.amount.Some? {
      RepositoryFiles.AmountIsStable(call.cost.value.amount.value);
    }
    hide ValidUsage, ValidRecord, BuildRecord, SnapshotAmount, DurationMilliseconds, Lasts, ValidIdentity;
  }

  /** One terminal call on its own: refused in this order for its category, its handle and its
      evidence, where only an altered handle loses its entry; otherwise the entry is gone, and the
      call fails for its clocks, its duration or a price from after the start, or yields that
      record. */
  lemma AnswersExactly(active: ActiveMap, call: Call, b: Binding, wall: Option<Instant>, monotonic: Option<real>)
    requires forall h :: h in active ==> ValidMetadataValues(active[h].metadata)
    ensures var (r, after) := TerminalizeAlone(active, call, b, wall, monotonic);
            if Unfit(call.terminal) then r == Err(InvalidErrorCategory) && after == active
            else if call.handle.None? || call.handle.value !in active then r == Err(InvalidHandle) && after == active
            else if !Intact(active, call.handle.value, b) then
              r == Err(InvalidHandle) && after == active - {call.handle.value}
            else if !Usable(call) then r == Err(InvalidEvidence) && after == active
            else
              var a := active[call.handle.value];
              && after == active - {call.handle.value}
              && if wall.None? || monotonic.None? || Later(a.startedAt, wall.value) then r == Err(InvalidClock)
                 else if forall n :: !Lasts(a.startedMonotonic, monotonic.value, n) then r == Err(InvalidDuration)
                 else if call.cost.value.effectiveAt.Some? && Later(call.cost.value.effectiveAt.value, a.startedAt) then
                   r == Err(TerminalizationFailed)
                 else r.Ok? && Recorded(a, call, wall.value, r.value)
                      && Lasts(a.startedMonotonic, monotonic.value, r.value.durationMs)
  {
    EvidenceIsUsable(call);
    hide SnapshotEvidence, Usable;
    if AcceptedCategory(call.terminal) && call.handle.Some? && Intact(active, call.handle.value, b) && Usable(call)
       && wall.Some? && monotonic.Some? {
      RecordAnswers(active[call.handle.value], call, wall.value, monotonic.value);
    }
    hide BuildRecord, Lasts, Recorded, ValidMetadataValues;
  }

  lemma RecordAnswers(a: Active, call: Call, at: Instant, monotonic: real)
    requires ValidMetadataValues(a.metadata) && AcceptedCategory(call.terminal)
    requires Usable(call) && SnapshotEvidence(call.usage, call.cost).Some?
    ensures var (u, c) := SnapshotEvidence(call.usage, call.cost).value;
            var r := BuildRecord(a, call.terminal, u, c, at, monotonic);
            if Later(a.startedAt, at) then r == Err(InvalidClock)
            else if forall n :: !Lasts(a.startedMonotonic, monotonic, n) then r == Err(InvalidDuration)
            else if call.cost.value.effectiveAt.Some? && Later(call.cost.value.effectiveAt.value, a.startedAt) then
              r == Err(TerminalizationFailed)
            else r.Ok? && Recorded(a, call, at, r.value) && Lasts(a.startedMonotonic, monotonic, r.value.durationMs)
  {
    BuildsExactly(a, call.terminal, call.usage, call.cost, at, monotonic);
    DurationMeans(a.startedMonotonic, monotonic);
    var (u, c) := SnapshotEvidence(call.usage, call.cost).value;
    hide BuildRecord, Recorded, Lasts, ValidMetadataValues, DurationMilliseconds, SnapshotEvidence, Usable;
    if BuildRecord(a, call.terminal, u, c, at, monotonic).Ok? {
      RecordSays(a, call, at, monotonic);
    }
  }
}
