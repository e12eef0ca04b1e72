/** The exactly-once invocation collector (pmqa/usage/collector.py). A class holds the map of
    active invocations and its critical sections; beside it, a state machine lets any number of
    calls take those sections in any order. */
module InvocationCollector {
  import opened Wrappers
  import opened Decimals
  import opened UsageRecords

  datatype CollectionError =
    | InvalidMetadata
    | InvalidHandle
    | InvalidEvidence
    | InvalidErrorCategory
    | InvalidClock
    | InvalidDuration
    | TerminalizationFailed

  /** A handle is its object identity; its private binding can be altered behind its back. */
  type Handle = nat

  datatype Binding = Binding(owner: nat, integrity: nat)

  /** The collector's own owner token. */
  const OWNER: nat := 0

  datatype Metadata = Metadata(
    invocationId: string,
    sessionId: string,
    runId: string,
    runnerInvocationId: Option<string>,
    provider: string,
    model: Option<string>,
    modelReason: Option<UnavailableReason>,
    operation: string,
    attempt: int,
    retryOf: Option<string>,
    fallbackFrom: Option<string>)

  /** What a working wall clock supplies: an instant that its text can hold. */
  type Instant = t: Timestamp | ValidTimestamp(t) witness Timestamp(0, 0)

  /** An active invocation; the integrity token is created with its handle. */
  datatype Active = Active(integrity: nat, metadata: Metadata, startedAt: Instant, startedMonotonic: real)

  type ActiveMap = map<Handle, Active>

  datatype Terminal = Complete | Fail(category: Option<ErrorCategory>) | Cancel

  /** A terminalizing call; None stands for a value of the wrong type. */
  datatype Call = Call(handle: Option<Handle>, usage: Option<TokenUsage>, cost: Option<Cost>, terminal: Terminal)

  // ----- pure parts -----

  predicate ValidMetadataValues(m: Metadata) {
    && ValidIdentifier(m.invocationId) && ValidIdentifier(m.sessionId) && ValidIdentifier(m.runId)
    && ValidIdentifier(m.provider) && ValidIdentifier(m.operation)
    && ValidOptionalIdentifier(m.runnerInvocationId) && ValidOptionalIdentifier(m.model)
    && ValidOptionalIdentifier(m.retryOf) && ValidOptionalIdentifier(m.fallbackFrom)
    && 1 <= m.attempt <= MAX_USAGE_INTEGER
    && m.model.None? == m.modelReason.Some?
    && m.retryOf != Some(m.invocationId) && m.fallbackFrom != Some(m.invocationId)
    && (m.attempt == 1 ==> m.retryOf.None? && m.fallbackFrom.None?)
    && (m.attempt > 1 ==> m.retryOf.Some? != m.fallbackFrom.Some?)
  }

  function SnapshotEvidence(usage: Option<TokenUsage>, cost: Option<Cost>): Option<(TokenUsage, Cost)> {
    if usage.None? || cost.None? || !ValidUsage(usage.value) || !ValidCost(cost.value) then None
    else Some((usage.value, cost.value.(amount := SnapshotAmount(cost.value.amount))))
  }

  /** Elapsed monotonic time in milliseconds, halves rounded up. */
  function DurationMilliseconds(started: real, completed: real): Option<nat> {
    var elapsed := completed - started;
    if elapsed < 0.0 then None
    else
      var rounded := (elapsed * 1000.0 + 0.5).Floor;
      if rounded > MAX_USAGE_INTEGER then None else Some(rounded)
  }

  /** The duration is n exactly when the clock did not run backwards and n is the nearest
      integer to the elapsed milliseconds, the larger one of two, within the range. */
  lemma DurationIsNearest(started: real, completed: real, n: nat)
    ensures DurationMilliseconds(started, completed) == Some(n) <==>
              && started <= completed && n <= MAX_USAGE_INTEGER
              && n as real - 0.5 <= (completed - started) * 1000.0 < n as real + 0.5
  {
    var exact := (completed - started) * 1000.0;
    var rounded := (exact + 0.5).Floor;
    assert rounded as real <= exact + 0.5 < rounded as real + 1.0;
    if n as real <= exact + 0.5 < n as real + 1.0 {
      assert rounded == n;
    }
  }

  function TerminalStatus(t: Terminal): Status {
    match t
    case Complete => Succeeded
    case Fail(_) => Failed
    case Cancel => Cancelled
  }

  function TerminalCategory(t: Terminal): Option<ErrorCategory> {
    match t
    case Complete => None
    case Fail(category) => category
    case Cancel => Some(CancelledCategory)
  }

  predicate AcceptedCategory(t: Terminal) {
    t.Fail? ==> t.category.Some? && t.category != Some(CancelledCategory)
  }

  function RecordOf(a: Active, t: Terminal, usage: TokenUsage, cost: Cost, completedAt: Instant, duration: nat):
      Record {
    var m := a.metadata;
    Record(m.invocationId, m.sessionId, m.runId, m.runnerInvocationId, m.provider, m.model, m.modelReason, m.operation,
           TerminalStatus(t), a.startedAt, completedAt, duration, m.attempt, m.retryOf, m.fallbackFrom, usage, cost,
           TerminalCategory(t))
  }

  /** The record of a consumed invocation, from the evidence and the two terminal samples. */
  function BuildRecord(a: Active, t: Terminal, usage: TokenUsage, cost: Cost, completedAt: Instant, monotonic: real):
      Result<Record, CollectionError> {
    if !NotAfter(a.startedAt, completedAt) then Err(InvalidClock)
    else
      match DurationMilliseconds(a.startedMonotonic, monotonic)
      case None => Err(InvalidDuration)
      case Some(duration) =>
        match SnapshotRecord(RecordOf(a, t, usage, cost, completedAt, duration))
        case None => Err(TerminalizationFailed)
        case Some(r) => Ok(r)
  }

  /** The metadata a record carries. */
  function MetadataOf(r: Record): Metadata {
    Metadata(r.invocationId, r.sessionId, r.runId, r.runnerInvocationId, r.provider, r.model, r.modelReason,
             r.operation,
             r.attempt, r.retryOf, r.fallbackFrom)
  }

  /** What a built record says: the metadata and instant of the start, the call's own status,
      category and evidence, and a rounded duration, in a valid record. */
  lemma BuiltRecordSays(a: Active, t: Terminal, usage: TokenUsage, cost: Cost, completedAt: Instant, monotonic: real)
    requires BuildRecord(a, t, usage, cost, completedAt, monotonic).Ok?
    ensures var r := BuildRecord(a, t, usage, cost, completedAt, monotonic).value;
            && ValidRecord(r) && NotAfter(r.startedAt, r.completedAt)
            && r.startedAt == a.startedAt && r.completedAt == completedAt
            && MetadataOf(r) == a.metadata
            && r.status == TerminalStatus(t) && r.errorCategory == TerminalCategory(t)
            && r.usage == usage && AdmittedAmount(cost.amount) && r.cost == cost.(amount := SnapshotAmount(cost.amount))
            && DurationMilliseconds(a.startedMonotonic, monotonic) == Some(r.durationMs)
  {
    var duration := DurationMilliseconds(a.startedMonotonic, monotonic).value;
    var built := RecordOf(a, t, usage, cost, completedAt, duration);
    SnapshotIsValid(built);
    assert AdmittedAmount(built.cost.amount);
    hide ValidRecord, IsSnapshot, SnapshotAmount, DurationMilliseconds;
  }

  /** Cost evidence whose pricing takes effect only after the invocation has started. */
  predicate PricedLater(cost: Cost, startedAt: Instant) {
    cost.effectiveAt.Some? && !NotAfter(cost.effectiveAt.value, startedAt)
  }

  lemma SnapshotOfEvidence(usage: Option<TokenUsage>, cost: Option<Cost>)
    requires SnapshotEvidence(usage, cost).Some?
    ensures usage.Some? && cost.Some?
    ensures var (u, c) := SnapshotEvidence(usage, cost).value;
            u == usage.value && ValidUsage(u) && ValidCost(c) && c.effectiveAt == cost.value.effectiveAt
  {
    hide ValidUsage;
    if cost.value.amount.Some? {
      var d := cost.value.amount.value;
      AdmittedRoundTrip(FromDecimal(d));
    }
    assert IdentityOf(SnapshotEvidence(usage, cost).value.1) == IdentityOf(cost.value);
  }

  /** For a started invocation, an accepted category and accepted evidence, the record is built
      exactly when neither clock ran backwards, the duration fits, and the cost evidence was
      priced no later than the start; in the last case alone the contract rejects it. */
  lemma BuildsExactly(a: Active, t: Terminal, usage: Option<TokenUsage>, cost: Option<Cost>, completedAt: Instant,
                      monotonic: real)
    requires ValidMetadataValues(a.metadata) && AcceptedCategory(t) && SnapshotEvidence(usage, cost).Some?
    ensures var (u, c) := SnapshotEvidence(usage, cost).value;
            var r := BuildRecord(a, t, u, c, completedAt, monotonic);
            var forward := NotAfter(a.startedAt, completedAt);
            var timed := DurationMilliseconds(a.startedMonotonic, monotonic).Some?;
            && (r.Ok? <==> forward && timed && !PricedLater(cost.value, a.startedAt))
            && (r == Err(TerminalizationFailed) <==> forward && timed && PricedLater(cost.value, a.startedAt))
            && (r == Err(InvalidClock) <==> !forward)
            && (r == Err(InvalidDuration) <==> forward && !timed)
  {
    SnapshotOfEvidence(usage, cost);
    var (u, c) := SnapshotEvidence(usage, cost).value;
    var duration := DurationMilliseconds(a.startedMonotonic, monotonic);
    if duration.Some? && NotAfter(a.startedAt, completedAt) {
      RecordIsValid(a, t, u, c, completedAt, duration.value);
    }
    hide SnapshotEvidence, ValidRecord, SnapshotAmount, NotAfter, DurationMilliseconds, RecordOf, ValidMetadataValues,
         AcceptedCategory;
  }

  lemma RecordIsValid(a: Active, t: Terminal, usage: TokenUsage, cost: Cost, completedAt: Instant, duration: nat)
    requires ValidMetadataValues(a.metadata) && AcceptedCategory(t) && ValidUsage(usage) && ValidCost(cost)
    requires NotAfter(a.startedAt, completedAt) && duration <= MAX_USAGE_INTEGER
    ensures ValidRecord(RecordOf(a, t, usage, cost, completedAt, duration)) <==> !PricedLater(cost, a.startedAt)
  {
    hide ValidUsage, ValidCost, ValidIdentifier, ValidTimestamp, NotAfter;
    var built := RecordOf(a, t, usage, cost, completedAt, duration);
    assert ValidMetadata(built);
  }

  // ----- critical sections -----

  /** Looking a handle up: its entry when the binding is intact; an altered binding of a known
      handle consumes the entry. */
  function Inspect(active: ActiveMap, h: Handle, b: Binding): (Option<Active>, ActiveMap) {
    if h !in active then (None, active)
    else if b.owner == OWNER && active[h].integrity == b.integrity then (Some(active[h]), active)
    else (None, active - {h})
  }

  /** Taking the entry that was seen, if it is still there. */
  function Consume(active: ActiveMap, h: Handle, seen: Active): (bool, ActiveMap) {
    if h in active && active[h] == seen then (true, active - {h}) else (false, active)
  }

  /** A call that no other call interrupts. */
  function TerminalizeAlone(active: ActiveMap, call: Call, b: Binding, wall: Option<Instant>, monotonic: Option<real>):
    (Result<Record, CollectionError>, ActiveMap)
  {
    if !AcceptedCategory(call.terminal) then (Err(InvalidErrorCategory), active)
    else if call.handle.None? then (Err(InvalidHandle), active)
    else
      var (seen, inspected) := Inspect(active, call.handle.value, b);
      if seen.None? then (Err(InvalidHandle), inspected)
      else
        match SnapshotEvidence(call.usage, call.cost)
        case None => (Err(InvalidEvidence), inspected)
        case Some((usage, cost)) =>
          var (taken, consumed) := Consume(inspected, call.handle.value, seen.value);
          if !taken then (Err(InvalidHandle), consumed)
          else if wall.None? || monotonic.None? then (Err(InvalidClock), consumed)
          else (BuildRecord(seen.value, call.terminal, usage, cost, wall.value, monotonic.value), consumed)
  }

  class Collector {
    var active: ActiveMap

    constructor ()
      ensures active == map[]
    {
      active := map[];
    }

    method StartInvocation(m: Metadata, wall: Option<Instant>, monotonic: Option<real>, handle: Handle)
        returns (r: Result<Handle, CollectionError>)
      requires handle !in active
      modifies this
      ensures r == if !ValidMetadataValues(m) then Err(InvalidMetadata)
                   else if wall.None? || monotonic.None? then Err(InvalidClock) else Ok(handle)
      ensures active == if r.Ok? then old(active)[handle := Active(handle, m, wall.value, monotonic.value)]
              else old(active)
    {
      if !ValidMetadataValues(m) {
        return Err(InvalidMetadata);
      }
      if wall.None? || monotonic.None? {
        return Err(InvalidClock);
      }
      active := active[handle := Active(handle, m, wall.value, monotonic.value)];
      r := Ok(handle);
    }

    method InspectHandle(handle: Option<Handle>, b: Binding) returns (r: Option<Active>)
      modifies this
      ensures handle.None? ==> r.None? && active == old(active)
      ensures handle.Some? ==> (r, active) == Inspect(old(active), handle.value, b)
    {
      r := None;
      if handle.Some? {
        if handle.value in active {
          var candidate := active[handle.value];
          if b.owner == OWNER && candidate.integrity == b.integrity {
            r := Some(candidate);
          } else {
            active := active - {handle.value};
          }
        }
      }
    }

    method Terminalize(call: Call, b: Binding, wall: Option<Instant>, monotonic: Option<real>)
        returns (r: Result<Record, CollectionError>)
      modifies this
      ensures (r, active) == TerminalizeAlone(old(active), call, b, wall, monotonic)
    {
      hide BuildRecord, SnapshotEvidence;
      if !AcceptedCategory(call.terminal) {
        return Err(InvalidErrorCategory);
      }
      var seen := InspectHandle(call.handle, b);
      if seen.None? {
        return Err(InvalidHandle);
      }
      var evidence := SnapshotEvidence(call.usage, call.cost);
      if evidence.None? {
        return Err(InvalidEvidence);
      }
      if call.handle.value !in active || active[call.handle.value] != seen.value {
        return Err(InvalidHandle);
      }
      active := active - {call.handle.value};
      if wall.None? || monotonic.None? {
        return Err(InvalidClock);
      }
      var (usage, cost) := evidence.value;
      r := BuildRecord(seen.value, call.terminal, usage, cost, wall.value, monotonic.value);
    }
  }

  /** Alone, a call that yields a record removes its own entry; rejected evidence or a rejected
      category changes nothing; once an entry is gone every further call on it is refused. */
  lemma AloneIsOnce(active: ActiveMap, call: Call, b: Binding, wall: Option<Instant>, monotonic: Option<real>)
    ensures var (r, after) := TerminalizeAlone(active, call, b, wall, monotonic);
            && (r.Ok? ==> call.handle.Some? && call.handle.value in active)
            && (r.Ok? || (r.error != InvalidEvidence && r.error != InvalidErrorCategory && r.error != InvalidHandle) ==>
                  call.handle.Some? && after == active - {call.handle.value})
            && (r == Err(InvalidEvidence) || r == Err(InvalidErrorCategory) ==> after == active)
  {
    hide SnapshotRecord, SnapshotEvidence, DurationMilliseconds;
  }

  /** Alone, a call on an intact handle whose evidence and category are accepted takes the
      entry, and yields the record exactly when the clocks ran forward and the cost evidence was
      not priced after the start: such evidence consumes the handle without a record. */
  lemma AloneYieldsExactly(active: ActiveMap, call: Call, b: Binding, at: Instant, monotonic: real)
    requires AcceptedCategory(call.terminal) && SnapshotEvidence(call.usage, call.cost).Some?
    requires call.handle.Some? && call.handle.value in active
    requires b == Binding(OWNER, active[call.handle.value].integrity)
    requires ValidMetadataValues(active[call.handle.value].metadata)
    ensures var a := active[call.handle.value];
            var (r, after) := TerminalizeAlone(active, call, b, Some(at), Some(monotonic));
            var clocked := NotAfter(a.startedAt, at) && DurationMilliseconds(a.startedMonotonic, monotonic).Some?;
            && after == active - {call.handle.value}
            && (r.Ok? <==> clocked && !PricedLater(call.cost.value, a.startedAt))
            && (r == Err(TerminalizationFailed) <==> clocked && PricedLater(call.cost.value, a.startedAt))
  {
    BuildsExactly(active[call.handle.value], call.terminal, call.usage, call.cost, at, monotonic);
    SnapshotOfEvidence(call.usage, call.cost);
    hide BuildRecord, SnapshotEvidence, DurationMilliseconds, NotAfter, PricedLater, ValidMetadataValues,
         AcceptedCategory;
  }

  lemma GoneIsRefused(active: ActiveMap, call: Call, b: Binding, wall: Option<Instant>, monotonic: Option<real>)
    requires AcceptedCategory(call.terminal) && (call.handle.Some? ==> call.handle.value !in active)
    ensures TerminalizeAlone(active, call, b, wall, monotonic) == (Err(InvalidHandle), active)
  {
    hide BuildRecord, SnapshotEvidence;
  }

  // ----- the interleaving -----

  datatype StartPhase =
    | Checking
    | StartWall
    | StartMonotonic(startedAt: Instant)
    | Inserting(startedAt: Instant, monotonic: real)
    | Started(handle: Handle, startedAt: Instant, monotonic: real)
    | StartFailed

  /** The last flag says whether this call took the entry out of the map. */
  datatype CallPhase =
    | Requested
    | Inspecting
    | Snapshotting(seen: Active)
    | Consuming(seen: Active, usage: TokenUsage, cost: Cost)
    | SamplingWall(seen: Active, usage: TokenUsage, cost: Cost)
    | SamplingMonotonic(seen: Active, usage: TokenUsage, cost: Cost, completedAt: Instant)
    | Finished(result: Option<Result<Record, CollectionError>>, took: bool)

  datatype Thread = Starter(metadata: Metadata, start: StartPhase) | Caller(call: Call, phase: CallPhase)

  datatype World = World(active: ActiveMap, bindings: map<Handle, Binding>, threads: seq<Thread>)

  /** One step of a thread, with what the outside supplies: a clock sample, the identity of a
      new object, an exception; or an alteration of some handle's binding. */
  datatype Event =
    | Proceed
    | Wall(sample: Option<Instant>)
    | Monotonic(value: Option<real>)
    | Create(handle: Handle)
    | Interrupt
    | Tamper(target: Handle, binding: Binding)

  predicate Took(p: CallPhase) {
    p.SamplingWall? || p.SamplingMonotonic? || (p.Finished? && p.took)
  }

  function CallStep(w: World, call: Call, p: CallPhase, e: Event): (ActiveMap, CallPhase) {
    if p.Finished? then (w.active, p)
    else if e.Interrupt? then (w.active, Finished(None, Took(p)))
    else
      match p
      case Requested =>
        (w.active, if AcceptedCategory(call.terminal) then Inspecting
         else Finished(Some(Err(InvalidErrorCategory)), false))
      case Inspecting =>
        if call.handle.None? || call.handle.value !in w.bindings
          then (w.active, Finished(Some(Err(InvalidHandle)), false))
        else
          var (seen, active) := Inspect(w.active, call.handle.value, w.bindings[call.handle.value]);
          if seen.Some? then (active, Snapshotting(seen.value))
          else (active, Finished(Some(Err(InvalidHandle)), call.handle.value in w.active))
      case Snapshotting(seen) =>
        (match SnapshotEvidence(call.usage, call.cost)
         case None => (w.active, Finished(Some(Err(InvalidEvidence)), false))
         case Some((usage, cost)) => (w.active, Consuming(seen, usage, cost)))
      case Consuming(seen, usage, cost) =>
        if call.handle.None? then (w.active, Finished(Some(Err(InvalidHandle)), false))
        else
          var (taken, active) := Consume(w.active, call.handle.value, seen);
          (active, if taken then SamplingWall(seen, usage, cost) else Finished(Some(Err(InvalidHandle)), false))
      case SamplingWall(seen, usage, cost) =>
        (match e
         case Wall(Some(at)) => (w.active, SamplingMonotonic(seen, usage, cost, at))
         case Wall(None) => (w.active, Finished(Some(Err(InvalidClock)), true))
         case _ => (w.active, p))
      case SamplingMonotonic(seen, usage, cost, at) =>
        (match e
         case Monotonic(Some(m)) => (w.active, Finished(Some(BuildRecord(seen, call.terminal, usage, cost, at, m)),
                                                        true))
         case Monotonic(None) => (w.active, Finished(Some(Err(InvalidClock)), true))
         case _ => (w.active, p))
  }

  /** The start up to, and without, the insertion. */
  function StartStep(m: Metadata, p: StartPhase, e: Event): StartPhase {
    if p.Started? || p.StartFailed? then p
    else if e.Interrupt? then StartFailed
    else
      match p
      case Checking => if ValidMetadataValues(m) then StartWall else StartFailed
      case StartWall =>
        (match e
         case Wall(Some(at)) => StartMonotonic(at)
         case Wall(None) => StartFailed
         case _ => p)
      case StartMonotonic(at) =>
        (match e
         case Monotonic(Some(value)) => Inserting(at, value)
         case Monotonic(None) => StartFailed
         case _ => p)
      case _ => p
  }

  function Step(w: World, tid: nat, e: Event): (v: World)
    ensures |v.threads| == |w.threads|
  {
    if e.Tamper? then
      if e.target in w.bindings then w.(bindings := w.bindings[e.target := e.binding]) else w
    else if tid >= |w.threads| then w
    else
      match w.threads[tid]
      case Caller(call, p) =>
        var (active, phase) := CallStep(w, call, p, e);
        World(active, w.bindings, w.threads[tid := Caller(call, phase)])
      case Starter(m, p) =>
        if p.Inserting? && e.Create? then
          if e.handle in w.bindings then w
          else
            World(w.active[e.handle := Active(e.handle, m, p.startedAt, p.monotonic)],
                  w.bindings[e.handle := Binding(OWNER, e.handle)],
                  w.threads[tid := Starter(m, Started(e.handle, p.startedAt, p.monotonic))])
        else w.(threads := w.threads[tid := Starter(m, StartStep(m, p, e))])
  }

  function Run(w: World, schedule: seq<(nat, Event)>): (v: World)
    ensures |v.threads| == |w.threads|
  {
    if schedule == [] then w
    else Step(Run(w, schedule[..|schedule| - 1]), schedule[|schedule| - 1].0, schedule[|schedule| - 1].1)
  }

  // ----- one call without interference -----

  /** The steps of one call on its own: look up, snapshot, consume and two clock samples. */
  function AloneSchedule(tid: nat, wall: Option<Instant>, monotonic: Option<real>): seq<(nat, Event)> {
    [(tid, Proceed), (tid, Proceed), (tid, Proceed), (tid, Proceed), (tid, Wall(wall)), (tid, Monotonic(monotonic))]
  }

  /** The same steps on the map and the phase alone. */
  function CallSteps(w: World, call: Call, p: CallPhase, events: seq<Event>): (ActiveMap, CallPhase)
    decreases |events|
  {
    if events == [] then (w.active, p)
    else
      var (active, q) := CallStep(w, call, p, events[0]);
      CallSteps(w.(active := active), call, q, events[1..])
  }

  lemma {:induction false} CallerRuns(w: World, tid: nat, call: Call, p: CallPhase, schedule: seq<(nat, Event)>)
    requires tid < |w.threads| && w.threads[tid] == Caller(call, p)
    requires forall i :: 0 <= i < |schedule| ==> schedule[i].0 == tid && !schedule[i].1.Tamper?
    ensures var (active, q) := CallSteps(w, call, p, seq(|schedule|, i requires 0 <= i < |schedule| => schedule[i].1));
            Run(w, schedule) == World(active, w.bindings, w.threads[tid := Caller(call, q)])
    decreases |schedule|
  {
    hide CallStep;
    var events := seq(|schedule|, i requires 0 <= i < |schedule| => schedule[i].1);
    if schedule == [] {
      assert w.threads[tid := w.threads[tid]] == w.threads;
    } else {
      var (active, q) := CallStep(w, call, p, events[0]);
      var u := Step(w, tid, events[0]);
      var rest := schedule[1..];
      assert u == World(active, w.bindings, w.threads[tid := Caller(call, q)]);
      CallerRuns(u, tid, call, q, rest);
      assert seq(|rest|, i requires 0 <= i < |rest| => rest[i].1) == events[1..];
      StepsIgnoreThreads(u, w.(active := active), call, q, events[1..]);
      RunFirst(w, schedule);
      assert u.threads[tid := Caller(call, CallSteps(u, call, q, events[1..]).1)]
          == w.threads[tid := Caller(call, CallSteps(u, call, q, events[1..]).1)];
      hide Run, Step;
    }
  }

  lemma {:induction false} StepsIgnoreThreads(u: World, w: World, call: Call, p: CallPhase, events: seq<Event>)
    requires u.active == w.active && u.bindings == w.bindings
    ensures CallSteps(u, call, p, events) == CallSteps(w, call, p, events)
    decreases |events|
  {
    if events != [] {
      assert CallStep(u, call, p, events[0]) == CallStep(w, call, p, events[0]);
      var (active, q) := CallStep(u, call, p, events[0]);
      hide CallStep;
      StepsIgnoreThreads(u.(active := active), w.(active := active), call, q, events[1..]);
    }
  }

  lemma {:induction false} RunFirst(w: World, schedule: seq<(nat, Event)>)
    requires schedule != []
    ensures Run(w, schedule) == Run(Step(w, schedule[0].0, schedule[0].1), schedule[1..])
    decreases |schedule|
  {
    hide Step;
    var init := schedule[..|schedule| - 1];
    if init == [] {
      assert schedule[1..] == [];
    } else {
      RunFirst(w, init);
      assert init[1..] == schedule[1..][..|schedule[1..]| - 1];
    }
  }

  /** Six steps of one caller in a row are the call that no other call interrupts: they end with
      its result and leave the map that it leaves. */
  lemma AloneIsSteps(w: World, tid: nat, call: Call, wall: Option<Instant>, monotonic: Option<real>)
    requires tid < |w.threads| && w.threads[tid] == Caller(call, Requested) && w.active.Keys <= w.bindings.Keys
    ensures var v := Run(w, AloneSchedule(tid, wall, monotonic));
            var b := if call.handle.Some? && call.handle.value in w.bindings then w.bindings[call.handle.value]
              else Binding(OWNER, 0);
            var (r, active) := TerminalizeAlone(w.active, call, b, wall, monotonic);
            && v.active == active && v.bindings == w.bindings
            && v.threads[tid].Caller? && v.threads[tid].phase.Finished? && v.threads[tid].phase.result == Some(r)
            && (forall k :: 0 <= k < |w.threads| && k != tid ==> v.threads[k] == w.threads[k])
  {
    var schedule := AloneSchedule(tid, wall, monotonic);
    var events := [Proceed, Proceed, Proceed, Proceed, Wall(wall), Monotonic(monotonic)];
    assert seq(|schedule|, i requires 0 <= i < |schedule| => schedule[i].1) == events;
    CallerRuns(w, tid, call, Requested, schedule);
    AloneChain(w, call, wall, monotonic);
    hide CallSteps, Run, TerminalizeAlone;
  }

  lemma AloneChain(w: World, call: Call, wall: Option<Instant>, monotonic: Option<real>)
    requires w.active.Keys <= w.bindings.Keys
    ensures var (active, q) := CallSteps(w, call, Requested, [Proceed, Proceed, Proceed, Proceed, Wall(wall),
                                                              Monotonic(monotonic)]);
            var b := if call.handle.Some? && call.handle.value in w.bindings then w.bindings[call.handle.value]
              else Binding(OWNER, 0);
            q.Finished? && q.result.Some? && (q.result.value, active) == TerminalizeAlone(w.active, call, b, wall,
              monotonic)
  {
    hide BuildRecord, SnapshotEvidence, AcceptedCategory, CallSteps;
    var s3 := [Proceed, Wall(wall), Monotonic(monotonic)];
    FirstStep(w, call, Requested, Proceed, [Proceed, Proceed] + s3);
    assert [Proceed] + ([Proceed, Proceed] + s3) == [Proceed, Proceed, Proceed, Proceed, Wall(wall),
                                                     Monotonic(monotonic)];
    var (a1, p1) := CallStep(w, call, Requested, Proceed);
    var w1 := w.(active := a1);
    FirstStep(w1, call, p1, Proceed, [Proceed] + s3);
    assert [Proceed] + ([Proceed] + s3) == [Proceed, Proceed] + s3;
    var (a2, p2) := CallStep(w1, call, p1, Proceed);
    var w2 := w.(active := a2);
    FirstStep(w2, call, p2, Proceed, s3);
    var (a3, p3) := CallStep(w2, call, p2, Proceed);
    LastSteps(w.(active := a3), call, p3, wall, monotonic);
  }

  lemma LastSteps(w: World, call: Call, p: CallPhase, wall: Option<Instant>, monotonic: Option<real>)
    ensures var (a4, p4) := CallStep(w, call, p, Proceed);
            var (a5, p5) := CallStep(w.(active := a4), call, p4, Wall(wall));
            CallSteps(w, call, p, [Proceed, Wall(wall), Monotonic(monotonic)])
            == CallStep(w.(active := a5), call, p5, Monotonic(monotonic))
  {
    hide CallStep, CallSteps;
    var (a4, p4) := CallStep(w, call, p, Proceed);
    var (a5, p5) := CallStep(w.(active := a4), call, p4, Wall(wall));
    var (a6, p6) := CallStep(w.(active := a5), call, p5, Monotonic(monotonic));
    FirstStep(w, call, p, Proceed, [Wall(wall), Monotonic(monotonic)]);
    FirstStep(w.(active := a4), call, p4, Wall(wall), [Monotonic(monotonic)]);
    FirstStep(w.(active := a5), call, p5, Monotonic(monotonic), []);
    NoStep(w.(active := a6), call, p6);
    assert [Monotonic(monotonic)] + [] == [Monotonic(monotonic)];
    assert [Wall(wall)] + [Monotonic(monotonic)] == [Wall(wall), Monotonic(monotonic)];
    assert [Proceed] + [Wall(wall), Monotonic(monotonic)] == [Proceed, Wall(wall), Monotonic(monotonic)];
  }

  lemma FirstStep(w: World, call: Call, p: CallPhase, e: Event, rest: seq<Event>)
    ensures var (active, q) := CallStep(w, call, p, e);
            CallSteps(w, call, p, [e] + rest) == CallSteps(w.(active := active), call, q, rest)
  {
    hide CallStep;
    assert ([e] + rest)[1..] == rest;
  }

  lemma NoStep(w: World, call: Call, p: CallPhase)
    ensures CallSteps(w, call, p, []) == (w.active, p)
  {}

  // ----- the invariant -----

  predicate TookHandle(t: Thread, h: Handle) {
    t.Caller? && t.call.handle == Some(h) && Took(t.phase)
  }

  /** The entry is the one some start created for this handle. */
  predicate FromStart(w: World, h: Handle, a: Active) {
    exists k :: 0 <= k < |w.threads| && IsStartOf(w.threads[k], h, a)
  }

  predicate IsStartOf(t: Thread, h: Handle, a: Active) {
    && t.Starter? && t.metadata == a.metadata && t.start == Started(h, a.startedAt, a.startedMonotonic)
    && a.integrity == h && ValidMetadataValues(a.metadata)
  }

  /** The record is built from the start of the call's handle and from the call's evidence. */
  ghost predicate Accounted(w: World, call: Call, r: Record) {
    && call.handle.Some?
    && SnapshotEvidence(call.usage, call.cost).Some?
    && exists a, at, m :: FromStart(w, call.handle.value, a) && BuiltFrom(call, a, at, m, r)
  }

  predicate BuiltFrom(call: Call, a: Active, at: Instant, m: real, r: Record)
    requires SnapshotEvidence(call.usage, call.cost).Some?
  {
    var evidence := SnapshotEvidence(call.usage, call.cost).value;
    BuildRecord(a, call.terminal, evidence.0, evidence.1, at, m) == Ok(r)
  }

  /** The call's cost evidence is priced after the start of its handle. */
  ghost predicate Mispriced(w: World, call: Call) {
    && call.handle.Some? && call.cost.Some?
    && exists a :: FromStart(w, call.handle.value, a) && PricedLater(call.cost.value, a.startedAt)
  }

  /** The entry a call has seen: its own handle's start, under an accepted category. */
  ghost predicate Sees(w: World, call: Call, a: Active) {
    call.handle.Some? && AcceptedCategory(call.terminal) && FromStart(w, call.handle.value, a)
  }

  ghost predicate CallOk(w: World, call: Call, p: CallPhase) {
    match p
    case Requested => true
    case Inspecting => AcceptedCategory(call.terminal)
    case Snapshotting(a) => Sees(w, call, a)
    case Consuming(a, usage, cost) => Sees(w, call, a) && SnapshotEvidence(call.usage, call.cost) == Some((usage, cost))
    case SamplingWall(a, usage, cost) => Sees(w, call, a)
      && SnapshotEvidence(call.usage, call.cost) == Some((usage, cost))
    case SamplingMonotonic(a, usage, cost, _) => Sees(w, call, a)
      && SnapshotEvidence(call.usage, call.cost) == Some((usage, cost))
    case Finished(None, _) => true
    case Finished(Some(Ok(r)), took) => took && Accounted(w, call, r)
    case Finished(Some(Err(code)), took) =>
      && (code == InvalidEvidence || code == InvalidErrorCategory ==> !took)
      && (code == InvalidClock || code == InvalidDuration || code == TerminalizationFailed ==> took)
      && (code == TerminalizationFailed ==> Mispriced(w, call))
  }

  /** Past its check a start has valid metadata, and its handle is a created one. */
  predicate StartOk(bindings: map<Handle, Binding>, t: Thread) {
    t.Starter? ==>
      && (t.start.Checking? || t.start.StartFailed? || ValidMetadataValues(t.metadata))
      && (t.start.Started? ==> t.start.handle in bindings)
  }

  predicate OneStart(t: Thread, u: Thread) {
    t.Starter? && u.Starter? && t.start.Started? && u.start.Started? ==> t.start.handle != u.start.handle
  }

  /** Each handle has one start. */
  ghost predicate StartsOk(w: World) {
    && (forall k :: 0 <= k < |w.threads| ==> StartOk(w.bindings, w.threads[k]))
    && (forall j, k :: 0 <= j < k < |w.threads| ==> OneStart(w.threads[j], w.threads[k]))
  }

  /** Every handle ever created is active exactly while no call has taken it. */
  ghost predicate Exact(w: World) {
    forall h :: h in w.bindings ==> (h in w.active <==> forall k :: 0 <= k < |w.threads| ==>
                                     !TookHandle(w.threads[k], h))
  }

  ghost predicate TakenOnce(w: World) {
    forall j, k, h :: 0 <= j < |w.threads| && 0 <= k < |w.threads| && j != k ==>
                        !(TookHandle(w.threads[j], h) && TookHandle(w.threads[k], h))
  }

  ghost predicate EntriesOk(w: World) {
    forall h :: h in w.active ==> h in w.bindings && FromStart(w, h, w.active[h])
  }

  ghost predicate MarksOk(w: World) {
    forall k, h :: 0 <= k < |w.threads| && TookHandle(w.threads[k], h) ==> h in w.bindings
  }

  ghost predicate CallsOk(w: World) {
    forall k :: 0 <= k < |w.threads| && w.threads[k].Caller? ==> CallOk(w, w.threads[k].call, w.threads[k].phase)
  }

  ghost predicate Inv(w: World) {
    EntriesOk(w) && MarksOk(w) && CallsOk(w) && Exact(w) && TakenOnce(w) && StartsOk(w)
  }

  /** The same calls hold the same handles. */
  ghost predicate SameMarks(w: World, v: World) {
    && |v.threads| == |w.threads|
    && forall k, h :: 0 <= k < |w.threads| ==> (TookHandle(v.threads[k], h) <==> TookHandle(w.threads[k], h))
  }

  /** Starts are never undone: what they created can be cited for ever. */
  ghost predicate StartsKept(w: World, v: World) {
    forall h, a :: FromStart(w, h, a) ==> FromStart(v, h, a)
  }

  lemma AccountedKept(w: World, v: World, call: Call, r: Record)
    requires StartsKept(w, v) && Accounted(w, call, r)
    ensures Accounted(v, call, r)
  {
    hide FromStart, BuiltFrom;
    var a, at, m :| FromStart(w, call.handle.value, a) && BuiltFrom(call, a, at, m, r);
    assert FromStart(v, call.handle.value, a);
  }

  lemma MispricedKept(w: World, v: World, call: Call)
    requires StartsKept(w, v) && Mispriced(w, call)
    ensures Mispriced(v, call)
  {
    hide FromStart, PricedLater;
    var a :| FromStart(w, call.handle.value, a) && PricedLater(call.cost.value, a.startedAt);
    assert FromStart(v, call.handle.value, a);
  }

  lemma CallKept(w: World, v: World, call: Call, p: CallPhase)
    requires StartsKept(w, v) && CallOk(w, call, p)
    ensures CallOk(v, call, p)
  {
    hide FromStart, Accounted, Mispriced, SnapshotEvidence, AcceptedCategory;
    if p.Finished? && p.result.Some? && p.result.value.Ok? {
      AccountedKept(w, v, call, p.result.value.value);
    } else if p.Finished? && p.result == Some(Err(TerminalizationFailed)) {
      MispricedKept(w, v, call);
    }
  }

  /** Replacing a thread that is not a finished start keeps every start. */
  lemma ThreadReplaced(w: World, tid: nat, t: Thread, active: ActiveMap, bindings: map<Handle, Binding>)
    requires tid < |w.threads|
    requires w.threads[tid].Starter? && w.threads[tid].start.Started? ==> t == w.threads[tid]
    ensures StartsKept(w, World(active, bindings, w.threads[tid := t]))
  {
    var v := World(active, bindings, w.threads[tid := t]);
    forall h, a | FromStart(w, h, a) ensures FromStart(v, h, a) {
      var k :| 0 <= k < |w.threads| && IsStartOf(w.threads[k], h, a);
      assert IsStartOf(v.threads[k], h, a);
    }
  }

  /** Replacing a thread by one that starts nothing new keeps every start's own facts. */
  lemma StartsReplaced(w: World, tid: nat, t: Thread, active: ActiveMap, bindings: map<Handle, Binding>)
    requires StartsOk(w) && tid < |w.threads| && w.bindings.Keys <= bindings.Keys
    requires StartOk(bindings, t) && (t.Starter? && t.start.Started? ==> t == w.threads[tid])
    ensures StartsOk(World(active, bindings, w.threads[tid := t]))
  {
    hide ValidMetadataValues;
  }

  lemma CallsKept(w: World, tid: nat, t: Thread, active: ActiveMap, bindings: map<Handle, Binding>)
    requires CallsOk(w) && tid < |w.threads|
    requires w.threads[tid].Starter? && w.threads[tid].start.Started? ==> t == w.threads[tid]
    requires t.Caller? ==> CallOk(w, t.call, t.phase)
    ensures CallsOk(World(active, bindings, w.threads[tid := t]))
  {
    hide FromStart, CallOk;
    var v := World(active, bindings, w.threads[tid := t]);
    ThreadReplaced(w, tid, t, active, bindings);
    hide StartsKept;
    forall k | 0 <= k < |v.threads| && v.threads[k].Caller? ensures CallOk(v, v.threads[k].call, v.threads[k].phase) {
      assert CallOk(w, v.threads[k].call, v.threads[k].phase);
      CallKept(w, v, v.threads[k].call, v.threads[k].phase);
    }
  }

  lemma EntriesKept(w: World, tid: nat, t: Thread, active: ActiveMap, bindings: map<Handle, Binding>)
    requires EntriesOk(w) && tid < |w.threads|
    requires w.threads[tid].Starter? && w.threads[tid].start.Started? ==> t == w.threads[tid]
    requires forall h :: h in active ==> h in w.active && active[h] == w.active[h]
    requires bindings.Keys == w.bindings.Keys
    ensures EntriesOk(World(active, bindings, w.threads[tid := t]))
  {
    hide FromStart;
    ThreadReplaced(w, tid, t, active, bindings);
  }

  // ----- steps of calls -----

  lemma SameMarksKeep(w: World, v: World)
    requires MarksOk(w) && Exact(w) && TakenOnce(w) && SameMarks(w, v)
    requires v.active == w.active && v.bindings == w.bindings
    ensures MarksOk(v) && Exact(v) && TakenOnce(v)
  {
    hide TookHandle;
    forall h | h in v.bindings
      ensures h in v.active <==> forall k :: 0 <= k < |v.threads| ==> !TookHandle(v.threads[k], h)
    {
      assert forall k :: 0 <= k < |w.threads| ==> (TookHandle(v.threads[k], h) <==> TookHandle(w.threads[k], h));
    }
  }

  lemma MarksReplaced(w: World, tid: nat, t: Thread)
    requires tid < |w.threads| && forall h :: TookHandle(t, h) <==> TookHandle(w.threads[tid], h)
    ensures SameMarks(w, w.(threads := w.threads[tid := t]))
  {
    hide TookHandle;
  }

  /** A step that leaves the map alone and takes nothing. */
  lemma QuietCall(w: World, tid: nat, call: Call, p: CallPhase, q: CallPhase)
    requires Inv(w) && tid < |w.threads| && w.threads[tid] == Caller(call, p)
    requires Took(p) == Took(q) && CallOk(w, call, q)
    ensures Inv(w.(threads := w.threads[tid := Caller(call, q)]))
  {
    hide StartsOk, EntriesOk, MarksOk, CallsOk, Exact, TakenOnce, SameMarks, CallOk;
    CallsKept(w, tid, Caller(call, q), w.active, w.bindings);
    StartsReplaced(w, tid, Caller(call, q), w.active, w.bindings);
    EntriesKept(w, tid, Caller(call, q), w.active, w.bindings);
    MarksReplaced(w, tid, Caller(call, q));
    SameMarksKeep(w, w.(threads := w.threads[tid := Caller(call, q)]));
  }

  /** A step that takes the call's own entry out of the map. */
  lemma TakingCall(w: World, tid: nat, call: Call, p: CallPhase, q: CallPhase)
    requires Inv(w) && tid < |w.threads| && w.threads[tid] == Caller(call, p)
    requires call.handle.Some? && call.handle.value in w.active
    requires !Took(p) && Took(q) && CallOk(w, call, q)
    ensures Inv(World(w.active - {call.handle.value}, w.bindings, w.threads[tid := Caller(call, q)]))
  {
    var h := call.handle.value;
    hide StartsOk, EntriesOk, MarksOk, CallsOk, Exact, TakenOnce, CallOk;
    CallsKept(w, tid, Caller(call, q), w.active - {h}, w.bindings);
    StartsReplaced(w, tid, Caller(call, q), w.active - {h}, w.bindings);
    EntriesKept(w, tid, Caller(call, q), w.active - {h}, w.bindings);
    TakenMarks(w, tid, call, p, q);
    NoneTook(w, h);
    TakenExact(w, World(w.active - {h}, w.bindings, w.threads[tid := Caller(call, q)]), tid, h);
  }

  lemma TakenMarks(w: World, tid: nat, call: Call, p: CallPhase, q: CallPhase)
    requires tid < |w.threads| && w.threads[tid] == Caller(call, p) && call.handle.Some? && !Took(p) && Took(q)
    ensures var threads := w.threads[tid := Caller(call, q)];
            && (forall k, g :: 0 <= k < |w.threads| && k != tid ==>
                (TookHandle(threads[k], g) <==> TookHandle(w.threads[k], g)))
            && (forall g :: TookHandle(threads[tid], g) <==> g == call.handle.value)
            && (forall g :: !TookHandle(w.threads[tid], g))
  {
    hide Took;
  }

  lemma NoneTook(w: World, h: Handle)
    requires Inv(w) && h in w.active
    ensures h in w.bindings && forall k :: 0 <= k < |w.threads| ==> !TookHandle(w.threads[k], h)
  {
    hide TookHandle, FromStart, CallOk, TakenOnce;
  }

  lemma TakenExact(w: World, v: World, tid: nat, h: Handle)
    requires MarksOk(w) && Exact(w) && TakenOnce(w) && h in w.bindings && v.active == w.active - {h}
             && v.bindings == w.bindings
    requires tid < |w.threads| == |v.threads|
    requires forall k, g :: 0 <= k < |w.threads| && k != tid ==>
             (TookHandle(v.threads[k], g) <==> TookHandle(w.threads[k], g))
    requires forall g :: TookHandle(v.threads[tid], g) <==> g == h
    requires forall g :: !TookHandle(w.threads[tid], g)
    requires forall k :: 0 <= k < |w.threads| ==> !TookHandle(w.threads[k], h)
    ensures MarksOk(v) && Exact(v) && TakenOnce(v)
  {
    hide TookHandle;
    forall g | g in v.bindings
      ensures g in v.active <==> forall k :: 0 <= k < |v.threads| ==> !TookHandle(v.threads[k], g)
    {
      if g != h {
        assert forall k :: 0 <= k < |w.threads| ==> (TookHandle(v.threads[k], g) <==> TookHandle(w.threads[k], g));
      } else {
        assert TookHandle(v.threads[tid], g);
      }
    }
  }

  lemma CallStepSafe(w: World, tid: nat, call: Call, p: CallPhase, e: Event)
    requires Inv(w) && tid < |w.threads| && w.threads[tid] == Caller(call, p)
    ensures var (active, q) := CallStep(w, call, p, e);
            Inv(World(active, w.bindings, w.threads[tid := Caller(call, q)]))
  {
    var (active, q) := CallStep(w, call, p, e);
    CallIsOk(w, tid);
    EntryFacts(w, call);
    hide Inv, CallOk, FromStart;
    if Takes(w, call, p, e) {
      TakingMove(w, call, p, e);
      hide CallStep, Takes;
      TakingCall(w, tid, call, p, q);
    } else {
      BuiltOk(w, call, p, e);
      QuietMove(w, call, p, e);
      hide CallStep, Takes;
      QuietCall(w, tid, call, p, q);
    }
  }

  /** The two steps that take an entry: finding its binding altered, and consuming it. */
  predicate Takes(w: World, call: Call, p: CallPhase, e: Event) {
    var (active, q) := CallStep(w, call, p, e);
    (p.Inspecting? && active != w.active) || (p.Consuming? && q.SamplingWall?)
  }

  lemma CallIsOk(w: World, k: nat)
    requires CallsOk(w) && k < |w.threads| && w.threads[k].Caller?
    ensures CallOk(w, w.threads[k].call, w.threads[k].phase)
  {}

  lemma TakingMove(w: World, call: Call, p: CallPhase, e: Event)
    requires CallOk(w, call, p) && Takes(w, call, p, e)
    ensures var (active, q) := CallStep(w, call, p, e);
            && call.handle.Some? && call.handle.value in w.active && active == w.active - {call.handle.value}
            && !Took(p) && Took(q) && CallOk(w, call, q)
  {
    hide FromStart, SnapshotEvidence, Accounted, Mispriced, AcceptedCategory, BuildRecord;
  }

  lemma EntryFacts(w: World, call: Call)
    requires EntriesOk(w)
    ensures call.handle.Some? && call.handle.value in w.active ==>
            FromStart(w, call.handle.value, w.active[call.handle.value])
  {}

  /** The last sample of a call: a built record is accounted for, and a record that its
      contract rejects was priced after the start. */
  predicate Builds(p: CallPhase, e: Event) {
    p.SamplingMonotonic? && e.Monotonic? && e.value.Some?
  }

  lemma BuiltOk(w: World, call: Call, p: CallPhase, e: Event)
    requires CallOk(w, call, p)
    ensures Builds(p, e) ==>
              CallOk(w, call, Finished(Some(BuildRecord(p.seen, call.terminal, p.usage, p.cost, p.completedAt,
                                                        e.value.value)), true))
  {
    hide Sees, SnapshotEvidence, BuildRecord, Accounted, Mispriced;
    if Builds(p, e) {
      BuiltAccounted(w, call, p.seen, p.completedAt, e.value.value);
      BuiltMispriced(w, call, p.seen, p.completedAt, e.value.value);
    }
  }

  lemma BuiltAccounted(w: World, call: Call, a: Active, at: Instant, m: real)
    requires Sees(w, call, a) && SnapshotEvidence(call.usage, call.cost).Some?
    ensures var (usage, cost) := SnapshotEvidence(call.usage, call.cost).value;
            var r := BuildRecord(a, call.terminal, usage, cost, at, m);
            r.Ok? ==> Accounted(w, call, r.value)
  {
    hide FromStart, SnapshotEvidence, BuildRecord, AcceptedCategory;
    var (usage, cost) := SnapshotEvidence(call.usage, call.cost).value;
    var r := BuildRecord(a, call.terminal, usage, cost, at, m);
    if r.Ok? {
      assert BuiltFrom(call, a, at, m, r.value);
    }
  }

  lemma BuiltMispriced(w: World, call: Call, a: Active, at: Instant, m: real)
    requires Sees(w, call, a) && SnapshotEvidence(call.usage, call.cost).Some?
    ensures var (usage, cost) := SnapshotEvidence(call.usage, call.cost).value;
            var r := BuildRecord(a, call.terminal, usage, cost, at, m);
            && (r == Err(TerminalizationFailed) ==> Mispriced(w, call))
            && (r.Err? ==> r.error == TerminalizationFailed || r.error == InvalidClock || r.error == InvalidDuration)
  {
    hide FromStart, SnapshotEvidence, BuildRecord, AcceptedCategory, PricedLater, ValidMetadataValues,
         DurationMilliseconds, NotAfter;
    SeenMetadata(w, call.handle.value, a);
    BuildsExactly(a, call.terminal, call.usage, call.cost, at, m);
    SnapshotOfEvidence(call.usage, call.cost);
  }

  lemma SeenMetadata(w: World, h: Handle, a: Active)
    requires FromStart(w, h, a)
    ensures ValidMetadataValues(a.metadata)
  {
    hide ValidMetadataValues;
  }

  lemma QuietMove(w: World, call: Call, p: CallPhase, e: Event)
    requires CallOk(w, call, p) && !Takes(w, call, p, e)
    requires call.handle.Some? && call.handle.value in w.active ==>
             FromStart(w, call.handle.value, w.active[call.handle.value])
    requires Builds(p, e) ==>
               CallOk(w, call, Finished(Some(BuildRecord(p.seen, call.terminal, p.usage, p.cost, p.completedAt,
                                                         e.value.value)), true))
    ensures var (active, q) := CallStep(w, call, p, e);
            active == w.active && Took(p) == Took(q) && CallOk(w, call, q)
  {
    hide FromStart, SnapshotEvidence, Accounted, Mispriced, AcceptedCategory, BuildRecord;
  }

  // ----- steps of starts, and tampering -----

  lemma InsertSafe(w: World, tid: nat, m: Metadata, p: StartPhase, h: Handle)
    requires Inv(w) && tid < |w.threads| && w.threads[tid] == Starter(m, p) && p.Inserting? && h !in w.bindings
    ensures Inv(Step(w, tid, Create(h)))
  {
    var t := Starter(m, Started(h, p.startedAt, p.monotonic));
    var v := World(w.active[h := Active(h, m, p.startedAt, p.monotonic)], w.bindings[h := Binding(OWNER, h)],
                   w.threads[tid := t]);
    Inserts(w, tid, m, p, h);
    hide Step, StartsOk, EntriesOk, MarksOk, CallsOk, Exact, TakenOnce;
    InsertedStarts(w, tid, m, p, h, v);
    CallsKept(w, tid, t, v.active, v.bindings);
    InsertedEntries(w, tid, m, p, h, v);
    InsertedExact(w, tid, v, h, t);
  }

  lemma Inserts(w: World, tid: nat, m: Metadata, p: StartPhase, h: Handle)
    requires tid < |w.threads| && w.threads[tid] == Starter(m, p) && p.Inserting? && h !in w.bindings
    ensures Step(w, tid, Create(h))
         == World(w.active[h := Active(h, m, p.startedAt, p.monotonic)], w.bindings[h := Binding(OWNER, h)],
                  w.threads[tid := Starter(m, Started(h, p.startedAt, p.monotonic))])
  {}

  lemma InsertedStarts(w: World, tid: nat, m: Metadata, p: StartPhase, h: Handle, v: World)
    requires StartsOk(w) && tid < |w.threads| && w.threads[tid] == Starter(m, p) && p.Inserting? && h !in w.bindings
    requires v.bindings == w.bindings[h := Binding(OWNER, h)]
    requires v.threads == w.threads[tid := Starter(m, Started(h, p.startedAt, p.monotonic))]
    ensures StartsOk(v) && ValidMetadataValues(m)
  {
    hide ValidMetadataValues;
    assert StartOk(w.bindings, w.threads[tid]);
    forall k | 0 <= k < |w.threads| && k != tid ensures OneStart(v.threads[tid], v.threads[k])
        && StartOk(v.bindings, v.threads[k]) {
      assert StartOk(w.bindings, w.threads[k]);
    }
  }

  lemma InsertedEntries(w: World, tid: nat, m: Metadata, p: StartPhase, h: Handle, v: World)
    requires ValidMetadataValues(m) && EntriesOk(w) && tid < |w.threads| && w.threads[tid] == Starter(m, p)
             && p.Inserting?
    requires v == World(w.active[h := Active(h, m, p.startedAt, p.monotonic)], w.bindings[h := Binding(OWNER, h)],
                        w.threads[tid := Starter(m, Started(h, p.startedAt, p.monotonic))])
    ensures EntriesOk(v)
  {
    ThreadReplaced(w, tid, v.threads[tid], v.active, v.bindings);
    assert IsStartOf(v.threads[tid], h, v.active[h]);
    assert FromStart(v, h, v.active[h]);
    hide FromStart, IsStartOf;
  }

  lemma InsertedExact(w: World, tid: nat, v: World, h: Handle, t: Thread)
    requires EntriesOk(w) && MarksOk(w) && Exact(w) && TakenOnce(w)
    requires tid < |w.threads| && w.threads[tid].Starter? && t.Starter? && h !in w.bindings
    requires v.threads == w.threads[tid := t]
    requires v.bindings == w.bindings[h := Binding(OWNER, h)] && h in v.active && v.active == w.active[h := v.active[h]]
    ensures MarksOk(v) && Exact(v) && TakenOnce(v)
  {
    assert v.bindings.Keys == w.bindings.Keys + {h} && v.active.Keys == w.active.Keys + {h};
    hide FromStart;
    assert forall k, g :: 0 <= k < |w.threads| ==> (TookHandle(v.threads[k], g) <==> TookHandle(w.threads[k], g));
    assert forall k :: 0 <= k < |w.threads| ==> !TookHandle(w.threads[k], h);
    hide TookHandle;
    forall g | g in v.bindings
      ensures g in v.active <==> forall k :: 0 <= k < |v.threads| ==> !TookHandle(v.threads[k], g)
    {
      assert g in v.active.Keys <==> g in w.active.Keys || g == h;
      assert g in v.bindings.Keys <==> g in w.bindings.Keys || g == h;
    }
    forall k, g | 0 <= k < |v.threads| && TookHandle(v.threads[k], g) ensures g in v.bindings {
      assert TookHandle(w.threads[k], g);
      assert g in v.bindings.Keys;
    }
  }

  lemma StartMoves(bindings: map<Handle, Binding>, m: Metadata, p: StartPhase, e: Event)
    requires StartOk(bindings, Starter(m, p))
    ensures StartOk(bindings, Starter(m, StartStep(m, p, e)))
    ensures StartStep(m, p, e).Started? ==> StartStep(m, p, e) == p
  {
    hide ValidMetadataValues;
  }

  lemma StartSafe(w: World, tid: nat, m: Metadata, p: StartPhase, e: Event)
    requires Inv(w) && tid < |w.threads| && w.threads[tid] == Starter(m, p)
    ensures Inv(w.(threads := w.threads[tid := Starter(m, StartStep(m, p, e))]))
  {
    var t := Starter(m, StartStep(m, p, e));
    assert p.Started? ==> t == w.threads[tid];
    assert StartOk(w.bindings, w.threads[tid]);
    StartMoves(w.bindings, m, p, e);
    hide StartStep, StartOk, StartsOk, EntriesOk, MarksOk, CallsOk, Exact, TakenOnce, SameMarks;
    StartsReplaced(w, tid, t, w.active, w.bindings);
    CallsKept(w, tid, t, w.active, w.bindings);
    EntriesKept(w, tid, t, w.active, w.bindings);
    MarksReplaced(w, tid, t);
    SameMarksKeep(w, w.(threads := w.threads[tid := t]));
  }

  lemma TamperSafe(w: World, h: Handle, b: Binding)
    requires Inv(w) && h in w.bindings
    ensures Inv(w.(bindings := w.bindings[h := b]))
  {
    var v := w.(bindings := w.bindings[h := b]);
    hide FromStart, CallOk, TookHandle, StartOk, OneStart;
    assert v.bindings.Keys == w.bindings.Keys;
    TamperCalls(w, v);
    TamperStarts(w, v);
    hide CallsOk, StartsOk;
    assert forall g :: g in v.bindings <==> g in w.bindings;
  }

  lemma TamperCalls(w: World, v: World)
    requires CallsOk(w) && v.threads == w.threads
    ensures CallsOk(v) && forall h, a :: FromStart(w, h, a) <==> FromStart(v, h, a)
  {
    hide IsStartOf, CallOk;
    assert StartsKept(w, v);
    forall k | 0 <= k < |v.threads| && v.threads[k].Caller? ensures CallOk(v, v.threads[k].call, v.threads[k].phase) {
      CallKept(w, v, v.threads[k].call, v.threads[k].phase);
    }
  }

  lemma TamperStarts(w: World, v: World)
    requires StartsOk(w) && v.threads == w.threads && v.bindings.Keys == w.bindings.Keys
    ensures StartsOk(v)
  {
    hide ValidMetadataValues, OneStart;
    forall k | 0 <= k < |v.threads| ensures StartOk(v.bindings, v.threads[k]) {
      assert StartOk(w.bindings, w.threads[k]);
    }
  }

  lemma StepSafe(w: World, tid: nat, e: Event)
    requires Inv(w)
    ensures Inv(Step(w, tid, e))
  {
    hide Inv;
    if e.Tamper? {
      if e.target in w.bindings {
        TamperSafe(w, e.target, e.binding);
      }
    } else if tid < |w.threads| {
      match w.threads[tid]
      case Caller(call, p) =>
        CallStepSafe(w, tid, call, p, e);
        hide CallStep;
      case Starter(m, p) =>
        if p.Inserting? && e.Create? {
          if e.handle !in w.bindings {
            InsertSafe(w, tid, m, p, e.handle);
          }
        } else {
          StartSafe(w, tid, m, p, e);
          hide StartStep;
        }
    }
  }

  // ----- runs -----

  /** Before the first step: nothing active, every thread at its beginning. */
  predicate Initial(w: World) {
    && w.active == map[] && w.bindings == map[]
    && forall t :: t in w.threads ==> (t.Starter? && t.start == Checking) || (t.Caller? && t.phase == Requested)
  }

  lemma {:induction false} RunSafe(w: World, schedule: seq<(nat, Event)>)
    requires Inv(w)
    ensures Inv(Run(w, schedule))
  {
    hide Inv, Step;
    if schedule != [] {
      RunSafe(w, schedule[..|schedule| - 1]);
      StepSafe(Run(w, schedule[..|schedule| - 1]), schedule[|schedule| - 1].0, schedule[|schedule| - 1].1);
    }
  }

  lemma InitialInv(w: World)
    requires Initial(w)
    ensures Inv(w)
  {
    forall k | 0 <= k < |w.threads| ensures w.threads[k].Caller? ==> w.threads[k].phase == Requested {
      assert w.threads[k] in w.threads;
    }
  }

  predicate Yields(t: Thread, h: Handle) {
    t.Caller? && t.call.handle == Some(h) && t.phase.Finished? && t.phase.result.Some? && t.phase.result.value.Ok?
  }

  lemma YieldsTook(w: World, k: nat, h: Handle)
    requires Inv(w) && k < |w.threads| && Yields(w.threads[k], h)
    ensures TookHandle(w.threads[k], h)
    ensures var t := w.threads[k];
            && t.Caller? && t.phase.Finished? && t.phase.result.Some? && t.phase.result.value.Ok?
            && Accounted(w, t.call, t.phase.result.value.value)
  {
    hide Exact, TakenOnce, Accounted, FromStart;
    assert CallOk(w, w.threads[k].call, w.threads[k].phase);
  }

  lemma OnlyOneTakes(w: World, j: nat, k: nat, h: Handle)
    requires Inv(w) && j < |w.threads| && k < |w.threads| && j != k && TookHandle(w.threads[j], h)
    ensures !TookHandle(w.threads[k], h) && h !in w.active
  {
    hide CallOk, FromStart, TookHandle;
  }

  /** Under every interleaving each handle yields at most one record, and that record is built
      from the handle's own start and the call's own evidence. */
  lemma YieldsOnce(w: World, schedule: seq<(nat, Event)>, h: Handle, j: nat, k: nat)
    requires Initial(w) && j < |w.threads| && k < |w.threads|
    requires Yields(Run(w, schedule).threads[j], h)
    ensures var v := Run(w, schedule);
            && (j != k ==> !Yields(v.threads[k], h))
            && v.threads[j].Caller? && v.threads[j].phase.Finished? && v.threads[j].phase.result.Some?
            && v.threads[j].phase.result.value.Ok?
            && Accounted(v, v.threads[j].call, v.threads[j].phase.result.value.value)
  {
    hide Run, Initial, Inv, Accounted, TookHandle, Yields;
    InitialInv(w);
    RunSafe(w, schedule);
    var v := Run(w, schedule);
    YieldsTook(v, j, h);
    if j != k {
      OnlyOneTakes(v, j, k, h);
      if Yields(v.threads[k], h) {
        YieldsTook(v, k, h);
      }
    }
  }

  predicate Refused(t: Thread, code: CollectionError) {
    t.Caller? && t.phase.Finished? && t.phase.result == Some(Err(code))
  }

  lemma RefusedTookNothing(w: World, k: nat, h: Handle)
    requires CallsOk(w) && k < |w.threads|
    ensures Refused(w.threads[k], InvalidEvidence) || Refused(w.threads[k], InvalidErrorCategory) ==>
            !TookHandle(w.threads[k], h)
  {
    hide CallsOk, Accounted, FromStart;
    if w.threads[k].Caller? {
      CallIsOk(w, k);
    }
  }

  /** A created handle is active exactly while no call has taken it; a call that was refused
      for its evidence or its error category has not taken it. */
  lemma ActiveExactly(w: World, schedule: seq<(nat, Event)>, h: Handle)
    requires Initial(w) && h in Run(w, schedule).bindings
    ensures var v := Run(w, schedule);
            && (h in v.active <==> forall k :: 0 <= k < |v.threads| ==> !TookHandle(v.threads[k], h))
            && (forall k :: 0 <= k < |v.threads| &&
                            (Refused(v.threads[k], InvalidEvidence) || Refused(v.threads[k], InvalidErrorCategory)) ==>
                              !TookHandle(v.threads[k], h))
  {
    hide Run, Initial, CallsOk, EntriesOk, MarksOk, TakenOnce, TookHandle, Refused;
    InitialInv(w);
    RunSafe(w, schedule);
    var v := Run(w, schedule);
    forall k | 0 <= k < |v.threads|
      ensures Refused(v.threads[k], InvalidEvidence) || Refused(v.threads[k], InvalidErrorCategory) ==>
              !TookHandle(v.threads[k], h)
    {
      RefusedTookNothing(v, k, h);
    }
  }

  lemma TakenStays(w: World, tid: nat, e: Event, k: nat, h: Handle)
    requires k < |w.threads| && TookHandle(w.threads[k], h)
    ensures TookHandle(Step(w, tid, e).threads[k], h)
  {
    hide Inspect, Consume, SnapshotEvidence, BuildRecord, AcceptedCategory, StartStep;
  }

  lemma {:induction false} TakenForever(w: World, schedule: seq<(nat, Event)>, k: nat, h: Handle)
    requires k < |w.threads| && TookHandle(w.threads[k], h)
    ensures TookHandle(Run(w, schedule).threads[k], h)
  {
    hide TookHandle, Step;
    if schedule != [] {
      TakenForever(w, schedule[..|schedule| - 1], k, h);
      TakenStays(Run(w, schedule[..|schedule| - 1]), schedule[|schedule| - 1].0, schedule[|schedule| - 1].1, k, h);
    }
  }

  /** Once a call has taken a handle, whether or not a clock then fails it, no other call ever
      yields a record for it. */
  lemma NeverAgain(w: World, before: seq<(nat, Event)>, after: seq<(nat, Event)>, h: Handle, j: nat, k: nat)
    requires Initial(w) && j < |w.threads| && k < |w.threads| && j != k
    requires TookHandle(Run(w, before).threads[j], h)
    ensures var v := Run(Run(w, before), after);
            h !in v.active && !Yields(v.threads[k], h)
  {
    hide Run, Initial, Inv, TookHandle, Yields;
    InitialInv(w);
    RunSafe(w, before);
    var u := Run(w, before);
    RunSafe(u, after);
    TakenForever(u, after, j, h);
    var v := Run(u, after);
    OnlyOneTakes(v, j, k, h);
    if Yields(v.threads[k], h) {
      YieldsTook(v, k, h);
    }
  }

  // ----- evidence that is priced too late -----

  /** A handle has one start. */
  lemma StartUnique(w: World, h: Handle, a: Active, b: Active)
    requires StartsOk(w) && FromStart(w, h, a) && FromStart(w, h, b)
    ensures a == b
  {
    hide ValidMetadataValues, StartOk;
    var j :| 0 <= j < |w.threads| && IsStartOf(w.threads[j], h, a);
    var k :| 0 <= k < |w.threads| && IsStartOf(w.threads[k], h, b);
    assert j < k ==> OneStart(w.threads[j], w.threads[k]);
    assert k < j ==> OneStart(w.threads[k], w.threads[j]);
  }

  /** Which rejected evidence consumes its handle: under every interleaving, a call that ends
      as a failed terminalization has taken its handle, its cost evidence is priced after the
      start of that handle, and no call yields a record for the handle. */
  lemma LatePricingConsumes(w: World, schedule: seq<(nat, Event)>, k: nat, j: nat)
    requires Initial(w) && j < |w.threads| && k < |w.threads|
             && Refused(Run(w, schedule).threads[k], TerminalizationFailed)
    ensures var v := Run(w, schedule);
            var t := v.threads[k];
            && t.call.handle.Some? && TookHandle(t, t.call.handle.value) && t.call.handle.value !in v.active
            && Mispriced(v, t.call)
            && !Yields(v.threads[j], t.call.handle.value)
  {
    hide Run, Initial, Inv;
    InitialInv(w);
    RunSafe(w, schedule);
    var v := Run(w, schedule);
    InvParts(v);
    CallIsOk(v, k);
    hide Mispriced, CallsOk, StartsOk, Yields;
    var h := v.threads[k].call.handle.value;
    assert TookHandle(v.threads[k], h);
    hide CallOk;
    if Yields(v.threads[j], h) {
      YieldsTook(v, j, h);
      YieldsIsNotRefused(v.threads[j], h);
      OnlyOneTakes(v, k, j, h);
    } else if h in v.active {
      NoneTook(v, h);
    }
  }

  lemma InvParts(w: World)
    requires Inv(w)
    ensures CallsOk(w) && StartsOk(w)
  {}

  lemma YieldsIsNotRefused(t: Thread, h: Handle)
    requires Yields(t, h)
    ensures forall code :: !Refused(t, code)
  {}

  /** And a call whose cost evidence is priced after the start of its handle never yields. */
  lemma LatePricingNeverYields(w: World, schedule: seq<(nat, Event)>, k: nat, h: Handle)
    requires Initial(w) && k < |w.threads| && Run(w, schedule).threads[k].Caller?
    requires Run(w, schedule).threads[k].call.handle == Some(h)
             && Mispriced(Run(w, schedule), Run(w, schedule).threads[k].call)
    ensures !Yields(Run(w, schedule).threads[k], h)
  {
    hide Run, Initial, Inv, TookHandle, Yields, FromStart, PricedLater, Accounted;
    InitialInv(w);
    RunSafe(w, schedule);
    var v := Run(w, schedule);
    InvParts(v);
    if Yields(v.threads[k], h) {
      YieldsTook(v, k, h);
      var call := v.threads[k].call;
      var a := AccountedInTime(v, call, v.threads[k].phase.result.value.value);
      var b :| FromStart(v, h, b) && PricedLater(call.cost.value, b.startedAt);
      StartUnique(v, h, a, b);
    }
  }

  lemma AccountedInTime(w: World, call: Call, r: Record) returns (a: Active)
    requires Accounted(w, call, r)
    ensures FromStart(w, call.handle.value, a) && call.cost.Some? && !PricedLater(call.cost.value, a.startedAt)
  {
    hide FromStart;
    var at, m;
    a, at, m :| FromStart(w, call.handle.value, a) && BuiltFrom(call, a, at, m, r);
    SnapshotOfEvidence(call.usage, call.cost);
    var evidence := SnapshotEvidence(call.usage, call.cost).value;
    BuiltInTime(a, call.terminal, evidence.0, evidence.1, at, m);
    hide SnapshotEvidence, BuildRecord;
  }

  lemma BuiltInTime(a: Active, t: Terminal, usage: TokenUsage, cost: Cost, completedAt: Instant, monotonic: real)
    requires BuildRecord(a, t, usage, cost, completedAt, monotonic).Ok?
    ensures !PricedLater(cost, a.startedAt)
  {
    hide DurationMilliseconds, ValidCost, ValidUsage, ValidIdentifier, NotAfter, SnapshotAmount;
  }

  // ----- what one start and one call come to -----

  /** One start and one call, with clock samples. */
  datatype Script = Script(metadata: Metadata, call: Call, startedAt: Instant, started: real, completedAt: Instant,
                           completed: real)

  predicate Runnable(x: Script) {
    && ValidMetadataValues(x.metadata) && x.call.handle == Some(0) && AcceptedCategory(x.call.terminal)
    && SnapshotEvidence(x.call.usage, x.call.cost).Some?
  }

  /** Neither clock runs backwards and the duration is in range. */
  predicate RunsForward(x: Script) {
    NotAfter(x.startedAt, x.completedAt) && DurationMilliseconds(x.started, x.completed).Some?
  }

  function ScriptStep(x: Script, k: nat): (nat, Event) {
    match k
    case 0 => (0, Proceed)
    case 1 => (0, Wall(Some(x.startedAt)))
    case 2 => (0, Monotonic(Some(x.started)))
    case 3 => (0, Create(0))
    case 8 => (1, Wall(Some(x.completedAt)))
    case 9 => (1, Monotonic(Some(x.completed)))
    case _ => (1, Proceed)
  }

  function ScriptStart(x: Script, k: nat): StartPhase {
    match k
    case 0 => Checking
    case 1 => StartWall
    case 2 => StartMonotonic(x.startedAt)
    case 3 => Inserting(x.startedAt, x.started)
    case _ => Started(0, x.startedAt, x.started)
  }

  function ScriptCall(x: Script, k: nat): CallPhase
    requires Runnable(x)
  {
    var a := Active(0, x.metadata, x.startedAt, x.started);
    var evidence := SnapshotEvidence(x.call.usage, x.call.cost).value;
    match k
    case 5 => Inspecting
    case 6 => Snapshotting(a)
    case 7 => Consuming(a, evidence.0, evidence.1)
    case 8 => SamplingWall(a, evidence.0, evidence.1)
    case 9 => SamplingMonotonic(a, evidence.0, evidence.1, x.completedAt)
    case 10 => Finished(Some(BuildRecord(a, x.call.terminal, evidence.0, evidence.1, x.completedAt, x.completed)), true)
    case _ => Requested
  }

  function ScriptWorld(x: Script, k: nat): World
    requires Runnable(x)
  {
    World(if 4 <= k < 8 then map[0 := Active(0, x.metadata, x.startedAt, x.started)] else map[],
          if k < 4 then map[] else map[0 := Binding(OWNER, 0)],
          [Starter(x.metadata, ScriptStart(x, k)), Caller(x.call, ScriptCall(x, k))])
  }

  lemma ScriptStarts(x: Script, k: nat)
    requires Runnable(x) && k < 4
    ensures Step(ScriptWorld(x, k), ScriptStep(x, k).0, ScriptStep(x, k).1) == ScriptWorld(x, k + 1)
  {
    hide ValidMetadataValues, SnapshotEvidence, BuildRecord, AcceptedCategory;
    var w := ScriptWorld(x, k);
    assert w.threads[0 := Starter(x.metadata, ScriptStart(x, k + 1))] == ScriptWorld(x, k + 1).threads;
  }

  lemma ScriptCalls(x: Script, k: nat)
    requires Runnable(x) && 4 <= k < 10
    ensures Step(ScriptWorld(x, k), ScriptStep(x, k).0, ScriptStep(x, k).1) == ScriptWorld(x, k + 1)
  {
    hide ValidMetadataValues, SnapshotEvidence, BuildRecord, AcceptedCategory;
    var w := ScriptWorld(x, k);
    assert w.threads[1 := Caller(x.call, ScriptCall(x, k + 1))] == ScriptWorld(x, k + 1).threads;
  }

  /** A started invocation whose call brings accepted evidence, an accepted category and two
      clock samples is taken. It yields its record exactly when the clocks ran forward and the
      cost was not priced after the start; when only the latter fails, the call ends as a failed
      terminalization, and the handle is gone all the same. */
  lemma YieldsExactly(x: Script) returns (schedule: seq<(nat, Event)>)
    requires Runnable(x)
    ensures Initial(ScriptWorld(x, 0))
    ensures var v := Run(ScriptWorld(x, 0), schedule);
            && TookHandle(v.threads[1], 0) && 0 in v.bindings && 0 !in v.active
            && (Yields(v.threads[1], 0) <==> RunsForward(x) && !PricedLater(x.call.cost.value, x.startedAt))
            && (Refused(v.threads[1], TerminalizationFailed) <==>
                RunsForward(x) && PricedLater(x.call.cost.value, x.startedAt))
  {
    hide Step, ScriptWorld, Runnable, Run;
    schedule := [];
    RunNothing(ScriptWorld(x, 0));
    for k := 0 to 10
      invariant Run(ScriptWorld(x, 0), schedule) == ScriptWorld(x, k)
    {
      if k < 4 {
        ScriptStarts(x, k);
      } else {
        ScriptCalls(x, k);
      }
      RunMore(ScriptWorld(x, 0), schedule, ScriptStep(x, k));
      schedule := schedule + [ScriptStep(x, k)];
    }
    ScriptEnds(x);
  }

  lemma RunNothing(w: World)
    ensures Run(w, []) == w
  {}

  lemma RunMore(w: World, schedule: seq<(nat, Event)>, next: (nat, Event))
    ensures Run(w, schedule + [next]) == Step(Run(w, schedule), next.0, next.1)
  {
    hide Step;
    assert (schedule + [next])[..|schedule|] == schedule;
  }

  lemma ScriptEnds(x: Script)
    requires Runnable(x)
    ensures Initial(ScriptWorld(x, 0)) && x.call.cost.Some?
    ensures var v := ScriptWorld(x, 10);
            && TookHandle(v.threads[1], 0) && 0 in v.bindings && 0 !in v.active
            && (Yields(v.threads[1], 0) <==> RunsForward(x) && !PricedLater(x.call.cost.value, x.startedAt))
            && (Refused(v.threads[1], TerminalizationFailed) <==>
                RunsForward(x) && PricedLater(x.call.cost.value, x.startedAt))
  {
    hide ValidMetadataValues, SnapshotEvidence, BuildRecord, AcceptedCategory, DurationMilliseconds, NotAfter,
         PricedLater;
    var a := Active(0, x.metadata, x.startedAt, x.started);
    BuildsExactly(a, x.call.terminal, x.call.usage, x.call.cost, x.completedAt, x.completed);
    SnapshotOfEvidence(x.call.usage, x.call.cost);
  }

  // ----- an input on which valid evidence loses the handle -----

  const LATE_COST := Cost(ProviderReportedCost, Some(Finite(false, 0, 0)), Some("USD"), Some("s"), Some("v"),
                          Some(Timestamp(1, 0)), None)

  const NO_USAGE := TokenUsage(UnavailableUsage, None, None, None, None,
                               [Absence(InputTokens, NotCollected), Absence(OutputTokens, NotCollected),
                                Absence(CachedInputTokens, NotCollected), Absence(TotalTokens, NotCollected)])

  const LATE_SCRIPT := Script(Metadata("i", "s", "r", None, "p", Some("m"), None, "o", 1, None, None),
                              Call(Some(0), Some(NO_USAGE), Some(LATE_COST), Complete),
                              Timestamp(0, 0), 0.0, Timestamp(2, 0), 2.0)

  /** Pricing that takes effect one second after the start is accepted as evidence, on an
      invocation that is otherwise in order. */
  lemma LatePricingIsAccepted()
    ensures Runnable(LATE_SCRIPT) && RunsForward(LATE_SCRIPT)
    ensures PricedLater(LATE_COST, LATE_SCRIPT.startedAt)
  {
    NoUsageIsValid();
    hide ValidUsage;
    assert DurationMilliseconds(0.0, 2.0) == Some(2000);
    assert DigitCount(1) == 1 && DigitCount(0) == 1;
    assert ValidIdentifier("i") && ValidIdentifier("s") && ValidIdentifier("r") && ValidIdentifier("p")
      && ValidIdentifier("o");
    assert ValidIdentifier("m") && ValidIdentifier("v");
    hide ValidIdentifier, DurationMilliseconds;
    assert ValidIdentity(IdentityOf(LATE_COST), true);
  }

  /** So it is a run in which a call with accepted evidence loses its handle without a record. */
  lemma LatePricingLosesHandle() returns (schedule: seq<(nat, Event)>)
    ensures Runnable(LATE_SCRIPT) && Initial(ScriptWorld(LATE_SCRIPT, 0))
    ensures var v := Run(ScriptWorld(LATE_SCRIPT, 0), schedule);
            Refused(v.threads[1], TerminalizationFailed) && 0 in v.bindings && 0 !in v.active
  {
    LatePricingIsAccepted();
    hide Runnable, RunsForward, PricedLater, ScriptWorld, Run, Refused, Initial, TookHandle, Yields;
    schedule := YieldsExactly(LATE_SCRIPT);
  }

  lemma NoUsageIsValid()
    ensures ValidUsage(NO_USAGE)
  {
    var u := NO_USAGE.unavailable;
    assert u[0].field == InputTokens && u[1].field == OutputTokens && u[2].field == CachedInputTokens
      && u[3].field == TotalTokens;
    forall f ensures Count(NO_USAGE, f).None? && exists i :: 0 <= i < |u| && u[i].field == f {
      match f
      case InputTokens => assert u[0].field == f;
      case OutputTokens => assert u[1].field == f;
      case CachedInputTokens => assert u[2].field == f;
      case TotalTokens => assert u[3].field == f;
    }
  }
}
