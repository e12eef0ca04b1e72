/** Altered handles (pmqa/usage/collector.py, _inspect_handle): a handle whose private binding no
    longer matches its entry is refused and its entry is gone, alone and under every interleaving. */
module CollectorHandles {
  import opened Wrappers
  import opened UsageRecords
  import opened InvocationCollector

  /** The binding is the one the collector gave this entry. */
  predicate Intact(active: ActiveMap, h: Handle, b: Binding) {
    h in active && b.owner == 0 && b.integrity == active[h].integrity
  }

  // ----- one call alone -----

  /** An altered binding of a known handle: the call is refused and the entry is gone. */
  lemma AlteredIsRefused(active: ActiveMap, call: Call, b: Binding, wall: Option<Instant>, monotonic: Option<real>)
    requires AcceptedCategory(call.terminal)
    requires call.handle.Some? && call.handle.value in active && !Intact(active, call.handle.value, b)
    ensures TerminalizeAlone(active, call, b, wall, monotonic)
         == (Err(InvalidHandle), map h | h in active && h != call.handle.value :: active[h])
  {
    hide BuildRecord, SnapshotEvidence;
    var h := call.handle.value;
    assert active - {h} == map g | g in active && g != h :: active[g];
  }

  /** Alone, a call is refused for its handle exactly when the handle is of the wrong type, is
      not active, or its binding was altered. */
  lemma RefusedExactly(active: ActiveMap, call: Call, b: Binding, wall: Option<Instant>, monotonic: Option<real>)
    ensures TerminalizeAlone(active, call, b, wall, monotonic).0 == Err(InvalidHandle) <==>
              AcceptedCategory(call.terminal) && (call.handle.None? || !Intact(active, call.handle.value, b))
  {
    hide SnapshotRecord, SnapshotEvidence, DurationMilliseconds, NotAfter;
  }

  // ----- every interleaving -----

  /** At step m the call of thread k looks its handle up. */
  predicate LooksUp(w: World, schedule: seq<(nat, Event)>, k: nat, h: Handle, m: nat)
    requires m < |schedule| && k < |w.threads|
  {
    var t := Run(w, schedule[..m]).threads[k];
    && t.Caller? && t.phase.Inspecting? && t.call.handle == Some(h)
    && schedule[m].0 == k && !schedule[m].1.Tamper? && !schedule[m].1.Interrupt?
  }

  /** The handle's entry and binding match before step m. */
  predicate IntactAt(w: World, schedule: seq<(nat, Event)>, h: Handle, m: nat)
    requires m <= |schedule|
  {
    var u := Run(w, schedule[..m]);
    h in u.bindings && Intact(u.active, h, u.bindings[h])
  }

  lemma RunTo(w: World, schedule: seq<(nat, Event)>, m: nat)
    requires m < |schedule|
    ensures Run(w, schedule[..m + 1]) == Step(Run(w, schedule[..m]), schedule[m].0, schedule[m].1)
  {
    hide Step;
    assert schedule[..m + 1][..m] == schedule[..m];
  }

  lemma {:induction false} RunOn(w: World, a: seq<(nat, Event)>, b: seq<(nat, Event)>)
    ensures Run(w, a + b) == Run(Run(w, a), b)
  {
    hide Step;
    var s := a + b;
    if b == [] {
      assert s == a;
    } else {
      RunOn(w, a, b[..|b| - 1]);
      assert s[..|s| - 1] == a + b[..|b| - 1];
    }
  }

  lemma AlteredStep(u: World, k: nat, e: Event, h: Handle)
    requires k < |u.threads| && u.threads[k].Caller? && u.threads[k].phase.Inspecting?
             && u.threads[k].call.handle == Some(h)
    requires !e.Tamper? && !e.Interrupt? && h in u.bindings && h in u.active && !Intact(u.active, h, u.bindings[h])
    ensures var v := Step(u, k, e);
            && v.threads[k] == Caller(u.threads[k].call, Finished(Some(Err(InvalidHandle)), true))
            && h !in v.active
  {
    hide SnapshotEvidence, BuildRecord;
  }

  lemma AlteredTakes(w: World, schedule: seq<(nat, Event)>, k: nat, h: Handle, m: nat)
    requires Initial(w) && k < |w.threads| && m < |schedule|
    requires LooksUp(w, schedule, k, h, m) && !IntactAt(w, schedule, h, m) && h in Run(w, schedule[..m]).active
    ensures var t := Run(w, schedule[..m + 1]).threads[k];
            t.Caller? && t.call.handle == Some(h) && t.phase == Finished(Some(Err(InvalidHandle)), true)
  {
    hide Run, Initial, Inv, Step;
    InitialInv(w);
    RunSafe(w, schedule[..m]);
    var u := Run(w, schedule[..m]);
    ActiveIsBound(u, h);
    AlteredStep(u, k, schedule[m].1, h);
    RunTo(w, schedule, m);
  }

  /** A call that looks up an altered handle takes its entry and is refused, and from then on no
      call, whatever it had seen before, yields a record for the handle. */
  lemma AlteredNeverYields(w: World, schedule: seq<(nat, Event)>, k: nat, h: Handle, m: nat, j: nat)
    requires Initial(w) && k < |w.threads| && j < |w.threads| && m < |schedule|
    requires LooksUp(w, schedule, k, h, m) && !IntactAt(w, schedule, h, m) && h in Run(w, schedule[..m]).active
    ensures var v := Run(w, schedule);
            && Refused(v.threads[k], InvalidHandle) && TookHandle(v.threads[k], h) && h !in v.active
            && !Yields(v.threads[j], h)
  {
    hide Run, Initial, Inv, TookHandle, Yields, Step, LooksUp, IntactAt, Refused;
    AlteredTakes(w, schedule, k, h, m);
    var before, rest := schedule[..m + 1], schedule[m + 1..];
    assert before + rest == schedule;
    RunOn(w, before, rest);
    var v := Run(w, before);
    FinishedTook(v.threads[k], h);
    FinishedStays(v, rest, k);
    InitialInv(w);
    RunSafe(w, schedule);
    TakenIsInactive(Run(w, schedule), k, h);
    RefusedIsNoYield(Run(w, schedule).threads[k], h);
    if j != k {
      NeverAgain(w, before, rest, h, k, j);
    }
  }

  // ----- whoever yields has looked up an intact handle -----

  predicate FoundIntact(w: World, schedule: seq<(nat, Event)>, k: nat, h: Handle)
    requires k < |w.threads|
  {
    exists m :: 0 <= m < |schedule| && LooksUp(w, schedule, k, h, m) && IntactAt(w, schedule, h, m)
  }

  /** The call has got past the lookup of its handle. */
  predicate PastLookup(p: CallPhase) {
    p.Snapshotting? || p.Consuming? || p.SamplingWall? || p.SamplingMonotonic?
    || (p.Finished? && p.result.Some? && p.result.value.Ok?)
  }

  lemma LookupStep(u: World, tid: nat, e: Event, k: nat)
    requires k < |u.threads| && u.threads[k].Caller?
    ensures var t, s := u.threads[k], Step(u, tid, e).threads[k];
            && s.Caller? && s.call == t.call
            && (PastLookup(s.phase) && !PastLookup(t.phase) ==>
                  && tid == k && t.phase.Inspecting? && t.call.handle.Some? && !e.Tamper? && !e.Interrupt?
                  && t.call.handle.value in u.bindings
                  && Intact(u.active, t.call.handle.value, u.bindings[t.call.handle.value]))
  {
    hide SnapshotEvidence, BuildRecord, StartStep;
  }

  lemma FoundGrows(w: World, schedule: seq<(nat, Event)>, k: nat, h: Handle)
    requires schedule != [] && k < |w.threads|
    requires var n := |schedule| - 1;
             FoundIntact(w, schedule[..n], k, h) || (LooksUp(w, schedule, k, h, n) && IntactAt(w, schedule, h, n))
    ensures FoundIntact(w, schedule, k, h)
  {
    hide Run;
    var n := |schedule| - 1;
    var init := schedule[..n];
    if FoundIntact(w, init, k, h) {
      var m :| 0 <= m < |init| && LooksUp(w, init, k, h, m) && IntactAt(w, init, h, m);
      assert init[..m] == schedule[..m];
      assert LooksUp(w, schedule, k, h, m) && IntactAt(w, schedule, h, m);
    }
  }

  lemma {:induction false} PastFoundIntact(w: World, schedule: seq<(nat, Event)>, k: nat, h: Handle)
    requires k < |w.threads| && w.threads[k].Caller? && w.threads[k].phase == Requested
    requires w.threads[k].call.handle == Some(h)
    ensures var t := Run(w, schedule).threads[k];
            t.Caller? && t.call == w.threads[k].call && (PastLookup(t.phase) ==> FoundIntact(w, schedule, k, h))
  {
    hide Step, Intact, FoundIntact, PastLookup;
    if schedule == [] {
      assert !PastLookup(Requested) by { RequestedIsEarly(); }
    } else {
      var n := |schedule| - 1;
      PastFoundIntact(w, schedule[..n], k, h);
      LookupStep(Run(w, schedule[..n]), schedule[n].0, schedule[n].1, k);
      if PastLookup(Run(w, schedule).threads[k].phase) {
        FoundGrows(w, schedule, k, h);
      }
    }
  }

  lemma RequestedIsEarly()
    ensures !PastLookup(Requested)
  {}

  /** Every call that yields a record for a handle has looked it up at a moment at which its
      binding was intact. */
  lemma YieldFoundIntact(w: World, schedule: seq<(nat, Event)>, k: nat, h: Handle)
    requires Initial(w) && k < |w.threads| && Yields(Run(w, schedule).threads[k], h)
    ensures FoundIntact(w, schedule, k, h)
  {
    hide Run, FoundIntact;
    assert w.threads[k] in w.threads;
    CallersStay(w, schedule, k);
    PastFoundIntact(w, schedule, k, h);
  }

  lemma {:induction false} CallersStay(w: World, schedule: seq<(nat, Event)>, k: nat)
    requires k < |w.threads| && Run(w, schedule).threads[k].Caller?
    ensures w.threads[k].Caller? && w.threads[k].call == Run(w, schedule).threads[k].call
  {
    hide CallStep, StartStep;
    if schedule != [] {
      CallersStay(w, schedule[..|schedule| - 1], k);
    }
  }

  lemma ActiveIsBound(w: World, h: Handle)
    requires Inv(w) && h in w.active
    ensures h in w.bindings
  {
    hide CallsOk, StartsOk, Exact, TakenOnce, FromStart;
  }

  lemma FinishedTook(t: Thread, h: Handle)
    requires t.Caller? && t.call.handle == Some(h) && t.phase == Finished(Some(Err(InvalidHandle)), true)
    ensures TookHandle(t, h) && Refused(t, InvalidHandle)
  {}

  lemma RefusedIsNoYield(t: Thread, h: Handle)
    requires Refused(t, InvalidHandle)
    ensures !Yields(t, h)
  {}

  lemma TakenIsInactive(w: World, k: nat, h: Handle)
    requires Inv(w) && k < |w.threads| && TookHandle(w.threads[k], h)
    ensures h !in w.active
  {
    hide CallOk, FromStart, TookHandle, StartOk;
  }

  lemma {:induction false} FinishedStays(w: World, schedule: seq<(nat, Event)>, k: nat)
    requires k < |w.threads| && w.threads[k].Caller? && w.threads[k].phase.Finished?
    ensures Run(w, schedule).threads[k] == w.threads[k]
  {
    if schedule != [] {
      FinishedStays(w, schedule[..|schedule| - 1], k);
      hide StartStep, Inspect, Consume, SnapshotEvidence, BuildRecord;
    }
  }
}
