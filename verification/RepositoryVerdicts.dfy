/** Why a save ends as it does (pmqa/usage/repository.py, save): its outcome is decided by one step,
    the first that refuses the record, fails, meets the taken name or synchronizes the directory. */
module RepositoryVerdicts {
  import opened Wrappers
  import opened UsageRecords
  import opened RepositoryFiles
  import opened RepositoryProtocol

  /** Before the temporary file exists. */
  predicate Early(p: SavePhase) {
    p.Preparing? || p.Preflighting? || p.Creating?
  }

  /** From the temporary file to the link, or the failure of one of these steps. */
  predicate Publishes(p: SavePhase) {
    p.Identifying? || p.Securing? || p.Writing? || p.Syncing? || p.Linking?
  }

  /** What a step decides about the save, if anything: a fault of the first directory check is a
      configuration fault; a missing capability is an unsupported publication until the link, as
      is an unsupported link or directory synchronization before it; every other fault, and a
      write of nothing, is a persistence failure. */
  predicate Decides(c: Codec, w: World, r: Record, p: SavePhase, e: Event, o: Outcome) {
    match o
    case Saved => p.SyncingDirectory? && e == Proceed
    case Interrupted => false
    case FailedWith(InvalidRecord) => p.Validating? && !e.Interrupt? && !Acceptable(c, r)
    case FailedWith(DuplicateRecord) => p.Linking? && e == Proceed && RecordName(r.invocationId) in w.dir
    case FailedWith(InvalidConfiguration) => p.Preparing? && e == Fails(Misconfigured)
    case FailedWith(UnsupportedPublication) =>
      || ((Early(p) || Publishes(p)) && e == Fails(NotImplementedFault))
      || ((p.Preflighting? || p.Linking?) && e == Fails(UnsupportedErrno))
    case FailedWith(PersistenceFailure) =>
      || (p.SyncingDirectory? && e.Fails?)
      || ((Early(p) || Publishes(p)) && e == Fails(OsFault))
      || (((Early(p) && !p.Preparing?) || Publishes(p)) && e == Fails(Misconfigured))
      || (((Early(p) && !p.Preflighting?) || (Publishes(p) && !p.Linking?)) && e == Fails(UnsupportedErrno))
      || (p.Writing? && e == Chunk(0) && p.offset < |Payload(c, r)|)
    case FailedWith(_) => false
  }

  predicate DecidesAt(c: Codec, w: World, schedule: seq<(nat, Event)>, k: nat, o: Outcome, i: nat)
    requires i < |schedule| && k < |w.threads|
  {
    var u := Run(c, w, schedule[..i]);
    && schedule[i].0 == k && u.threads[k].Saver?
    && Decides(c, u, u.threads[k].record, u.threads[k].save, schedule[i].1, o)
  }

  /** Some step of save k has decided this outcome. */
  predicate Decided(c: Codec, w: World, schedule: seq<(nat, Event)>, k: nat, o: Outcome)
    requires k < |w.threads|
  {
    exists i :: 0 <= i < |schedule| && DecidesAt(c, w, schedule, k, o, i)
  }

  predicate StopsAt(c: Codec, w: World, schedule: seq<(nat, Event)>, k: nat, i: nat)
    requires i < |schedule| && k < |w.threads|
  {
    var t := Run(c, w, schedule[..i]).threads[k];
    schedule[i].0 == k && schedule[i].1.Interrupt? && t.Saver? && !t.save.SaveDone?
  }

  /** Save k was interrupted before it was done. */
  predicate Stopped(c: Codec, w: World, schedule: seq<(nat, Event)>, k: nat)
    requires k < |w.threads|
  {
    exists i :: 0 <= i < |schedule| && StopsAt(c, w, schedule, k, i)
  }

  lemma DecidedGrows(c: Codec, w: World, schedule: seq<(nat, Event)>, k: nat, o: Outcome)
    requires schedule != [] && k < |w.threads|
    ensures var n := |schedule| - 1;
            Decided(c, w, schedule, k, o) <==>
              Decided(c, w, schedule[..n], k, o) || DecidesAt(c, w, schedule, k, o, n)
  {
    hide Run, Decides;
    var n := |schedule| - 1;
    var init := schedule[..n];
    forall i | 0 <= i < n ensures DecidesAt(c, w, schedule, k, o, i) <==> DecidesAt(c, w, init, k, o, i) {
      assert init[..i] == schedule[..i];
    }
    hide DecidesAt;
  }

  lemma StoppedGrows(c: Codec, w: World, schedule: seq<(nat, Event)>, k: nat)
    requires schedule != [] && k < |w.threads|
    ensures var n := |schedule| - 1;
            Stopped(c, w, schedule, k) <==> Stopped(c, w, schedule[..n], k) || StopsAt(c, w, schedule, k, n)
  {
    hide Run;
    var n := |schedule| - 1;
    var init := schedule[..n];
    forall i | 0 <= i < n ensures StopsAt(c, w, schedule, k, i) <==> StopsAt(c, w, init, k, i) {
      assert init[..i] == schedule[..i];
    }
    hide StopsAt;
  }

  // ----- one step -----

  /** The phases in which the outcome is decided. */
  predicate Settled(p: SavePhase) {
    p.Releasing? || p.Unlinking? || p.Closing? || p.SaveDone?
  }

  /** An undecided save moves on with exactly what the step decides; a decided one keeps its
      outcome, unless it is interrupted. */
  lemma StepDecides(c: Codec, w: World, r: Record, p: SavePhase, e: Event, o: Outcome)
    requires p.Linking? ==> TempName(p.temp) in w.dir
    requires p.Writing? ==> p.inode in w.data
    ensures var q := SaverStep(c, w, r, p, e).phase;
            if Settled(p) then
              && Settled(q) && !Decides(c, w, r, p, e, o)
              && OutcomeOf(q) == if e.Interrupt? && !p.SaveDone? then Interrupted else OutcomeOf(p)
            else
              && (Settled(q) && OutcomeOf(q) == o && o != Interrupted <==> Decides(c, w, r, p, e, o))
              && (Settled(q) && OutcomeOf(q) == Interrupted <==> e.Interrupt?)
  {
    hide Free, Acceptable, Payload;
  }

  lemma NotBoth(c: Codec, w: World, r: Record, p: SavePhase, e: Event, o: Outcome)
    requires Decides(c, w, r, p, e, o)
    ensures !e.Interrupt?
  {
    hide Acceptable, Payload;
  }

  lemma WorldFacts(c: Codec, w: World, k: nat)
    requires Inv(c, w) && k < |w.threads| && w.threads[k].Saver?
    ensures w.threads[k].save.Linking? ==> TempName(w.threads[k].save.temp) in w.dir
    ensures w.threads[k].save.Writing? ==> w.threads[k].save.inode in w.data
  {
    hide FilesOk, Apart, Unpublished, Acceptable, Payload, Published, Truthful;
    assert ThreadOk(c, w.dir, w.data, w.threads[k]);
  }

  // ----- runs -----

  /** How the outcome of save k stands after a schedule, for one possible outcome. */
  predicate Judged(c: Codec, w: World, schedule: seq<(nat, Event)>, k: nat, o: Outcome)
    requires k < |w.threads| && w.threads[k].Saver?
  {
    var t := Run(c, w, schedule).threads[k];
    && t.Saver? && t.record == w.threads[k].record
    && if Settled(t.save) then
         && (OutcomeOf(t.save) == Interrupted <==> Stopped(c, w, schedule, k))
         && (OutcomeOf(t.save) == o && o != Interrupted <==>
               Decided(c, w, schedule, k, o) && !Stopped(c, w, schedule, k))
       else !Stopped(c, w, schedule, k) && !Decided(c, w, schedule, k, o)
  }

  lemma JudgedStep(c: Codec, w: World, schedule: seq<(nat, Event)>, k: nat, o: Outcome)
    requires schedule != [] && k < |w.threads| && w.threads[k].Saver?
    requires Judged(c, w, schedule[..|schedule| - 1], k, o) && Inv(c, Run(c, w, schedule[..|schedule| - 1]))
    ensures Judged(c, w, schedule, k, o)
  {
    var n := |schedule| - 1;
    var u, last := Run(c, w, schedule[..n]), schedule[n];
    hide Run, Step, Decided, Stopped, SaverStep, Decides, Inv, Settled, OutcomeOf;
    RunSplits(c, w, schedule);
    DecidedGrows(c, w, schedule, k, o);
    StoppedGrows(c, w, schedule, k);
    SaverMoved(c, u, last.0, last.1, k);
    if last.0 == k {
      var t := u.threads[k];
      WorldFacts(c, u, k);
      StepDecides(c, u, t.record, t.save, last.1, o);
      DoneIsSettled(t.save);
    }
  }

  lemma DoneIsSettled(p: SavePhase)
    ensures p.SaveDone? ==> Settled(p)
  {}

  lemma SaverMoved(c: Codec, w: World, tid: nat, e: Event, k: nat)
    requires k < |w.threads| && w.threads[k].Saver?
    ensures var t := w.threads[k];
            Step(c, w, tid, e).threads[k] ==
            if tid == k then Saver(t.record, SaverStep(c, w, t.record, t.save, e).phase) else t
  {
    hide SaverStep, ReaderStep;
  }

  lemma {:induction false} AlwaysJudged(c: Codec, w: World, schedule: seq<(nat, Event)>, k: nat, o: Outcome)
    requires Lawful(c) && Inv(c, w) && k < |w.threads| && w.threads[k].Saver? && w.threads[k].save == Validating
    ensures Judged(c, w, schedule, k, o)
  {
    hide Run, Inv, Lawful, Judged, Keeps;
    if schedule == [] {
      JudgedAtStart(c, w, k, o);
    } else {
      AlwaysJudged(c, w, schedule[..|schedule| - 1], k, o);
      RunSafe(c, w, schedule[..|schedule| - 1]);
      JudgedStep(c, w, schedule, k, o);
    }
  }

  lemma JudgedAtStart(c: Codec, w: World, k: nat, o: Outcome)
    requires k < |w.threads| && w.threads[k].Saver? && w.threads[k].save == Validating
    ensures Judged(c, w, [], k, o)
  {
    assert Run(c, w, []) == w;
  }

  /** Over every schedule a finished save has been interrupted exactly when it says so, and
      otherwise has the outcome that one of its steps decided, and no other. */
  lemma OutcomeIsDecided(c: Codec, w: World, schedule: seq<(nat, Event)>, k: nat, o: Outcome)
    requires Lawful(c) && Initial(c, w) && k < |w.threads| && w.threads[k].Saver?
    requires Run(c, w, schedule).threads[k].Saver? && Run(c, w, schedule).threads[k].save.SaveDone?
    ensures var result := Run(c, w, schedule).threads[k].save.outcome;
            && (result == Interrupted <==> Stopped(c, w, schedule, k))
            && (o != Interrupted ==> (result == o <==> Decided(c, w, schedule, k, o) && !Stopped(c, w, schedule, k)))
  {
    hide Run, Decided, Stopped;
    InitialInv(c, w);
    assert w.threads[k] in w.threads;
    hide Inv, Initial;
    AlwaysJudged(c, w, schedule, k, o);
  }

  /** A record is acceptable when it is valid and its canonical bytes are within the size limit. */
  lemma AcceptableMeans(c: Codec, r: Record)
    ensures Acceptable(c, r) <==>
              && ValidRecord(r)
              && |c.encode(r.(cost := r.cost.(amount := SnapshotAmount(r.cost.amount))))| <= 1_048_576
  {
    hide ValidRecord, SnapshotAmount;
  }
}
