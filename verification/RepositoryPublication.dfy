/** When a save has published (pmqa/usage/repository.py, save): what its outcome says about the
    link, over every interleaving. */
module RepositoryPublication {
  import opened Wrappers
  import opened UsageRecords
  import opened RepositoryFiles
  import opened RepositoryProtocol

  /** The i-th step of a schedule is one of thread k in which its record's name appears. */
  predicate LinksAt(c: Codec, w: World, schedule: seq<(nat, Event)>, k: nat, i: nat)
    requires i < |schedule| && k < |w.threads| && w.threads[k].Saver?
  {
    var name := RecordName(w.threads[k].record.invocationId);
    && schedule[i].0 == k
    && name !in Run(c, w, schedule[..i]).dir
    && name in Run(c, w, schedule[..i + 1]).dir
  }

  /** Thread k's own step created the name of its record. */
  predicate Linked(c: Codec, w: World, schedule: seq<(nat, Event)>, k: nat)
    requires k < |w.threads| && w.threads[k].Saver?
  {
    exists i :: 0 <= i < |schedule| && LinksAt(c, w, schedule, k, i)
  }

  /** After the first i steps thread k is about to synchronize the directory. */
  predicate Synchronizing(c: Codec, w: World, schedule: seq<(nat, Event)>, k: nat, i: nat)
    requires i <= |schedule| && k < |w.threads|
  {
    var t := Run(c, w, schedule[..i]).threads[k];
    t.Saver? && t.save.SyncingDirectory?
  }

  predicate PassedLink(c: Codec, w: World, schedule: seq<(nat, Event)>, k: nat)
    requires k < |w.threads|
  {
    exists i :: 0 <= i <= |schedule| && Synchronizing(c, w, schedule, k, i)
  }

  /** Once linked, only these phases remain; the outcome is success, a persistence failure or
      an interruption. */
  predicate AfterLink(p: SavePhase) {
    match p
    case SyncingDirectory(_, _) => true
    case Releasing(_, _, o) => LinkedOutcome(o)
    case Unlinking(_, _, o) => LinkedOutcome(o)
    case Closing(_, o) => LinkedOutcome(o)
    case SaveDone(o) => LinkedOutcome(o)
    case _ => false
  }

  predicate LinkedOutcome(o: Outcome) {
    o == Saved || o == FailedWith(PersistenceFailure) || o == Interrupted
  }

  predicate BeforeLink(p: SavePhase) {
    !p.SyncingDirectory? && OutcomeOf(p) != Saved
  }

  // ----- one step -----

  /** One step of a save: the name appears exactly with the move to the phase after the link,
      and no step returns to that phase or turns a failure into a success. */
  lemma SaverLinks(c: Codec, w: World, r: Record, p: SavePhase, e: Event)
    ensures var f := SaverStep(c, w, r, p, e);
            && (RecordName(r.invocationId) !in w.dir && RecordName(r.invocationId) in f.dir <==>
                  !p.SyncingDirectory? && f.phase.SyncingDirectory?)
            && (AfterLink(p) ==> AfterLink(f.phase))
            && (BeforeLink(p) && !f.phase.SyncingDirectory? ==> BeforeLink(f.phase))
  {
    hide Free, Acceptable, Payload;
  }

  /** One step of any thread: only a saver's own link adds a record name, and none removes one. */
  lemma StepLinks(c: Codec, w: World, tid: nat, e: Event, id: string)
    ensures RecordName(id) in w.dir ==> RecordName(id) in Step(c, w, tid, e).dir
    ensures RecordName(id) !in w.dir && RecordName(id) in Step(c, w, tid, e).dir ==>
              tid < |w.threads| && w.threads[tid].Saver? && w.threads[tid].record.invocationId == id
  {
    hide Free, Acceptable, Payload, ReaderStep;
  }

  lemma StepThread(c: Codec, w: World, tid: nat, e: Event, k: nat)
    requires k < |w.threads| && w.threads[k].Saver?
    ensures var t := Step(c, w, tid, e).threads[k];
            t == if tid == k then Saver(w.threads[k].record, SaverStep(c, w, w.threads[k].record, w.threads[k].save,
                                                                       e).phase)
                 else w.threads[k]
    ensures tid == k ==> Step(c, w, tid, e).dir == SaverStep(c, w, w.threads[k].record, w.threads[k].save, e).dir
  {
    hide SaverStep, ReaderStep;
  }

  // ----- runs -----

  lemma LinkedGrows(c: Codec, w: World, schedule: seq<(nat, Event)>, k: nat)
    requires schedule != [] && k < |w.threads| && w.threads[k].Saver?
    ensures var n := |schedule| - 1;
            Linked(c, w, schedule, k) <==> Linked(c, w, schedule[..n], k) || LinksAt(c, w, schedule, k, n)
  {
    hide Run;
    var n := |schedule| - 1;
    var init := schedule[..n];
    forall i | 0 <= i < n ensures LinksAt(c, w, schedule, k, i) <==> LinksAt(c, w, init, k, i) {
      assert init[..i] == schedule[..i] && init[..i + 1] == schedule[..i + 1];
    }
    hide LinksAt;
  }

  lemma PassedGrows(c: Codec, w: World, schedule: seq<(nat, Event)>, k: nat)
    requires schedule != [] && k < |w.threads|
    ensures var n := |schedule| - 1;
            PassedLink(c, w, schedule, k) <==> PassedLink(c, w, schedule[..n], k) || Synchronizing(c, w, schedule, k,
              n + 1)
  {
    hide Run;
    var n := |schedule| - 1;
    var init := schedule[..n];
    forall i | 0 <= i <= n ensures Synchronizing(c, w, schedule, k, i) <==> Synchronizing(c, w, init, k, i) {
      assert init[..i] == schedule[..i];
    }
    hide Synchronizing;
  }

  /** What a run keeps for saver k: linked and past the link are one, and the phase tells which. */
  predicate Tracked(c: Codec, w: World, schedule: seq<(nat, Event)>, k: nat)
    requires k < |w.threads| && w.threads[k].Saver?
  {
    var t := Run(c, w, schedule).threads[k];
    && t.Saver? && t.record == w.threads[k].record
    && (Linked(c, w, schedule, k) <==> PassedLink(c, w, schedule, k))
    && (if PassedLink(c, w, schedule, k) then AfterLink(t.save) else BeforeLink(t.save))
  }

  lemma {:induction false} AlwaysTracked(c: Codec, w: World, schedule: seq<(nat, Event)>, k: nat)
    requires k < |w.threads| && w.threads[k].Saver? && w.threads[k].save == Validating
    ensures Tracked(c, w, schedule, k)
  {
    if schedule == [] {
      TrackedAtStart(c, w, k);
    } else {
      hide Tracked;
      AlwaysTracked(c, w, schedule[..|schedule| - 1], k);
      TrackedStep(c, w, schedule, k);
    }
  }

  lemma TrackedAtStart(c: Codec, w: World, k: nat)
    requires k < |w.threads| && w.threads[k].Saver? && w.threads[k].save == Validating
    ensures Tracked(c, w, [], k)
  {
    assert Run(c, w, []) == w;
  }

  lemma TrackedStep(c: Codec, w: World, schedule: seq<(nat, Event)>, k: nat)
    requires schedule != [] && k < |w.threads| && w.threads[k].Saver? && Tracked(c, w, schedule[..|schedule| - 1], k)
    ensures Tracked(c, w, schedule, k)
  {
    var n := |schedule| - 1;
    var before, last := Run(c, w, schedule[..n]), schedule[n];
    hide Run, Step, Linked, PassedLink, SaverStep;
    RunSplits(c, w, schedule);
    LinkedGrows(c, w, schedule, k);
    PassedGrows(c, w, schedule, k);
    StepThread(c, before, last.0, last.1, k);
    SaverLinks(c, before, w.threads[k].record, before.threads[k].save, last.1);
    hide AfterLink, BeforeLink;
  }

  // ----- what an outcome says -----

  /** A save created its record's name exactly when it reached the directory synchronization. */
  lemma LinkedExactly(c: Codec, w: World, schedule: seq<(nat, Event)>, k: nat)
    requires k < |w.threads| && w.threads[k].Saver? && w.threads[k].save == Validating
    ensures Linked(c, w, schedule, k) <==> PassedLink(c, w, schedule, k)
  {
    AlwaysTracked(c, w, schedule, k);
    hide Linked, PassedLink, AfterLink, BeforeLink, Run;
  }

  /** What a finished save's outcome says about its link: a success has linked, and every failure
      but a persistence failure has not; an unsupported publication in particular never follows
      the link. A persistence failure and an interruption leave both open. */
  lemma OutcomeAndLink(c: Codec, w: World, schedule: seq<(nat, Event)>, k: nat, o: Outcome)
    requires k < |w.threads| && w.threads[k].Saver? && w.threads[k].save == Validating
    requires Run(c, w, schedule).threads[k].Saver? && Run(c, w, schedule).threads[k].save == SaveDone(o)
    ensures o == Saved ==> Linked(c, w, schedule, k)
    ensures o.FailedWith? && o.code != PersistenceFailure ==> !Linked(c, w, schedule, k)
  {
    AlwaysTracked(c, w, schedule, k);
    hide Linked, PassedLink, Run;
  }

  /** A save that linked has published its own complete record, for good, whatever it reports. */
  lemma LinkedIsPublishedForGood(c: Codec, w: World, schedule: seq<(nat, Event)>, k: nat)
    requires Lawful(c) && Initial(c, w) && k < |w.threads| && w.threads[k].Saver? && Linked(c, w, schedule, k)
    ensures var v := Run(c, w, schedule);
            Published(c, v.dir, v.data, w.threads[k].record)
  {
    hide Initial, Linked, Lawful, Inv, Keeps, Published, Run, Synchronizing;
    InitialInv(c, w);
    var i := LinkedMoment(c, w, schedule, k);
    var u, v := Run(c, w, schedule[..i]), Run(c, w, schedule);
    RunSafe(c, w, schedule[..i]);
    RunSafe(c, u, schedule[i..]);
    assert schedule[..i] + schedule[i..] == schedule;
    RunAppend(c, w, schedule[..i], schedule[i..]);
    var t := u.threads[k];
    LinkedIsPublished(c, u, k, t.record, t.save.temp, t.save.inode);
    TruthKept(c, u, v, t.record, Saved);
  }

  /** The moment at which a save that linked synchronizes the directory. */
  lemma LinkedMoment(c: Codec, w: World, schedule: seq<(nat, Event)>, k: nat) returns (i: nat)
    requires Initial(c, w) && k < |w.threads| && w.threads[k].Saver? && Linked(c, w, schedule, k)
    ensures i <= |schedule|
    ensures var t := Run(c, w, schedule[..i]).threads[k];
            t.Saver? && t.save.SyncingDirectory? && t.record == w.threads[k].record
  {
    hide FilesOk, Linked, Run, Tracked;
    assert w.threads[k] in w.threads;
    LinkedExactly(c, w, schedule, k);
    i :| 0 <= i <= |schedule| && Synchronizing(c, w, schedule, k, i);
    AlwaysTracked(c, w, schedule[..i], k);
    TrackedRecord(c, w, schedule[..i], k);
  }

  lemma TrackedRecord(c: Codec, w: World, schedule: seq<(nat, Event)>, k: nat)
    requires k < |w.threads| && w.threads[k].Saver? && Tracked(c, w, schedule, k)
    ensures Run(c, w, schedule).threads[k].Saver? && Run(c, w, schedule).threads[k].record == w.threads[k].record
  {}

  // ----- a save that meets no trouble -----

  /** A failing system call, a write of nothing, or an interruption. */
  predicate IsTrouble(e: Event) {
    e.Fails? || e.Interrupt? || e == Chunk(0)
  }

  predicate Untroubled(schedule: seq<(nat, Event)>, k: nat) {
    forall i :: 0 <= i < |schedule| && schedule[i].0 == k ==> !IsTrouble(schedule[i].1)
  }

  /** What an untroubled save carries: no failure but that the name was taken. */
  predicate Sound(c: Codec, r: Record, p: SavePhase) {
    match p
    case Validating => true
    case Releasing(_, _, o) => Acceptable(c, r) && Decided(o)
    case Unlinking(_, _, o) => Acceptable(c, r) && Decided(o)
    case Closing(_, o) => Acceptable(c, r) && Decided(o)
    case SaveDone(o) => if Acceptable(c, r) then Decided(o) else o == FailedWith(InvalidRecord)
    case _ => Acceptable(c, r)
  }

  predicate Decided(o: Outcome) {
    o == Saved || o == FailedWith(DuplicateRecord)
  }

  lemma SoundStep(c: Codec, w: World, k: nat, e: Event)
    requires Inv(c, w) && k < |w.threads| && w.threads[k].Saver? && !IsTrouble(e)
    requires Sound(c, w.threads[k].record, w.threads[k].save)
    ensures Sound(c, w.threads[k].record, SaverStep(c, w, w.threads[k].record, w.threads[k].save, e).phase)
  {
    if w.threads[k].save.Linking? {
      LinkingHolds(c, w, k, w.threads[k].record, w.threads[k].save.temp, w.threads[k].save.inode);
    }
    hide Inv, Acceptable, Payload, Free;
  }

  lemma {:induction false} AlwaysSound(c: Codec, w: World, schedule: seq<(nat, Event)>, k: nat)
    requires Lawful(c) && Inv(c, w) && k < |w.threads| && w.threads[k].Saver? && w.threads[k].save == Validating
    requires Untroubled(schedule, k)
    ensures var t := Run(c, w, schedule).threads[k];
            t.Saver? && t.record == w.threads[k].record && Sound(c, t.record, t.save)
  {
    hide Inv, Lawful, Sound, IsTrouble, SaverStep, Step;
    if schedule == [] {
      SoundAtStart(c, w.threads[k].record);
    } else {
      var n := |schedule| - 1;
      var before, last := Run(c, w, schedule[..n]), schedule[n];
      AlwaysSound(c, w, schedule[..n], k);
      RunSafe(c, w, schedule[..n]);
      StepThread(c, before, last.0, last.1, k);
      if last.0 == k {
        SoundStep(c, before, k, last.1);
      }
    }
  }

  lemma SoundAtStart(c: Codec, r: Record)
    ensures Sound(c, r, Validating)
  {}

  /** How a save ends that meets no failing call, no empty write and no interruption, whatever
      runs beside it: an unacceptable record is refused, and any other ends as saved exactly when
      this save has linked, and as a duplicate exactly when it has not, for then a complete
      record of that name exists. */
  lemma UntroubledSave(c: Codec, w: World, schedule: seq<(nat, Event)>, k: nat, o: Outcome)
    requires Lawful(c) && Initial(c, w) && k < |w.threads| && w.threads[k].Saver? && Untroubled(schedule, k)
    requires Run(c, w, schedule).threads[k].Saver? && Run(c, w, schedule).threads[k].save == SaveDone(o)
    ensures var r, v := w.threads[k].record, Run(c, w, schedule);
            && (o == FailedWith(InvalidRecord) <==> !Acceptable(c, r))
            && (o == Saved <==> Acceptable(c, r) && Linked(c, w, schedule, k))
            && (o == FailedWith(DuplicateRecord) <==> Acceptable(c, r) && !Linked(c, w, schedule, k))
            && (o == FailedWith(DuplicateRecord) ==> exists x :: CompleteEntry(c, v.dir, v.data, r.invocationId, x))
  {
    hide Run, Lawful, Inv, Linked, Acceptable, CompleteEntry, FilesOk, Untroubled;
    InitialInv(c, w);
    assert w.threads[k] in w.threads;
    AlwaysSound(c, w, schedule, k);
    OutcomeAndLink(c, w, schedule, k, o);
    if o == FailedWith(DuplicateRecord) {
      DuplicateIsReal(c, w, schedule, k);
    }
  }

  // ----- who links a name -----

  lemma {:induction false} SaversStay(c: Codec, w: World, schedule: seq<(nat, Event)>, k: nat)
    requires k < |w.threads| && Run(c, w, schedule).threads[k].Saver?
    ensures w.threads[k].Saver? && Run(c, w, schedule).threads[k].record == w.threads[k].record
  {
    hide SaverStep, ReaderStep;
    if schedule != [] {
      SaversStay(c, w, schedule[..|schedule| - 1], k);
    }
  }

  lemma {:induction false} NamesStay(c: Codec, w: World, schedule: seq<(nat, Event)>, i: nat, j: nat, id: string)
    requires i <= j <= |schedule| && RecordName(id) in Run(c, w, schedule[..i]).dir
    ensures RecordName(id) in Run(c, w, schedule[..j]).dir
    decreases j
  {
    hide Step;
    if i < j {
      NamesStay(c, w, schedule, i, j - 1, id);
      assert schedule[..j][..j - 1] == schedule[..j - 1];
      StepLinks(c, Run(c, w, schedule[..j - 1]), schedule[j - 1].0, schedule[j - 1].1, id);
    }
  }

  /** A record name that a run adds was linked by a save of that identifier. */
  lemma {:induction false} NameHasLinker(c: Codec, w: World, schedule: seq<(nat, Event)>, id: string) returns (k: nat)
    requires RecordName(id) !in w.dir && RecordName(id) in Run(c, w, schedule).dir
    ensures k < |w.threads| && w.threads[k].Saver? && w.threads[k].record.invocationId == id
            && Linked(c, w, schedule, k)
  {
    hide Step, Linked, LinksAt;
    var n := |schedule| - 1;
    var init := schedule[..n];
    RunSplits(c, w, schedule);
    if RecordName(id) in Run(c, w, init).dir {
      k := NameHasLinker(c, w, init, id);
      LinkedGrows(c, w, schedule, k);
    } else {
      k := schedule[n].0;
      StepLinks(c, Run(c, w, init), k, schedule[n].1, id);
      SaversStay(c, w, init, k);
      assert LinksAt(c, w, schedule, k, n) by { LinksNow(c, w, schedule, k); }
      LinkedGrows(c, w, schedule, k);
    }
  }

  lemma LinksNow(c: Codec, w: World, schedule: seq<(nat, Event)>, k: nat)
    requires schedule != [] && k < |w.threads| && w.threads[k].Saver?
    requires var n, name := |schedule| - 1, RecordName(w.threads[k].record.invocationId);
             schedule[n].0 == k && name !in Run(c, w, schedule[..n]).dir && name in Run(c, w, schedule).dir
    ensures LinksAt(c, w, schedule, k, |schedule| - 1)
  {
    hide Run;
    assert schedule[..|schedule|] == schedule;
  }

  /** No other save links it too: at most one save of an identifier ever links. */
  lemma OneLinker(c: Codec, w: World, schedule: seq<(nat, Event)>, j: nat, k: nat)
    requires j < |w.threads| && k < |w.threads| && w.threads[j].Saver? && w.threads[k].Saver?
    requires w.threads[j].record.invocationId == w.threads[k].record.invocationId
    requires Linked(c, w, schedule, j) && Linked(c, w, schedule, k)
    ensures j == k
  {
    hide Run;
    var a :| 0 <= a < |schedule| && LinksAt(c, w, schedule, j, a);
    var b :| 0 <= b < |schedule| && LinksAt(c, w, schedule, k, b);
    if a < b {
      NamesStay(c, w, schedule, a + 1, b, w.threads[j].record.invocationId);
    } else if b < a {
      NamesStay(c, w, schedule, b + 1, a, w.threads[j].record.invocationId);
    }
  }
}
