/** How a get ends (pmqa/usage/repository.py, get and _read_record), over every interleaving with
    savers: it finds the complete record unless one of its own calls fails or it is interrupted. */
module RepositoryReads {
  import opened Wrappers
  import opened UsageRecords
  import opened RepositoryFiles
  import opened RepositoryProtocol

  // ----- what happens to one thread -----

  datatype Trouble = Fault | Interruption

  predicate Is(e: Event, kind: Trouble) {
    match kind
    case Fault => e.Fails?
    case Interruption => e.Interrupt?
  }

  predicate Reads(t: Thread, id: string) {
    t.Reader? && t.id == id
  }

  predicate EndedWith(t: Thread, result: ReadResult) {
    t.Reader? && t.read == ReadDone(result)
  }

  predicate ReadEnded(t: Thread) {
    t.Reader? && t.read.ReadDone?
  }

  /** At step i thread k, still reading, meets a failing call or an interruption. */
  predicate HitAt(c: Codec, w: World, schedule: seq<(nat, Event)>, k: nat, kind: Trouble, i: nat)
    requires i < |schedule| && k < |w.threads|
  {
    schedule[i].0 == k && Is(schedule[i].1, kind) && !ReadEnded(Run(c, w, schedule[..i]).threads[k])
  }

  predicate Hit(c: Codec, w: World, schedule: seq<(nat, Event)>, k: nat, kind: Trouble)
    requires k < |w.threads|
  {
    exists i :: 0 <= i < |schedule| && HitAt(c, w, schedule, k, kind, i)
  }

  /** No event of thread k is a failing call or an interruption. */
  predicate Undisturbed(schedule: seq<(nat, Event)>, k: nat) {
    forall i :: 0 <= i < |schedule| && schedule[i].0 == k ==> !schedule[i].1.Fails? && !schedule[i].1.Interrupt?
  }

  lemma UndisturbedIsNotHit(c: Codec, w: World, schedule: seq<(nat, Event)>, k: nat, kind: Trouble)
    requires k < |w.threads| && Undisturbed(schedule, k)
    ensures !Hit(c, w, schedule, k, kind)
  {}

  /** How many steps of a schedule are thread k's. */
  function StepsOf(schedule: seq<(nat, Event)>, k: nat): nat {
    if schedule == [] then 0
    else StepsOf(schedule[..|schedule| - 1], k) + if schedule[|schedule| - 1].0 == k then 1 else 0
  }

  lemma HitGrows(c: Codec, w: World, schedule: seq<(nat, Event)>, k: nat, kind: Trouble)
    requires schedule != [] && k < |w.threads|
    ensures var n := |schedule| - 1;
            Hit(c, w, schedule, k, kind) <==>
              Hit(c, w, schedule[..n], k, kind) || HitAt(c, w, schedule, k, kind, n)
  {
    hide Run, ReadEnded;
    var n := |schedule| - 1;
    var init := schedule[..n];
    forall i | 0 <= i < n ensures HitAt(c, w, schedule, k, kind, i) <==> HitAt(c, w, init, k, kind, i) {
      assert init[..i] == schedule[..i];
    }
    hide HitAt;
  }

  // ----- one step of a get -----

  /** More steps of its own than any read needs that meets no trouble. */
  const READ_STEPS: nat := MAX_USAGE_RECORD_BYTES + 6

  /** The steps a read may still take: one for each byte at worst. */
  function Remaining(p: ReadPhase): int {
    match p
    case Requesting => READ_STEPS
    case Locating => READ_STEPS - 1
    case Statting => READ_STEPS - 2
    case Opening(_) => READ_STEPS - 3
    case Verifying(_, _) => READ_STEPS - 4
    case Reading(_, _, got) => READ_STEPS - 5 - |got|
    case ReadDone(_) => 0
  }

  /** What a step of a read comes to: a read failure exactly by a failing call, an interruption
      exactly by one, a missing record only if the name is not there, and otherwise progress or
      the record. A vanished, shrunk or grown file is never met. */
  predicate Advances(w: World, id: string, p: ReadPhase, e: Event, q: ReadPhase) {
    && (q == ReadDone(ReadFailed(ReadFailure)) <==> e.Fails?)
    && (q == ReadDone(ReadInterrupted) <==> e.Interrupt?)
    && (q == ReadDone(ReadFailed(RecordNotFound)) ==> RecordName(id) !in w.dir)
    && (q.ReadDone? ==>
          || q.result.Found? || q.result == ReadInterrupted
          || q.result == ReadFailed(ReadFailure) || q.result == ReadFailed(RecordNotFound))
    && (!q.ReadDone? ==> 0 < Remaining(q) < Remaining(p))
  }

  lemma ReadAdvances(c: Codec, w: World, id: string, p: ReadPhase, e: Event)
    requires Lawful(c) && FilesOk(c, w.dir, w.data) && ReaderOk(c, w.dir, w.data, id, p)
    requires ValidIdentifier(id) && !p.ReadDone?
    ensures Advances(w, id, p, e, ReaderStep(c, w, id, p, e))
  {
    var target := RecordName(id);
    if target in w.dir {
      var r :| CompleteEntry(c, w.dir, w.data, id, r);
      ParsesExactly(c, target, w.data[w.dir[target]], r);
      hide Canonical, Lawful, FilesOk, ParseRecord, ValidIdentifier;
      EntryAdvances(c, w, id, p, e, r);
    } else {
      hide Canonical, Lawful, FilesOk, ParseRecord, ValidIdentifier;
    }
  }

  lemma EntryAdvances(c: Codec, w: World, id: string, p: ReadPhase, e: Event, r: Record)
    requires CompleteEntry(c, w.dir, w.data, id, r) && ReaderOk(c, w.dir, w.data, id, p)
    requires ParseRecord(c, RecordName(id), w.data[w.dir[RecordName(id)]]) == Some(r)
    requires ValidIdentifier(id) && !p.ReadDone?
    ensures Advances(w, id, p, e, ReaderStep(c, w, id, p, e))
  {
    hide Canonical, ParseRecord, ValidIdentifier;
    if p.Reading? {
      var content := w.data[p.file];
      assert content == content[..|p.got|] + content[|p.got|..];
      assert |p.got| == |content| ==> p.got == content;
    }
  }

  // ----- a whole get -----

  /** How the read of thread k stands after a schedule. */
  predicate Traced(c: Codec, w: World, schedule: seq<(nat, Event)>, k: nat, id: string)
    requires k < |w.threads| && w.threads[k].Reader?
  {
    var t := Run(c, w, schedule).threads[k];
    && Reads(t, id)
    && (EndedWith(t, ReadFailed(ReadFailure)) <==> Hit(c, w, schedule, k, Fault))
    && (EndedWith(t, ReadInterrupted) <==> Hit(c, w, schedule, k, Interruption))
    && (EndedWith(t, ReadFailed(RecordNotFound)) ==> RecordName(id) !in w.dir)
    && (t.read.ReadDone? ==>
          || t.read.result.Found? || t.read.result == ReadInterrupted
          || t.read.result == ReadFailed(ReadFailure) || t.read.result == ReadFailed(RecordNotFound))
    && (!t.read.ReadDone? ==> 0 < Remaining(t.read) <= Remaining(w.threads[k].read) - StepsOf(schedule, k))
  }

  /** Every get of a valid identifier, under every interleaving: it ends as a read failure exactly
      when one of its own calls has failed, and as interrupted exactly when it was; it never
      reports a corrupt record, and a missing one only if the name did not exist when it began;
      and it does end, after a bounded number of its own steps. */
  lemma {:induction false} GetIsTraced(c: Codec, w: World, schedule: seq<(nat, Event)>, k: nat, id: string)
    requires Lawful(c) && Inv(c, w) && k < |w.threads| && Reads(w.threads[k], id)
    requires ValidIdentifier(id) && !w.threads[k].read.ReadDone?
    ensures Traced(c, w, schedule, k, id)
  {
    hide Run, Inv, Lawful, Hit, ValidIdentifier, Traced;
    if schedule == [] {
      TracedAtStart(c, w, k, id);
    } else {
      var n := |schedule| - 1;
      GetIsTraced(c, w, schedule[..n], k, id);
      RunSafe(c, w, schedule[..n]);
      TracedStep(c, w, schedule, k, id);
    }
  }

  lemma TracedAtStart(c: Codec, w: World, k: nat, id: string)
    requires Inv(c, w) && k < |w.threads| && Reads(w.threads[k], id) && !w.threads[k].read.ReadDone?
    ensures Traced(c, w, [], k, id)
  {
    hide FilesOk, Apart, SaverOk;
    assert Run(c, w, []) == w;
    RemainsPositive(c, w, k);
  }

  lemma RemainsPositive(c: Codec, w: World, k: nat)
    requires Inv(c, w) && k < |w.threads| && w.threads[k].Reader? && !w.threads[k].read.ReadDone?
    ensures Remaining(w.threads[k].read) > 0
  {
    hide Apart, SaverOk, Canonical;
    var t := w.threads[k];
    assert ThreadOk(c, w.dir, w.data, t);
    if t.read.Reading? {
      var r :| CompleteEntry(c, w.dir, w.data, t.id, r);
    }
  }

  lemma TracedStep(c: Codec, w: World, schedule: seq<(nat, Event)>, k: nat, id: string)
    requires schedule != [] && k < |w.threads| && w.threads[k].Reader?
    requires Traced(c, w, schedule[..|schedule| - 1], k, id) && ValidIdentifier(id)
    requires Lawful(c) && Inv(c, Run(c, w, schedule[..|schedule| - 1]))
    requires Keeps(w, Run(c, w, schedule[..|schedule| - 1]))
    ensures Traced(c, w, schedule, k, id)
  {
    var n := |schedule| - 1;
    var u, last := Run(c, w, schedule[..n]), schedule[n];
    var t := u.threads[k];
    hide Run, Hit, Lawful, ValidIdentifier, ReaderStep, Remaining;
    RunSplits(c, w, schedule);
    HitGrows(c, w, schedule, k, Fault);
    HitGrows(c, w, schedule, k, Interruption);
    ReaderMoved(c, u, last.0, last.1, k);
    assert RecordName(id) in w.dir ==> RecordName(id) in u.dir;
    if last.0 == k && !t.read.ReadDone? {
      GetAdvances(c, u, k, last.1);
    }
    hide Inv, Keeps;
  }

  lemma GetAdvances(c: Codec, w: World, k: nat, e: Event)
    requires Lawful(c) && Inv(c, w) && k < |w.threads| && w.threads[k].Reader?
    requires ValidIdentifier(w.threads[k].id) && !w.threads[k].read.ReadDone?
    ensures var t := w.threads[k];
            Advances(w, t.id, t.read, e, ReaderStep(c, w, t.id, t.read, e))
  {
    hide FilesOk, Apart, SaverOk, Lawful, ReaderOk, Advances, ReaderStep;
    assert ThreadOk(c, w.dir, w.data, w.threads[k]);
    ReadAdvances(c, w, w.threads[k].id, w.threads[k].read, e);
  }

  lemma ReaderMoved(c: Codec, w: World, tid: nat, e: Event, k: nat)
    requires k < |w.threads| && w.threads[k].Reader?
    ensures var t := w.threads[k];
            Step(c, w, tid, e).threads[k] == if tid == k then Reader(t.id, ReaderStep(c, w, t.id, t.read, e)) else t
    ensures w.threads[k].read.ReadDone? ==> ReaderStep(c, w, w.threads[k].id, w.threads[k].read, e) == w.threads[k].read
  {
    hide SaverStep;
  }

  // ----- reading what was saved -----

  lemma SavedIdentifier(c: Codec, w: World, r: Record)
    requires Published(c, w.dir, w.data, r)
    ensures ValidIdentifier(r.invocationId) && CompleteEntry(c, w.dir, w.data, r.invocationId, SnapshotRecord(r).value)
    ensures RecordName(r.invocationId) in w.dir && SnapshotRecord(r).Some?
  {}

  /** A get of an entry that exists ends in that entry's record, unless it meets trouble. */
  lemma EntryIsRead(c: Codec, w: World, schedule: seq<(nat, Event)>, k: nat, id: string, s: Record)
    requires Lawful(c) && Inv(c, w) && k < |w.threads| && Reads(w.threads[k], id) && !w.threads[k].read.ReadDone?
    requires ValidIdentifier(id) && CompleteEntry(c, w.dir, w.data, id, s)
    ensures var t := Run(c, w, schedule).threads[k];
            && Reads(t, id)
            && (EndedWith(t, ReadFailed(ReadFailure)) <==> Hit(c, w, schedule, k, Fault))
            && (EndedWith(t, ReadInterrupted) <==> Hit(c, w, schedule, k, Interruption))
            && (EndedWith(t, Found(s)) <==>
                  ReadEnded(t) && !Hit(c, w, schedule, k, Fault) && !Hit(c, w, schedule, k, Interruption))
            && (StepsOf(schedule, k) >= READ_STEPS ==> ReadEnded(t))
  {
    hide Run, Hit, Lawful, ValidIdentifier, FilesOk, Apart, SaverOk, CompleteEntry, Keeps;
    GetIsTraced(c, w, schedule, k, id);
    RunSafe(c, w, schedule);
    var v := Run(c, w, schedule);
    KeptEntry(c, w, v, id, s);
    assert ThreadOk(c, v.dir, v.data, v.threads[k]);
    EntryIsThere(c, w, id, s);
    hide Inv;
    if ReadEnded(v.threads[k]) && v.threads[k].read.result.Found? {
      EntryUnique(c, v.dir, v.data, id, v.threads[k].read.result.record, s);
    }
  }

  lemma EntryIsThere(c: Codec, w: World, id: string, s: Record)
    requires CompleteEntry(c, w.dir, w.data, id, s)
    ensures RecordName(id) in w.dir
  {}

  /** Once a save has succeeded, a get of its identifier that starts later, whatever runs beside
      it, finds that very record, exactly when no call of its own fails and it is not
      interrupted: it ends as a read failure exactly when one of its calls has failed, as
      interrupted exactly when it was, and it does end after a bounded number of its own steps. */
  lemma SavedIsRead(c: Codec, w: World, before: seq<(nat, Event)>, after: seq<(nat, Event)>, j: nat, k: nat)
    requires Lawful(c) && Initial(c, w) && j < |w.threads| && k < |w.threads|
    requires var u := Run(c, w, before);
             u.threads[j].Saver? && u.threads[j].save == SaveDone(Saved) &&
             u.threads[k] == Reader(u.threads[j].record.invocationId, Requesting)
    ensures var u := Run(c, w, before);
            var r, t := u.threads[j].record, Run(c, u, after).threads[k];
            && SnapshotRecord(r).Some? && Reads(t, r.invocationId)
            && (EndedWith(t, ReadFailed(ReadFailure)) <==> Hit(c, u, after, k, Fault))
            && (EndedWith(t, ReadInterrupted) <==> Hit(c, u, after, k, Interruption))
            && (EndedWith(t, Found(SnapshotRecord(r).value)) <==>
                  ReadEnded(t) && !Hit(c, u, after, k, Fault) && !Hit(c, u, after, k, Interruption))
            && (StepsOf(after, k) >= READ_STEPS ==> ReadEnded(t))
  {
    hide Run, Initial, Lawful, Keeps, Inv, Hit, Published, SnapshotRecord, ValidIdentifier, CompleteEntry;
    InitialInv(c, w);
    RunSafe(c, w, before);
    var u := Run(c, w, before);
    SavedIsPublished(c, u, j);
    var r := u.threads[j].record;
    SavedIdentifier(c, u, r);
    EntryIsRead(c, u, after, k, r.invocationId, SnapshotRecord(r).value);
  }

  lemma SavedIsPublished(c: Codec, w: World, j: nat)
    requires Inv(c, w) && j < |w.threads| && w.threads[j].Saver? && w.threads[j].save == SaveDone(Saved)
    ensures Published(c, w.dir, w.data, w.threads[j].record)
  {
    hide Published, FilesOk, Apart;
    assert ThreadOk(c, w.dir, w.data, w.threads[j]);
  }

  /** In particular: a later get that is left undisturbed and takes its steps returns the saved
      record, under every interleaving with other calls. */
  lemma SavedIsFound(c: Codec, w: World, before: seq<(nat, Event)>, after: seq<(nat, Event)>, j: nat, k: nat)
    requires Lawful(c) && Initial(c, w) && j < |w.threads| && k < |w.threads|
    requires var u := Run(c, w, before);
             u.threads[j].Saver? && u.threads[j].save == SaveDone(Saved) &&
             u.threads[k] == Reader(u.threads[j].record.invocationId, Requesting)
    requires Undisturbed(after, k)
    ensures var u := Run(c, w, before);
            var r, t := u.threads[j].record, Run(c, u, after).threads[k];
            && SnapshotRecord(r).Some?
            && (ReadEnded(t) ==> t == Reader(r.invocationId, ReadDone(Found(SnapshotRecord(r).value))))
            && (StepsOf(after, k) >= READ_STEPS ==> ReadEnded(t))
  {
    hide Run, Initial, Lawful, Hit, Undisturbed, SnapshotRecord;
    var u := Run(c, w, before);
    SavedIsRead(c, w, before, after, j, k);
    UndisturbedIsNotHit(c, u, after, k, Fault);
    UndisturbedIsNotHit(c, u, after, k, Interruption);
  }

  /** Two reads of one identifier never find different records. */
  lemma ReadsAgree(c: Codec, w: World, schedule: seq<(nat, Event)>, j: nat, k: nat, a: Record, b: Record)
    requires Lawful(c) && Initial(c, w) && j < |w.threads| && k < |w.threads|
    requires Run(c, w, schedule).threads[j] == Reader(a.invocationId, ReadDone(Found(a)))
    requires Run(c, w, schedule).threads[k] == Reader(a.invocationId, ReadDone(Found(b)))
    ensures a == b
  {
    hide Run, Initial, Lawful, Keeps;
    InitialInv(c, w);
    RunSafe(c, w, schedule);
    var v := Run(c, w, schedule);
    assert ThreadOk(c, v.dir, v.data, v.threads[j]) && ThreadOk(c, v.dir, v.data, v.threads[k]);
    EntryUnique(c, v.dir, v.data, a.invocationId, a, b);
  }

  // ----- a save and then a get -----

  /** So many steps of one thread in a row. */
  function Alone(k: nat, n: nat): (s: seq<(nat, Event)>)
    ensures |s| == n && forall i :: 0 <= i < n ==> s[i] == (k, Proceed)
  {
    seq(n, i => (k, Proceed))
  }

  lemma {:induction false} AloneSteps(k: nat, n: nat)
    ensures Undisturbed(Alone(k, n), k) && StepsOf(Alone(k, n), k) == n
  {
    if n > 0 {
      AloneSteps(k, n - 1);
      assert Alone(k, n)[..n - 1] == Alone(k, n - 1);
    }
  }

  /** From the link on, a save that meets no trouble succeeds in four more steps. */
  lemma LinkedSaveEnds(c: Codec, w: World, k: nat, r: Record, n: nat, i: nat)
    requires k < |w.threads| && w.threads[k] == Saver(r, SyncingDirectory(n, i)) && OwnsTemp(w.dir, n, i)
    ensures var v := Run(c, w, Alone(k, 4));
            v.threads == w.threads[k := Saver(r, SaveDone(Saved))]
  {
    var s := Alone(k, 4);
    var w1 := Step(c, w, k, Proceed);
    assert w1 == w.(threads := w.threads[k := Saver(r, Releasing(n, i, Saved))]) by { QuietLink(c, w, k, r, n, i); }
    var w2 := Step(c, w1, k, Proceed);
    assert w2.threads == w.threads[k := Saver(r, Unlinking(n, i, Saved))] && w2.dir == w.dir by {
      ReleaseStep(c, w1, k, r, n, i);
    }
    hide Run, Step;
    CloseSteps(c, w2, k, r, n, i);
    var w4 := Step(c, Step(c, w2, k, Proceed), k, Proceed);
    FourSteps(c, w, k);
    assert w4.threads == w.threads[k := Saver(r, SaveDone(Saved))];
  }

  lemma QuietLink(c: Codec, w: World, k: nat, r: Record, n: nat, i: nat)
    requires k < |w.threads| && w.threads[k] == Saver(r, SyncingDirectory(n, i))
    ensures Step(c, w, k, Proceed) == w.(threads := w.threads[k := Saver(r, Releasing(n, i, Saved))])
  {
    hide Free, Acceptable, Payload;
  }

  lemma ReleaseStep(c: Codec, w: World, k: nat, r: Record, n: nat, i: nat)
    requires k < |w.threads| && w.threads[k] == Saver(r, Releasing(n, i, Saved)) && OwnsTemp(w.dir, n, i)
    ensures Step(c, w, k, Proceed) == w.(threads := w.threads[k := Saver(r, Unlinking(n, i, Saved))])
  {
    hide Free, Acceptable, Payload;
  }

  lemma CloseSteps(c: Codec, w: World, k: nat, r: Record, n: nat, i: nat)
    requires k < |w.threads| && w.threads[k] == Saver(r, Unlinking(n, i, Saved))
    ensures Step(c, Step(c, w, k, Proceed), k, Proceed).threads == w.threads[k := Saver(r, SaveDone(Saved))]
  {
    hide Free, Acceptable, Payload;
    var v := Step(c, w, k, Proceed);
    assert v.threads == w.threads[k := Saver(r, Closing(i, Saved))];
  }

  lemma FourSteps(c: Codec, w: World, k: nat)
    ensures Run(c, w, Alone(k, 4))
         == Step(c, Step(c, Step(c, Step(c, w, k, Proceed), k, Proceed), k, Proceed), k, Proceed)
  {
    hide Step, Run;
    OneMore(c, w, k, 3);
    OneMore(c, w, k, 2);
    OneMore(c, w, k, 1);
    OneMore(c, w, k, 0);
    StartsEmpty(c, w);
    assert Alone(k, 0) == [];
  }

  lemma OneMore(c: Codec, w: World, k: nat, n: nat)
    ensures Run(c, w, Alone(k, n + 1)) == Step(c, Run(c, w, Alone(k, n)), k, Proceed)
  {
    hide Step;
    assert Alone(k, n + 1)[..n] == Alone(k, n);
  }

  /** It does happen: a save of any acceptable record in an empty directory succeeds, and a get
      after it returns the record. */
  lemma SaveThenGet(c: Codec, r: Record) returns (schedule: seq<(nat, Event)>)
    requires Lawful(c) && Acceptable(c, r)
    ensures var w := World(map[], map[], [Saver(r, Validating), Reader(r.invocationId, Requesting)]);
            && Initial(c, w) && SnapshotRecord(r).Some?
            && Run(c, w, schedule).threads
               == [Saver(r, SaveDone(Saved)), Reader(r.invocationId, ReadDone(Found(SnapshotRecord(r).value)))]
  {
    hide Run, Lawful, Acceptable, SnapshotRecord, Undisturbed, ReadEnded;
    var reader := Reader(r.invocationId, Requesting);
    var w := World(map[], map[], [Saver(r, Validating), reader]);
    assert w.threads == [Saver(r, Validating)] + [reader];
    var save := LinkIsReachable(c, r, [reader]);
    var u := Run(c, w, save);
    InitialInv(c, w);
    RunSafe(c, w, save);
    SynchronizingOwns(c, u, r);
    LinkedSaveEnds(c, u, 0, r, 0, 0);
    RunAppend(c, w, save, Alone(0, 4));
    var before := save + Alone(0, 4);
    AloneSteps(1, READ_STEPS);
    SavedIsFound(c, w, before, Alone(1, READ_STEPS), 0, 1);
    RunAppend(c, w, before, Alone(1, READ_STEPS));
    schedule := before + Alone(1, READ_STEPS);
    SaverStays(c, Run(c, w, before), 1, READ_STEPS);
  }

  lemma SynchronizingOwns(c: Codec, w: World, r: Record)
    requires Inv(c, w) && |w.threads| > 0 && w.threads[0] == Saver(r, SyncingDirectory(0, 0))
    ensures OwnsTemp(w.dir, 0, 0)
  {
    hide FilesOk, Apart, Published;
    assert ThreadOk(c, w.dir, w.data, w.threads[0]);
  }

  lemma {:induction false} SaverStays(c: Codec, w: World, k: nat, n: nat)
    requires k < |w.threads|
    ensures forall i :: 0 <= i < |w.threads| && i != k ==> Run(c, w, Alone(k, n)).threads[i] == w.threads[i]
  {
    hide Run;
    if n == 0 {
      assert Alone(k, 0) == [];
      StartsEmpty(c, w);
    } else {
      SaverStays(c, w, k, n - 1);
      OneMore(c, w, k, n - 1);
      hide SaverStep, ReaderStep;
    }
  }
}
