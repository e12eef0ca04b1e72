/** Temporary names (pmqa/usage/repository.py, _release_temporary_ownership): whatever a save ends
    with, it removes the temporary name it created, unless identifying the file or a step of its
    own release fails or is interrupted. */
module RepositoryCleanup {
  import opened Wrappers
  import opened UsageRecords
  import opened RepositoryFiles
  import opened RepositoryProtocol
  import opened RepositoryPublication

  /** The temporary name a save still has to remove. */
  function OwnTemp(t: Thread): Option<nat> {
    match t
    case Saver(_, Identifying(n, _)) => Some(n)
    case Saver(_, Securing(n, _)) => Some(n)
    case Saver(_, Writing(n, _, _)) => Some(n)
    case Saver(_, Syncing(n, _)) => Some(n)
    case Saver(_, Linking(n, _)) => Some(n)
    case Saver(_, SyncingDirectory(n, _)) => Some(n)
    case Saver(_, Releasing(n, _, _)) => Some(n)
    case Saver(_, Unlinking(n, _, _)) => Some(n)
    case _ => None
  }

  /** A step that ends a save's care for its temporary name without removing it: identifying the
      file, or releasing it, fails or is interrupted. */
  predicate Abandons(t: Thread, e: Event, n: nat) {
    && t.Saver? && (e.Fails? || e.Interrupt?)
    && (t.save.Identifying? || t.save.Releasing? || t.save.Unlinking?) && t.save.temp == n
  }

  predicate LeavesAt(c: Codec, w: World, schedule: seq<(nat, Event)>, k: nat, n: nat, i: nat)
    requires i < |schedule| && k < |w.threads|
  {
    schedule[i].0 == k && Abandons(Run(c, w, schedule[..i]).threads[k], schedule[i].1, n)
  }

  /** Save k has abandoned the temporary name. */
  predicate Leaves(c: Codec, w: World, schedule: seq<(nat, Event)>, k: nat, n: nat)
    requires k < |w.threads|
  {
    exists i :: 0 <= i < |schedule| && LeavesAt(c, w, schedule, k, n, i)
  }

  lemma LeavesGrows(c: Codec, w: World, schedule: seq<(nat, Event)>, k: nat, n: nat)
    requires schedule != [] && k < |w.threads|
    ensures var last := |schedule| - 1;
            Leaves(c, w, schedule, k, n) <==>
              Leaves(c, w, schedule[..last], k, n) || LeavesAt(c, w, schedule, k, n, last)
  {
    hide Run, Abandons;
    var last := |schedule| - 1;
    var init := schedule[..last];
    forall i | 0 <= i < last ensures LeavesAt(c, w, schedule, k, n, i) <==> LeavesAt(c, w, init, k, n, i) {
      assert init[..i] == schedule[..i];
    }
    hide LeavesAt;
  }

  // ----- names nobody has to remove -----

  /** The name exists and no save has it to remove. */
  predicate Settled(w: World, n: nat) {
    TempName(n) in w.dir && forall k :: 0 <= k < |w.threads| ==> OwnTemp(w.threads[k]) != Some(n)
  }

  /** One step of a save: it keeps the temporary names of others, and comes to own only a name
      that did not exist. */
  lemma SaverTemps(c: Codec, w: World, r: Record, p: SavePhase, e: Event, n: nat)
    ensures var f := SaverStep(c, w, r, p, e);
            && (TempName(n) in w.dir && OwnTemp(Saver(r, p)) != Some(n) ==>
                  TempName(n) in f.dir && f.dir[TempName(n)] == w.dir[TempName(n)]
                  && OwnTemp(Saver(r, f.phase)) != Some(n))
            && (TempName(n) !in w.dir && TempName(n) in f.dir ==> OwnTemp(Saver(r, f.phase)) == Some(n))
  {
    hide Free, Acceptable, Payload;
  }

  lemma SettledStep(c: Codec, w: World, tid: nat, e: Event, n: nat)
    requires Settled(w, n)
    ensures Settled(Step(c, w, tid, e), n) && Step(c, w, tid, e).dir[TempName(n)] == w.dir[TempName(n)]
  {
    hide SaverStep, ReaderStep;
    if tid < |w.threads| && w.threads[tid].Saver? {
      SaverTemps(c, w, w.threads[tid].record, w.threads[tid].save, e, n);
    }
  }

  lemma {:induction false} SettledRun(c: Codec, w: World, schedule: seq<(nat, Event)>, n: nat)
    requires Settled(w, n)
    ensures Settled(Run(c, w, schedule), n) && Run(c, w, schedule).dir[TempName(n)] == w.dir[TempName(n)]
  {
    hide Step, Settled;
    if schedule != [] {
      var init, last := schedule[..|schedule| - 1], schedule[|schedule| - 1];
      SettledRun(c, w, init, n);
      SettledStep(c, Run(c, w, init), last.0, last.1, n);
    }
  }

  // ----- how a save stops owning its name -----

  lemma OwnersHold(c: Codec, w: World, k: nat, n: nat)
    requires Inv(c, w) && k < |w.threads| && OwnTemp(w.threads[k]) == Some(n)
    ensures Holds(w.threads[k]).Some? && OwnsTemp(w.dir, n, Holds(w.threads[k]).value)
  {
    hide FilesOk, Apart, Unpublished, Acceptable, Payload, Published, Truthful, Holding;
    assert ThreadOk(c, w.dir, w.data, w.threads[k]);
  }

  lemma OwnersDiffer(c: Codec, w: World, j: nat, k: nat, n: nat)
    requires Inv(c, w) && j < |w.threads| && k < |w.threads| && j != k && OwnTemp(w.threads[k]) == Some(n)
    ensures OwnTemp(w.threads[j]) != Some(n)
  {
    assert Apart(w.threads[j], w.threads[k]);
    OwnersHold(c, w, k, n);
    hide Inv;
    if OwnTemp(w.threads[j]) == Some(n) {
      OwnersHold(c, w, j, n);
    }
  }

  lemma OwnerMoves(c: Codec, w: World, r: Record, p: SavePhase, e: Event, n: nat)
    requires OwnTemp(Saver(r, p)) == Some(n) && OwnsTemp(w.dir, n, p.inode)
    ensures var f := SaverStep(c, w, r, p, e);
            && (Abandons(Saver(r, p), e, n) ==> TempName(n) in f.dir && OwnTemp(Saver(r, f.phase)) == None)
            && (!Abandons(Saver(r, p), e, n) ==> OwnTemp(Saver(r, f.phase)) == Some(n) || TempName(n) !in f.dir)
  {
    hide Free, Acceptable, Payload;
  }

  /** The owner's own step: it still owns the name, or it abandons it, or the name is gone. */
  lemma OwnerStep(c: Codec, w: World, k: nat, e: Event, n: nat)
    requires Inv(c, w) && k < |w.threads| && OwnTemp(w.threads[k]) == Some(n)
    ensures var v := Step(c, w, k, e);
            && (Abandons(w.threads[k], e, n) ==> TempName(n) in v.dir && OwnTemp(v.threads[k]) == None)
            && (!Abandons(w.threads[k], e, n) ==> OwnTemp(v.threads[k]) == Some(n) || TempName(n) !in v.dir)
  {
    OwnersHold(c, w, k, n);
    hide Inv, SaverStep;
    var t := w.threads[k];
    assert Holds(t) == Some(t.save.inode);
    OwnerMoves(c, w, t.record, t.save, e, n);
    hide Abandons;
  }

  lemma OtherStep(c: Codec, w: World, tid: nat, e: Event, k: nat)
    requires k < |w.threads| && tid != k
    ensures Step(c, w, tid, e).threads[k] == w.threads[k]
  {
    hide SaverStep, ReaderStep;
  }

  lemma AbandonedSettles(c: Codec, w: World, k: nat, e: Event, n: nat)
    requires Inv(c, w) && k < |w.threads| && Abandons(w.threads[k], e, n)
    ensures Settled(Step(c, w, k, e), n)
  {
    assert OwnTemp(w.threads[k]) == Some(n);
    OwnerStep(c, w, k, e, n);
    forall j | 0 <= j < |w.threads| ensures OwnTemp(Step(c, w, k, e).threads[j]) != Some(n) {
      if j != k {
        OwnersDiffer(c, w, j, k, n);
        OtherStep(c, w, k, e, j);
      }
    }
    hide Step, Inv, Abandons;
  }

  // ----- which temporary names exist -----

  predicate Owned(w: World, n: nat) {
    exists k :: 0 <= k < |w.threads| && OwnTemp(w.threads[k]) == Some(n)
  }

  predicate Left(c: Codec, w: World, schedule: seq<(nat, Event)>, n: nat) {
    exists k :: 0 <= k < |w.threads| && Leaves(c, w, schedule, k, n)
  }

  lemma NamesStep(c: Codec, u: World, tid: nat, e: Event, n: nat)
    requires Inv(c, u) && TempName(n) in Step(c, u, tid, e).dir
    ensures || Settled(u, n) || Owned(Step(c, u, tid, e), n)
            || (tid < |u.threads| && Abandons(u.threads[tid], e, n))
  {
    hide Inv;
    var v := Step(c, u, tid, e);
    if TempName(n) !in u.dir {
      hide ReaderStep, SaverStep;
      assert tid < |u.threads| && u.threads[tid].Saver?;
      SaverTemps(c, u, u.threads[tid].record, u.threads[tid].save, e, n);
      assert OwnTemp(v.threads[tid]) == Some(n);
    } else if k :| 0 <= k < |u.threads| && OwnTemp(u.threads[k]) == Some(n) {
      if tid == k {
        OwnerStep(c, u, k, e, n);
      } else {
        OtherStep(c, u, tid, e, k);
      }
      hide Step;
      assert OwnTemp(v.threads[k]) == Some(n) || Abandons(u.threads[k], e, n);
    }
  }

  lemma StartSettles(c: Codec, w: World, n: nat)
    requires Initial(c, w)
    ensures TempName(n) in w.dir ==> Settled(w, n)
    ensures !Owned(w, n)
  {
    hide FilesOk;
    forall k | 0 <= k < |w.threads| ensures OwnTemp(w.threads[k]) == None {
      assert w.threads[k] in w.threads;
    }
  }

  /** What a schedule abandons stays for good. */
  lemma LeftStays(c: Codec, w: World, schedule: seq<(nat, Event)>, k: nat, n: nat)
    requires Lawful(c) && Inv(c, w) && k < |w.threads| && Leaves(c, w, schedule, k, n)
    ensures Settled(Run(c, w, schedule), n)
  {
    hide Run, Inv, Lawful, Settled, Step, Abandons, Keeps;
    var i :| 0 <= i < |schedule| && LeavesAt(c, w, schedule, k, n, i);
    var u, rest := Run(c, w, schedule[..i]), schedule[i + 1..];
    RunSafe(c, w, schedule[..i]);
    AbandonedSettles(c, u, k, schedule[i].1, n);
    assert schedule[..i + 1][..i] == schedule[..i];
    RunSplits(c, w, schedule[..i + 1]);
    SettledRun(c, Run(c, w, schedule[..i + 1]), rest, n);
    assert schedule[..i + 1] + rest == schedule;
    RunAppend(c, w, schedule[..i + 1], rest);
  }

  lemma {:induction false} NamesComeFrom(c: Codec, w: World, schedule: seq<(nat, Event)>, n: nat)
    requires Lawful(c) && Initial(c, w) && TempName(n) in Run(c, w, schedule).dir
    ensures TempName(n) in w.dir || Owned(Run(c, w, schedule), n) || Left(c, w, schedule, n)
  {
    hide Inv, Lawful, Initial, Leaves, Abandons, Step, Keeps, OwnTemp;
    if schedule != [] {
      var last := |schedule| - 1;
      var u := Run(c, w, schedule[..last]);
      var (tid, e) := schedule[last];
      InitialInv(c, w);
      RunSafe(c, w, schedule[..last]);
      NamesStep(c, u, tid, e, n);
      if Settled(u, n) {
        NamesComeFrom(c, w, schedule[..last], n);
        NotOwned(u, n);
        if k :| 0 <= k < |w.threads| && Leaves(c, w, schedule[..last], k, n) {
          LeavesGrows(c, w, schedule, k, n);
        }
      } else if !Owned(Run(c, w, schedule), n) {
        assert LeavesAt(c, w, schedule, tid, n, last);
        LeavesGrows(c, w, schedule, tid, n);
      }
    }
  }

  lemma NotOwned(w: World, n: nat)
    requires Settled(w, n)
    ensures !Owned(w, n)
  {}

  /** Over every schedule a temporary name exists exactly when it did at the start, or a running
      save still has to remove it, or some save has abandoned it. */
  lemma TemporaryNames(c: Codec, w: World, schedule: seq<(nat, Event)>, n: nat)
    requires Lawful(c) && Initial(c, w)
    ensures TempName(n) in Run(c, w, schedule).dir <==>
              TempName(n) in w.dir || Owned(Run(c, w, schedule), n) || Left(c, w, schedule, n)
    ensures TempName(n) in w.dir ==>
              TempName(n) in Run(c, w, schedule).dir && Run(c, w, schedule).dir[TempName(n)] == w.dir[TempName(n)]
  {
    hide Run, Inv, Lawful, Initial, Leaves, Keeps, OwnTemp;
    InitialInv(c, w);
    RunSafe(c, w, schedule);
    StartSettles(c, w, n);
    var v := Run(c, w, schedule);
    if TempName(n) in v.dir {
      NamesComeFrom(c, w, schedule, n);
    }
    if TempName(n) in w.dir {
      SettledRun(c, w, schedule, n);
    }
    if k :| 0 <= k < |w.threads| && Leaves(c, w, schedule, k, n) {
      LeftStays(c, w, schedule, k, n);
    }
    if k :| 0 <= k < |v.threads| && OwnTemp(v.threads[k]) == Some(n) {
      OwnersHold(c, v, k, n);
    }
  }

  // ----- what one save leaves behind -----

  /** At step i save k created the temporary name. */
  predicate CreatesAt(c: Codec, w: World, schedule: seq<(nat, Event)>, k: nat, n: nat, i: nat)
    requires i < |schedule| && k < |w.threads|
  {
    && schedule[i].0 == k && TempName(n) !in Run(c, w, schedule[..i]).dir
    && OwnTemp(Run(c, w, schedule[..i + 1]).threads[k]) == Some(n)
  }

  predicate Creates(c: Codec, w: World, schedule: seq<(nat, Event)>, k: nat, n: nat)
    requires k < |w.threads|
  {
    exists i :: 0 <= i < |schedule| && CreatesAt(c, w, schedule, k, n, i)
  }

  lemma CreatesGrows(c: Codec, w: World, schedule: seq<(nat, Event)>, m: nat, k: nat, n: nat)
    requires m <= |schedule| && k < |w.threads| && Creates(c, w, schedule[..m], k, n)
    ensures Creates(c, w, schedule, k, n)
  {
    hide Run, OwnTemp;
    var i :| 0 <= i < m && CreatesAt(c, w, schedule[..m], k, n, i);
    assert schedule[..m][..i] == schedule[..i] && schedule[..m][..i + 1] == schedule[..i + 1];
    assert CreatesAt(c, w, schedule, k, n, i);
  }

  lemma ComesToOwn(c: Codec, w: World, tid: nat, e: Event, k: nat, n: nat)
    requires k < |w.threads| && OwnTemp(w.threads[k]) != Some(n) && OwnTemp(Step(c, w, tid, e).threads[k]) == Some(n)
    ensures tid == k && TempName(n) !in w.dir
  {
    hide ReaderStep;
    if tid != k {
      OtherStep(c, w, tid, e, k);
    } else {
      SaverTemps(c, w, w.threads[k].record, w.threads[k].save, e, n);
      hide SaverStep;
      OwnedIsNew(c, w, k, e, n);
    }
  }

  lemma OwnedIsNew(c: Codec, w: World, k: nat, e: Event, n: nat)
    requires k < |w.threads| && OwnTemp(w.threads[k]) != Some(n) && OwnTemp(Step(c, w, k, e).threads[k]) == Some(n)
    ensures TempName(n) !in w.dir
  {
    hide Free, Acceptable, Payload, ReaderStep;
  }

  lemma {:induction false} OwnersCreate(c: Codec, w: World, schedule: seq<(nat, Event)>, k: nat, n: nat)
    requires k < |w.threads| && OwnTemp(w.threads[k]) == None && OwnTemp(Run(c, w, schedule).threads[k]) == Some(n)
    ensures Creates(c, w, schedule, k, n)
  {
    hide Step, OwnTemp;
    var last := |schedule| - 1;
    var u := Run(c, w, schedule[..last]);
    RunSplits(c, w, schedule);
    if OwnTemp(u.threads[k]) == Some(n) {
      OwnersCreate(c, w, schedule[..last], k, n);
      CreatesGrows(c, w, schedule, last, k, n);
    } else {
      ComesToOwn(c, u, schedule[last].0, schedule[last].1, k, n);
      hide Run;
      assert schedule[..last + 1] == schedule;
      assert CreatesAt(c, w, schedule, k, n, last);
    }
  }

  lemma LeaversCreate(c: Codec, w: World, schedule: seq<(nat, Event)>, k: nat, n: nat)
    requires k < |w.threads| && OwnTemp(w.threads[k]) == None && Leaves(c, w, schedule, k, n)
    ensures Creates(c, w, schedule, k, n)
  {
    hide Run;
    var i :| 0 <= i < |schedule| && LeavesAt(c, w, schedule, k, n, i);
    OwnersCreate(c, w, schedule[..i], k, n);
    CreatesGrows(c, w, schedule, i, k, n);
  }

  lemma CreatedIsNew(c: Codec, w: World, schedule: seq<(nat, Event)>, k: nat, n: nat)
    requires Initial(c, w) && k < |w.threads| && Creates(c, w, schedule, k, n)
    ensures TempName(n) !in w.dir
  {
    hide Run, Initial, OwnTemp;
    var i :| 0 <= i < |schedule| && CreatesAt(c, w, schedule, k, n, i);
    StartSettles(c, w, n);
    if Settled(w, n) {
      SettledRun(c, w, schedule[..i], n);
    }
  }

  /** A save that is done, with whatever outcome, has removed the temporary name it created, over
      every schedule, exactly unless it abandoned it: identifying the file, or a step of its own
      release, failed or was interrupted. */
  lemma ReleasedExactly(c: Codec, w: World, schedule: seq<(nat, Event)>, k: nat, n: nat)
    requires Lawful(c) && Initial(c, w) && k < |w.threads| && Creates(c, w, schedule, k, n)
    requires Run(c, w, schedule).threads[k].Saver? && Run(c, w, schedule).threads[k].save.SaveDone?
    requires forall j :: 0 <= j < |w.threads| && j != k ==> !Creates(c, w, schedule, j, n)
    ensures TempName(n) in Run(c, w, schedule).dir <==> Leaves(c, w, schedule, k, n)
  {
    hide Run, Initial, Lawful, Creates, Leaves;
    TemporaryNames(c, w, schedule, n);
    CreatedIsNew(c, w, schedule, k, n);
    var v := Run(c, w, schedule);
    forall j | 0 <= j < |w.threads| ensures OwnTemp(w.threads[j]) == None {
      NoneOwnedAtStart(c, w, j);
    }
    assert OwnTemp(v.threads[k]) == None;
    hide OwnTemp;
    if j :| 0 <= j < |v.threads| && OwnTemp(v.threads[j]) == Some(n) {
      OwnersCreate(c, w, schedule, j, n);
    }
    if j :| 0 <= j < |w.threads| && Leaves(c, w, schedule, j, n) {
      LeaversCreate(c, w, schedule, j, n);
      assert j == k;
    }
  }

  lemma NoneOwnedAtStart(c: Codec, w: World, k: nat)
    requires Initial(c, w) && k < |w.threads|
    ensures OwnTemp(w.threads[k]) == None
  {
    hide FilesOk;
    assert w.threads[k] in w.threads;
  }

  lemma UntroubledLeavesNothing(c: Codec, w: World, schedule: seq<(nat, Event)>, k: nat, n: nat)
    requires k < |w.threads| && Untroubled(schedule, k)
    ensures !Leaves(c, w, schedule, k, n)
  {
    hide Run;
  }

  /** After a run in which every save is done and none met trouble, whatever their outcomes, the
      directory holds exactly the temporary names it started with. */
  lemma NothingLeftBehind(c: Codec, w: World, schedule: seq<(nat, Event)>, n: nat)
    requires Lawful(c) && Initial(c, w)
    requires forall t :: t in Run(c, w, schedule).threads && t.Saver? ==> t.save.SaveDone?
    requires forall k :: 0 <= k < |w.threads| ==> Untroubled(schedule, k)
    ensures TempName(n) in Run(c, w, schedule).dir <==> TempName(n) in w.dir
  {
    hide Run, Initial, Lawful, Leaves, Untroubled;
    TemporaryNames(c, w, schedule, n);
    var v := Run(c, w, schedule);
    forall k | 0 <= k < |v.threads| ensures OwnTemp(v.threads[k]) == None && !Leaves(c, w, schedule, k, n) {
      assert v.threads[k] in v.threads;
      UntroubledLeavesNothing(c, w, schedule, k, n);
    }
  }
}
