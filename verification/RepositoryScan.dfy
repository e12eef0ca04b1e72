/** A query beside running savers (pmqa/usage/repository.py, _query): the scan lists the
    directory while names appear, and each listed record is then read while savers go on. */
module RepositoryScan {
  import opened Wrappers
  import opened Sequences
  import opened UsageRecords
  import opened RepositoryFiles
  import opened RepositoryProtocol
  import opened RepositoryReads
  import opened RepositoryQuery

  /** What a scan between two moments may list: every name once, every record name that was
      there when it began, and no record name that is not there when it ends. */
  ghost predicate ScannedBetween(entries: seq<Name>, first: World, last: World) {
    && Distinct(entries)
    && (forall id :: RecordName(id) in first.dir ==> RecordName(id) in entries)
    && (forall id :: RecordName(id) in entries ==> RecordName(id) in last.dir)
  }

  /** The identifiers of the record names that were listed, in scan order. */
  function RecordIds(entries: seq<Name>): (ids: seq<string>)
    ensures forall id :: id in ids <==> RecordName(id) in entries
  {
    if entries == [] then []
    else
      var init, last := entries[..|entries| - 1], entries[|entries| - 1];
      assert entries == init + [last];
      var ids := RecordIds(init);
      if last.RecordName? then ids + [last.id] else ids
  }

  /** The reads of a query that has listed these identifiers join the running threads. */
  function WithReads(w: World, ids: seq<string>): (v: World)
    ensures |v.threads| == |w.threads| + |ids|
  {
    w.(threads := w.threads + seq(|ids|, i requires 0 <= i < |ids| => Reader(ids[i], Statting)))
  }

  /** Thread k has read the entry of this identifier, with this result. */
  predicate ReadBy(v: World, k: nat, id: string, result: Result<Record, ErrorCode>)
    requires k < |v.threads|
  {
    match result
    case Ok(r) => v.threads[k] == Reader(id, ReadDone(Found(r)))
    case Err(code) => v.threads[k] == Reader(id, ReadDone(ReadFailed(code)))
  }

  /** What the query gets for each listed record is what the read it made has returned. */
  ghost predicate Answers(read: ReadEntry, v: World, ids: seq<string>, base: nat)
    requires |v.threads| == base + |ids|
  {
    forall i :: 0 <= i < |ids| ==> ReadBy(v, base + i, ids[i], read(RecordName(ids[i])))
  }

  // ----- the reads -----

  lemma WithReadsInv(c: Codec, w: World, ids: seq<string>)
    requires Inv(c, w) && forall id :: id in ids ==> RecordName(id) in w.dir
    ensures Inv(c, WithReads(w, ids))
  {
    hide FilesOk, SaverOk, Publishing;
    var v := WithReads(w, ids);
    forall k | 0 <= k < |v.threads| ensures ThreadOk(c, v.dir, v.data, v.threads[k]) {
      if k >= |w.threads| {
        assert ids[k - |w.threads|] in ids;
      }
    }
  }

  lemma EntryIdentifierIsValid(c: Codec, w: World, id: string)
    requires FilesOk(c, w.dir, w.data) && RecordName(id) in w.dir
    ensures ValidIdentifier(id)
  {
    var r :| CompleteEntry(c, w.dir, w.data, id, r);
  }

  /** A listed record's read ends in the complete record of that name, exactly when none of its
      own calls fails and it is not interrupted: what savers do beside it spoils nothing. */
  lemma ListedRead(c: Codec, w: World, ids: seq<string>, schedule: seq<(nat, Event)>, i: nat)
    requires Lawful(c) && Inv(c, w) && i < |ids| && forall id :: id in ids ==> RecordName(id) in w.dir
    ensures var u, k := WithReads(w, ids), |w.threads| + i;
            var v := Run(c, u, schedule);
            var t := v.threads[k];
            && Reads(t, ids[i])
            && (EndedWith(t, ReadFailed(ReadFailure)) <==> Hit(c, u, schedule, k, Fault))
            && (EndedWith(t, ReadInterrupted) <==> Hit(c, u, schedule, k, Interruption))
            && (ReadEnded(t) && t.read.result.Found? <==>
                  ReadEnded(t) && !Hit(c, u, schedule, k, Fault) && !Hit(c, u, schedule, k, Interruption))
            && (ReadEnded(t) && t.read.result.Found? ==>
                CompleteEntry(c, v.dir, v.data, ids[i], t.read.result.record))
            && (StepsOf(schedule, k) >= READ_STEPS ==> ReadEnded(t))
  {
    hide Run, Lawful, Keeps, Apart, CompleteEntry, Hit, ValidIdentifier;
    var u, k := WithReads(w, ids), |w.threads| + i;
    assert ids[i] in ids;
    var s :| CompleteEntry(c, w.dir, w.data, ids[i], s);
    EntryIdentifierIsValid(c, w, ids[i]);
    WithReadsInv(c, w, ids);
    hide FilesOk;
    EntryIsRead(c, u, schedule, k, ids[i], s);
    RunSafe(c, u, schedule);
    var v := Run(c, u, schedule);
    assert ThreadOk(c, v.dir, v.data, v.threads[k]);
    hide Inv;
  }

  /** The i-th read of the query has met a failing call before it ended. */
  predicate FaultInRead(c: Codec, w: World, ids: seq<string>, schedule: seq<(nat, Event)>, i: nat)
    requires i < |ids|
  {
    Hit(c, WithReads(w, ids), schedule, |w.threads| + i, Fault)
  }

  predicate ReadFaulted(c: Codec, w: World, ids: seq<string>, schedule: seq<(nat, Event)>) {
    exists i :: 0 <= i < |ids| && FaultInRead(c, w, ids, schedule, i)
  }

  // ----- the query -----

  /** The worlds of a query: any schedule before the scan, during it, and while it reads. */
  ghost predicate QueryRun(c: Codec, w: World, before: seq<(nat, Event)>, during: seq<(nat, Event)>,
                           after: seq<(nat, Event)>,
                           entries: seq<Name>, read: ReadEntry, first: World, last: World, end: World)
  {
    && first == Run(c, w, before) && last == Run(c, first, during)
    && ScannedBetween(entries, first, last)
    && end == Run(c, WithReads(last, RecordIds(entries)), after)
    && Answers(read, end, RecordIds(entries), |last.threads|)
  }

  /** What was complete when the scan began is complete when it ends and when the reads are done. */
  lemma QueryWorlds(c: Codec, w: World, before: seq<(nat, Event)>, during: seq<(nat, Event)>, after: seq<(nat, Event)>,
                    entries: seq<Name>, read: ReadEntry, first: World, last: World, end: World)
    requires Lawful(c) && Initial(c, w) && QueryRun(c, w, before, during, after, entries, read, first, last, end)
    ensures Inv(c, last) && Inv(c, end) && Keeps(first, last) && Keeps(last, end)
    ensures forall id :: id in RecordIds(entries) ==> RecordName(id) in last.dir
  {
    hide Run, Initial, Inv, Keeps, Lawful, Answers;
    InitialInv(c, w);
    RunSafe(c, w, before);
    RunSafe(c, first, during);
    WithReadsInv(c, last, RecordIds(entries));
    RunSafe(c, WithReads(last, RecordIds(entries)), after);
    WithReadsKeeps(last, RecordIds(entries), end);
  }

  lemma WithReadsKeeps(w: World, ids: seq<string>, v: World)
    requires Keeps(WithReads(w, ids), v)
    ensures Keeps(w, v)
  {}

  /** The answer for a listed record is a read failure exactly when a call of its own read has
      failed, and otherwise the one complete record of that name. */
  lemma ListedAnswer(c: Codec, w: World, ids: seq<string>, schedule: seq<(nat, Event)>, read: ReadEntry, end: World,
                     i: nat)
    requires Lawful(c) && Inv(c, w) && i < |ids| && forall x :: x in ids ==> RecordName(x) in w.dir
    requires end == Run(c, WithReads(w, ids), schedule) && Answers(read, end, ids, |w.threads|)
    ensures var answer := read(RecordName(ids[i]));
            && (answer.Err? <==> FaultInRead(c, w, ids, schedule, i))
            && (answer.Err? ==> answer == Err(ReadFailure))
            && (answer.Ok? ==> CompleteEntry(c, end.dir, end.data, ids[i], answer.value))
  {
    hide Run, Inv, Lawful, CompleteEntry, Hit;
    ListedRead(c, w, ids, schedule, i);
    assert ReadBy(end, |w.threads| + i, ids[i], read(RecordName(ids[i])));
  }

  /** The answers are errors exactly when some read has met a failing call. */
  lemma AnswersFail(c: Codec, w: World, entries: seq<Name>, schedule: seq<(nat, Event)>, read: ReadEntry, end: World)
    requires Lawful(c) && Inv(c, w) && forall x :: x in RecordIds(entries) ==> RecordName(x) in w.dir
    requires end == Run(c, WithReads(w, RecordIds(entries)), schedule)
    requires Answers(read, end, RecordIds(entries), |w.threads|)
    ensures AllRead(entries, read) <==> !ReadFaulted(c, w, RecordIds(entries), schedule)
    ensures forall id :: RecordName(id) in entries && read(RecordName(id)).Err? ==>
              read(RecordName(id)) == Err(ReadFailure)
    ensures forall id :: RecordName(id) in entries && read(RecordName(id)).Ok? ==>
              CompleteEntry(c, end.dir, end.data, id, read(RecordName(id)).value)
  {
    hide Run, Inv, Lawful, CompleteEntry, FaultInRead, Answers;
    var ids := RecordIds(entries);
    forall i | 0 <= i < |ids|
      ensures var answer := read(RecordName(ids[i]));
              && (answer.Err? <==> FaultInRead(c, w, ids, schedule, i))
              && (answer.Err? ==> answer == Err(ReadFailure))
              && (answer.Ok? ==> CompleteEntry(c, end.dir, end.data, ids[i], answer.value))
              && RecordName(ids[i]) in entries
    {
      ListedAnswer(c, w, ids, schedule, read, end, i);
      assert ids[i] in ids;
    }
    forall id | RecordName(id) in entries ensures exists i :: 0 <= i < |ids| && ids[i] == id {
      assert id in ids;
    }
  }

  lemma LaterIsSame(c: Codec, u: World, v: World, id: string, r: Record)
    requires Lawful(c) && FilesOk(c, u.dir, u.data) && Keeps(u, v) && RecordName(id) in u.dir
    requires CompleteEntry(c, v.dir, v.data, id, r)
    ensures CompleteEntry(c, u.dir, u.data, id, r)
  {
    hide Canonical, Lawful;
    var x :| CompleteEntry(c, u.dir, u.data, id, x);
    KeptEntry(c, u, v, id, x);
    EntryUnique(c, v.dir, v.data, id, x, r);
  }

  /** A failing query fails with the error of one of its reads. */
  lemma {:induction false} CollectError(entries: seq<Name>, read: ReadEntry, matches: Record -> bool) returns (n: Name)
    requires Collect(entries, read, matches).Err?
    ensures n in entries && n.RecordName? && read(n) == Err(Collect(entries, read, matches).error)
  {
    var init, last := entries[..|entries| - 1], entries[|entries| - 1];
    assert entries == init + [last];
    if Collect(init, read, matches).Err? {
      n := CollectError(init, read, matches);
    } else {
      n := last;
    }
  }

  /** All listed records could be read. */
  ghost predicate AllRead(entries: seq<Name>, read: ReadEntry) {
    forall id :: RecordName(id) in entries ==> read(RecordName(id)).Ok?
  }

  /** A query beside running savers fails exactly when a call of one of its own reads has
      failed, and then with a read failure: whatever savers do meanwhile, it never meets a
      partial or corrupt record, and no listed record vanishes. */
  lemma QueryFailure(c: Codec, w: World, before: seq<(nat, Event)>, during: seq<(nat, Event)>,
                     after: seq<(nat, Event)>,
                     entries: seq<Name>, read: ReadEntry, first: World, last: World, end: World,
                     matches: Record -> bool, limit: int)
    requires Lawful(c) && Initial(c, w) && ValidLimit(limit)
    requires QueryRun(c, w, before, during, after, entries, read, first, last, end)
    ensures QueryResult(entries, read, matches, limit).Err? <==> ReadFaulted(c, last, RecordIds(entries), after)
    ensures QueryResult(entries, read, matches, limit).Err? ==>
            QueryResult(entries, read, matches, limit) == Err(ReadFailure)
  {
    QueryWorlds(c, w, before, during, after, entries, read, first, last, end);
    hide Run, Initial, Inv, Keeps, Lawful, Answers, Collect, CompleteEntry, ScannedBetween, ReadFaulted;
    FailsExactly(entries, read, matches);
    AnswersFail(c, last, entries, after, read, end);
    if Collect(entries, read, matches).Err? {
      var n := CollectError(entries, read, matches);
      assert n == RecordName(n.id);
    }
  }

  /** A listed record that was read is the complete record its name had when the scan ended. */
  lemma AnswerMeans(c: Codec, last: World, entries: seq<Name>, after: seq<(nat, Event)>, read: ReadEntry, end: World,
                    r: Record)
    requires Lawful(c) && Inv(c, last) && Keeps(last, end) && AllRead(entries, read)
    requires forall id :: id in RecordIds(entries) ==> RecordName(id) in last.dir
    requires end == Run(c, WithReads(last, RecordIds(entries)), after)
             && Answers(read, end, RecordIds(entries), |last.threads|)
    ensures Stored(entries, read, r) <==>
              RecordName(r.invocationId) in entries && CompleteEntry(c, last.dir, last.data, r.invocationId, r)
  {
    hide Run, Lawful, Keeps, Answers, CompleteEntry, FilesOk, Apart, ThreadOk;
    var id := r.invocationId;
    if RecordName(id) in entries {
      AnswersFail(c, last, entries, after, read, end);
      assert id in RecordIds(entries);
      var x := read(RecordName(id)).value;
      LaterIsSame(c, last, end, id, x);
      if CompleteEntry(c, last.dir, last.data, id, r) {
        EntryUnique(c, last.dir, last.data, id, r, x);
      }
    }
  }

  /** A query whose scan and reads interleave with savers, when no call of its reads fails, takes
      the first records of the one ordered listing of exactly the listed records that match. Each is
      complete when the scan ends and stays so, and every matching record that was complete
      when the query started its scan is among them. */
  lemma QueryBesideSavers(c: Codec, w: World, before: seq<(nat, Event)>, during: seq<(nat, Event)>,
                          after: seq<(nat, Event)>,
                          entries: seq<Name>, read: ReadEntry, first: World, last: World, end: World,
                          matches: Record -> bool, limit: int)
    requires Lawful(c) && Initial(c, w) && ValidLimit(limit)
    requires QueryRun(c, w, before, during, after, entries, read, first, last, end)
    requires !ReadFaulted(c, last, RecordIds(entries), after)
    ensures Collect(entries, read, matches).Ok?
    ensures var all := Sorted(Collect(entries, read, matches).value);
            && QueryResult(entries, read, matches, limit) == Ok(Take(all, limit))
            && InOrder(all)
            && (forall r: Record :: r in all <==>
                  && RecordName(r.invocationId) in entries
                  && CompleteEntry(c, last.dir, last.data, r.invocationId, r) && matches(r))
            && (forall r: Record :: r in all ==> CompleteEntry(c, end.dir, end.data, r.invocationId, r))
            && (forall r: Record :: CompleteEntry(c, first.dir, first.data, r.invocationId, r) && matches(r) ==>
                r in all)
  {
    QueryWorlds(c, w, before, during, after, entries, read, first, last, end);
    AllAnswered(c, w, before, during, after, entries, read, first, last, end);
    forall r: Record ensures Stored(entries, read, r) <==>
                       RecordName(r.invocationId) in entries && CompleteEntry(c, last.dir, last.data, r.invocationId, r)
    {
      hide Run, Initial, Inv, Keeps, Lawful, Answers, CompleteEntry, ScannedBetween;
      AnswerMeans(c, last, entries, after, read, end, r);
    }
    AllReadable(c, last, entries, after, read, end);
    forall r: Record | CompleteEntry(c, first.dir, first.data, r.invocationId, r)
      ensures RecordName(r.invocationId) in entries && CompleteEntry(c, last.dir, last.data, r.invocationId, r)
    {
      hide Run, Initial, Inv, Lawful, Answers;
      KeptEntry(c, first, last, r.invocationId, r);
    }
    forall r: Record | CompleteEntry(c, last.dir, last.data, r.invocationId, r)
      ensures CompleteEntry(c, end.dir, end.data, r.invocationId, r)
    {
      hide Run, Initial, Inv, Lawful, Answers;
      KeptEntry(c, last, end, r.invocationId, r);
    }
    hide Run, Initial, Inv, Keeps, Lawful, Answers, CompleteEntry, ScannedBetween, Readable, Stored, QueryRun, Collect,
         QueryResult, InOrder;
    QueryExactly(entries, read, matches, limit);
  }

  lemma AllAnswered(c: Codec, w: World, before: seq<(nat, Event)>, during: seq<(nat, Event)>, after: seq<(nat, Event)>,
                    entries: seq<Name>, read: ReadEntry, first: World, last: World, end: World)
    requires Lawful(c) && Initial(c, w) && QueryRun(c, w, before, during, after, entries, read, first, last, end)
    ensures AllRead(entries, read) <==> !ReadFaulted(c, last, RecordIds(entries), after)
  {
    QueryWorlds(c, w, before, during, after, entries, read, first, last, end);
    hide Run, Initial, Inv, Keeps, Lawful, Answers, CompleteEntry, ScannedBetween, ReadFaulted;
    AnswersFail(c, last, entries, after, read, end);
  }

  lemma AllReadable(c: Codec, last: World, entries: seq<Name>, after: seq<(nat, Event)>, read: ReadEntry, end: World)
    requires Lawful(c) && Inv(c, last) && Distinct(entries) && AllRead(entries, read)
    requires forall id :: id in RecordIds(entries) ==> RecordName(id) in last.dir
    requires end == Run(c, WithReads(last, RecordIds(entries)), after)
             && Answers(read, end, RecordIds(entries), |last.threads|)
    ensures Readable(entries, read)
  {
    hide Run, Inv, Lawful, Answers, CompleteEntry;
    AnswersFail(c, last, entries, after, read, end);
    forall n | n in entries && n.RecordName? ensures read(n).Ok? && RecordName(read(n).value.invocationId) == n {
      assert n == RecordName(n.id);
      EntryIdentifier(c, end, n.id, read(n).value);
    }
  }

  // ----- a query does finish -----

  /** No read of the query is disturbed, and each takes enough steps. */
  predicate ReadsTakeTheirSteps(schedule: seq<(nat, Event)>, base: nat, n: nat) {
    forall k :: base <= k < base + n ==> Undisturbed(schedule, k) && StepsOf(schedule, k) >= READ_STEPS
  }

  function IndexOf(ids: seq<string>, id: string): (i: nat)
    requires id in ids
    ensures i < |ids| && ids[i] == id
  {
    if ids[0] == id then 0 else 1 + IndexOf(ids[1..], id)
  }

  /** The result of the read of a listed name. */
  function AnswerIn(v: World, base: nat, ids: seq<string>, name: Name): Result<Record, ErrorCode> {
    if !name.RecordName? || name.id !in ids || |v.threads| != base + |ids| then Err(ReadFailure)
    else
      match v.threads[base + IndexOf(ids, name.id)]
      case Reader(_, ReadDone(Found(r))) => Ok(r)
      case Reader(_, ReadDone(ReadFailed(code))) => Err(code)
      case _ => Err(ReadFailure)
  }

  lemma {:induction false} DistinctIds(entries: seq<Name>)
    requires Distinct(entries)
    ensures Distinct(RecordIds(entries))
  {
    if entries != [] {
      var init, last := entries[..|entries| - 1], entries[|entries| - 1];
      assert entries == init + [last];
      DistinctIds(init);
      assert last !in init;
    }
  }

  predicate HasFound(t: Thread, id: string) {
    Reads(t, id) && ReadEnded(t) && t.read.result.Found?
  }

  lemma AnswersExist(v: World, base: nat, ids: seq<string>)
    requires |v.threads| == base + |ids| && Distinct(ids)
    requires forall i :: 0 <= i < |ids| ==> HasFound(v.threads[base + i], ids[i])
    ensures Answers((n: Name) => AnswerIn(v, base, ids, n), v, ids, base)
  {
    forall i | 0 <= i < |ids| ensures IndexOf(ids, ids[i]) == i {
      var j := IndexOf(ids, ids[i]);
      assert ids[i] in ids && ids[j] == ids[i];
    }
  }

  /** Whatever savers do beside it, a query whose reads are undisturbed and take their steps is
      answered in full: QueryBesideSavers speaks of it. */
  lemma QueryCompletes(c: Codec, w: World, before: seq<(nat, Event)>, during: seq<(nat, Event)>,
                       after: seq<(nat, Event)>, entries: seq<Name>, first: World, last: World)
    returns (read: ReadEntry)
    requires Lawful(c) && Initial(c, w) && first == Run(c, w, before) && last == Run(c, first, during)
    requires ScannedBetween(entries, first, last)
    requires ReadsTakeTheirSteps(after, |last.threads|, |RecordIds(entries)|)
    ensures QueryRun(c, w, before, during, after, entries, read, first, last,
                     Run(c, WithReads(last, RecordIds(entries)), after))
    ensures !ReadFaulted(c, last, RecordIds(entries), after)
  {
    hide Run, Initial, Inv, Keeps, Lawful, Hit, CompleteEntry, Undisturbed, Distinct, Answers;
    var ids, base := RecordIds(entries), |last.threads|;
    var u := WithReads(last, ids);
    var end := Run(c, u, after);
    InitialInv(c, w);
    RunSafe(c, w, before);
    RunSafe(c, first, during);
    DistinctIds(entries);
    forall i | 0 <= i < |ids|
      ensures !FaultInRead(c, last, ids, after, i) && HasFound(end.threads[base + i], ids[i])
    {
      UndisturbedIsNotHit(c, u, after, base + i, Fault);
      UndisturbedIsNotHit(c, u, after, base + i, Interruption);
      ListedRead(c, last, ids, after, i);
    }
    hide HasFound, FaultInRead;
    AnswersExist(end, base, ids);
    read := (n: Name) => AnswerIn(end, base, ids, n);
  }

  /** Reading the listed records one after the other, as the program does, is such a schedule. */
  function InTurn(base: nat, n: nat): seq<(nat, Event)> {
    if n == 0 then [] else InTurn(base, n - 1) + Alone(base + n - 1, READ_STEPS)
  }

  lemma {:induction false} StepsAppend(a: seq<(nat, Event)>, b: seq<(nat, Event)>, k: nat)
    ensures StepsOf(a + b, k) == StepsOf(a, k) + StepsOf(b, k)
    ensures Undisturbed(a, k) && Undisturbed(b, k) ==> Undisturbed(a + b, k)
  {
    if b == [] {
      assert a + b == a;
    } else {
      StepsAppend(a, b[..|b| - 1], k);
      assert (a + b)[..|a + b| - 1] == a + b[..|b| - 1];
    }
  }

  lemma {:induction false} InTurnSteps(base: nat, n: nat, k: nat)
    ensures Undisturbed(InTurn(base, n), k)
    ensures base <= k < base + n ==> StepsOf(InTurn(base, n), k) >= READ_STEPS
  {
    hide Undisturbed, StepsOf;
    if n == 0 {
      NothingDisturbs(k);
    } else {
      InTurnSteps(base, n - 1, k);
      AloneSteps(base + n - 1, READ_STEPS);
      AloneDisturbsNone(base + n - 1, READ_STEPS, k);
      StepsAppend(InTurn(base, n - 1), Alone(base + n - 1, READ_STEPS), k);
    }
  }

  lemma NothingDisturbs(k: nat)
    ensures Undisturbed([], k)
  {}

  lemma AloneDisturbsNone(j: nat, n: nat, k: nat)
    ensures Undisturbed(Alone(j, n), k)
  {}

  lemma ReadsInTurn(base: nat, n: nat)
    ensures ReadsTakeTheirSteps(InTurn(base, n), base, n)
  {
    forall k | base <= k < base + n
      ensures Undisturbed(InTurn(base, n), k) && StepsOf(InTurn(base, n), k) >= READ_STEPS
    {
      InTurnSteps(base, n, k);
    }
  }
}
