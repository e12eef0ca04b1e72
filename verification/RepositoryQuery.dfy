/** Queries over the stored records (pmqa/usage/repository.py, _query): scan, filter, two
    stable sorts, limit. */
module RepositoryQuery {
  import opened Wrappers
  import opened Sequences
  import opened UsageRecords
  import opened RepositoryFiles
  import opened RepositoryProtocol

  const MAX_USAGE_QUERY_LIMIT: nat := 1_000

  /** What reading one directory entry gives. */
  type ReadEntry = Name -> Result<Record, ErrorCode>

  // ----- scanning -----

  /** The matching records in scan order, or the first read that fails. */
  function Collect(entries: seq<Name>, read: ReadEntry, matches: Record -> bool): Result<seq<Record>, ErrorCode> {
    if entries == [] then Ok([])
    else
      var name := entries[|entries| - 1];
      match Collect(entries[..|entries| - 1], read, matches)
      case Err(e) => Err(e)
      case Ok(done) =>
        if !name.RecordName? then Ok(done)
        else
          match read(name)
          case Err(e) => Err(e)
          case Ok(r) => Ok(if matches(r) then done + [r] else done)
  }

  lemma {:induction false} CollectPrefixFails(entries: seq<Name>, i: nat, read: ReadEntry, matches: Record -> bool)
    requires i <= |entries| && Collect(entries[..i], read, matches).Err?
    ensures Collect(entries, read, matches) == Collect(entries[..i], read, matches)
    decreases |entries|
  {
    if i < |entries| {
      assert entries[..|entries| - 1][..i] == entries[..i];
      CollectPrefixFails(entries[..|entries| - 1], i, read, matches);
    } else {
      assert entries[..i] == entries;
    }
  }

  // ----- the second sort: newest first, stable -----

  predicate Newer(a: Record, b: Record) {
    !NotAfter(a.completedAt, b.completedAt)
  }

  function IdKey(r: Record): SortKey {
    [r.invocationId]
  }

  /** Insert after every element that is not older. */
  function InsertNewest(x: Record, s: seq<Record>): seq<Record> {
    if s == [] then [x]
    else if Newer(x, s[|s| - 1]) then InsertNewest(x, s[..|s| - 1]) + [s[|s| - 1]]
    else s + [x]
  }

  /** Sorting by completion time in reverse keeps equal elements in their order. */
  function SortNewest(s: seq<Record>): seq<Record> {
    if s == [] then [] else InsertNewest(s[|s| - 1], SortNewest(s[..|s| - 1]))
  }

  function Sorted(s: seq<Record>): seq<Record> {
    SortNewest(SortBy(s, IdKey))
  }

  function Take(s: seq<Record>, limit: nat): seq<Record> {
    if |s| <= limit then s else s[..limit]
  }

  predicate ValidLimit(limit: int) {
    1 <= limit <= MAX_USAGE_QUERY_LIMIT
  }

  function QueryResult(entries: seq<Name>, read: ReadEntry, matches: Record -> bool, limit: int):
      Result<seq<Record>, ErrorCode> {
    if !ValidLimit(limit) then Err(InvalidLimit)
    else
      match Collect(entries, read, matches)
      case Err(e) => Err(e)
      case Ok(records) => Ok(Take(Sorted(records), limit))
  }

  /** The loop over the directory, then the two sorts. */
  method Query(entries: seq<Name>, read: ReadEntry, matches: Record -> bool, limit: int)
      returns (r: Result<seq<Record>, ErrorCode>)
    ensures r == QueryResult(entries, read, matches, limit)
  {
    if !ValidLimit(limit) {
      return Err(InvalidLimit);
    }
    var records: seq<Record> := [];
    for i := 0 to |entries|
      invariant Collect(entries[..i], read, matches) == Ok(records)
    {
      assert entries[..i + 1][..i] == entries[..i];
      if entries[i].RecordName? {
        match read(entries[i]) {
          case Err(e) =>
            CollectPrefixFails(entries, i + 1, read, matches);
            return Err(e);
          case Ok(record) =>
            if matches(record) {
              records := records + [record];
            }
        }
      }
    }
    assert entries[..|entries|] == entries;
    records := SortBy(records, IdKey);
    records := SortNewest(records);
    r := Ok(Take(records, limit));
  }

  // ----- the order -----

  /** Completion time descending, then identifier ascending. */
  predicate Before(a: Record, b: Record) {
    Newer(a, b) || (a.completedAt == b.completedAt && TextLess(a.invocationId, b.invocationId))
  }

  predicate InOrder(s: seq<Record>) {
    forall i, j :: 0 <= i < j < |s| ==> Before(s[i], s[j])
  }

  predicate DistinctIds(s: seq<Record>) {
    forall i, j :: 0 <= i < j < |s| ==> s[i].invocationId != s[j].invocationId
  }

  lemma BeforeOrder(a: Record, b: Record)
    ensures !(Before(a, b) && Before(b, a))
    ensures a.invocationId != b.invocationId ==> Before(a, b) || Before(b, a)
  {
    TextOrder(a.invocationId, b.invocationId);
  }

  /** An element that is not older stays in front, and among equals the smaller identifier. */
  lemma StaysInFront(a: Record, y: Record, x: Record)
    requires a == y || Before(a, y)
    requires !Newer(x, y) && TextLess(a.invocationId, x.invocationId)
    ensures Before(a, x)
  {
    hide TextLess;
  }

  lemma {:induction false} InsertKeepsOrder(x: Record, s: seq<Record>)
    requires InOrder(s) && forall y :: y in s ==> TextLess(y.invocationId, x.invocationId)
    ensures InOrder(InsertNewest(x, s)) && multiset(InsertNewest(x, s)) == multiset(s) + multiset{x}
    ensures forall y :: y in InsertNewest(x, s) ==> y == x || y in s
  {
    hide TextLess, NotAfter;
    if s != [] {
      var t, y := s[..|s| - 1], s[|s| - 1];
      assert s == t + [y];
      if Newer(x, y) {
        InsertKeepsOrder(x, t);
        assert Before(x, y);
        var r := InsertNewest(x, t);
        hide Before;
        forall i | 0 <= i < |r| ensures Before(r[i], y) {
          assert r[i] in r;
          assert r[i] in t ==> exists k :: 0 <= k < |t| && s[k] == r[i];
        }
      } else {
        forall i | 0 <= i < |s| ensures Before(s[i], x) {
          assert s[i] in s;
          StaysInFront(s[i], y, x);
        }
        hide Before;
      }
    }
  }

  lemma IdKeyLess(a: Record, b: Record)
    requires KeyLess(IdKey(a), IdKey(b))
    ensures TextLess(a.invocationId, b.invocationId)
  {
    assert !KeyLess(IdKey(a)[1..], IdKey(b)[1..]);
  }

  /** On records already sorted by identifier, the stable second sort gives the combined order. */
  lemma {:induction false} SecondSort(s: seq<Record>)
    requires StrictlySorted(s, IdKey)
    ensures InOrder(SortNewest(s)) && multiset(SortNewest(s)) == multiset(s)
  {
    hide TextLess, KeyLess, InsertNewest, Before, IdKey;
    if s != [] {
      var t, x := s[..|s| - 1], s[|s| - 1];
      SecondSort(t);
      assert s == t + [x];
      SameElements(SortNewest(t), t);
      forall y | y in SortNewest(t) ensures TextLess(y.invocationId, x.invocationId) {
        assert y in Elements(SortNewest(t));
        var i :| 0 <= i < |t| && t[i] == y;
        assert s[i] == y;
        IdKeyLess(s[i], s[|t|]);
      }
      InsertKeepsOrder(x, SortNewest(t));
    }
  }

  /** The two stable sorts compose to the lexicographic order. */
  lemma SortsCompose(s: seq<Record>)
    requires DistinctIds(s)
    ensures InOrder(Sorted(s)) && multiset(Sorted(s)) == multiset(s)
  {
    forall i, j | 0 <= i < j < |s| ensures IdKey(s[i]) != IdKey(s[j]) {
      assert IdKey(s[i])[0] != IdKey(s[j])[0];
    }
    SortSorts(s, IdKey);
    SortContents(s, IdKey);
    SecondSort(SortBy(s, IdKey));
  }

  lemma OrderedLast(a: seq<Record>, b: seq<Record>)
    requires a != [] && b != [] && InOrder(a) && InOrder(b) && multiset(a) == multiset(b)
    ensures a[|a| - 1] == b[|b| - 1]
  {
    var x, y := a[|a| - 1], b[|b| - 1];
    assert x in multiset(a) && y in multiset(b);
    assert x in b && y in a by {
      assert x in multiset(b) && y in multiset(a);
    }
    BeforeOrder(x, y);
  }

  /** An ordered sequence is determined by its elements. */
  lemma {:induction false} OrderedUnique(a: seq<Record>, b: seq<Record>)
    requires InOrder(a) && InOrder(b) && multiset(a) == multiset(b)
    ensures a == b
  {
    hide Before;
    SameElements(a, b);
    if a != [] {
      OrderedLast(a, b);
      DropLast(a, b);
      OrderedUnique(a[..|a| - 1], b[..|b| - 1]);
      assert a == a[..|a| - 1] + [a[|a| - 1]];
    }
  }

  // ----- what a query returns -----

  /** A directory whose record entries can all be read, each giving the record its name stands for. */
  ghost predicate Readable(entries: seq<Name>, read: ReadEntry) {
    && Distinct(entries)
    && forall n :: n in entries && n.RecordName? ==> read(n).Ok? && RecordName(read(n).value.invocationId) == n
  }

  ghost predicate Stored(entries: seq<Name>, read: ReadEntry, r: Record) {
    RecordName(r.invocationId) in entries && read(RecordName(r.invocationId)) == Ok(r)
  }

  lemma {:induction false} CollectsExactly(entries: seq<Name>, read: ReadEntry, matches: Record -> bool)
    requires Readable(entries, read)
    ensures Collect(entries, read, matches).Ok?
    ensures var s := Collect(entries, read, matches).value;
            DistinctIds(s) && forall r :: r in s <==> Stored(entries, read, r) && matches(r)
  {
    if entries != [] {
      var init, name := entries[..|entries| - 1], entries[|entries| - 1];
      assert entries == init + [name];
      CollectsExactly(init, read, matches);
      var done, s := Collect(init, read, matches).value, Collect(entries, read, matches).value;
      assert name !in init;
      forall r ensures Stored(entries, read, r) <==>
          Stored(init, read, r) || (name.RecordName? && read(name) == Ok(r)) {}
      forall r | r in done ensures RecordName(r.invocationId) != name {
        assert Stored(init, read, r);
      }
      if s != done {
        assert s == done + [read(name).value];
      }
    }
  }

  lemma DistinctRecords(s: seq<Record>)
    requires DistinctIds(s)
    ensures Distinct(s)
  {}

  /** When every record can be read, a query returns the first records, at most limit, of the
      one ordered listing of exactly the stored records that match. */
  lemma QueryExactly(entries: seq<Name>, read: ReadEntry, matches: Record -> bool, limit: int)
    requires Readable(entries, read) && ValidLimit(limit)
    ensures Collect(entries, read, matches).Ok?
    ensures var all := Sorted(Collect(entries, read, matches).value);
            && QueryResult(entries, read, matches, limit) == Ok(Take(all, limit))
            && InOrder(all) && (forall r :: r in all <==> Stored(entries, read, r) && matches(r))
            && (forall r, x :: r in Take(all, limit) && x in all && x !in Take(all, limit) ==> Before(r, x))
  {
    CollectsExactly(entries, read, matches);
    var s := Collect(entries, read, matches).value;
    SortsCompose(s);
    var all := Sorted(s);
    SameElements(all, s);
    forall r ensures r in all <==> r in s {
      assert r in Elements(all) <==> r in Elements(s);
    }
    forall r, x | r in Take(all, limit) && x in all && x !in Take(all, limit) ensures Before(r, x) {
      var i :| 0 <= i < |Take(all, limit)| && Take(all, limit)[i] == r;
      var j :| 0 <= j < |all| && all[j] == x;
      assert j >= |Take(all, limit)|;
    }
  }

  /** The order in which the directory is scanned does not matter. */
  lemma ScanOrderIrrelevant(a: seq<Name>, b: seq<Name>, read: ReadEntry, matches: Record -> bool, limit: int)
    requires Readable(a, read) && Distinct(b) && multiset(a) == multiset(b)
    ensures QueryResult(a, read, matches, limit) == QueryResult(b, read, matches, limit)
  {
    SameElements(a, b);
    forall n ensures n in a <==> n in b {
      assert n in Elements(a) <==> n in Elements(b);
    }
    CollectsExactly(a, read, matches);
    CollectsExactly(b, read, matches);
    var s, t := Collect(a, read, matches).value, Collect(b, read, matches).value;
    DistinctRecords(s);
    DistinctRecords(t);
    forall r ensures r in Elements(s) <==> r in Elements(t) {
      assert Stored(a, read, r) <==> Stored(b, read, r);
    }
    assert Elements(s) == Elements(t);
    DistinctMultiset(s, t);
    SortsCompose(s);
    SortsCompose(t);
    OrderedUnique(Sorted(s), Sorted(t));
  }

  /** One unreadable record fails every query, whatever the order and the filter. */
  lemma {:induction false} FailsExactly(entries: seq<Name>, read: ReadEntry, matches: Record -> bool)
    ensures Collect(entries, read, matches).Err? <==> exists n :: n in entries && n.RecordName? && read(n).Err?
  {
    if entries != [] {
      var init, name := entries[..|entries| - 1], entries[|entries| - 1];
      assert entries == init + [name];
      FailsExactly(init, read, matches);
      assert forall n :: n in entries <==> n in init || n == name;
    }
  }

  /** What is returned lists the newest record first, and records of one instant by identifier. */
  predicate NewestFirst(s: seq<Record>) {
    forall i, j :: 0 <= i < j < |s| ==>
      || s[i].completedAt.seconds > s[j].completedAt.seconds
      || (s[i].completedAt.seconds == s[j].completedAt.seconds && s[i].completedAt.micros > s[j].completedAt.micros)
      || (s[i].completedAt == s[j].completedAt && TextLess(s[i].invocationId, s[j].invocationId))
  }

  /** A limit from 1 to 1000 is accepted; at most so many records are returned, newest first. */
  lemma AnswersInOrder(entries: seq<Name>, read: ReadEntry, matches: Record -> bool, limit: int)
    requires Readable(entries, read)
    ensures var r := QueryResult(entries, read, matches, limit);
            if limit < 1 || limit > 1000 then r == Err(InvalidLimit)
            else r.Ok? && |r.value| <= limit && NewestFirst(r.value)
  {
    if 1 <= limit <= 1000 {
      QueryExactly(entries, read, matches, limit);
      OrderMeans(Sorted(Collect(entries, read, matches).value));
    }
    hide Collect, Sorted, Readable;
  }

  lemma OrderMeans(s: seq<Record>)
    requires InOrder(s)
    ensures forall n :: 0 <= n <= |s| ==> NewestFirst(s[..n])
  {
    hide TextLess;
    forall i, j | 0 <= i < j < |s|
      ensures || s[i].completedAt.seconds > s[j].completedAt.seconds
              || (s[i].completedAt.seconds == s[j].completedAt.seconds
                  && s[i].completedAt.micros > s[j].completedAt.micros)
              || (s[i].completedAt == s[j].completedAt && TextLess(s[i].invocationId, s[j].invocationId))
    {
      assert Before(s[i], s[j]);
    }
  }

  // ----- queries over a directory that savers have left -----

  /** Reading an entry of a file system that stands still. */
  function ReadFrom(c: Codec, w: World, name: Name): Result<Record, ErrorCode> {
    if name !in w.dir || w.dir[name] !in w.data then Err(ReadFailure)
    else if |w.data[w.dir[name]]| > MAX_USAGE_RECORD_BYTES then Err(CorruptData)
    else
      match ParseRecord(c, name, w.data[w.dir[name]])
      case None => Err(CorruptData)
      case Some(r) => Ok(r)
  }

  lemma ReadsEntries(c: Codec, w: World, id: string)
    requires Lawful(c) && FilesOk(c, w.dir, w.data) && RecordName(id) in w.dir
    ensures ReadFrom(c, w, RecordName(id)).Ok?
    ensures CompleteEntry(c, w.dir, w.data, id, ReadFrom(c, w, RecordName(id)).value)
  {
    var r :| CompleteEntry(c, w.dir, w.data, id, r);
    ParsesExactly(c, RecordName(id), w.data[w.dir[RecordName(id)]], r);
    hide Canonical, Lawful, ParseRecord;
  }

  /** After any interleaving of savers, a query over the directory succeeds and lists exactly
      the published records that match. */
  lemma QueryAfterRun(c: Codec, w: World, schedule: seq<(nat, Event)>, entries: seq<Name>, matches: Record -> bool,
                      limit: int)
    requires Lawful(c) && Initial(c, w) && ValidLimit(limit)
    requires Distinct(entries) && Elements(entries) == Run(c, w, schedule).dir.Keys
    ensures var v := Run(c, w, schedule);
            var read := (n: Name) => ReadFrom(c, v, n);
            && Readable(entries, read)
            && QueryResult(entries, read, matches, limit).Ok?
            && forall r :: Stored(entries, read, r) <==> CompleteEntry(c, v.dir, v.data, r.invocationId, r)
  {
    InitialInv(c, w);
    RunSafe(c, w, schedule);
    var v := Run(c, w, schedule);
    assert FilesOk(c, v.dir, v.data);
    hide Run, Initial, Inv, FilesOk, Keeps, Lawful, Canonical, CompleteEntry;
    var read := (n: Name) => ReadFrom(c, v, n);
    forall n | n in entries && n.RecordName? ensures read(n).Ok? && RecordName(read(n).value.invocationId) == n {
      assert n in Elements(entries);
      ReadsEntries(c, v, n.id);
      EntryIdentifier(c, v, n.id, read(n).value);
    }
    QueryExactly(entries, read, matches, limit);
    forall r ensures Stored(entries, read, r) <==> CompleteEntry(c, v.dir, v.data, r.invocationId, r) {
      StoredMeans(c, v, entries, r);
    }
  }

  lemma EntryIdentifier(c: Codec, w: World, id: string, r: Record)
    requires CompleteEntry(c, w.dir, w.data, id, r)
    ensures r.invocationId == id && RecordName(id) in w.dir
  {}

  lemma StoredMeans(c: Codec, w: World, entries: seq<Name>, r: Record)
    requires Lawful(c) && FilesOk(c, w.dir, w.data) && Elements(entries) == w.dir.Keys
    ensures RecordName(r.invocationId) in entries && ReadFrom(c, w, RecordName(r.invocationId)) == Ok(r)
            <==> CompleteEntry(c, w.dir, w.data, r.invocationId, r)
  {
    var name := RecordName(r.invocationId);
    assert name in entries <==> name in Elements(entries);
    if name in w.dir {
      ReadsEntries(c, w, r.invocationId);
      var x := ReadFrom(c, w, name).value;
      if CompleteEntry(c, w.dir, w.data, r.invocationId, r) {
        EntryUnique(c, w.dir, w.data, r.invocationId, r, x);
      }
    }
    hide Lawful, FilesOk, Canonical, ParseRecord;
  }
}
