/** What an undisturbed get answers over any directory, whatever the files hold
    (pmqa/usage/repository.py, get, _read_record and _parse_record): foreign, oversized and
    altered files included. */
module RepositoryLoneRead {
  import opened Wrappers
  import opened UsageRecords
  import opened RepositoryFiles
  import opened RepositoryProtocol
  import opened RepositoryReads
  import opened RepositoryQuery

  /** These bytes are exactly the canonical text of record r, and r has this identifier. */
  predicate CanonicalBytes(c: Codec, id: string, bytes: Bytes, r: Record) {
    && c.decode(bytes) == Some(r) && c.encode(r) == bytes
    && SnapshotRecord(r) == Some(r) && r.invocationId == id
  }

  /** The file of an identifier, whatever it holds. */
  predicate HasFile(w: World, id: string) {
    RecordName(id) in w.dir && w.dir[RecordName(id)] in w.data
  }

  function FileOf(w: World, id: string): Bytes
    requires HasFile(w, id)
  {
    w.data[w.dir[RecordName(id)]]
  }

  /** What a get of this identifier answers: a malformed identifier is refused before anything is
      read, a missing record is reported as missing, and a file is a record only if it is within
      the size limit and nothing but the canonical bytes of the record it is named after. */
  ghost predicate Answers(c: Codec, w: World, id: string, result: ReadResult) {
    if !ValidIdentifier(id) then result == ReadFailed(InvalidIdentifier)
    else if RecordName(id) !in w.dir then result == ReadFailed(RecordNotFound)
    else if !HasFile(w, id) then result == ReadFailed(ReadFailure)
    else if |FileOf(w, id)| > 1_048_576 then result == ReadFailed(CorruptData)
    else
      match result
      case Found(r) => CanonicalBytes(c, id, FileOf(w, id), r)
      case ReadFailed(code) => code == CorruptData && forall r :: !CanonicalBytes(c, id, FileOf(w, id), r)
      case ReadInterrupted => false
  }

  // ----- the steps of an undisturbed get -----

  predicate Fitting(w: World, id: string) {
    ValidIdentifier(id) && HasFile(w, id) && |FileOf(w, id)| <= MAX_USAGE_RECORD_BYTES
  }

  /** Where a get over a directory at rest can be. */
  predicate OnTrack(w: World, id: string, p: ReadPhase) {
    match p
    case Requesting => true
    case Locating => ValidIdentifier(id)
    case Statting => ValidIdentifier(id) && RecordName(id) in w.dir
    case Opening(i) => Fitting(w, id) && i == w.dir[RecordName(id)]
    case Verifying(i, j) => Fitting(w, id) && i == w.dir[RecordName(id)] && j == i
    case Reading(j, expected, got) =>
      Fitting(w, id) && j == w.dir[RecordName(id)] && expected == |FileOf(w, id)| && got <= FileOf(w, id)
    case ReadDone(_) => true
  }

  lemma LoneStep(c: Codec, w: World, id: string, p: ReadPhase)
    requires OnTrack(w, id, p) && !p.ReadDone?
    ensures var q := ReaderStep(c, w, id, p, Proceed);
            if q.ReadDone? then Answers(c, w, id, q.result)
            else OnTrack(w, id, q) && 0 < Remaining(q) < Remaining(p)
  {
    hide SnapshotRecord, ValidIdentifier, ParseRecord;
    if p.Reading? {
      LoneChunk(c, w, id, p.file, p.expected, p.got);
    }
  }

  lemma LoneChunk(c: Codec, w: World, id: string, j: nat, expected: nat, got: Bytes)
    requires OnTrack(w, id, Reading(j, expected, got))
    ensures var q := ReaderStep(c, w, id, Reading(j, expected, got), Proceed);
            if q.ReadDone? then Answers(c, w, id, q.result)
            else OnTrack(w, id, q) && 0 < Remaining(q) < Remaining(Reading(j, expected, got))
  {
    hide ValidIdentifier;
    var file := FileOf(w, id);
    if |got| == expected {
      assert got == file;
      LoneParse(c, id, file);
    } else {
      var wanted := if expected - |got| > READ_CHUNK then READ_CHUNK else expected - |got|;
      assert got + file[|got|..][..wanted] == file[..|got| + wanted];
    }
    hide SnapshotRecord, ParseRecord;
  }

  /** Parsing accepts nothing but the canonical bytes of the record with this identifier. */
  lemma LoneParse(c: Codec, id: string, bytes: Bytes)
    ensures match ParseRecord(c, RecordName(id), bytes)
            case Some(r) => CanonicalBytes(c, id, bytes, r)
            case None => forall r :: !CanonicalBytes(c, id, bytes, r)
  {
    hide SnapshotRecord;
  }

  lemma {:induction false} LoneReadProgress(c: Codec, w: World, k: nat, id: string, n: nat)
    requires k < |w.threads| && w.threads[k] == Reader(id, Requesting)
    ensures var v := Run(c, w, Alone(k, n));
            && v.dir == w.dir && v.data == w.data && v.threads[k].Reader? && v.threads[k].id == id
            && var p := v.threads[k].read;
               if p.ReadDone? then Answers(c, w, id, p.result)
               else OnTrack(w, id, p) && 0 < Remaining(p) <= READ_STEPS - n
  {
    hide Answers, OnTrack, ReaderStep, SaverStep;
    if n == 0 {
      StartsOnTrack(w, id);
    } else {
      LoneReadProgress(c, w, k, id, n - 1);
      var u := Run(c, w, Alone(k, n - 1));
      assert Alone(k, n)[..n - 1] == Alone(k, n - 1) && Alone(k, n)[n - 1] == (k, Proceed);
      assert Run(c, w, Alone(k, n)) == Step(c, u, k, Proceed);
      SameFiles(c, w, u, id, u.threads[k].read);
      if u.threads[k].read.ReadDone? {
        DoneStays(c, u, id, u.threads[k].read);
      } else {
        LoneStep(c, w, id, u.threads[k].read);
      }
    }
  }

  lemma StartsOnTrack(w: World, id: string)
    ensures OnTrack(w, id, Requesting)
  {}

  lemma DoneStays(c: Codec, w: World, id: string, p: ReadPhase)
    requires p.ReadDone?
    ensures ReaderStep(c, w, id, p, Proceed) == p
  {}

  lemma SameFiles(c: Codec, w: World, u: World, id: string, p: ReadPhase)
    requires u.dir == w.dir && u.data == w.data
    ensures ReaderStep(c, u, id, p, Proceed) == ReaderStep(c, w, id, p, Proceed)
  {
    hide ParseRecord, ValidIdentifier;
  }

  /** A get that meets no trouble over a directory at rest ends with exactly that answer, and
      changes no file. */
  lemma LoneReadAnswers(c: Codec, w: World, k: nat, id: string, n: nat)
    requires k < |w.threads| && w.threads[k] == Reader(id, Requesting) && n >= READ_STEPS
    ensures var v := Run(c, w, Alone(k, n));
            && v.dir == w.dir && v.data == w.data
            && v.threads[k].Reader? && v.threads[k].read.ReadDone?
            && Answers(c, w, id, v.threads[k].read.result)
  {
    LoneReadProgress(c, w, k, id, n);
  }

  /** The answer is determined by the directory and the file. */
  lemma AnswersAgree(c: Codec, w: World, id: string, a: ReadResult, b: ReadResult)
    requires Answers(c, w, id, a) && Answers(c, w, id, b)
    ensures a == b
  {
    hide ValidIdentifier, SnapshotRecord;
  }

  /** A query reads each record file it lists as a get of its identifier would. */
  lemma ScanReadsAlike(c: Codec, w: World, id: string)
    requires ValidIdentifier(id) && RecordName(id) in w.dir
    ensures Answers(c, w, id,
                    match ReadFrom(c, w, RecordName(id)) case Ok(r) => Found(r) case Err(code) => ReadFailed(code))
  {
    hide ValidIdentifier;
    if HasFile(w, id) {
      LoneParse(c, id, FileOf(w, id));
    }
    hide ParseRecord, SnapshotRecord;
  }
}
