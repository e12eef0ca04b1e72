/** Savers and readers over one file system, step by step (pmqa/usage/repository.py): names
    refer to inodes, inodes to bytes, and any thread may take the next step. Which step a
    system call takes, or how it fails, is the event; a run over every sequence of events is
    every interleaving. */
module RepositoryProtocol {
  import opened Wrappers
  import opened UsageRecords
  import opened RepositoryFiles

  datatype ErrorCode =
    | InvalidConfiguration
    | InvalidRecord
    | InvalidIdentifier
    | InvalidLimit
    | DuplicateRecord
    | RecordNotFound
    | PersistenceFailure
    | ReadFailure
    | CorruptData
    | UnsupportedPublication

  /** Interrupted stands for a resource or control-flow exception that leaves the call. */
  datatype Outcome = Saved | FailedWith(code: ErrorCode) | Interrupted

  datatype SavePhase =
    | Validating
    | Preparing
    | Preflighting
    | Creating
    | Identifying(temp: nat, inode: nat)
    | Securing(temp: nat, inode: nat)
    | Writing(temp: nat, inode: nat, offset: nat)
    | Syncing(temp: nat, inode: nat)
    | Linking(temp: nat, inode: nat)
    | SyncingDirectory(temp: nat, inode: nat)
    | Releasing(temp: nat, inode: nat, outcome: Outcome)
    | Unlinking(temp: nat, inode: nat, outcome: Outcome)
    | Closing(inode: nat, outcome: Outcome)
    | SaveDone(outcome: Outcome)

  datatype ReadResult = Found(record: Record) | ReadFailed(code: ErrorCode) | ReadInterrupted

  datatype ReadPhase =
    | Requesting
    | Locating
    | Statting
    | Opening(inode: nat)
    | Verifying(stated: nat, opened_: nat)
    | Reading(file: nat, expected: nat, got: Bytes)
    | ReadDone(result: ReadResult)

  datatype Thread = Saver(record: Record, save: SavePhase) | Reader(id: string, read: ReadPhase)

  datatype World = World(dir: map<Name, nat>, data: map<nat, Bytes>, threads: seq<Thread>)

  /** How a system call can fail: an OSError, one with an errno of unsupported links, a
      NotImplementedError, or a directory check that fails. */
  datatype Fault = OsFault | UnsupportedErrno | NotImplementedFault | Misconfigured

  datatype Event = Proceed | Place(temp: nat, inode: nat) | Chunk(size: nat) | Fails(fault: Fault) | Interrupt

  // ----- savers -----

  function Payload(c: Codec, r: Record): Bytes {
    match SnapshotRecord(r)
    case None => []
    case Some(s) => c.encode(s)
  }

  predicate Acceptable(c: Codec, r: Record) {
    SnapshotRecord(r).Some? && |Payload(c, r)| <= MAX_USAGE_RECORD_BYTES
  }

  /** What a failure before the temporary file exists is reported as. */
  function EarlyCode(phase: SavePhase, fault: Fault): ErrorCode {
    match fault
    case Misconfigured => if phase.Preparing? then InvalidConfiguration else PersistenceFailure
    case NotImplementedFault => UnsupportedPublication
    case UnsupportedErrno => if phase.Preflighting? then UnsupportedPublication else PersistenceFailure
    case OsFault => PersistenceFailure
  }

  /** What a failure inside the publication block is reported as. */
  function LateCode(fault: Fault): ErrorCode {
    if fault == NotImplementedFault then UnsupportedPublication else PersistenceFailure
  }

  function LinkCode(fault: Fault): ErrorCode {
    if fault == NotImplementedFault || fault == UnsupportedErrno then UnsupportedPublication else PersistenceFailure
  }

  /** The inode a thread keeps open. */
  function Holds(t: Thread): Option<nat> {
    match t
    case Saver(_, Identifying(_, i)) => Some(i)
    case Saver(_, Securing(_, i)) => Some(i)
    case Saver(_, Writing(_, i, _)) => Some(i)
    case Saver(_, Syncing(_, i)) => Some(i)
    case Saver(_, Linking(_, i)) => Some(i)
    case Saver(_, SyncingDirectory(_, i)) => Some(i)
    case Saver(_, Releasing(_, i, _)) => Some(i)
    case Saver(_, Unlinking(_, i, _)) => Some(i)
    case Saver(_, Closing(i, _)) => Some(i)
    case Reader(_, Verifying(_, j)) => Some(j)
    case Reader(_, Reading(j, _, _)) => Some(j)
    case _ => None
  }

  /** An inode number the system may hand out: no name refers to it and no thread keeps it open. */
  predicate Free(w: World, i: nat) {
    i !in w.dir.Values && forall t :: t in w.threads ==> Holds(t) != Some(i)
  }

  /** What one step changes. */
  datatype Effect = Effect(dir: map<Name, nat>, data: map<nat, Bytes>, phase: SavePhase)

  function Quiet(w: World, phase: SavePhase): Effect {
    Effect(w.dir, w.data, phase)
  }

  function SaverStep(c: Codec, w: World, r: Record, p: SavePhase, e: Event): Effect {
    match (p, e)
    case (Validating, Interrupt) => Quiet(w, SaveDone(Interrupted))
    case (Validating, _) =>
      if Acceptable(c, r) then Quiet(w, Preparing) else Quiet(w, SaveDone(FailedWith(InvalidRecord)))
    case (Preparing, Proceed) => Quiet(w, Preflighting)
    case (Preflighting, Proceed) => Quiet(w, Creating)
    case (Creating, Place(n, i)) =>
      if TempName(n) !in w.dir && Free(w, i) then Effect(w.dir[TempName(n) := i], w.data[i := []], Identifying(n, i))
      else Quiet(w, p)
    case (Preparing, Fails(f)) => Quiet(w, SaveDone(FailedWith(EarlyCode(p, f))))
    case (Preflighting, Fails(f)) => Quiet(w, SaveDone(FailedWith(EarlyCode(p, f))))
    case (Creating, Fails(f)) => Quiet(w, SaveDone(FailedWith(EarlyCode(p, f))))
    case (Preparing, Interrupt) => Quiet(w, SaveDone(Interrupted))
    case (Preflighting, Interrupt) => Quiet(w, SaveDone(Interrupted))
    case (Creating, Interrupt) => Quiet(w, SaveDone(Interrupted))

    // Without the inode's identity the temporary name is not removed.
    case (Identifying(n, i), Proceed) => Quiet(w, Securing(n, i))
    case (Identifying(n, i), Fails(f)) => Quiet(w, Closing(i, FailedWith(LateCode(f))))
    case (Identifying(n, i), Interrupt) => Quiet(w, Closing(i, Interrupted))

    case (Securing(n, i), Proceed) => Quiet(w, Writing(n, i, 0))
    case (Securing(n, i), Fails(f)) => Quiet(w, Releasing(n, i, FailedWith(LateCode(f))))
    case (Securing(n, i), Interrupt) => Quiet(w, Releasing(n, i, Interrupted))

    case (Writing(n, i, offset), Proceed) =>
      if offset >= |Payload(c, r)| then Quiet(w, Syncing(n, i)) else Quiet(w, p)
    case (Writing(n, i, offset), Chunk(size)) =>
      var payload := Payload(c, r);
      if offset >= |payload| || i !in w.data then Quiet(w, p)
      else if size == 0 then Quiet(w, Releasing(n, i, FailedWith(PersistenceFailure)))
      else
        var written := if size > |payload| - offset then |payload| - offset else size;
        Effect(w.dir, w.data[i := w.data[i] + payload[offset..offset + written]], Writing(n, i, offset + written))
    case (Writing(n, i, _), Fails(f)) => Quiet(w, Releasing(n, i, FailedWith(LateCode(f))))
    case (Writing(n, i, _), Interrupt) => Quiet(w, Releasing(n, i, Interrupted))

    case (Syncing(n, i), Proceed) => Quiet(w, Linking(n, i))
    case (Syncing(n, i), Fails(f)) => Quiet(w, Releasing(n, i, FailedWith(LateCode(f))))
    case (Syncing(n, i), Interrupt) => Quiet(w, Releasing(n, i, Interrupted))

    // The link never replaces an existing name.
    case (Linking(n, i), Proceed) =>
      if TempName(n) !in w.dir then Quiet(w, Releasing(n, i, FailedWith(PersistenceFailure)))
      else if RecordName(r.invocationId) in w.dir then Quiet(w, Releasing(n, i, FailedWith(DuplicateRecord)))
      else Effect(w.dir[RecordName(r.invocationId) := w.dir[TempName(n)]], w.data, SyncingDirectory(n, i))
    case (Linking(n, i), Fails(f)) => Quiet(w, Releasing(n, i, FailedWith(LinkCode(f))))
    case (Linking(n, i), Interrupt) => Quiet(w, Releasing(n, i, Interrupted))

    // The record is published; a failure is reported all the same.
    case (SyncingDirectory(n, i), Proceed) => Quiet(w, Releasing(n, i, Saved))
    case (SyncingDirectory(n, i), Fails(_)) => Quiet(w, Releasing(n, i, FailedWith(PersistenceFailure)))
    case (SyncingDirectory(n, i), Interrupt) => Quiet(w, Releasing(n, i, Interrupted))

    // Only a temporary name that still refers to the own inode is removed.
    case (Releasing(n, i, o), Proceed) =>
      if TempName(n) in w.dir && w.dir[TempName(n)] == i then Quiet(w, Unlinking(n, i, o)) else Quiet(w, Closing(i, o))
    case (Releasing(n, i, o), Fails(_)) => Quiet(w, Closing(i, o))
    case (Releasing(n, i, o), Interrupt) => Quiet(w, Closing(i, Interrupted))
    case (Unlinking(n, i, o), Proceed) => Effect(w.dir - {TempName(n)}, w.data, Closing(i, o))
    case (Unlinking(n, i, o), Fails(_)) => Quiet(w, Closing(i, o))
    case (Unlinking(n, i, o), Interrupt) => Quiet(w, Closing(i, Interrupted))

    case (Closing(i, o), Interrupt) => Quiet(w, SaveDone(Interrupted))
    case (Closing(i, o), _) => Quiet(w, SaveDone(o))
    case _ => Quiet(w, p)
  }

  // ----- readers -----

  function ReaderStep(c: Codec, w: World, id: string, p: ReadPhase, e: Event): ReadPhase {
    var target := RecordName(id);
    if p.ReadDone? then p
    else if e.Interrupt? then ReadDone(ReadInterrupted)
    else if p.Requesting? && !ValidIdentifier(id) then ReadDone(ReadFailed(InvalidIdentifier))
    else if e.Fails? then ReadDone(ReadFailed(ReadFailure))
    else
      match p
      case Requesting => Locating
      case Locating => if target in w.dir then Statting else ReadDone(ReadFailed(RecordNotFound))
      case Statting =>
        if target !in w.dir || w.dir[target] !in w.data then ReadDone(ReadFailed(ReadFailure))
        else if |w.data[w.dir[target]]| > MAX_USAGE_RECORD_BYTES then ReadDone(ReadFailed(CorruptData))
        else Opening(w.dir[target])
      case Opening(i) => if target in w.dir then Verifying(i, w.dir[target]) else ReadDone(ReadFailed(ReadFailure))
      case Verifying(i, j) =>
        if j != i || j !in w.data || |w.data[j]| > MAX_USAGE_RECORD_BYTES then ReadDone(ReadFailed(CorruptData))
        else Reading(j, |w.data[j]|, [])
      case Reading(j, expected, got) =>
        if j !in w.data || |w.data[j]| < |got| then ReadDone(ReadFailed(ReadFailure))
        else if |got| < expected then
          var available := w.data[j][|got|..];
          var wanted := if expected - |got| > READ_CHUNK then READ_CHUNK else expected - |got|;
          var size := if e.Chunk? && 0 < e.size < wanted then e.size else wanted;
          if available == [] then ReadDone(ReadFailed(ReadFailure))
          else Reading(j, expected, got + available[..if size > |available| then |available| else size])
        else if |w.data[j]| > |got| then ReadDone(ReadFailed(ReadFailure))
        else
          match ParseRecord(c, target, got)
          case None => ReadDone(ReadFailed(CorruptData))
          case Some(r) => ReadDone(Found(r))
  }

  // ----- runs -----

  function Step(c: Codec, w: World, tid: nat, e: Event): (v: World)
    ensures |v.threads| == |w.threads|
  {
    if tid >= |w.threads| then w
    else
      match w.threads[tid]
      case Saver(r, p) =>
        var f := SaverStep(c, w, r, p, e);
        World(f.dir, f.data, w.threads[tid := Saver(r, f.phase)])
      case Reader(id, p) => w.(threads := w.threads[tid := Reader(id, ReaderStep(c, w, id, p, e))])
  }

  function Run(c: Codec, w: World, schedule: seq<(nat, Event)>): (v: World)
    ensures |v.threads| == |w.threads|
  {
    if schedule == [] then w
    else
      var last := schedule[|schedule| - 1];
      Step(c, Run(c, w, schedule[..|schedule| - 1]), last.0, last.1)
  }

  // ----- the invariant -----

  /** The name refers to the complete canonical bytes of one record. */
  predicate CompleteEntry(c: Codec, dir: map<Name, nat>, data: map<nat, Bytes>, id: string, r: Record) {
    && RecordName(id) in dir && dir[RecordName(id)] in data
    && Canonical(r) && r.invocationId == id
    && data[dir[RecordName(id)]] == c.encode(r) && |c.encode(r)| <= MAX_USAGE_RECORD_BYTES
  }

  ghost predicate FilesOk(c: Codec, dir: map<Name, nat>, data: map<nat, Bytes>) {
    && (forall n :: n in dir ==> dir[n] in data)
    && (forall id :: RecordName(id) in dir ==> exists r :: CompleteEntry(c, dir, data, id, r))
  }

  /** The temporary name is this saver's, and no record name refers to its inode yet. */
  predicate OwnsTemp(dir: map<Name, nat>, n: nat, i: nat) {
    TempName(n) in dir && dir[TempName(n)] == i
  }

  ghost predicate Unpublished(dir: map<Name, nat>, i: nat) {
    forall id :: RecordName(id) in dir ==> dir[RecordName(id)] != i
  }

  predicate Holding(data: map<nat, Bytes>, i: nat, content: Bytes) {
    i in data && data[i] == content
  }

  predicate Published(c: Codec, dir: map<Name, nat>, data: map<nat, Bytes>, r: Record) {
    SnapshotRecord(r).Some? && CompleteEntry(c, dir, data, r.invocationId, SnapshotRecord(r).value)
  }

  /** A verdict is truthful: saved means published, duplicate means the name exists. */
  predicate Truthful(c: Codec, dir: map<Name, nat>, data: map<nat, Bytes>, r: Record, o: Outcome) {
    && (o == Saved ==> Published(c, dir, data, r))
    && (o == FailedWith(DuplicateRecord) ==> RecordName(r.invocationId) in dir)
  }

  ghost predicate SaverOk(c: Codec, dir: map<Name, nat>, data: map<nat, Bytes>, r: Record, p: SavePhase) {
    match p
    case Validating => true
    case Preparing => Acceptable(c, r)
    case Preflighting => Acceptable(c, r)
    case Creating => Acceptable(c, r)
    case Identifying(n, i) => Acceptable(c, r) && OwnsTemp(dir, n, i) && Unpublished(dir, i) && Holding(data, i, [])
    case Securing(n, i) => Acceptable(c, r) && OwnsTemp(dir, n, i) && Unpublished(dir, i) && Holding(data, i, [])
    case Writing(n, i, offset) =>
      && Acceptable(c, r) && OwnsTemp(dir, n, i) && Unpublished(dir, i)
      && offset <= |Payload(c, r)| && Holding(data, i, Payload(c, r)[..offset])
    case Syncing(n, i) => Acceptable(c, r) && OwnsTemp(dir, n, i) && Unpublished(dir, i)
      && Holding(data, i, Payload(c, r))
    case Linking(n, i) => Acceptable(c, r) && OwnsTemp(dir, n, i) && Unpublished(dir, i)
      && Holding(data, i, Payload(c, r))
    case SyncingDirectory(n, i) => OwnsTemp(dir, n, i) && Published(c, dir, data, r)
    case Releasing(n, i, o) => OwnsTemp(dir, n, i) && Truthful(c, dir, data, r, o)
    case Unlinking(n, i, o) => OwnsTemp(dir, n, i) && Truthful(c, dir, data, r, o)
    case Closing(_, o) => Truthful(c, dir, data, r, o)
    case SaveDone(o) => Truthful(c, dir, data, r, o)
  }

  /** From the moment a reader has seen the name, the name leads it to one complete record. */
  predicate ReaderOk(c: Codec, dir: map<Name, nat>, data: map<nat, Bytes>, id: string, p: ReadPhase) {
    var target := RecordName(id);
    match p
    case Requesting => true
    case Locating => true
    case Statting => target in dir
    case Opening(i) => target in dir && dir[target] == i
    case Verifying(i, j) => target in dir && dir[target] == i == j
    case Reading(j, expected, got) =>
      target in dir && dir[target] == j && j in data && expected == |data[j]| && got <= data[j]
    case ReadDone(Found(r)) => CompleteEntry(c, dir, data, id, r)
    case ReadDone(ReadFailed(code)) => code != CorruptData
    case ReadDone(ReadInterrupted) => true
  }

  ghost predicate ThreadOk(c: Codec, dir: map<Name, nat>, data: map<nat, Bytes>, t: Thread) {
    match t
    case Saver(r, p) => SaverOk(c, dir, data, r, p)
    case Reader(id, p) => ReaderOk(c, dir, data, id, p)
  }

  /** This saver linked its record's name and has not reported a failure. */
  predicate Publishing(t: Thread) {
    t.Saver? &&
    match t.save
    case SyncingDirectory(_, _) => true
    case Releasing(_, _, o) => o == Saved
    case Unlinking(_, _, o) => o == Saved
    case Closing(_, o) => o == Saved
    case SaveDone(o) => o == Saved
    case _ => false
  }

  /** Two savers share no inode, and do not both publish the same identifier. */
  predicate Apart(t: Thread, u: Thread) {
    t.Saver? && u.Saver? ==>
      && (Holds(t).Some? ==> Holds(t) != Holds(u))
      && !(Publishing(t) && Publishing(u) && t.record.invocationId == u.record.invocationId)
  }

  ghost predicate Inv(c: Codec, w: World) {
    && FilesOk(c, w.dir, w.data)
    && (forall k :: 0 <= k < |w.threads| ==> ThreadOk(c, w.dir, w.data, w.threads[k]))
    && (forall j, k :: 0 <= j < |w.threads| && 0 <= k < |w.threads| && j != k ==> Apart(w.threads[j], w.threads[k]))
  }

  /** Record entries stay, with the same inode and the same bytes. */
  ghost predicate Keeps(w: World, v: World) {
    forall id :: RecordName(id) in w.dir ==>
                   && RecordName(id) in v.dir && v.dir[RecordName(id)] == w.dir[RecordName(id)]
                   && w.dir[RecordName(id)] in w.data && w.dir[RecordName(id)] in v.data
                   && v.data[w.dir[RecordName(id)]] == w.data[w.dir[RecordName(id)]]
  }

  // ----- one lemma for every kind of change -----

  /** The directory and the bytes that threads other than the one that moves rely on are kept. */
  ghost predicate Frames(w: World, tid: nat, dir: map<Name, nat>, data: map<nat, Bytes>)
    requires tid < |w.threads|
  {
    && Keeps(w, World(dir, data, w.threads))
    && forall k :: 0 <= k < |w.threads| && k != tid && w.threads[k].Saver? && Holds(w.threads[k]).Some? ==>
                     var i := Holds(w.threads[k]).value;
                     && (forall n :: OwnsTemp(w.dir, n, i) ==> OwnsTemp(dir, n, i))
                     && (Unpublished(w.dir, i) ==> Unpublished(dir, i))
                     && (i in w.data ==> i in data && data[i] == w.data[i])
  }

  lemma KeptEntry(c: Codec, w: World, v: World, id: string, r: Record)
    requires Keeps(w, v) && CompleteEntry(c, w.dir, w.data, id, r)
    ensures CompleteEntry(c, v.dir, v.data, id, r)
  {
    hide Canonical;
  }

  lemma FramesKeeps(w: World, tid: nat, dir: map<Name, nat>, data: map<nat, Bytes>)
    requires tid < |w.threads| && Frames(w, tid, dir, data)
    ensures Keeps(w, World(dir, data, w.threads))
  {}

  lemma FramesAt(w: World, tid: nat, dir: map<Name, nat>, data: map<nat, Bytes>, k: nat, i: nat)
    requires tid < |w.threads| && k < |w.threads| && k != tid && w.threads[k].Saver?
    requires Frames(w, tid, dir, data) && Holds(w.threads[k]) == Some(i)
    ensures forall n :: OwnsTemp(w.dir, n, i) ==> OwnsTemp(dir, n, i)
    ensures Unpublished(w.dir, i) ==> Unpublished(dir, i)
    ensures forall content :: Holding(w.data, i, content) ==> Holding(data, i, content)
  {
    hide Keeps, OwnsTemp, Unpublished;
  }

  lemma TruthKept(c: Codec, w: World, v: World, r: Record, o: Outcome)
    requires Keeps(w, v)
    ensures Published(c, w.dir, w.data, r) ==> Published(c, v.dir, v.data, r)
    ensures Truthful(c, w.dir, w.data, r, o) ==> Truthful(c, v.dir, v.data, r, o)
  {
    if Published(c, w.dir, w.data, r) {
      KeptEntry(c, w, v, r.invocationId, SnapshotRecord(r).value);
    }
    hide CompleteEntry, SnapshotRecord;
  }

  function OutcomeOf(p: SavePhase): Outcome {
    match p
    case Releasing(_, _, o) => o
    case Unlinking(_, _, o) => o
    case Closing(_, o) => o
    case SaveDone(o) => o
    case _ => Interrupted
  }

  lemma FramedSaver(c: Codec, w: World, tid: nat, dir: map<Name, nat>, data: map<nat, Bytes>, k: nat)
    requires tid < |w.threads| && k < |w.threads| && k != tid && w.threads[k].Saver?
    requires Frames(w, tid, dir, data) && ThreadOk(c, w.dir, w.data, w.threads[k])
    ensures ThreadOk(c, dir, data, w.threads[k])
  {
    hide Unpublished, OwnsTemp, Acceptable, Published, Truthful, Frames, Payload, Holding, Keeps;
    var t := w.threads[k];
    FramesKeeps(w, tid, dir, data);
    TruthKept(c, w, World(dir, data, w.threads), t.record, OutcomeOf(t.save));
    if Holds(t).Some? {
      FramesAt(w, tid, dir, data, k, Holds(t).value);
    }
  }

  lemma FramedReader(c: Codec, w: World, dir: map<Name, nat>, data: map<nat, Bytes>, t: Thread)
    requires Keeps(w, World(dir, data, w.threads)) && t.Reader? && ThreadOk(c, w.dir, w.data, t)
    ensures ThreadOk(c, dir, data, t)
  {
    hide Canonical;
  }

  lemma FramedThreads(c: Codec, w: World, tid: nat, dir: map<Name, nat>, data: map<nat, Bytes>)
    requires tid < |w.threads| && Frames(w, tid, dir, data) && Inv(c, w)
    ensures forall k :: 0 <= k < |w.threads| && k != tid ==> ThreadOk(c, dir, data, w.threads[k])
  {
    hide ThreadOk, Frames, Keeps, FilesOk, Apart;
    forall k | 0 <= k < |w.threads| && k != tid ensures ThreadOk(c, dir, data, w.threads[k]) {
      if w.threads[k].Saver? {
        FramedSaver(c, w, tid, dir, data, k);
      } else {
        FramesKeeps(w, tid, dir, data);
        FramedReader(c, w, dir, data, w.threads[k]);
      }
    }
  }

  /** The thread that moved is apart from every other. */
  predicate ApartFromOthers(w: World, tid: nat, t: Thread)
    requires tid < |w.threads|
  {
    forall k :: 0 <= k < |w.threads| && k != tid ==> Apart(t, w.threads[k]) && Apart(w.threads[k], t)
  }

  lemma ThreadMoves(c: Codec, w: World, tid: nat, dir: map<Name, nat>, data: map<nat, Bytes>, t: Thread)
    requires Inv(c, w) && tid < |w.threads| && Frames(w, tid, dir, data)
    requires FilesOk(c, dir, data) && ThreadOk(c, dir, data, t) && ApartFromOthers(w, tid, t)
    ensures Inv(c, World(dir, data, w.threads[tid := t])) && Keeps(w, World(dir, data, w.threads[tid := t]))
  {
    FramedThreads(c, w, tid, dir, data);
    FramesKeeps(w, tid, dir, data);
    hide ThreadOk, Frames, FilesOk, Apart;
  }

  lemma FilesKeep(c: Codec, w: World)
    requires FilesOk(c, w.dir, w.data)
    ensures Keeps(w, w)
  {
    hide CompleteEntry;
  }

  /** A step that touches no file. */
  lemma QuietFrames(c: Codec, w: World, tid: nat)
    requires tid < |w.threads| && FilesOk(c, w.dir, w.data)
    ensures Frames(w, tid, w.dir, w.data)
  {
    FilesKeep(c, w);
    hide FilesOk, Keeps, Unpublished, OwnsTemp;
  }

  // ----- file changes -----

  lemma CreateFrames(c: Codec, w: World, tid: nat, n: nat, i: nat)
    requires Inv(c, w) && tid < |w.threads| && TempName(n) !in w.dir && Free(w, i)
    ensures var dir, data := w.dir[TempName(n) := i], w.data[i := []];
            Frames(w, tid, dir, data) && FilesOk(c, dir, data) && OwnsTemp(dir, n, i) && Unpublished(dir, i)
              && Holding(data, i, [])
  {
    hide ThreadOk, Canonical;
    var dir, data := w.dir[TempName(n) := i], w.data[i := []];
    forall m | m in w.dir ensures w.dir[m] != i && dir[m] == w.dir[m] && w.dir[m] in data
        && data[w.dir[m]] == w.data[w.dir[m]] {
      assert w.dir[m] in w.dir.Values;
    }
    forall k | 0 <= k < |w.threads| ensures Holds(w.threads[k]) != Some(i) {
      assert w.threads[k] in w.threads;
    }
    forall id | RecordName(id) in dir ensures exists r :: CompleteEntry(c, dir, data, id, r) {
      var r :| CompleteEntry(c, w.dir, w.data, id, r);
      assert CompleteEntry(c, dir, data, id, r);
    }
  }

  lemma WriteFrames(c: Codec, w: World, tid: nat, i: nat, content: Bytes)
    requires Inv(c, w) && tid < |w.threads| && w.threads[tid].Saver? && Holds(w.threads[tid]) == Some(i)
    requires Unpublished(w.dir, i) && i in w.data
    ensures Frames(w, tid, w.dir, w.data[i := content]) && FilesOk(c, w.dir, w.data[i := content])
  {
    hide ThreadOk, Canonical;
    var data := w.data[i := content];
    forall id | RecordName(id) in w.dir ensures exists r :: CompleteEntry(c, w.dir, data, id, r) {
      var r :| CompleteEntry(c, w.dir, w.data, id, r);
      assert CompleteEntry(c, w.dir, data, id, r);
    }
    forall k | 0 <= k < |w.threads| && k != tid && w.threads[k].Saver? ensures Holds(w.threads[k]) != Some(i) {
      assert Apart(w.threads[tid], w.threads[k]);
    }
  }

  lemma LinkFrames(c: Codec, w: World, tid: nat, id: string, i: nat, r: Record)
    requires Inv(c, w) && tid < |w.threads| && w.threads[tid].Saver? && Holds(w.threads[tid]) == Some(i)
    requires RecordName(id) !in w.dir && i in w.data
    requires Canonical(r) && r.invocationId == id && w.data[i] == c.encode(r) && |c.encode(r)| <= MAX_USAGE_RECORD_BYTES
    ensures var dir := w.dir[RecordName(id) := i];
            Frames(w, tid, dir, w.data) && FilesOk(c, dir, w.data) && CompleteEntry(c, dir, w.data, id, r)
  {
    hide ThreadOk, Canonical;
    var dir := w.dir[RecordName(id) := i];
    assert CompleteEntry(c, dir, w.data, id, r);
    forall x | RecordName(x) in dir ensures exists y :: CompleteEntry(c, dir, w.data, x, y) {
      if x != id {
        var y :| CompleteEntry(c, w.dir, w.data, x, y);
        assert CompleteEntry(c, dir, w.data, x, y);
      }
    }
    forall k | 0 <= k < |w.threads| && k != tid && w.threads[k].Saver? ensures Holds(w.threads[k]) != Some(i) {
      assert Apart(w.threads[tid], w.threads[k]);
    }
  }

  lemma UnlinkFrames(c: Codec, w: World, tid: nat, n: nat, i: nat)
    requires Inv(c, w) && tid < |w.threads| && w.threads[tid].Saver? && Holds(w.threads[tid]) == Some(i)
             && OwnsTemp(w.dir, n, i)
    ensures Frames(w, tid, w.dir - {TempName(n)}, w.data) && FilesOk(c, w.dir - {TempName(n)}, w.data)
  {
    hide ThreadOk, Canonical;
    var dir := w.dir - {TempName(n)};
    forall id | RecordName(id) in dir ensures exists r :: CompleteEntry(c, dir, w.data, id, r) {
      var r :| CompleteEntry(c, w.dir, w.data, id, r);
      assert CompleteEntry(c, dir, w.data, id, r);
    }
    forall k | 0 <= k < |w.threads| && k != tid && w.threads[k].Saver? ensures Holds(w.threads[k]) != Some(i) {
      assert Apart(w.threads[tid], w.threads[k]);
    }
  }

  // ----- steps -----

  /** Moving on with the same open inode, or with none, and no new publication. */
  lemma StaysApart(c: Codec, w: World, tid: nat, t: Thread)
    requires Inv(c, w) && tid < |w.threads|
    requires t.Saver? <==> w.threads[tid].Saver?
    requires t.Saver? ==> t.record == w.threads[tid].record
    requires Holds(t).None? || Holds(t) == Holds(w.threads[tid])
    requires Publishing(t) ==> Publishing(w.threads[tid])
    ensures ApartFromOthers(w, tid, t)
  {
    forall k | 0 <= k < |w.threads| && k != tid ensures Apart(t, w.threads[k]) && Apart(w.threads[k], t) {
      assert Apart(w.threads[tid], w.threads[k]) && Apart(w.threads[k], w.threads[tid]);
    }
  }

  lemma QuietStep(c: Codec, w: World, tid: nat, t: Thread)
    requires Inv(c, w) && tid < |w.threads|
    requires t.Saver? <==> w.threads[tid].Saver?
    requires t.Saver? ==> t.record == w.threads[tid].record
    requires Holds(t).None? || Holds(t) == Holds(w.threads[tid])
    requires Publishing(t) ==> Publishing(w.threads[tid])
    requires ThreadOk(c, w.dir, w.data, t)
    ensures var v := w.(threads := w.threads[tid := t]);
            Inv(c, v) && Keeps(w, v)
  {
    StaysApart(c, w, tid, t);
    QuietFrames(c, w, tid);
    ThreadMoves(c, w, tid, w.dir, w.data, t);
  }

  /** Creating the temporary file: its inode is new to every thread. */
  lemma CreateStep(c: Codec, w: World, tid: nat, r: Record, n: nat, i: nat)
    requires Inv(c, w) && tid < |w.threads| && w.threads[tid] == Saver(r, Creating)
    requires TempName(n) !in w.dir && Free(w, i)
    ensures var v := World(w.dir[TempName(n) := i], w.data[i := []], w.threads[tid := Saver(r, Identifying(n, i))]);
            Inv(c, v) && Keeps(w, v)
  {
    var t := Saver(r, Identifying(n, i));
    CreateFrames(c, w, tid, n, i);
    assert ThreadOk(c, w.dir, w.data, w.threads[tid]);
    forall k | 0 <= k < |w.threads| && k != tid ensures Apart(t, w.threads[k]) && Apart(w.threads[k], t) {
      assert w.threads[k] in w.threads && Holds(w.threads[k]) != Some(i);
    }
    hide Inv, Frames, FilesOk, Free;
    ThreadMoves(c, w, tid, w.dir[TempName(n) := i], w.data[i := []], t);
  }

  lemma WriteStep(c: Codec, w: World, tid: nat, r: Record, n: nat, i: nat, offset: nat, written: nat)
    requires Inv(c, w) && tid < |w.threads| && w.threads[tid] == Saver(r, Writing(n, i, offset))
    requires offset + written <= |Payload(c, r)| && i in w.data
    ensures var v := World(w.dir, w.data[i := w.data[i] + Payload(c, r)[offset..offset + written]],
                           w.threads[tid := Saver(r, Writing(n, i, offset + written))]);
            Inv(c, v) && Keeps(w, v)
  {
    var t := Saver(r, Writing(n, i, offset + written));
    var content := w.data[i] + Payload(c, r)[offset..offset + written];
    assert ThreadOk(c, w.dir, w.data, w.threads[tid]);
    assert content == Payload(c, r)[..offset + written];
    WriteFrames(c, w, tid, i, content);
    StaysApart(c, w, tid, t);
    hide Inv, Frames, FilesOk, Acceptable, Payload, Unpublished, ApartFromOthers;
    ThreadMoves(c, w, tid, w.dir, w.data[i := content], t);
  }

  /** Linking: the name did not exist, so no other saver has published it. */
  lemma LinkStep(c: Codec, w: World, tid: nat, r: Record, n: nat, i: nat)
    requires Inv(c, w) && tid < |w.threads| && w.threads[tid] == Saver(r, Linking(n, i))
    requires RecordName(r.invocationId) !in w.dir
    ensures OwnsTemp(w.dir, n, i)
    ensures var v := World(w.dir[RecordName(r.invocationId) := i], w.data,
                           w.threads[tid := Saver(r, SyncingDirectory(n, i))]);
            Inv(c, v) && Keeps(w, v)
  {
    LinkingHolds(c, w, tid, r, n, i);
    LinkedFiles(c, w, tid, r, n, i);
    LinkedApart(c, w, tid, r, n, i);
    hide Inv, Frames, FilesOk, Published, ApartFromOthers, Keeps, OwnsTemp;
    ThreadMoves(c, w, tid, w.dir[RecordName(r.invocationId) := i], w.data, Saver(r, SyncingDirectory(n, i)));
  }

  /** Before the link: the temporary name is its own, and the inode holds the whole snapshot. */
  lemma LinkingHolds(c: Codec, w: World, tid: nat, r: Record, n: nat, i: nat)
    requires Inv(c, w) && tid < |w.threads| && w.threads[tid] == Saver(r, Linking(n, i))
    ensures OwnsTemp(w.dir, n, i) && Acceptable(c, r) && Holding(w.data, i, Payload(c, r))
  {
    hide FilesOk, Apart, Acceptable, Payload, OwnsTemp, Unpublished, Holding;
    assert ThreadOk(c, w.dir, w.data, w.threads[tid]);
  }

  lemma LinkedFiles(c: Codec, w: World, tid: nat, r: Record, n: nat, i: nat)
    requires Inv(c, w) && tid < |w.threads| && w.threads[tid] == Saver(r, Linking(n, i))
    requires RecordName(r.invocationId) !in w.dir
    requires OwnsTemp(w.dir, n, i) && Acceptable(c, r) && Holding(w.data, i, Payload(c, r))
    ensures var dir := w.dir[RecordName(r.invocationId) := i];
            Frames(w, tid, dir, w.data) && FilesOk(c, dir, w.data) && OwnsTemp(dir, n, i)
              && Published(c, dir, w.data, r)
  {
    LinkedRecord(c, r);
    hide Inv, Frames, FilesOk, CompleteEntry, Payload, Canonical, SnapshotRecord;
    LinkFrames(c, w, tid, r.invocationId, i, SnapshotRecord(r).value);
  }

  lemma LinkedApart(c: Codec, w: World, tid: nat, r: Record, n: nat, i: nat)
    requires Inv(c, w) && tid < |w.threads| && w.threads[tid] == Saver(r, Linking(n, i))
    requires RecordName(r.invocationId) !in w.dir
    ensures ApartFromOthers(w, tid, Saver(r, SyncingDirectory(n, i)))
  {
    hide FilesOk, ThreadOk, Publishing;
    var t := Saver(r, SyncingDirectory(n, i));
    forall k | 0 <= k < |w.threads| && k != tid ensures Apart(t, w.threads[k]) && Apart(w.threads[k], t) {
      NotYetPublished(c, w, k, r.invocationId);
      assert Apart(w.threads[tid], w.threads[k]) && Apart(w.threads[k], w.threads[tid]);
    }
  }

  lemma LinkedRecord(c: Codec, r: Record)
    requires Acceptable(c, r)
    ensures var s := SnapshotRecord(r).value;
            Canonical(s) && s.invocationId == r.invocationId && Payload(c, r) == c.encode(s)
              && |c.encode(s)| <= MAX_USAGE_RECORD_BYTES
  {
    SnapshotIsCanonical(r);
  }

  lemma NotYetPublished(c: Codec, w: World, k: nat, id: string)
    requires Inv(c, w) && k < |w.threads| && RecordName(id) !in w.dir
    ensures Publishing(w.threads[k]) ==> w.threads[k].record.invocationId != id
  {
    assert ThreadOk(c, w.dir, w.data, w.threads[k]);
  }

  lemma ClosedIsTruthful(c: Codec, dir: map<Name, nat>, data: map<nat, Bytes>, r: Record, n: nat, i: nat, o: Outcome)
    requires SaverOk(c, dir, data, r, Unlinking(n, i, o))
    ensures OwnsTemp(dir, n, i) && SaverOk(c, dir - {TempName(n)}, data, r, Closing(i, o))
  {
    hide SnapshotRecord, Canonical;
  }

  lemma UnlinkStep(c: Codec, w: World, tid: nat, r: Record, n: nat, i: nat, o: Outcome)
    requires Inv(c, w) && tid < |w.threads| && w.threads[tid] == Saver(r, Unlinking(n, i, o))
    ensures var v := World(w.dir - {TempName(n)}, w.data, w.threads[tid := Saver(r, Closing(i, o))]);
            Inv(c, v) && Keeps(w, v)
  {
    var t := Saver(r, Closing(i, o));
    assert ThreadOk(c, w.dir, w.data, w.threads[tid]);
    hide FilesOk, SaverOk, Frames, Apart, OwnsTemp, ApartFromOthers;
    ClosedIsTruthful(c, w.dir, w.data, r, n, i, o);
    UnlinkFrames(c, w, tid, n, i);
    StaysApart(c, w, tid, t);
    hide Inv;
    ThreadMoves(c, w, tid, w.dir - {TempName(n)}, w.data, t);
  }

  /** What a step that touches no file needs in order to keep the invariant. */
  ghost predicate QuietMove(c: Codec, w: World, tid: nat, r: Record, p: SavePhase)
    requires tid < |w.threads|
  {
    var t := Saver(r, p);
    && ThreadOk(c, w.dir, w.data, t)
    && (Holds(t).None? || Holds(t) == Holds(w.threads[tid]))
    && (Publishing(t) ==> Publishing(w.threads[tid]))
  }

  lemma EarlyMoves(c: Codec, w: World, tid: nat, r: Record, p: SavePhase, e: Event)
    requires tid < |w.threads| && w.threads[tid] == Saver(r, p) && ThreadOk(c, w.dir, w.data, w.threads[tid])
    requires p.Validating? || p.Preparing? || p.Preflighting? || (p.Creating? && !e.Place?)
    ensures var f := SaverStep(c, w, r, p, e);
            f.dir == w.dir && f.data == w.data && QuietMove(c, w, tid, r, f.phase)
  {
    hide Unpublished, Acceptable, Published, OwnsTemp, Free, Payload;
  }

  lemma IdentifyingMoves(c: Codec, w: World, tid: nat, r: Record, p: SavePhase, e: Event)
    requires tid < |w.threads| && w.threads[tid] == Saver(r, p) && ThreadOk(c, w.dir, w.data, w.threads[tid])
    requires p.Identifying? || p.Syncing?
    ensures var f := SaverStep(c, w, r, p, e);
            f.dir == w.dir && f.data == w.data && QuietMove(c, w, tid, r, f.phase)
  {
    hide Unpublished, Acceptable, Published, OwnsTemp, Free, Payload, Holding;
  }

  lemma SecuringMoves(c: Codec, w: World, tid: nat, r: Record, p: SavePhase, e: Event)
    requires tid < |w.threads| && w.threads[tid] == Saver(r, p) && ThreadOk(c, w.dir, w.data, w.threads[tid])
    requires p.Securing?
    ensures var f := SaverStep(c, w, r, p, e);
            f.dir == w.dir && f.data == w.data && QuietMove(c, w, tid, r, f.phase)
  {
    assert Payload(c, r)[..0] == [];
    hide Unpublished, Acceptable, Published, OwnsTemp, Free, Payload;
  }

  lemma WritingMoves(c: Codec, w: World, tid: nat, r: Record, p: SavePhase, e: Event)
    requires tid < |w.threads| && w.threads[tid] == Saver(r, p) && ThreadOk(c, w.dir, w.data, w.threads[tid])
    requires p.Writing? && (e.Chunk? ==> p.offset >= |Payload(c, r)| || e.size == 0)
    ensures var f := SaverStep(c, w, r, p, e);
            f.dir == w.dir && f.data == w.data && QuietMove(c, w, tid, r, f.phase)
  {
    hide Unpublished, Acceptable, Published, OwnsTemp, Free, Payload, Holding;
    WrittenAll(c, w, p, r);
  }

  /** An offset at the end of the payload means that all of it has been written. */
  lemma WrittenAll(c: Codec, w: World, p: SavePhase, r: Record)
    requires p.Writing?
    ensures p.offset == |Payload(c, r)| && Holding(w.data, p.inode, Payload(c, r)[..p.offset]) ==>
              Holding(w.data, p.inode, Payload(c, r))
  {
    hide Payload;
    assert Payload(c, r)[..|Payload(c, r)|] == Payload(c, r);
  }

  lemma LinkingMoves(c: Codec, w: World, tid: nat, r: Record, p: SavePhase, e: Event)
    requires tid < |w.threads| && w.threads[tid] == Saver(r, p) && ThreadOk(c, w.dir, w.data, w.threads[tid])
    requires p.SyncingDirectory? || (p.Linking? && (e.Proceed? ==> RecordName(r.invocationId) in w.dir))
    ensures var f := SaverStep(c, w, r, p, e);
            f.dir == w.dir && f.data == w.data && QuietMove(c, w, tid, r, f.phase)
  {
    hide Unpublished, Acceptable, Published, Free, Payload;
  }

  lemma ReleasingMoves(c: Codec, w: World, tid: nat, r: Record, p: SavePhase, e: Event)
    requires tid < |w.threads| && w.threads[tid] == Saver(r, p) && ThreadOk(c, w.dir, w.data, w.threads[tid])
    requires p.Releasing? || (p.Unlinking? && !e.Proceed?) || p.Closing? || p.SaveDone?
    ensures var f := SaverStep(c, w, r, p, e);
            f.dir == w.dir && f.data == w.data && QuietMove(c, w, tid, r, f.phase)
  {
    hide Unpublished, Acceptable, Published, OwnsTemp, Free, Payload;
  }

  lemma QuietSaver(c: Codec, w: World, tid: nat, r: Record, p: SavePhase, e: Event)
    requires Inv(c, w) && tid < |w.threads| && w.threads[tid] == Saver(r, p)
    requires var f := SaverStep(c, w, r, p, e);
             f.dir == w.dir && f.data == w.data && QuietMove(c, w, tid, r, f.phase)
    ensures Inv(c, Step(c, w, tid, e)) && Keeps(w, Step(c, w, tid, e))
  {
    QuietStep(c, w, tid, Saver(r, SaverStep(c, w, r, p, e).phase));
    hide SaverStep, Inv, Keeps;
  }

  /** The four kinds of steps that change files. */
  predicate ChangesFiles(c: Codec, w: World, r: Record, p: SavePhase, e: Event) {
    || (p.Creating? && e.Place? && TempName(e.temp) !in w.dir && Free(w, e.inode))
    || (p.Writing? && e.Chunk? && p.offset < |Payload(c, r)| && e.size > 0)
    || (p.Linking? && e.Proceed? && RecordName(r.invocationId) !in w.dir)
    || (p.Unlinking? && e.Proceed?)
  }

  lemma CreatingChanges(c: Codec, w: World, tid: nat, r: Record, e: Event)
    requires tid < |w.threads| && w.threads[tid] == Saver(r, Creating) && e.Place? && TempName(e.temp) !in w.dir
             && Free(w, e.inode)
    ensures Step(c, w, tid, e) == World(w.dir[TempName(e.temp) := e.inode], w.data[e.inode := []],
                                        w.threads[tid := Saver(r, Identifying(e.temp, e.inode))])
  {
    hide Free, Acceptable;
  }

  lemma WritingChanges(c: Codec, w: World, tid: nat, r: Record, p: SavePhase, e: Event) returns (written: nat)
    requires tid < |w.threads| && w.threads[tid] == Saver(r, p) && p.Writing? && p.inode in w.data
    requires e.Chunk? && p.offset < |Payload(c, r)| && e.size > 0
    ensures p.offset + written <= |Payload(c, r)|
    ensures Step(c, w, tid, e) == World(w.dir,
                                        w.data[p.inode := w.data[p.inode] + Payload(c,
                                        r)[p.offset..p.offset + written]],
                                        w.threads[tid := Saver(r, Writing(p.temp, p.inode, p.offset + written))])
  {
    hide Free, Acceptable, Payload;
    written := if e.size > |Payload(c, r)| - p.offset then |Payload(c, r)| - p.offset else e.size;
  }

  lemma LinkingChanges(c: Codec, w: World, tid: nat, r: Record, n: nat, i: nat)
    requires tid < |w.threads| && w.threads[tid] == Saver(r, Linking(n, i)) && RecordName(r.invocationId) !in w.dir
    requires TempName(n) in w.dir && w.dir[TempName(n)] == i
    ensures Step(c, w, tid, Proceed) == World(w.dir[RecordName(r.invocationId) := i], w.data,
                                              w.threads[tid := Saver(r, SyncingDirectory(n, i))])
  {
    hide Free, Acceptable;
  }

  lemma UnlinkingChanges(c: Codec, w: World, tid: nat, r: Record, n: nat, i: nat, o: Outcome)
    requires tid < |w.threads| && w.threads[tid] == Saver(r, Unlinking(n, i, o))
    ensures Step(c, w, tid, Proceed) == World(w.dir - {TempName(n)}, w.data, w.threads[tid := Saver(r, Closing(i, o))])
  {
    hide Free, Acceptable;
  }

  lemma ChangingStep(c: Codec, w: World, tid: nat, r: Record, p: SavePhase, e: Event)
    requires Inv(c, w) && tid < |w.threads| && w.threads[tid] == Saver(r, p) && ChangesFiles(c, w, r, p, e)
    ensures Inv(c, Step(c, w, tid, e)) && Keeps(w, Step(c, w, tid, e))
  {
    hide Inv, Keeps, Free, Payload, Step;
    match p
    case Creating =>
      CreateStep(c, w, tid, r, e.temp, e.inode);
      CreatingChanges(c, w, tid, r, e);
    case Writing(n, i, offset) =>
      WritingHolds(c, w, tid, r, p);
      var written := WritingChanges(c, w, tid, r, p, e);
      WriteStep(c, w, tid, r, n, i, offset, written);
    case Linking(n, i) =>
      LinkStep(c, w, tid, r, n, i);
      LinkingChanges(c, w, tid, r, n, i);
    case Unlinking(n, i, o) =>
      UnlinkStep(c, w, tid, r, n, i, o);
      UnlinkingChanges(c, w, tid, r, n, i, o);
  }

  lemma WritingHolds(c: Codec, w: World, tid: nat, r: Record, p: SavePhase)
    requires Inv(c, w) && tid < |w.threads| && w.threads[tid] == Saver(r, p) && p.Writing?
    ensures p.inode in w.data
  {
    hide FilesOk, Apart;
    assert ThreadOk(c, w.dir, w.data, w.threads[tid]);
  }

  lemma CreatingWaits(c: Codec, w: World, tid: nat, r: Record, e: Event)
    requires tid < |w.threads| && w.threads[tid] == Saver(r, Creating) && ThreadOk(c, w.dir, w.data, w.threads[tid])
    requires e.Place? && !ChangesFiles(c, w, r, Creating, e)
    ensures var f := SaverStep(c, w, r, Creating, e);
            f.dir == w.dir && f.data == w.data && QuietMove(c, w, tid, r, f.phase)
  {
    hide Free, Acceptable;
  }

  lemma SaverStepSafe(c: Codec, w: World, tid: nat, r: Record, p: SavePhase, e: Event)
    requires Inv(c, w) && tid < |w.threads| && w.threads[tid] == Saver(r, p)
    ensures Inv(c, Step(c, w, tid, e)) && Keeps(w, Step(c, w, tid, e))
  {
    assert ThreadOk(c, w.dir, w.data, w.threads[tid]);
    if ChangesFiles(c, w, r, p, e) {
      ChangingStep(c, w, tid, r, p, e);
    } else {
      hide Inv, Keeps, ThreadOk, QuietMove, Free, SaverStep, Payload, Step;
      if p.Creating? && e.Place? {
        CreatingWaits(c, w, tid, r, e);
      } else if p.Validating? || p.Preparing? || p.Preflighting? || p.Creating? {
        EarlyMoves(c, w, tid, r, p, e);
      } else if p.Identifying? || p.Syncing? {
        IdentifyingMoves(c, w, tid, r, p, e);
      } else if p.Securing? {
        SecuringMoves(c, w, tid, r, p, e);
      } else if p.Writing? {
        WritingMoves(c, w, tid, r, p, e);
      } else if p.Linking? || p.SyncingDirectory? {
        LinkingMoves(c, w, tid, r, p, e);
      } else {
        ReleasingMoves(c, w, tid, r, p, e);
      }
      QuietSaver(c, w, tid, r, p, e);
    }
  }

  lemma EntryUnique(c: Codec, dir: map<Name, nat>, data: map<nat, Bytes>, id: string, a: Record, b: Record)
    requires Lawful(c) && CompleteEntry(c, dir, data, id, a) && CompleteEntry(c, dir, data, id, b)
    ensures a == b
  {
    assert c.decode(c.encode(a)) == Some(a) && c.decode(c.encode(b)) == Some(b);
    hide Canonical;
  }

  lemma ReaderMoves(c: Codec, w: World, id: string, p: ReadPhase, e: Event)
    requires Lawful(c) && FilesOk(c, w.dir, w.data) && ReaderOk(c, w.dir, w.data, id, p)
    ensures ReaderOk(c, w.dir, w.data, id, ReaderStep(c, w, id, p, e))
  {
    var target := RecordName(id);
    if target in w.dir {
      var r :| CompleteEntry(c, w.dir, w.data, id, r);
      ParsesExactly(c, target, w.data[w.dir[target]], r);
      hide Canonical, Lawful, FilesOk, ParseRecord, ValidIdentifier;
      ReadMore(c, w, id, p, e, r);
    } else {
      hide Canonical, Lawful, FilesOk, ParseRecord, ValidIdentifier;
    }
  }

  lemma ReadMore(c: Codec, w: World, id: string, p: ReadPhase, e: Event, r: Record)
    requires CompleteEntry(c, w.dir, w.data, id, r) && ReaderOk(c, w.dir, w.data, id, p)
    requires ParseRecord(c, RecordName(id), w.data[w.dir[RecordName(id)]]) == Some(r)
    ensures ReaderOk(c, w.dir, w.data, id, ReaderStep(c, w, id, p, e))
  {
    hide Canonical, ParseRecord, ValidIdentifier;
    if p.Reading? {
      var content := w.data[p.file];
      assert content == content[..|p.got|] + content[|p.got|..];
      assert |p.got| == |content| ==> p.got == content;
    }
  }

  /** Every step keeps the invariant and every record entry, whatever the event. */
  lemma StepSafe(c: Codec, w: World, tid: nat, e: Event)
    requires Lawful(c) && Inv(c, w)
    ensures Inv(c, Step(c, w, tid, e)) && Keeps(w, Step(c, w, tid, e))
  {
    if tid >= |w.threads| {
      FilesKeep(c, w);
    } else {
      match w.threads[tid]
      case Saver(r, p) => SaverStepSafe(c, w, tid, r, p, e);
      case Reader(id, p) =>
        assert ThreadOk(c, w.dir, w.data, w.threads[tid]);
        ReaderMoves(c, w, id, p, e);
        ReaderInodes(c, w, tid, id, p, e);
    }
  }

  lemma ReaderInodes(c: Codec, w: World, tid: nat, id: string, p: ReadPhase, e: Event)
    requires Inv(c, w) && tid < |w.threads| && w.threads[tid] == Reader(id, p)
    requires ReaderOk(c, w.dir, w.data, id, ReaderStep(c, w, id, p, e))
    ensures var v := w.(threads := w.threads[tid := Reader(id, ReaderStep(c, w, id, p, e))]);
            Inv(c, v) && Keeps(w, v)
  {
    var t := Reader(id, ReaderStep(c, w, id, p, e));
    QuietFrames(c, w, tid);
    forall k | 0 <= k < |w.threads| && k != tid ensures Apart(t, w.threads[k]) && Apart(w.threads[k], t) {}
    hide ReaderStep, ReaderOk, Frames, FilesOk;
    ThreadMoves(c, w, tid, w.dir, w.data, t);
  }

  lemma KeepsTransitive(u: World, v: World, w: World)
    requires Keeps(u, v) && Keeps(v, w)
    ensures Keeps(u, w)
  {}

  // ----- runs -----

  /** Every call is about to start; record entries found are complete. */
  ghost predicate Initial(c: Codec, w: World) {
    && FilesOk(c, w.dir, w.data)
    && forall t :: t in w.threads ==> (t.Saver? && t.save == Validating) || (t.Reader? && t.read == Requesting)
  }

  lemma RunSplits(c: Codec, w: World, schedule: seq<(nat, Event)>)
    requires schedule != []
    ensures var n := |schedule| - 1;
            Run(c, w, schedule) == Step(c, Run(c, w, schedule[..n]), schedule[n].0, schedule[n].1)
    ensures schedule[..|schedule|] == schedule
    ensures forall i :: 0 <= i < |schedule| ==> schedule[..|schedule| - 1][..i] == schedule[..i]
  {
    hide Step;
  }

  lemma {:induction false} RunAppend(c: Codec, w: World, a: seq<(nat, Event)>, b: seq<(nat, Event)>)
    ensures Run(c, w, a + b) == Run(c, Run(c, w, a), b)
  {
    hide Step;
    var s := a + b;
    if b == [] {
      assert s == a;
    } else {
      RunAppend(c, w, a, b[..|b| - 1]);
      assert s[..|s| - 1] == a + b[..|b| - 1];
    }
  }

  lemma InitialInv(c: Codec, w: World)
    requires Initial(c, w)
    ensures Inv(c, w)
  {
    hide FilesOk;
    forall k | 0 <= k < |w.threads| ensures ThreadOk(c, w.dir, w.data, w.threads[k]) && !Publishing(w.threads[k])
        && Holds(w.threads[k]).None? {
      assert w.threads[k] in w.threads;
    }
  }

  /** Over every interleaving a record name refers, from its first appearance on, to the same
      inode with the same bytes, and those are the complete canonical bytes of one record. */
  lemma {:induction false} RunSafe(c: Codec, w: World, schedule: seq<(nat, Event)>)
    requires Lawful(c) && Inv(c, w)
    ensures Inv(c, Run(c, w, schedule)) && Keeps(w, Run(c, w, schedule))
  {
    hide Inv, Keeps, Lawful, SaverStep, ReaderStep;
    if schedule == [] {
      StartKeeps(c, w);
    } else {
      var init, last := schedule[..|schedule| - 1], schedule[|schedule| - 1];
      RunSafe(c, w, init);
      StepSafe(c, Run(c, w, init), last.0, last.1);
      KeepsTransitive(w, Run(c, w, init), Run(c, w, schedule));
    }
  }

  lemma StartKeeps(c: Codec, w: World)
    requires Inv(c, w)
    ensures Keeps(w, w)
  {
    FilesKeep(c, w);
  }

  /** At most one save of an identifier succeeds, and a save that succeeded has published
      exactly its own record. */
  lemma SavesOnce(c: Codec, w: World, schedule: seq<(nat, Event)>, j: nat, k: nat)
    requires Lawful(c) && Initial(c, w) && j < |w.threads| && k < |w.threads| && j != k
    requires Run(c, w, schedule).threads[j].Saver? && Run(c, w, schedule).threads[j].save == SaveDone(Saved)
    ensures var v := Run(c, w, schedule);
            && Published(c, v.dir, v.data, v.threads[j].record)
            && !(v.threads[k].Saver? && v.threads[k].save == SaveDone(Saved)
                 && v.threads[k].record.invocationId == v.threads[j].record.invocationId)
  {
    hide Run, Initial, FilesOk, Published, Keeps;
    InitialInv(c, w);
    RunSafe(c, w, schedule);
    var v := Run(c, w, schedule);
    assert ThreadOk(c, v.dir, v.data, v.threads[j]);
    assert Apart(v.threads[j], v.threads[k]);
  }

  /** A duplicate verdict is truthful: some complete record has the name. */
  lemma DuplicateIsReal(c: Codec, w: World, schedule: seq<(nat, Event)>, k: nat)
    requires Lawful(c) && Initial(c, w) && k < |w.threads|
    requires Run(c, w, schedule).threads[k].Saver?
             && Run(c, w, schedule).threads[k].save == SaveDone(FailedWith(DuplicateRecord))
    ensures var v := Run(c, w, schedule);
            exists r :: CompleteEntry(c, v.dir, v.data, v.threads[k].record.invocationId, r)
  {
    hide Run, Initial, CompleteEntry, Keeps;
    InitialInv(c, w);
    RunSafe(c, w, schedule);
    var v := Run(c, w, schedule);
    assert ThreadOk(c, v.dir, v.data, v.threads[k]);
  }

  // ----- a failure report for a published record -----

  lemma RunOne(c: Codec, w: World, schedule: seq<(nat, Event)>, e: Event)
    ensures Run(c, w, schedule + [(0, e)]) == Step(c, Run(c, w, schedule), 0, e)
  {
    var s := schedule + [(0, e)];
    assert s[..|s| - 1] == schedule && s[|s| - 1] == (0, e);
  }

  /** Calls that have not opened a file. */
  predicate NoneOpen(ts: seq<Thread>) {
    forall t :: t in ts ==> Holds(t).None?
  }

  /** A save in an empty directory, up to the link, beside calls that have not opened a file. */
  lemma LinkIsReachable(c: Codec, r: Record, others: seq<Thread>) returns (schedule: seq<(nat, Event)>)
    requires Acceptable(c, r) && NoneOpen(others)
    ensures Run(c, World(map[], map[], [Saver(r, Validating)] + others), schedule).threads
         == [Saver(r, SyncingDirectory(0, 0))] + others
  {
    var w := World(map[], map[], [Saver(r, Validating)] + others);
    hide Run, Acceptable, Payload, NoneOpen;
    schedule := [];
    StartsEmpty(c, w);
    var v := w;
    for k := 0 to 10
      invariant Run(c, w, schedule) == v
      invariant v == Milestone(c, r, others, k)
    {
      RunOne(c, w, schedule, MilestoneEvent(k));
      MilestoneStep(c, r, others, k);
      schedule := schedule + [(0, MilestoneEvent(k))];
      v := Step(c, v, 0, MilestoneEvent(k));
    }
  }

  lemma StartsEmpty(c: Codec, w: World)
    ensures Run(c, w, []) == w
  {}

  function MilestoneEvent(k: nat): Event {
    if k == 3 then Place(0, 0) else if k == 6 then Chunk(MAX_USAGE_RECORD_BYTES) else Proceed
  }

  function MilestonePhase(c: Codec, r: Record, k: nat): SavePhase {
    match k
    case 0 => Validating
    case 1 => Preparing
    case 2 => Preflighting
    case 3 => Creating
    case 4 => Identifying(0, 0)
    case 5 => Securing(0, 0)
    case 6 => Writing(0, 0, 0)
    case 7 => Writing(0, 0, |Payload(c, r)|)
    case 8 => Syncing(0, 0)
    case 9 => Linking(0, 0)
    case _ => SyncingDirectory(0, 0)
  }

  function Milestone(c: Codec, r: Record, others: seq<Thread>, k: nat): World {
    World(if k < 4 then map[] else if k < 10 then map[TempName(0) := 0]
          else map[TempName(0) := 0, RecordName(r.invocationId) := 0],
          if k < 4 then map[] else if k < 7 then map[0 := []] else map[0 := Payload(c, r)],
          [Saver(r, MilestonePhase(c, r, k))] + others)
  }

  lemma MilestoneStep(c: Codec, r: Record, others: seq<Thread>, k: nat)
    requires Acceptable(c, r) && NoneOpen(others) && k < 10
    ensures Step(c, Milestone(c, r, others, k), 0, MilestoneEvent(k)) == Milestone(c, r, others, k + 1)
  {
    hide Step, Milestone, Acceptable, NoneOpen;
    if k < 6 {
      EarlyMilestone(c, r, others, k);
    } else if k == 6 {
      WritingMilestone(c, r, others);
    } else {
      LateMilestone(c, r, others, k);
    }
  }

  lemma Moved(r: Record, p: SavePhase, q: SavePhase, others: seq<Thread>)
    ensures ([Saver(r, p)] + others)[0 := Saver(r, q)] == [Saver(r, q)] + others
  {}

  lemma NothingHeld(w: World)
    requires NoneOpen(w.threads) && w.dir == map[]
    ensures Free(w, 0)
  {}

  lemma EarlyMilestone(c: Codec, r: Record, others: seq<Thread>, k: nat)
    requires Acceptable(c, r) && NoneOpen(others) && k < 6
    ensures Step(c, Milestone(c, r, others, k), 0, MilestoneEvent(k)) == Milestone(c, r, others, k + 1)
  {
    var w := Milestone(c, r, others, k);
    if k == 3 {
      assert NoneOpen(w.threads);
      NothingHeld(w);
    }
    hide Payload, Free, NoneOpen;
    var f := SaverStep(c, w, r, MilestonePhase(c, r, k), MilestoneEvent(k));
    Moved(r, MilestonePhase(c, r, k), f.phase, others);
  }

  lemma WritingMilestone(c: Codec, r: Record, others: seq<Thread>)
    requires Acceptable(c, r)
    ensures Step(c, Milestone(c, r, others, 6), 0, MilestoneEvent(6)) == Milestone(c, r, others, 7)
  {
    var w := Milestone(c, r, others, 6);
    WholePayload(Payload(c, r));
    var f := SaverStep(c, w, r, Writing(0, 0, 0), Chunk(MAX_USAGE_RECORD_BYTES));
    Moved(r, Writing(0, 0, 0), f.phase, others);
    hide Payload, Free;
    assert Payload(c, r) == [] ==> w.data == map[0 := Payload(c, r)];
  }

  lemma LateMilestone(c: Codec, r: Record, others: seq<Thread>, k: nat)
    requires Acceptable(c, r) && 7 <= k < 10
    ensures Step(c, Milestone(c, r, others, k), 0, MilestoneEvent(k)) == Milestone(c, r, others, k + 1)
  {
    hide Payload, Free, Acceptable;
    var w := Milestone(c, r, others, k);
    var f := SaverStep(c, w, r, MilestonePhase(c, r, k), Proceed);
    Moved(r, MilestonePhase(c, r, k), f.phase, others);
  }

  lemma WholePayload(payload: Bytes)
    ensures var none: Bytes := []; none + payload[0..|payload|] == payload && none + payload[0..0] == none
    ensures |payload| == 0 ==> payload == []
  {}

  /** A save can report a failure for a record it has published: when synchronizing the
      directory fails after the link, the call ends as a persistence failure while the name
      already refers to the complete record. */
  lemma FailureAfterPublication(c: Codec, w: World, k: nat, r: Record, n: nat, i: nat)
    requires Lawful(c) && Inv(c, w) && k < |w.threads| && w.threads[k] == Saver(r, SyncingDirectory(n, i))
    ensures var v := Run(c, w, [(k, Fails(OsFault)), (k, Fails(OsFault)), (k, Proceed)]);
            v.threads[k] == Saver(r, SaveDone(FailedWith(PersistenceFailure))) && Published(c, v.dir, v.data, r)
  {
    var s: seq<(nat, Event)> := [(k, Fails(OsFault)), (k, Fails(OsFault)), (k, Proceed)];
    hide SaverStep, Step, CompleteEntry, SnapshotRecord, Lawful, Inv, Keeps, Run;
    FailureSteps(c, w, k, r, n, i);
    ThreeSteps(c, w, s);
    LinkedIsPublished(c, w, k, r, n, i);
    RunSafe(c, w, s);
    KeptEntry(c, w, Run(c, w, s), r.invocationId, SnapshotRecord(r).value);
  }

  lemma LinkedIsPublished(c: Codec, w: World, k: nat, r: Record, n: nat, i: nat)
    requires Inv(c, w) && k < |w.threads| && w.threads[k] == Saver(r, SyncingDirectory(n, i))
    ensures Published(c, w.dir, w.data, r)
  {
    hide FilesOk, Apart, Published;
    assert ThreadOk(c, w.dir, w.data, w.threads[k]);
  }

  lemma ThreeSteps(c: Codec, w: World, s: seq<(nat, Event)>)
    requires |s| == 3
    ensures Run(c, w, s) == Step(c, Step(c, Step(c, w, s[0].0, s[0].1), s[1].0, s[1].1), s[2].0, s[2].1)
  {
    hide Step;
    assert |s[..2][..1][..0]| == 0 && s[..2][..1] == s[..1] && s[..1][..0] == s[..0];
    assert Run(c, w, s[..0]) == w;
    assert Run(c, w, s[..1]) == Step(c, w, s[0].0, s[0].1);
    assert Run(c, w, s[..2]) == Step(c, Run(c, w, s[..1]), s[1].0, s[1].1);
  }

  lemma FailureSteps(c: Codec, w: World, k: nat, r: Record, n: nat, i: nat)
    requires k < |w.threads| && w.threads[k] == Saver(r, SyncingDirectory(n, i))
    ensures Step(c, Step(c, Step(c, w, k, Fails(OsFault)), k, Fails(OsFault)), k, Proceed).threads[k]
            == Saver(r, SaveDone(FailedWith(PersistenceFailure)))
  {
    hide Free, Acceptable, Payload;
    var w1 := Step(c, w, k, Fails(OsFault));
    assert w1.threads[k] == Saver(r, Releasing(n, i, FailedWith(PersistenceFailure)));
    var w2 := Step(c, w1, k, Fails(OsFault));
    assert w2.threads[k] == Saver(r, Closing(i, FailedWith(PersistenceFailure)));
  }
}
