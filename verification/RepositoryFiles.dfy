/** Record files of the usage repository (pmqa/usage/repository.py): canonical bytes, strict
    parsing, and the loops that write and read one open file. */
module RepositoryFiles {
  import opened Wrappers
  import opened Decimals
  import opened Amounts
  import opened UsageRecords

  type Bytes = seq<bv8>

  const MAX_USAGE_RECORD_BYTES: nat := 1_048_576
  const READ_CHUNK: nat := 65_536

  /** A directory entry: the digest of an identifier, kept as its preimage; a temporary name;
      or any other name. */
  datatype Name = RecordName(id: string) | TempName(number: nat) | OtherName(text: string)

  /** The JSON text of a record and the record a text decodes to. */
  datatype Codec = Codec(encode: Record -> Bytes, decode: Bytes -> Option<Record>)

  /** A record that reconstructing from its own dictionary leaves as it is. */
  predicate Canonical(r: Record) {
    SnapshotRecord(r) == Some(r)
  }

  ghost predicate Lawful(c: Codec) {
    forall r: Record :: Canonical(r) ==> c.decode(c.encode(r)) == Some(r)
  }

  lemma AmountIsStable(d: Decimal)
    requires CanonicalDecimal(FromDecimal(d)).Some?
    ensures SnapshotAmount(Some(d)).Some? && AdmittedAmount(SnapshotAmount(Some(d)))
    ensures SnapshotAmount(SnapshotAmount(Some(d))) == SnapshotAmount(Some(d))
  {
    AdmittedRoundTrip(FromDecimal(d));
    var s := Serialize(d);
    var t := CanonicalDecimal(FromText(s)).value;
    TextAdmission(s);
    TextFixedPoint(s);
    AdmittedRoundTrip(FromText(s));
  }

  /** Snapshots are canonical: taking a snapshot again changes nothing. */
  lemma SnapshotIsCanonical(r: Record)
    requires ValidRecord(r)
    ensures SnapshotRecord(r).Some? && Canonical(SnapshotRecord(r).value)
    ensures SnapshotRecord(r).value.invocationId == r.invocationId
  {
    SnapshotIsValid(r);
    if r.cost.amount.Some? {
      AmountIsStable(r.cost.amount.value);
    }
  }

  // ----- parsing -----

  /** The strict reading of a file: nothing but the canonical bytes of the record that the
      file's own name stands for. */
  function ParseRecord(c: Codec, name: Name, raw: Bytes): Option<Record> {
    match c.decode(raw)
    case None => None
    case Some(r) =>
      if SnapshotRecord(r) != Some(r) then None
      else if RecordName(r.invocationId) != name then None
      else if c.encode(r) != raw then None
      else Some(r)
  }

  /** Parsing accepts exactly the canonical bytes, and gives back the record they encode. */
  lemma ParsesExactly(c: Codec, name: Name, raw: Bytes, r: Record)
    requires Lawful(c)
    ensures ParseRecord(c, name, raw) == Some(r) <==>
            Canonical(r) && name == RecordName(r.invocationId) && raw == c.encode(r)
  {
    hide SnapshotRecord;
  }

  // ----- one open file -----

  class OpenFile {
    var content: Bytes

    constructor ()
      ensures content == []
    {
      content := [];
    }

    /** Writes until everything is written; the n-th call of the system writes and returns
        answers(n), never more than it is given. Whatever happens, what the file holds is what
        it held and a prefix of the payload, all of it exactly on success. */
    method WriteAll(payload: Bytes, answers: nat -> int) returns (ok: bool)
      modifies this
      ensures exists k :: 0 <= k <= |payload| && content == old(content) + payload[..k] && (ok <==> k == |payload|)
      ensures (forall n: nat :: answers(n) > 0) ==> ok
    {
      var offset, calls := 0, 0;
      while offset < |payload|
        invariant 0 <= offset <= |payload| && content == old(content) + payload[..offset]
        decreases |payload| - offset
      {
        var rest := payload[offset..];
        var written := if answers(calls) > |rest| then |rest| else answers(calls);
        calls := calls + 1;
        if written <= 0 {
          return false;
        }
        content := content + rest[..written];
        assert payload[..offset + written] == payload[..offset] + rest[..written];
        offset := offset + written;
      }
      ok := true;
    }

    /** What one read call gives at a position: nothing only at the end of the file. */
    function Read(position: nat, size: nat, answer: nat): (r: Bytes)
      requires position <= |content|
      reads this
      ensures r <= content[position..] && |r| <= size
      ensures |r| == 0 <==> size == 0 || position == |content|
    {
      var available := content[position..];
      var n := if answer < 1 then 1 else answer;
      var m := if n > size then size else n;
      available[..if m > |available| then |available| else m]
    }

    /** Succeeds exactly when the file holds as many bytes as announced, with all of them. */
    method ReadExact(expected: nat, answers: nat -> nat) returns (r: Option<Bytes>)
      ensures r == if |content| == expected then Some(content) else None
    {
      var chunks: Bytes := [];
      var calls := 0;
      var remaining := expected;
      while remaining > 0
        invariant remaining >= 0 && chunks <= content && |chunks| + remaining == expected
        decreases remaining
      {
        var chunk := Read(|chunks|, if remaining > READ_CHUNK then READ_CHUNK else remaining, answers(calls));
        calls := calls + 1;
        if |chunk| == 0 {
          return None;
        }
        assert chunks + chunk <= content by {
          assert content == content[..|chunks|] + content[|chunks|..];
        }
        chunks := chunks + chunk;
        remaining := remaining - |chunk|;
      }
      if |Read(|chunks|, 1, 1)| != 0 {
        return None;
      }
      assert chunks == content[..|chunks|] == content;
      r := Some(chunks);
    }
  }
}
