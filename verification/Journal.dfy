/** The durable journal: its record format, and what a scan of a journal recovers. */
module Journal {
  import opened Words
  import opened Outcomes
  import opened Codec
  import opened Crc32c
  import opened Model
  import opened StateCodec

  // ----- Records -----

  const RECORD_MAGIC: nat := 0x3152_4749
  const JOURNAL_VERSION: nat := 1
  const RECORD_HEADER_BYTES: nat := 16
  const MAX_RECORD: nat := 0x4_0000
  const RECORD_TYPES: nat := 7
  const STATE_COMMIT: nat := 1

  const RECORD_FIELDS: seq<Kind> := [U32, U16, U16, U32, U32]

  type RecordType = t: nat | 1 <= t <= RECORD_TYPES witness 1

  datatype Record = Record(kind: RecordType, payload: seq<byte>)

  function HeaderOf(kind: nat, payload: seq<byte>): seq<byte> {
    PutRun(RECORD_FIELDS, [RECORD_MAGIC, JOURNAL_VERSION, kind, |payload|, Checksum(payload)])
  }

  function EncodeRecord(r: Record): seq<byte> { HeaderOf(r.kind, r.payload) + r.payload }

  lemma FieldWidths()
    ensures RunWidth(RECORD_FIELDS) == RECORD_HEADER_BYTES
  {
    assert RunWidth(RECORD_FIELDS[4..]) == 4;
    assert RunWidth(RECORD_FIELDS[3..]) == 8;
    assert RunWidth(RECORD_FIELDS[2..]) == 10;
    assert RunWidth(RECORD_FIELDS[1..]) == 12;
  }

  /** The fields of a header. */
  function HeaderFields(bytes: seq<byte>): (vs: seq<int>)
    requires |bytes| >= RECORD_HEADER_BYTES
    ensures |vs| == 5 && vs[3] >= 0 && TakeRun(RECORD_FIELDS, bytes).Ok? && vs == TakeRun(RECORD_FIELDS, bytes).value.0
  {
    FieldWidths();
    TakeRunShort(RECORD_FIELDS, bytes);
    var vs := TakeRun(RECORD_FIELDS, bytes).value.0;
    assert vs[3] >= 0 by { assert RECORD_FIELDS[3] == U32; }
    vs
  }

  /** The record at the front of some bytes, and how many bytes it takes. */
  function DecodeRecord(bytes: seq<byte>): (r: Outcome<(Record, nat)>)
    ensures r.Ok? ==> RECORD_HEADER_BYTES <= r.value.1 <= |bytes|
    ensures r.Ok? ==> r.value.1 == RECORD_HEADER_BYTES + |r.value.0.payload|
    ensures r.Ok? ==> r.value.0.payload == bytes[RECORD_HEADER_BYTES..r.value.1]
  {
    if |bytes| < RECORD_HEADER_BYTES then Err(TruncatedInput)
    else
      var vs := HeaderFields(bytes);
      if vs[0] != RECORD_MAGIC then Err(CorruptState)
      else if vs[1] != JOURNAL_VERSION then Err(UnsupportedVersion)
      else if vs[2] <= 0 || vs[2] > RECORD_TYPES then Err(CorruptState)
      else if vs[3] > MAX_RECORD then Err(OversizedInput)
      else
        var end := RECORD_HEADER_BYTES + vs[3];
        if |bytes| < end then Err(TruncatedInput)
        else if Checksum(bytes[RECORD_HEADER_BYTES..end]) != vs[4] then Err(ChecksumMismatch)
        else Ok((Record(vs[2], bytes[RECORD_HEADER_BYTES..end]), end))
  }

  lemma HeaderThen(r: Record, rest: seq<byte>)
    requires |r.payload| <= MAX_RECORD
    ensures |HeaderOf(r.kind, r.payload)| == RECORD_HEADER_BYTES
    ensures TakeRun(RECORD_FIELDS, HeaderOf(r.kind, r.payload) + rest)
         == Ok(([RECORD_MAGIC, JOURNAL_VERSION, r.kind, |r.payload|, Checksum(r.payload)], rest))
  {
    hide TakeRun, PutRun, Checksum;
    FieldWidths();
    var vs := [RECORD_MAGIC, JOURNAL_VERSION, r.kind, |r.payload|, Checksum(r.payload)];
    RunLength(RECORD_FIELDS, vs);
    TakeRunAfterPutRun(RECORD_FIELDS, vs, rest);
  }

  /** An encoded record is read back exactly, whatever follows it. */
  lemma RecordRoundTrip(r: Record, rest: seq<byte>)
    requires |r.payload| <= MAX_RECORD
    ensures DecodeRecord(EncodeRecord(r) + rest) == Ok((r, |EncodeRecord(r)|))
    ensures |EncodeRecord(r)| == RECORD_HEADER_BYTES + |r.payload|
  {
    hide HeaderOf, TakeRun, Checksum;
    HeaderThen(r, r.payload + rest);
    var bytes := EncodeRecord(r) + rest;
    assert bytes == HeaderOf(r.kind, r.payload) + (r.payload + rest);
    assert bytes[RECORD_HEADER_BYTES..RECORD_HEADER_BYTES + |r.payload|] == r.payload;
  }

  /** A record is refused for the first field of its header that is wrong, and only then for what follows it. */
  lemma RefusedRecords(vs: seq<int>, rest: seq<byte>)
    requires FitsRun(RECORD_FIELDS, vs)
    ensures var r := DecodeRecord(PutRun(RECORD_FIELDS, vs) + rest);
      && (vs[0] != 0x3152_4749 ==> r == Err(CorruptState))
      && (vs[0] == 0x3152_4749 && vs[1] != JOURNAL_VERSION ==> r == Err(UnsupportedVersion))
      && (vs[0] == 0x3152_4749 && vs[1] == JOURNAL_VERSION && !(1 <= vs[2] <= RECORD_TYPES) ==> r == Err(CorruptState))
      && (vs[0] == 0x3152_4749 && vs[1] == JOURNAL_VERSION && 1 <= vs[2] <= RECORD_TYPES ==>
            && (vs[3] > MAX_RECORD ==> r == Err(OversizedInput))
            && (|rest| < vs[3] <= MAX_RECORD ==> r == Err(TruncatedInput)))
  {
    hide TakeRun, PutRun, Checksum;
    FieldWidths();
    RunLength(RECORD_FIELDS, vs);
    TakeRunAfterPutRun(RECORD_FIELDS, vs, rest);
    assert Fits(RECORD_FIELDS[3], vs[3]);
  }

  lemma DecodedRecordIsEncoded(bytes: seq<byte>)
    requires DecodeRecord(bytes).Ok?
    ensures var (r, used) := DecodeRecord(bytes).value;
      |r.payload| <= MAX_RECORD && used == |EncodeRecord(r)| && EncodeRecord(r) == bytes[..used]
  {
    hide TakeRun, PutRun, Checksum;
    var (r, used) := DecodeRecord(bytes).value;
    FieldWidths();
    PutRunAfterTakeRun(RECORD_FIELDS, bytes);
    var vs := HeaderFields(bytes);
    assert vs == [RECORD_MAGIC, JOURNAL_VERSION, r.kind, |r.payload|, Checksum(r.payload)];
    RunLength(RECORD_FIELDS, vs);
    assert bytes[..RECORD_HEADER_BYTES] == HeaderOf(r.kind, r.payload);
    assert bytes[..used] == bytes[..RECORD_HEADER_BYTES] + bytes[RECORD_HEADER_BYTES..used];
  }

  /** Bytes decode to a record exactly when they begin with the encoding of that record. */
  lemma DecodesExactlyRecords(r: Record, bytes: seq<byte>)
    ensures DecodeRecord(bytes) == Ok((r, |EncodeRecord(r)|)) <==> |r.payload| <= MAX_RECORD && EncodeRecord(r) <= bytes
  {
    hide DecodeRecord, EncodeRecord;
    if DecodeRecord(bytes) == Ok((r, |EncodeRecord(r)|)) { DecodedRecordIsEncoded(bytes); }
    if |r.payload| <= MAX_RECORD && EncodeRecord(r) <= bytes {
      RecordRoundTrip(r, bytes[|EncodeRecord(r)|..]);
      assert bytes == EncodeRecord(r) + bytes[|EncodeRecord(r)|..];
    }
  }

  /** A record cut short is recognised as such. */
  lemma TornRecordIsTruncated(r: Record, n: nat)
    requires |r.payload| <= MAX_RECORD && n < |EncodeRecord(r)|
    ensures DecodeRecord(EncodeRecord(r)[..n]) == Err(TruncatedInput)
  {
    hide HeaderOf, TakeRun, Checksum;
    HeaderThen(r, []);
    if n >= RECORD_HEADER_BYTES {
      var rest := r.payload[..n - RECORD_HEADER_BYTES];
      HeaderThen(r, rest);
      assert EncodeRecord(r)[..n] == HeaderOf(r.kind, r.payload) + rest;
    }
  }

  /** A payload altered only within four consecutive bytes is always refused. */
  lemma DamagedRecordIsRefused(r: Record, damaged: seq<byte>, start: nat, rest: seq<byte>)
    requires |r.payload| <= MAX_RECORD && |damaged| == |r.payload| && damaged != r.payload
    requires forall k | 0 <= k < |damaged| && !(start <= k < start + 4) :: damaged[k] == r.payload[k]
    ensures DecodeRecord(HeaderOf(r.kind, r.payload) + damaged + rest) == Err(ChecksumMismatch)
  {
    hide HeaderOf, TakeRun, Checksum;
    HeaderThen(r, damaged + rest);
    BurstChangesChecksum(r.payload, damaged, start);
    var bytes := HeaderOf(r.kind, r.payload) + damaged + rest;
    assert bytes == HeaderOf(r.kind, r.payload) + (damaged + rest);
    assert bytes[RECORD_HEADER_BYTES..RECORD_HEADER_BYTES + |damaged|] == damaged;
  }

  // ----- Scanning -----

  /** What recovery reports. */
  datatype Report = Report(state: GovernorState, committed: bool, snapshotPresent: bool, snapshotLoaded: bool,
                           snapshotCorrupt: bool, journalPresent: bool, applied: nat, rejected: nat, discarded: nat,
                           ambiguous: bool)

  function Applied(acc: Report, r: Record): Report {
    var counted := acc.(applied := acc.applied + 1);
    if r.kind != STATE_COMMIT then counted
    else match DecodeState(r.payload)
      case Err(_) => counted.(rejected := acc.rejected + 1)
      case Ok(s) => counted.(state := s, committed := true)
  }

  /** A tail that does not decode ends the scan: a short or damaged one is discarded, any other counts as rejected. */
  function Stopped(acc: Report, code: ErrorCode, remaining: nat): Report {
    if code == TruncatedInput && remaining < RECORD_HEADER_BYTES then acc.(discarded := acc.discarded + remaining)
    else if code == TruncatedInput || code == ChecksumMismatch then
      acc.(discarded := acc.discarded + remaining, ambiguous := true)
    else acc.(rejected := acc.rejected + 1)
  }

  function Scan(bytes: seq<byte>, acc: Report): Report
    decreases |bytes|
  {
    if bytes == [] then acc
    else match DecodeRecord(bytes)
      case Err(code) => Stopped(acc, code, |bytes|)
      case Ok((r, used)) => Scan(bytes[used..], Applied(acc, r))
  }

  /** The scan of the program: an offset that advances over the bytes. */
  method ScanBytes(bytes: seq<byte>, start: nat, before: Report) returns (report: Report)
    requires start <= |bytes|
    ensures report == Scan(bytes[start..], before)
  {
    hide DecodeRecord, Applied, Stopped;
    report := before;
    var offset := start;
    while offset < |bytes|
      invariant start <= offset <= |bytes|
      invariant Scan(bytes[start..], before) == Scan(bytes[offset..], report)
      decreases |bytes| - offset
    {
      var decoded := DecodeRecord(bytes[offset..]);
      if decoded.Err? {
        return Stopped(report, decoded.code, |bytes| - offset);
      }
      assert bytes[offset..][decoded.value.1..] == bytes[offset + decoded.value.1..];
      report := Applied(report, decoded.value.0);
      offset := offset + decoded.value.1;
    }
  }

  /** Every byte belongs to a record that decodes. */
  predicate Whole(bytes: seq<byte>)
    decreases |bytes|
  {
    bytes == [] || (DecodeRecord(bytes).Ok? && Whole(bytes[DecodeRecord(bytes).value.1..]))
  }

  /** The last state committed by the records that a scan reaches. */
  function LastCommit(bytes: seq<byte>): Option<GovernorState>
    decreases |bytes|
  {
    if bytes == [] || DecodeRecord(bytes).Err? then None
    else
      var (r, used) := DecodeRecord(bytes).value;
      var later := LastCommit(bytes[used..]);
      if later.Some? || r.kind != STATE_COMMIT || DecodeState(r.payload).Err? then later
      else Some(DecodeState(r.payload).value)
  }

  function Or(newer: Option<GovernorState>, older: GovernorState): GovernorState {
    if newer.Some? then newer.value else older
  }

  /** A scan arrives at the last commit it reaches, and otherwise leaves the state as it was. */
  lemma {:induction false} ScanFindsLastCommit(bytes: seq<byte>, acc: Report)
    ensures Scan(bytes, acc).state == Or(LastCommit(bytes), acc.state)
    decreases |bytes|
  {
    hide DecodeRecord, DecodeState;
    if bytes != [] && DecodeRecord(bytes).Ok? {
      var (r, used) := DecodeRecord(bytes).value;
      ScanFindsLastCommit(bytes[used..], Applied(acc, r));
    }
  }

  // ----- What a scan counts -----

  /** How many records decode before the first that does not. */
  function RecordsIn(bytes: seq<byte>): nat
    decreases |bytes|
  {
    if bytes == [] || DecodeRecord(bytes).Err? then 0 else 1 + RecordsIn(bytes[DecodeRecord(bytes).value.1..])
  }

  /** How many of them are commits that hold no state. */
  function BadCommits(bytes: seq<byte>): nat
    decreases |bytes|
  {
    if bytes == [] || DecodeRecord(bytes).Err? then 0
    else
      var (r, used) := DecodeRecord(bytes).value;
      BadCommits(bytes[used..]) + if r.kind == 1 && DecodeState(r.payload).Err? then 1 else 0
  }

  /** What is left where the first record does not decode. */
  function Tail(bytes: seq<byte>): (t: seq<byte>)
    ensures |t| <= |bytes| && (t == [] || DecodeRecord(t).Err?)
    decreases |bytes|
  {
    if bytes == [] || DecodeRecord(bytes).Err? then bytes else Tail(bytes[DecodeRecord(bytes).value.1..])
  }

  predicate IsShort(t: seq<byte>) { t != [] && DecodeRecord(t) == Err(TruncatedInput) }

  predicate IsDamaged(t: seq<byte>) { t != [] && DecodeRecord(t) == Err(ChecksumMismatch) }

  /** What a tail adds to a report. */
  predicate Adds(t: seq<byte>, r: Report, acc: Report) {
    && r.rejected == acc.rejected + (if t != [] && !IsShort(t) && !IsDamaged(t) then 1 else 0)
    && r.discarded == acc.discarded + (if IsShort(t) || IsDamaged(t) then |t| else 0)
    && (r.ambiguous <==> acc.ambiguous || IsDamaged(t) || (IsShort(t) && |t| >= 16))
    && r == acc.(rejected := r.rejected, discarded := r.discarded, ambiguous := r.ambiguous)
  }

  lemma ScanOfTail(t: seq<byte>, acc: Report)
    requires t == [] || DecodeRecord(t).Err?
    ensures Scan(t, acc) == if t == [] then acc else Stopped(acc, DecodeRecord(t).code, |t|)
  {
    hide DecodeRecord, Applied, Stopped;
  }

  lemma StoppedIs(acc: Report, code: ErrorCode, n: nat)
    ensures var (r, known) := (Stopped(acc, code, n), code == TruncatedInput || code == ChecksumMismatch);
      && r.rejected == acc.rejected + (if known then 0 else 1) && r.discarded == acc.discarded + (if known then n else 0)
      && (r.ambiguous <==> acc.ambiguous || code == ChecksumMismatch || (code == TruncatedInput && n >= 16))
      && r == acc.(rejected := r.rejected, discarded := r.discarded, ambiguous := r.ambiguous)
  {}

  lemma StoppedAdds(t: seq<byte>, acc: Report)
    requires t != [] && DecodeRecord(t).Err?
    ensures Adds(t, Stopped(acc, DecodeRecord(t).code, |t|), acc)
  {
    hide DecodeRecord, Applied, Scan, Stopped;
    StoppedIs(acc, DecodeRecord(t).code, |t|);
  }

  lemma StoppingAdds(t: seq<byte>, acc: Report)
    requires t == [] || DecodeRecord(t).Err?
    ensures Adds(t, Scan(t, acc), acc)
  {
    hide DecodeRecord, Scan, Stopped;
    ScanOfTail(t, acc);
    if t != [] { StoppedAdds(t, acc); }
  }

  /** The report once every record that decodes has been applied. */
  function Reading(bytes: seq<byte>, acc: Report): Report
    decreases |bytes|
  {
    if bytes == [] || DecodeRecord(bytes).Err? then acc
    else Reading(bytes[DecodeRecord(bytes).value.1..], Applied(acc, DecodeRecord(bytes).value.0))
  }

  lemma {:induction false} ScanStopsAtTheTail(bytes: seq<byte>, acc: Report)
    ensures Scan(bytes, acc) == Scan(Tail(bytes), Reading(bytes, acc))
    decreases |bytes|
  {
    hide DecodeRecord, Applied, Stopped;
    if bytes != [] && DecodeRecord(bytes).Ok? {
      ScanStopsAtTheTail(bytes[DecodeRecord(bytes).value.1..], Applied(acc, DecodeRecord(bytes).value.0));
    }
  }

  /** What a report says about the files, which no record changes. */
  predicate SameFiles(r: Report, acc: Report) {
    && r.snapshotPresent == acc.snapshotPresent && r.snapshotLoaded == acc.snapshotLoaded
    && r.snapshotCorrupt == acc.snapshotCorrupt && r.journalPresent == acc.journalPresent
  }

  lemma AppliedFiles(acc: Report, r: Record)
    ensures SameFiles(Applied(acc, r), acc)
  {
    hide DecodeState;
  }

  lemma AppliedCounts(acc: Report, r: Record)
    ensures var after, bad := Applied(acc, r), r.kind == 1 && DecodeState(r.payload).Err?;
      && after.applied == acc.applied + 1 && after.rejected == acc.rejected + (if bad then 1 else 0)
      && after.discarded == acc.discarded && after.ambiguous == acc.ambiguous
      && (after.committed <==> acc.committed || (r.kind == 1 && !bad))
  {
    hide DecodeState;
  }

  lemma {:induction false} ReadingCounts(bytes: seq<byte>, acc: Report)
    ensures var r := Reading(bytes, acc);
      && r.applied == acc.applied + RecordsIn(bytes) && r.rejected == acc.rejected + BadCommits(bytes)
      && r.discarded == acc.discarded && r.ambiguous == acc.ambiguous && SameFiles(r, acc)
    ensures Reading(bytes, acc).committed <==> acc.committed || LastCommit(bytes).Some?
    decreases |bytes|
  {
    hide DecodeRecord, DecodeState, Applied;
    if bytes != [] && DecodeRecord(bytes).Ok? {
      AppliedCounts(acc, DecodeRecord(bytes).value.0);
      AppliedFiles(acc, DecodeRecord(bytes).value.0);
      ReadingCounts(bytes[DecodeRecord(bytes).value.1..], Applied(acc, DecodeRecord(bytes).value.0));
    }
  }

  /** THE REPORT.  A scan counts every record it reads, rejects commits that hold no state and a tail that is no record, and
      discards a short or damaged tail, byte by byte; the tail is ambiguous unless it is too short for a header. */
  lemma ScanReports(bytes: seq<byte>, acc: Report)
    ensures var (r, read) := (Scan(bytes, acc), Reading(bytes, acc));
      && Adds(Tail(bytes), r, read) && r.applied == read.applied == acc.applied + RecordsIn(bytes)
      && read.rejected == acc.rejected + BadCommits(bytes) && read.discarded == acc.discarded
      && read.ambiguous == acc.ambiguous && (r.committed <==> acc.committed || LastCommit(bytes).Some?)
      && SameFiles(r, acc)
  {
    hide DecodeRecord, Scan, Reading, Adds, RecordsIn, BadCommits, LastCommit, Tail;
    ScanStopsAtTheTail(bytes, acc);
    ReadingCounts(bytes, acc);
    StoppingAdds(Tail(bytes), Reading(bytes, acc));
    AddsKeeps(Tail(bytes), Scan(bytes, acc), Reading(bytes, acc));
  }

  lemma AddsKeeps(t: seq<byte>, r: Report, acc: Report)
    requires Adds(t, r, acc)
    ensures r.applied == acc.applied && r.committed == acc.committed && r.state == acc.state && SameFiles(r, acc)
  {}

  /** A record that decodes does so whatever comes after it. */
  lemma DecodesWithMore(a: seq<byte>, b: seq<byte>)
    requires DecodeRecord(a).Ok?
    ensures DecodeRecord(a + b) == DecodeRecord(a)
  {
    hide TakeRun, Checksum;
    FieldWidths();
    TakeRunShort(RECORD_FIELDS, a);
    TakeRunShort(RECORD_FIELDS, a + b);
    SameHeader(a, b);
    var end := DecodeRecord(a).value.1;
    assert (a + b)[RECORD_HEADER_BYTES..end] == a[RECORD_HEADER_BYTES..end];
  }

  lemma SameHeader(a: seq<byte>, b: seq<byte>)
    requires |a| >= RECORD_HEADER_BYTES
    ensures TakeRun(RECORD_FIELDS, a).Ok? && TakeRun(RECORD_FIELDS, a + b).Ok?
    ensures TakeRun(RECORD_FIELDS, a + b).value.0 == TakeRun(RECORD_FIELDS, a).value.0
  {
    hide TakeRun;
    FieldWidths();
    TakeRunShort(RECORD_FIELDS, a);
    TakeRunShort(RECORD_FIELDS, a + b);
    PutRunAfterTakeRun(RECORD_FIELDS, a);
    var (vs, rest) := TakeRun(RECORD_FIELDS, a).value;
    assert a + b == PutRun(RECORD_FIELDS, vs) + (rest + b);
    TakeRunAfterPutRun(RECORD_FIELDS, vs, rest + b);
  }

  /** Appending to a whole journal: the scan goes on into what was appended. */
  lemma {:induction false} WholeThenMore(a: seq<byte>, b: seq<byte>)
    requires Whole(a)
    ensures Whole(a + b) <==> Whole(b)
    ensures LastCommit(a + b) == if LastCommit(b).Some? then LastCommit(b) else LastCommit(a)
    decreases |a|
  {
    hide DecodeRecord, DecodeState;
    if a == [] {
      assert a + b == b;
    } else {
      var (r, used) := DecodeRecord(a).value;
      DecodesWithMore(a, b);
      assert (a + b)[used..] == a[used..] + b;
      WholeThenMore(a[used..], b);
    }
  }

  function CommitRecord(s: GovernorState): Record
    requires |s.lastSequence| == CLASSES
  {
    Record(STATE_COMMIT, EncodeState(s))
  }

  /** A committed state is what its own record recovers; a torn record recovers nothing. */
  lemma CommitIsFound(s: GovernorState)
    requires StorableState(s) && |EncodeState(s)| <= MAX_RECORD
    ensures Whole(EncodeRecord(CommitRecord(s))) && LastCommit(EncodeRecord(CommitRecord(s))) == Some(s)
    ensures forall n | 0 <= n < |EncodeRecord(CommitRecord(s))| ::
      LastCommit(EncodeRecord(CommitRecord(s))[..n]) == None && (n > 0 ==> !Whole(EncodeRecord(CommitRecord(s))[..n]))
  {
    hide DecodeRecord, DecodeState, EncodeState, HeaderOf, EncodeRecord;
    var r := CommitRecord(s);
    var bytes := EncodeRecord(r);
    RecordRoundTrip(r, []);
    assert bytes + [] == bytes;
    StateRoundTrip(s, []);
    assert EncodeState(s) + [] == EncodeState(s);
    assert bytes[|bytes|..] == [];
    forall n | 0 <= n < |bytes| ensures LastCommit(bytes[..n]) == None && (n > 0 ==> !Whole(bytes[..n])) {
      TornRecordIsTruncated(r, n);
    }
  }

  // ----- A torn header followed by another record -----

  lemma FieldsInOrder(vs: seq<int>)
    requires |vs| == 5
    ensures PutRun(RECORD_FIELDS, vs)
         == Put(U32, vs[0]) + (Put(U16, vs[1]) + (Put(U16, vs[2]) + (Put(U32, vs[3]) + (Put(U32, vs[4]) + []))))
  {
    hide Put;
    assert PutRun(RECORD_FIELDS[5..], vs[5..]) == [];
    assert PutRun(RECORD_FIELDS[4..], vs[4..]) == Put(U32, vs[4]) + [];
    assert PutRun(RECORD_FIELDS[3..], vs[3..]) == Put(U32, vs[3]) + (Put(U32, vs[4]) + []);
    assert PutRun(RECORD_FIELDS[2..], vs[2..]) == Put(U16, vs[2]) + (Put(U32, vs[3]) + (Put(U32, vs[4]) + []));
    assert PutRun(RECORD_FIELDS[1..], vs[1..])
        == Put(U16, vs[1]) + (Put(U16, vs[2]) + (Put(U32, vs[3]) + (Put(U32, vs[4]) + [])));
  }

  lemma SmallFields(v: nat)
    ensures v < 256 ==> Put(U16, v) == [v, 0]
    ensures v < 0x100_0000 ==> Put(U32, v)[3] == 0
    ensures Put(U32, RECORD_MAGIC) == [0x49, 0x47, 0x52, 0x31]
  {
    if v < 256 {
      assert PutInt(v, 2) == [v] + PutInt(0, 1);
    }
    if v < 0x100_0000 {
      assert PutInt(v, 4)[3] == PutInt(v / 256, 3)[2] == PutInt(v / 256 / 256, 2)[1] == PutInt(v / 256 / 256 / 256, 1)[0];
    }
    assert PutInt(RECORD_MAGIC, 4) == [0x49] + PutInt(0x31_5247, 3);
    assert PutInt(0x31_5247, 3) == [0x47] + PutInt(0x3152, 2);
    assert PutInt(0x3152, 2) == [0x52] + PutInt(0x31, 1);
  }

  /** Bytes every header of a record has in common. */
  predicate HeaderLike(bytes: seq<byte>) {
    |bytes| >= RECORD_HEADER_BYTES && bytes[..4] == [0x49, 0x47, 0x52, 0x31] && bytes[4] == 1 && bytes[5] == 0
    && bytes[7] == 0 && bytes[11] == 0
  }

  lemma DecodedHeaders(bytes: seq<byte>)
    requires DecodeRecord(bytes).Ok?
    ensures HeaderLike(bytes)
  {
    hide TakeRun, Checksum, PutRun, Put;
    FieldWidths();
    TakeRunShort(RECORD_FIELDS, bytes);
    PutRunAfterTakeRun(RECORD_FIELDS, bytes);
    var (vs, rest) := TakeRun(RECORD_FIELDS, bytes).value;
    FieldsInOrder(vs);
    SmallFields(vs[1]);
    SmallFields(vs[2]);
    SmallFields(vs[3]);
  }

  lemma EncodedStart(r: Record)
    requires |r.payload| <= MAX_RECORD
    ensures |EncodeRecord(r)| >= RECORD_HEADER_BYTES && EncodeRecord(r)[..4] == [0x49, 0x47, 0x52, 0x31]
  {
    hide DecodeRecord, HeaderOf, EncodeRecord;
    RecordRoundTrip(r, []);
    assert EncodeRecord(r) + [] == EncodeRecord(r);
    DecodedHeaders(EncodeRecord(r));
  }

  /** The first bytes of a torn header swallow the record appended after them: nothing there ever decodes. */
  lemma TornHeaderSwallows(torn: Record, next: Record, n: nat, rest: seq<byte>)
    requires |torn.payload| <= MAX_RECORD && |next.payload| <= MAX_RECORD && 1 <= n <= 11
    requires n <= |EncodeRecord(torn)|
    ensures DecodeRecord(EncodeRecord(torn)[..n] + EncodeRecord(next) + rest).Err?
  {
    hide DecodeRecord, EncodeRecord;
    EncodedStart(torn);
    EncodedStart(next);
    var bytes := EncodeRecord(torn)[..n] + EncodeRecord(next) + rest;
    assert bytes[n] == EncodeRecord(next)[0] == 0x49;
    assert bytes[n + 1] == EncodeRecord(next)[1] == 0x47;
    assert bytes[n + 2] == EncodeRecord(next)[2] == 0x52;
    assert bytes[n + 3] == EncodeRecord(next)[3] == 0x31;
    assert bytes[..4][1] == bytes[1] && bytes[..4][2] == bytes[2] && bytes[..4][3] == bytes[3];
    if DecodeRecord(bytes).Ok? { DecodedHeaders(bytes); }
  }

  // ----- A record torn anywhere and followed by another -----

  /** The header up to the checksum: twelve bytes. */
  function Announced(r: Record): (bs: seq<byte>)
    ensures |bs| == 12
  {
    Put(U32, RECORD_MAGIC) + (Put(U16, JOURNAL_VERSION) + (Put(U16, r.kind) + Put(U32, |r.payload|)))
  }

  /** A header whose checksum word is any number of 32 bits. */
  lemma AnyHeader(r: Record, c: u32)
    ensures PutRun(RECORD_FIELDS, [RECORD_MAGIC, JOURNAL_VERSION, r.kind, |r.payload|, c]) == Announced(r) + Put(U32, c)
  {
    hide Put, PutRun;
    FieldsInOrder([RECORD_MAGIC, JOURNAL_VERSION, r.kind, |r.payload|, c]);
    assert Put(U32, c) + [] == Put(U32, c);
  }

  lemma RecordStarts(r: Record)
    ensures EncodeRecord(r) == Announced(r) + Put(U32, Checksum(r.payload)) + r.payload
  {
    hide Put, PutRun, Checksum, Announced;
    AnyHeader(r, Checksum(r.payload));
  }

  /** The checksum word of some bytes that are read as a header. */
  function ChecksumWord(bytes: seq<byte>): (c: u32)
    requires |bytes| >= RECORD_HEADER_BYTES
    ensures Put(U32, c) == bytes[12..16]
  {
    Widths();
    PutAfterGet(bytes[12..16]);
    GetInt(bytes[12..16])
  }

  /** What a record announces is all that decoding goes by: how many bytes follow, and whether their checksum is the
      word in front of them. */
  lemma AnnouncedDecides(r: Record, bytes: seq<byte>)
    requires |r.payload| <= MAX_RECORD && |bytes| >= 12 && bytes[..12] == Announced(r)
    ensures var end := RECORD_HEADER_BYTES + |r.payload|;
      DecodeRecord(bytes) ==
        if |bytes| < end then Err(TruncatedInput)
        else if ChecksumWord(bytes) != Checksum(bytes[RECORD_HEADER_BYTES..end]) then Err(ChecksumMismatch)
        else Ok((Record(r.kind, bytes[RECORD_HEADER_BYTES..end]), end))
  {
    hide Put, PutRun, TakeRun, Checksum, Announced, GetInt;
    if |bytes| >= RECORD_HEADER_BYTES {
      var c, rest := ChecksumWord(bytes), bytes[RECORD_HEADER_BYTES..];
      var vs := [RECORD_MAGIC, JOURNAL_VERSION, r.kind, |r.payload|, c];
      AnyHeader(r, c);
      assert bytes == (bytes[..12] + bytes[12..16]) + rest;
      assert bytes == PutRun(RECORD_FIELDS, vs) + rest;
      TakeRunAfterPutRun(RECORD_FIELDS, vs, rest);
    }
  }

  /** The bytes of a torn record and of the record appended behind it complete the torn one. */
  predicate Completes(torn: Record, n: nat, next: Record, rest: seq<byte>)
    requires 1 <= n < |EncodeRecord(torn)|
  {
    var bytes, end := EncodeRecord(torn)[..n] + EncodeRecord(next) + rest, |EncodeRecord(torn)|;
    n >= 12 && RECORD_HEADER_BYTES <= end <= |bytes| && ChecksumWord(bytes) == Checksum(bytes[RECORD_HEADER_BYTES..end])
  }

  /** TORN TAILS.  A record torn anywhere, with another appended behind it, decodes exactly when it is torn behind its
      length field, enough bytes follow, and the checksum word is the checksum of the payload that they complete. */
  lemma TornRecordDecodesExactlyWhen(torn: Record, n: nat, next: Record, rest: seq<byte>)
    requires |torn.payload| <= MAX_RECORD && |next.payload| <= MAX_RECORD && 1 <= n < |EncodeRecord(torn)|
    ensures DecodeRecord(EncodeRecord(torn)[..n] + EncodeRecord(next) + rest).Ok? <==> Completes(torn, n, next, rest)
  {
    hide DecodeRecord, EncodeRecord, Checksum, Announced, ChecksumWord;
    RecordStarts(torn);
    RecordRoundTrip(torn, []);
    if n <= 11 {
      TornHeaderSwallows(torn, next, n, rest);
    } else {
      var bytes := EncodeRecord(torn)[..n] + EncodeRecord(next) + rest;
      assert bytes[..12] == EncodeRecord(torn)[..12] == Announced(torn);
      AnnouncedDecides(torn, bytes);
    }
  }

  /** Torn behind its header with too little behind it, the record stays truncated. */
  lemma ShortTailsAreTruncated(torn: Record, n: nat, next: Record, rest: seq<byte>)
    requires |torn.payload| <= MAX_RECORD && RECORD_HEADER_BYTES <= n < |EncodeRecord(torn)|
    requires n + |EncodeRecord(next)| + |rest| < |EncodeRecord(torn)|
    ensures DecodeRecord(EncodeRecord(torn)[..n] + EncodeRecord(next) + rest) == Err(TruncatedInput)
  {
    hide DecodeRecord, EncodeRecord, Checksum, Announced, ChecksumWord;
    RecordRoundTrip(torn, []);
    RecordStarts(torn);
    var bytes := EncodeRecord(torn)[..n] + EncodeRecord(next) + rest;
    assert bytes[..12] == EncodeRecord(torn)[..12] == Announced(torn);
    AnnouncedDecides(torn, bytes);
  }

  /** Torn within its last four bytes, a record decodes exactly when the bytes that follow happen to be the missing ones;
      it is refused for its checksum otherwise. */
  lemma LastBytesDecide(torn: Record, n: nat, more: seq<byte>)
    requires |torn.payload| <= MAX_RECORD && RECORD_HEADER_BYTES <= n < |EncodeRecord(torn)| <= n + 4
    requires |more| >= 4
    ensures var bytes := EncodeRecord(torn)[..n] + more;
      DecodeRecord(bytes) == if EncodeRecord(torn) <= bytes then Ok((torn, |EncodeRecord(torn)|)) else Err(ChecksumMismatch)
  {
    hide DecodeRecord, Checksum, HeaderOf;
    RecordRoundTrip(torn, []);
    HeaderThen(torn, []);
    var bytes, end := EncodeRecord(torn)[..n] + more, |EncodeRecord(torn)|;
    var head, damaged, rest := HeaderOf(torn.kind, torn.payload), bytes[RECORD_HEADER_BYTES..end], bytes[end..];
    assert bytes[..RECORD_HEADER_BYTES] == head;
    assert bytes == head + damaged + rest;
    assert EncodeRecord(torn) <= bytes <==> damaged == torn.payload by {
      assert bytes[..end] == head + damaged;
    }
    if damaged == torn.payload {
      assert bytes == EncodeRecord(torn) + rest;
      RecordRoundTrip(torn, rest);
    } else {
      Kept(torn, n, more);
      DamagedRecordIsRefused(torn, damaged, n - RECORD_HEADER_BYTES, rest);
    }
  }

  lemma Kept(torn: Record, n: nat, more: seq<byte>)
    requires |HeaderOf(torn.kind, torn.payload)| == RECORD_HEADER_BYTES <= n < |EncodeRecord(torn)| <= n + |more|
    ensures forall k | 0 <= k < n - RECORD_HEADER_BYTES ::
      (EncodeRecord(torn)[..n] + more)[RECORD_HEADER_BYTES..|EncodeRecord(torn)|][k] == torn.payload[k]
  {
    hide HeaderOf;
  }

  /** Behind a whole journal a torn record is what is left. */
  lemma {:induction false} TornTailIsLeft(a: seq<byte>, t: seq<byte>)
    requires Whole(a) && (t == [] || DecodeRecord(t).Err?)
    ensures Tail(a + t) == t && RecordsIn(a + t) == RecordsIn(a)
    decreases |a|
  {
    hide DecodeRecord;
    if a == [] {
      assert a + t == t;
    } else {
      var used := DecodeRecord(a).value.1;
      DecodesWithMore(a, t);
      assert (a + t)[used..] == a[used..] + t;
      TornTailIsLeft(a[used..], t);
    }
  }

  /** A crash inside an append is reported as so many bytes discarded, ambiguous once the header is complete. */
  lemma TornTailIsReported(a: seq<byte>, torn: Record, n: nat, acc: Report)
    requires Whole(a) && |torn.payload| <= MAX_RECORD && 0 < n < |EncodeRecord(torn)|
    ensures var r := Scan(a + EncodeRecord(torn)[..n], acc);
      && r.discarded == acc.discarded + n && (r.ambiguous <==> acc.ambiguous || n >= 16)
      && r.applied == acc.applied + RecordsIn(a)
  {
    hide DecodeRecord, EncodeRecord, Scan, Whole;
    var t := EncodeRecord(torn)[..n];
    TornRecordIsTruncated(torn, n);
    TornTailIsLeft(a, t);
    ScanReports(a + t, acc);
  }
}
